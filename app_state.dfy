/**
 * `AppState`: which destinations show the bottom navigation bar, and the route
 * that `navigateToDetail` goes to.
 */
module AppState {
  import opened Wrappers
  import Routes

  /** `String.startsWith`. */
  predicate StartsWith(s: string, prefix: string) {
    |prefix| <= |s| && s[..|prefix|] == prefix
  }

  /**
   * `shouldShowBottomBar` over the current destination's route (None when there
   * is no destination yet): shown everywhere except at login and on the detail
   * and notes screens.
   */
  function ShouldShowBottomBar(route: Option<string>): (r: bool)
    ensures r ==> route.Some? && route.value !in {Routes.Login, Routes.Detail, Routes.Notes}
  {
    assert Routes.Detail[..|Routes.DetailPrefix|] == Routes.DetailPrefix;
    assert Routes.Notes[..|Routes.NotesPrefix|] == Routes.NotesPrefix;
    && route.Some?
    && route.value != Routes.Login
    && !StartsWith(route.value, Routes.DetailPrefix)
    && !StartsWith(route.value, Routes.NotesPrefix)
  }

  /** The destination string of `navigateToDetail(movieId)`: "detail/" and the id. */
  function NavigateToDetailRoute(movieId: int): (r: string)
    ensures r == Routes.DetailRoute(movieId)
  {
    "detail/" + Routes.Decimal.IntToString(movieId)
  }

  /** Hidden with no destination and at login; shown at home and in the settings. */
  lemma BottomBarOnPatterns()
    ensures !ShouldShowBottomBar(None)
    ensures !ShouldShowBottomBar(Some(Routes.Login))
    ensures ShouldShowBottomBar(Some(Routes.Home))
    ensures ShouldShowBottomBar(Some(Routes.Settings))
    ensures !ShouldShowBottomBar(Some(Routes.Detail))
    ensures !ShouldShowBottomBar(Some(Routes.Notes))
  {
    assert Routes.Settings[..|Routes.DetailPrefix|][0] != Routes.DetailPrefix[0];
    assert Routes.Settings[..|Routes.NotesPrefix|][0] != Routes.NotesPrefix[0];
    assert Routes.Detail[..|Routes.DetailPrefix|] == Routes.DetailPrefix;
    assert Routes.Notes[..|Routes.NotesPrefix|] == Routes.NotesPrefix;
  }

  /** Every built detail or notes route, for any id, hides the bar. */
  lemma BottomBarHiddenOnCreatedRoutes(movieId: int)
    ensures !ShouldShowBottomBar(Some(Routes.DetailRoute(movieId)))
    ensures !ShouldShowBottomBar(Some(Routes.NotesRoute(movieId)))
    ensures !ShouldShowBottomBar(Some(NavigateToDetailRoute(movieId)))
  {
  }
}
