/**
 * `Routes`: the navigation destinations, each a route pattern, and the two
 * builders that put a movie id into the detail and notes routes.
 */
module Routes {
  import Decimal

  const Login := "login"
  const Home := "home"
  const Detail := "detail/{movieId}"
  const Notes := "notes/{movieId}"
  const Settings := "settings"

  const DetailPrefix := "detail/"
  const NotesPrefix := "notes/"

  /** `Detail.createRoute`: "detail/" followed by the id in decimal. */
  function DetailRoute(movieId: int): (r: string)
    ensures |r| > |DetailPrefix| && r[..|DetailPrefix|] == DetailPrefix
    ensures Decimal.ParseInt(r[|DetailPrefix|..]).Some?
    ensures Decimal.ParseInt(r[|DetailPrefix|..]).value == movieId
  {
    Decimal.IntRoundTrip(movieId);
    var r := DetailPrefix + Decimal.IntToString(movieId);
    assert r[|DetailPrefix|..] == Decimal.IntToString(movieId);
    r
  }

  /** `Notes.createRoute`: "notes/" followed by the id in decimal. */
  function NotesRoute(movieId: int): (r: string)
    ensures |r| > |NotesPrefix| && r[..|NotesPrefix|] == NotesPrefix
    ensures Decimal.ParseInt(r[|NotesPrefix|..]).Some?
    ensures Decimal.ParseInt(r[|NotesPrefix|..]).value == movieId
  {
    Decimal.IntRoundTrip(movieId);
    var r := NotesPrefix + Decimal.IntToString(movieId);
    assert r[|NotesPrefix|..] == Decimal.IntToString(movieId);
    r
  }

  /** Distinct ids give distinct routes, for both builders. */
  lemma CreateRouteInjective(a: int, b: int)
    ensures DetailRoute(a) == DetailRoute(b) <==> a == b
    ensures NotesRoute(a) == NotesRoute(b) <==> a == b
  {
    if DetailRoute(a) == DetailRoute(b) {
      assert DetailRoute(a)[|DetailPrefix|..] == DetailRoute(b)[|DetailPrefix|..];
    }
    if NotesRoute(a) == NotesRoute(b) {
      assert NotesRoute(a)[|NotesPrefix|..] == NotesRoute(b)[|NotesPrefix|..];
    }
  }

  /** A detail route is never a notes route: the first letters differ. */
  lemma DetailIsNotNotes(a: int, b: int)
    ensures DetailRoute(a) != NotesRoute(b)
  {
    assert DetailRoute(a)[0] == 'd' && NotesRoute(b)[0] == 'n';
  }

  /** The five route patterns are pairwise distinct. */
  lemma PatternsDistinct()
    ensures var ps := [Login, Home, Detail, Notes, Settings];
      forall i, j :: 0 <= i < j < |ps| ==> ps[i] != ps[j]
  {
    var ps := [Login, Home, Detail, Notes, Settings];
    assert forall i :: 0 <= i < |ps| ==> ps[i][0] == ['l', 'h', 'd', 'n', 's'][i];
  }
}
