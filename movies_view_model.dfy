/**
 * The movie list screen's state holder: the derived list that `combine`
 * recomputes from the latest movie list, search query, favourites-only flag
 * and sort order, and the façade through which the screen changes those inputs.
 */
module MoviesUi {
  import opened Wrappers
  import opened MovieModel
  import opened Text
  import opened Seqs
  import opened MovieOrdering
  import opened Dao
  import opened Repository
  import opened UserPrefs

  /** The snapshot the screen renders; the defaults are those of the Kotlin data class. */
  datatype MoviesUiState = MoviesUiState(
    movies: seq<Movie> := [],
    isLoading: bool := false,
    error: Option<string> := None,
    searchQuery: string := "",
    showFavoritesOnly: bool := false,
    sortOrder: string := "title")

  /** The value the state holds before `combine` first emits: the defaults, loading. */
  function InitialUiState(): (st: MoviesUiState)
    ensures st.isLoading && st.movies == [] && st.error == None
    ensures st.searchQuery == "" && !st.showFavoritesOnly && st.sortOrder == "title"
  {
    MoviesUiState(isLoading := true)
  }

  predicate IsFavorite(m: Movie) {
    m.isFavorite
  }

  /** The title or the director contains the query, ignoring case. */
  predicate MatchesQuery(query: string, m: Movie) {
    ContainsIgnoreCase(m.title, query) || ContainsIgnoreCase(m.director, query)
  }

  function QueryFilter(query: string): Movie -> bool {
    m => MatchesQuery(query, m)
  }

  /** Step 1: with the flag set, only favourites. */
  function FavoritesStep(movies: seq<Movie>, favoritesOnly: bool): seq<Movie> {
    if favoritesOnly then Filter(movies, IsFavorite) else movies
  }

  /** Step 2: a non-blank query (not trimmed) keeps the movies it matches. */
  function SearchStep(movies: seq<Movie>, query: string): seq<Movie> {
    if !IsBlank(query) then Filter(movies, QueryFilter(query)) else movies
  }

  /** Step 3: the `when (sortOrder)`; an unknown order leaves the list as it is. */
  function SortStep(movies: seq<Movie>, sortOrder: string): seq<Movie> {
    match ParseSortOrder(sortOrder)
    case None => movies
    case Some(key) => SortBy(key, movies)
  }

  /** A movie passes both filters. */
  predicate Visible(m: Movie, query: string, favoritesOnly: bool) {
    (!favoritesOnly || m.isFavorite) && (IsBlank(query) || MatchesQuery(query, m))
  }

  /** Steps 1 and 2: exactly the visible movies, each as often as in the input, in input order. */
  function Filtered(movies: seq<Movie>, query: string, favoritesOnly: bool): (r: seq<Movie>)
    ensures forall m :: multiset(r)[m] == if Visible(m, query, favoritesOnly) then multiset(movies)[m] else 0
    ensures IsSubsequence(r, movies)
  {
    var favorites := FavoritesStep(movies, favoritesOnly);
    var r := SearchStep(favorites, query);
    SubsequenceReflexive(movies);
    SubsequenceReflexive(favorites);
    SubsequenceTransitive(r, favorites, movies);
    r
  }

  lemma SortByStableAll(key: SortKey, s: seq<Movie>)
    ensures forall m :: KeyClass(key, m, SortBy(key, s)) == KeyClass(key, m, s)
  {
    forall m ensures KeyClass(key, m, SortBy(key, s)) == KeyClass(key, m, s) {
      SortByStable(key, m, s);
    }
  }

  /** Step 3 keeps the movies and puts them in the requested order. */
  lemma SortStepOrder(filtered: seq<Movie>, sortOrder: string)
    ensures multiset(SortStep(filtered, sortOrder)) == multiset(filtered)
    ensures var r := SortStep(filtered, sortOrder);
      && (sortOrder == "title" ==> forall i, j :: 0 <= i < j < |r| ==> LexLe(r[i].title, r[j].title))
      && (sortOrder == "year" ==> forall i, j :: 0 <= i < j < |r| ==> r[i].year >= r[j].year)
      && (sortOrder == "rating" ==> forall i, j :: 0 <= i < j < |r| ==> r[i].rating >= r[j].rating)
      && (sortOrder == "date" ==> forall i, j :: 0 <= i < j < |r| ==> WatchedKey(r[i]) >= WatchedKey(r[j]))
  {
    var r := SortStep(filtered, sortOrder);
    match ParseSortOrder(sortOrder)
    case None =>
    case Some(key) =>
      assert Sorted(key, r);
  }

  /** Step 3 keeps movies with equal keys in their input order, and an unknown order changes nothing. */
  lemma SortStepStable(filtered: seq<Movie>, sortOrder: string)
    ensures forall key, m | ParseSortOrder(sortOrder) == Some(key) ::
      KeyClass(key, m, SortStep(filtered, sortOrder)) == KeyClass(key, m, filtered)
    ensures ParseSortOrder(sortOrder) == None ==> SortStep(filtered, sortOrder) == filtered
  {
    match ParseSortOrder(sortOrder)
    case None =>
    case Some(key) =>
      SortByStableAll(key, filtered);
  }

  /**
   * The `combine` lambda. The result holds the visible movies with their input
   * multiplicities, sorted by the requested key with ties in input order, or
   * in input order for an unknown key; the inputs are echoed, loading is over
   * and there is no error.
   */
  function Combine(movies: seq<Movie>, query: string, favoritesOnly: bool, sortOrder: string): (st: MoviesUiState)
    ensures !st.isLoading && st.error == None
    ensures st.searchQuery == query && st.showFavoritesOnly == favoritesOnly && st.sortOrder == sortOrder
    ensures forall m :: multiset(st.movies)[m] == if Visible(m, query, favoritesOnly) then multiset(movies)[m] else 0
    ensures sortOrder == "title" ==>
      forall i, j :: 0 <= i < j < |st.movies| ==> LexLe(st.movies[i].title, st.movies[j].title)
    ensures sortOrder == "year" ==>
      forall i, j :: 0 <= i < j < |st.movies| ==> st.movies[i].year >= st.movies[j].year
    ensures sortOrder == "rating" ==>
      forall i, j :: 0 <= i < j < |st.movies| ==> st.movies[i].rating >= st.movies[j].rating
    ensures sortOrder == "date" ==>
      forall i, j :: 0 <= i < j < |st.movies| ==> WatchedKey(st.movies[i]) >= WatchedKey(st.movies[j])
    ensures forall key, m | ParseSortOrder(sortOrder) == Some(key) ::
      KeyClass(key, m, st.movies) == KeyClass(key, m, Filtered(movies, query, favoritesOnly))
    ensures ParseSortOrder(sortOrder) == None ==> st.movies == Filtered(movies, query, favoritesOnly)
  {
    var filtered := Filtered(movies, query, favoritesOnly);
    SortStepOrder(filtered, sortOrder);
    SortStepStable(filtered, sortOrder);
    MoviesUiState(SortStep(filtered, sortOrder), false, None, query, favoritesOnly, sortOrder)
  }

  /** Whatever the query, flag and order, an empty collection gives an empty, settled snapshot. */
  lemma CombineEmpty(query: string, favoritesOnly: bool, sortOrder: string)
    ensures Combine([], query, favoritesOnly, sortOrder).movies == []
    ensures !Combine([], query, favoritesOnly, sortOrder).isLoading
    ensures Combine([], query, favoritesOnly, sortOrder).error == None
  {
  }

  /** A character matches a lower-case ASCII letter, ignoring case, only when it is that letter in either case. */
  lemma AsciiLetterIgnoreCase(c: char, x: char)
    requires 'a' <= x <= 'z'
    ensures CharEqualsIgnoreCase(c, x) <==> c == x || c == UpperChar(x)
  {
  }

  const Alien := Movie(id := 1, title := "Alien", director := "Ridley Scott", year := 1979, genre := "Terror", rating := 8)
  const Amelie := Movie(id := 2, title := "Amélie", director := "Jeunet", year := 2001, genre := "Comedia", rating := 8, isFavorite := true)

  /** With the favourites-only flag and no query, only the favourite is left. */
  lemma FavoritesOnlyScenario()
    ensures Combine([Alien, Amelie], "", true, "title").movies == [Amelie]
  {
    assert Filter([Amelie], IsFavorite) == [Amelie];
    assert Filter([Alien, Amelie], IsFavorite) == Filter([Amelie], IsFavorite);
    assert Filtered([Alien, Amelie], "", true) == [Amelie];
    assert SortBy(ByTitle, [Amelie]) == Insert(ByTitle, Amelie, SortBy(ByTitle, []));
  }

  /** "ali" occurs, ignoring case, in the title "Alien" but in neither the title nor the director of "Amélie". */
  lemma AliMatches()
    ensures MatchesQuery("ali", Alien)
    ensures !MatchesQuery("ali", Amelie)
  {
    assert RegionMatchesIgnoreCase(Alien.title, 0, "ali");
    var title, director := Amelie.title, Amelie.director;
    forall i | 0 <= i <= |title| - 3
      ensures !RegionMatchesIgnoreCase(title, i, "ali")
    {
      AsciiLetterIgnoreCase(title[i], 'a');
      AsciiLetterIgnoreCase(title[i + 1], 'l');
      if i == 0 {
        assert title[1] == 'm' && !CharEqualsIgnoreCase(title[i + 1], "ali"[1]);
      } else {
        assert title[i] in {'m', 'é', 'l'} && !CharEqualsIgnoreCase(title[i], "ali"[0]);
      }
    }
    forall i | 0 <= i <= |director| - 3
      ensures !RegionMatchesIgnoreCase(director, i, "ali")
    {
      AsciiLetterIgnoreCase(director[i], 'a');
      assert director[i] in {'J', 'e', 'u', 'n'} && !CharEqualsIgnoreCase(director[i], "ali"[0]);
    }
  }

  /** The query "ali" keeps "Alien" and drops "Amélie". */
  lemma SearchScenario()
    ensures Combine([Alien, Amelie], "ali", false, "title").movies == [Alien]
  {
    AliMatches();
    assert !IsWhitespace("ali"[0]);
    assert QueryFilter("ali")(Alien) && !QueryFilter("ali")(Amelie);
    FilterCons(Alien, [Amelie], QueryFilter("ali"));
    FilterCons(Amelie, [], QueryFilter("ali"));
    assert Filtered([Alien, Amelie], "ali", false) == [Alien];
    assert SortBy(ByTitle, [Alien]) == Insert(ByTitle, Alien, SortBy(ByTitle, []));
  }

  /**
   * The view model: the search query it owns, the snapshot it last emitted, and
   * the repository and preference store it reads the other three inputs from.
   */
  class MoviesViewModel {
    const repository: MovieRepository
    const prefsRepository: UserPrefsRepository
    var searchQuery: string
    var uiState: MoviesUiState

    ghost predicate Valid()
      reads this, repository, repository.dao, prefsRepository
    {
      repository.dao.Valid() && prefsRepository.Valid()
    }

    constructor (repository: MovieRepository, prefsRepository: UserPrefsRepository)
      ensures this.repository == repository && this.prefsRepository == prefsRepository
      ensures searchQuery == "" && uiState == InitialUiState()
    {
      this.repository := repository;
      this.prefsRepository := prefsRepository;
      searchQuery := "";
      uiState := InitialUiState();
    }

    /** What `combine` computes from the current value of each of its four inputs. */
    function Latest(): MoviesUiState
      reads this, repository, repository.dao, prefsRepository
      requires Valid()
    {
      Combine(repository.Movies(), searchQuery, prefsRepository.ShowFavoritesOnly(), prefsRepository.SortOrder())
    }

    /** One emission of the combined flow: the snapshot becomes the combination of the latest inputs. */
    method Collect()
      requires Valid()
      modifies this`uiState
      ensures Valid()
      ensures uiState == Latest()
    {
      var movies := repository.Movies();
      var favoritesOnly := prefsRepository.ShowFavoritesOnly();
      var sortOrder := prefsRepository.SortOrder();
      uiState := Combine(movies, searchQuery, favoritesOnly, sortOrder);
    }

    /** `onSearchQueryChanged`: stores the query exactly as typed. */
    method OnSearchQueryChanged(query: string)
      requires Valid()
      modifies this`searchQuery
      ensures Valid() && searchQuery == query
    {
      searchQuery := query;
    }

    /** `toggleFavoritesFilter`: writes the negation of the current flag. */
    method ToggleFavoritesFilter()
      requires Valid()
      modifies prefsRepository
      ensures Valid()
      ensures prefsRepository.prefs == old(prefsRepository.prefs)[ShowFavoritesOnlyKey := BoolPref(!old(prefsRepository.ShowFavoritesOnly()))]
      ensures prefsRepository.ShowFavoritesOnly() == !old(prefsRepository.ShowFavoritesOnly())
    {
      var newValue := !prefsRepository.ShowFavoritesOnly();
      prefsRepository.SetShowFavoritesOnly(newValue);
    }

    /** `setSortOrder`: stores the string without validating it. */
    method SetSortOrder(order: string)
      requires Valid()
      modifies prefsRepository
      ensures Valid()
      ensures prefsRepository.prefs == old(prefsRepository.prefs)[SortOrderKey := StringPref(order)]
      ensures prefsRepository.SortOrder() == order
    {
      prefsRepository.SetSortOrder(order);
    }

    /**
     * `insertMovie`: a movie with a non-zero id replaces the row under that id;
     * one with id 0 (a new movie from the form) takes the next counter value,
     * a key no row had before.
     */
    method InsertMovie(movie: Movie)
      requires Valid()
      modifies repository.dao
      ensures Valid()
      ensures movie.id != 0 ==> repository.dao.rows == old(repository.dao.rows)[movie.id := MovieMappers.ToEntity(movie)]
      ensures movie.id != 0 ==>
        repository.dao.lastId == if movie.id > old(repository.dao.lastId) then movie.id else old(repository.dao.lastId)
      ensures movie.id == 0 ==> repository.dao.lastId == old(repository.dao.lastId) + 1
      ensures movie.id == 0 ==> var id := repository.dao.lastId;
        && id !in old(repository.dao.rows)
        && (forall k | k in old(repository.dao.rows) :: k < id)
        && repository.dao.rows == old(repository.dao.rows)[id := MovieMappers.ToEntity(movie).(id := id)]
    {
      var id := repository.InsertMovie(movie);
      if movie.id != 0 {
        assert MovieMappers.ToEntity(movie).(id := id) == MovieMappers.ToEntity(movie);
      } else {
        assert id == repository.dao.lastId;
      }
    }

    /** `updateMovie`. */
    method UpdateMovie(movie: Movie)
      requires Valid()
      modifies repository.dao
      ensures Valid() && repository.dao.lastId == old(repository.dao.lastId)
      ensures repository.dao.rows ==
        if movie.id in old(repository.dao.rows)
        then old(repository.dao.rows)[movie.id := MovieMappers.ToEntity(movie)]
        else old(repository.dao.rows)
    {
      repository.UpdateMovie(movie);
    }

    /** `deleteMovie`. */
    method DeleteMovie(movie: Movie)
      requires Valid()
      modifies repository.dao
      ensures Valid() && repository.dao.lastId == old(repository.dao.lastId)
      ensures repository.dao.rows == old(repository.dao.rows) - {movie.id}
    {
      repository.DeleteMovie(movie);
    }

    /** `toggleFavorite(movieId, isFavorite)`: writes `!isFavorite` for that movie only; it does not re-read the row. */
    method ToggleFavorite(movieId: int, isFavorite: bool)
      requires Valid()
      modifies repository.dao
      ensures Valid() && repository.dao.lastId == old(repository.dao.lastId)
      ensures repository.dao.rows.Keys == old(repository.dao.rows).Keys
      ensures movieId in repository.dao.rows ==>
        repository.dao.rows[movieId] == old(repository.dao.rows)[movieId].(isFavorite := !isFavorite)
      ensures forall k | k in repository.dao.rows && k != movieId :: repository.dao.rows[k] == old(repository.dao.rows)[k]
    {
      repository.ToggleFavorite(movieId, !isFavorite);
    }

    /** `getMovieById`. */
    method GetMovieById(id: int) returns (r: Option<Movie>)
      requires Valid()
      ensures r.None? <==> id !in repository.dao.rows
      ensures r.Some? ==> MovieMappers.ToEntity(r.value) == repository.dao.rows[id]
    {
      r := repository.GetMovieById(id);
    }
  }
}
