# AppdePelis core, modelled in Dafny

AppdePelis is an Android movie catalogue. A Room table `movies` holds the
catalogue and a DataStore holds the user's preferences: login flag, user name,
theme, sort order and favourites-only switch. `MoviesViewModel` combines the
title-ordered movie list, the search query, the favourites-only flag and the
sort order into the `MoviesUiState` the list screen shows. It also forwards the
screen's edits to the repository and to the preference store. Helper objects
validate the movie form, format dates, map genres to emojis and build
navigation routes.

The model has one Dafny module per core file, plus small modules for the
library behaviour the core relies on:

| module | models |
|---|---|
| `MovieModel` | `Movie` and `MovieEntity` as datatypes with the Kotlin defaults |
| `MovieMappers` | `toMovie`, `toEntity`, `toMovieList` |
| `Dao` | the `movies` table as `map<int, MovieEntity>` inside class `MovieDao`, its queries as functions and its mutations as methods |
| `Repository` | class `MovieRepository`, the DAO seen through the mappers |
| `UserPrefs` | class `UserPrefsRepository` over a `map<string, PrefValue>` |
| `MovieOrdering` | the four sort keys and a stable insertion sort standing for `sortedBy`/`sortedByDescending` |
| `MoviesUi` | `MoviesUiState`, the `combine` lambda as the function `Combine`, and class `MoviesViewModel` |
| `MovieValidation` | the seven field validators and `validateMovie` |
| `MovieFormats` | null-date text, the genre emoji table, the genre list and the year range |
| `Routes`, `AppState` | route strings, `createRoute`, `shouldShowBottomBar`, the `navigateToDetail` target |
| `Text` | `isWhitespace`/`isBlank`, `lowercase`/`uppercase`, `contains(ignoreCase = true)`, `String.compareTo` |
| `SqlLike` | SQLite's `LIKE` with `%` and `_`, ASCII-only case folding |
| `Decimal` | decimal text of an `Int`, with a parser used to prove that routes are injective |
| `Seqs` | `List.filter` and subsequences |

Modelling choices:

- `rating` (a Kotlin `Float`) is an `int`.
- `watchedDate` (`Long?`) is an `Option<int>`.
- Ids are unbounded integers.
- The table is a map from primary key to row; `Keyed` states that every row is stored under its own `id`.
- Room's `autoGenerate = true` is an AUTOINCREMENT key. Class `MovieDao` keeps the counter as `lastId`. Inserting id 0 stores the row under `lastId + 1`. Inserting any other id replaces the row under that id (`OnConflictStrategy.REPLACE`).
- `ORDER BY title ASC` compares titles code point by code point. SQL leaves the order of equal titles open; the model lists them by ascending key.
- `searchMovies` has no `ORDER BY`. The model lists its result in title order and states only which rows it contains.
- The calendar year, the locale's date formatter and the URL regular expression are parameters: `currentYear`, `format` (a pattern and a timestamp to text) and `urlMatches`.
- Case conversion maps A–Z and the Latin-1 letters À–Þ (except ×) to and from their lower-case forms. Every other character keeps its case: 'ÿ' (Kotlin gives 'Ÿ'), 'µ' (Kotlin gives Greek 'Μ'), 'ß' (Kotlin's `uppercase()` gives "SS"), and every letter beyond Latin-1, such as 'ı' and 'ſ', which Kotlin upper-cases to ASCII 'I' and 'S'. `isWhitespace` lists the exact code points Kotlin accepts.
- Each reactive `Flow` is the current value it would emit. `MoviesViewModel.Collect` is one emission of the combined flow: `uiState` becomes `Combine` of the four latest inputs.

The model follows what the code does:

- The search query is checked with `isNotBlank` but matched untrimmed. A query with surrounding spaces only finds titles or directors containing those spaces.
- Sorting is Kotlin's stable sort. Movies with equal keys keep the order the title-ordered list gave them; they are not re-ordered by id. `MovieOrdering.SortByStable` and `MoviesUi.SortStepStable` state this.
- `watchedDate ?: 0L` makes an unwatched movie sort as watched at instant 0, not as the smallest possible instant.
- `@Update` of a key that is not in the table changes nothing and reports no error.
- `@Insert` keeps a caller-supplied non-zero id and overwrites the row under it. Only id 0 is assigned by the table.
- The snapshot's `error` field is never set by the code: `Combine` always yields `None`.
- `toggleFavorite(movieId, isFavorite)` writes `!isFavorite` without re-reading the row. Toggling twice with the same stale value leaves the same state as toggling once.

## Model

| member | source | states |
|---|---|---|
| MovieModel.NewMovie | app/src/main/java/com/example/appdepelis/data/model/Movie.kt:3-15 | a movie built from the four required fields has id 0, is not a favourite, has no watched date, rating 0 and empty texts |
| MovieMappers.ToMovie | app/src/main/java/com/example/appdepelis/data/mappers/MovieMappers.kt:6-20 | keeps id, favourite flag and watched date |
| MovieMappers.ToEntity | app/src/main/java/com/example/appdepelis/data/mappers/MovieMappers.kt:22-36 | keeps id, favourite flag and watched date; converting the entity back gives the same movie |
| MovieMappers.EntityRoundTrip | app/src/main/java/com/example/appdepelis/data/mappers/MovieMappers.kt:6-36 | converting a row to a movie and back gives the same row |
| MovieMappers.MappersInjective | app/src/main/java/com/example/appdepelis/data/mappers/MovieMappers.kt:6-36 | both conversions are one-to-one |
| MovieMappers.ToMovieList | app/src/main/java/com/example/appdepelis/data/mappers/MovieMappers.kt:38-40 | same length; element i is the conversion of row i and converts back to it |
| MovieMappers.ToMovieListMembers | app/src/main/java/com/example/appdepelis/data/mappers/MovieMappers.kt:38-40 | every row's movie is in the converted list, and every listed movie converts back to a row of the input |
| Text.LexLeTotalOrder | app/src/main/java/com/example/appdepelis/ui/movies/MoviesViewModel.kt:65 | `String.compareTo` order is reflexive, antisymmetric, transitive and total, as sorting by title needs |
| SqlLike.LikeContainsIsSubstring | app/src/main/java/com/example/appdepelis/data/local/dao/MovieDao.kt:19 | for a query without `%` or `_`, `LIKE '%' \|\| q \|\| '%'` holds exactly when q occurs at some position, ASCII letters compared without case |
| Dao.RowBeforeOrder | app/src/main/java/com/example/appdepelis/data/local/dao/MovieDao.kt:10 | title order is asymmetric and transitive, and any two rows with different keys are ordered one way or the other |
| Dao.TitleOrder | app/src/main/java/com/example/appdepelis/data/local/dao/MovieDao.kt:10 | the ordered listing has as many entries as the table has rows; its membership, order and distinctness are stated by `TitleOrderRows`, `TitleOrderSorted` and `TitleOrderDistinct` |
| Dao.TitleOrderRows | app/src/main/java/com/example/appdepelis/data/local/dao/MovieDao.kt:10-11 | the ordered listing has one entry per row; every row is listed and every listed entry is the row under its key |
| Dao.TitleOrderSorted | app/src/main/java/com/example/appdepelis/data/local/dao/MovieDao.kt:10-11 | the listing is ascending by title, equal titles by key |
| Dao.TitleOrderDistinct | app/src/main/java/com/example/appdepelis/data/local/dao/MovieDao.kt:10-11 | no key appears twice in the listing |
| Dao.FavoritesInTitleOrder | app/src/main/java/com/example/appdepelis/data/local/dao/MovieDao.kt:10-14 | ordering the favourite rows by title gives the favourites of the full title-ordered listing, in the same order |
| Dao.FavoritesListing | app/src/main/java/com/example/appdepelis/data/local/dao/MovieDao.kt:13-14 | the favourites listing holds exactly the favourite rows, titles ascending, keys distinct |
| Dao.SearchListing | app/src/main/java/com/example/appdepelis/data/local/dao/MovieDao.kt:19-20 | the search result holds exactly the rows whose title or director is LIKE the query, each row once |
| Dao.MovieDao.GetAllMovies | app/src/main/java/com/example/appdepelis/data/local/dao/MovieDao.kt:10-11 | every row exactly once, nothing else, titles ascending |
| Dao.MovieDao.GetFavoriteMovies | app/src/main/java/com/example/appdepelis/data/local/dao/MovieDao.kt:13-14 | a row is listed iff it is a favourite; titles ascending; equal to filtering `GetAllMovies` on the flag, so a subsequence of it |
| Dao.MovieDao.GetMovieById | app/src/main/java/com/example/appdepelis/data/local/dao/MovieDao.kt:16-17 | absent iff no row has that key; otherwise the row with that id, which `GetAllMovies` also lists |
| Dao.MovieDao.SearchMovies | app/src/main/java/com/example/appdepelis/data/local/dao/MovieDao.kt:19-20 | a row is in the result iff its title or director is LIKE `%query%`; only table rows, each once |
| Dao.MovieDao.InsertMovie | app/src/main/java/com/example/appdepelis/data/local/dao/MovieDao.kt:22-23 | the row is stored under the returned id and nothing else changes; id 0 takes the next counter value, a key larger than every existing one; a non-zero id replaces the row under it |
| Dao.MovieDao.UpdateMovie | app/src/main/java/com/example/appdepelis/data/local/dao/MovieDao.kt:25-26 | replaces the row with the same key; a missing key leaves the table unchanged |
| Dao.MovieDao.DeleteMovie | app/src/main/java/com/example/appdepelis/data/local/dao/MovieDao.kt:28-29 | removes the row with the entity's key and nothing else |
| Dao.MovieDao.DeleteMovieById | app/src/main/java/com/example/appdepelis/data/local/dao/MovieDao.kt:31-32 | removes that key; deleting an absent key changes nothing |
| Dao.MovieDao.UpdateFavoriteStatus | app/src/main/java/com/example/appdepelis/data/local/dao/MovieDao.kt:34-35 | sets the favourite flag of that row only; same keys, every other row unchanged |
| Repository.MovieRepository.Movies | app/src/main/java/com/example/appdepelis/data/repository/MovieRepository.kt:16-18 | one movie per table row, each converting back to the DAO's listing at the same position, titles ascending, ids distinct |
| Repository.MovieRepository.FavoriteMovies | app/src/main/java/com/example/appdepelis/data/repository/MovieRepository.kt:20-22 | the DAO's favourites as movies: only favourites, and every favourite row's movie |
| Repository.MovieRepository.GetMovieById | app/src/main/java/com/example/appdepelis/data/repository/MovieRepository.kt:25-27 | absent iff no row has the key; otherwise a movie with that id whose entity is the stored row |
| Repository.MovieRepository.SearchMovies | app/src/main/java/com/example/appdepelis/data/repository/MovieRepository.kt:30-34 | the DAO's search result as movies: every matching row's movie, and only movies of matching rows |
| Repository.MovieRepository.InsertMovie | app/src/main/java/com/example/appdepelis/data/repository/MovieRepository.kt:37-39 | stores the movie's entity under the returned id, nothing else changes; a non-zero id is kept and raises the counter to at least that id; id 0 takes counter + 1, above every existing key; reading that id back gives the movie with that id |
| Repository.MovieRepository.UpdateMovie | app/src/main/java/com/example/appdepelis/data/repository/MovieRepository.kt:42-44 | the DAO update of the movie's entity |
| Repository.MovieRepository.DeleteMovie | app/src/main/java/com/example/appdepelis/data/repository/MovieRepository.kt:46-48 | removes the row with the movie's key |
| Repository.MovieRepository.DeleteMovieById | app/src/main/java/com/example/appdepelis/data/repository/MovieRepository.kt:50-52 | removes that key |
| Repository.MovieRepository.ToggleFavorite | app/src/main/java/com/example/appdepelis/data/repository/MovieRepository.kt:54-56 | stores the given flag itself on that row, nothing else changes |
| UserPrefs.UserPrefsRepository.IsLoggedIn | app/src/main/java/com/example/appdepelis/data/prefs/UserPrefsRepository.kt:22-24 | false until written, else the stored flag |
| UserPrefs.UserPrefsRepository.Username | app/src/main/java/com/example/appdepelis/data/prefs/UserPrefsRepository.kt:26-28 | "" until written, else the stored name |
| UserPrefs.UserPrefsRepository.ThemeMode | app/src/main/java/com/example/appdepelis/data/prefs/UserPrefsRepository.kt:30-32 | "system" until written, else the stored mode |
| UserPrefs.UserPrefsRepository.SortOrder | app/src/main/java/com/example/appdepelis/data/prefs/UserPrefsRepository.kt:34-36 | "title" until written, else the stored order |
| UserPrefs.UserPrefsRepository.ShowFavoritesOnly | app/src/main/java/com/example/appdepelis/data/prefs/UserPrefsRepository.kt:38-40 | false until written, else the stored flag |
| UserPrefs.UserPrefsRepository.SetLoginStatus | app/src/main/java/com/example/appdepelis/data/prefs/UserPrefsRepository.kt:42-47 | one edit writes both the flag and the name (default ""); the other readers keep their values |
| UserPrefs.UserPrefsRepository.SetThemeMode | app/src/main/java/com/example/appdepelis/data/prefs/UserPrefsRepository.kt:49-53 | the theme reads back as written, whatever the string; the other readers keep their values |
| UserPrefs.UserPrefsRepository.SetSortOrder | app/src/main/java/com/example/appdepelis/data/prefs/UserPrefsRepository.kt:55-59 | the sort order reads back as written, unvalidated; the other readers keep their values |
| UserPrefs.UserPrefsRepository.SetShowFavoritesOnly | app/src/main/java/com/example/appdepelis/data/prefs/UserPrefsRepository.kt:61-65 | the flag reads back as written; the other readers keep their values |
| UserPrefs.UserPrefsRepository.Logout | app/src/main/java/com/example/appdepelis/data/prefs/UserPrefsRepository.kt:67-71 | clears every key, so all five readers return their defaults, sort order and favourites switch included |
| MovieOrdering.ParseSortOrder | app/src/main/java/com/example/appdepelis/ui/movies/MoviesViewModel.kt:64-71 | "title", "year", "rating" and "date" select their key, each iff the string is exactly that word; any other string selects none |
| MovieOrdering.PrecedesTotalPreorder | app/src/main/java/com/example/appdepelis/ui/movies/MoviesViewModel.kt:65-69 | each sort key orders any two movies one way or the other, transitively |
| MovieOrdering.Insert | app/src/main/java/com/example/appdepelis/ui/movies/MoviesViewModel.kt:65-69 | inserting into a sorted list adds exactly that movie and keeps the list sorted |
| MovieOrdering.SortBy | app/src/main/java/com/example/appdepelis/ui/movies/MoviesViewModel.kt:65-69 | the result is a permutation of the input, sorted by the key |
| MovieOrdering.KeyClassOfInsert | app/src/main/java/com/example/appdepelis/ui/movies/MoviesViewModel.kt:65-69 | inserting a movie puts it in front of the movies of equal key already there |
| MovieOrdering.SortByStable | app/src/main/java/com/example/appdepelis/ui/movies/MoviesViewModel.kt:65-69 | movies with equal keys keep their relative input order |
| MoviesUi.InitialUiState | app/src/main/java/com/example/appdepelis/ui/movies/MoviesViewModel.kt:80-84 | before the first emission: loading, no movies, no error, default query, flag and order |
| MoviesUi.Filtered | app/src/main/java/com/example/appdepelis/ui/movies/MoviesViewModel.kt:46-61 | steps 1 and 2 keep exactly the favourites (if asked) matching a non-blank query in title or director, ignoring case, with their multiplicities and input order |
| MoviesUi.SortStepOrder | app/src/main/java/com/example/appdepelis/ui/movies/MoviesViewModel.kt:63-71 | step 3 keeps the movies; "title" gives titles ascending, "year", "rating" and "date" give their keys descending |
| MoviesUi.SortStepStable | app/src/main/java/com/example/appdepelis/ui/movies/MoviesViewModel.kt:63-71 | step 3 keeps equal-key movies in input order; an unknown order string leaves the list unchanged |
| MoviesUi.Combine | app/src/main/java/com/example/appdepelis/ui/movies/MoviesViewModel.kt:39-79 | the snapshot lists exactly the visible movies, ordered per the sort string and stable; it echoes the inputs, is not loading and has no error |
| MoviesUi.CombineEmpty | app/src/main/java/com/example/appdepelis/ui/movies/MoviesViewModel.kt:39-79 | an empty collection yields an empty, settled snapshot for every query, flag and order |
| MoviesUi.FavoritesOnlyScenario | app/src/main/java/com/example/appdepelis/ui/movies/MoviesViewModel.kt:46-51 | with "Alien" (not favourite) and "Amélie" (favourite), favourites only and no query, only "Amélie" is listed |
| MoviesUi.AliMatches | app/src/main/java/com/example/appdepelis/ui/movies/MoviesViewModel.kt:54-58 | "ali" is found in "Alien" ignoring case, and not in "Amélie" or its director |
| MoviesUi.SearchScenario | app/src/main/java/com/example/appdepelis/ui/movies/MoviesViewModel.kt:53-61 | the query "ali" over the same two movies lists only "Alien" |
| MoviesUi.MoviesViewModel.constructor | app/src/main/java/com/example/appdepelis/ui/movies/MoviesViewModel.kt:20-84 | keeps the two repositories; the query starts empty and the snapshot starts as the `stateIn` initial value |
| MoviesUi.MoviesViewModel.Collect | app/src/main/java/com/example/appdepelis/ui/movies/MoviesViewModel.kt:39-84 | after an emission, the state is `Combine` of the repository's movies, the query and the stored flag and order |
| MoviesUi.MoviesViewModel.OnSearchQueryChanged | app/src/main/java/com/example/appdepelis/ui/movies/MoviesViewModel.kt:86-88 | the query is stored exactly as typed |
| MoviesUi.MoviesViewModel.ToggleFavoritesFilter | app/src/main/java/com/example/appdepelis/ui/movies/MoviesViewModel.kt:90-96 | writes the negation of the current favourites-only flag |
| MoviesUi.MoviesViewModel.SetSortOrder | app/src/main/java/com/example/appdepelis/ui/movies/MoviesViewModel.kt:98-102 | stores the order string unvalidated |
| MoviesUi.MoviesViewModel.InsertMovie | app/src/main/java/com/example/appdepelis/ui/movies/MoviesViewModel.kt:105-109 | a movie with a non-zero id replaces the row under that id; one with id 0 is stored under counter + 1, a key above every existing one; the rest of the table is unchanged and the counter is stated in both cases |
| MoviesUi.MoviesViewModel.UpdateMovie | app/src/main/java/com/example/appdepelis/ui/movies/MoviesViewModel.kt:111-115 | replaces the row with the movie's key if there is one |
| MoviesUi.MoviesViewModel.DeleteMovie | app/src/main/java/com/example/appdepelis/ui/movies/MoviesViewModel.kt:117-121 | removes the row with the movie's key |
| MoviesUi.MoviesViewModel.ToggleFavorite | app/src/main/java/com/example/appdepelis/ui/movies/MoviesViewModel.kt:123-127 | stores the negation of the passed flag on that row only, without re-reading it |
| MoviesUi.MoviesViewModel.GetMovieById | app/src/main/java/com/example/appdepelis/ui/movies/MoviesViewModel.kt:129-131 | absent iff no row has the key; otherwise the movie of the stored row |
| MovieValidation.ValidateTitle | app/src/main/java/com/example/appdepelis/ui/common/MovieValidation.kt:10-17 | valid iff not blank and 2 to 100 characters; blank, too short and too long each give their message, first failing check first; message iff invalid |
| MovieValidation.ValidateDirector | app/src/main/java/com/example/appdepelis/ui/common/MovieValidation.kt:19-26 | valid iff not blank and 2 to 50 characters, with the three messages in the same precedence |
| MovieValidation.ValidateYear | app/src/main/java/com/example/appdepelis/ui/common/MovieValidation.kt:28-35 | valid iff 1888 <= year <= currentYear + 5; too old is reported before too future |
| MovieValidation.ValidateRating | app/src/main/java/com/example/appdepelis/ui/common/MovieValidation.kt:37-43 | valid iff 0 <= rating <= 10, with a message for negative and one for above 10 |
| MovieValidation.ValidateGenre | app/src/main/java/com/example/appdepelis/ui/common/MovieValidation.kt:45-50 | invalid iff blank |
| MovieValidation.ValidateSynopsis | app/src/main/java/com/example/appdepelis/ui/common/MovieValidation.kt:52-57 | invalid iff longer than 1000 characters, so an empty synopsis is valid |
| MovieValidation.ValidateUrl | app/src/main/java/com/example/appdepelis/ui/common/MovieValidation.kt:59-71 | valid iff blank or matching the pattern; "URL no válida" otherwise |
| MovieValidation.BlankUrlIgnoresPattern | app/src/main/java/com/example/appdepelis/ui/common/MovieValidation.kt:59-60 | a blank url is valid whatever the pattern |
| MovieValidation.ErrorMessagesEmpty | app/src/main/java/com/example/appdepelis/ui/common/MovieValidation.kt:82-92 | the collected list is empty iff every result is valid |
| MovieValidation.ErrorMessagesLength | app/src/main/java/com/example/appdepelis/ui/common/MovieValidation.kt:82-92 | at most one message per validator |
| MovieValidation.ErrorMessagesFromResults | app/src/main/java/com/example/appdepelis/ui/common/MovieValidation.kt:84-90 | every collected message is the message carried by one of the results |
| MovieValidation.MovieErrors | app/src/main/java/com/example/appdepelis/ui/common/MovieValidation.kt:73-93 | at most 7 messages, none exactly when every field is acceptable |
| MovieValidation.ValidateMovie | app/src/main/java/com/example/appdepelis/ui/common/MovieValidation.kt:73-93 | synopsis and url default to empty text; the messages of the failing validators in the order title, director, year, genre, rating, synopsis, url; at most 7; empty iff all fields are acceptable |
| MovieFormats.FormatDate | app/src/main/java/com/example/appdepelis/ui/common/MovieFormats.kt:8-17 | a missing timestamp gives "Sin fecha"; a present one is formatted with "dd/MM/yyyy" |
| MovieFormats.FormatDateTime | app/src/main/java/com/example/appdepelis/ui/common/MovieFormats.kt:9-25 | a missing timestamp gives "Sin fecha"; a present one is formatted with "dd/MM/yyyy HH:mm" |
| MovieFormats.GenreEmoji | app/src/main/java/com/example/appdepelis/ui/common/MovieFormats.kt:35-54 | the emoji is the entry of the spelling table for the lower-cased genre, and the clapper board exactly when the spelling is not listed |
| MovieFormats.GenreEmojiSameLowercase | app/src/main/java/com/example/appdepelis/ui/common/MovieFormats.kt:35-36 | two genres with the same lower-case form get the same emoji |
| MovieFormats.GenreEmojiIgnoresCase | app/src/main/java/com/example/appdepelis/ui/common/MovieFormats.kt:35-36 | for Latin-1 text without 'µ' and 'ß', a genre, its upper-case and its lower-case forms get the same emoji |
| MovieFormats.GenresList | app/src/main/java/com/example/appdepelis/ui/common/MovieFormats.kt:61-79 | the list has 15 entries |
| MovieFormats.GenresListEmoji | app/src/main/java/com/example/appdepelis/ui/common/MovieFormats.kt:35-79 | the i-th offered genre gets the i-th emoji of the expected list (explosion for Acción, laughing face for Comedia, and so on) |
| MovieFormats.GenresListDistinct | app/src/main/java/com/example/appdepelis/ui/common/MovieFormats.kt:35-79 | the offered genres are pairwise distinct, none gets the clapper board, and distinct genres get distinct emojis |
| MovieFormats.YearRange | app/src/main/java/com/example/appdepelis/ui/common/MovieFormats.kt:56-59 | entry i is currentYear - i, with currentYear - 1899 entries, none before 1900 |
| MovieFormats.YearRangeClosedForm | app/src/main/java/com/example/appdepelis/ui/common/MovieFormats.kt:56-59 | a year occurs iff it lies between 1900 and currentYear; the list is strictly descending |
| Routes.DetailRoute | app/src/main/java/com/example/appdepelis/navigation/Routes.kt:7 | "detail/" followed by text that parses back to the id |
| Routes.NotesRoute | app/src/main/java/com/example/appdepelis/navigation/Routes.kt:10 | "notes/" followed by text that parses back to the id |
| Routes.CreateRouteInjective | app/src/main/java/com/example/appdepelis/navigation/Routes.kt:6-11 | two ids give the same route iff they are equal, for both builders |
| Routes.DetailIsNotNotes | app/src/main/java/com/example/appdepelis/navigation/Routes.kt:6-11 | a detail route never equals a notes route |
| Routes.PatternsDistinct | app/src/main/java/com/example/appdepelis/navigation/Routes.kt:4-12 | the five route patterns are pairwise distinct |
| Decimal.IntRoundTrip | app/src/main/java/com/example/appdepelis/navigation/Routes.kt:7 | the decimal text of an id parses back to that id |
| AppState.NavigateToDetailRoute | app/src/main/java/com/example/appdepelis/AppState.kt:42-44 | `navigateToDetail` goes to the same string `Detail.createRoute` builds |
| AppState.ShouldShowBottomBar | app/src/main/java/com/example/appdepelis/AppState.kt:23-30 | shown only at a destination other than the login, detail and notes patterns: not "login" and starting with neither "detail/" nor "notes/"; its value on each route is stated by `BottomBarOnPatterns` and `BottomBarHiddenOnCreatedRoutes` |
| AppState.BottomBarOnPatterns | app/src/main/java/com/example/appdepelis/AppState.kt:23-30 | hidden with no destination, at login and on the detail and notes patterns; shown at home and in the settings |
| AppState.BottomBarHiddenOnCreatedRoutes | app/src/main/java/com/example/appdepelis/AppState.kt:23-30 | hidden on every built detail or notes route, and on the `navigateToDetail` target |

## Left out

- Compose UI, screens, dialogs and `rememberAppState`: they only render state. The navigation calls (`navigateToHome`, `navigateToSettings`, `navigateBack`) go to `NavHostController`; only the string `navigateToDetail` passes is modelled.
- Coroutines, `Flow` re-emission, `stateIn` and `WhileSubscribed(5000)` are not modelled. One `Collect` stands for one emission; concurrency and the interleaving of writes are not modelled.
- MoviesUi.MoviesViewModel.ToggleFavoritesFilter: reads the stored flag, whereas the code reads the `stateIn` copy `_showFavoritesOnly.value`. That copy can lag the store (it starts at `false` before the first emission).
- `ServiceLocator` wiring, the Room and DataStore engines, their persistence and their I/O failures are not modelled. Every write succeeds.
- `rating` is an integer: `Float` rounding, NaN in `validateRating` and in the rating sort, and `formatRating`'s `%.1f` are not modelled.
- The date formatters, the locale, `getCurrentTimestamp` and the calendar's current year are parameters.
- MovieValidation.ValidateUrl: the URL regular expression is the parameter `urlMatches`; only the blank short-cut and the message are modelled.
- Case conversion stops at the Latin-1 letters À–Þ and à–þ, so `contains(ignoreCase = true)`, `lowercase()` and `uppercase()` differ from Kotlin's on 'ÿ', 'µ', 'ß' and on every letter beyond Latin-1.
- MovieFormats.GenreEmojiIgnoresCase: stated only for Latin-1 text without 'µ' and 'ß'. Kotlin's `uppercase()` turns 'ı' and 'ſ' into ASCII letters, so "thrıller" gets the clapper board while its upper case "THRILLER" gets the knife; no case-table model limited to Latin-1 can state the full-Unicode law.
- String lengths and `compareTo` use code points, where Kotlin uses UTF-16 units. They differ only for characters outside the Basic Multilingual Plane.
- Dao.MovieDao.InsertMovie: ids are unbounded, so the 32-bit `Int` overflow and the `Long` returned by `insertMovie` are not modelled.
- Dao.MovieDao.GetAllMovies: rows with equal titles are listed by key; SQLite does not promise that order.
- Dao.MovieDao.SearchMovies: the model lists matches in title order; the query promises no order, and only membership is stated.
- `getById` on the repository and view model returns immediately; `suspend` is not modelled.
