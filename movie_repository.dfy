/** The repository: the table's queries and mutations seen through the movie mappers. */
module Repository {
  import opened Wrappers
  import opened MovieModel
  import opened MovieMappers
  import opened Text
  import opened Dao

  class MovieRepository {
    const dao: MovieDao

    constructor (dao: MovieDao)
      ensures this.dao == dao
    {
      this.dao := dao;
    }

    /** `movies`: the whole table as movies, titles ascending, one per row. */
    function Movies(): (r: seq<Movie>)
      reads dao
      requires dao.Valid()
      ensures |r| == |dao.rows|
      ensures forall i | 0 <= i < |r| :: ToEntity(r[i]) == dao.GetAllMovies()[i]
      ensures forall k | k in dao.rows :: ToMovie(dao.rows[k]) in r
      ensures forall i, j | 0 <= i < j < |r| :: LexLe(r[i].title, r[j].title) && r[i].id != r[j].id
    {
      ToMovieListMembers(dao.GetAllMovies());
      ToMovieList(dao.GetAllMovies())
    }

    /** `favoriteMovies`: the favourite rows as movies, titles ascending. */
    function FavoriteMovies(): (r: seq<Movie>)
      reads dao
      requires dao.Valid()
      ensures |r| == |dao.GetFavoriteMovies()|
      ensures forall i | 0 <= i < |r| :: ToEntity(r[i]) == dao.GetFavoriteMovies()[i]
      ensures forall m | m in r :: m.isFavorite
      ensures forall k | k in dao.rows && dao.rows[k].isFavorite :: ToMovie(dao.rows[k]) in r
    {
      ToMovieListMembers(dao.GetFavoriteMovies());
      ToMovieList(dao.GetFavoriteMovies())
    }

    /** `getMovieById`: absent exactly when the table has no row with that key. */
    function GetMovieById(id: int): (r: Option<Movie>)
      reads dao
      requires dao.Valid()
      ensures r.None? <==> id !in dao.rows
      ensures r.Some? ==> ToEntity(r.value) == dao.rows[id] && r.value.id == id
    {
      match dao.GetMovieById(id)
      case None => None
      case Some(e) => Some(ToMovie(e))
    }

    /** `searchMovies`: the rows matching the query, as movies. */
    function SearchMovies(query: string): (r: seq<Movie>)
      reads dao
      requires dao.Valid()
      ensures |r| == |dao.SearchMovies(query)|
      ensures forall i | 0 <= i < |r| :: ToEntity(r[i]) == dao.SearchMovies(query)[i]
      ensures forall k | k in dao.rows && SearchMatch(dao.rows[k], query) :: ToMovie(dao.rows[k]) in r
      ensures forall m | m in r :: SearchMatch(ToEntity(m), query) && ToEntity(m).id in dao.rows
    {
      ToMovieListMembers(dao.SearchMovies(query));
      ToMovieList(dao.SearchMovies(query))
    }

    /** `insertMovie`: stores the movie's row and returns the key it was stored under. */
    method InsertMovie(movie: Movie) returns (id: int)
      requires dao.Valid()
      modifies dao
      ensures dao.Valid()
      ensures dao.rows == old(dao.rows)[id := ToEntity(movie).(id := id)]
      ensures movie.id != 0 ==> id == movie.id
      ensures movie.id != 0 ==> dao.lastId == if movie.id > old(dao.lastId) then movie.id else old(dao.lastId)
      ensures movie.id == 0 ==> id == old(dao.lastId) + 1 == dao.lastId
      ensures movie.id == 0 ==> id !in old(dao.rows) && forall k | k in old(dao.rows) :: k < id
      ensures GetMovieById(id) == Some(movie.(id := id))
    {
      id := dao.InsertMovie(ToEntity(movie));
    }

    /** `updateMovie`: the table's update of the movie's row. */
    method UpdateMovie(movie: Movie)
      requires dao.Valid()
      modifies dao
      ensures dao.Valid() && dao.lastId == old(dao.lastId)
      ensures dao.rows == if movie.id in old(dao.rows) then old(dao.rows)[movie.id := ToEntity(movie)] else old(dao.rows)
    {
      dao.UpdateMovie(ToEntity(movie));
    }

    /** `deleteMovie`: removes the row with the movie's key. */
    method DeleteMovie(movie: Movie)
      requires dao.Valid()
      modifies dao
      ensures dao.Valid() && dao.lastId == old(dao.lastId)
      ensures dao.rows == old(dao.rows) - {movie.id}
    {
      dao.DeleteMovie(ToEntity(movie));
    }

    /** `deleteMovieById`. */
    method DeleteMovieById(id: int)
      requires dao.Valid()
      modifies dao
      ensures dao.Valid() && dao.lastId == old(dao.lastId)
      ensures dao.rows == old(dao.rows) - {id}
    {
      dao.DeleteMovieById(id);
    }

    /** `toggleFavorite(movieId, isFavorite)`: stores `isFavorite` itself as the flag of that row. */
    method ToggleFavorite(movieId: int, isFavorite: bool)
      requires dao.Valid()
      modifies dao
      ensures dao.Valid() && dao.lastId == old(dao.lastId)
      ensures dao.rows.Keys == old(dao.rows).Keys
      ensures movieId in dao.rows ==> dao.rows[movieId] == old(dao.rows)[movieId].(isFavorite := isFavorite)
      ensures forall k | k in dao.rows && k != movieId :: dao.rows[k] == old(dao.rows)[k]
    {
      dao.UpdateFavoriteStatus(movieId, isFavorite);
    }
  }
}
