/**
 * The catalogue record in its two shapes: `Movie`, the domain value the
 * view layer works with, and `MovieEntity`, the row of the `movies` table.
 * `rating` (a Kotlin `Float`) is an integer score here; `watchedDate` is an
 * optional epoch-millisecond instant.
 */
module MovieModel {
  import opened Wrappers

  /** A movie; the defaults are those of the Kotlin data class. */
  datatype Movie = Movie(
    id: int := 0,
    title: string,
    director: string,
    year: int,
    genre: string,
    rating: int := 0,
    synopsis: string := "",
    posterUrl: string := "",
    isFavorite: bool := false,
    watchedDate: Option<int> := None,
    personalNotes: string := "")

  /** A row of the `movies` table; `id` is the auto-generated primary key, 0 meaning "not yet assigned". */
  datatype MovieEntity = MovieEntity(
    id: int := 0,
    title: string,
    director: string,
    year: int,
    genre: string,
    rating: int,
    synopsis: string,
    posterUrl: string,
    isFavorite: bool,
    watchedDate: Option<int>,
    personalNotes: string)

  /** A movie built from the required fields only: no id yet, so the store assigns one on insert. */
  function NewMovie(title: string, director: string, year: int, genre: string): (m: Movie)
    ensures m.id == 0
    ensures !m.isFavorite && m.watchedDate == None
    ensures m.rating == 0 && m.synopsis == "" && m.posterUrl == "" && m.personalNotes == ""
    ensures m.title == title && m.director == director && m.year == year && m.genre == genre
  {
    Movie(title := title, director := director, year := year, genre := genre)
  }
}
