/** Field-by-field conversions between table rows and domain movies. */
module MovieMappers {
  import opened MovieModel

  /** `MovieEntity.toMovie()`. */
  function ToMovie(e: MovieEntity): (m: Movie)
    ensures m.id == e.id && m.isFavorite == e.isFavorite && m.watchedDate == e.watchedDate
  {
    Movie(e.id, e.title, e.director, e.year, e.genre, e.rating, e.synopsis,
          e.posterUrl, e.isFavorite, e.watchedDate, e.personalNotes)
  }

  /** `Movie.toEntity()`; converting back gives the same movie. */
  function ToEntity(m: Movie): (e: MovieEntity)
    ensures e.id == m.id && e.isFavorite == m.isFavorite && e.watchedDate == m.watchedDate
    ensures ToMovie(e) == m
  {
    MovieEntity(m.id, m.title, m.director, m.year, m.genre, m.rating, m.synopsis,
                m.posterUrl, m.isFavorite, m.watchedDate, m.personalNotes)
  }

  /** Converting a row to a movie and back gives the same row. */
  lemma EntityRoundTrip(e: MovieEntity)
    ensures ToEntity(ToMovie(e)) == e
  {
  }

  /** Both conversions are one-to-one. */
  lemma MappersInjective(a: MovieEntity, b: MovieEntity, x: Movie, y: Movie)
    ensures ToMovie(a) == ToMovie(b) ==> a == b
    ensures ToEntity(x) == ToEntity(y) ==> x == y
  {
    EntityRoundTrip(a);
    EntityRoundTrip(b);
  }

  /** `List<MovieEntity>.toMovieList()`: element-wise, same length and order. */
  function ToMovieList(l: seq<MovieEntity>): (r: seq<Movie>)
    ensures |r| == |l|
    ensures forall i :: 0 <= i < |l| ==> r[i] == ToMovie(l[i])
    ensures forall i :: 0 <= i < |l| ==> ToEntity(r[i]) == l[i]
  {
    if l == [] then [] else [ToMovie(l[0])] + ToMovieList(l[1..])
  }

  /** A row is in a list exactly when its movie is in the converted list. */
  lemma ToMovieListMembers(l: seq<MovieEntity>)
    ensures forall e | e in l :: ToMovie(e) in ToMovieList(l)
    ensures forall m | m in ToMovieList(l) :: ToEntity(m) in l
  {
    var r := ToMovieList(l);
    forall e | e in l ensures ToMovie(e) in r {
      var i :| 0 <= i < |l| && l[i] == e;
      assert r[i] == ToMovie(e);
    }
  }
}
