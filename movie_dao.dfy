/**
 * The `movies` table and the queries and mutations of its data access object,
 * with the table as a map from primary key to row.
 */
module Dao {
  import opened Wrappers
  import opened MovieModel
  import opened Text
  import opened Seqs
  import opened SqlLike

  type Table = map<int, MovieEntity>

  /** Every row is stored under its own primary key. */
  ghost predicate Keyed(rows: Table) {
    forall k | k in rows :: rows[k].id == k
  }

  /** `a` comes before `b` under `ORDER BY title ASC`; equal titles are taken in key order. */
  predicate RowBefore(a: MovieEntity, b: MovieEntity) {
    LexLess(a.title, b.title) || (a.title == b.title && a.id < b.id)
  }

  lemma RowBeforeOrder(a: MovieEntity, b: MovieEntity, c: MovieEntity)
    ensures !(RowBefore(a, b) && RowBefore(b, a))
    ensures RowBefore(a, b) && RowBefore(b, c) ==> RowBefore(a, c)
    ensures a.id != b.id ==> RowBefore(a, b) || RowBefore(b, a)
  {
    LexLessAsymmetric(a.title, b.title);
    LexLessIrreflexive(a.title);
    LexLessTotal(a.title, b.title);
    if LexLess(a.title, b.title) && LexLess(b.title, c.title) {
      LexLessTransitive(a.title, b.title, c.title);
    }
  }

  /** The row under key `k` is the first row of `rows` in title order. */
  predicate IsFirst(rows: Table, k: int) {
    k in rows && forall j | j in rows && j != k :: RowBefore(rows[k], rows[j])
  }

  lemma {:induction false} FirstExists(rows: Table)
    requires Keyed(rows) && |rows| > 0
    ensures exists k :: IsFirst(rows, k)
    decreases |rows|
  {
    if forall k :: k !in rows {
      assert false;  // a table with no key has no rows
    }
    var k0 :| k0 in rows;
    var others := rows - {k0};
    if |others| == 0 {
      assert others.Keys == rows.Keys - {k0};
      assert rows.Keys == {k0};
      assert IsFirst(rows, k0);
    } else {
      FirstExists(others);
      var m :| IsFirst(others, m);
      assert rows[m].id == m && rows[k0].id == k0;
      RowBeforeOrder(rows[m], rows[k0], rows[k0]);
      if RowBefore(rows[m], rows[k0]) {
        forall j | j in rows && j != m
          ensures RowBefore(rows[m], rows[j])
        {
          if j != k0 {
            assert j in others && others[j] == rows[j];
          }
        }
        assert IsFirst(rows, m);
      } else {
        assert RowBefore(rows[k0], rows[m]);
        forall j | j in rows && j != k0
          ensures RowBefore(rows[k0], rows[j])
        {
          if j != m {
            assert j in others && others[j] == rows[j];
            RowBeforeOrder(rows[k0], rows[m], rows[j]);
          }
        }
        assert IsFirst(rows, k0);
      }
    }
  }

  lemma FirstUnique(rows: Table)
    ensures forall a, b :: IsFirst(rows, a) && IsFirst(rows, b) ==> a == b
  {
    forall a, b | IsFirst(rows, a) && IsFirst(rows, b)
      ensures a == b
    {
      RowBeforeOrder(rows[a], rows[b], rows[b]);
    }
  }

  /** The rows of the table in `ORDER BY title ASC` order. */
  function TitleOrder(rows: Table): (r: seq<MovieEntity>)
    requires Keyed(rows)
    ensures |r| == |rows|
    decreases |rows|
  {
    if |rows| == 0 then []
    else
      FirstExists(rows);
      FirstUnique(rows);
      var k :| IsFirst(rows, k);
      assert (rows - {k}).Keys == rows.Keys - {k};
      [rows[k]] + TitleOrder(rows - {k})
  }

  lemma TitleOrderUnfold(rows: Table, k: int)
    requires Keyed(rows) && IsFirst(rows, k)
    ensures TitleOrder(rows) == [rows[k]] + TitleOrder(rows - {k})
  {
    FirstUnique(rows);
  }

  /** `TitleOrder` lists every row of the table, and nothing else. */
  lemma {:induction false} TitleOrderRows(rows: Table)
    requires Keyed(rows)
    ensures |TitleOrder(rows)| == |rows|
    ensures forall k | k in rows :: rows[k] in TitleOrder(rows)
    ensures forall e | e in TitleOrder(rows) :: e.id in rows && rows[e.id] == e
    decreases |rows|
  {
    if |rows| > 0 {
      FirstExists(rows);
      var k :| IsFirst(rows, k);
      TitleOrderUnfold(rows, k);
      var others := rows - {k};
      TitleOrderRows(others);
      var rest := TitleOrder(others);
      assert others.Keys == rows.Keys - {k};
      assert |others| == |rows| - 1;
      forall j | j in rows ensures rows[j] in TitleOrder(rows) {
        if j != k {
          assert others[j] == rows[j] && rows[j] in rest;
        }
      }
    }
  }

  /** Every row listed after the first one comes after it and has another key. */
  lemma TitleOrderAfterFirst(rows: Table, k: int)
    requires Keyed(rows) && IsFirst(rows, k)
    ensures forall e | e in TitleOrder(rows - {k}) :: RowBefore(rows[k], e) && e.id != k
  {
    var others := rows - {k};
    TitleOrderRows(others);
    forall e | e in TitleOrder(others) ensures RowBefore(rows[k], e) && e.id != k {
      assert e.id in others && rows[e.id] == e;
    }
  }

  /** Putting in front a row that comes before every listed row keeps a listing in title order. */
  lemma PrependRowBefore(x: MovieEntity, s: seq<MovieEntity>)
    requires forall i, j | 0 <= i < j < |s| :: RowBefore(s[i], s[j])
    requires forall e | e in s :: RowBefore(x, e)
    ensures forall i, j | 0 <= i < j < |[x] + s| :: RowBefore(([x] + s)[i], ([x] + s)[j])
  {
    var r := [x] + s;
    forall i, j | 0 <= i < j < |r| ensures RowBefore(r[i], r[j]) {
      assert r[j] == s[j - 1] && r[j] in s;
      if i > 0 {
        assert r[i] == s[i - 1];
      }
    }
  }

  /** Putting in front a row with a key not yet listed keeps the keys distinct. */
  lemma PrependNewKey(x: MovieEntity, s: seq<MovieEntity>)
    requires forall i, j | 0 <= i < j < |s| :: s[i].id != s[j].id
    requires forall e | e in s :: e.id != x.id
    ensures forall i, j | 0 <= i < j < |[x] + s| :: ([x] + s)[i].id != ([x] + s)[j].id
  {
    var r := [x] + s;
    forall i, j | 0 <= i < j < |r| ensures r[i].id != r[j].id {
      assert r[j] == s[j - 1] && r[j] in s;
      if i > 0 {
        assert r[i] == s[i - 1];
      }
    }
  }

  /** `TitleOrder` is ascending by title, equal titles by key. */
  lemma {:induction false} TitleOrderSorted(rows: Table)
    requires Keyed(rows)
    ensures forall i, j | 0 <= i < j < |TitleOrder(rows)| ::
              RowBefore(TitleOrder(rows)[i], TitleOrder(rows)[j])
    decreases |rows|
  {
    if |rows| > 0 {
      FirstExists(rows);
      var k :| IsFirst(rows, k);
      TitleOrderUnfold(rows, k);
      TitleOrderSorted(rows - {k});
      TitleOrderAfterFirst(rows, k);
      PrependRowBefore(rows[k], TitleOrder(rows - {k}));
    }
  }

  /** No row appears twice in `TitleOrder`: the keys along it are pairwise distinct. */
  lemma {:induction false} TitleOrderDistinct(rows: Table)
    requires Keyed(rows)
    ensures forall i, j | 0 <= i < j < |TitleOrder(rows)| ::
              TitleOrder(rows)[i].id != TitleOrder(rows)[j].id
    decreases |rows|
  {
    if |rows| > 0 {
      FirstExists(rows);
      var k :| IsFirst(rows, k);
      TitleOrderUnfold(rows, k);
      TitleOrderDistinct(rows - {k});
      TitleOrderAfterFirst(rows, k);
      PrependNewKey(rows[k], TitleOrder(rows - {k}));
    }
  }

  /** The `WHERE isFavorite = 1` condition. */
  predicate IsFavoriteRow(e: MovieEntity) {
    e.isFavorite
  }

  /** The rows a `WHERE isFavorite = 1` clause selects. */
  function FavoriteRows(rows: Table): Table {
    map k | k in rows && rows[k].isFavorite :: rows[k]
  }

  /**
   * Selecting the favourite rows and then ordering by title gives the favourites
   * of the full title-ordered listing, in the same relative order.
   */
  lemma FavoriteRowsKeyed(rows: Table)
    requires Keyed(rows)
    ensures Keyed(FavoriteRows(rows))
  {
  }

  lemma FavoriteRowsRemove(rows: Table, k: int)
    ensures FavoriteRows(rows) - {k} == FavoriteRows(rows - {k})
  {
  }

  lemma FavoriteRowsSkip(rows: Table, k: int)
    requires k in rows && !rows[k].isFavorite
    ensures FavoriteRows(rows) == FavoriteRows(rows - {k})
  {
  }

  lemma FavoriteFirst(rows: Table, k: int)
    requires IsFirst(rows, k) && rows[k].isFavorite
    ensures IsFirst(FavoriteRows(rows), k)
  {
  }

  lemma {:induction false} FavoritesInTitleOrder(rows: Table)
    requires Keyed(rows)
    ensures Keyed(FavoriteRows(rows))
    ensures TitleOrder(FavoriteRows(rows)) == Filter(TitleOrder(rows), IsFavoriteRow)
    decreases |rows|
  {
    FavoriteRowsKeyed(rows);
    var fav := FavoriteRows(rows);
    if |rows| > 0 {
      FirstExists(rows);
      var k :| IsFirst(rows, k);
      TitleOrderUnfold(rows, k);
      var others := rows - {k};
      FavoritesInTitleOrder(others);
      FilterCons(rows[k], TitleOrder(others), IsFavoriteRow);
      if rows[k].isFavorite {
        FavoriteFirst(rows, k);
        TitleOrderUnfold(fav, k);
        FavoriteRowsRemove(rows, k);
      } else {
        FavoriteRowsSkip(rows, k);
      }
    } else {
      assert fav == map[];
    }
  }

  /** The favourites listing holds exactly the favourite rows of the table. */
  lemma FavoritesMembers(rows: Table)
    requires Keyed(rows)
    ensures Keyed(FavoriteRows(rows))
    ensures var r := TitleOrder(FavoriteRows(rows));
      && (forall k | k in rows :: rows[k] in r <==> rows[k].isFavorite)
      && (forall e | e in r :: e.isFavorite && e.id in rows && rows[e.id] == e)
  {
    var fav := FavoriteRows(rows);
    FavoriteRowsKeyed(rows);
    TitleOrderRows(fav);
    var r := TitleOrder(fav);
    forall k | k in rows ensures rows[k] in r <==> rows[k].isFavorite {
      assert rows[k].id == k;
      if rows[k].isFavorite {
        assert k in fav && fav[k] == rows[k];
      }
    }
  }

  /** What `FavoritesInTitleOrder` and `TitleOrder`'s lemmas say about the favourites listing. */
  lemma FavoritesListing(rows: Table)
    requires Keyed(rows)
    ensures Keyed(FavoriteRows(rows))
    ensures var r := TitleOrder(FavoriteRows(rows));
      && (forall k | k in rows :: rows[k] in r <==> rows[k].isFavorite)
      && (forall e | e in r :: e.isFavorite && e.id in rows && rows[e.id] == e)
      && (forall i, j | 0 <= i < j < |r| :: LexLe(r[i].title, r[j].title) && r[i].id != r[j].id)
      && r == Filter(TitleOrder(rows), IsFavoriteRow)
  {
    var fav := FavoriteRows(rows);
    FavoritesMembers(rows);
    FavoritesInTitleOrder(rows);
    TitleOrderSorted(fav);
    TitleOrderDistinct(fav);
  }

  /** The `WHERE title LIKE '%' || :query || '%' OR director LIKE '%' || :query || '%'` condition. */
  predicate SearchMatch(e: MovieEntity, query: string) {
    LikeContains(e.title, query) || LikeContains(e.director, query)
  }

  /** The search condition as the function value that `Filter` takes. */
  function SearchFilter(query: string): MovieEntity -> bool {
    e => SearchMatch(e, query)
  }

  lemma SearchListing(rows: Table, query: string)
    requires Keyed(rows)
    ensures var r := Filter(TitleOrder(rows), SearchFilter(query));
      && (forall k | k in rows :: rows[k] in r <==> SearchMatch(rows[k], query))
      && (forall e | e in r :: e.id in rows && rows[e.id] == e)
      && (forall i, j | 0 <= i < j < |r| :: r[i].id != r[j].id)
  {
    var all := TitleOrder(rows);
    TitleOrderRows(rows);
    TitleOrderDistinct(rows);
    var r := Filter(all, SearchFilter(query));
    SubsequenceMembers(r, all);
    SubsequencePairs(r, all, (a: MovieEntity, b: MovieEntity) => a.id != b.id);
    forall k | k in rows ensures rows[k] in r <==> SearchMatch(rows[k], query) {
      FilterMember(all, SearchFilter(query), rows[k]);
    }
  }

  /**
   * The data access object of the `movies` table. `lastId` is the table's
   * AUTOINCREMENT counter: the largest key the table has ever held.
   */
  class MovieDao {
    var rows: Table
    var lastId: int

    ghost predicate Valid()
      reads this
    {
      Keyed(rows) && lastId >= 0 && forall k | k in rows :: k <= lastId
    }

    constructor ()
      ensures Valid() && rows == map[] && lastId == 0
    {
      rows := map[];
      lastId := 0;
    }

    /** `SELECT * FROM movies ORDER BY title ASC`: every row once, titles ascending. */
    function GetAllMovies(): (r: seq<MovieEntity>)
      reads this
      requires Valid()
      ensures |r| == |rows|
      ensures forall k | k in rows :: rows[k] in r
      ensures forall e | e in r :: e.id in rows && rows[e.id] == e
      ensures forall i, j | 0 <= i < j < |r| :: LexLe(r[i].title, r[j].title) && r[i].id != r[j].id
    {
      TitleOrderRows(rows);
      TitleOrderSorted(rows);
      TitleOrderDistinct(rows);
      TitleOrder(rows)
    }

    /**
     * `SELECT * FROM movies WHERE isFavorite = 1 ORDER BY title ASC`: exactly the
     * favourite rows, titles ascending, in the order `GetAllMovies` lists them.
     */
    function GetFavoriteMovies(): (r: seq<MovieEntity>)
      reads this
      requires Valid()
      ensures forall k | k in rows :: rows[k] in r <==> rows[k].isFavorite
      ensures forall e | e in r :: e.isFavorite && e.id in rows && rows[e.id] == e
      ensures forall i, j | 0 <= i < j < |r| :: LexLe(r[i].title, r[j].title) && r[i].id != r[j].id
      ensures r == Filter(GetAllMovies(), IsFavoriteRow)
      ensures IsSubsequence(r, GetAllMovies())
    {
      FavoritesListing(rows);
      TitleOrder(FavoriteRows(rows))
    }

    /** `SELECT * FROM movies WHERE id = :movieId`: the row with that key, or none. */
    function GetMovieById(movieId: int): (r: Option<MovieEntity>)
      reads this
      requires Valid()
      ensures r.None? <==> movieId !in rows
      ensures r.Some? ==> r.value.id == movieId && r.value in GetAllMovies()
    {
      if movieId in rows then Some(rows[movieId]) else None
    }

    /**
     * `searchMovies`: exactly the rows whose title or director is LIKE the query
     * (no order is promised; here they come in title order).
     */
    function SearchMovies(query: string): (r: seq<MovieEntity>)
      reads this
      requires Valid()
      ensures forall k | k in rows :: rows[k] in r <==> SearchMatch(rows[k], query)
      ensures forall e | e in r :: e.id in rows && rows[e.id] == e
      ensures forall i, j | 0 <= i < j < |r| :: r[i].id != r[j].id
    {
      SearchListing(rows, query);
      Filter(TitleOrder(rows), SearchFilter(query))
    }

    /**
     * `@Insert(onConflict = REPLACE)`: id 0 means "generate one", which takes the
     * next value of the AUTOINCREMENT counter, a key no row has; any other id
     * replaces the row stored under it. The row is stored under the returned id.
     */
    method InsertMovie(movie: MovieEntity) returns (id: int)
      requires Valid()
      modifies this
      ensures Valid()
      ensures rows == old(rows)[id := movie.(id := id)]
      ensures movie.id != 0 ==> id == movie.id
      ensures movie.id != 0 ==> lastId == if movie.id > old(lastId) then movie.id else old(lastId)
      ensures movie.id == 0 ==> id == old(lastId) + 1 == lastId
      ensures movie.id == 0 ==> id !in old(rows) && forall k | k in old(rows) :: k < id
    {
      if movie.id == 0 {
        id := lastId + 1;
        lastId := id;
      } else {
        id := movie.id;
        if id > lastId {
          lastId := id;
        }
      }
      rows := rows[id := movie.(id := id)];
    }

    /** `@Update`: replaces the row with the same key; with no such row nothing changes. */
    method UpdateMovie(movie: MovieEntity)
      requires Valid()
      modifies this
      ensures Valid() && lastId == old(lastId)
      ensures rows == if movie.id in old(rows) then old(rows)[movie.id := movie] else old(rows)
    {
      if movie.id in rows {
        rows := rows[movie.id := movie];
      }
    }

    /** `@Delete`: removes the row with the entity's key, if there is one. */
    method DeleteMovie(movie: MovieEntity)
      requires Valid()
      modifies this
      ensures Valid() && lastId == old(lastId)
      ensures rows == old(rows) - {movie.id}
    {
      rows := rows - {movie.id};
    }

    /** `DELETE FROM movies WHERE id = :movieId`; deleting an absent key changes nothing. */
    method DeleteMovieById(movieId: int)
      requires Valid()
      modifies this
      ensures Valid() && lastId == old(lastId)
      ensures rows == old(rows) - {movieId}
      ensures movieId !in old(rows) ==> rows == old(rows)
    {
      rows := rows - {movieId};
    }

    /** `UPDATE movies SET isFavorite = :isFavorite WHERE id = :movieId`: that flag of that row only. */
    method UpdateFavoriteStatus(movieId: int, isFavorite: bool)
      requires Valid()
      modifies this
      ensures Valid() && lastId == old(lastId)
      ensures rows.Keys == old(rows).Keys
      ensures movieId in rows ==> rows[movieId] == old(rows)[movieId].(isFavorite := isFavorite)
      ensures forall k | k in rows && k != movieId :: rows[k] == old(rows)[k]
    {
      if movieId in rows {
        rows := rows[movieId := rows[movieId].(isFavorite := isFavorite)];
      }
    }
  }
}
