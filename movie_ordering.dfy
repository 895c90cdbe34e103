/**
 * The orders the movie list can be shown in, and Kotlin's stable
 * `sortedBy`/`sortedByDescending` as an insertion sort.
 */
module MovieOrdering {
  import opened Wrappers
  import opened MovieModel
  import opened Text

  datatype SortKey = ByTitle | ByYear | ByRating | ByDate

  /** The sort-order strings the list recognises; any other string selects no sort. */
  function ParseSortOrder(order: string): (k: Option<SortKey>)
    ensures k == Some(ByTitle) <==> order == "title"
    ensures k == Some(ByYear) <==> order == "year"
    ensures k == Some(ByRating) <==> order == "rating"
    ensures k == Some(ByDate) <==> order == "date"
  {
    if order == "title" then Some(ByTitle)
    else if order == "year" then Some(ByYear)
    else if order == "rating" then Some(ByRating)
    else if order == "date" then Some(ByDate)
    else None
  }

  /** `watchedDate ?: 0L`. */
  function WatchedKey(m: Movie): int {
    m.watchedDate.GetOr(0)
  }

  /**
   * `a` may come before `b`: titles ascending (`sortedBy { it.title }`), years,
   * ratings and watched dates descending (`sortedByDescending`).
   */
  predicate Precedes(key: SortKey, a: Movie, b: Movie) {
    match key
    case ByTitle => LexLe(a.title, b.title)
    case ByYear => a.year >= b.year
    case ByRating => a.rating >= b.rating
    case ByDate => WatchedKey(a) >= WatchedKey(b)
  }

  /** `a` and `b` have equal sort keys. */
  predicate SameKey(key: SortKey, a: Movie, b: Movie) {
    Precedes(key, a, b) && Precedes(key, b, a)
  }

  /** Each sort key orders movies totally, up to equal keys. */
  lemma PrecedesTotalPreorder(key: SortKey, a: Movie, b: Movie, c: Movie)
    ensures Precedes(key, a, b) || Precedes(key, b, a)
    ensures Precedes(key, a, b) && Precedes(key, b, c) ==> Precedes(key, a, c)
  {
    if key == ByTitle {
      LexLeTotalOrder(a.title, b.title, c.title);
    }
  }

  predicate Sorted(key: SortKey, s: seq<Movie>) {
    forall i, j :: 0 <= i < j < |s| ==> Precedes(key, s[i], s[j])
  }

  /** Inserts `x` into sorted `s` in front of the first element it may precede. */
  function Insert(key: SortKey, x: Movie, s: seq<Movie>): (r: seq<Movie>)
    requires Sorted(key, s)
    ensures multiset(r) == multiset(s) + multiset{x}
    ensures Sorted(key, r)
  {
    if s == [] || Precedes(key, x, s[0]) then
      SortedCons(key, x, s);
      [x] + s
    else
      var rest := Insert(key, x, s[1..]);
      assert s == [s[0]] + s[1..];
      PrecedesTotalPreorder(key, x, s[0], s[0]);
      HeadPrecedesInsert(key, s, x, rest);
      SortedCons(key, s[0], rest);
      [s[0]] + rest
  }

  /** The head of a sorted sequence precedes everything after it, and so an `x` it precedes. */
  lemma HeadPrecedesInsert(key: SortKey, s: seq<Movie>, x: Movie, rest: seq<Movie>)
    requires s != [] && Sorted(key, s) && Precedes(key, s[0], x)
    requires multiset(rest) == multiset(s[1..]) + multiset{x}
    ensures forall y | y in rest :: Precedes(key, s[0], y)
  {
    forall y | y in rest ensures Precedes(key, s[0], y) {
      assert y in multiset(rest);
      if y != x {
        assert y in multiset(s[1..]);
        var j :| 0 <= j < |s[1..]| && s[1..][j] == y;
        assert s[j + 1] == y;
      }
    }
  }

  /** Prepending an element that precedes the head, or every element, keeps a sequence sorted. */
  lemma SortedCons(key: SortKey, x: Movie, s: seq<Movie>)
    requires Sorted(key, s)
    requires (s != [] && Precedes(key, x, s[0])) || forall y | y in s :: Precedes(key, x, y)
    ensures Sorted(key, [x] + s)
  {
    var r := [x] + s;
    forall j | 1 <= j < |r| ensures Precedes(key, x, r[j]) {
      assert r[j] == s[j - 1] && r[j] in s;
      if s != [] && Precedes(key, x, s[0]) {
        PrecedesTotalPreorder(key, x, s[0], r[j]);
      }
    }
  }

  /** `sortedBy`/`sortedByDescending` for one key: insertion sort, which is stable. */
  function SortBy(key: SortKey, s: seq<Movie>): (r: seq<Movie>)
    ensures multiset(r) == multiset(s)
    ensures Sorted(key, r)
  {
    if s == [] then []
    else
      assert s == [s[0]] + s[1..];
      Insert(key, s[0], SortBy(key, s[1..]))
  }

  /** The elements of `s`, in order, whose key equals that of `m`. */
  function KeyClass(key: SortKey, m: Movie, s: seq<Movie>): seq<Movie> {
    if s == [] then []
    else (if SameKey(key, m, s[0]) then [s[0]] else []) + KeyClass(key, m, s[1..])
  }

  lemma KeyClassCons(key: SortKey, m: Movie, x: Movie, s: seq<Movie>)
    ensures KeyClass(key, m, [x] + s) == (if SameKey(key, m, x) then [x] else []) + KeyClass(key, m, s)
  {
    assert ([x] + s)[1..] == s;
  }

  /** An `x` that `y` strictly precedes cannot share `y`'s key. */
  lemma NotBothSameKey(key: SortKey, m: Movie, x: Movie, y: Movie)
    requires !Precedes(key, x, y)
    ensures !(SameKey(key, m, x) && SameKey(key, m, y))
  {
    PrecedesTotalPreorder(key, x, m, y);
  }

  /** Inserting `x` puts it in front of the elements of its key already in `s`. */
  lemma {:induction false} KeyClassOfInsert(key: SortKey, m: Movie, x: Movie, s: seq<Movie>)
    requires Sorted(key, s)
    ensures KeyClass(key, m, Insert(key, x, s))
         == (if SameKey(key, m, x) then [x] else []) + KeyClass(key, m, s)
  {
    if s == [] || Precedes(key, x, s[0]) {
      KeyClassCons(key, m, x, s);
    } else {
      KeyClassOfInsert(key, m, x, s[1..]);
      KeyClassCons(key, m, s[0], Insert(key, x, s[1..]));
      NotBothSameKey(key, m, x, s[0]);
    }
  }

  /** Stability: movies with equal keys keep their relative input order. */
  lemma {:induction false} SortByStable(key: SortKey, m: Movie, s: seq<Movie>)
    ensures KeyClass(key, m, SortBy(key, s)) == KeyClass(key, m, s)
  {
    if s != [] {
      SortByStable(key, m, s[1..]);
      KeyClassOfInsert(key, m, s[0], SortBy(key, s[1..]));
    }
  }
}
