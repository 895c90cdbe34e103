/**
 * SQLite's `LIKE` operator as the record store evaluates it (no ESCAPE clause):
 * `%` matches any run of characters, `_` matches one character, and letters
 * compare without regard to case only in the ASCII range.
 */
module SqlLike {

  /** SQLite folds only the ASCII letters when comparing under LIKE. */
  function AsciiFold(c: char): char {
    if 'A' <= c <= 'Z' then (c as int + 32) as char else c
  }

  /** `t LIKE p`. */
  predicate Like(t: string, p: string)
    decreases |t| + |p|
  {
    if p == [] then t == []
    else if p[0] == '%' then Like(t, p[1..]) || (t != [] && Like(t[1..], p))
    else t != [] && (p[0] == '_' || AsciiFold(p[0]) == AsciiFold(t[0])) && Like(t[1..], p[1..])
  }

  /** `t LIKE '%' || q || '%'`, the shape of the store's search query. */
  predicate LikeContains(t: string, q: string) {
    Like(t, "%" + q + "%")
  }

  predicate NoWildcards(q: string) {
    forall j :: 0 <= j < |q| ==> q[j] != '%' && q[j] != '_'
  }

  /** `q` occurs in `t` at offset `i` up to ASCII case. */
  predicate AsciiMatchAt(t: string, i: nat, q: string) {
    i + |q| <= |t| && forall j :: 0 <= j < |q| ==> AsciiFold(t[i + j]) == AsciiFold(q[j])
  }

  lemma {:induction false} PercentMatchesAll(t: string)
    ensures Like(t, "%")
    decreases |t|
  {
    if t != [] {
      PercentMatchesAll(t[1..]);
    }
  }

  /** `t LIKE q || '%'` is a case-folded prefix test when `q` holds no wildcard. */
  lemma {:induction false} PrefixLike(t: string, q: string)
    requires NoWildcards(q)
    ensures Like(t, q + "%") <==> AsciiMatchAt(t, 0, q)
    decreases |q|
  {
    if q == [] {
      assert q + "%" == "%";
      PercentMatchesAll(t);
    } else {
      var p := q + "%";
      assert p[0] == q[0] && p[1..] == q[1..] + "%";
      if t == [] {
        assert !AsciiMatchAt(t, 0, q);
      } else {
        PrefixLike(t[1..], q[1..]);
        if AsciiMatchAt(t, 0, q) {
          assert AsciiMatchAt(t[1..], 0, q[1..]) by {
            forall j | 0 <= j < |q[1..]|
              ensures AsciiFold(t[1..][j]) == AsciiFold(q[1..][j])
            {
              assert AsciiFold(t[j + 1]) == AsciiFold(q[j + 1]);
            }
          }
        }
        if Like(t, p) {
          assert AsciiMatchAt(t, 0, q) by {
            forall j | 0 <= j < |q|
              ensures AsciiFold(t[j]) == AsciiFold(q[j])
            {
              if j > 0 {
                assert AsciiFold(t[1..][j - 1]) == AsciiFold(q[1..][j - 1]);
              }
            }
          }
        }
      }
    }
  }

  /** A leading `%` lets the rest of the pattern start at any offset. */
  lemma {:induction false} LeadingPercent(t: string, r: string)
    ensures Like(t, "%" + r) <==> exists i :: 0 <= i <= |t| && Like(t[i..], r)
    decreases |t|
  {
    var p := "%" + r;
    assert p[1..] == r;
    if t == [] {
      assert t[0..] == t;
    } else {
      LeadingPercent(t[1..], r);
      if Like(t, p) {
        if Like(t, r) {
          assert t[0..] == t;
        } else {
          var i :| 0 <= i <= |t[1..]| && Like(t[1..][i..], r);
          assert t[1..][i..] == t[i + 1..];
        }
      }
      if exists i :: 0 <= i <= |t| && Like(t[i..], r) {
        var i :| 0 <= i <= |t| && Like(t[i..], r);
        if i == 0 {
          assert t[0..] == t;
        } else {
          assert t[1..][i - 1..] == t[i..];
        }
      }
    }
  }

  /** Without wildcards in `q`, the store's search is a case-folded (ASCII) substring test. */
  lemma LikeContainsIsSubstring(t: string, q: string)
    requires NoWildcards(q)
    ensures LikeContains(t, q) <==> exists i :: 0 <= i <= |t| - |q| && AsciiMatchAt(t, i, q)
  {
    assert "%" + q + "%" == "%" + (q + "%");
    LeadingPercent(t, q + "%");
    if LikeContains(t, q) {
      var i :| 0 <= i <= |t| && Like(t[i..], q + "%");
      PrefixLike(t[i..], q);
      assert AsciiMatchAt(t, i, q) by {
        forall j | 0 <= j < |q| ensures AsciiFold(t[i + j]) == AsciiFold(q[j]) {
          assert t[i..][j] == t[i + j];
        }
      }
    }
    if exists i :: 0 <= i <= |t| - |q| && AsciiMatchAt(t, i, q) {
      var i :| 0 <= i <= |t| - |q| && AsciiMatchAt(t, i, q);
      PrefixLike(t[i..], q);
      assert AsciiMatchAt(t[i..], 0, q) by {
        forall j | 0 <= j < |q| ensures AsciiFold(t[i..][j]) == AsciiFold(q[j]) {
          assert t[i..][j] == t[i + j];
        }
      }
    }
  }
}
