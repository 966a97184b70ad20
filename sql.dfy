/** The two pieces of SQL the routes depend on, with SQLite's semantics (the
    service's default database): `ILIKE` pattern matching and `OFFSET`/`LIMIT`
    paging of a query in the table's natural (insertion) order. */
module Sql {
  import opened Common

  /** `lower(s) LIKE lower(p)`, which is how `ilike` is rendered for SQLite:
      '%' matches any run of characters, '_' any single character, and every
      other character itself up to ASCII case. */
  predicate ILike(s: string, p: string)
    decreases |s| + |p|
  {
    if p == [] then s == []
    else if p[0] == '%' then ILike(s, p[1..]) || (s != [] && ILike(s[1..], p))
    else s != [] && (p[0] == '_' || LowerChar(s[0]) == LowerChar(p[0])) && ILike(s[1..], p[1..])
  }

  predicate NoWildcards(w: string)
  {
    '%' !in w && '_' !in w
  }

  /** `w` occurs in `s` as a contiguous substring, ignoring ASCII case. */
  predicate ContainsCI(s: string, w: string)
  {
    exists i | 0 <= i <= |s| - |w| :: OccursAt(s, w, i)
  }

  predicate OccursAt(s: string, w: string, i: int)
  {
    0 <= i <= |s| - |w| && EqualCI(s[i..i + |w|], w)
  }

  /** A pattern without wildcards consumes exactly its own length. */
  lemma {:induction false} ILikeLiteral(s: string, w: string, q: string)
    requires NoWildcards(w)
    ensures ILike(s, w + q) <==> |w| <= |s| && EqualCI(s[..|w|], w) && ILike(s[|w|..], q)
    decreases |w|
  {
    if w == [] {
      assert w + q == q;
      assert s[..0] == [] && s[0..] == s;
    } else {
      assert (w + q)[0] == w[0];
      assert (w + q)[1..] == w[1..] + q;
      if s != [] {
        ILikeLiteral(s[1..], w[1..], q);
        if |w| <= |s| {
          assert s[1..][|w| - 1..] == s[|w|..];
          assert s[..|w|][1..] == s[1..][..|w| - 1];
        }
      }
    }
  }

  /** A leading '%' tries every suffix of `s`. */
  lemma {:induction false} ILikePercent(s: string, q: string)
    ensures ILike(s, ['%'] + q) <==> exists k :: 0 <= k <= |s| && ILike(s[k..], q)
    decreases |s|
  {
    var p := ['%'] + q;
    assert p[1..] == q;
    if s == [] {
      assert ILike(s, p) <==> ILike(s, q);
      assert s[0..] == s;
    } else {
      ILikePercent(s[1..], q);
      assert forall k :: 1 <= k <= |s| ==> s[1..][k - 1..] == s[k..];
      if ILike(s, p) {
        if !ILike(s, q) {
          var k :| 0 <= k <= |s[1..]| && ILike(s[1..][k..], q);
          assert ILike(s[k + 1..], q);
        } else {
          assert s[0..] == s;
        }
      }
      if exists k :: 0 <= k <= |s| && ILike(s[k..], q) {
        var k :| 0 <= k <= |s| && ILike(s[k..], q);
        if k == 0 {
          assert s[0..] == s;
        } else {
          assert ILike(s[1..][k - 1..], q);
        }
      }
    }
  }

  /** A lone '%' matches every string. */
  lemma {:induction false} ILikeAnything(s: string)
    ensures ILike(s, "%")
    decreases |s|
  {
    assert "%"[1..] == [];
    if s != [] {
      ILikeAnything(s[1..]);
    }
  }

  /** The pattern `%w%` that the translation lookup builds matches exactly the
      strings containing `w`, ignoring ASCII case, as long as `w` has no
      wildcard of its own. */
  lemma ILikeContains(s: string, w: string)
    requires NoWildcards(w)
    ensures ILike(s, "%" + w + "%") <==> ContainsCI(s, w)
  {
    var p := "%" + w + "%";
    assert p == ['%'] + (w + "%");
    ILikePercent(s, w + "%");
    forall k | 0 <= k <= |s|
      ensures ILike(s[k..], w + "%") <==> OccursAt(s, w, k)
    {
      ILikeLiteral(s[k..], w, "%");
      if k + |w| <= |s| {
        assert s[k..][..|w|] == s[k..k + |w|];
        ILikeAnything(s[k..][|w|..]);
      }
    }
  }

  /** Whatever wildcards a pattern part holds, it matches a text that spells
      it out up to case: a '_' matches the character under it, and a '%'
      matches itself as a run of one character. */
  lemma {:induction false} ILikeSpelledOut(s: string, w: string, q: string)
    requires |w| <= |s| && EqualCI(s[..|w|], w) && ILike(s[|w|..], q)
    ensures ILike(s, w + q)
    decreases |w|
  {
    if w == [] {
      assert w + q == q;
      assert s[0..] == s;
    } else {
      var p := w + q;
      assert p[0] == w[0] && p[1..] == w[1..] + q;
      assert s[..|w|][1..] == s[1..][..|w| - 1];
      assert s[1..][|w| - 1..] == s[|w|..];
      ILikeSpelledOut(s[1..], w[1..], q);
      assert ILike(s[1..], p[1..]);
      if p[0] == '%' {
        assert ILike(s[1..], p);
      }
    }
  }

  /** Every text containing `w` up to ASCII case matches `%w%`, even when `w`
      holds wildcards of its own. */
  lemma ContainsMatches(s: string, w: string)
    requires ContainsCI(s, w)
    ensures ILike(s, "%" + w + "%")
  {
    var k :| 0 <= k <= |s| - |w| && OccursAt(s, w, k);
    assert s[k..][..|w|] == s[k..k + |w|];
    ILikeAnything(s[k..][|w|..]);
    ILikeSpelledOut(s[k..], w, "%");
    ILikePercent(s, w + "%");
    assert "%" + w + "%" == ['%'] + (w + "%");
  }

  /** SQLite's `OFFSET offset LIMIT limit` over rows in natural order: a
      negative offset counts as 0 and a negative limit means no limit. */
  function Page<T>(rows: seq<T>, offset: int, limit: int): (r: seq<T>)
    ensures limit >= 0 ==> |r| <= limit
    ensures limit >= 0 ==> |r| == Min(limit, |rows| - Min(Max(offset, 0), |rows|))
    ensures offset >= |rows| || limit == 0 ==> r == []
    ensures limit < 0 ==> |r| == |rows| - Min(Max(offset, 0), |rows|)
    ensures forall k :: 0 <= k < |r| ==> Max(offset, 0) + k < |rows| && r[k] == rows[Max(offset, 0) + k]
  {
    var start := Min(Max(offset, 0), |rows|);
    var end := if limit < 0 then |rows| else Min(start + limit, |rows|);
    rows[start..end]
  }

  function Min(a: int, b: int): int { if a <= b then a else b }

  function Max(a: int, b: int): int { if a >= b then a else b }
}
