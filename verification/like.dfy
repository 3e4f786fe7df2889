/** The SQL `<like predicate>` of ISO/IEC 9075-2, subclause 8.5, without an
    ESCAPE clause: in a pattern `%` stands for any (possibly empty) sequence of
    characters, `_` for exactly one character, and every other character for
    itself. The list filters build their `contains` / `starts_with` /
    `ends_with` conditions from such patterns. */
module Like {

  /** `p` is a prefix of `s`. */
  predicate StartsWith(s: string, p: string) {
    |p| <= |s| && s[..|p|] == p
  }

  /** `p` is a suffix of `s`. */
  predicate EndsWith(s: string, p: string) {
    |p| <= |s| && s[|s| - |p|..] == p
  }

  /** `p` occurs in `s` starting at position `k`. */
  predicate OccursAt(s: string, p: string, k: int) {
    0 <= k && k + |p| <= |s| && s[k..k + |p|] == p
  }

  /** `p` occurs in `s` as a contiguous substring. */
  predicate Contains(s: string, p: string) {
    exists k | 0 <= k <= |s| :: OccursAt(s, p, k)
  }

  /** A pattern character with special meaning. */
  predicate IsWildcard(c: char) {
    c == '%' || c == '_'
  }

  predicate NoWildcards(v: string) {
    forall i :: 0 <= i < |v| ==> !IsWildcard(v[i])
  }

  /** `s LIKE p`. */
  function Like(s: string, p: string): bool
    decreases |s| + |p|
  {
    if |p| == 0 then |s| == 0
    else if p[0] == '%' then Like(s, p[1..]) || (|s| > 0 && Like(s[1..], p))
    else |s| > 0 && (p[0] == '_' || p[0] == s[0]) && Like(s[1..], p[1..])
  }

  /** The lone `%` matches every string. */
  lemma {:induction false} LikeAnything(s: string)
    ensures Like(s, "%")
    decreases |s|
  {
    assert "%"[1..] == "";
    if |s| > 0 {
      LikeAnything(s[1..]);
    }
  }

  /** A pattern without wildcards matches exactly itself. */
  lemma {:induction false} LikeLiteral(s: string, v: string)
    requires NoWildcards(v)
    ensures Like(s, v) <==> s == v
    decreases |v|
  {
    if |v| > 0 && |s| > 0 {
      LikeLiteral(s[1..], v[1..]);
      if |s| > 0 && s[0] == v[0] && s[1..] == v[1..] {
        assert s == [s[0]] + s[1..];
        assert v == [v[0]] + v[1..];
      }
    }
  }

  /** `v%` matches exactly the strings starting with `v`. */
  lemma {:induction false} LikeStartsWith(s: string, v: string)
    requires NoWildcards(v)
    ensures Like(s, v + "%") <==> StartsWith(s, v)
    decreases |v|
  {
    var p := v + "%";
    if |v| == 0 {
      assert p == "%";
      LikeAnything(s);
    } else {
      assert p[0] == v[0] && !IsWildcard(p[0]);
      assert p[1..] == v[1..] + "%";
      if |s| > 0 {
        LikeStartsWith(s[1..], v[1..]);
      }
      if |s| > 0 && s[0] == v[0] && StartsWith(s[1..], v[1..]) {
        assert s[..|v|] == [s[0]] + s[1..][..|v| - 1];
        assert v == [v[0]] + v[1..];
      }
      if StartsWith(s, v) {
        assert s[0] == v[0];
        assert s[1..][..|v| - 1] == s[..|v|][1..];
      }
    }
  }

  /** Some suffix of `s`, starting at a position in 0..|s|, matches `q`. */
  predicate SomeSuffixLike(s: string, q: string) {
    exists k :: 0 <= k <= |s| && Like(s[k..], q)
  }

  /** A leading `%` lets the rest of the pattern match any suffix. */
  lemma {:induction false} LikeLeadingPercent(s: string, q: string)
    ensures Like(s, "%" + q) <==> SomeSuffixLike(s, q)
    decreases |s|
  {
    var p := "%" + q;
    assert p[1..] == q;
    if Like(s, q) {
      assert s[0..] == s;
    }
    if |s| > 0 {
      LikeLeadingPercent(s[1..], q);
      if SomeSuffixLike(s[1..], q) {
        var k :| 0 <= k <= |s[1..]| && Like(s[1..][k..], q);
        assert s[1..][k..] == s[k + 1..];
      }
      if SomeSuffixLike(s, q) && !Like(s, q) {
        var k :| 0 <= k <= |s| && Like(s[k..], q);
        assert k != 0;
        assert s[1..][k - 1..] == s[k..];
        assert SomeSuffixLike(s[1..], q);
      }
    } else {
      if SomeSuffixLike(s, q) {
        var k :| 0 <= k <= |s| && Like(s[k..], q);
        assert k == 0 && s[k..] == s;
      }
    }
  }

  /** `%v` matches exactly the strings ending with `v`. */
  lemma LikeEndsWith(s: string, v: string)
    requires NoWildcards(v)
    ensures Like(s, "%" + v) <==> EndsWith(s, v)
  {
    LikeLeadingPercent(s, v);
    if SomeSuffixLike(s, v) {
      var k :| 0 <= k <= |s| && Like(s[k..], v);
      LikeLiteral(s[k..], v);
    }
    if EndsWith(s, v) {
      var k := |s| - |v|;
      LikeLiteral(s[k..], v);
    }
  }

  /** `%v%` matches exactly the strings containing `v`. */
  lemma LikeContains(s: string, v: string)
    requires NoWildcards(v)
    ensures Like(s, "%" + v + "%") <==> Contains(s, v)
  {
    var q := v + "%";
    assert "%" + v + "%" == "%" + q;
    LikeLeadingPercent(s, q);
    if SomeSuffixLike(s, q) {
      var k :| 0 <= k <= |s| && Like(s[k..], q);
      LikeStartsWith(s[k..], v);
      assert s[k..][..|v|] == s[k..k + |v|];
      assert OccursAt(s, v, k);
    }
    if Contains(s, v) {
      var k :| 0 <= k <= |s| && OccursAt(s, v, k);
      LikeStartsWith(s[k..], v);
      assert s[k..][..|v|] == s[k..k + |v|];
      assert SomeSuffixLike(s, q);
    }
  }
}
