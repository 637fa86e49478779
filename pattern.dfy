/** The SQL `LIKE` and `ILIKE` operators of PostgreSQL, as the product search
    relies on them: `%` matches any run of characters, `_` any single
    character, and a backslash makes the next character literal. ILIKE
    compares after lower-casing; only ASCII letters are folded here. */
module Pattern {

  function LowerChar(c: char): char
  {
    if 'A' <= c <= 'Z' then (c as int + 32) as char else c
  }

  function Lower(s: string): (r: string)
    ensures |r| == |s|
    ensures forall i :: 0 <= i < |s| ==> r[i] == LowerChar(s[i])
  {
    seq(|s|, i requires 0 <= i < |s| => LowerChar(s[i]))
  }

  /** Whether the text `s` matches the pattern `p`. A backslash as the very
      last character of a pattern (an error in PostgreSQL) stands for itself;
      the patterns built by the product store always end in `%`. */
  function Like(s: string, p: string): bool
    decreases |s| + |p|
  {
    if p == [] then s == []
    else if p[0] == '%' then Like(s, p[1..]) || (s != [] && Like(s[1..], p))
    else if s == [] then false
    else if p[0] == '_' then Like(s[1..], p[1..])
    else if p[0] == '\\' && |p| > 1 then s[0] == p[1] && Like(s[1..], p[2..])
    else s[0] == p[0] && Like(s[1..], p[1..])
  }

  /** `s ILIKE p`. */
  function ILike(s: string, p: string): bool
  {
    Like(Lower(s), Lower(p))
  }

  /** A pattern without wildcard or escape characters, which matches only itself. */
  predicate Literal(n: string)
  {
    forall i :: 0 <= i < |n| ==> n[i] != '%' && n[i] != '_' && n[i] != '\\'
  }

  /** `n` occurs somewhere in `s`. */
  ghost predicate Contains(s: string, n: string)
  {
    exists k :: 0 <= k <= |s| && n <= s[k..]
  }

  lemma {:induction false} AnythingMatchesPercent(s: string)
    ensures Like(s, "%")
  {
    assert "%"[1..] == "";
    if s != [] {
      AnythingMatchesPercent(s[1..]);
    }
  }

  /** A literal followed by `%` matches exactly the texts that start with it. */
  lemma {:induction false} LiteralThenPercent(s: string, n: string)
    requires Literal(n)
    ensures Like(s, n + "%") <==> n <= s
  {
    if n == [] {
      assert n + "%" == "%";
      AnythingMatchesPercent(s);
    } else {
      var p := n + "%";
      assert p[0] == n[0] && p[1..] == n[1..] + "%";
      if s != [] {
        LiteralThenPercent(s[1..], n[1..]);
        assert n <= s <==> s[0] == n[0] && n[1..] <= s[1..];
      }
    }
  }

  /** `%` followed by `q` matches exactly the texts with a suffix matching `q`. */
  lemma {:induction false} PercentThen(s: string, q: string)
    ensures Like(s, "%" + q) <==> exists k :: 0 <= k <= |s| && Like(s[k..], q)
  {
    var p := "%" + q;
    assert p[0] == '%' && p[1..] == q;
    assert s[0..] == s;
    if s != [] {
      PercentThen(s[1..], q);
      if Like(s, p) && !Like(s, q) {
        var j :| 0 <= j <= |s[1..]| && Like(s[1..][j..], q);
        assert s[1..][j..] == s[j + 1..];
      }
      if exists k :: 0 <= k <= |s| && Like(s[k..], q) {
        var k :| 0 <= k <= |s| && Like(s[k..], q);
        if k > 0 {
          assert s[1..][k - 1..] == s[k..];
        }
      }
    }
  }

  /** `s LIKE '%' || n || '%'` holds exactly when `n` occurs in `s`, for a
      literal `n`. */
  lemma LikeContains(s: string, n: string)
    requires Literal(n)
    ensures Like(s, "%" + n + "%") <==> Contains(s, n)
  {
    assert "%" + n + "%" == "%" + (n + "%");
    PercentThen(s, n + "%");
    forall k | 0 <= k <= |s|
      ensures Like(s[k..], n + "%") <==> n <= s[k..]
    {
      LiteralThenPercent(s[k..], n);
    }
  }

  /** `s ILIKE '%' || n || '%'` holds exactly when `n` occurs in `s` up to
      the case of letters, for a literal `n`. */
  lemma ILikeContains(s: string, n: string)
    requires Literal(n)
    ensures ILike(s, "%" + n + "%") <==> Contains(Lower(s), Lower(n))
  {
    assert Lower("%" + n + "%") == "%" + Lower(n) + "%";
    LikeContains(Lower(s), Lower(n));
  }
}
