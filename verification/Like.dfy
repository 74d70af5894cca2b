/** SQL `LIKE` without ESCAPE: the two-index matcher decides the recursive definition. */
module Like {

  /** `%` stands for any run of characters, `_` for any one, the rest for itself
      (section 8.5 of ISO/IEC 9075-2, without an escape character). */
  predicate Matches(s: string, p: string)
    decreases |p|
  {
    if p == "" then s == ""
    else if p[0] == '%' then exists k :: 0 <= k <= |s| && Matches(s[k..], p[1..])
    else s != "" && (p[0] == '_' || p[0] == s[0]) && Matches(s[1..], p[1..])
  }

  /** Nothing but `%` matches the empty string. */
  lemma {:induction false} MatchesEmpty(p: string)
    ensures Matches("", p) <==> forall i :: 0 <= i < |p| ==> p[i] == '%'
  {
    if p != "" {
      MatchesEmpty(p[1..]);
      assert ""[0..] == "";
      if p[0] == '%' {
        assert Matches("", p) <==> Matches("", p[1..]);
      }
    }
  }

  /** A stretch `p[a..b]` without `%` consumes exactly as many characters. */
  lemma {:induction false} SegmentConsumes(s: string, p: string, k: nat, a: nat, b: nat)
    requires a <= b <= |p| && k <= |s|
    requires forall i :: a <= i < b ==> p[i] != '%'
    requires Matches(s[k..], p[a..])
    ensures k + (b - a) <= |s| && Matches(s[k + (b - a)..], p[b..])
    decreases b - a
  {
    if a < b {
      assert p[a..][1..] == p[a + 1..] && s[k..] != "" && s[k..][1..] == s[k + 1..];
      SegmentConsumes(s, p, k + 1, a + 1, b);
    }
  }

  /** `Matches(s[m..], p[q..])` where `p[q]` is a `%`: some suffix matches what follows it. */
  lemma StarMeans(s: string, p: string, m: nat, q: nat)
    requires m <= |s| && q < |p| && p[q] == '%'
    ensures Matches(s[m..], p[q..]) <==> exists k :: m <= k <= |s| && Matches(s[k..], p[q + 1..])
  {
    assert p[q..][1..] == p[q + 1..];
    if Matches(s[m..], p[q..]) {
      var j :| 0 <= j <= |s[m..]| && Matches(s[m..][j..], p[q + 1..]);
      assert s[m..][j..] == s[m + j..];
    }
    if k :| m <= k <= |s| && Matches(s[k..], p[q + 1..]) {
      assert s[m..][k - m..] == s[k..];
    }
  }

  /** Whether the pattern from the last `%` on matches somewhere at or after `mark`. */
  ghost predicate SomeFrom(s: string, p: string, star: nat, mark: nat) {
    exists k :: mark <= k <= |s| && star < |p| && Matches(s[k..], p[star + 1..])
  }

  /** With the stretch after the last `%` matched at `mark`, a further `%` forgets the earlier one. */
  lemma LaterStarSuffices(s: string, p: string, star: nat, mark: nat, si: nat, pi: nat)
    requires star < pi < |p| && p[pi] == '%' && mark <= si <= |s| && si - mark == pi - star - 1
    requires forall i :: star < i < pi ==> p[i] != '%'
    requires Matches(s[mark..], p[star + 1..]) <==> Matches(s[si..], p[pi..])
    ensures SomeFrom(s, p, star, mark) <==> Matches(s[si..], p[pi..])
  {
    if k :| mark <= k <= |s| && Matches(s[k..], p[star + 1..]) {
      SegmentConsumes(s, p, k, star + 1, pi);
      var j := k + (pi - star - 1);
      StarMeans(s, p, j, pi);
      StarMeans(s, p, si, pi);
    }
  }

  /** What a scan position stands for: without a `%` seen, the rest decides; after one at `star`,
      the stretch since it is matched at `mark` and any later start may still succeed. */
  ghost predicate Scanning(s: string, p: string, si: int, pi: int, star: int, mark: int) {
    && 0 <= mark <= si <= |s| && -1 <= star < pi <= |p|
    && (star < 0 ==> (Matches(s, p) <==> Matches(s[si..], p[pi..])))
    && (star >= 0 ==>
          && si - mark == pi - star - 1 && p[star] == '%'
          && (forall i :: star < i < pi ==> p[i] != '%')
          && (Matches(s, p) <==> SomeFrom(s, p, star, mark))
          && (Matches(s[mark..], p[star + 1..]) <==> Matches(s[si..], p[pi..])))
  }

  lemma ScanStar(s: string, p: string, si: int, pi: int, star: int, mark: int)
    requires Scanning(s, p, si, pi, star, mark) && pi < |p| && p[pi] == '%'
    ensures Scanning(s, p, si, pi + 1, pi, si)
  {
    if star >= 0 { LaterStarSuffices(s, p, star, mark, si, pi); }
    StarMeans(s, p, si, pi);
  }

  lemma ScanChar(s: string, p: string, si: int, pi: int, star: int, mark: int)
    requires Scanning(s, p, si, pi, star, mark) && pi < |p| && si < |s|
    requires p[pi] != '%' && (p[pi] == '_' || p[pi] == s[si])
    ensures Scanning(s, p, si + 1, pi + 1, star, mark)
  {
    assert s[si..][1..] == s[si + 1..] && p[pi..][1..] == p[pi + 1..];
  }

  lemma Mismatch(s: string, p: string, si: int, pi: int)
    requires 0 <= si < |s| && 0 <= pi <= |p|
    requires pi < |p| ==> p[pi] != '%' && p[pi] != '_' && p[pi] != s[si]
    ensures !Matches(s[si..], p[pi..])
  {
  }

  lemma ScanBack(s: string, p: string, si: int, pi: int, star: int, mark: int)
    requires Scanning(s, p, si, pi, star, mark) && star >= 0 && si < |s|
    requires !Matches(s[si..], p[pi..])
    ensures Scanning(s, p, mark + 1, star + 1, star, mark + 1)
  {
    assert SomeFrom(s, p, star, mark) <==> SomeFrom(s, p, star, mark + 1);
  }

  lemma ScanEnd(s: string, p: string, pi: int, star: int, mark: int)
    requires Scanning(s, p, |s|, pi, star, mark)
    ensures Matches(s, p) <==> forall i :: pi <= i < |p| ==> p[i] == '%'
  {
    MatchesEmpty(p[pi..]);
    assert s[|s|..] == "";
    assert (forall i :: pi <= i < |p| ==> p[i] == '%') <==> (forall i :: 0 <= i < |p[pi..]| ==> p[pi..][i] == '%');
    if star >= 0 {
      if k :| mark <= k <= |s| && Matches(s[k..], p[star + 1..]) {
        SegmentConsumes(s, p, k, star + 1, pi);
      }
    }
  }

  method LikeMatch(s: string, p: string) returns (matched: bool)
    ensures matched == Matches(s, p)
  {
    var si, pi := 0, 0;
    var star, mark := -1, 0;
    assert s[0..] == s && p[0..] == p;
    while si < |s|
      invariant Scanning(s, p, si, pi, star, mark)
      decreases |s| - mark, |s| - si + |p| - pi
    {
      if pi < |p| && p[pi] == '%' {
        ScanStar(s, p, si, pi, star, mark);
        star, mark, pi := pi, si, pi + 1;
      } else if pi < |p| && (p[pi] == '_' || p[pi] == s[si]) {
        ScanChar(s, p, si, pi, star, mark);
        si, pi := si + 1, pi + 1;
      } else {
        Mismatch(s, p, si, pi);
        if star < 0 { return false; }
        ScanBack(s, p, si, pi, star, mark);
        mark := mark + 1;
        si, pi := mark, star + 1;
      }
    }
    ScanEnd(s, p, pi, star, mark);
    matched := forall i :: pi <= i < |p| ==> p[i] == '%';
  }
}
