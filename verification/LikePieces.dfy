/** `LIKE` without recursion: a match is a way to cut the string along the pattern. */
module LikePieces {
  import opened Like

  /** What one character of a pattern may stand for. */
  predicate StandsFor(c: char, piece: string) {
    c == '%' || (|piece| == 1 && (c == '_' || piece[0] == c))
  }

  function Joined(pieces: seq<string>): string {
    if pieces == [] then "" else pieces[0] + Joined(pieces[1..])
  }

  /** The string cut into one piece for each character of the pattern. */
  ghost predicate Cut(s: string, p: string, pieces: seq<string>) {
    && |pieces| == |p| && Joined(pieces) == s
    && forall i :: 0 <= i < |p| ==> StandsFor(p[i], pieces[i])
  }

  lemma {:induction false} MatchCuts(s: string, p: string) returns (pieces: seq<string>)
    requires Matches(s, p)
    ensures Cut(s, p, pieces)
  {
    pieces := [];
    if p != "" {
      var k := 1;
      if p[0] == '%' { k :| 0 <= k <= |s| && Matches(s[k..], p[1..]); }
      var rest := MatchCuts(s[k..], p[1..]);
      pieces := [s[..k]] + rest;
      assert pieces[1..] == rest && s == s[..k] + s[k..];
      forall i | 0 <= i < |p| ensures StandsFor(p[i], pieces[i]) {
        if i > 0 { assert p[i] == p[1..][i - 1] && pieces[i] == rest[i - 1]; }
      }
    }
  }

  lemma {:induction false} CutMatches(s: string, p: string, pieces: seq<string>)
    requires Cut(s, p, pieces)
    ensures Matches(s, p)
  {
    if p != "" {
      var rest := Joined(pieces[1..]);
      assert StandsFor(p[0], pieces[0]) && s[|pieces[0]|..] == rest;
      forall i | 0 <= i < |p[1..]| ensures StandsFor(p[1..][i], pieces[1..][i]) {
        assert StandsFor(p[i + 1], pieces[i + 1]);
      }
      CutMatches(rest, p[1..], pieces[1..]);
    }
  }

  /** A match is a way to cut the string along the pattern. */
  lemma MatchesIff(s: string, p: string)
    ensures Matches(s, p) <==> exists pieces :: Cut(s, p, pieces)
  {
    if Matches(s, p) { var pieces := MatchCuts(s, p); }
    if pieces :| Cut(s, p, pieces) { CutMatches(s, p, pieces); }
  }
}
