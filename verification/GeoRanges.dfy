/** Merging code ranges and turning them into byte ranges of index keys. */
module GeoRanges {
  import opened ByteReaders
  import opened Prelude

  /** An inclusive range of codes. */
  datatype Range = Range(lo: nat, hi: nat)

  const CODE_MAX: nat := 0xFFFF_FFFF_FFFF_FFFF

  ghost predicate InSome(ranges: seq<Range>, z: nat) {
    exists i :: 0 <= i < |ranges| && ranges[i].lo <= z <= ranges[i].hi
  }

  ghost predicate Valid(ranges: seq<Range>) {
    forall i :: 0 <= i < |ranges| ==> ranges[i].lo <= ranges[i].hi <= CODE_MAX
  }

  predicate Before(a: Range, b: Range) { a.lo < b.lo || (a.lo == b.lo && a.hi <= b.hi) }

  function Place(s: seq<Range>, a: Range): seq<Range> {
    if s == [] || Before(s[|s| - 1], a) then s + [a] else Place(s[..|s| - 1], a) + [s[|s| - 1]]
  }

  function Sort(s: seq<Range>): seq<Range> { if s == [] then [] else Place(Sort(s[..|s| - 1]), s[|s| - 1]) }

  lemma {:induction false} PlaceLength(s: seq<Range>, a: Range)
    ensures |Place(s, a)| == |s| + 1
  {
    if s != [] { PlaceLength(s[..|s| - 1], a); }
  }

  lemma {:induction false} SortLength(s: seq<Range>)
    ensures |Sort(s)| == |s|
  {
    if s != [] {
      SortLength(s[..|s| - 1]);
      PlaceLength(Sort(s[..|s| - 1]), s[|s| - 1]);
    }
  }

  ghost predicate Sorted(s: seq<Range>) { forall i, j :: 0 <= i < j < |s| ==> s[i].lo <= s[j].lo }

  lemma {:induction false} PlaceIs(s: seq<Range>, a: Range)
    requires Sorted(s)
    ensures Sorted(Place(s, a)) && forall b :: b in Place(s, a) <==> b in s || b == a
  {
    if s != [] {
      var front, last := s[..|s| - 1], s[|s| - 1];
      assert s == front + [last];
      if !Before(last, a) {
        PlaceIs(front, a);
        var out := Place(front, a);
        forall i | 0 <= i < |out| ensures out[i].lo <= last.lo { assert out[i] in out; }
      }
    }
  }

  lemma {:induction false} SortIs(s: seq<Range>)
    ensures Sorted(Sort(s)) && forall b :: b in Sort(s) <==> b in s
  {
    if s != [] {
      var front, last := s[..|s| - 1], s[|s| - 1];
      assert s == front + [last];
      SortIs(front);
      PlaceIs(Sort(front), last);
    }
  }

  lemma SameRanges(a: seq<Range>, b: seq<Range>)
    requires forall x :: x in a <==> x in b
    ensures (Valid(a) <==> Valid(b)) && forall z :: InSome(a, z) <==> InSome(b, z)
  {
    forall i | 0 <= i < |a| ensures exists j :: 0 <= j < |b| && b[j] == a[i] { assert a[i] in b; }
    forall i | 0 <= i < |b| ensures exists j :: 0 <= j < |a| && a[j] == b[i] { assert b[i] in a; }
  }

  /** Ascending ranges with a gap between neighbours. */
  ghost predicate Apart(s: seq<Range>) { forall i, j :: 0 <= i < j < |s| ==> s[i].hi + 1 < s[j].lo }

  lemma InSomeSnoc(s: seq<Range>, a: Range, z: nat)
    ensures InSome(s + [a], z) <==> InSome(s, z) || a.lo <= z <= a.hi
  {
    if InSome(s, z) {
      var i :| 0 <= i < |s| && s[i].lo <= z <= s[i].hi;
      assert (s + [a])[i] == s[i];
    }
    if a.lo <= z <= a.hi { assert (s + [a])[|s|] == a; }
  }

  function Union(a: Range, b: Range): Range { if b.hi > a.hi then Range(a.lo, b.hi) else a }

  lemma UnionCovers(a: Range, b: Range, z: nat)
    requires a.lo <= b.lo <= a.hi + 1
    ensures Union(a, b).lo <= z <= Union(a, b).hi <==> a.lo <= z <= a.hi || b.lo <= z <= b.hi
  {
  }

  /** The merged form of the first `i` sorted ranges. */
  ghost predicate Merged(ranges: seq<Range>, i: nat, merged: seq<Range>)
    requires i <= |ranges|
  {
    && Apart(merged) && Valid(merged) && |merged| <= i
    && (forall z: nat :: InSome(merged, z) <==> InSome(ranges[..i], z))
    && (i > 0 ==> merged != [] && merged[|merged| - 1].lo <= ranges[i - 1].lo)
  }

  lemma MergeExtends(ranges: seq<Range>, i: nat, merged: seq<Range>)
    requires i < |ranges| && Sorted(ranges) && Valid(ranges) && Merged(ranges, i, merged)
    requires merged != [] && ranges[i].lo <= merged[|merged| - 1].hi + 1 && i > 0
    ensures Merged(ranges, i + 1, merged[|merged| - 1 := Union(merged[|merged| - 1], ranges[i])])
  {
    var front, last := merged[..|merged| - 1], merged[|merged| - 1];
    var out := merged[|merged| - 1 := Union(last, ranges[i])];
    assert merged == front + [last] && out == front + [Union(last, ranges[i])];
    assert ranges[i - 1].lo <= ranges[i].lo;
    assert ranges[..i + 1] == ranges[..i] + [ranges[i]];
    forall z: nat ensures InSome(out, z) <==> InSome(ranges[..i + 1], z) {
      InSomeSnoc(front, last, z);
      InSomeSnoc(front, Union(last, ranges[i]), z);
      InSomeSnoc(ranges[..i], ranges[i], z);
      UnionCovers(last, ranges[i], z);
    }
  }

  lemma MergeOpens(ranges: seq<Range>, i: nat, merged: seq<Range>)
    requires i < |ranges| && Sorted(ranges) && Valid(ranges) && Merged(ranges, i, merged)
    requires merged != [] ==> ranges[i].lo > merged[|merged| - 1].hi + 1
    ensures Merged(ranges, i + 1, merged + [ranges[i]])
  {
    assert ranges[..i + 1] == ranges[..i] + [ranges[i]];
    forall z: nat ensures InSome(merged + [ranges[i]], z) <==> InSome(ranges[..i + 1], z) {
      InSomeSnoc(merged, ranges[i], z);
      InSomeSnoc(ranges[..i], ranges[i], z);
    }
  }

  function NextAfter(hi: nat): nat { if hi >= CODE_MAX then CODE_MAX else hi + 1 }

  /** The loop of `merge_ranges` over ranges in order. */
  method MergeSorted(ranges: seq<Range>) returns (merged: seq<Range>)
    requires Sorted(ranges) && Valid(ranges)
    ensures Merged(ranges, |ranges|, merged)
  {
    merged := [];
    var i := 0;
    while i < |ranges|
      invariant 0 <= i <= |ranges| && Merged(ranges, i, merged) && (i == 0 ==> merged == [])
    {
      var r, n := ranges[i], |merged|;
      if n > 0 && r.lo <= NextAfter(merged[n - 1].hi) {
        MergeExtends(ranges, i, merged);
        if r.hi > merged[n - 1].hi {
          merged := merged[n - 1 := Range(merged[n - 1].lo, r.hi)];
        } else {
          assert merged[n - 1 := merged[n - 1]] == merged;
        }
      } else {
        MergeOpens(ranges, i, merged);
        merged := merged + [r];
      }
      i := i + 1;
    }
  }

  /** `merge_ranges`: the same codes in ascending ranges that do not touch. */
  method MergeRanges(input: seq<Range>) returns (merged: seq<Range>)
    requires Valid(input)
    ensures Apart(merged) && Valid(merged) && |merged| <= |input|
    ensures forall z: nat :: InSome(merged, z) <==> InSome(input, z)
  {
    if input == [] { return []; }
    var ranges := Sort(input);
    SortIs(input);
    SortLength(input);
    SameRanges(ranges, input);
    merged := MergeSorted(ranges);
    assert ranges[..|ranges|] == ranges;
  }

  // Big-endian keys in lexicographic order.

  predicate LexLess(a: seq<Byte>, b: seq<Byte>) {
    b != [] && (a == [] || a[0] < b[0] || (a[0] == b[0] && LexLess(a[1..], b[1..])))
  }

  lemma {:induction false} LexConcat(a: seq<Byte>, b: seq<Byte>, s: seq<Byte>, t: seq<Byte>)
    requires |a| == |b|
    ensures LexLess(a + s, b + t) <==> LexLess(a, b) || (a == b && LexLess(s, t))
  {
    if a == [] {
      assert a + s == s && b + t == t;
    } else {
      assert (a + s)[1..] == a[1..] + s && (b + t)[1..] == b[1..] + t;
      LexConcat(a[1..], b[1..], s, t);
      assert a == [a[0]] + a[1..] && b == [b[0]] + b[1..];
    }
  }

  lemma {:induction false} BeOrder(n: nat, v: nat, w: nat)
    requires v < Pow256(n) && w < Pow256(n)
    ensures (LexLess(Be(n, v), Be(n, w)) <==> v < w) && (Be(n, v) == Be(n, w) <==> v == w)
  {
    if n > 0 {
      BeOrder(n - 1, v / 256, w / 256);
      var p, q, a, b := Be(n - 1, v / 256), Be(n - 1, w / 256), v % 256, w % 256;
      LexConcat(p, q, [a], [b]);
      assert [a] == [b] <==> a == b;
      SnocSame(p, q, a, b);
    }
  }

  lemma SnocSame(p: seq<Byte>, q: seq<Byte>, a: Byte, b: Byte)
    requires |p| == |q|
    ensures p + [a] == q + [b] <==> p == q && a == b
  {
    if p + [a] == q + [b] {
      assert (p + [a])[..|p|] == p && (q + [b])[..|q|] == q;
      assert (p + [a])[|p|] == a && (q + [b])[|q|] == b;
    }
  }

  /** A scan from `start` up to, not including, `end`. */
  datatype ByteRange = ByteRange(start: seq<Byte>, end: Option<seq<Byte>>)

  predicate Scans(r: ByteRange, key: seq<Byte>) {
    !LexLess(key, r.start) && (r.end.Some? ==> LexLess(key, r.end.value))
  }

  function RangeBytes(lo: nat, hi: nat): ByteRange {
    ByteRange(Be(8, lo), if hi == CODE_MAX then None else Some(Be(8, hi + 1)))
  }

  /** The scan of a code range meets exactly the entries whose code is in it, whatever the row key. */
  lemma RangeBytesExact(lo: nat, hi: nat, z: nat, row: seq<Byte>)
    requires lo <= CODE_MAX && hi <= CODE_MAX && z <= CODE_MAX
    ensures Scans(RangeBytes(lo, hi), Be(8, z) + row) <==> lo <= z <= hi
  {
    assert Pow256(8) == CODE_MAX + 1;
    BeOrder(8, z, lo);
    assert Be(8, lo) + [] == Be(8, lo);
    LexConcat(Be(8, z), Be(8, lo), row, []);
    if hi < CODE_MAX {
      BeOrder(8, z, hi + 1);
      assert Be(8, hi + 1) + [] == Be(8, hi + 1);
      LexConcat(Be(8, z), Be(8, hi + 1), row, []);
    }
  }
}
