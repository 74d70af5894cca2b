/** Planning a bounding-box scan: quantization, the antimeridian, and why no row is lost. */
module GeoPlan {
  import opened ByteReaders
  import opened GeoCover
  import opened GeoRanges
  import opened Morton
  import MortonBits
  import opened Prelude

  const LAT_MIN := -90.0
  const LAT_MAX := 90.0
  const LON_MIN := -180.0
  const LON_MAX := 180.0
  const U32_MAX: nat := 0xFFFF_FFFF

  function Clamp(t: real): real { if t < 0.0 then 0.0 else if t > 1.0 then 1.0 else t }

  /** Round half up; the argument is never negative. */
  function Round(x: real): nat
    requires x >= 0.0
  {
    (x + 0.5).Floor
  }

  function Quantize(v: real, min: real, max: real): (q: nat)
    requires min < max
    ensures q <= U32_MAX
  {
    Round(Clamp((v - min) / (max - min)) * U32_MAX as real)
  }

  lemma RatioMonotone(a: real, b: real, d: real)
    requires a <= b && d > 0.0
    ensures a / d <= b / d
  {
  }

  /** Quantization keeps order, also outside the domain. */
  lemma QuantizeMonotone(v: real, w: real, min: real, max: real)
    requires min < max && v <= w
    ensures Quantize(v, min, max) <= Quantize(w, min, max)
  {
    RatioMonotone(v - min, w - min, max - min);
  }

  lemma QuantizeEnds(v: real, min: real, max: real)
    requires min < max
    ensures v <= min ==> Quantize(v, min, max) == 0
    ensures v >= max ==> Quantize(v, min, max) == U32_MAX
  {
    if v <= min { RatioMonotone(v - min, 0.0, max - min); }
    if v >= max {
      RatioMonotone(max - min, v - min, max - min);
      assert (max - min) / (max - min) == 1.0;
    }
  }

  /** Every code of an axis is some value's. */
  lemma QuantizeOnto(q: nat, min: real, max: real) returns (v: real)
    requires min < max && q <= U32_MAX
    ensures Quantize(v, min, max) == q
  {
    var t, d := q as real / U32_MAX as real, max - min;
    v := min + t * d;
    assert (t * d) / d == t;
    RatioMonotone(q as real, U32_MAX as real, U32_MAX as real);
    assert t * U32_MAX as real == q as real;
  }

  /** A value in range has the code nearest to it, the higher one of two equally near. */
  lemma QuantizeNearest(v: real, min: real, max: real)
    requires min < max && min <= v <= max
    ensures var x := (v - min) / (max - min) * U32_MAX as real;
            Quantize(v, min, max) as real - 0.5 <= x < Quantize(v, min, max) as real + 0.5
  {
    var t, d := (v - min) / (max - min), max - min;
    assert t * d == v - min;
    assert 0.0 <= t <= 1.0;
  }

  function MortonOf(lat: real, lon: real): nat {
    Code(Quantize(lat, LAT_MIN, LAT_MAX), Quantize(lon, LON_MIN, LON_MAX))
  }

  /** Degrees; `minLon > maxLon` crosses the antimeridian. */
  datatype BBox = BBox(minLat: real, minLon: real, maxLat: real, maxLon: real)

  /** The exact `geo_bbox` predicate. */
  predicate GeoBBox(lat: real, lon: real, b: BBox) {
    && lat >= b.minLat && lat <= b.maxLat
    && (if b.minLon <= b.maxLon then lon >= b.minLon && lon <= b.maxLon else lon >= b.minLon || lon <= b.maxLon)
  }

  function SplitAntimeridian(b: BBox): (BBox, Option<BBox>) {
    if b.minLon <= b.maxLon then (b, None) else (b.(maxLon := LON_MAX), Some(b.(minLon := LON_MIN)))
  }

  predicate InBox(lat: real, lon: real, b: BBox) {
    b.minLat <= lat <= b.maxLat && b.minLon <= lon <= b.maxLon
  }

  /** The predicate is plain membership in one of the boxes the plan scans. */
  lemma BBoxIsHalves(lat: real, lon: real, b: BBox)
    requires LON_MIN <= lon <= LON_MAX
    ensures var (west, east) := SplitAntimeridian(b);
            GeoBBox(lat, lon, b) <==> InBox(lat, lon, west) || (east.Some? && InBox(lat, lon, east.value))
  {
  }

  /** On the latitudes of a crossing box, what lies outside is strictly between its two longitudes. */
  lemma CrossingOutside(lat: real, lon: real, b: BBox)
    requires b.maxLon < b.minLon && b.minLat <= lat <= b.maxLat
    ensures !GeoBBox(lat, lon, b) <==> b.maxLon < lon < b.minLon
  {
  }

  function Quantized(b: BBox): Rect {
    Rect(Quantize(b.minLat, LAT_MIN, LAT_MAX), Quantize(b.minLon, LON_MIN, LON_MAX),
         Quantize(b.maxLat, LAT_MIN, LAT_MAX), Quantize(b.maxLon, LON_MIN, LON_MAX))
  }

  predicate InQuantized(lat: real, lon: real, b: BBox) {
    InRect(Quantized(b), Quantize(lat, LAT_MIN, LAT_MAX), Quantize(lon, LON_MIN, LON_MAX))
  }

  /** A point in the box falls in the quantized rectangle of one half. */
  lemma BoxQuantized(lat: real, lon: real, b: BBox)
    requires GeoBBox(lat, lon, b)
    ensures InQuantized(lat, lon, SplitAntimeridian(b).0) ||
            (SplitAntimeridian(b).1.Some? && InQuantized(lat, lon, SplitAntimeridian(b).1.value))
  {
    QuantizeMonotone(b.minLat, lat, LAT_MIN, LAT_MAX);
    QuantizeMonotone(lat, b.maxLat, LAT_MIN, LAT_MAX);
    QuantizeEnds(LON_MIN, LON_MIN, LON_MAX);
    QuantizeEnds(LON_MAX, LON_MIN, LON_MAX);
    if lon >= b.minLon { QuantizeMonotone(b.minLon, lon, LON_MIN, LON_MAX); }
    if lon <= b.maxLon { QuantizeMonotone(lon, b.maxLon, LON_MIN, LON_MAX); }
  }

  lemma {:induction false} Up4IsUp2(k: nat)
    ensures Up4(1, k) == Up2(1, k) * Up2(1, k)
  {
    if k > 0 {
      Up4IsUp2(k - 1);
      var p := Up2(1, k - 1);
      assert 4 * (p * p) == (2 * p) * (2 * p);
    }
  }

  lemma Digits(n: nat)
    requires n == 32
    ensures Up2(1, n) == U32_MAX + 1 && Up4(1, n) == CODE_MAX + 1
  {
    MortonBits.WordSize(n);
    Up4IsUp2(n);
  }

  /** The code range of each cell. */
  function CellRanges(cells: seq<Cell>): (ranges: seq<Range>)
    requires AllLegal(32, cells)
    ensures |ranges| == |cells|
    ensures forall i :: 0 <= i < |cells| ==>
              ranges[i] == Range(Base(cells[i]), if Top(cells[i]) < 0 then 0 else Top(cells[i]))
  {
    seq(|cells|, i requires 0 <= i < |cells| => Range(Base(cells[i]), if Top(cells[i]) < 0 then 0 else Top(cells[i])))
  }

  lemma {:induction false} BlockNonempty4(c: nat, k: nat)
    ensures Up4(c + 1, k) > Up4(c, k)
  {
    if k > 0 { BlockNonempty4(c, k - 1); }
  }

  lemma CellRangesAre(cells: seq<Cell>, z: nat)
    requires AllLegal(32, cells)
    ensures GeoRanges.Valid(CellRanges(cells)) && (InSome(CellRanges(cells), z) <==> Covers(cells, z))
  {
    Digits(32);
    forall i | 0 <= i < |cells|
      ensures CellRanges(cells)[i].lo <= CellRanges(cells)[i].hi <= CODE_MAX
      ensures CellRanges(cells)[i].lo <= z <= CellRanges(cells)[i].hi <==> Has(cells[i], z)
    {
      assert Legal(32, cells[i]);
      BlockNonempty4(cells[i].prefix, cells[i].k);
      Down4Bounds(z, cells[i].k, cells[i].prefix);
    }
  }

  /** The budget has room for the whole decomposition of the quantized box. */
  predicate Ample(b: BBox, maxRanges: nat) { Room(Quantized(b), Cell(0, 32), 0, maxRanges) }

  /** The ranges hold no point outside the quantized box. */
  ghost predicate ExactFor(ranges: seq<Range>, b: BBox) {
    forall lat, lon :: InSome(ranges, MortonOf(lat, lon)) ==> InQuantized(lat, lon, b)
  }

  ghost predicate SamePoints(ranges: seq<Range>, cells: seq<Cell>) {
    forall lat, lon :: InSome(ranges, MortonOf(lat, lon)) <==> Covers(cells, MortonOf(lat, lon))
  }

  /** Every point of a legal cell is some point of the earth's. */
  lemma CellPoint(ranges: seq<Range>, cells: seq<Cell>, i: nat, la: nat, lo: nat) returns (lat: real, lon: real)
    requires SamePoints(ranges, cells) && AllLegal(32, cells) && i < |cells| && Has(cells[i], Code(la, lo))
    ensures Quantize(lat, LAT_MIN, LAT_MAX) == la && Quantize(lon, LON_MIN, LON_MAX) == lo
    ensures InSome(ranges, MortonOf(lat, lon))
  {
    LegalFits(32, cells[i], la, lo);
    Digits(32);
    lat := QuantizeOnto(la, LAT_MIN, LAT_MAX);
    lon := QuantizeOnto(lo, LON_MIN, LON_MAX);
    assert Covers(cells, MortonOf(lat, lon));
  }

  lemma ExactCells(b: BBox, ranges: seq<Range>, cells: seq<Cell>)
    requires SamePoints(ranges, cells) && AllLegal(32, cells)
    ensures ExactFor(ranges, b) <==> Exact(Quantized(b), cells)
  {
    if !Exact(Quantized(b), cells) {
      var la: nat, lo: nat :| Covers(cells, Code(la, lo)) && !InRect(Quantized(b), la, lo);
      var i :| 0 <= i < |cells| && Has(cells[i], Code(la, lo));
      var lat, lon := CellPoint(ranges, cells, i, la, lo);
    }
  }

  /** Two boxes on the same latitudes, `east` to the last meridian and `west` from the first, with a longitude
      between them. */
  predicate Gap(east: BBox, west: BBox) {
    var e, w := Quantized(east), Quantized(west);
    e.laMin == w.laMin && e.laMax == w.laMax && e.loMax == U32_MAX && w.loMin == 0 && e.loMin > w.loMax + 1
  }

  /** The ranges hold a point outside both boxes. */
  ghost predicate Spills(ranges: seq<Range>, a: BBox, b: BBox) {
    exists lat, lon :: InSome(ranges, MortonOf(lat, lon)) && !InQuantized(lat, lon, a) && !InQuantized(lat, lon, b)
  }

  /** A cell across the border of one box has a point outside both. */
  lemma SpillsBoth(east: BBox, west: BBox, c: Cell) returns (la: nat, lo: nat)
    requires Gap(east, west) && Legal(32, c)
    requires Straddles(Quantized(east), c) || Straddles(Quantized(west), c)
    ensures Has(c, Code(la, lo)) && !InRect(Quantized(east), la, lo) && !InRect(Quantized(west), la, lo)
  {
    var e, w := Quantized(east), Quantized(west);
    BlockNonempty(c.k);
    CellBox(c, LaHigh(c), LoHigh(c));
    LegalFits(32, c, LaHigh(c), LoHigh(c));
    Digits(32);
    la := if LaHigh(c) > e.laMax then LaHigh(c) else LaLow(c);
    lo := LoLow(c);
    if e.laMin <= LaLow(c) && LaHigh(c) <= e.laMax { lo := if Straddles(e, c) then e.loMin - 1 else w.loMax + 1; }
    CellBox(c, la, lo);
  }

  lemma FiredSpills(east: BBox, west: BBox, r: Rect, ranges: seq<Range>, cells: seq<Cell>)
    requires SamePoints(ranges, cells) && AllLegal(32, cells) && Gap(east, west) && Fired(Seen(r).across, cells)
    requires r == Quantized(east) || r == Quantized(west)
    ensures Spills(ranges, east, west)
  {
    var i :| 0 <= i < |cells| && Seen(r).across(cells[i]);
    var la, lo := SpillsBoth(east, west, cells[i]);
    var lat, lon := CellPoint(ranges, cells, i, la, lo);
  }

  /** `cover_ranges`: at most `maxRanges + 3` ascending ranges that do not touch and hold every point of the box.
      They hold no other exactly when the budget is ample; otherwise they spill out of any two halves of a box. */
  method CoverRanges(b: BBox, maxRanges: nat) returns (ranges: seq<Range>)
    ensures Apart(ranges) && GeoRanges.Valid(ranges) && |ranges| <= maxRanges + 3
    ensures forall lat, lon :: InQuantized(lat, lon, b) ==> InSome(ranges, MortonOf(lat, lon))
    ensures ExactFor(ranges, b) <==> Ample(b, maxRanges)
    ensures forall o :: !Ample(b, maxRanges) && Gap(b, o) ==> Spills(ranges, b, o)
    ensures forall o :: !Ample(b, maxRanges) && Gap(o, b) ==> Spills(ranges, o, b)
  {
    var cells := CoverCells(32, Quantized(b), maxRanges);
    CellRangesAre(cells, 0);
    ranges := MergeRanges(CellRanges(cells));
    Digits(32);
    forall lat, lon ensures InSome(ranges, MortonOf(lat, lon)) <==> Covers(cells, MortonOf(lat, lon)) {
      CellRangesAre(cells, MortonOf(lat, lon));
    }
    ExactCells(b, ranges, cells);
    if !Ample(b, maxRanges) {
      forall o | Gap(b, o) ensures Spills(ranges, b, o) { FiredSpills(b, o, Quantized(b), ranges, cells); }
      forall o | Gap(o, b) ensures Spills(ranges, o, b) { FiredSpills(o, b, Quantized(b), ranges, cells); }
    }
  }

  function Scanned(ranges: seq<Range>): (scans: seq<ByteRange>)
    ensures |scans| == |ranges| && forall i :: 0 <= i < |ranges| ==> scans[i] == RangeBytes(ranges[i].lo, ranges[i].hi)
  {
    seq(|ranges|, i requires 0 <= i < |ranges| => RangeBytes(ranges[i].lo, ranges[i].hi))
  }

  /** An index entry: the point's big-endian code, then the row key. */
  function Entry(lat: real, lon: real, row: seq<Byte>): seq<Byte> { Be(8, MortonOf(lat, lon)) + row }

  ghost predicate Found(scans: seq<ByteRange>, key: seq<Byte>) {
    exists i :: 0 <= i < |scans| && Scans(scans[i], key)
  }

  lemma CodeFits(lat: real, lon: real)
    ensures MortonOf(lat, lon) <= CODE_MAX
  {
    var la, lo := Quantize(lat, LAT_MIN, LAT_MAX), Quantize(lon, LON_MIN, LON_MAX);
    Digits(32);
    CodeBelow(32, la, lo);
  }

  lemma ScansFind(ranges: seq<Range>, lat: real, lon: real, row: seq<Byte>)
    requires GeoRanges.Valid(ranges)
    ensures Found(Scanned(ranges), Entry(lat, lon, row)) <==> InSome(ranges, MortonOf(lat, lon))
  {
    var z := MortonOf(lat, lon);
    CodeFits(lat, lon);
    if InSome(ranges, z) {
      var i :| 0 <= i < |ranges| && ranges[i].lo <= z <= ranges[i].hi;
      RangeBytesExact(ranges[i].lo, ranges[i].hi, z, row);
      assert Scans(Scanned(ranges)[i], Entry(lat, lon, row));
    }
    if Found(Scanned(ranges), Entry(lat, lon, row)) {
      var i :| 0 <= i < |ranges| && Scans(Scanned(ranges)[i], Entry(lat, lon, row));
      RangeBytesExact(ranges[i].lo, ranges[i].hi, z, row);
    }
  }

  lemma FoundConcat(a: seq<ByteRange>, b: seq<ByteRange>, key: seq<Byte>)
    ensures Found(a + b, key) <==> Found(a, key) || Found(b, key)
  {
    if Found(a, key) {
      var i :| 0 <= i < |a| && Scans(a[i], key);
      assert Scans((a + b)[i], key);
    }
    if Found(b, key) {
      var i :| 0 <= i < |b| && Scans(b[i], key);
      assert Scans((a + b)[|a| + i], key);
    }
    if Found(a + b, key) {
      var i :| 0 <= i < |a + b| && Scans((a + b)[i], key);
      assert i >= |a| ==> Scans(b[i - |a|], key);
    }
  }

  ghost predicate InHalves(lat: real, lon: real, halves: (BBox, Option<BBox>)) {
    InQuantized(lat, lon, halves.0) || (halves.1.Some? && InQuantized(lat, lon, halves.1.value))
  }

  /** The scans hold only entries whose quantized point is in a quantized half of the box. */
  ghost predicate ExactScans(scans: seq<ByteRange>, halves: (BBox, Option<BBox>)) {
    forall lat, lon, row :: Found(scans, Entry(lat, lon, row)) ==> InHalves(lat, lon, halves)
  }

  /** The budget is ample for each half. */
  predicate AmpleHalves(halves: (BBox, Option<BBox>), maxRanges: nat) {
    Ample(halves.0, maxRanges) && (halves.1.Some? ==> Ample(halves.1.value, maxRanges))
  }

  ghost predicate ScansOf(scans: seq<ByteRange>, east: seq<Range>, west: seq<Range>) {
    forall lat, lon, row :: Found(scans, Entry(lat, lon, row)) <==>
      InSome(east, MortonOf(lat, lon)) || InSome(west, MortonOf(lat, lon))
  }

  lemma ScansFindBoth(east: seq<Range>, west: seq<Range>)
    requires GeoRanges.Valid(east) && GeoRanges.Valid(west)
    ensures ScansOf(Scanned(east) + Scanned(west), east, west)
  {
    forall lat, lon, row
      ensures Found(Scanned(east) + Scanned(west), Entry(lat, lon, row)) <==>
              InSome(east, MortonOf(lat, lon)) || InSome(west, MortonOf(lat, lon))
    {
      FoundConcat(Scanned(east), Scanned(west), Entry(lat, lon, row));
      ScansFind(east, lat, lon, row);
      ScansFind(west, lat, lon, row);
    }
  }

  lemma SpillsFound(scans: seq<ByteRange>, east: seq<Range>, west: seq<Range>, a: BBox, b: BBox)
    requires ScansOf(scans, east, west) && (Spills(east, a, b) || Spills(west, a, b))
    ensures !ExactScans(scans, (a, Some(b)))
  {
    var lat, lon :| (InSome(east, MortonOf(lat, lon)) || InSome(west, MortonOf(lat, lon))) &&
                    !InQuantized(lat, lon, a) && !InQuantized(lat, lon, b);
    assert Found(scans, Entry(lat, lon, []));
  }

  lemma OneHalf(scans: seq<ByteRange>, east: seq<Range>, a: BBox)
    requires ScansOf(scans, east, []) && !ExactFor(east, a)
    ensures !ExactScans(scans, (a, None))
  {
    var lat, lon :| InSome(east, MortonOf(lat, lon)) && !InQuantized(lat, lon, a);
    assert Found(scans, Entry(lat, lon, []));
  }

  /** One half, or two whose quantized longitudes leave one out between them. */
  predicate SetApart(halves: (BBox, Option<BBox>)) {
    halves.1.Some? ==> Quantized(halves.0).loMin > Quantized(halves.1.value).loMax + 1
  }

  lemma CrossingGap(b: BBox, east: BBox, west: BBox)
    requires SplitAntimeridian(b) == (east, Some(west)) && Quantized(east).loMin > Quantized(west).loMax + 1
    ensures Gap(east, west)
  {
    QuantizeEnds(LON_MIN, LON_MIN, LON_MAX);
    QuantizeEnds(LON_MAX, LON_MIN, LON_MAX);
  }

  /** A bounding-box query loses no row: every entry of a point in the box lies in a planned scan. With an ample
      budget the scans hold exactly the entries whose quantized point is in the quantized box, and only then, unless
      the halves of a crossing box meet all around the globe. */
  method PlanBBox(b: BBox, maxRanges: nat) returns (scans: seq<ByteRange>)
    ensures forall lat, lon, row :: GeoBBox(lat, lon, b) ==> Found(scans, Entry(lat, lon, row))
    ensures AmpleHalves(SplitAntimeridian(b), maxRanges) ==> ExactScans(scans, SplitAntimeridian(b))
    ensures SetApart(SplitAntimeridian(b)) && ExactScans(scans, SplitAntimeridian(b)) ==>
              AmpleHalves(SplitAntimeridian(b), maxRanges)
  {
    var halves := SplitAntimeridian(b);
    var east := CoverRanges(halves.0, maxRanges);
    var west := [];
    if halves.1.Some? { west := CoverRanges(halves.1.value, maxRanges); }
    scans := Scanned(east) + Scanned(west);
    ScansFindBoth(east, west);
    forall lat, lon, row | GeoBBox(lat, lon, b) ensures Found(scans, Entry(lat, lon, row)) {
      BoxQuantized(lat, lon, b);
    }
    if !AmpleHalves(halves, maxRanges) {
      if halves.1.None? {
        OneHalf(scans, east, halves.0);
      } else if SetApart(halves) {
        CrossingGap(b, halves.0, halves.1.value);
        SpillsFound(scans, east, west, halves.0, halves.1.value);
      }
    }
  }
}
