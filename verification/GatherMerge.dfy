/** Rebuilding one document per (series, ts) from field streams, and what a column of it lists. */
module GatherMerge {
  import opened Aggregates
  import opened Buckets
  import opened Evaluator
  import opened Int64
  import opened Partials
  import opened Prelude
  import opened RowOrder
  import opened Samples
  import P = Pushdown

  type Merged = map<Key, Document>

  function Base(st: Stream, ts: I64): Document {
    st.labels["ts" := Timestamp(ts)]["__series__" := Str(st.tag)]
  }

  function MergeSample(m: Merged, st: Stream, x: Sample): Merged {
    var k := Key(st.series, x.ts);
    m[k := (if k in m then m[k] else Base(st, x.ts))[st.field := Float(x.value)]]
  }

  function MergeStream(m: Merged, st: Stream, s: seq<Sample>): Merged {
    if s == [] then m else MergeSample(MergeStream(m, st, Front(s)), st, LastOf(s))
  }

  function Merge(streams: seq<Stream>): Merged {
    if streams == [] then map[]
    else MergeStream(Merge(streams[..|streams| - 1]), streams[|streams| - 1], streams[|streams| - 1].samples)
  }

  /** The inner loop: insert one stream's samples. */
  method InsertStream(m: Merged, st: Stream) returns (merged: Merged)
    ensures merged == MergeStream(m, st, st.samples)
  {
    merged := m;
    var j := 0;
    while j < |st.samples|
      invariant 0 <= j <= |st.samples| && merged == MergeStream(m, st, st.samples[..j])
    {
      assert Front(st.samples[..j + 1]) == st.samples[..j];
      merged := MergeSample(merged, st, st.samples[j]);
      j := j + 1;
    }
    assert st.samples[..j] == st.samples;
  }

  /** The gather's loops: insert every sample of every stream, then list in key order. */
  method GatherDocs(streams: seq<Stream>) returns (docs: seq<Document>)
    ensures docs == RawDocs(streams)
  {
    var merged: Merged := map[];
    var i := 0;
    while i < |streams|
      invariant 0 <= i <= |streams| && merged == Merge(streams[..i])
    {
      merged := InsertStream(merged, streams[i]);
      assert streams[..i + 1][..i] == streams[..i];
      i := i + 1;
    }
    assert streams[..i] == streams;
    docs := ListDocs(merged, Sort(BySeries, merged.Keys));
  }

  function ListDocs(m: Merged, keys: seq<Key>): seq<Document>
    requires forall k :: k in keys ==> k in m
  {
    if keys == [] then [] else ListDocs(m, keys[..|keys| - 1]) + [m[keys[|keys| - 1]]]
  }

  function RawDocs(streams: seq<Stream>): seq<Document> {
    var m := Merge(streams);
    var keys := Sort(BySeries, m.Keys);
    assert forall k :: k in keys ==> k in Elems(keys);
    ListDocs(m, keys)
  }

  // What the merged documents hold.

  function ValueAt(s: seq<Sample>, ts: int): Option<real> {
    if s == [] then None else if LastOf(s).ts == ts then Some(LastOf(s).value) else ValueAt(Front(s), ts)
  }

  function FieldAt(streams: seq<Stream>, k: Key, f: string): Option<real> {
    if streams == [] then None
    else
      var st := streams[|streams| - 1];
      if st.field == f && st.series == k.series && ValueAt(st.samples, k.ts).Some? then ValueAt(st.samples, k.ts)
      else FieldAt(streams[..|streams| - 1], k, f)
  }

  /** Streams of one series share its labels, and no field is named like a label, `ts`, or a
      reserved column. */
  ghost predicate Consistent(streams: seq<Stream>) {
    && (forall i :: 0 <= i < |streams| ==> P.LabelColumn(streams[i].field) && streams[i].field != "ts" &&
                                           streams[i].field !in streams[i].labels)
    && (forall i, j :: 0 <= i < |streams| && 0 <= j < |streams| && streams[i].series == streams[j].series ==>
          streams[i].labels == streams[j].labels && streams[i].tag == streams[j].tag)
  }

  function Get(d: Document, c: string): Option<Value> { if c in d then Some(d[c]) else None }

  function At(m: Merged, k: Key, c: string): Option<Value> { if k in m then Get(m[k], c) else None }

  lemma {:induction false} MergeStreamAt(m: Merged, st: Stream, s: seq<Sample>, k: Key, c: string)
    ensures var n := MergeStream(m, st, s);
            var v := if st.series == k.series then ValueAt(s, k.ts) else None;
            && (k in n <==> k in m || v.Some?)
            && At(n, k, c) == if v.Some? && c == st.field then Some(Float(v.value))
                              else if k in m then At(m, k, c)
                              else if v.Some? then Get(Base(st, k.ts), c) else None
  {
    if s != [] { MergeStreamAt(m, st, Front(s), k, c); }
  }

  /** Some stream has a sample of this row. */
  predicate RowExists(streams: seq<Stream>, k: Key) {
    exists i :: 0 <= i < |streams| && streams[i].series == k.series && ValueAt(streams[i].samples, k.ts).Some?
  }

  lemma {:induction false} MergeRows(streams: seq<Stream>, k: Key)
    ensures k in Merge(streams) <==> RowExists(streams, k)
  {
    if streams != [] {
      var front, st := streams[..|streams| - 1], streams[|streams| - 1];
      MergeRows(front, k);
      MergeStreamAt(Merge(front), st, st.samples, k, "");
      if RowExists(front, k) {
        var i :| 0 <= i < |front| && front[i].series == k.series && ValueAt(front[i].samples, k.ts).Some?;
        assert streams[i] == front[i];
      }
      if RowExists(streams, k) && !RowExists(front, k) {
        var i :| 0 <= i < |streams| && streams[i].series == k.series && ValueAt(streams[i].samples, k.ts).Some?;
        assert i < |front| ==> front[i] == streams[i];
      }
    }
  }

  /** A field column of a row: the sample of that field's stream, if there is one. */
  lemma {:induction false} MergeField(streams: seq<Stream>, k: Key, f: string)
    requires Consistent(streams) && P.LabelColumn(f) && f != "ts"
    requires forall i :: 0 <= i < |streams| ==> f !in streams[i].labels
    ensures At(Merge(streams), k, f) ==
            if FieldAt(streams, k, f).Some? then Some(Float(FieldAt(streams, k, f).value)) else None
  {
    if streams != [] {
      var front, st := streams[..|streams| - 1], streams[|streams| - 1];
      assert Consistent(front);
      MergeField(front, k, f);
      MergeStreamAt(Merge(front), st, st.samples, k, f);
      assert f != "__series__";
    }
  }

  /** A label column, or `ts`, of a row is that of its series. */
  lemma {:induction false} MergeLabel(streams: seq<Stream>, k: Key, c: string, st: Stream)
    requires Consistent(streams) && (forall i :: 0 <= i < |streams| ==> streams[i].field != c)
    requires forall i :: 0 <= i < |streams| && streams[i].series == k.series ==>
               streams[i].labels == st.labels && streams[i].tag == st.tag
    ensures k in Merge(streams) ==> At(Merge(streams), k, c) == Get(Base(st, k.ts), c)
  {
    if streams != [] {
      var front, last := streams[..|streams| - 1], streams[|streams| - 1];
      assert Consistent(front);
      MergeLabel(front, k, c, st);
      MergeStreamAt(Merge(front), last, last.samples, k, c);
    }
  }
}
