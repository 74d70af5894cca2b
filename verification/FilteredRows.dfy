/** A WHERE consumed by the pushdown: filtering the gathered rows is narrowing the gathered streams. */
module FilteredRows {
  import opened Ast
  import opened Evaluator
  import opened GatherMerge
  import opened Int64
  import opened Partials
  import opened Prelude
  import opened RawGroups
  import opened RollupSplice
  import opened RowOrder
  import opened Samples
  import P = Pushdown

  /** A series the pushed matchers accept and that has every label they compare. */
  ghost predicate Chosen(p: P.Range, labels: P.Labels) {
    forall i :: 0 <= i < |p.matchers| ==> P.Accepts(p.matchers[i], labels) && p.matchers[i].key in labels
  }

  predicate InRange(p: P.Range, ts: int) { p.t0 <= ts <= p.t1 }

  function Narrow(p: P.Range, st: Stream): Stream { st.(samples := Clip(st.samples, p.t0, p.t1)) }

  /** What the store returns for a pushed range and matchers. */
  ghost function Selected(p: P.Range, streams: seq<Stream>): seq<Stream> {
    if streams == [] then []
    else
      var front, st := Selected(p, streams[..|streams| - 1]), streams[|streams| - 1];
      if Chosen(p, st.labels) then front + [Narrow(p, st)] else front
  }

  /** The rows the WHERE keeps. */
  function KeepDocs(env: Env, e: SqlExpr, docs: seq<Document>): seq<Document> {
    if docs == [] then []
    else
      var front, d := KeepDocs(env, e, docs[..|docs| - 1]), docs[|docs| - 1];
      if Keeps(env, e, d) then front + [d] else front
  }

  lemma KeepNext(env: Env, e: SqlExpr, docs: seq<Document>, i: nat)
    requires i < |docs|
    ensures KeepDocs(env, e, docs[..i + 1]) ==
            KeepDocs(env, e, docs[..i]) + if Keeps(env, e, docs[i]) then [docs[i]] else []
  {
    assert docs[..i + 1][..i] == docs[..i];
  }

  ghost predicate FailsOn(env: Env, e: SqlExpr, docs: seq<Document>) {
    exists i :: 0 <= i < |docs| && Fails(env, e, docs[i])
  }

  /** The residual filter over gathered rows: it fails exactly when it fails on some row. */
  method FilterRows(env: Env, e: SqlExpr, docs: seq<Document>) returns (r: Result<seq<Document>>)
    ensures r == if FailsOn(env, e, docs) then Err else Ok(KeepDocs(env, e, docs))
  {
    var kept := [];
    var i := 0;
    while i < |docs|
      invariant 0 <= i <= |docs| && kept == KeepDocs(env, e, docs[..i])
      invariant forall j :: 0 <= j < i ==> !Fails(env, e, docs[j])
    {
      var v := Eval(env, e, docs[i]);
      if v.Err? || ToTernary(v.value).Err? {
        assert Fails(env, e, docs[i]);
        return Err;
      }
      KeepNext(env, e, docs, i);
      if ToTernary(v.value).value.True? { kept := kept + [docs[i]]; }
      i := i + 1;
    }
    assert docs[..i] == docs;
    r := Ok(kept);
  }

  /** `gather_docs`: merge the streams into rows, then re-apply the whole WHERE. */
  method GatherRows(env: Env, filter: Option<SqlExpr>, streams: seq<Stream>) returns (r: Result<seq<Document>>)
    ensures filter.None? ==> r == Ok(RawDocs(streams))
    ensures filter.Some? ==> r == if FailsOn(env, filter.value, RawDocs(streams)) then Err
                                  else Ok(KeepDocs(env, filter.value, RawDocs(streams)))
  {
    var docs := GatherDocs(streams);
    if filter.None? { return Ok(docs); }
    r := FilterRows(env, filter.value, docs);
  }

  // A merged row is a row of the pushdown.

  function FieldsAt(streams: seq<Stream>, k: Key): P.Fields {
    if streams == [] then map[]
    else
      var front, st := FieldsAt(streams[..|streams| - 1], k), streams[|streams| - 1];
      if st.series == k.series && ValueAt(st.samples, k.ts).Some? then
        front[st.field := Float(ValueAt(st.samples, k.ts).value)]
      else front
  }

  lemma {:induction false} FieldsAre(streams: seq<Stream>, k: Key, f: string)
    ensures Get(FieldsAt(streams, k), f) ==
            if FieldAt(streams, k, f).Some? then Some(Float(FieldAt(streams, k, f).value)) else None
  {
    if streams != [] { FieldsAre(streams[..|streams| - 1], k, f); }
  }

  /** Streams of the series of `k` have the labels and tag of `st`. */
  ghost predicate OfSeries(streams: seq<Stream>, k: Key, st: Stream) {
    forall i :: 0 <= i < |streams| && streams[i].series == k.series ==>
      streams[i].labels == st.labels && streams[i].tag == st.tag
  }

  /** Every column of a merged row: its field's sample, or what its series gives. */
  lemma {:induction false} MergeColumn(streams: seq<Stream>, k: Key, c: string, st: Stream)
    requires OfSeries(streams, k, st)
    ensures k in Merge(streams) ==>
              At(Merge(streams), k, c) ==
              if FieldAt(streams, k, c).Some? then Some(Float(FieldAt(streams, k, c).value))
              else Get(Base(st, k.ts), c)
    ensures k !in Merge(streams) ==> FieldAt(streams, k, c).None?
  {
    if streams != [] {
      var front, last := streams[..|streams| - 1], streams[|streams| - 1];
      assert OfSeries(front, k, st) by {
        forall i | 0 <= i < |front| && front[i].series == k.series
          ensures front[i].labels == st.labels && front[i].tag == st.tag
        {
          assert streams[i] == front[i];
        }
      }
      MergeColumn(front, k, c, st);
      MergeStreamAt(Merge(front), last, last.samples, k, c);
    }
  }

  lemma SameDocument(a: Document, b: Document)
    requires forall c :: Get(a, c) == Get(b, c)
    ensures a == b
  {
    forall c ensures c in a <==> c in b { assert Get(a, c) == Get(b, c); }
    forall c | c in a && c in b ensures a[c] == b[c] { assert Get(a, c) == Get(b, c); }
  }

  lemma MergedRow(streams: seq<Stream>, k: Key, st: Stream)
    requires OfSeries(streams, k, st) && k in Merge(streams)
    ensures Merge(streams)[k] == P.Doc(P.Row(st.labels, k.ts, FieldsAt(streams, k), st.tag))
  {
    var row := P.Row(st.labels, k.ts, FieldsAt(streams, k), st.tag);
    forall c ensures Get(Merge(streams)[k], c) == Get(P.Doc(row), c) {
      MergeColumn(streams, k, c, st);
      FieldsAre(streams, k, c);
    }
    SameDocument(Merge(streams)[k], P.Doc(row));
  }

  /** No stream's field has the name of a compared label. */
  ghost predicate Unshadowing(p: P.Range, streams: seq<Stream>) {
    forall i, j :: 0 <= i < |streams| && 0 <= j < |p.matchers| ==> streams[i].field != p.matchers[j].key
  }

  /** A filter the pushdown consumes. */
  ghost predicate Consumed(env: Env, e: SqlExpr) { P.FullyPushable(env, e) && P.ExactFilter(env, e) }

  lemma {:induction false} FieldNames(streams: seq<Stream>, k: Key, f: string)
    requires f in FieldsAt(streams, k)
    ensures exists i :: 0 <= i < |streams| && streams[i].field == f
  {
    var front, st := streams[..|streams| - 1], streams[|streams| - 1];
    if st.field != f {
      FieldNames(front, k, f);
      var i :| 0 <= i < |front| && front[i].field == f;
      assert streams[i] == front[i];
    }
  }

  lemma NotCompared(p: P.Range, streams: seq<Stream>, i: nat)
    requires Unshadowing(p, streams) && i < |streams|
    ensures streams[i].field !in P.MatcherKeys(p)
  {
    forall m | m in p.matchers ensures m.key != streams[i].field {
      var j :| 0 <= j < |p.matchers| && p.matchers[j] == m;
    }
  }

  /** A gathered row passes the WHERE exactly when its series is chosen and its time is in range. */
  lemma RowKept(env: Env, e: SqlExpr, streams: seq<Stream>, k: Key, st: Stream)
    requires Consumed(env, e) && Consistent(streams) && Unshadowing(P.Extract(env, e, P.UNBOUNDED), streams)
    requires OfSeries(streams, k, st) && k in Merge(streams)
    ensures var p := P.Extract(env, e, P.UNBOUNDED);
            Keeps(env, e, Merge(streams)[k]) <==> Chosen(p, st.labels) && InRange(p, k.ts)
  {
    var p := P.Extract(env, e, P.UNBOUNDED);
    var row := P.Row(st.labels, k.ts, FieldsAt(streams, k), st.tag);
    MergedRow(streams, k, st);
    forall f | f in row.fields ensures f != "ts" && f !in P.MatcherKeys(p) {
      FieldNames(streams, k, f);
      var i :| 0 <= i < |streams| && streams[i].field == f;
      NotCompared(p, streams, i);
    }
    P.ExtractExact(env, e, P.UNBOUNDED, row);
    LabelsChosen(p, row);
  }

  lemma LabelsChosen(p: P.Range, row: P.Row)
    ensures P.Admits(p, row) && P.HasLabels(p, row) <==> Chosen(p, row.labels) && InRange(p, row.ts)
  {
    if P.HasLabels(p, row) {
      forall i | 0 <= i < |p.matchers| ensures p.matchers[i].key in row.labels {
        assert p.matchers[i] in p.matchers && p.matchers[i].key in P.MatcherKeys(p);
      }
    }
    if Chosen(p, row.labels) {
      forall key | key in P.MatcherKeys(p) ensures key in row.labels {
        var m :| m in p.matchers && m.key == key;
        var i :| 0 <= i < |p.matchers| && p.matchers[i] == m;
      }
    }
  }

  /** A filter the pushdown consumes never fails on a row, so the raw path does not fail either. */
  lemma {:induction false} ConsumedNeverFails(env: Env, e: SqlExpr, d: Document)
    requires P.FullyPushable(env, e)
    ensures !Fails(env, e, d)
  {
    if e.op == And {
      ConsumedNeverFails(env, e.left, d);
      ConsumedNeverFails(env, e.right, d);
    } else {
      var leaf := P.LeafOf(e.op, e.left, e.right).value;
      ConstantOnAllRows(env, leaf.rhs, d);
      ComparisonNeverFails(env, e.op, e.left, e.right, d);
    }
  }

  lemma ComparisonNeverFails(env: Env, op: BinaryOp, l: SqlExpr, r: SqlExpr, d: Document)
    requires P.RangeOp(op) || op.NotEq?
    requires Eval(env, l, d).Ok? && Eval(env, r, d).Ok?
    ensures !Fails(env, Binary(op, l, r), d)
  {
    P.EvalComparison(env, op, l, r, d, Eval(env, l, d).value, Eval(env, r, d).value);
  }

  // The narrowed streams give the kept rows.

  lemma {:induction false} ClipValue(s: seq<Sample>, lo: int, hi: int, ts: int)
    requires Ordered(s)
    ensures ValueAt(Clip(s, lo, hi), ts) == if lo <= ts <= hi then ValueAt(s, ts) else None
  {
    if s != [] {
      var front, x := Front(s), LastOf(s);
      ClipValue(front, lo, hi, ts);
      if lo <= x.ts <= hi { assert Front(Clip(front, lo, hi) + [x]) == Clip(front, lo, hi); }
    }
  }

  lemma {:induction false} SelectedField(p: P.Range, streams: seq<Stream>, k: Key, f: string, st: Stream)
    requires ValidStreams(streams) && OfSeries(streams, k, st)
    ensures FieldAt(Selected(p, streams), k, f) ==
            if Chosen(p, st.labels) && InRange(p, k.ts) then FieldAt(streams, k, f) else None
  {
    if streams != [] {
      var front, last := streams[..|streams| - 1], streams[|streams| - 1];
      assert ValidStream(last);
      assert OfSeries(front, k, st) by {
        forall i | 0 <= i < |front| && front[i].series == k.series
          ensures front[i].labels == st.labels && front[i].tag == st.tag
        {
          assert streams[i] == front[i];
        }
      }
      SelectedField(p, front, k, f, st);
      ClipValue(last.samples, p.t0, p.t1, k.ts);
      var chosen := Selected(p, front);
      if Chosen(p, last.labels) { assert (chosen + [Narrow(p, last)])[..|chosen|] == chosen; }
    }
  }

  lemma {:induction false} RowHasField(streams: seq<Stream>, k: Key)
    requires RowExists(streams, k)
    ensures exists f :: FieldAt(streams, k, f).Some?
  {
    var front, st := streams[..|streams| - 1], streams[|streams| - 1];
    if st.series == k.series && ValueAt(st.samples, k.ts).Some? {
      assert FieldAt(streams, k, st.field).Some?;
    } else {
      var i :| 0 <= i < |streams| && streams[i].series == k.series && ValueAt(streams[i].samples, k.ts).Some?;
      assert front[i] == streams[i];
      RowHasField(front, k);
      var f :| FieldAt(front, k, f).Some?;
      assert FieldAt(streams, k, f).Some?;
    }
  }

  lemma {:induction false} FieldHasRow(streams: seq<Stream>, k: Key, f: string)
    requires FieldAt(streams, k, f).Some?
    ensures RowExists(streams, k)
  {
    var front, st := streams[..|streams| - 1], streams[|streams| - 1];
    if st.field == f && st.series == k.series && ValueAt(st.samples, k.ts).Some? {
      assert streams[|streams| - 1] == st;
    } else {
      FieldHasRow(front, k, f);
      var i :| 0 <= i < |front| && front[i].series == k.series && ValueAt(front[i].samples, k.ts).Some?;
      assert streams[i] == front[i];
    }
  }

  lemma SelectedRow(p: P.Range, streams: seq<Stream>, k: Key, st: Stream)
    requires ValidStreams(streams) && OfSeries(streams, k, st)
    ensures k in Merge(Selected(p, streams)) <==> k in Merge(streams) && Chosen(p, st.labels) && InRange(p, k.ts)
  {
    MergeRows(streams, k);
    MergeRows(Selected(p, streams), k);
    if RowExists(streams, k) && Chosen(p, st.labels) && InRange(p, k.ts) {
      RowHasField(streams, k);
      var f :| FieldAt(streams, k, f).Some?;
      SelectedField(p, streams, k, f, st);
      FieldHasRow(Selected(p, streams), k, f);
    }
    if RowExists(Selected(p, streams), k) {
      RowHasField(Selected(p, streams), k);
      var f :| FieldAt(Selected(p, streams), k, f).Some?;
      SelectedField(p, streams, k, f, st);
      FieldHasRow(streams, k, f);
    }
  }

  /** Every selected stream is a narrowed one. */
  lemma {:induction false} SelectedFrom(p: P.Range, streams: seq<Stream>, i: nat)
    requires i < |Selected(p, streams)|
    ensures exists j :: 0 <= j < |streams| && Chosen(p, streams[j].labels) &&
                        Selected(p, streams)[i] == Narrow(p, streams[j])
  {
    var front, st := streams[..|streams| - 1], streams[|streams| - 1];
    if i < |Selected(p, front)| {
      SelectedFrom(p, front, i);
      var j :| 0 <= j < |front| && Chosen(p, front[j].labels) && Selected(p, front)[i] == Narrow(p, front[j]);
      assert streams[j] == front[j];
    }
  }

  lemma SelectedOfSeries(p: P.Range, streams: seq<Stream>, k: Key, st: Stream)
    requires OfSeries(streams, k, st)
    ensures OfSeries(Selected(p, streams), k, st)
  {
    var chosen := Selected(p, streams);
    forall i | 0 <= i < |chosen| && chosen[i].series == k.series
      ensures chosen[i].labels == st.labels && chosen[i].tag == st.tag
    {
      SelectedFrom(p, streams, i);
      var j :| 0 <= j < |streams| && Chosen(p, streams[j].labels) && chosen[i] == Narrow(p, streams[j]);
    }
  }

  lemma SelectedDoc(p: P.Range, streams: seq<Stream>, k: Key, st: Stream)
    requires ValidStreams(streams) && OfSeries(streams, k, st) && k in Merge(Selected(p, streams))
    ensures k in Merge(streams) && Merge(Selected(p, streams))[k] == Merge(streams)[k]
  {
    SelectedRow(p, streams, k, st);
    SelectedOfSeries(p, streams, k, st);
    forall c ensures Get(Merge(Selected(p, streams))[k], c) == Get(Merge(streams)[k], c) {
      MergeColumn(streams, k, c, st);
      MergeColumn(Selected(p, streams), k, c, st);
      SelectedField(p, streams, k, c, st);
    }
    SameDocument(Merge(Selected(p, streams))[k], Merge(streams)[k]);
  }

  /** The keys whose document passes the WHERE. */
  function KeptKeys(env: Env, e: SqlExpr, m: Merged, keys: seq<Key>): seq<Key>
    requires forall k :: k in keys ==> k in m
  {
    if keys == [] then []
    else
      var front, k := KeptKeys(env, e, m, keys[..|keys| - 1]), keys[|keys| - 1];
      if Keeps(env, e, m[k]) then front + [k] else front
  }

  lemma {:induction false} KeptKeysAre(env: Env, e: SqlExpr, m: Merged, keys: seq<Key>)
    requires (forall k :: k in keys ==> k in m) && Sorted(BySeries, keys)
    ensures Sorted(BySeries, KeptKeys(env, e, m, keys))
    ensures forall k :: k in KeptKeys(env, e, m, keys) <==> k in keys && Keeps(env, e, m[k])
  {
    if keys != [] {
      var front, last := keys[..|keys| - 1], keys[|keys| - 1];
      KeptKeysAre(env, e, m, front);
      assert keys == front + [last];
      var kept := KeptKeys(env, e, m, front);
      assert forall i :: 0 <= i < |kept| ==> kept[i] in front by {
        forall i | 0 <= i < |kept| ensures kept[i] in front { assert kept[i] in kept; }
      }
      SortedSnoc(front, last, kept);
    }
  }

  /** A sorted selection of the front stays sorted with the last key behind it. */
  lemma SortedSnoc(front: seq<Key>, last: Key, kept: seq<Key>)
    requires Sorted(BySeries, front + [last]) && Sorted(BySeries, kept)
    requires forall i :: 0 <= i < |kept| ==> kept[i] in front
    ensures Sorted(BySeries, kept + [last])
  {
    var keys := front + [last];
    forall i | 0 <= i < |kept| ensures Before(BySeries, kept[i], last) {
      var n :| 0 <= n < |front| && front[n] == kept[i];
      assert Before(BySeries, keys[n], keys[|front|]);
    }
  }

  lemma {:induction false} KeptDocs(env: Env, e: SqlExpr, m: Merged, keys: seq<Key>)
    requires forall k :: k in keys ==> k in m
    ensures (forall k :: k in KeptKeys(env, e, m, keys) ==> k in m)
    ensures KeepDocs(env, e, ListDocs(m, keys)) == ListDocs(m, KeptKeys(env, e, m, keys))
  {
    if keys != [] {
      var front, k := keys[..|keys| - 1], keys[|keys| - 1];
      KeptDocs(env, e, m, front);
      var docs, kept := ListDocs(m, front), KeptKeys(env, e, m, front);
      assert ListDocs(m, keys)[..|docs|] == docs;
      assert (kept + [k])[..|kept|] == kept;
    }
  }

  lemma {:induction false} SameList(m: Merged, n: Merged, keys: seq<Key>)
    requires forall k :: k in keys ==> k in m && k in n && m[k] == n[k]
    ensures ListDocs(m, keys) == ListDocs(n, keys)
  {
    if keys != [] { SameList(m, n, keys[..|keys| - 1]); }
  }

  /** A row's series is that of some gathered stream. */
  lemma SeriesOf(streams: seq<Stream>, k: Key) returns (st: Stream)
    requires Consistent(streams) && k in Merge(streams)
    ensures OfSeries(streams, k, st)
  {
    MergeRows(streams, k);
    var i :| 0 <= i < |streams| && streams[i].series == k.series && ValueAt(streams[i].samples, k.ts).Some?;
    st := streams[i];
  }

  lemma SelectedKeys(env: Env, e: SqlExpr, streams: seq<Stream>, k: Key)
    requires Consumed(env, e) && Consistent(streams) && ValidStreams(streams)
    requires Unshadowing(P.Extract(env, e, P.UNBOUNDED), streams)
    ensures var n := Merge(Selected(P.Extract(env, e, P.UNBOUNDED), streams));
            && (k in n <==> k in Merge(streams) && Keeps(env, e, Merge(streams)[k]))
            && (k in n ==> n[k] == Merge(streams)[k])
  {
    var p := P.Extract(env, e, P.UNBOUNDED);
    if k in Merge(streams) {
      var st := SeriesOf(streams, k);
      SelectedRow(p, streams, k, st);
      RowKept(env, e, streams, k, st);
      if k in Merge(Selected(p, streams)) { SelectedDoc(p, streams, k, st); }
    } else if k in Merge(Selected(p, streams)) {
      MergeRows(Selected(p, streams), k);
      var i :| 0 <= i < |Selected(p, streams)| && Selected(p, streams)[i].series == k.series &&
               ValueAt(Selected(p, streams)[i].samples, k.ts).Some?;
      SelectedFrom(p, streams, i);
      var j :| 0 <= j < |streams| && Chosen(p, streams[j].labels) && Selected(p, streams)[i] == Narrow(p, streams[j]);
      SelectedRow(p, streams, k, streams[j]);
    }
  }

  /** The kept part of a merged map lists the kept documents. */
  lemma KeptList(env: Env, e: SqlExpr, m: Merged, n: Merged, keys: seq<Key>, left: seq<Key>)
    requires Sorted(BySeries, keys) && (forall k :: k in keys <==> k in m)
    requires Sorted(BySeries, left) && (forall k :: k in left <==> k in n)
    requires forall k :: k in n <==> k in m && Keeps(env, e, m[k])
    requires forall k :: k in n ==> n[k] == m[k]
    ensures ListDocs(n, left) == KeepDocs(env, e, ListDocs(m, keys))
  {
    KeptDocs(env, e, m, keys);
    KeptKeysAre(env, e, m, keys);
    var kept := KeptKeys(env, e, m, keys);
    assert forall k :: k in left <==> k in kept;
    assert Elems(left) == Elems(kept);
    SortedUnique(BySeries, left, kept);
    SameList(m, n, left);
  }

  /** The rows of the narrowed streams are the rows the WHERE keeps, in the same order. */
  lemma WhereIsNarrowing(env: Env, e: SqlExpr, streams: seq<Stream>)
    requires Consumed(env, e) && Consistent(streams) && ValidStreams(streams)
    requires Unshadowing(P.Extract(env, e, P.UNBOUNDED), streams)
    ensures RawDocs(Selected(P.Extract(env, e, P.UNBOUNDED), streams)) == KeepDocs(env, e, RawDocs(streams))
  {
    var m, n := Merge(streams), Merge(Selected(P.Extract(env, e, P.UNBOUNDED), streams));
    var keys, left := Sort(BySeries, m.Keys), Sort(BySeries, n.Keys);
    assert forall k :: k in keys <==> k in Elems(keys);
    assert forall k :: k in left <==> k in Elems(left);
    forall k ensures (k in n <==> k in m && Keeps(env, e, m[k])) && (k in n ==> n[k] == m[k]) {
      SelectedKeys(env, e, streams, k);
    }
    KeptList(env, e, m, n, keys, left);
  }
}
