/** The raw path's view of a group: its rows, and the samples a field column lists. */
module RawGroups {
  import opened Aggregates
  import opened Buckets
  import opened Evaluator
  import opened GatherMerge
  import opened Int64
  import opened Partials
  import opened Prelude
  import opened RowOrder
  import opened Samples
  import P = Pushdown

  function PickSamples(b: Bucketing, bucket: int, s: seq<Sample>): seq<Sample> {
    if s == [] then []
    else if b(LastOf(s).ts) == bucket then PickSamples(b, bucket, Front(s)) + [LastOf(s)]
    else PickSamples(b, bucket, Front(s))
  }

  lemma PickAdded(b: Bucketing, bucket: int, runs: seq<Run>, x: Sample)
    ensures Flatten(PickRuns(b, bucket, AddSample(b, runs, x))) ==
            if b(x.ts) == bucket then Flatten(PickRuns(b, bucket, runs)) + [x] else Flatten(PickRuns(b, bucket, runs))
  {
    var out := AddSample(b, runs, x);
    if Continues(b, runs, x) {
      var front, last := runs[..|runs| - 1], runs[|runs| - 1];
      assert out[..|out| - 1] == front;
      var picked := PickRuns(b, bucket, front);
      assert (picked + [last])[..|picked|] == picked;
      var longer: Run := last + [x];
      assert (picked + [longer])[..|picked|] == picked;
    } else {
      assert out[..|out| - 1] == runs;
      var picked := PickRuns(b, bucket, runs);
      var one: Run := [x];
      assert (picked + [one])[..|picked|] == picked;
    }
  }

  /** The runs of a bucket hold the samples of the bucket. */
  lemma {:induction false} PickedSamples(b: Bucketing, bucket: int, s: seq<Sample>)
    ensures Flatten(PickRuns(b, bucket, Runs(b, s))) == PickSamples(b, bucket, s)
  {
    if s != [] {
      PickedSamples(b, bucket, Front(s));
      PickAdded(b, bucket, Runs(b, Front(s)), LastOf(s));
    }
  }

  function KeysOf(series: int, s: seq<Sample>): (keys: seq<Key>)
    ensures |keys| == |s|
    ensures forall i :: 0 <= i < |s| ==> keys[i] == Key(series, s[i].ts)
  {
    seq(|s|, i requires 0 <= i < |s| => Key(series, s[i].ts))
  }

  predicate Contributes(g: Group, f: string, st: Stream)
    requires |g.vals| == |g.cols|
  {
    st.field == f && ColsMatch(g, st.labels)
  }

  /** The group's samples of field `f`, series by series, and the rows they belong to. */
  function GroupSamples(b: Bucketing, g: Group, f: string, streams: seq<Stream>): seq<Sample>
    requires |g.vals| == |g.cols|
  {
    if streams == [] then []
    else
      var front, st := streams[..|streams| - 1], streams[|streams| - 1];
      if Contributes(g, f, st) then GroupSamples(b, g, f, front) + PickSamples(b, g.bucket, st.samples)
      else GroupSamples(b, g, f, front)
  }

  function GroupKeys(b: Bucketing, g: Group, f: string, streams: seq<Stream>): seq<Key>
    requires |g.vals| == |g.cols|
  {
    if streams == [] then []
    else
      var front, st := streams[..|streams| - 1], streams[|streams| - 1];
      if Contributes(g, f, st) then
        GroupKeys(b, g, f, front) + KeysOf(st.series, PickSamples(b, g.bucket, st.samples))
      else GroupKeys(b, g, f, front)
  }

  lemma {:induction false} GroupSamplesAreRuns(b: Bucketing, g: Group, f: string, streams: seq<Stream>)
    requires |g.vals| == |g.cols|
    ensures GroupSamples(b, g, f, streams) == Flatten(GroupRuns(b, g, f, streams))
  {
    if streams != [] {
      var front, st := streams[..|streams| - 1], streams[|streams| - 1];
      GroupSamplesAreRuns(b, g, f, front);
      PickedSamples(b, g.bucket, st.samples);
      FlattenConcat(GroupRuns(b, g, f, front), StreamRuns(b, g, st));
    }
  }

  /** Streams in series order, one per series and field. */
  ghost predicate InSeriesOrder(streams: seq<Stream>) {
    forall i, j :: 0 <= i < j < |streams| ==>
      streams[i].series < streams[j].series ||
      (streams[i].series == streams[j].series && streams[i].field != streams[j].field)
  }

  lemma {:induction false} PickedOrdered(b: Bucketing, bucket: int, s: seq<Sample>)
    requires Ordered(s)
    ensures Ordered(PickSamples(b, bucket, s))
    ensures forall x :: x in PickSamples(b, bucket, s) <==> x in s && b(x.ts) == bucket
  {
    if s != [] {
      PickedOrdered(b, bucket, Front(s));
      assert s == Front(s) + [LastOf(s)];
      forall x | x in PickSamples(b, bucket, Front(s)) ensures x.ts < LastOf(s).ts {
        var i :| 0 <= i < |Front(s)| && Front(s)[i] == x;
        assert s[i] == x;
      }
    }
  }

  lemma {:induction false} GroupKeysSorted(b: Bucketing, g: Group, f: string, streams: seq<Stream>)
    requires |g.vals| == |g.cols| && InSeriesOrder(streams) && ValidStreams(streams)
    ensures Sorted(BySeries, GroupKeys(b, g, f, streams))
    ensures forall k :: k in GroupKeys(b, g, f, streams) ==>
              exists i :: 0 <= i < |streams| && streams[i].series == k.series && Contributes(g, f, streams[i])
  {
    if streams != [] {
      var front, st := streams[..|streams| - 1], streams[|streams| - 1];
      GroupKeysSorted(b, g, f, front);
      PickedOrdered(b, g.bucket, st.samples);
      forall k | k in GroupKeys(b, g, f, front)
        ensures exists i :: 0 <= i < |streams| && streams[i].series == k.series && Contributes(g, f, streams[i])
      {
        var i :| 0 <= i < |front| && front[i].series == k.series && Contributes(g, f, front[i]);
        assert streams[i] == front[i];
      }
      if Contributes(g, f, st) {
        var head, tail := GroupKeys(b, g, f, front), KeysOf(st.series, PickSamples(b, g.bucket, st.samples));
        forall i | 0 <= i < |head| ensures head[i].series < st.series {
          assert head[i] in head;
          var n :| 0 <= n < |front| && front[n].series == head[i].series && Contributes(g, f, front[n]);
          assert streams[n] == front[n];
        }
        assert streams[|streams| - 1] == st;
      }
    }
  }

  lemma {:induction false} ValueAtSample(s: seq<Sample>, x: Sample)
    requires Ordered(s) && x in s
    ensures ValueAt(s, x.ts) == Some(x.value)
  {
    var i :| 0 <= i < |s| && s[i] == x;
    if i < |s| - 1 {
      assert s[i].ts < s[|s| - 1].ts && Front(s)[i] == x;
      ValueAtSample(Front(s), x);
    }
  }

  lemma {:induction false} SampleOfValue(s: seq<Sample>, ts: I64) returns (x: Sample)
    requires ValueAt(s, ts).Some?
    ensures x in s && x.ts == ts
  {
    if LastOf(s).ts == ts { x := LastOf(s); } else { x := SampleOfValue(Front(s), ts); }
  }

  /** Key by key, the listed sample is the row's value of the field. */
  lemma {:induction false} GroupKeyed(b: Bucketing, g: Group, f: string, streams: seq<Stream>)
    requires |g.vals| == |g.cols| && InSeriesOrder(streams) && ValidStreams(streams)
    ensures var keys, s := GroupKeys(b, g, f, streams), GroupSamples(b, g, f, streams);
            && |keys| == |s|
            && forall i :: 0 <= i < |keys| ==>
                 keys[i].ts == s[i].ts && b(keys[i].ts) == g.bucket && FieldAt(streams, keys[i], f) == Some(s[i].value)
  {
    if streams != [] {
      var front, st := streams[..|streams| - 1], streams[|streams| - 1];
      GroupKeyed(b, g, f, front);
      GroupKeysSorted(b, g, f, front);
      var head := GroupKeys(b, g, f, front);
      forall i | 0 <= i < |head| ensures FieldAt(streams, head[i], f) == FieldAt(front, head[i], f) {
        assert head[i] in head;
        var n :| 0 <= n < |front| && front[n].series == head[i].series && Contributes(g, f, front[n]);
        assert streams[n] == front[n] && streams[|streams| - 1] == st;
      }
      PickedOrdered(b, g.bucket, st.samples);
      forall x | x in PickSamples(b, g.bucket, st.samples) ensures ValueAt(st.samples, x.ts) == Some(x.value) {
        ValueAtSample(st.samples, x);
      }
    }
  }

  /** Every row of the group that carries the field is listed. */
  lemma {:induction false} GroupKeysComplete(b: Bucketing, g: Group, f: string, streams: seq<Stream>, k: Key)
    requires |g.vals| == |g.cols| && ValidStreams(streams) && b(k.ts) == g.bucket
    requires FieldAt(streams, k, f).Some?
    requires forall i :: 0 <= i < |streams| && streams[i].series == k.series ==> ColsMatch(g, streams[i].labels)
    ensures k in GroupKeys(b, g, f, streams)
  {
    var front, st := streams[..|streams| - 1], streams[|streams| - 1];
    if st.field == f && st.series == k.series && ValueAt(st.samples, k.ts).Some? {
      var x := SampleOfValue(st.samples, k.ts);
      PickedOrdered(b, g.bucket, st.samples);
      var s := PickSamples(b, g.bucket, st.samples);
      var i :| 0 <= i < |s| && s[i] == x;
      assert KeysOf(st.series, s)[i] == k;
    } else {
      GroupKeysComplete(b, g, f, front, k);
    }
  }

  // The raw documents, key by key.

  /** The listed keys whose row is in the group and carries field `f`. */
  function FilterKeys(b: Bucketing, g: Group, f: string, m: Merged, keys: seq<Key>): seq<Key>
    requires |g.vals| == |g.cols| && forall k :: k in keys ==> k in m
  {
    if keys == [] then []
    else
      var k := keys[|keys| - 1];
      if InGroup(b, g, m[k]) && f in m[k] then FilterKeys(b, g, f, m, keys[..|keys| - 1]) + [k]
      else FilterKeys(b, g, f, m, keys[..|keys| - 1])
  }

  lemma {:induction false} FilterKeysSorted(b: Bucketing, g: Group, f: string, m: Merged, keys: seq<Key>)
    requires |g.vals| == |g.cols| && (forall k :: k in keys ==> k in m) && Sorted(BySeries, keys)
    ensures Sorted(BySeries, FilterKeys(b, g, f, m, keys))
    ensures forall k :: k in FilterKeys(b, g, f, m, keys) <==> k in keys && InGroup(b, g, m[k]) && f in m[k]
  {
    if keys != [] {
      var front, last := keys[..|keys| - 1], keys[|keys| - 1];
      FilterKeysSorted(b, g, f, m, front);
      assert keys == front + [last];
      var picked := FilterKeys(b, g, f, m, front);
      forall i | 0 <= i < |picked| ensures Before(BySeries, picked[i], last) {
        assert picked[i] in picked;
        var n :| 0 <= n < |front| && front[n] == picked[i];
        assert keys[n] == picked[i];
      }
    }
  }

  function KeyCells(m: Merged, f: string, keys: seq<Key>): Cells
    requires forall k :: k in keys ==> k in m && f in m[k]
  {
    seq(|keys|, i requires 0 <= i < |keys| => (TsOf(m[keys[i]]), m[keys[i]][f]))
  }

  /** A field column over the group's raw documents lists the filtered keys. */
  lemma {:induction false} RawColumn(b: Bucketing, g: Group, f: string, m: Merged, keys: seq<Key>)
    requires |g.vals| == |g.cols| && (forall k :: k in keys ==> k in m) && '.' !in f
    requires forall k :: k in keys && f in m[k] ==> !m[k][f].Null?
    ensures var picked := FilterKeys(b, g, f, m, keys);
            && (forall k :: k in picked ==> k in m && f in m[k])
            && ColumnOf(f, GroupDocs(b, g, ListDocs(m, keys))) == KeyCells(m, f, picked)
  {
    if keys != [] {
      var front, k := keys[..|keys| - 1], keys[|keys| - 1];
      RawColumn(b, g, f, m, front);
      var docs := ListDocs(m, front);
      assert ListDocs(m, keys)[..|docs|] == docs;
      var grouped := GroupDocs(b, g, docs);
      if InGroup(b, g, m[k]) { assert (grouped + [m[k]])[..|grouped|] == grouped; }
    }
  }

  /** What a plan's dynamic checks and the store guarantee of the gathered streams. */
  ghost predicate Gathered(g: Group, streams: seq<Stream>) {
    && ValidGroup(g) && ValidStreams(streams) && Consistent(streams) && InSeriesOrder(streams)
    && forall i, j :: 0 <= i < |streams| && 0 <= j < |g.cols| ==> streams[i].field != g.cols[j]
  }

  /** A merged row is in the group exactly when its series' labels and its bucket are. */
  lemma RowInGroup(b: Bucketing, g: Group, streams: seq<Stream>, k: Key, st: Stream)
    requires Gathered(g, streams) && k in Merge(streams) && st in streams && st.series == k.series
    ensures InGroup(b, g, Merge(streams)[k]) <==> ColsMatch(g, st.labels) && b(k.ts) == g.bucket
    ensures TsOf(Merge(streams)[k]) == k.ts
  {
    var d := Merge(streams)[k];
    MergeLabel(streams, k, "ts", st);
    forall j | 0 <= j < |g.cols| ensures Lookup(d, g.cols[j]) == Lookup(st.labels, g.cols[j]) {
      MergeLabel(streams, k, g.cols[j], st);
      assert g.cols[j] != "__series__";
    }
  }

  /** A field no stream's labels shadow. */
  ghost predicate FieldName(f: string, streams: seq<Stream>) {
    P.LabelColumn(f) && f != "ts" && forall i :: 0 <= i < |streams| ==> f !in streams[i].labels
  }

  lemma FilterIsGroupKeys(b: Bucketing, g: Group, f: string, streams: seq<Stream>, keys: seq<Key>)
    requires Gathered(g, streams) && FieldName(f, streams)
    requires keys == Sort(BySeries, Merge(streams).Keys) && forall k :: k in keys ==> k in Merge(streams)
    ensures FilterKeys(b, g, f, Merge(streams), keys) == GroupKeys(b, g, f, streams)
  {
    var m := Merge(streams);
    var picked, listed := FilterKeys(b, g, f, m, keys), GroupKeys(b, g, f, streams);
    FilterKeysSorted(b, g, f, m, keys);
    GroupKeysSorted(b, g, f, streams);
    GroupKeyed(b, g, f, streams);
    forall k ensures k in picked <==> k in listed {
      if k in picked { PickedIsListed(b, g, f, streams, k); }
      if k in listed {
        ListedIsPicked(b, g, f, streams, k);
        assert k in Elems(keys);
      }
    }
    assert Elems(picked) == Elems(listed);
    SortedUnique(BySeries, picked, listed);
  }

  lemma PickedIsListed(b: Bucketing, g: Group, f: string, streams: seq<Stream>, k: Key)
    requires Gathered(g, streams) && FieldName(f, streams)
    requires k in Merge(streams) && InGroup(b, g, Merge(streams)[k]) && f in Merge(streams)[k]
    ensures k in GroupKeys(b, g, f, streams)
  {
    MergeRows(streams, k);
    MergeField(streams, k, f);
    var i :| 0 <= i < |streams| && streams[i].series == k.series && ValueAt(streams[i].samples, k.ts).Some?;
    RowInGroup(b, g, streams, k, streams[i]);
    GroupKeysComplete(b, g, f, streams, k);
  }

  lemma ListedIsPicked(b: Bucketing, g: Group, f: string, streams: seq<Stream>, k: Key)
    requires Gathered(g, streams) && FieldName(f, streams) && k in GroupKeys(b, g, f, streams)
    ensures k in Merge(streams) && InGroup(b, g, Merge(streams)[k]) && f in Merge(streams)[k]
  {
    GroupKeysSorted(b, g, f, streams);
    GroupKeyed(b, g, f, streams);
    var i :| 0 <= i < |streams| && streams[i].series == k.series && Contributes(g, f, streams[i]);
    MergeField(streams, k, f);
    RowInGroup(b, g, streams, k, streams[i]);
  }

  /** A field column over the group's raw rows lists exactly the group's samples of the field. */
  lemma RawGroupColumn(b: Bucketing, g: Group, f: string, streams: seq<Stream>)
    requires Gathered(g, streams) && FieldName(f, streams)
    ensures ColumnOf(f, GroupDocs(b, g, RawDocs(streams))) == FloatCells(Flatten(GroupRuns(b, g, f, streams)))
  {
    var m := Merge(streams);
    var keys := Sort(BySeries, m.Keys);
    assert forall k :: k in keys ==> k in Elems(keys);
    forall k | k in keys && f in m[k] ensures m[k][f].Float? { MergeField(streams, k, f); }
    RawColumn(b, g, f, m, keys);
    FilterIsGroupKeys(b, g, f, streams, keys);
    GroupSamplesAreRuns(b, g, f, streams);
    GroupKeyed(b, g, f, streams);
    var listed, s := GroupKeys(b, g, f, streams), GroupSamples(b, g, f, streams);
    forall i | 0 <= i < |listed| ensures KeyCells(m, f, listed)[i] == FloatCells(s)[i] {
      assert listed[i] in listed;
      CellOfKey(b, g, f, streams, listed[i]);
    }
  }

  lemma CellOfKey(b: Bucketing, g: Group, f: string, streams: seq<Stream>, k: Key)
    requires Gathered(g, streams) && FieldName(f, streams) && k in GroupKeys(b, g, f, streams)
    ensures k in Merge(streams) && f in Merge(streams)[k] && TsOf(Merge(streams)[k]) == k.ts
    ensures FieldAt(streams, k, f).Some? && Merge(streams)[k][f] == Float(FieldAt(streams, k, f).value)
  {
    ListedIsPicked(b, g, f, streams, k);
    MergeField(streams, k, f);
    GroupKeysSorted(b, g, f, streams);
    var i :| 0 <= i < |streams| && streams[i].series == k.series && Contributes(g, f, streams[i]);
    RowInGroup(b, g, streams, k, streams[i]);
  }
}
