/** RATE, INCREASE and DELTA from partials: the sum of one hidden column is the sum over series of their changes. */
module CounterChange {
  import opened Aggregates
  import opened Ast
  import opened Buckets
  import opened Evaluator
  import opened GatherMerge
  import opened Int64
  import opened Partials
  import opened Prelude
  import opened RawGroups
  import opened Rewrite
  import opened RowOrder
  import opened Samples
  import P = Pushdown

  // The partial side: one cell per run that has a change.

  function ChangeKind(func: AggFunc): Kind {
    match func case Rate => PRate case Delta => PDel case _ => PInc
  }

  function ChangeCell(func: AggFunc): Run -> Cells {
    (r: Run) => if ChangeOf(func, r).None? then [] else [(r[0].ts, Float(ChangeOf(func, r).value))]
  }

  function CellsBy(runs: seq<Run>, w: Run -> Cells): Cells {
    if runs == [] then [] else CellsBy(runs[..|runs| - 1], w) + w(runs[|runs| - 1])
  }

  lemma {:induction false} CellsByConcat(a: seq<Run>, b: seq<Run>, w: Run -> Cells)
    ensures CellsBy(a + b, w) == CellsBy(a, w) + CellsBy(b, w)
  {
    if b == [] {
      assert a + b == a;
    } else {
      assert (a + b)[..|a + b| - 1] == a + b[..|b| - 1];
      CellsByConcat(a, b[..|b| - 1], w);
    }
  }

  lemma {:induction false} ColumnFlatBy(c: string, runs: seq<Run>, h: Run -> seq<Document>, w: Run -> Cells)
    requires forall i :: 0 <= i < |runs| ==> ColumnOf(c, h(runs[i])) == w(runs[i])
    ensures ColumnOf(c, FlatMap(runs, h)) == CellsBy(runs, w)
  {
    if runs != [] {
      ColumnFlatBy(c, runs[..|runs| - 1], h, w);
      ColumnConcat(c, FlatMap(runs[..|runs| - 1], h), h(runs[|runs| - 1]));
    }
  }

  /** A run of two or more samples spans time. */
  lemma RunSpans(r: Run)
    requires Ordered(r) && |r| >= 2
    ensures Seconds(r) > 0.0
  {
    assert r[0].ts < r[|r| - 1].ts;
  }

  lemma ChangeFound(b: Bucketing, func: AggFunc, r: Run)
    requires Changes(func) && Ordered(r)
    ensures Find(Columns(Summary(b, r)), ChangeKind(func)) == ChangeOf(func, r)
  {
    var p := Summary(b, r);
    var cols := Columns(p);
    if |r| < 2 {
      FindSkips(cols, ChangeKind(func), 0);
    } else {
      RunSpans(r);
      FindSkips(cols, ChangeKind(func), match func case Increase => 5 case Delta => 6 case _ => 7);
    }
  }

  lemma ChangeColumn(plan: Plan, st: Stream, p: TsPartial, k: Kind, f: string, v: Option<real>)
    requires ValidStream(st) && f in plan.aggFields && '.' !in f && !k.PCnt? && !k.PLast?
    requires Find(Columns(p), k) == v
    ensures ColumnOf(Name(k, f), DocsOf(plan, st, p)) ==
            if st.field == f && v.Some? then [(p.firstTs, Float(v.value))] else []
  {
    FirstDocCells(plan, st, p, k, f);
    LastDocCells(st, p, k, f);
    ColumnShort(Name(k, f), DocsOf(plan, st, p));
  }

  lemma RunChange(b: Bucketing, plan: Plan, st: Stream, r: Run, func: AggFunc, f: string)
    requires ValidStream(st) && f in plan.aggFields && '.' !in f && Changes(func) && Ordered(r)
    ensures ColumnOf(Name(ChangeKind(func), f), RunDocs(b, plan, st)(r)) ==
            if st.field == f then ChangeCell(func)(r) else []
  {
    ChangeFound(b, func, r);
    ChangeColumn(plan, st, Summary(b, r), ChangeKind(func), f, ChangeOf(func, r));
  }

  lemma StreamChange(b: Bucketing, plan: Plan, st: Stream, runs: seq<Run>, func: AggFunc, f: string)
    requires ValidStream(st) && f in plan.aggFields && '.' !in f && Changes(func) && AllOrdered(runs)
    ensures ColumnOf(Name(ChangeKind(func), f), FlatMap(runs, RunDocs(b, plan, st))) ==
            if st.field == f then CellsBy(runs, ChangeCell(func)) else []
  {
    var h, w, c := RunDocs(b, plan, st), ChangeCell(func), Name(ChangeKind(func), f);
    forall i | 0 <= i < |runs| ensures ColumnOf(c, h(runs[i])) == if st.field == f then w(runs[i]) else [] {
      RunChange(b, plan, st, runs[i], func, f);
    }
    if st.field == f { ColumnFlatBy(c, runs, h, w); } else { ColumnFlatNone(c, runs, h); }
  }

  lemma StreamRunsOrdered(b: Bucketing, g: Group, st: Stream)
    requires |g.vals| == |g.cols| && Monotone(b) && ValidStream(st)
    ensures AllOrdered(StreamRuns(b, g, st))
  {
    if st.samples != [] { RunsAreBuckets(b, st.samples); }
    PickOrdered(b, g.bucket, Runs(b, st.samples));
  }

  /** The hidden column of the group's partial documents lists the change of each run that has one. */
  lemma {:induction false} PartialChange(b: Bucketing, g: Group, plan: Plan, streams: seq<Stream>, func: AggFunc,
                                         f: string)
    requires ValidGroup(g) && Monotone(b) && ValidStreams(streams)
    requires f in plan.aggFields && '.' !in f && Changes(func)
    ensures ColumnOf(Name(ChangeKind(func), f), GroupDocs(b, g, PartialDocs(b, plan, streams))) ==
            CellsBy(GroupRuns(b, g, f, streams), ChangeCell(func))
  {
    if streams != [] {
      var front, st, c := streams[..|streams| - 1], streams[|streams| - 1], Name(ChangeKind(func), f);
      var docs, more := PartialDocs(b, plan, front), StreamDocs(plan, st, Summaries(b, Runs(b, st.samples)));
      PartialChange(b, g, plan, front, func, f);
      GroupConcat(b, g, docs, more);
      StreamGroup(b, g, plan, st);
      ColumnConcat(c, GroupDocs(b, g, docs), GroupDocs(b, g, more));
      StreamRunsOrdered(b, g, st);
      StreamChange(b, plan, st, StreamRuns(b, g, st), func, f);
      CellsByConcat(GroupRuns(b, g, f, front), StreamRuns(b, g, st), ChangeCell(func));
    }
  }

  function SumRuns(func: AggFunc, runs: seq<Run>): Option<real> {
    if runs == [] then None else Plus(SumRuns(func, runs[..|runs| - 1]), ChangeOf(func, runs[|runs| - 1]))
  }

  /** The cells are floats that add up to the total, which is none when there is no cell. */
  ghost predicate AddsUp(cells: Cells, total: Option<real>) {
    && (forall i :: 0 <= i < |cells| ==> cells[i].1.Float?)
    && if cells == [] then total == None else total == Some(NumberSum(cells))
  }

  lemma AddCell(cells: Cells, total: Option<real>, ts: I64, c: Option<real>)
    requires AddsUp(cells, total)
    ensures AddsUp(cells + if c.None? then [] else [(ts, Float(c.value))], Plus(total, c))
  {
    if c.None? {
      assert cells + [] == cells;
    } else {
      assert (cells + [(ts, Float(c.value))])[..|cells|] == cells;
    }
  }

  lemma {:induction false} SumOfCells(func: AggFunc, runs: seq<Run>)
    ensures AddsUp(CellsBy(runs, ChangeCell(func)), SumRuns(func, runs))
  {
    if runs != [] {
      var front, r := runs[..|runs| - 1], runs[|runs| - 1];
      SumOfCells(func, front);
      AddCell(CellsBy(front, ChangeCell(func)), SumRuns(func, front), r[0].ts, ChangeOf(func, r));
    }
  }

  lemma SumCellsValue(func: AggFunc, runs: seq<Run>)
    ensures SumValues(CellsBy(runs, ChangeCell(func))) == FloatOrNull(SumRuns(func, runs))
  {
    SumOfCells(func, runs);
    var cells := CellsBy(runs, ChangeCell(func));
    if cells != [] { assert cells[0].1.Float?; }
  }

  // The raw side: blocks of one tag each.

  function Block(t: string, s: seq<Sample>): (list: seq<(string, Sample)>)
    ensures |list| == |s| && forall i :: 0 <= i < |s| ==> list[i] == (t, s[i])
  {
    seq(|s|, i requires 0 <= i < |s| => (t, s[i]))
  }

  lemma {:induction false} PlaceLast(s: seq<Sample>, x: Sample)
    requires Ordered(s + [x])
    ensures PlaceByTs(s, x) == s + [x]
  {
    if s != [] { assert (s + [x])[|s| - 1].ts < (s + [x])[|s|].ts; }
  }

  lemma {:induction false} SortedAlready(s: seq<Sample>)
    requires Ordered(s)
    ensures SortByTs(s) == s
  {
    if s != [] {
      var front, x := Front(s), LastOf(s);
      assert s == front + [x];
      SortedAlready(front);
      PlaceLast(front, x);
      assert SortByTs(s) == PlaceByTs(SortByTs(front), x);
    }
  }

  lemma {:induction false} TagsAre(list: seq<(string, Sample)>, t: string)
    ensures t in TagsOf(list) <==> exists i :: 0 <= i < |list| && list[i].0 == t
    ensures t !in TagsOf(list) ==> SamplesOf(list, t) == []
  {
    if list != [] {
      var front := list[..|list| - 1];
      TagsAre(front, t);
      if t in TagsOf(front) {
        var i :| 0 <= i < |front| && front[i].0 == t;
        assert list[i].0 == t;
      }
    }
  }

  /** A block of a new tag adds that tag and disturbs no other. */
  lemma {:induction false} BlockAdds(list: seq<(string, Sample)>, t: string, s: seq<Sample>, u: string)
    requires t !in TagsOf(list)
    ensures var all := list + Block(t, s);
            && TagsOf(all) == TagsOf(list) + (if s == [] then [] else [t])
            && SamplesOf(all, t) == s && (u != t ==> SamplesOf(all, u) == SamplesOf(list, u))
  {
    if s == [] {
      assert list + Block(t, s) == list;
      TagsAre(list, t);
    } else {
      var front, all := list + Block(t, Front(s)), list + Block(t, s);
      BlockAdds(list, t, Front(s), u);
      assert all == front + [(t, LastOf(s))];
      assert all[..|all| - 1] == front;
      assert s == Front(s) + [LastOf(s)];
    }
  }

  lemma {:induction false} OthersSum(func: AggFunc, list: seq<(string, Sample)>, t: string, s: seq<Sample>,
                                     tags: seq<string>)
    requires t !in TagsOf(list) && t !in tags
    ensures SumChanges(func, list + Block(t, s), tags) == SumChanges(func, list, tags)
  {
    if tags != [] {
      assert tags[|tags| - 1] in tags;
      OthersSum(func, list, t, s, tags[..|tags| - 1]);
      BlockAdds(list, t, s, tags[|tags| - 1]);
    }
  }

  lemma BlockSum(func: AggFunc, list: seq<(string, Sample)>, t: string, s: Run)
    requires t !in TagsOf(list) && Ordered(s)
    ensures SumChanges(func, list + Block(t, s), TagsOf(list + Block(t, s))) ==
            Plus(SumChanges(func, list, TagsOf(list)), ChangeOf(func, s))
  {
    var tags := TagsOf(list);
    BlockAdds(list, t, s, t);
    OthersSum(func, list, t, s, tags);
    SortedAlready(s);
    assert (tags + [t])[..|tags|] == tags;
  }

  /** The group's samples of field `f` with their series' tags, series by series. */
  function GroupTagged(b: Bucketing, g: Group, f: string, streams: seq<Stream>): seq<(string, Sample)>
    requires |g.vals| == |g.cols|
  {
    if streams == [] then []
    else
      var front, st := streams[..|streams| - 1], streams[|streams| - 1];
      if Contributes(g, f, st) then GroupTagged(b, g, f, front) + Block(st.tag, PickSamples(b, g.bucket, st.samples))
      else GroupTagged(b, g, f, front)
  }

  /** No two series of the group that carry the field share a tag. */
  ghost predicate TagsTell(g: Group, f: string, streams: seq<Stream>)
    requires |g.vals| == |g.cols|
  {
    forall i, j :: 0 <= i < j < |streams| && Contributes(g, f, streams[i]) && Contributes(g, f, streams[j]) ==>
      streams[i].tag != streams[j].tag
  }

  lemma {:induction false} GroupTags(b: Bucketing, g: Group, f: string, streams: seq<Stream>, i: nat)
    requires |g.vals| == |g.cols| && i < |GroupTagged(b, g, f, streams)|
    ensures exists n :: 0 <= n < |streams| && Contributes(g, f, streams[n]) &&
                        GroupTagged(b, g, f, streams)[i].0 == streams[n].tag
  {
    var front, st := streams[..|streams| - 1], streams[|streams| - 1];
    if i < |GroupTagged(b, g, f, front)| {
      GroupTags(b, g, f, front, i);
      var n :| 0 <= n < |front| && Contributes(g, f, front[n]) && GroupTagged(b, g, f, front)[i].0 == front[n].tag;
      assert streams[n] == front[n];
    }
  }

  lemma {:induction false} PickNone(b: Bucketing, bucket: int, runs: seq<Run>)
    requires forall i :: 0 <= i < |runs| ==> b(runs[i][0].ts) != bucket
    ensures PickRuns(b, bucket, runs) == []
  {
    if runs != [] { PickNone(b, bucket, runs[..|runs| - 1]); }
  }

  lemma {:induction false} PickOne(b: Bucketing, bucket: int, runs: seq<Run>)
    requires forall i, j :: 0 <= i < j < |runs| ==> b(runs[i][0].ts) != b(runs[j][0].ts)
    ensures |PickRuns(b, bucket, runs)| <= 1
  {
    if runs != [] {
      var front := runs[..|runs| - 1];
      PickOne(b, bucket, front);
      if b(runs[|runs| - 1][0].ts) == bucket { PickNone(b, bucket, front); }
    }
  }

  lemma FlattenOne(runs: seq<Run>)
    requires |runs| == 1
    ensures Flatten(runs) == runs[0]
  {
    assert Flatten(runs[..0]) == [];
  }

  /** A series has at most one run in a bucket: its samples there. */
  lemma OneRun(b: Bucketing, bucket: int, s: seq<Sample>)
    requires Monotone(b) && Ordered(s)
    ensures var picked := PickSamples(b, bucket, s);
            PickRuns(b, bucket, Runs(b, s)) == OneOrNone(picked)
  {
    var runs := PickRuns(b, bucket, Runs(b, s));
    if s != [] { RunsAreBuckets(b, s); }
    PickOne(b, bucket, Runs(b, s));
    PickedSamples(b, bucket, s);
    if runs != [] { FlattenOne(runs); }
  }

  function OneOrNone(s: seq<Sample>): seq<Run> { if s == [] then [] else [s] }

  lemma AddSeries(func: AggFunc, runs: seq<Run>, list: seq<(string, Sample)>, t: string, s: seq<Sample>)
    requires SumRuns(func, runs) == SumChanges(func, list, TagsOf(list)) && t !in TagsOf(list) && Ordered(s)
    ensures SumRuns(func, runs + OneOrNone(s)) ==
            SumChanges(func, list + Block(t, s), TagsOf(list + Block(t, s)))
  {
    if s == [] {
      assert list + Block(t, s) == list && runs + OneOrNone(s) == runs;
    } else {
      BlockSum(func, list, t, s);
      assert (runs + OneOrNone(s))[..|runs|] == runs;
    }
  }

  lemma GroupRunsNext(b: Bucketing, g: Group, f: string, streams: seq<Stream>)
    requires |g.vals| == |g.cols| && Monotone(b) && ValidStreams(streams) && streams != []
    ensures var front, st := streams[..|streams| - 1], streams[|streams| - 1];
            GroupRuns(b, g, f, streams) == GroupRuns(b, g, f, front) +
              if Contributes(g, f, st) then OneOrNone(PickSamples(b, g.bucket, st.samples)) else []
  {
    OneRun(b, g.bucket, streams[|streams| - 1].samples);
  }

  /** Summed over runs or over tags, the changes are the same when tags tell series apart. */
  lemma {:induction false} ChangesAgree(b: Bucketing, g: Group, f: string, streams: seq<Stream>, func: AggFunc)
    requires |g.vals| == |g.cols| && Monotone(b) && ValidStreams(streams) && TagsTell(g, f, streams)
    ensures var list := GroupTagged(b, g, f, streams);
            SumRuns(func, GroupRuns(b, g, f, streams)) == SumChanges(func, list, TagsOf(list))
  {
    if streams != [] {
      var front, st := streams[..|streams| - 1], streams[|streams| - 1];
      ChangesAgree(b, g, f, front, func);
      GroupRunsNext(b, g, f, streams);
      if Contributes(g, f, st) {
        NewTag(b, g, f, streams);
        PickedOrdered(b, g.bucket, st.samples);
        AddSeries(func, GroupRuns(b, g, f, front), GroupTagged(b, g, f, front), st.tag,
          PickSamples(b, g.bucket, st.samples));
      } else {
        assert GroupRuns(b, g, f, streams) == GroupRuns(b, g, f, front);
      }
    }
  }

  lemma NewTag(b: Bucketing, g: Group, f: string, streams: seq<Stream>)
    requires |g.vals| == |g.cols| && streams != [] && TagsTell(g, f, streams)
    requires Contributes(g, f, streams[|streams| - 1])
    ensures streams[|streams| - 1].tag !in TagsOf(GroupTagged(b, g, f, streams[..|streams| - 1]))
  {
    var front, st := streams[..|streams| - 1], streams[|streams| - 1];
    var list := GroupTagged(b, g, f, front);
    TagsAre(list, st.tag);
    forall i | 0 <= i < |list| ensures list[i].0 != st.tag {
      GroupTags(b, g, f, front, i);
      var n :| 0 <= n < |front| && Contributes(g, f, front[n]) && list[i].0 == front[n].tag;
      assert streams[n] == front[n] && streams[|streams| - 1] == st;
    }
  }

  // The raw documents give those blocks.

  function KeyTagged(m: Merged, f: string, keys: seq<Key>): seq<(string, Sample)>
    requires forall k :: k in keys ==> k in m && f in m[k] && m[k][f].Float?
  {
    seq(|keys|, i requires 0 <= i < |keys| => (TagOf(m[keys[i]]), Sample(TsOf(m[keys[i]]), m[keys[i]][f].f)))
  }

  lemma TaggedSnoc(f: string, docs: seq<Document>, d: Document)
    ensures TaggedOf(f, docs + [d]) == TaggedOf(f, docs) + Tagged(f, d)
  {
    assert (docs + [d])[..|docs|] == docs;
  }

  /** A document of the list, in or out of the group. */
  lemma RawTaggedNext(b: Bucketing, g: Group, f: string, docs: seq<Document>, d: Document)
    requires |g.vals| == |g.cols| && '.' !in f && (f in d ==> d[f].Float?)
    ensures TaggedOf(f, GroupDocs(b, g, docs + [d])) ==
            TaggedOf(f, GroupDocs(b, g, docs)) +
              if InGroup(b, g, d) && f in d then [(TagOf(d), Sample(TsOf(d), d[f].f))] else []
  {
    assert (docs + [d])[..|docs|] == docs;
    if InGroup(b, g, d) { TaggedSnoc(f, GroupDocs(b, g, docs), d); }
  }

  lemma {:induction false} RawTagged(b: Bucketing, g: Group, f: string, m: Merged, keys: seq<Key>)
    requires |g.vals| == |g.cols| && (forall k :: k in keys ==> k in m) && '.' !in f
    requires forall k :: k in keys && f in m[k] ==> m[k][f].Float?
    ensures var picked := FilterKeys(b, g, f, m, keys);
            && (forall k :: k in picked ==> k in m && f in m[k] && m[k][f].Float?)
            && TaggedOf(f, GroupDocs(b, g, ListDocs(m, keys))) == KeyTagged(m, f, picked)
  {
    if keys != [] {
      var front, k := keys[..|keys| - 1], keys[|keys| - 1];
      assert k in keys && forall x :: x in front ==> x in keys;
      RawTagged(b, g, f, m, front);
      RawTaggedNext(b, g, f, ListDocs(m, front), m[k]);
    }
  }

  lemma {:induction false} GroupTaggedKeyed(b: Bucketing, g: Group, f: string, streams: seq<Stream>)
    requires |g.vals| == |g.cols|
    ensures var keys, s, list := GroupKeys(b, g, f, streams), GroupSamples(b, g, f, streams),
                                 GroupTagged(b, g, f, streams);
            && |keys| == |s| == |list|
            && forall i :: 0 <= i < |list| ==>
                 list[i].1 == s[i] && exists n :: 0 <= n < |streams| && streams[n].series == keys[i].series &&
                                                  list[i].0 == streams[n].tag
  {
    if streams != [] {
      var front, st := streams[..|streams| - 1], streams[|streams| - 1];
      GroupTaggedKeyed(b, g, f, front);
      var keys, list := GroupKeys(b, g, f, streams), GroupTagged(b, g, f, streams);
      forall i | 0 <= i < |list|
        ensures exists n :: 0 <= n < |streams| && streams[n].series == keys[i].series && list[i].0 == streams[n].tag
      {
        var head := GroupTagged(b, g, f, front);
        if i < |head| {
          var k := GroupKeys(b, g, f, front)[i];
          var n :| 0 <= n < |front| && front[n].series == k.series && head[i].0 == front[n].tag;
          assert streams[n] == front[n];
        } else {
          assert streams[|streams| - 1] == st;
        }
      }
    }
  }

  lemma TagAtKey(streams: seq<Stream>, k: Key, st: Stream)
    requires Consistent(streams) && k in Merge(streams) && st in streams && st.series == k.series
    ensures TagOf(Merge(streams)[k]) == st.tag
  {
    MergeLabel(streams, k, "__series__", st);
  }

  /** Over the group's raw rows, a field's tagged samples are the group's samples with their series' tags. */
  lemma RawGroupTagged(b: Bucketing, g: Group, f: string, streams: seq<Stream>)
    requires Gathered(g, streams) && FieldName(f, streams)
    ensures TaggedOf(f, GroupDocs(b, g, RawDocs(streams))) == GroupTagged(b, g, f, streams)
  {
    var m := Merge(streams);
    var keys := Sort(BySeries, m.Keys);
    assert forall k :: k in keys ==> k in Elems(keys);
    forall k | k in keys && f in m[k] ensures m[k][f].Float? { MergeField(streams, k, f); }
    RawTagged(b, g, f, m, keys);
    FilterIsGroupKeys(b, g, f, streams, keys);
    GroupTaggedKeyed(b, g, f, streams);
    GroupKeyed(b, g, f, streams);
    var listed, list := GroupKeys(b, g, f, streams), GroupTagged(b, g, f, streams);
    forall i | 0 <= i < |listed| ensures KeyTagged(m, f, listed)[i] == list[i] {
      assert listed[i] in listed;
      CellOfKey(b, g, f, streams, listed[i]);
      var n :| 0 <= n < |streams| && streams[n].series == listed[i].series && list[i].0 == streams[n].tag;
      TagAtKey(streams, listed[i], streams[n]);
    }
  }

  /** The rewritten change aggregate over the partial documents is the raw one over the rows. */
  lemma PartialChangeAnswers(env: Env, b: Bucketing, g: Group, plan: Plan, streams: seq<Stream>, func: AggFunc,
                             f: string, rep: Document)
    requires Gathered(g, streams) && Monotone(b) && FieldName(f, streams) && TagsTell(g, f, streams)
    requires f in plan.aggFields && Changes(func)
    ensures EvalGroup(env, RewriteAgg(func, f), GroupDocs(b, g, PartialDocs(b, plan, streams)), rep) ==
            Ok(ChangeValue(func, f, GroupDocs(b, g, RawDocs(streams))))
  {
    PartialChange(b, g, plan, streams, func, f);
    SumCellsValue(func, GroupRuns(b, g, f, streams));
    ChangesAgree(b, g, f, streams, func);
    RawGroupTagged(b, g, f, streams);
    FoldValue(env, Sum, ChangeKind(func), f, GroupDocs(b, g, PartialDocs(b, plan, streams)), rep);
  }

  // Where tags do not tell series apart.

  /** The hidden series tag: `key=value` pairs joined by commas. */
  function SeriesTag(labels: seq<(string, string)>): string {
    if labels == [] then ""
    else
      var front, (k, v) := SeriesTag(labels[..|labels| - 1]), labels[|labels| - 1];
      if |labels| == 1 then k + "=" + v else front + "," + k + "=" + v
  }

  /** Different labels may give the same tag. */
  lemma TagShared()
    ensures SeriesTag([("a", "1,b=2")]) == SeriesTag([("a", "1"), ("b", "2")])
  {
    assert [("a", "1"), ("b", "2")][..1] == [("a", "1")];
  }

  /** Two series with one tag are read as one: the increase between the last sample of one and the first of the other
      is counted too. */
  lemma SharedTagMerges(t: string, x: Run, y: Run)
    requires x == [Sample(0, 5.0), Sample(1, 6.0)] && y == [Sample(2, 10.0), Sample(3, 11.0)]
    ensures var list := Block(t, x) + Block(t, y);
            SumRuns(Increase, [x, y]) == Some(2.0) && SumChanges(Increase, list, TagsOf(list)) == Some(6.0)
  {
    var all := [Sample(0, 5.0), Sample(1, 6.0), Sample(2, 10.0), Sample(3, 11.0)];
    assert Block(t, x) + Block(t, y) == [] + Block(t, all);
    BlockSum(Increase, [], t, all);
    IncreaseOf4(all);
    RunsOfTwo(x, y);
  }

  lemma IncreaseOf4(s: seq<Sample>)
    requires s == [Sample(0, 5.0), Sample(1, 6.0), Sample(2, 10.0), Sample(3, 11.0)]
    ensures Samples.Increase(s) == 6.0
  {
    assert Front(s) == [Sample(0, 5.0), Sample(1, 6.0), Sample(2, 10.0)];
    assert Front(Front(s)) == [Sample(0, 5.0), Sample(1, 6.0)];
    assert Samples.Increase(Front(Front(s))) == 1.0;
  }

  lemma RunsOfTwo(x: Run, y: Run)
    requires x == [Sample(0, 5.0), Sample(1, 6.0)] && y == [Sample(2, 10.0), Sample(3, 11.0)]
    ensures SumRuns(Increase, [x, y]) == Some(2.0)
  {
    var one: seq<Run>, two: seq<Run> := [x], [x, y];
    assert two[..1] == one && one[..0] == [];
    assert Samples.Increase(Front(x)) == 0.0 && Samples.Increase(Front(y)) == 0.0;
    assert ChangeOf(Increase, x) == Some(1.0) && ChangeOf(Increase, y) == Some(1.0);
    assert SumRuns(Increase, one) == Some(1.0);
  }
}
