/** Partial-aggregate pushdown: the documents synthesized from bucket partials, the rewritten
    aggregates over them, and why a group's answer does not change. */
module Partials {
  import opened Aggregates
  import opened Ast
  import opened Buckets
  import opened Evaluator
  import opened Int64
  import opened Prelude
  import opened Samples
  import P = Pushdown

  /** The hidden columns of a partial document, one per field. */
  datatype Kind = PCnt | PSum | PMin | PMax | PFirst | PLast | PInc | PDel | PRate

  function Prefix(k: Kind): string {
    match k
    case PCnt => "__pcnt_"
    case PSum => "__psum_"
    case PMin => "__pmin_"
    case PMax => "__pmax_"
    case PFirst => "__pfirst_"
    case PLast => "__plast_"
    case PInc => "__pinc_"
    case PDel => "__pdel_"
    case PRate => "__prate_"
  }

  function Name(k: Kind, f: string): string { Prefix(k) + f }

  /** Hidden columns never coincide with each other, with `ts`, or with a label column. */
  lemma NamesDistinct(k: Kind, f: string, l: Kind, g: string)
    ensures Name(k, f) == Name(l, g) <==> k == l && f == g
    ensures Name(k, f) != "ts" && !P.LabelColumn(Name(k, f))
  {
    assert Name(k, f)[3] == Prefix(k)[3] && Name(l, g)[3] == Prefix(l)[3];
    assert Name(k, f)[4] == Prefix(k)[4] && Name(l, g)[4] == Prefix(l)[4];
    assert Prefix(k)[3] == Prefix(l)[3] && Prefix(k)[4] == Prefix(l)[4] ==> k == l;
    assert Name(k, f)[|Prefix(k)|..] == f && Name(l, g)[|Prefix(l)|..] == g;
    assert "__" <= Name(k, f);
  }

  /** One gathered stream: a field of a series, the series given by its rank in identity order. */
  datatype Stream = Stream(series: int, labels: P.Labels, tag: string, field: string, samples: seq<Sample>)

  /** What the synthesizer needs besides the partials. */
  datatype Plan = Plan(aggFields: seq<string>, needsLast: bool, hasChange: bool)

  /** Explicit zero counts for the query's other fields keep their COUNT at 0, not NULL. */
  function WithCounts(d: Document, fields: seq<string>, field: string, n: nat): Document {
    if fields == [] then d
    else WithCounts(d, fields[..|fields| - 1], field, n)[
           Name(PCnt, fields[|fields| - 1]) := Int(if fields[|fields| - 1] == field then Wrap64(n) else 0)]
  }

  /** The float columns of a partial, in insertion order. */
  function Columns(p: TsPartial): seq<(Kind, real)> {
    var span := (p.lastTs - p.firstTs) as real / 1000.0;
    [(PSum, p.sum), (PMin, p.min), (PMax, p.max), (PFirst, p.firstVal)] +
    if p.count < 2 then []
    else [(PInc, p.increase), (PDel, p.lastVal - p.firstVal)] +
         if span > 0.0 then [(PRate, p.increase / span)] else []
  }

  function WithColumns(d: Document, f: string, cols: seq<(Kind, real)>): Document {
    if cols == [] then d
    else WithColumns(d, f, cols[..|cols| - 1])[Name(cols[|cols| - 1].0, f) := Float(cols[|cols| - 1].1)]
  }

  function FirstDoc(plan: Plan, st: Stream, p: TsPartial): Document {
    var d := WithCounts(st.labels["ts" := Timestamp(p.firstTs)], plan.aggFields, st.field, p.count);
    if st.field in plan.aggFields then WithColumns(d, st.field, Columns(p)) else d
  }

  function LastDoc(st: Stream, p: TsPartial): Document {
    st.labels["ts" := Timestamp(p.lastTs)][Name(PLast, st.field) := Float(p.lastVal)]
  }

  function DocsOf(plan: Plan, st: Stream, p: TsPartial): seq<Document> {
    if plan.needsLast && st.field in plan.aggFields then [FirstDoc(plan, st, p), LastDoc(st, p)]
    else [FirstDoc(plan, st, p)]
  }

  function StreamDocs(plan: Plan, st: Stream, ps: seq<TsPartial>): seq<Document> {
    if ps == [] then [] else StreamDocs(plan, st, ps[..|ps| - 1]) + DocsOf(plan, st, ps[|ps| - 1])
  }

  /** `partial_docs` over streams already in series order. */
  function PartialDocs(b: Bucketing, plan: Plan, streams: seq<Stream>): seq<Document> {
    if streams == [] then []
    else
      var st := streams[|streams| - 1];
      PartialDocs(b, plan, streams[..|streams| - 1]) + StreamDocs(plan, st, Summaries(b, Runs(b, st.samples)))
  }

  // Groups: label values and one bucket.

  datatype Group = Group(cols: seq<string>, vals: seq<Value>, bucket: int)

  ghost predicate ValidGroup(g: Group) {
    |g.vals| == |g.cols| && forall i :: 0 <= i < |g.cols| ==> P.LabelColumn(g.cols[i]) && g.cols[i] != "ts"
  }

  predicate ColsMatch(g: Group, d: Document)
    requires |g.vals| == |g.cols|
  {
    forall i :: 0 <= i < |g.cols| ==> Lookup(d, g.cols[i]) == g.vals[i]
  }

  predicate InGroup(b: Bucketing, g: Group, d: Document)
    requires |g.vals| == |g.cols|
  {
    ColsMatch(g, d) && b(TsOf(d)) == g.bucket
  }

  function GroupDocs(b: Bucketing, g: Group, docs: seq<Document>): seq<Document>
    requires |g.vals| == |g.cols|
  {
    if docs == [] then []
    else if InGroup(b, g, docs[|docs| - 1]) then GroupDocs(b, g, docs[..|docs| - 1]) + [docs[|docs| - 1]]
    else GroupDocs(b, g, docs[..|docs| - 1])
  }

  lemma {:induction false} GroupConcat(b: Bucketing, g: Group, x: seq<Document>, y: seq<Document>)
    requires |g.vals| == |g.cols|
    ensures GroupDocs(b, g, x + y) == GroupDocs(b, g, x) + GroupDocs(b, g, y)
  {
    if y == [] {
      assert x + y == x;
    } else {
      assert (x + y)[..|x + y| - 1] == x + y[..|y| - 1];
      GroupConcat(b, g, x, y[..|y| - 1]);
    }
  }

  /** The runs of a stream that fall in the group's bucket. */
  function PickRuns(b: Bucketing, bucket: int, runs: seq<Run>): seq<Run> {
    if runs == [] then []
    else if b(runs[|runs| - 1][0].ts) == bucket then PickRuns(b, bucket, runs[..|runs| - 1]) + [runs[|runs| - 1]]
    else PickRuns(b, bucket, runs[..|runs| - 1])
  }

  function StreamRuns(b: Bucketing, g: Group, st: Stream): seq<Run>
    requires |g.vals| == |g.cols|
  {
    if ColsMatch(g, st.labels) then PickRuns(b, g.bucket, Runs(b, st.samples)) else []
  }

  /** All runs of field `f` in the group, series by series. */
  function GroupRuns(b: Bucketing, g: Group, f: string, streams: seq<Stream>): seq<Run>
    requires |g.vals| == |g.cols|
  {
    if streams == [] then []
    else
      var st := streams[|streams| - 1];
      if st.field == f then GroupRuns(b, g, f, streams[..|streams| - 1]) + StreamRuns(b, g, st)
      else GroupRuns(b, g, f, streams[..|streams| - 1])
  }

  // What the columns of partial documents hold.

  lemma {:induction false} WithCountsLookup(d: Document, fields: seq<string>, field: string, n: nat, c: string)
    ensures forall g :: g in fields ==>
              Name(PCnt, g) in WithCounts(d, fields, field, n) &&
              WithCounts(d, fields, field, n)[Name(PCnt, g)] == Int(if g == field then Wrap64(n) else 0)
    ensures (forall g :: c != Name(PCnt, g)) ==>
              (c in WithCounts(d, fields, field, n) <==> c in d) &&
              (c in d ==> WithCounts(d, fields, field, n)[c] == d[c])
  {
    if fields != [] {
      WithCountsLookup(d, fields[..|fields| - 1], field, n, c);
      forall g | g in fields
        ensures Name(PCnt, g) in WithCounts(d, fields, field, n)
        ensures WithCounts(d, fields, field, n)[Name(PCnt, g)] == Int(if g == field then Wrap64(n) else 0)
      {
        NamesDistinct(PCnt, g, PCnt, fields[|fields| - 1]);
        assert g == fields[|fields| - 1] || g in fields[..|fields| - 1];
      }
    }
  }

  /** The sample a float column of a partial document stands for. */
  function KindSample(k: Kind, r: Run): Sample {
    match k
    case PMin => Sample(r[0].ts, Best(Lowest, r).value)
    case PMax => Sample(r[0].ts, Best(Highest, r).value)
    case PFirst => r[0]
    case PLast => LastOf(r)
    case _ => Sample(r[0].ts, Total(r))
  }

  function Of(k: Kind): Run -> Sample { (r: Run) => KindSample(k, r) }

  predicate FoldKind(plan: Plan, k: Kind) {
    k.PSum? || k.PMin? || k.PMax? || k.PFirst? || (k.PLast? && plan.needsLast)
  }

  /** Labels never shadow hidden columns, and field names are plain. */
  ghost predicate ValidStream(st: Stream) {
    && (forall k, f :: Name(k, f) !in st.labels)
    && Ordered(st.samples) && |st.samples| <= MAX
  }

  lemma NamePlain(k: Kind, f: string)
    requires '.' !in f
    ensures '.' !in Name(k, f)
  {
  }

  function Find(cols: seq<(Kind, real)>, k: Kind): Option<real> {
    if cols == [] then None
    else if cols[|cols| - 1].0 == k then Some(cols[|cols| - 1].1)
    else Find(cols[..|cols| - 1], k)
  }

  lemma {:induction false} WithColumnsLookup(d: Document, f: string, cols: seq<(Kind, real)>, k: Kind, g: string)
    ensures var e := WithColumns(d, f, cols); var c := Name(k, g);
            if f == g && Find(cols, k).Some? then c in e && e[c] == Float(Find(cols, k).value)
            else (c in e <==> c in d) && (c in d ==> e[c] == d[c])
  {
    if cols != [] {
      WithColumnsLookup(d, f, cols[..|cols| - 1], k, g);
      NamesDistinct(cols[|cols| - 1].0, f, k, g);
    }
  }

  lemma {:induction false} WithColumnsOther(d: Document, f: string, cols: seq<(Kind, real)>, c: string)
    requires c == "ts" || P.LabelColumn(c)
    ensures var e := WithColumns(d, f, cols); (c in e <==> c in d) && (c in d ==> e[c] == d[c])
  {
    if cols != [] {
      WithColumnsOther(d, f, cols[..|cols| - 1], c);
      NamesDistinct(cols[|cols| - 1].0, f, cols[|cols| - 1].0, f);
    }
  }

  /** Partial documents carry the series labels and their own time unchanged. */
  lemma FirstDocPlain(plan: Plan, st: Stream, p: TsPartial, c: string)
    requires c == "ts" || P.LabelColumn(c)
    ensures var d := st.labels["ts" := Timestamp(p.firstTs)];
            Lookup(FirstDoc(plan, st, p), c) == Lookup(d, c) && TsOf(FirstDoc(plan, st, p)) == p.firstTs
  {
    var d := st.labels["ts" := Timestamp(p.firstTs)];
    forall g ensures c != Name(PCnt, g) && "ts" != Name(PCnt, g) { NamesDistinct(PCnt, g, PCnt, g); }
    WithCountsLookup(d, plan.aggFields, st.field, p.count, c);
    WithCountsLookup(d, plan.aggFields, st.field, p.count, "ts");
    var e := WithCounts(d, plan.aggFields, st.field, p.count);
    WithColumnsOther(e, st.field, Columns(p), c);
    WithColumnsOther(e, st.field, Columns(p), "ts");
  }

  lemma ColumnsFind(p: TsPartial, k: Kind)
    requires k.PSum? || k.PMin? || k.PMax? || k.PFirst? || k.PLast?
    ensures Find(Columns(p), k) ==
            match k
            case PSum => Some(p.sum)
            case PMin => Some(p.min)
            case PMax => Some(p.max)
            case PFirst => Some(p.firstVal)
            case _ => None
  {
    var cols := Columns(p);
    FindSkips(cols, k, match k case PSum => 1 case PMin => 2 case PMax => 3 case PFirst => 4 case _ => 0);
  }

  lemma {:induction false} FindSkips(cols: seq<(Kind, real)>, k: Kind, n: nat)
    requires n <= |cols| && forall i :: n <= i < |cols| ==> cols[i].0 != k
    ensures Find(cols, k) == Find(cols[..n], k)
  {
    if n < |cols| {
      FindSkips(cols[..|cols| - 1], k, n);
      assert cols[..|cols| - 1][..n] == cols[..n];
    } else {
      assert cols[..n] == cols;
    }
  }

  lemma FirstDocCells(plan: Plan, st: Stream, p: TsPartial, k: Kind, f: string)
    requires ValidStream(st) && f in plan.aggFields && '.' !in f && !k.PCnt?
    ensures var v := Find(Columns(p), k);
            Cell(Name(k, f), FirstDoc(plan, st, p)) ==
            if st.field == f && v.Some? then [(p.firstTs, Float(v.value))] else []
  {
    NamePlain(k, f);
    var base := st.labels["ts" := Timestamp(p.firstTs)];
    var d := WithCounts(base, plan.aggFields, st.field, p.count);
    forall g ensures Name(k, f) != Name(PCnt, g) { NamesDistinct(k, f, PCnt, g); }
    WithCountsLookup(base, plan.aggFields, st.field, p.count, Name(k, f));
    assert Name(k, f) !in d by { NamesDistinct(k, f, k, f); }
    WithColumnsLookup(d, st.field, Columns(p), k, f);
    FirstDocPlain(plan, st, p, "ts");
  }

  lemma FirstDocCount(plan: Plan, st: Stream, p: TsPartial, f: string)
    requires f in plan.aggFields && '.' !in f
    ensures Cell(Name(PCnt, f), FirstDoc(plan, st, p)) ==
            [(p.firstTs, Int(if st.field == f then Wrap64(p.count) else 0))]
  {
    NamePlain(PCnt, f);
    var base := st.labels["ts" := Timestamp(p.firstTs)];
    var d := WithCounts(base, plan.aggFields, st.field, p.count);
    WithCountsLookup(base, plan.aggFields, st.field, p.count, "ts");
    WithColumnsLookup(d, st.field, Columns(p), PCnt, f);
    FirstDocPlain(plan, st, p, "ts");
    assert Find(Columns(p), PCnt) == None by { FindSkips(Columns(p), PCnt, 0); }
  }

  lemma LastDocCells(st: Stream, p: TsPartial, k: Kind, f: string)
    requires ValidStream(st) && '.' !in f
    ensures Cell(Name(k, f), LastDoc(st, p)) ==
            if st.field == f && k.PLast? then [(p.lastTs, Float(p.lastVal))] else []
  {
    NamePlain(k, f);
    NamesDistinct(PLast, st.field, k, f);
    NamesDistinct(k, f, k, f);
  }

  /** Both ends of what a partial stands for are in its bucket. */
  ghost predicate Bucketed(b: Bucketing, p: TsPartial) { b(p.firstTs) == p.bucketTs && b(p.lastTs) == p.bucketTs }

  lemma DocInGroup(b: Bucketing, g: Group, plan: Plan, st: Stream, p: TsPartial)
    requires ValidGroup(g) && Bucketed(b, p)
    ensures InGroup(b, g, FirstDoc(plan, st, p)) <==> ColsMatch(g, st.labels) && p.bucketTs == g.bucket
    ensures InGroup(b, g, LastDoc(st, p)) <==> ColsMatch(g, st.labels) && p.bucketTs == g.bucket
  {
    forall i | 0 <= i < |g.cols|
      ensures Lookup(FirstDoc(plan, st, p), g.cols[i]) == Lookup(st.labels, g.cols[i])
      ensures Lookup(LastDoc(st, p), g.cols[i]) == Lookup(st.labels, g.cols[i])
    {
      FirstDocPlain(plan, st, p, g.cols[i]);
      NamesDistinct(PLast, st.field, PLast, st.field);
    }
    FirstDocPlain(plan, st, p, "ts");
    NamesDistinct(PLast, st.field, PLast, st.field);
    assert TsOf(LastDoc(st, p)) == p.lastTs;
  }

  /** The documents of a list of runs. */
  function FlatMap(runs: seq<Run>, h: Run -> seq<Document>): seq<Document> {
    if runs == [] then [] else FlatMap(runs[..|runs| - 1], h) + h(runs[|runs| - 1])
  }

  function RunDocs(b: Bucketing, plan: Plan, st: Stream): Run -> seq<Document> {
    (r: Run) => DocsOf(plan, st, Summary(b, r))
  }

  lemma {:induction false} StreamDocsFlat(b: Bucketing, plan: Plan, st: Stream, runs: seq<Run>)
    ensures StreamDocs(plan, st, Summaries(b, runs)) == FlatMap(runs, RunDocs(b, plan, st))
  {
    if runs != [] {
      StreamDocsFlat(b, plan, st, runs[..|runs| - 1]);
      assert Summaries(b, runs)[..|runs| - 1] == Summaries(b, runs[..|runs| - 1]);
    }
  }

  lemma FlatMapSnoc(runs: seq<Run>, r: Run, h: Run -> seq<Document>)
    ensures FlatMap(runs + [r], h) == FlatMap(runs, h) + h(r)
  {
    assert (runs + [r])[..|runs|] == runs;
  }

  /** If a run's documents are all in the group exactly when its bucket is, grouping picks runs. */
  lemma {:induction false} GroupFlat(b: Bucketing, g: Group, runs: seq<Run>, h: Run -> seq<Document>)
    requires |g.vals| == |g.cols|
    requires forall i :: 0 <= i < |runs| ==>
               GroupDocs(b, g, h(runs[i])) == if b(runs[i][0].ts) == g.bucket then h(runs[i]) else []
    ensures GroupDocs(b, g, FlatMap(runs, h)) == FlatMap(PickRuns(b, g.bucket, runs), h)
  {
    if runs != [] {
      var front, run := runs[..|runs| - 1], runs[|runs| - 1];
      GroupFlat(b, g, front, h);
      GroupConcat(b, g, FlatMap(front, h), h(run));
      FlatMapSnoc(PickRuns(b, g.bucket, front), run, h);
    }
  }

  lemma {:induction false} GroupFlatNone(b: Bucketing, g: Group, runs: seq<Run>, h: Run -> seq<Document>)
    requires |g.vals| == |g.cols|
    requires forall i :: 0 <= i < |runs| ==> GroupDocs(b, g, h(runs[i])) == []
    ensures GroupDocs(b, g, FlatMap(runs, h)) == []
  {
    if runs != [] {
      GroupFlatNone(b, g, runs[..|runs| - 1], h);
      GroupConcat(b, g, FlatMap(runs[..|runs| - 1], h), h(runs[|runs| - 1]));
    }
  }

  /** One or two documents that are both in the group or both out. */
  lemma GroupShort(b: Bucketing, g: Group, docs: seq<Document>)
    requires |g.vals| == |g.cols| && 1 <= |docs| <= 2
    requires InGroup(b, g, docs[0]) == InGroup(b, g, docs[|docs| - 1])
    ensures GroupDocs(b, g, docs) == if InGroup(b, g, docs[0]) then docs else []
  {
    GroupOne(b, g, docs[0]);
    if |docs| == 1 {
      assert docs == [docs[0]];
    } else {
      GroupOne(b, g, docs[1]);
      GroupConcat(b, g, [docs[0]], [docs[1]]);
      assert docs == [docs[0]] + [docs[1]];
    }
  }

  lemma GroupOne(b: Bucketing, g: Group, doc: Document)
    requires |g.vals| == |g.cols|
    ensures GroupDocs(b, g, [doc]) == if InGroup(b, g, doc) then [doc] else []
  {
    assert [doc][..0] == [];
  }

  lemma DocsGroup(b: Bucketing, g: Group, plan: Plan, st: Stream, p: TsPartial)
    requires ValidGroup(g) && Bucketed(b, p)
    ensures GroupDocs(b, g, DocsOf(plan, st, p)) ==
            if ColsMatch(g, st.labels) && p.bucketTs == g.bucket then DocsOf(plan, st, p) else []
  {
    DocInGroup(b, g, plan, st, p);
    GroupShort(b, g, DocsOf(plan, st, p));
  }

  lemma RunGroup(b: Bucketing, g: Group, plan: Plan, st: Stream, run: Run)
    requires ValidGroup(g) && OneBucket(b, run)
    ensures var docs := RunDocs(b, plan, st)(run);
            GroupDocs(b, g, docs) == if ColsMatch(g, st.labels) && b(run[0].ts) == g.bucket then docs else []
  {
    DocsGroup(b, g, plan, st, Summary(b, run));
  }

  lemma MapConcat(a: seq<Run>, c: seq<Run>, f: Run -> Sample)
    ensures FloatCells(Map(a + c, f)) == FloatCells(Map(a, f)) + FloatCells(Map(c, f))
  {
  }

  function CellOf(k: Kind): Run -> (I64, Value) {
    (r: Run) => (KindSample(k, r).ts, Float(KindSample(k, r).value))
  }

  function Cells1(runs: seq<Run>, w: Run -> (I64, Value)): Cells {
    if runs == [] then [] else Cells1(runs[..|runs| - 1], w) + [w(runs[|runs| - 1])]
  }

  /** A column over the documents of runs, when each run contributes one cell to it. */
  lemma {:induction false} ColumnFlat(c: string, runs: seq<Run>, h: Run -> seq<Document>, w: Run -> (I64, Value))
    requires forall i :: 0 <= i < |runs| ==> ColumnOf(c, h(runs[i])) == [w(runs[i])]
    ensures ColumnOf(c, FlatMap(runs, h)) == Cells1(runs, w)
  {
    if runs != [] {
      ColumnFlat(c, runs[..|runs| - 1], h, w);
      ColumnConcat(c, FlatMap(runs[..|runs| - 1], h), h(runs[|runs| - 1]));
    }
  }

  lemma {:induction false} CellsAt(runs: seq<Run>, w: Run -> (I64, Value))
    ensures |Cells1(runs, w)| == |runs| && forall i :: 0 <= i < |runs| ==> Cells1(runs, w)[i] == w(runs[i])
  {
    if runs != [] { CellsAt(runs[..|runs| - 1], w); }
  }

  lemma CellsAreFloats(k: Kind, runs: seq<Run>)
    ensures Cells1(runs, CellOf(k)) == FloatCells(Map(runs, Of(k)))
  {
    CellsAt(runs, CellOf(k));
  }

  lemma {:induction false} ColumnFlatNone(c: string, runs: seq<Run>, h: Run -> seq<Document>)
    requires forall i :: 0 <= i < |runs| ==> ColumnOf(c, h(runs[i])) == []
    ensures ColumnOf(c, FlatMap(runs, h)) == []
  {
    if runs != [] {
      ColumnFlatNone(c, runs[..|runs| - 1], h);
      ColumnConcat(c, FlatMap(runs[..|runs| - 1], h), h(runs[|runs| - 1]));
    }
  }

  /** What a float column of a partial's documents holds. */
  function KindReading(k: Kind, p: TsPartial): Sample {
    match k
    case PMin => Sample(p.firstTs, p.min)
    case PMax => Sample(p.firstTs, p.max)
    case PFirst => Sample(p.firstTs, p.firstVal)
    case PLast => Sample(p.lastTs, p.lastVal)
    case _ => Sample(p.firstTs, p.sum)
  }

  lemma DocsColumn(plan: Plan, st: Stream, p: TsPartial, k: Kind, f: string)
    requires ValidStream(st) && f in plan.aggFields && '.' !in f && FoldKind(plan, k)
    ensures ColumnOf(Name(k, f), DocsOf(plan, st, p)) ==
            if st.field == f then [(KindReading(k, p).ts, Float(KindReading(k, p).value))] else []
  {
    FirstDocCells(plan, st, p, k, f);
    ColumnsFind(p, k);
    LastDocCells(st, p, k, f);
    ColumnShort(Name(k, f), DocsOf(plan, st, p));
  }

  lemma RunColumn(b: Bucketing, plan: Plan, st: Stream, run: Run, k: Kind, f: string)
    requires ValidStream(st) && f in plan.aggFields && '.' !in f && FoldKind(plan, k)
    ensures ColumnOf(Name(k, f), RunDocs(b, plan, st)(run)) ==
            if st.field == f then [CellOf(k)(run)] else []
  {
    DocsColumn(plan, st, Summary(b, run), k, f);
  }

  /** A float column of a stream's partial documents lists one sample per run. */
  lemma StreamColumn(b: Bucketing, plan: Plan, st: Stream, runs: seq<Run>, k: Kind, f: string)
    requires ValidStream(st) && f in plan.aggFields && '.' !in f && FoldKind(plan, k)
    ensures ColumnOf(Name(k, f), FlatMap(runs, RunDocs(b, plan, st))) ==
            if st.field == f then FloatCells(Map(runs, Of(k))) else []
  {
    var h, w, c := RunDocs(b, plan, st), CellOf(k), Name(k, f);
    forall i | 0 <= i < |runs| ensures ColumnOf(c, h(runs[i])) == if st.field == f then [w(runs[i])] else [] {
      RunColumn(b, plan, st, runs[i], k, f);
    }
    if st.field == f {
      ColumnFlat(c, runs, h, w);
      CellsAreFloats(k, runs);
    } else {
      ColumnFlatNone(c, runs, h);
    }
  }

  /** The count cells of a partial: its count for its own field, zero for another. */
  lemma DocsCount(plan: Plan, st: Stream, p: TsPartial, f: string)
    requires ValidStream(st) && f in plan.aggFields && '.' !in f && p.count <= MAX
    ensures ColumnOf(Name(PCnt, f), DocsOf(plan, st, p)) == [(p.firstTs, Int(if st.field == f then p.count else 0))]
  {
    FirstDocCount(plan, st, p, f);
    LastDocCells(st, p, PCnt, f);
    ColumnShort(Name(PCnt, f), DocsOf(plan, st, p));
    WrapSmall(p.count);
  }

  lemma WrapSmall(n: nat)
    requires n <= MAX
    ensures Wrap64(n) == n
  {
  }

  ghost predicate Counts(cells: Cells, n: nat) { AllInt(cells) && ExactSum(cells) == n }

  lemma CountsConcat(a: Cells, n: nat, b: Cells, m: nat)
    requires Counts(a, n) && Counts(b, m)
    ensures Counts(a + b, n + m)
  {
    ExactSumConcat(a, b);
  }

  lemma {:induction false} CountFlat(c: string, runs: seq<Run>, h: Run -> seq<Document>, own: bool)
    requires forall i :: 0 <= i < |runs| ==>
               ColumnOf(c, h(runs[i])) != [] && Counts(ColumnOf(c, h(runs[i])), if own then |runs[i]| else 0)
    ensures Counts(ColumnOf(c, FlatMap(runs, h)), if own then SumLengths(runs) else 0)
    ensures ColumnOf(c, FlatMap(runs, h)) == [] ==> runs == []
  {
    if runs != [] {
      var front, run := runs[..|runs| - 1], runs[|runs| - 1];
      CountFlat(c, front, h, own);
      ColumnConcat(c, FlatMap(front, h), h(run));
      CountsConcat(ColumnOf(c, FlatMap(front, h)), if own then SumLengths(front) else 0,
                   ColumnOf(c, h(run)), if own then |run| else 0);
    }
  }

  ghost predicate Small(runs: seq<Run>) { forall i :: 0 <= i < |runs| ==> |runs[i]| <= MAX }

  lemma StreamCount(b: Bucketing, plan: Plan, st: Stream, runs: seq<Run>, f: string)
    requires ValidStream(st) && f in plan.aggFields && '.' !in f && Small(runs)
    ensures var cells := ColumnOf(Name(PCnt, f), FlatMap(runs, RunDocs(b, plan, st)));
            Counts(cells, if st.field == f then SumLengths(runs) else 0) && (cells == [] ==> runs == [])
  {
    var h, c := RunDocs(b, plan, st), Name(PCnt, f);
    forall i | 0 <= i < |runs|
      ensures ColumnOf(c, h(runs[i])) != []
      ensures Counts(ColumnOf(c, h(runs[i])), if st.field == f then |runs[i]| else 0)
    {
      RunCounted(b, plan, st, runs[i], f);
    }
    CountFlat(c, runs, h, st.field == f);
  }

  lemma RunCounted(b: Bucketing, plan: Plan, st: Stream, run: Run, f: string)
    requires ValidStream(st) && f in plan.aggFields && '.' !in f && |run| <= MAX
    ensures var cells := ColumnOf(Name(PCnt, f), RunDocs(b, plan, st)(run));
            cells != [] && Counts(cells, if st.field == f then |run| else 0)
  {
    DocsCount(plan, st, Summary(b, run), f);
    assert ColumnOf(Name(PCnt, f), RunDocs(b, plan, st)(run))[..0] == [];
  }

  lemma {:induction false} RunsSmall(b: Bucketing, s: seq<Sample>)
    ensures forall i :: 0 <= i < |Runs(b, s)| ==> |Runs(b, s)[i]| <= |s|
  {
    if s != [] { RunsSmall(b, Front(s)); }
  }

  lemma {:induction false} PickSmall(b: Bucketing, bucket: int, runs: seq<Run>)
    requires Small(runs)
    ensures Small(PickRuns(b, bucket, runs))
  {
    if runs != [] { PickSmall(b, bucket, runs[..|runs| - 1]); }
  }

  lemma {:induction false} SumLengthsConcat(a: seq<Run>, b: seq<Run>)
    ensures SumLengths(a + b) == SumLengths(a) + SumLengths(b)
  {
    if b == [] {
      assert a + b == a;
    } else {
      assert (a + b)[..|a + b| - 1] == a + b[..|b| - 1];
      SumLengthsConcat(a, b[..|b| - 1]);
    }
  }

  lemma RunsGroup(b: Bucketing, g: Group, plan: Plan, st: Stream, runs: seq<Run>)
    requires ValidGroup(g) && Monotone(b) && ValidStream(st) && runs == Runs(b, st.samples)
    ensures forall i :: 0 <= i < |runs| ==>
              GroupDocs(b, g, RunDocs(b, plan, st)(runs[i])) ==
              if ColsMatch(g, st.labels) && b(runs[i][0].ts) == g.bucket then RunDocs(b, plan, st)(runs[i]) else []
  {
    if st.samples != [] { RunsAreBuckets(b, st.samples); }
    var h := RunDocs(b, plan, st);
    forall i | 0 <= i < |runs|
      ensures GroupDocs(b, g, h(runs[i])) ==
              if ColsMatch(g, st.labels) && b(runs[i][0].ts) == g.bucket then h(runs[i]) else []
    {
      RunGroup(b, g, plan, st, runs[i]);
    }
  }

  /** The group's documents of one stream are the documents of its runs in the group. */
  lemma StreamGroup(b: Bucketing, g: Group, plan: Plan, st: Stream)
    requires ValidGroup(g) && Monotone(b) && ValidStream(st)
    ensures GroupDocs(b, g, StreamDocs(plan, st, Summaries(b, Runs(b, st.samples)))) ==
            FlatMap(StreamRuns(b, g, st), RunDocs(b, plan, st))
  {
    var runs, h := Runs(b, st.samples), RunDocs(b, plan, st);
    StreamDocsFlat(b, plan, st, runs);
    RunsGroup(b, g, plan, st, runs);
    if ColsMatch(g, st.labels) { GroupFlat(b, g, runs, h); } else { GroupFlatNone(b, g, runs, h); }
  }

  ghost predicate ValidStreams(streams: seq<Stream>) {
    forall i :: 0 <= i < |streams| ==> ValidStream(streams[i])
  }

  /** A float column of the group's partial documents lists one sample per run of the field. */
  lemma {:induction false} PartialColumn(b: Bucketing, g: Group, plan: Plan, streams: seq<Stream>, k: Kind, f: string)
    requires ValidGroup(g) && Monotone(b) && ValidStreams(streams)
    requires f in plan.aggFields && '.' !in f && FoldKind(plan, k)
    ensures ColumnOf(Name(k, f), GroupDocs(b, g, PartialDocs(b, plan, streams))) ==
            FloatCells(Map(GroupRuns(b, g, f, streams), Of(k)))
  {
    if streams != [] {
      var front, st, c := streams[..|streams| - 1], streams[|streams| - 1], Name(k, f);
      var docs, more := PartialDocs(b, plan, front), StreamDocs(plan, st, Summaries(b, Runs(b, st.samples)));
      PartialColumn(b, g, plan, front, k, f);
      GroupConcat(b, g, docs, more);
      StreamGroup(b, g, plan, st);
      ColumnConcat(c, GroupDocs(b, g, docs), GroupDocs(b, g, more));
      StreamColumn(b, plan, st, StreamRuns(b, g, st), k, f);
      MapConcat(GroupRuns(b, g, f, front), StreamRuns(b, g, st), Of(k));
    }
  }

  /** A count column that adds up to the lengths of the runs, empty only if there are none. */
  ghost predicate Tallied(c: string, docs: seq<Document>, runs: seq<Run>) {
    Counts(ColumnOf(c, docs), SumLengths(runs)) && (ColumnOf(c, docs) == [] ==> runs == [])
  }

  lemma TalliedConcat(c: string, docs: seq<Document>, more: seq<Document>, runs: seq<Run>, mine: seq<Run>)
    requires Tallied(c, docs, runs) && Tallied(c, more, mine)
    ensures Tallied(c, docs + more, runs + mine)
  {
    ColumnConcat(c, docs, more);
    CountsConcat(ColumnOf(c, docs), SumLengths(runs), ColumnOf(c, more), SumLengths(mine));
    SumLengthsConcat(runs, mine);
  }

  lemma StreamTallied(b: Bucketing, g: Group, plan: Plan, st: Stream, f: string)
    requires ValidGroup(g) && Monotone(b) && ValidStream(st) && f in plan.aggFields && '.' !in f
    ensures Tallied(Name(PCnt, f), GroupDocs(b, g, StreamDocs(plan, st, Summaries(b, Runs(b, st.samples)))),
              if st.field == f then StreamRuns(b, g, st) else [])
  {
    StreamGroup(b, g, plan, st);
    RunsSmall(b, st.samples);
    PickSmall(b, g.bucket, Runs(b, st.samples));
    StreamCount(b, plan, st, StreamRuns(b, g, st), f);
  }

  lemma {:induction false} PartialCount(b: Bucketing, g: Group, plan: Plan, streams: seq<Stream>, f: string)
    requires ValidGroup(g) && Monotone(b) && ValidStreams(streams) && f in plan.aggFields && '.' !in f
    ensures Tallied(Name(PCnt, f), GroupDocs(b, g, PartialDocs(b, plan, streams)), GroupRuns(b, g, f, streams))
  {
    if streams != [] {
      var front, st := streams[..|streams| - 1], streams[|streams| - 1];
      var docs, more := PartialDocs(b, plan, front), StreamDocs(plan, st, Summaries(b, Runs(b, st.samples)));
      PartialCount(b, g, plan, front, f);
      GroupConcat(b, g, docs, more);
      StreamTallied(b, g, plan, st, f);
      TalliedConcat(Name(PCnt, f), GroupDocs(b, g, docs), GroupDocs(b, g, more), GroupRuns(b, g, f, front),
        if st.field == f then StreamRuns(b, g, st) else []);
      assert GroupRuns(b, g, f, front) + [] == GroupRuns(b, g, f, front);
    }
  }
}
