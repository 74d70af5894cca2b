/** Internode requests: one tag and a fixed list of fields per operation. */
module Requests {
  import opened Ast
  import opened ByteReaders
  import opened ExprCodec
  import opened Int64
  import opened Prelude

  /** The kinds of field a request carries; a list repeats a row of kinds. */
  datatype Kind =
    | KU32 | KU64 | KI64 | KFlag | KStr | KBlob | KOptBlob | KStamp | KFilter | KOptFilter | KList(row: seq<Kind>)

  /** Floats travel as their 32- or 64-bit patterns. */
  datatype Field<V> =
    | U32(n: nat) | U64(n: nat) | I64V(i: I64) | Flag(b: bool) | Str(s: seq<Byte>) | Blob(bytes: seq<Byte>)
    | OptBlob(opt: Option<seq<Byte>>) | Stamp(physical: nat, logical: nat) | Filter(e: WireExpr<V>)
    | OptFilter(f: Option<WireExpr<V>>) | List(rows: seq<Row<V>>)

  datatype Row<V> = Row(fields: seq<Field<V>>)

  datatype Op =
    | ApplyPut | ApplyDelete | LocalScan | ApplyDdl | Ping | LocalGet | IndexScan | VectorSearch | SetMembership
    | Rebalance | Drain | Reclaim | Repair | FilteredScan | SchemaDdl | Announce | NodeStatus | ApplyBatch | ScanPage
    | TsAppend | TsQuery | TsMerge | TsSummary | TsPartials | Search | SearchAgg | SearchSorted | SearchExplain
    | HostStats | SortedScan | RepairDigest | EntryRange | GidxReady | KeysPresent | GidxProduced | TableSeq
    | ScanSincePage | RepairSeq | DataBytes | TsSeriesSets | TsQueryPaged

  function Tag(op: Op): Byte {
    match op
    case ApplyPut => 1 case ApplyDelete => 2 case LocalScan => 3 case ApplyDdl => 4 case Ping => 5
    case LocalGet => 6 case IndexScan => 7 case VectorSearch => 8 case SetMembership => 9 case Rebalance => 10
    case Drain => 11 case Reclaim => 12 case Repair => 13 case FilteredScan => 14 case SchemaDdl => 15
    case Announce => 16 case NodeStatus => 17 case ApplyBatch => 18 case ScanPage => 19 case TsAppend => 20
    case TsQuery => 21 case TsMerge => 22 case TsSummary => 23 case TsPartials => 24 case Search => 25
    case SearchAgg => 26 case SearchSorted => 27 case SearchExplain => 28 case HostStats => 29
    case SortedScan => 30 case RepairDigest => 31 case EntryRange => 32 case GidxReady => 33
    case KeysPresent => 34 case GidxProduced => 35 case TableSeq => 36 case ScanSincePage => 37
    case RepairSeq => 38 case DataBytes => 39 case TsSeriesSets => 40 case TsQueryPaged => 41
  }

  function OpOf(tag: Byte): Option<Op> {
    match tag
    case 1 => Some(ApplyPut) case 2 => Some(ApplyDelete) case 3 => Some(LocalScan) case 4 => Some(ApplyDdl)
    case 5 => Some(Ping) case 6 => Some(LocalGet) case 7 => Some(IndexScan) case 8 => Some(VectorSearch)
    case 9 => Some(SetMembership) case 10 => Some(Rebalance) case 11 => Some(Drain) case 12 => Some(Reclaim)
    case 13 => Some(Repair) case 14 => Some(FilteredScan) case 15 => Some(SchemaDdl) case 16 => Some(Announce)
    case 17 => Some(NodeStatus) case 18 => Some(ApplyBatch) case 19 => Some(ScanPage) case 20 => Some(TsAppend)
    case 21 => Some(TsQuery) case 22 => Some(TsMerge) case 23 => Some(TsSummary) case 24 => Some(TsPartials)
    case 25 => Some(Search) case 26 => Some(SearchAgg) case 27 => Some(SearchSorted) case 28 => Some(SearchExplain)
    case 29 => Some(HostStats) case 30 => Some(SortedScan) case 31 => Some(RepairDigest) case 32 => Some(EntryRange)
    case 33 => Some(GidxReady) case 34 => Some(KeysPresent) case 35 => Some(GidxProduced) case 36 => Some(TableSeq)
    case 37 => Some(ScanSincePage) case 38 => Some(RepairSeq) case 39 => Some(DataBytes) case 40 => Some(TsSeriesSets)
    case 41 => Some(TsQueryPaged)
    case _ => None
  }

  lemma OpOfTag(op: Op)
    ensures OpOf(Tag(op)) == Some(op)
  {
  }

  /** The operations in the order of their tags, which grew with the protocol. */
  const IN_ORDER: seq<Op> :=
    [ApplyPut, ApplyDelete, LocalScan, ApplyDdl, Ping, LocalGet, IndexScan, VectorSearch, SetMembership, Rebalance,
     Drain, Reclaim, Repair, FilteredScan, SchemaDdl, Announce, NodeStatus, ApplyBatch, ScanPage, TsAppend,
     TsQuery, TsMerge, TsSummary, TsPartials, Search, SearchAgg, SearchSorted, SearchExplain, HostStats, SortedScan,
     RepairDigest, EntryRange, GidxReady, KeysPresent, GidxProduced, TableSeq, ScanSincePage, RepairSeq, DataBytes,
     TsSeriesSets, TsQueryPaged]

  /** Tags are 1 to 41 in that order, and any other byte is no request. */
  lemma TagsInOrder(b: Byte)
    ensures OpOf(b) == if 1 <= b <= 41 then Some(IN_ORDER[b - 1]) else None
  {
  }

  /** Any byte but zero is a set flag; an optional byte string is there only behind a one, an optional filter behind
      anything but zero. */
  lemma MarkerBytes<V>(c: Values<V>, b: Byte, rest: seq<Byte>)
    ensures ReadField(c, KFlag, [b] + rest) == Got(Flag(b != 0), rest)
    ensures b != 1 ==> ReadField(c, KOptBlob, [b] + rest) == Got(OptBlob(None), rest)
    ensures b == 0 <==> ReadField(c, KOptFilter, [b] + rest) == Got(OptFilter(None), rest)
  {
    assert ([b] + rest)[1..] == rest;
  }

  const PAIRS: Kind := KList([KStr, KStr])
  const MATCHERS: Kind := KList([KFlag, KStr, KStr])
  const SAMPLES: Kind := KList([PAIRS, KI64, KU64])
  const ROWS: Kind := KList([KBlob, KBlob, KStamp, KFlag])
  const KEYS: Kind := KList([KBlob])

  /** The fields of each operation, in wire order. */
  function Schema(op: Op): seq<Kind> {
    match op
    case ApplyPut => [KStr, KBlob, KBlob, KStamp]
    case ApplyDelete => [KStr, KBlob, KStamp]
    case ApplyBatch => [KStr, ROWS]
    case LocalScan => [KStr]
    case ScanPage => [KStr, KOptBlob, KU32]
    case RepairSeq => []
    case TableSeq => [KStr]
    case ScanSincePage => [KStr, KU64, KOptBlob, KU32]
    case TsAppend => [KStr, SAMPLES]
    case TsQuery => [KStr, MATCHERS, KI64, KI64]
    case TsQueryPaged => [KStr, MATCHERS, KI64, KI64, KU32]
    case TsSeriesSets => [KStr, MATCHERS]
    case TsMerge => [KStr, SAMPLES]
    case TsSummary => [KStr]
    case TsPartials => [KStr, MATCHERS, KI64, KI64, KI64]
    case FilteredScan => [KStr, KFilter]
    case LocalGet => [KStr, KBlob]
    case IndexScan => [KStr, KOptBlob, KOptBlob]
    case SortedScan => [KStr, KOptFilter, KStr, KFlag, KU32]
    case RepairDigest => [KStr, KStr]
    case EntryRange => [KStr, KBlob, KBlob, KU32]
    case GidxReady => [KStr]
    case KeysPresent => [KStr, KEYS]
    case GidxProduced => [KStr, KEYS]
    case VectorSearch => [KStr, KList([KU32]), KU32]
    case Search => [KStr, KStr, KU32]
    case SearchAgg => [KStr, KStr, KStr, KU64]
    case SearchSorted => [KStr, KStr, KStr, KU32, KList([KStr, KU32]), KU64]
    case SearchExplain => [KStr, KStr, KBlob]
    case ApplyDdl => [KStr, KStr, KStamp]
    case SetMembership => [KU64, PAIRS, PAIRS]
    case Rebalance => [KStr]
    case Drain => [PAIRS]
    case Reclaim => []
    case Repair => []
    case SchemaDdl => []
    case Ping => []
    case Announce => [KStr, KStr, KU32]
    case NodeStatus => []
    case HostStats => []
    case DataBytes => []
  }

  // Signed and big-endian numbers.

  const TWO64: nat := 0x1_0000_0000_0000_0000

  /** Two's complement. */
  function Pattern(i: I64): nat { if i < 0 then i + TWO64 else i }

  function Signed(n: nat): I64
    requires n < TWO64
  {
    if n > MAX then n - TWO64 else n
  }

  /** A stamp's twelve bytes, both parts big-endian. */
  function PutStamp(physical: nat, logical: nat): seq<Byte> { Be(8, physical) + Be(4, logical) }

  // Fields.

  function WriteField<V>(c: Values<V>, f: Field<V>): seq<Byte> {
    match f
    case U32(n) => Le(4, n)
    case U64(n) => Le(8, n)
    case I64V(i) => Le(8, Pattern(i))
    case Flag(b) => [ExprCodec.Flag(b)]
    case Str(s) => PutBytes(s)
    case Blob(b) => PutBytes(b)
    case OptBlob(None) => [0]
    case OptBlob(Some(b)) => [1] + PutBytes(b)
    case Stamp(p, l) => PutStamp(p, l)
    case Filter(e) => WriteExpr(c, e)
    case OptFilter(None) => [0]
    case OptFilter(Some(e)) => [1] + WriteExpr(c, e)
    case List(rows) => Le(4, |rows|) + WriteRows(c, rows)
  }

  function WriteFields<V>(c: Values<V>, fs: seq<Field<V>>): seq<Byte> {
    if fs == [] then [] else WriteField(c, fs[0]) + WriteFields(c, fs[1..])
  }

  function WriteRows<V>(c: Values<V>, rows: seq<Row<V>>): seq<Byte> {
    if rows == [] then [] else WriteFields(c, rows[0].fields) + WriteRows(c, rows[1..])
  }

  function ReadField<V>(c: Values<V>, k: Kind, data: seq<Byte>): Parse<Field<V>>
    decreases k, 0
  {
    match k
    case KU32 => if |data| < 4 then Bad else Got(U32(FromLe(data[..4])), data[4..])
    case KU64 => if |data| < 8 then Bad else Got(U64(FromLe(data[..8])), data[8..])
    case KI64 => ReadSigned(data)
    case KFlag => if data == [] then Bad else Got(Flag(data[0] != 0), data[1..])
    case KStr => ReadStr(c, data)
    case KBlob => (match GetBytes(data) case Bad => Bad case Got(b, rest) => Got(Blob(b), rest))
    case KOptBlob => ReadOptBlob(data)
    case KStamp => ReadStamp(data)
    case KFilter => (match ReadExpr(c, data) case Bad => Bad case Got(e, rest) => Got(Filter(e), rest))
    case KOptFilter => ReadOptFilter(c, data)
    case KList(row) =>
      if |data| < 4 then Bad
      else match ReadRows(c, row, FromLe(data[..4]), data[4..])
        case Bad => Bad
        case Got(rows, rest) => Got(List(rows), rest)
  }

  function ReadSigned<V>(data: seq<Byte>): Parse<Field<V>> {
    if |data| < 8 then Bad
    else
      var n := FromLe(data[..8]);
      assert Pow256(8) == TWO64;
      Got(I64V(Signed(n)), data[8..])
  }

  function ReadStr<V>(c: Values<V>, data: seq<Byte>): Parse<Field<V>> {
    match GetBytes(data)
    case Bad => Bad
    case Got(b, rest) => if c.utf8(b) then Got(Str(b), rest) else Bad
  }

  function ReadOptBlob<V>(data: seq<Byte>): Parse<Field<V>> {
    if data == [] then Bad
    else if data[0] != 1 then Got(OptBlob(None), data[1..])
    else match GetBytes(data[1..])
      case Bad => Bad
      case Got(b, rest) => Got(OptBlob(Some(b)), rest)
  }

  function ReadStamp<V>(data: seq<Byte>): Parse<Field<V>> {
    if |data| < 12 then Bad
    else Got(Stamp(FromBe(data[..8]), FromBe(data[8..12])), data[12..])
  }

  function ReadOptFilter<V>(c: Values<V>, data: seq<Byte>): Parse<Field<V>> {
    if data == [] then Bad
    else if data[0] == 0 then Got(OptFilter(None), data[1..])
    else match ReadExpr(c, data[1..])
      case Bad => Bad
      case Got(e, rest) => Got(OptFilter(Some(e)), rest)
  }

  function ReadFields<V>(c: Values<V>, ks: seq<Kind>, data: seq<Byte>): Parse<seq<Field<V>>>
    decreases ks, 0
  {
    if ks == [] then Got([], data)
    else match ReadField(c, ks[0], data)
      case Bad => Bad
      case Got(f, rest) =>
        match ReadFields(c, ks[1..], rest)
        case Bad => Bad
        case Got(fs, rest) => Got([f] + fs, rest)
  }

  function ReadRows<V>(c: Values<V>, row: seq<Kind>, n: nat, data: seq<Byte>): Parse<seq<Row<V>>>
    decreases row, 1, n
  {
    if n == 0 then Got([], data)
    else match ReadFields(c, row, data)
      case Bad => Bad
      case Got(fs, rest) =>
        match ReadRows(c, row, n - 1, rest)
        case Bad => Bad
        case Got(rows, rest) => Got([Row(fs)] + rows, rest)
  }

  // Which fields fit a kind, and which hold only filters that can be pushed.

  ghost predicate FieldFits<V>(c: Values<V>, k: Kind, f: Field<V>)
    decreases k, 0
  {
    match (k, f)
    case (KU32, U32(n)) => n < Pow256(4)
    case (KU64, U64(n)) => n < Pow256(8)
    case (KI64, I64V(_)) => true
    case (KFlag, Flag(_)) => true
    case (KStr, Str(s)) => c.utf8(s) && |s| < Pow256(4)
    case (KBlob, Blob(b)) => |b| < Pow256(4)
    case (KOptBlob, OptBlob(b)) => b.Some? ==> |b.value| < Pow256(4)
    case (KStamp, Stamp(p, l)) => p < Pow256(8) && l < Pow256(4)
    case (KFilter, Filter(e)) => Fits(c, e)
    case (KOptFilter, OptFilter(e)) => e.Some? ==> Fits(c, e.value)
    case (KList(row), List(rows)) => |rows| < Pow256(4) && RowsFit(c, row, rows)
    case _ => false
  }

  ghost predicate FieldsFit<V>(c: Values<V>, ks: seq<Kind>, fs: seq<Field<V>>)
    decreases ks, 0
  {
    if ks == [] then fs == []
    else fs != [] && FieldFits(c, ks[0], fs[0]) && FieldsFit(c, ks[1..], fs[1..])
  }

  ghost predicate RowsFit<V>(c: Values<V>, row: seq<Kind>, rows: seq<Row<V>>)
    decreases row, 1, rows
  {
    rows == [] || (FieldsFit(c, row, rows[0].fields) && RowsFit(c, row, rows[1..]))
  }

  predicate FieldPushable<V>(f: Field<V>) {
    match f
    case Filter(e) => Pushable(e)
    case OptFilter(Some(e)) => Pushable(e)
    case List(rows) => RowsPushable(rows)
    case _ => true
  }

  predicate FieldsPushable<V>(fs: seq<Field<V>>) { fs == [] || (FieldPushable(fs[0]) && FieldsPushable(fs[1..])) }

  predicate RowsPushable<V>(rows: seq<Row<V>>) {
    rows == [] || (FieldsPushable(rows[0].fields) && RowsPushable(rows[1..]))
  }

  // Field round trips: back with anything behind it, or a failure.

  ghost predicate FieldReads<V>(c: Values<V>, k: Kind, bytes: seq<Byte>, f: Field<V>, ok: bool) {
    forall rest: seq<Byte> :: FieldReadsAt(c, k, bytes, f, ok, rest)
  }

  ghost predicate FieldReadsAt<V>(c: Values<V>, k: Kind, bytes: seq<Byte>, f: Field<V>, ok: bool, rest: seq<Byte>) {
    ReadField(c, k, bytes + rest) == Outcome(ok, f, rest)
  }

  lemma TakeFront(a: seq<Byte>, rest: seq<Byte>)
    ensures (a + rest)[..|a|] == a && (a + rest)[|a|..] == rest
  {
  }

  lemma NumberBack<V>(c: Values<V>, k: Kind, f: Field<V>)
    requires FieldFits(c, k, f) && (k.KU32? || k.KU64? || k.KI64?)
    ensures FieldReads(c, k, WriteField(c, f), f, true)
  {
    forall rest: seq<Byte> ensures FieldReadsAt(c, k, WriteField(c, f), f, true, rest) {
      TakeFront(WriteField(c, f), rest);
      match f
      case U32(n) => LeRoundTrip(4, n);
      case U64(n) => LeRoundTrip(8, n);
      case I64V(i) => SignedBack(i);
      case _ =>
    }
  }

  lemma SignedBack(i: I64)
    ensures FromLe(Le(8, Pattern(i))) == Pattern(i) && Pattern(i) < TWO64 && Signed(Pattern(i)) == i
  {
    assert Pow256(8) == TWO64;
    LeRoundTrip(8, Pattern(i));
  }

  lemma TextBack<V>(c: Values<V>, k: Kind, f: Field<V>)
    requires FieldFits(c, k, f) && (k.KStr? || k.KBlob? || k.KFlag?)
    ensures FieldReads(c, k, WriteField(c, f), f, true)
  {
    forall rest: seq<Byte> ensures FieldReadsAt(c, k, WriteField(c, f), f, true, rest) {
      match f
      case Str(b) => BytesBack(b, rest);
      case Blob(b) => BytesBack(b, rest);
      case Flag(b) => TakeFront([ExprCodec.Flag(b)], rest);
      case _ =>
    }
  }

  lemma OptBlobBack<V>(c: Values<V>, o: Option<seq<Byte>>)
    requires o.Some? ==> |o.value| < Pow256(4)
    ensures FieldReads(c, KOptBlob, WriteField(c, OptBlob(o)), OptBlob(o), true)
  {
    forall rest: seq<Byte> ensures FieldReadsAt(c, KOptBlob, WriteField(c, OptBlob(o)), OptBlob(o), true, rest) {
      if o.Some? {
        Head(1, PutBytes(o.value), rest);
        BytesBack(o.value, rest);
      } else {
        TakeFront([0], rest);
      }
    }
  }

  lemma StampBack<V>(c: Values<V>, p: nat, l: nat)
    requires p < Pow256(8) && l < Pow256(4)
    ensures FieldReads(c, KStamp, WriteField(c, Stamp(p, l)), Stamp(p, l), true)
  {
    forall rest: seq<Byte> ensures FieldReadsAt(c, KStamp, WriteField(c, Stamp(p, l)), Stamp(p, l), true, rest) {
      var a, b := Be(8, p), Be(4, l);
      var data := (a + b) + rest;
      assert data[..8] == a && data[8..12] == b && data[12..] == rest;
      BeRoundTrip(8, p);
      BeRoundTrip(4, l);
    }
  }

  lemma FilterBack<V>(c: Values<V>, e: WireExpr<V>, x: seq<Byte>, ok: bool)
    requires Reads(c, x, e, ok)
    ensures FieldReads(c, KFilter, x, Filter(e), ok)
  {
    forall rest: seq<Byte> ensures FieldReadsAt(c, KFilter, x, Filter(e), ok, rest) {
      assert ReadsAt(c, x, e, ok, rest);
    }
  }

  lemma OptFilterBack<V>(c: Values<V>, e: WireExpr<V>, x: seq<Byte>, ok: bool)
    requires Reads(c, x, e, ok)
    ensures FieldReads(c, KOptFilter, [1] + x, OptFilter(Some(e)), ok)
  {
    forall rest: seq<Byte> ensures FieldReadsAt(c, KOptFilter, [1] + x, OptFilter(Some(e)), ok, rest) {
      Head(1, x, rest);
      assert ReadsAt(c, x, e, ok, rest);
    }
  }

  lemma NoFilterBack<V>(c: Values<V>)
    ensures FieldReads(c, KOptFilter, [0], OptFilter(None), true)
  {
    forall rest: seq<Byte> ensures FieldReadsAt(c, KOptFilter, [0], OptFilter(None), true, rest) {
      TakeFront([0], rest);
    }
  }

  lemma {:induction false} FieldBack<V>(c: Values<V>, k: Kind, f: Field<V>)
    requires FieldFits(c, k, f)
    ensures FieldReads(c, k, WriteField(c, f), f, FieldPushable(f))
    decreases k, 0
  {
    match k
    case KU32 => NumberBack(c, k, f);
    case KU64 => NumberBack(c, k, f);
    case KI64 => NumberBack(c, k, f);
    case KFlag => TextBack(c, k, f);
    case KStr => TextBack(c, k, f);
    case KBlob => TextBack(c, k, f);
    case KOptBlob => OptBlobBack(c, f.opt);
    case KStamp => StampBack(c, f.physical, f.logical);
    case KFilter =>
      ExprDecodes(c, f.e);
      FilterBack(c, f.e, WriteExpr(c, f.e), Pushable(f.e));
    case KOptFilter =>
      if f.f.Some? {
        ExprDecodes(c, f.f.value);
        OptFilterBack(c, f.f.value, WriteExpr(c, f.f.value), Pushable(f.f.value));
      } else {
        NoFilterBack(c);
      }
    case KList(row) =>
      RowsBack(c, row, f.rows);
      LeRoundTrip(4, |f.rows|);
      ListBack(c, row, f.rows, Le(4, |f.rows|), WriteRows(c, f.rows), RowsPushable(f.rows));
  }

  ghost predicate RowsRead<V>(c: Values<V>, row: seq<Kind>, bytes: seq<Byte>, rows: seq<Row<V>>, ok: bool) {
    forall rest: seq<Byte> :: RowsReadAt(c, row, bytes, rows, ok, rest)
  }

  ghost predicate RowsReadAt<V>(c: Values<V>, row: seq<Kind>, bytes: seq<Byte>, rows: seq<Row<V>>, ok: bool,
                                rest: seq<Byte>) {
    ReadRows(c, row, |rows|, bytes + rest) == Outcome(ok, rows, rest)
  }

  lemma ListBack<V>(c: Values<V>, row: seq<Kind>, rows: seq<Row<V>>, n: seq<Byte>, body: seq<Byte>, ok: bool)
    requires RowsRead(c, row, body, rows, ok) && |n| == 4 && FromLe(n) == |rows|
    ensures FieldReads(c, KList(row), n + body, List(rows), ok)
  {
    forall rest: seq<Byte> ensures FieldReadsAt(c, KList(row), n + body, List(rows), ok, rest) {
      Assoc(n, body, rest);
      TakeFront(n, body + rest);
      assert RowsReadAt(c, row, body, rows, ok, rest);
    }
  }

  ghost predicate FieldsRead<V>(c: Values<V>, ks: seq<Kind>, bytes: seq<Byte>, fs: seq<Field<V>>, ok: bool) {
    forall rest: seq<Byte> :: FieldsReadAt(c, ks, bytes, fs, ok, rest)
  }

  ghost predicate FieldsReadAt<V>(c: Values<V>, ks: seq<Kind>, bytes: seq<Byte>, fs: seq<Field<V>>, ok: bool,
                                  rest: seq<Byte>) {
    ReadFields(c, ks, bytes + rest) == Outcome(ok, fs, rest)
  }

  lemma {:induction false} FieldsBack<V>(c: Values<V>, ks: seq<Kind>, fs: seq<Field<V>>)
    requires FieldsFit(c, ks, fs)
    ensures FieldsRead(c, ks, WriteFields(c, fs), fs, FieldsPushable(fs))
    decreases ks, 0
  {
    if ks == [] {
      forall rest: seq<Byte> ensures FieldsReadAt(c, ks, WriteFields(c, fs), fs, true, rest) {
        assert [] + rest == rest;
      }
    } else {
      FieldBack(c, ks[0], fs[0]);
      FieldsBack(c, ks[1..], fs[1..]);
      FieldsConsBack(c, ks, fs, WriteField(c, fs[0]), WriteFields(c, fs[1..]), FieldPushable(fs[0]),
        FieldsPushable(fs[1..]));
    }
  }

  lemma FieldsConsBack<V>(c: Values<V>, ks: seq<Kind>, fs: seq<Field<V>>, a: seq<Byte>, b: seq<Byte>, pa: bool,
                          pb: bool)
    requires ks != [] && fs != [] && FieldReads(c, ks[0], a, fs[0], pa) && FieldsRead(c, ks[1..], b, fs[1..], pb)
    ensures FieldsRead(c, ks, a + b, fs, pa && pb)
  {
    var ok := pa && pb;
    forall rest: seq<Byte> ensures FieldsReadAt(c, ks, a + b, fs, ok, rest) {
      Assoc(a, b, rest);
      assert FieldReadsAt(c, ks[0], a, fs[0], pa, b + rest);
      assert FieldsReadAt(c, ks[1..], b, fs[1..], pb, rest);
      assert [fs[0]] + fs[1..] == fs;
    }
  }

  lemma {:induction false} RowsBack<V>(c: Values<V>, row: seq<Kind>, rows: seq<Row<V>>)
    requires RowsFit(c, row, rows)
    ensures RowsRead(c, row, WriteRows(c, rows), rows, RowsPushable(rows))
    decreases row, 1, rows
  {
    if rows == [] {
      forall rest: seq<Byte> ensures RowsReadAt(c, row, WriteRows(c, rows), rows, true, rest) {
        assert [] + rest == rest;
      }
    } else {
      var fs := rows[0].fields;
      FieldsBack(c, row, fs);
      RowsBack(c, row, rows[1..]);
      RowsConsBack(c, row, rows, WriteFields(c, fs), WriteRows(c, rows[1..]), FieldsPushable(fs),
        RowsPushable(rows[1..]));
    }
  }

  lemma RowsConsBack<V>(c: Values<V>, row: seq<Kind>, rows: seq<Row<V>>, a: seq<Byte>, b: seq<Byte>, pa: bool, pb: bool)
    requires rows != [] && FieldsRead(c, row, a, rows[0].fields, pa) && RowsRead(c, row, b, rows[1..], pb)
    ensures RowsRead(c, row, a + b, rows, pa && pb)
  {
    var ok := pa && pb;
    forall rest: seq<Byte> ensures RowsReadAt(c, row, a + b, rows, ok, rest) {
      Assoc(a, b, rest);
      assert FieldsReadAt(c, row, a, rows[0].fields, pa, b + rest);
      assert RowsReadAt(c, row, b, rows[1..], pb, rest);
      assert [rows[0]] + rows[1..] == rows;
    }
  }

  // Whole requests.

  datatype Request<V> = Request(op: Op, fields: seq<Field<V>>)

  function Encode<V>(c: Values<V>, r: Request<V>): seq<Byte> { [Tag(r.op)] + WriteFields(c, r.fields) }

  function Decode<V>(c: Values<V>, data: seq<Byte>): Parse<Request<V>> {
    if data == [] || OpOf(data[0]).None? then Bad
    else
      var op := OpOf(data[0]).value;
      match ReadFields(c, Schema(op), data[1..])
      case Bad => Bad
      case Got(fs, rest) => Got(Request(op, fs), rest)
  }

  /** For every request that fits the wire, decoding its encoding gives it back with any trailing bytes left over,
      and fails exactly when it carries a filter that cannot be pushed. */
  lemma RequestRoundTrip<V>(c: Values<V>, r: Request<V>, rest: seq<Byte>)
    requires FieldsFit(c, Schema(r.op), r.fields)
    ensures Decode(c, Encode(c, r) + rest) == Outcome(FieldsPushable(r.fields), r, rest)
  {
    OpOfTag(r.op);
    FieldsBack(c, Schema(r.op), r.fields);
    RequestRead(c, r, Schema(r.op), WriteFields(c, r.fields), FieldsPushable(r.fields), rest);
  }

  lemma RequestRead<V>(c: Values<V>, r: Request<V>, ks: seq<Kind>, body: seq<Byte>, ok: bool, rest: seq<Byte>)
    requires ks == Schema(r.op) && FieldsRead(c, ks, body, r.fields, ok) && OpOf(Tag(r.op)) == Some(r.op)
    ensures Decode(c, ([Tag(r.op)] + body) + rest) == Outcome(ok, r, rest)
  {
    Head(Tag(r.op), body, rest);
    assert FieldsReadAt(c, ks, body, r.fields, ok, rest);
  }

  // Bytes that are not encodings: a successful read does not depend on what follows.

  lemma {:induction false} FieldExtends<V>(c: Values<V>, k: Kind, data: seq<Byte>, more: seq<Byte>)
    requires ReadField(c, k, data).Got?
    ensures ReadField(c, k, data + more) == Longer(ReadField(c, k, data), more)
    decreases k, 0
  {
    match k
    case KU32 => FrontExtends(data, more, 4);
    case KU64 => FrontExtends(data, more, 8);
    case KI64 => FrontExtends(data, more, 8);
    case KFlag => FrontExtends(data, more, 1);
    case KStr => BytesExtend(data, more);
    case KBlob => BytesExtend(data, more);
    case KOptBlob =>
      FrontExtends(data, more, 1);
      if data[0] == 1 { BytesExtend(data[1..], more); }
    case KStamp =>
      FrontExtends(data, more, 8);
      FrontExtends(data, more, 12);
      assert (data + more)[8..12] == data[8..12];
    case KFilter => ExprExtends(c, data, more);
    case KOptFilter =>
      FrontExtends(data, more, 1);
      if data[0] != 0 { ExprExtends(c, data[1..], more); }
    case KList(row) =>
      FrontExtends(data, more, 4);
      RowsExtend(c, row, FromLe(data[..4]), data[4..], more);
  }

  lemma FrontExtends(data: seq<Byte>, more: seq<Byte>, n: nat)
    requires n <= |data|
    ensures (data + more)[..n] == data[..n] && (data + more)[n..] == data[n..] + more
  {
  }

  lemma {:induction false} FieldsExtend<V>(c: Values<V>, ks: seq<Kind>, data: seq<Byte>, more: seq<Byte>)
    requires ReadFields(c, ks, data).Got?
    ensures ReadFields(c, ks, data + more) == Longer(ReadFields(c, ks, data), more)
    decreases ks, 0
  {
    if ks != [] {
      FieldExtends(c, ks[0], data, more);
      FieldsExtend(c, ks[1..], ReadField(c, ks[0], data).rest, more);
    }
  }

  lemma {:induction false} RowsExtend<V>(c: Values<V>, row: seq<Kind>, n: nat, data: seq<Byte>, more: seq<Byte>)
    requires ReadRows(c, row, n, data).Got?
    ensures ReadRows(c, row, n, data + more) == Longer(ReadRows(c, row, n, data), more)
    decreases row, 1, n
  {
    if n > 0 {
      FieldsExtend(c, row, data, more);
      RowsExtend(c, row, n - 1, ReadFields(c, row, data).rest, more);
    }
  }

  function RequestReader<V>(c: Values<V>): Reader<Request<V>> { (data: seq<Byte>) => Decode(c, data) }

  lemma DecodeExtends<V>(c: Values<V>)
    ensures Extends(RequestReader(c))
  {
    forall data: seq<Byte>, more: seq<Byte> | RequestReader(c)(data).Got?
      ensures RequestReader(c)(data + more) == Longer(RequestReader(c)(data), more)
    {
      FrontExtends(data, more, 1);
      FieldsExtend(c, Schema(OpOf(data[0]).value), data[1..], more);
    }
  }

  /** A request cut short anywhere fails to decode. */
  lemma TruncatedRequestFails<V>(c: Values<V>, r: Request<V>, k: nat)
    requires FieldsFit(c, Schema(r.op), r.fields) && FieldsPushable(r.fields) && k < |Encode(c, r)|
    ensures Decode(c, Encode(c, r)[..k]) == Bad
  {
    RequestRoundTrip(c, r, []);
    assert Encode(c, r) + [] == Encode(c, r);
    DecodeExtends(c);
    TruncationFails(RequestReader(c), Encode(c, r), r, k);
  }
}
