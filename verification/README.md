# skaidb in Dafny

A model of the parts of skaidb where a wrong branch silently loses or invents data, with proofs of what those
parts promise. skaidb is a distributed document, time-series and vector database written in Rust.

What is modelled, one Dafny module per file:

- **Time-series reads.** A WHERE clause is pushed down as a time range and label matchers (`Pushdown`), rows are
  gathered by walking slices from an anchor (`SliceWalk`, `RowOrder`), and both together answer the statement
  (`TsSelect`). Underneath is the expression evaluator (`Evaluator`, `Like`), whose three-valued logic, comparisons
  and arithmetic have laws of their own (`SqlLogic`, `SqlValues`, `LikePieces`).
- **Partial aggregates.** Series are summarised per bucket (`Samples`, `Buckets`), the summaries become documents with
  hidden columns (`Partials`), aggregates are rewritten onto those columns (`Rewrite`, `Aggregates`), and the result
  is compared with grouping the raw rows (`GatherMerge`, `RawGroups`, `PartialPlan`), counter changes included
  (`CounterChange`). `AggregateLaws` says what the aggregates mean, `Planner` which statements take this path. Old
  data comes from rollup tables (`Rollup`) spliced to the newer raw data (`RollupSplice`). A WHERE the pushdown
  consumes narrows the streams (`FilteredRows`), and a whole grouped query over both tiers answers as over the
  filtered raw rows (`TierPieces`, `TieredQuery`, `PieceOrder`).
- **Vector index.** A layered proximity graph: beam search (`HnswSearch`), diverse neighbour selection (`HnswSelect`),
  linking and trimming (`HnswLinks`, `HnswPrune`), insert, replace, delete and filtered search (`HnswIndex`), and its
  snapshot file (`HnswSnapshot`), over the invariant in `HnswGraph`.
- **Cluster.** The hash ring and primary arcs (`HashRing`, `RingArcs`), quorums and last-writer-wins merging
  (`QuorumRules`), the wire format of filters, requests and frames (`ExprCodec`, `WireCursor`, `Requests`, `Frames`,
  `ByteReaders`) up to a request delivered to a peer (`Internode`), and the connection pool with its circuit breaker
  as a transition system over interleaved calls (`PeerPool`, `PoolRetry`, `PoolLeaks`).
- **Geo index.** Z-order codes as numbers and as machine words (`Morton`, `MortonBits`), the budgeted quadtree cover
  (`GeoCover`), range merging and scan bytes (`GeoRanges`), and the bounding-box plan (`GeoPlan`).
- **Time text** (`Civil`, `Iso8601`, `CalendarLaws`) and **role-based access** (`Rbac`).

Objects the program updates in place are classes (`Narrowing`, `Hnsw`, `Ring`, `RoleStore`, `Cur`, `Conn`, `Pool`);
loops are methods with invariants, each proved against a specification function whose own properties are lemmas;
the rest is functions and lemmas. Hashes, distances, float arithmetic, compression, text validity, value encoding,
random levels and the clock are parameters, arbitrary unless a lemma says otherwise.

`dafny verify dfyconfig.toml` checks the project.

## Where the code does not keep a promise

Each of these is a lemma with the exact condition, or a concrete input, and the model follows the code.

- A fractional time constant loses rows: `ts < 5.5` is pushed as `ts <= 4` (`FractionalBoundLosesRow`); the pushed
  bound is sound exactly for the constants of `TsBoundSoundIff`, and exact for those of `TsBoundExactIff`.
- BETWEEN is announced as `>=` AND `<=` but evaluates both bounds first, so a failing upper bound fails it where the
  AND would have stopped at FALSE (`BetweenIs`).
- A slice walk anchored away from the pushed range also meets rows outside it: `ts > -5.5` pushes `ts >= -4`, and a
  walk from a frontier of -10 returns the row at -5 that a gather of the range misses (`StrayRowReached`). Pages are
  those of the full gather, for all rows, exactly when the anchor lies no further than just outside the range
  (`WalkMatchesGatherIff`).
- A tiered read over a range whose ends are inside a rollup bucket drops that bucket (`TakesExactlyIff`,
  `UnalignedStartLoses`), and FIRST or LAST across several series is decided by bucket starts (`EndsTie`).
- RATE, INCREASE and DELTA over raw rows merge series whose labels give the same tag (`TagShared`,
  `SharedTagMerges`); partials do not.
- Adding and removing a ring node restores the ring only if no token was shared (`AddRemoveRestoresIff`,
  `SharedTokenLost`).
- The primary arcs of a sole member claim the whole space even when all its tokens were overwritten (`PrimaryArcs`,
  `LoneMemberClaims`).
- Merging documents depends on the order of copies with equal stamps that differ (`MergeOrderIff`,
  `EqualStampsDisagree`).
- Formatted timestamps of years before 0 or after 9999 do not parse back (`RoundTrip`).

## Model

| member | source | states |
|---|---|---|
| `SliceWalk.TakeSlice` | crates/skaidb-engine/src/ts_query.rs:319-333 | one slice adds exactly the rows of its window, keeps the rows in hand listed with ties in series order, and sets the next width: four times wider (saturating) after an empty slice, one minute after data; it fails exactly when the window holds a row the filter fails on |
| `SliceWalk.WalkBack` | crates/skaidb-engine/src/ts_query.rs:317-345 | the backward walk ends with the edge rows and all rows of a suffix of the range; if any row is left below the cut, the target is met, and the last slice was only gathered because the rows before it did not meet it; it succeeds only with no failing row gathered and fails only with one in the range |
| `SliceWalk.WalkForward` | crates/skaidb-engine/src/ts_query.rs:317-345 | the mirror image for the forward walk |
| `SliceWalk.Walk` | crates/skaidb-engine/src/ts_query.rs:253-345 | for any anchor (exact, stale or wall clock) the rows in hand all precede the rows left, together they are every row the walk can reach, and rows are left only once LIMIT + OFFSET are in hand; an answer stops short of every row the filter fails on, and a failure means there is one |
| `SliceWalk.EnoughRowsSamePage` | crates/skaidb-engine/src/ts_query.rs:233-244 | rows in hand that precede everything left, and number at least LIMIT + OFFSET, give the page of the full listing |
| `SliceWalk.DropTakeIs` | crates/skaidb-engine/src/ts_query.rs:233-244 | row i of a page is row OFFSET + i of the listing, and there is one exactly below the limit and the end |
| `SliceWalk.PageInTimeOrder` | crates/skaidb-engine/src/ts_query.rs:233-244 | an ORDER BY ts page runs forward or backward in time, rows of one time in series order |
| `SliceWalk.SelectRows` | crates/skaidb-engine/src/ts_query.rs:245-353 | the row-returning tail answers the query over what it can reach: exact page in ts order, or for a bare LIMIT a correctly sized selection of matching rows; queries that cannot walk take the full gather and fail exactly when the filter fails on a row of the range; a walk fails only if it does on a row within reach |
| `SliceWalk.WalksWhen` | crates/skaidb-engine/src/ts_query.rs:245-287 | which queries walk and from where: plain ones with a LIMIT that asks for a row, ordered by ts or not at all, from the newest end unless ascending, when that end is bounded or known |
| `SliceWalk.WalkMatchesGatherIff` | crates/skaidb-engine/src/ts_query.rs:276-313 | the walk gives the pages of the full-range gather for all rows, limits and offsets if and only if the anchor lies no further than just outside the pushed range |
| `SliceWalk.InRangeReach` | crates/skaidb-engine/src/ts_query.rs:276-313 | when the kept rows all lie in the pushed range the walk reaches exactly them, whatever the anchor |
| `SliceWalk.PagesDiffer` | crates/skaidb-engine/src/ts_query.rs:233-244 | two different row sets that fit in the page give different pages, so a lost or extra row always shows |
| `TsSelect.PushedRowsAreMatching` | crates/skaidb-engine/src/ts_query.rs:596-652 | with safe time constants, the rows that pass the pushed matchers and the residual WHERE are exactly the rows the WHERE keeps, and all lie in the pushed range |
| `TsSelect.RunRowSelect` | crates/skaidb-engine/src/ts_query.rs:124-353 | end to end, when the time constants are safe: pushing the range and matchers down and stopping the walk early answer the statement itself over every stored row its WHERE keeps; the query fails only if the WHERE fails on a stored row |
| `TsSelect.StrayRowReached` | crates/skaidb-engine/src/ts_query.rs:276-313 | counterexample: `ts > -5.5` keeps the row at -5 but pushes `ts >= -4`; a descending walk anchored at -10 returns the row, a gather of the pushed range does not |
| `Pushdown.Narrowing.ExtractPushdown` | crates/skaidb-engine/src/ts_query.rs:596-652 | the mutating walk over a WHERE clause computes the narrowed range and matchers of the specification `Extract` |
| `Pushdown.ExtractSound` | crates/skaidb-engine/src/ts_query.rs:596-652 | a row the whole filter keeps lies in the pushed range and passes every pushed matcher, for every filter whose time constants are safe |
| `Pushdown.ExtractExact` | crates/skaidb-engine/src/ts_query.rs:880-922 | for a fully pushable filter with exact bounds, range plus matchers plus present labels admit exactly the rows the filter keeps, so the residual WHERE may be dropped |
| `Pushdown.TsBoundSoundIff` | crates/skaidb-engine/src/ts_query.rs:618-630 | a pushed bound keeps every time the comparison admits if and only if the constant is safe: not a fraction on the losing side of zero, not out of the 64-bit range |
| `Pushdown.TsBoundExactIff` | crates/skaidb-engine/src/ts_query.rs:618-630 | the pushed bound admits exactly the times the comparison admits if and only if the constant is exact for its operator |
| `Pushdown.FractionalBoundLosesRow` | crates/skaidb-engine/src/ts_query.rs:618-630 | counterexample: `ts < 5.5` keeps the row at 5 but pushes `ts <= 4` |
| `Pushdown.TsLeafKeeps` | crates/skaidb-engine/src/ts_query.rs:612-630 | a comparison of `ts` with a column-free side, in either order, keeps a row exactly as the comparison of numbers says |
| `Pushdown.LabelLeafKeeps` | crates/skaidb-engine/src/ts_query.rs:631-649 | a label comparison with a string keeps a row exactly when the series carries the label, no field shadows it, and the strings agree or differ |
| `Pushdown.MissingLabelIsEmpty` | crates/skaidb-tsdb/src/store.rs:103-122 | a series without a label matches as if the label were empty |
| `Evaluator.ConstantOnAllRows` | crates/skaidb-engine/src/eval.rs:16-76 | a column-free expression that has a value on the empty row has that value on every row, so folding it once is right |
| `SqlLogic.ConnectivesAdmit` | crates/skaidb-types/src/ternary.rs:33-72 | AND, OR and NOT admit exactly the outcomes of the truth values their operands admit, UNKNOWN admitting both |
| `SqlLogic.OrKeeps` | crates/skaidb-engine/src/eval.rs:468-475 | OR keeps a row its left side keeps, and one its right side keeps once the left has a truth value |
| `SqlLogic.ConnectivesFail` | crates/skaidb-engine/src/eval.rs:459-476 | AND and OR fail on their left operand, or on their right when the left has not settled the outcome |
| `SqlLogic.DeMorgan` | crates/skaidb-engine/src/eval.rs:439-476 | NOT over OR is AND over NOTs and dually, NULLs, failures and short circuits included |
| `SqlLogic.BetweenIs` | crates/skaidb-engine/src/eval.rs:29-43 | BETWEEN is `>=` AND `<=`, except that a failing upper bound fails it even where the AND would have stopped |
| `SqlLogic.NegatedBetween` | crates/skaidb-engine/src/eval.rs:29-43 | NOT BETWEEN is the negation of BETWEEN, NULLs and failures included |
| `SqlLogic.InIsOr` | crates/skaidb-engine/src/eval.rs:541-569 | IN is the OR of its equalities, an array element standing for its items, NULLs and failures included |
| `SqlLogic.NegatedIn` | crates/skaidb-engine/src/eval.rs:541-569 | NOT IN is the negation of IN, NULLs and failures included |
| `SqlValues.IsNullIs` | crates/skaidb-engine/src/eval.rs:20-23 | IS NULL and IS NOT NULL tell NULL from every other value and are never NULL |
| `SqlValues.LikeIs` | crates/skaidb-engine/src/eval.rs:44-63 | LIKE and NOT LIKE of two strings are the match and its opposite, case-folded for ILIKE, and NULL of anything else |
| `SqlValues.ColumnIs` | crates/skaidb-engine/src/eval.rs:19-19 | a column is the value under its name in a flat row, NULL when there is none or the name is a path |
| `SqlValues.ScoreIs` | crates/skaidb-engine/src/eval.rs:221-241 | a relevance score is a hidden column, and asking for one that is not there fails |
| `SqlValues.ScalarOrder` | crates/skaidb-engine/src/eval.rs:735-764 | which scalars are ordered and how: numbers of any kind by value, strings by first difference, FALSE before TRUE; all other pairs are NULL |
| `SqlValues.StringOrder` | crates/skaidb-engine/src/eval.rs:735-764 | strings compare by their first difference, a proper prefix coming first |
| `SqlValues.Trichotomy` | crates/skaidb-engine/src/eval.rs:494-530 | between scalars exactly one of `<`, `=`, `>` holds or all are NULL, and `<` and `>` are converse |
| `SqlValues.Complements` | crates/skaidb-engine/src/eval.rs:494-530 | `!=`, `>=` and `<=` negate `=`, `<` and `>` on all values, NULLs and arrays included |
| `SqlValues.Containment` | crates/skaidb-engine/src/eval.rs:494-516 | an array equals a scalar exactly when it holds an equal item |
| `SqlValues.IntegerArithmetic` | crates/skaidb-engine/src/eval.rs:766-784 | integer sums, differences and products are the exact ones modulo 2^64 |
| `SqlValues.DivisionTruncates` | crates/skaidb-engine/src/eval.rs:776-782 | integer division leaves a remainder smaller than the divisor and of the dividend's sign |
| `SqlValues.IntegerDivision` | crates/skaidb-engine/src/eval.rs:776-782 | an integer quotient is that one, NULL over zero |
| `SqlValues.MixedArithmetic` | crates/skaidb-engine/src/eval.rs:766-809 | with a float or time operand results are floats; NULL absorbs, and any other operand fails |
| `SqlValues.MixedDivision` | crates/skaidb-engine/src/eval.rs:799-806 | a float quotient times its divisor is the dividend, and is NULL over zero |
| `SqlValues.NegationIs` | crates/skaidb-engine/src/eval.rs:445-455 | unary minus is the integer that adds up to zero modulo 2^64, the opposite float, NULL of NULL, and fails on anything else |
| `SqlValues.CoalesceIs` | crates/skaidb-engine/src/eval.rs:115-125 | COALESCE is its first argument that is not NULL; a failing one before it fails the whole |
| `SqlValues.TimeBucketIs` | crates/skaidb-engine/src/eval.rs:83-113 | time_bucket is the multiple of the step at or less than a step below the time, of the time's own type |
| `SqlValues.TimeBucketEdges` | crates/skaidb-engine/src/eval.rs:83-113 | a NULL time has a NULL bucket and a step that is not positive fails |
| `Like.LikeMatch` | crates/skaidb-engine/src/eval.rs:578-604 | the greedy two-index matcher returns exactly the declarative meaning of the pattern |
| `Like.SegmentConsumes` | crates/skaidb-engine/src/eval.rs:578-604 | a stretch of pattern without `%` consumes exactly as many characters as it has |
| `Like.LaterStarSuffices` | crates/skaidb-engine/src/eval.rs:578-604 | once a later `%` is reached, only its own restart points matter; earlier ones can be forgotten |
| `Like.MatchesEmpty` | crates/skaidb-engine/src/eval.rs:578-604 | only patterns made of `%` match the empty string |
| `LikePieces.MatchesIff` | crates/skaidb-engine/src/eval.rs:571-604 | a string matches a pattern exactly when it can be cut into one piece per pattern character, any piece for `%`, one character for `_`, itself for the rest |
| `Buckets.PartializeSeries` | crates/skaidb-engine/src/ts_query.rs:694-730 | one pass over a series, updating the last partial or opening one, gives the summary of each run of equal buckets |
| `Buckets.Partialize` | crates/skaidb-engine/src/ts_query.rs:688-736 | every series with samples yields its partials, in order; empty series are dropped |
| `Buckets.RunsCover` | crates/skaidb-engine/src/ts_query.rs:688-736 | the runs, put end to end, are the samples: nothing lost, nothing twice |
| `Buckets.RunsAreBuckets` | crates/skaidb-engine/src/ts_query.rs:688-736 | in a time-ordered series there is one run per bucket, in bucket order |
| `Buckets.SummariesStep` | crates/skaidb-engine/src/ts_query.rs:701-729 | adding one sample to the runs changes their summaries as the loop body changes the partials: count, sum, minimum, maximum, first and last |
| `Samples.TotalOfRuns` | crates/skaidb-engine/src/exec.rs:13678-13692 | sums add up over any cutting of the samples into runs |
| `Samples.BestOfRuns` | crates/skaidb-engine/src/exec.rs:13695-13710 | the best of the per-run bests is the best of all samples |
| `Samples.BestIs` | crates/skaidb-engine/src/exec.rs:13695-13710 | the best sample is the first one of least rank: lowest or highest value, earliest or latest time |
| `Samples.IncreaseIs` | crates/skaidb-engine/src/exec.rs:13652-13663 | the increase is the net change with every value lost to a reset added back |
| `Samples.IncreaseConcat` | crates/skaidb-engine/src/ts_query.rs:705-715 | increases add up over a cut with the step across it, where a drop counts the new value |
| `AggregateLaws.ExtremesMean` | crates/skaidb-engine/src/exec.rs:13695-13710 | MIN and MAX are values of the samples that none is below or above |
| `AggregateLaws.EndsMean` | crates/skaidb-engine/src/exec.rs:13575-13609 | FIRST and LAST are values of samples that none precedes or follows |
| `AggregateLaws.SumsMean` | crates/skaidb-engine/src/exec.rs:13524-13540 | SUM is the total, AVG what adds up to it over the samples, COUNT their number |
| `AggregateLaws.ChangesMean` | crates/skaidb-engine/src/exec.rs:13642-13676 | DELTA is the difference of the ends, INCREASE adds back what resets lost, RATE is that per second; none with fewer than two samples, and no rate without time between |
| `AggregateLaws.SortByTsIs` | crates/skaidb-engine/src/exec.rs:13644-13646 | a series is put in time order with no sample lost before its change is taken |
| `AggregateLaws.GroupedMeans` | crates/skaidb-engine/src/exec.rs:13428-13487 | lowering replaces aggregates by their values and nothing else: an expression without aggregates has its value on the representative row |
| `Aggregates.AggOnFloats` | crates/skaidb-engine/src/exec.rs:13489-13610 | an aggregate over a column of float cells is the aggregate of the samples behind them: count, sum, mean, extremes, value at the first or last time |
| `Partials.NamesDistinct` | crates/skaidb-engine/src/ts_query.rs:1157-1225 | hidden partial columns never coincide with each other, with `ts`, or with a label column |
| `Partials.PartialColumn` | crates/skaidb-engine/src/ts_query.rs:1157-1225 | over a group's partial documents, a hidden float column lists one value per run of its field in the group, with the run's time |
| `Partials.PartialCount` | crates/skaidb-engine/src/ts_query.rs:1157-1225 | the hidden count column sums to the number of the field's samples in the group, with zeros for series of other fields |
| `Rewrite.RunFold` | crates/skaidb-engine/src/ts_query.rs:1250-1312 | folding the per-run values of the right hidden column gives SUM, MIN, MAX, FIRST and LAST of all samples |
| `Rewrite.PartialAggregate` | crates/skaidb-engine/src/ts_query.rs:1250-1312 | the rewritten aggregate over the group's partial documents is the aggregate of the group's samples; COUNT of an absent field is 0, the others NULL |
| `GatherMerge.InsertStream` | crates/skaidb-engine/src/ts_query.rs:405-416 | inserting a stream sample by sample merges it into the documents keyed by series and time |
| `GatherMerge.GatherDocs` | crates/skaidb-engine/src/ts_query.rs:387-422 | before the residual WHERE, the gather lists, in key order, one document per series and time with the fields of all streams merged |
| `GatherMerge.MergeField` | crates/skaidb-engine/src/ts_query.rs:405-416 | a field of a merged row is the sample of that field's stream at that key, if there is one |
| `RawGroups.RawGroupColumn` | crates/skaidb-engine/src/ts_query.rs:387-422 | a field column over a group's raw rows lists exactly the group's samples of the field, in row order |
| `RawGroups.GroupKeysComplete` | crates/skaidb-engine/src/ts_query.rs:387-422 | every row of the group that carries the field is listed |
| `PartialPlan.RawPopulated` | crates/skaidb-engine/src/exec.rs:13287-13310 | the raw path has a row in a group exactly when a stream has a run in it |
| `PartialPlan.PartialPopulated` | crates/skaidb-engine/src/ts_query.rs:1157-1225 | so has the partial path, hence both paths produce the same groups |
| `PartialPlan.AggregatesAgree` | crates/skaidb-engine/src/ts_query.rs:1250-1312 | each planned aggregate has the same value over raw rows and, rewritten, over partial rows |
| `PartialPlan.EligibleSame` | crates/skaidb-engine/src/ts_query.rs:832-874 | every expression the planner accepts evaluates alike on both sides, errors included, by induction over the expression |
| `Planner.NoteExprIs` | crates/skaidb-engine/src/ts_query.rs:832-874 | the planner's walk accepts an expression exactly when everything it meets can be served, whatever the plan so far, and notes exactly the fields and needs of its aggregates |
| `Planner.EligibleIff` | crates/skaidb-engine/src/ts_query.rs:832-874 | an expression is eligible under a plan exactly when all it meets can be served and the plan provides for it |
| `Planner.RewriteFree` | crates/skaidb-engine/src/ts_query.rs:1230-1312 | the rewrite onto hidden columns touches aggregates only |
| `Planner.FullyPushableIff` | crates/skaidb-engine/src/ts_query.rs:880-922 | a WHERE is consumed by the pushdown exactly when every conjunct compares `ts` with a whole number or a label with a string for equality or inequality, in either order |
| `Planner.BucketStepIs` | crates/skaidb-engine/src/ts_query.rs:816-828 | a group bucket is exactly `time_bucket` of a positive literal step and `ts` |
| `Planner.GroupedWhen` | crates/skaidb-engine/src/exec.rs:10651-10656 | a statement groups when it has GROUP BY or an item aggregates |
| `Planner.ReadGroups` | crates/skaidb-engine/src/ts_query.rs:772-788 | GROUP BY is served exactly when it lists plain columns and at most one time bucket |
| `Planner.PlanSelect` | crates/skaidb-engine/src/ts_query.rs:762-811 | a statement is planned exactly when it groups, has no wildcard, a consumed WHERE, such groups and servable expressions; every expression is then eligible and the plan notes exactly what they need |
| `PartialPlan.SidesAgree` | crates/skaidb-engine/src/ts_query.rs:928-1000 | group columns, bucket value and every planned aggregate agree on both sides of every group |
| `PartialPlan.PartialsAnswerTheQuery` | crates/skaidb-engine/src/ts_query.rs:762-874 | partial-aggregate pushdown preserves meaning: same groups, and the same value of every SELECT, HAVING and ORDER BY expression the planner accepts, RATE, INCREASE and DELTA included |
| `CounterChange.PartialChangeAnswers` | crates/skaidb-engine/src/ts_query.rs:1250-1312 | RATE, INCREASE and DELTA: the sum of the hidden column over the group's partials is what the raw path sums over series, when no two series of the group share a tag |
| `CounterChange.ChangesAgree` | crates/skaidb-engine/src/exec.rs:13612-13676 | summing the changes over runs or over series told apart by tag is the same when tags tell series apart |
| `CounterChange.RawGroupTagged` | crates/skaidb-engine/src/exec.rs:13612-13640 | over a group's raw rows, a field's samples with their series tags are the group's samples, series by series |
| `CounterChange.SharedTagMerges` | crates/skaidb-engine/src/exec.rs:13612-13676 | counterexample: two series with one tag are read as one, and the increase between them is counted too: 6 instead of 2 |
| `CounterChange.TagShared` | crates/skaidb-engine/src/ts_query.rs:400-404 | and different labels can give one tag: `a` = `1,b=2`, and `a` = `1` with `b` = `2` |
| `FilteredRows.GatherRows` | crates/skaidb-engine/src/ts_query.rs:358-432 | the gather with its residual WHERE: the merged rows the WHERE keeps, in order, or a failure exactly when the WHERE fails on one |
| `FilteredRows.RowKept` | crates/skaidb-engine/src/ts_query.rs:880-922 | for a fully pushable WHERE with exact bounds, a merged row is kept exactly when its series passes the matchers with every compared label present and its time is in the pushed range |
| `FilteredRows.ConsumedNeverFails` | crates/skaidb-engine/src/ts_query.rs:880-922 | a fully pushable WHERE fails on no row, so dropping it hides no error |
| `FilteredRows.WhereIsNarrowing` | crates/skaidb-engine/src/ts_query.rs:975-993 | the rows merged from the streams the pushdown selects are the rows the WHERE keeps of all of them, in the same order |
| `TieredQuery.FilteredQueryAnswers` | crates/skaidb-engine/src/ts_query.rs:928-1000 | a grouped query with a WHERE answered from partials has the groups and values it has over the raw rows the WHERE keeps |
| `Rollup.RollupSeries` | crates/skaidb-engine/src/ts_query.rs:1093-1124 | one series' rollup rows fold, in one pass, into group-step partials |
| `Rollup.EmptyRowIgnored` | crates/skaidb-engine/src/ts_query.rs:1093-1124 | a rollup row without samples changes nothing, wherever it stands |
| `Rollup.FloorNested` | crates/skaidb-engine/src/ts_query.rs:1137-1148 | rounding down to the fine step first does not change rounding down to a multiple of it, negative times included |
| `Rollup.DividesRefines` | crates/skaidb-engine/src/ts_query.rs:1018-1044 | a bucket that divides the group step never straddles two groups |
| `Rollup.RunsExtend` | crates/skaidb-engine/src/ts_query.rs:1093-1124 | appending a whole bucket of samples extends the open run or opens one, as one row does |
| `Rollup.Coarsens` | crates/skaidb-engine/src/ts_query.rs:1093-1124 | folding exact rollup rows gives the summaries of the raw samples, with only the end times rounded to bucket starts |
| `RollupSplice.Coarsest` | crates/skaidb-engine/src/ts_query.rs:1026-1030 | the chosen rollup is usable, listed, and no usable one has a larger bucket |
| `RollupSplice.CoarsestServes` | crates/skaidb-engine/src/ts_query.rs:1026-1030 | no rollup is chosen exactly when no listed bucket keeps every sample in its group; otherwise the largest that does, the last one of equals |
| `RollupSplice.SplitIs` | crates/skaidb-engine/src/ts_query.rs:1032-1039 | the split is the one group boundary at or above the horizon and less than a step below the complete boundary that meets one of them |
| `RollupSplice.RouteIff` | crates/skaidb-engine/src/ts_query.rs:1018-1044 | the route taken is exactly: that rollup, that split, and a range that begins below it |
| `RollupSplice.RouteTaken` | crates/skaidb-engine/src/ts_query.rs:1018-1044 | a rollup that keeps samples in their groups and a horizon above the range start are enough for a route |
| `RollupSplice.SplitParts` | crates/skaidb-engine/src/ts_query.rs:1006-1018 | no group bucket has samples on both sides of the split |
| `RollupSplice.RouteSound` | crates/skaidb-engine/src/ts_query.rs:1018-1044 | a route's split lies on a group boundary above the range start, at or above the horizon, and past the complete boundary only below the horizon's own group bucket |
| `RollupSplice.NoRouteNeeded` | crates/skaidb-engine/src/ts_query.rs:1018-1044 | when no route is taken although a rollup is usable, nothing of the range lies below the horizon |
| `RollupSplice.TakesExactlyIff` | crates/skaidb-engine/src/ts_query.rs:1062-1067 | the rollup rows taken stand for exactly the range's samples below the split if and only if the range ends fall on bucket boundaries |
| `RollupSplice.UnalignedStartLoses` | crates/skaidb-engine/src/ts_query.rs:1062-1067 | counterexample: minute buckets and a range from 1 ms lose the sample at 1 ms |
| `RollupSplice.ClipSplit` | crates/skaidb-engine/src/ts_query.rs:942-959 | the two halves of the range together hold each sample once |
| `RollupSplice.RunsInRange` | crates/skaidb-engine/src/ts_query.rs:1062-1067 | taking whole buckets in a row range is cutting the samples of those buckets |
| `RollupSplice.RollupHalfExact` | crates/skaidb-engine/src/ts_query.rs:1062-1124 | the rollup half equals the summaries of the raw samples below the split |
| `RollupSplice.SpliceStands` | crates/skaidb-engine/src/ts_query.rs:942-959 | the partials of both halves stand for the runs of both halves, straddling bucket included |
| `RollupSplice.StandsFold` | crates/skaidb-engine/src/ts_query.rs:1250-1312 | partials that stand for runs fold to what all their samples fold to |
| `RollupSplice.SpliceExact` | crates/skaidb-engine/src/ts_query.rs:942-959 | one series of the tiered read: in every group bucket the spliced partials give the count, sum, minimum, maximum, first and last of the raw samples of the range |
| `TierPieces.PiecesAggregate` | crates/skaidb-engine/src/ts_query.rs:1157-1225 | over documents made from any partial lists, the rewritten aggregate is the aggregate of the samples the group's partials fold to |
| `TieredQuery.TierFolds` | crates/skaidb-engine/src/ts_query.rs:942-959 | across the series of a group the partials of both halves fold to the selected samples: counts, sums and extremes always, FIRST and LAST when one series has the field |
| `TieredQuery.OccupiedIsPopulated` | crates/skaidb-engine/src/ts_query.rs:942-959 | a group has a gathered partial exactly when it has a selected sample |
| `TieredQuery.TieredQueryAnswers` | crates/skaidb-engine/src/ts_query.rs:928-1000 | a grouped query with a WHERE, answered from rollup buckets below the split and source partials above, has the groups and the values of every accepted expression that it has over all raw rows the WHERE keeps, however fields interleave |
| `PieceOrder.SortArranges` | crates/skaidb-engine/src/ts_query.rs:1157-1179 | the stable sort by series and first bucket leaves, field by field, series in order and each rollup half before its source half, in whatever order series came in |
| `PieceOrder.PiecesByKey` | crates/skaidb-engine/src/ts_query.rs:1157-1179 | sorted pieces go by series and within one by first bucket |
| `PieceOrder.GatheredQueryAnswers` | crates/skaidb-engine/src/ts_query.rs:928-1000 | main result of time-series aggregation: gathered from both tiers, sorted into documents and rewritten, the query has the groups and values it has over all raw rows the WHERE keeps; FIRST and LAST where one series of the group has the field |
| `TieredQuery.EndsTie` | crates/skaidb-engine/src/ts_query.rs:1093-1124 | counterexample: FIRST over two series in one rollup bucket takes the series listed first, not the earlier sample |
| `HnswSearch.SearchLayer` | crates/skaidb-engine/src/vector.rs:371-409 | beam search returns the nearest of what it visited, sorted and without repeats; everything visited is reachable, every neighbour of a returned node was visited, and a beam as wide as the reachable set visits all of it |
| `HnswSearch.Offer` | crates/skaidb-engine/src/vector.rs:395-403 | one newly visited node keeps the beam the nearest of everything visited |
| `HnswSearch.LessIs` | crates/skaidb-engine/src/vector.rs:42-53 | candidates are totally ordered, the nearer first and of equally near ones the lower id |
| `HnswSearch.AllSeen` | crates/skaidb-engine/src/vector.rs:383-405 | a search that runs out of candidates without dropping any has visited everything reachable |
| `HnswSelect.SelectDiverse` | crates/skaidb-engine/src/vector.rs:433-458 | the selection is the reference choice `Selected`: greedy diverse candidates first, nearest first, then spilled ones as backfill |
| `HnswSelect.ChooseIs` | crates/skaidb-engine/src/vector.rs:433-449 | kept candidates are each at least as close to the base as to every earlier kept one, each spilled one is crowded out by a kept one, and together they are the candidates up to where the list filled |
| `HnswSelect.SelectedIs` | crates/skaidb-engine/src/vector.rs:433-458 | the selection has as many ids as there are candidates, up to the bound; all are candidates and none repeats |
| `HnswSelect.SelectedSome` | crates/skaidb-engine/src/vector.rs:433-458 | someone is selected whenever there is a candidate and room |
| `HnswLinks.PrunedListIs` | crates/skaidb-engine/src/vector.rs:412-424 | trimming keeps short lists as they are and longer ones at exactly the bound, with no new and no repeated id |
| `HnswLinks.SortSorts` | crates/skaidb-engine/src/vector.rs:421-421 | candidates for trimming are considered nearest first |
| `HnswLinks.Pruned` | crates/skaidb-engine/src/vector.rs:412-424 | `prune` computes the trimmed list of the specification |
| `HnswPrune.PrunedExplained` | crates/skaidb-engine/src/vector.rs:412-458 | a trimmed list begins with the nearest of all and its diverse ones nearest first; the others in it are crowded by these and nearest first; one left out is no nearer than those others, and crowded too unless the limit was filled with diverse ones, none of them farther |
| `HnswPrune.PrunedOrderFree` | crates/skaidb-engine/src/vector.rs:412-424 | with distances all different, the trimmed list does not depend on the order of the list |
| `HnswPrune.SelectedExplained` | crates/skaidb-engine/src/vector.rs:433-458 | the same of the selection from any candidates sorted by distance |
| `HnswLinks.LinkAppended` | crates/skaidb-engine/src/vector.rs:244-246 | while a list has room, for m0 links on the ground layer and m above, a new link is appended and nothing dropped |
| `HnswLinks.SameFound` | crates/skaidb-engine/src/vector.rs:371-409 | a search depends on its own layer only: links on other layers do not change what it may return |
| `HnswLinks.AttachedLinked` | crates/skaidb-engine/src/vector.rs:234-248 | a newly inserted node has at least one neighbour on every layer it shares with the entry |
| `HnswIndex.Descend` | crates/skaidb-engine/src/vector.rs:221-232 | the descent is a chain of beam-8 searches, each from the nearest node found above, and lands on the layer below |
| `HnswIndex.Hnsw.constructor` | crates/skaidb-engine/src/vector.rs:156-179 | an empty index with the clamped parameters satisfies the invariant and stands for the empty dictionary |
| `HnswIndex.Hnsw.Prune` | crates/skaidb-engine/src/vector.rs:412-424 | only the one list changes, to its trimmed form; links stay valid and degrees bounded |
| `HnswIndex.Hnsw.Link` | crates/skaidb-engine/src/vector.rs:244-246 | the new node gains the neighbour, the neighbour's list is its old list with the new node appended and trimmed, and no other node changes |
| `HnswIndex.Hnsw.Connect` | crates/skaidb-engine/src/vector.rs:243-247 | after all chosen neighbours: the new node lists exactly them, each has the new node appended and trimmed, and every other list of every layer is unchanged |
| `HnswIndex.Hnsw.Wire` | crates/skaidb-engine/src/vector.rs:234-248 | on every shared layer the new node is linked to the diverse selection of what a beam search there found, each search starting where the one above ended; other layers are untouched |
| `HnswIndex.Hnsw.Attach` | crates/skaidb-engine/src/vector.rs:221-251 | the node is found its place from the entry down and linked, the graph invariant is restored, and it becomes the entry exactly when it is taller |
| `HnswIndex.Hnsw.Insert` | crates/skaidb-engine/src/vector.rs:197-252 | insert or replace keeps the invariant and leaves exactly: the key's old node retired, a new node of the drawn level, and its links as found; a vector of the wrong dimension changes nothing |
| `HnswIndex.Hnsw.Remove` | crates/skaidb-engine/src/vector.rs:256-262 | soft delete keeps the invariant, marks just the key's node and drops just its index entry |
| `HnswIndex.Hnsw.Search` | crates/skaidb-engine/src/vector.rs:267-309 | hits are live, kept, correctly scored, distinct and nearest first; they are the first k of a layer-0 beam from where the descent landed; with a beam as wide as the reachable set no nearer key is missed |
| `HnswIndex.Hnsw.Apply` | crates/skaidb-engine/src/vector.rs:197-262 | one insert, replacement or removal refines the plain dictionary's; earlier nodes keep key, vector and height, and one node at most is added |
| `HnswIndex.HitsOrdered` | crates/skaidb-engine/src/vector.rs:295-308 | filtered hits of a sorted, duplicate-free candidate list are nearest first with distinct keys |
| `HnswIndex.AllReturned` | crates/skaidb-engine/src/vector.rs:267-309 | a beam wide enough for everything reachable returns everything reachable |
| `HnswSnapshot.SnapshotRoundTrip` | crates/skaidb-engine/src/vector.rs:478-638 | loading a saved graph gives it back, parameters, vectors, links and flags, and leaves what follows in the stream |
| `HnswSnapshot.TruncatedSnapshotFails` | crates/skaidb-engine/src/vector.rs:530-638 | a snapshot cut short at any byte fails to load |
| `HnswSnapshot.WriteTo` | crates/skaidb-engine/src/vector.rs:478-525 | the writer's loop produces the specified bytes |
| `HnswSnapshot.HeaderLayout` | crates/skaidb-engine/src/vector.rs:478-497 | the file begins with its magic, the metric and the parameters, little-endian, in a fixed order |
| `HnswSnapshot.DeletedFlag` | crates/skaidb-engine/src/vector.rs:616-622 | a node is read as deleted for any flag byte but zero |
| `HnswSnapshot.KeyIndexIs` | crates/skaidb-engine/src/vector.rs:613-615 | with live keys unique, the key index rebuilt from the nodes is the original |
| `HnswSnapshot.Reload` | crates/skaidb-engine/src/vector.rs:478-638 | save then load: a valid index equal to the saved one, with a clean flag, needing only parameters, levels, keys and vectors within the format and fewer than 2^32 nodes |
| `HnswSnapshot.SaveableFits` | crates/skaidb-engine/src/vector.rs:478-525 | every number a valid index writes fits its field: neighbour lists because their ids are distinct nodes |
| `HnswSnapshot.Run` | crates/skaidb-engine/src/vector.rs:197-638 | any run of inserts, replacements, removals, saves and loads keeps the graph invariant and stands for the plain dictionary those operations describe, saving and loading being nothing |
| `HashRing.Ring.AddNode` | crates/skaidb-cluster/src/ring.rs:45-53 | joining keeps the ring valid, adds the member and places exactly its tokens; joining again changes nothing |
| `HashRing.Ring.RemoveNode` | crates/skaidb-cluster/src/ring.rs:56-60 | leaving removes the member and exactly the tokens it owns |
| `HashRing.Ring.ReplicasFor` | crates/skaidb-cluster/src/ring.rs:73-90 | the replicas are the first distinct owners clockwise from the key, as many as asked for or as own tokens |
| `HashRing.Ring.PrimaryFor` | crates/skaidb-cluster/src/ring.rs:93-95 | the primary is the first of that order |
| `HashRing.FirstOwners` | crates/skaidb-cluster/src/ring.rs:80-89 | the loop that stops once enough distinct owners are met returns the prefix of the full order of owners |
| `HashRing.OrderSize` | crates/skaidb-cluster/src/ring.rs:73-90 | the clockwise order lists each owner once |
| `HashRing.LeaveOrder` | crates/skaidb-cluster/src/ring.rs:56-60 | leaving: every key's clockwise order is the old one with the leaver deleted, so only its own keys move |
| `HashRing.JoinReplicas` | crates/skaidb-cluster/src/ring.rs:45-53 | joining: every replica list is the old one with at most the joiner inserted and the tail cut |
| `HashRing.JoinAddsOnlyIff` | crates/skaidb-cluster/src/ring.rs:45-53 | a joiner only adds itself if and only if none of its tokens was taken |
| `HashRing.AddRemoveRestoresIff` | crates/skaidb-cluster/src/ring.rs:45-60 | adding a node and removing it again restores the ring if and only if none of its tokens was taken |
| `HashRing.SharedTokenLost` | crates/skaidb-cluster/src/ring.rs:45-60 | counterexample: two nodes with one token between them; adding and removing the second leaves the first with none |
| `HashRing.JoinOrderIrrelevant` | crates/skaidb-cluster/src/ring.rs:45-53 | with distinct tokens the ring does not depend on the order of joining |
| `RingArcs.PrimaryArcs` | crates/skaidb-cluster/src/ring.rs:104-135 | computes the arcs of the specification, disjoint and ascending; a hash lies in one exactly when the node is its primary, if and only if the ring has tokens or the node is not its sole member |
| `RingArcs.LoneMemberClaims` | crates/skaidb-cluster/src/ring.rs:98-135 | counterexample: a member loses all its tokens to another that then leaves; its arcs claim every hash and no hash has a primary |
| `RingArcs.ArcsAtIs` | crates/skaidb-cluster/src/ring.rs:117-131 | the arcs before a token, the wrap split at the ends of the hash space, hold exactly the hashes whose next token it is |
| `RingArcs.PrimaryIsSucc` | crates/skaidb-cluster/src/ring.rs:93-95 | the primary owns the next token clockwise, wrapping to the first |
| `RingArcs.ArcsTile` | crates/skaidb-cluster/src/ring.rs:98-135 | the members' arcs tile the hash space: in every ring with tokens, every hash lies in exactly one arc of exactly one member |
| `QuorumRules.StrongIffOverlap` | crates/skaidb-cluster/src/quorum.rs:19-33 | every read set meets every write set if and only if the two levels are strong together |
| `QuorumRules.QuorumIsMajority` | crates/skaidb-cluster/src/quorum.rs:10-33 | a quorum is the least number two sets of which must meet; two quorums are strong, ALL is with anything, ONE only where it cannot miss |
| `QuorumRules.NoReplicas` | crates/skaidb-cluster/src/quorum.rs:18-26 | with no replicas configured every level asks for one acknowledgement |
| `QuorumRules.Winner` | crates/skaidb-cluster/src/quorum.rs:51-56 | the winner is one of the copies and no copy beats it by stamp, then value order |
| `QuorumRules.WinnerIs` | crates/skaidb-cluster/src/quorum.rs:48-56 | the newest stamp wins, and of equally new copies the highest in the value order |
| `QuorumRules.StampOrder` | crates/skaidb-cluster/src/quorum.rs:51-56 | stamps are totally ordered, the physical part first |
| `QuorumRules.ResolvePermutes` | crates/skaidb-cluster/src/quorum.rs:51-56 | resolution does not depend on the order of the copies |
| `QuorumRules.ReadSeesWrite` | crates/skaidb-cluster/src/quorum.rs:31-56 | a strong read never resolves to a stamp older than an acknowledged write |
| `QuorumRules.MergeDocuments` | crates/skaidb-cluster/src/quorum.rs:63-84 | the merged document has exactly the fields some copy has, each with its winner's value |
| `QuorumRules.FieldWinnerIs` | crates/skaidb-cluster/src/quorum.rs:63-84 | a field's winner is a copy that holds it and none that holds it is newer; there is none exactly when no copy holds the field |
| `QuorumRules.MergeOrderIff` | crates/skaidb-cluster/src/quorum.rs:63-84 | a field's merged value is the same for every order of the copies if and only if any two copies that hold it, with no newer one, agree on it |
| `QuorumRules.EqualStampsDisagree` | crates/skaidb-cluster/src/quorum.rs:63-84 | counterexample: two copies with equal stamps and different values merge to whichever comes first |
| `Rbac.Check` | crates/skaidb-auth/src/rbac.rs:217-249 | the depth-first check with one shared visited set is right when it grants, and when it denies, what it visited anew is closed and holds no grant |
| `Rbac.HasPrivilege` | crates/skaidb-auth/src/rbac.rs:212-215 | a privilege is granted if and only if some role reachable over inheritance holds it, on any graph, cycles and dangling edges included |
| `Rbac.SatisfiesIff` | crates/skaidb-auth/src/rbac.rs:230-243 | a role answers a request exactly when, globally or on its target, it holds the privilege or admin |
| `Rbac.EditsExact` | crates/skaidb-auth/src/rbac.rs:130-160 | granting and revoking change exactly the one grant they name |
| `Rbac.AllowedMonotone` | crates/skaidb-auth/src/rbac.rs:130-172 | adding roles, grants or edges never takes a permission away |
| `Rbac.MissingDenied` | crates/skaidb-auth/src/rbac.rs:217-230 | a name without a role may do nothing |
| `Rbac.RoleStore.CreateRole` | crates/skaidb-auth/src/rbac.rs:100-106 | a new role is empty; an existing one is refused and unchanged |
| `Rbac.RoleStore.CreateSuperuser` | crates/skaidb-auth/src/rbac.rs:110-116 | the bootstrap role may do everything, and no other role changes |
| `Rbac.RoleStore.DropRole` | crates/skaidb-auth/src/rbac.rs:118-123 | only the named role goes; a missing one is an error |
| `Rbac.RoleStore.GrantPrivilege` | crates/skaidb-auth/src/rbac.rs:130-143 | exactly that privilege is added, and the role then has it |
| `Rbac.RoleStore.Revoke` | crates/skaidb-auth/src/rbac.rs:145-160 | exactly that direct privilege is taken away |
| `Rbac.RoleStore.GrantRole` | crates/skaidb-auth/src/rbac.rs:162-173 | the member may then do everything the parent may; a missing parent is reported before a missing member |
| `Rbac.RoleStore.RevokeRole` | crates/skaidb-auth/src/rbac.rs:175-179 | exactly that edge is removed; a missing member is no error |
| `Morton.CompactCode` | crates/skaidb-engine/src/geo.rs:74-103 | interleaving loses nothing: each coordinate is read back off its own positions |
| `Morton.CodeCompact` | crates/skaidb-engine/src/geo.rs:85-103 | every number is the code of its two halves |
| `Morton.CodeLast` | crates/skaidb-engine/src/geo.rs:99-103 | each digit pair of a code is a latitude digit below a longitude digit |
| `Morton.Down4Code` | crates/skaidb-engine/src/geo.rs:74-103 | dropping digit pairs of a code drops digits of both coordinates |
| `MortonBits.CompactBitsOfCode` | crates/skaidb-engine/src/geo.rs:74-103 | the shift-and-mask word operations read both 32-bit coordinates back off a code |
| `MortonBits.CodeBitsWeave` | crates/skaidb-engine/src/geo.rs:74-103 | the shift-and-mask code of two words is the word of their woven digits |
| `MortonBits.CodeWeave` | crates/skaidb-engine/src/geo.rs:99-103 | and the number code is the number of the woven digits |
| `MortonBits.WordIsNum` | crates/skaidb-engine/src/geo.rs:74-103 | a machine word of at most 64 digits is the number of those digits |
| `MortonBits.CodeBitsIsCode` | crates/skaidb-engine/src/geo.rs:74-103 | the shift-and-mask code of two 32-bit coordinates is, as a number, their Morton code |
| `GeoCover.CellBox` | crates/skaidb-engine/src/geo.rs:197-206 | a quadtree cell holds exactly the points of its box |
| `GeoCover.DecomposeExact` | crates/skaidb-engine/src/geo.rs:185-236 | the full decomposition of a cell holds exactly its points in the rectangle |
| `GeoCover.CoverCells` | crates/skaidb-engine/src/geo.rs:191-234 | the budgeted cover loses no point of the rectangle and emits at most three cells over budget, each meeting the rectangle; it is the full decomposition, holds no other point and emits no cell across the border, if and only if the recursive budget count never reaches the limit |
| `GeoRanges.MergeRanges` | crates/skaidb-engine/src/geo.rs:239-258 | merging keeps exactly the same codes, in ascending ranges that do not touch, and never more of them |
| `GeoRanges.BeOrder` | crates/skaidb-engine/src/geo.rs:107-109 | big-endian keys order as the codes do |
| `GeoRanges.RangeBytesExact` | crates/skaidb-engine/src/geo.rs:263-267 | a byte-range scan meets exactly the entries whose code is in the range, whatever the row key and at the largest code |
| `GeoPlan.QuantizeMonotone` | crates/skaidb-engine/src/geo.rs:68-71 | quantization keeps order, also for values clamped to the domain |
| `GeoPlan.QuantizeNearest` | crates/skaidb-engine/src/geo.rs:68-71 | a value in range has the code nearest to it, the higher of two |
| `GeoPlan.BBoxIsHalves` | crates/skaidb-engine/src/eval.rs:313-321 | the exact predicate is plain membership in one of the boxes the antimeridian split gives |
| `GeoPlan.CrossingOutside` | crates/skaidb-engine/src/eval.rs:313-321 | on the latitudes of a crossing box, what lies outside is strictly between its two longitudes |
| `GeoPlan.BoxQuantized` | crates/skaidb-engine/src/geo.rs:164-183 | a point in the box, antimeridian crossing included, falls in the quantized rectangle of one half |
| `GeoPlan.CoverRanges` | crates/skaidb-engine/src/geo.rs:191-236 | ascending ranges, at most three over budget, that hold every point of the box; they hold no other point of the earth if and only if the budget has room, and otherwise spill out of both halves of a crossing box |
| `GeoPlan.PlanBBox` | crates/skaidb-engine/src/exec.rs:6234-6249 | a bounding-box query loses no row: every index entry of a point in the box lies in a planned scan; the scans hold only the quantized box if the budget has room for each half, and only then unless the halves of a crossing box meet around the globe |
| `Civil.CivilRoundTrip` | crates/skaidb-engine/src/eval.rs:365-378 | every day number is a valid calendar date and converting back returns it |
| `Civil.YearOfEraFinds` | crates/skaidb-engine/src/eval.rs:365-378 | the division-free-of-loops year formula finds the year that contains the day, for every day of the era |
| `Civil.FourDigitYears` | crates/skaidb-engine/src/eval.rs:365-378 | the years 0 to 9999 are exactly the days -719528 to 2932896 |
| `CalendarLaws.DaysStep` | crates/skaidb-engine/src/eval.rs:651-660 | day numbers follow the calendar: day 0 is 1970-01-01 and the day after a valid date has the next number |
| `CalendarLaws.MillisPadded` | crates/skaidb-engine/src/eval.rs:687-703 | the first three digits of a fraction are its milliseconds, missing ones being zero |
| `CalendarLaws.OffsetIsAhead` | crates/skaidb-engine/src/eval.rs:706-730 | a time written with `+h:m` is that much ahead of UTC, with `-h:m` behind |
| `CalendarLaws.ClockRuns` | crates/skaidb-engine/src/eval.rs:651-703 | an instant is its day, hour, minute and second in milliseconds |
| `CalendarLaws.YearTextReads` | crates/skaidb-engine/src/eval.rs:365-385 | a year is written with at least four characters, sign included, and its digits are its value |
| `Iso8601.ParseIso8601` | crates/skaidb-engine/src/eval.rs:610-731 | the parser returns the instant of every valid timestamp text, and nothing for any other text |
| `Iso8601.ParseDate` | crates/skaidb-engine/src/eval.rs:620-650 | exactly the texts of valid four-digit-year dates, leap days checked |
| `Iso8601.ParseTime` | crates/skaidb-engine/src/eval.rs:665-730 | exactly the texts of valid times of day, with optional seconds, fraction and offset |
| `Iso8601.ParseFraction` | crates/skaidb-engine/src/eval.rs:687-703 | an optional fraction is read to its last digit and split off in the only possible way |
| `Iso8601.ParseOffset` | crates/skaidb-engine/src/eval.rs:706-730 | exactly `Z`, nothing, or a signed hour with optional minutes |
| `Iso8601.SumInstant` | crates/skaidb-engine/src/eval.rs:651-703 | field-by-field summing gives the instant |
| `Iso8601.CanonicalIs` | crates/skaidb-engine/src/eval.rs:365-385 | formatting an instant of a four-digit year gives the text of a valid timestamp of that instant |
| `Iso8601.OtherYears` | crates/skaidb-engine/src/eval.rs:365-385 | formatted text of any other year is no timestamp |
| `Iso8601.RoundTrip` | crates/skaidb-engine/src/eval.rs:365-385 | formatting then parsing returns the instant if and only if its year has four digits |
| `ExprCodec.ExprDecodes` | crates/skaidb-cluster/src/internode.rs:1898-1966 | for a filter that fits the wire (literals decode to themselves, names are UTF-8, lengths are below 2^32), decoding its encoding gives it back with any trailing bytes untouched, and fails exactly when it holds an aggregate, a parameter or a function |
| `ExprCodec.OperatorCodes` | crates/skaidb-cluster/src/internode.rs:1969-2018 | operators are numbered in a fixed order from zero and any other byte is none |
| `ExprCodec.ExprExtends` | crates/skaidb-cluster/src/internode.rs:2178-2242 | on any bytes at all, a successful read returns the same filter and leaves the same rest when more bytes follow |
| `ExprCodec.TruncatedExprFails` | crates/skaidb-cluster/src/internode.rs:2178-2242 | an encoded filter cut short at any byte fails to decode |
| `ExprCodec.ExprsAreMany` | crates/skaidb-cluster/src/internode.rs:2204-2208 | the items of an IN list are read as any counted values are |
| `ByteReaders.LeDigits` | crates/skaidb-cluster/src/internode.rs:2142-2153 | numbers are little-endian: byte i is the digit of weight 256^i |
| `WireCursor.ReadBack` | crates/skaidb-cluster/src/internode.rs:2178-2242 | a cursor over what `put_expr` wrote, with anything behind it, returns that filter and stops at what follows if it can be pushed, and fails otherwise |
| `WireCursor.Cur.Expr` | crates/skaidb-cluster/src/internode.rs:2178-2242 | the recursive cursor reads the expression the specification reads, moves past it, and fails exactly when it does |
| `WireCursor.Cur.Exprs` | crates/skaidb-cluster/src/internode.rs:2204-2208 | a counted list is read item by item, stopping at the first failure |
| `WireCursor.Cur.Take` | crates/skaidb-cluster/src/internode.rs:2130-2141 | taking succeeds exactly when enough bytes are left, and a failure moves nothing |
| `WireCursor.Cur.Bytes` | crates/skaidb-cluster/src/internode.rs:2154-2157 | a length-prefixed string of bytes, or failure |
| `Requests.OpOfTag` | crates/skaidb-cluster/src/internode.rs:844-1110 | no two requests share a tag: every tag decodes to its own request |
| `Requests.TagsInOrder` | crates/skaidb-cluster/src/internode.rs:844-1110 | the tags are 1 to 41 in the order the protocol grew, and any other byte is no request |
| `Requests.FieldBack` | crates/skaidb-cluster/src/internode.rs:538-843 | every kind of field, nested lists and optional parts included, reads back with any bytes behind it, or fails exactly when a filter in it cannot be pushed |
| `Requests.MarkerBytes` | crates/skaidb-cluster/src/internode.rs:2158-2164 | any byte but zero is a set flag; optional bytes are there only behind a one, an optional filter behind anything but zero |
| `Requests.RequestRoundTrip` | crates/skaidb-cluster/src/internode.rs:538-1110 | for each of the 41 requests whose fields fit the wire, decoding its encoding gives it back with any trailing bytes left over, and fails exactly when it carries a filter that cannot be pushed |
| `Requests.DecodeExtends` | crates/skaidb-cluster/src/internode.rs:844-1110 | on any bytes at all, a request that decodes is unchanged by what follows it |
| `Requests.TruncatedRequestFails` | crates/skaidb-cluster/src/internode.rs:844-1110 | a request cut short at any byte fails to decode |
| `Internode.Deliver` | crates/skaidb-cluster/src/internode.rs:1567-1625 | encoded, compressed or not, framed, sent, received and decoded: the peer gets the request, or refuses one whose filter cannot be pushed, and is left at the next frame |
| `Frames.FrameRoundTrip` | crates/skaidb-cluster/src/internode.rs:1508-1542 | the compression envelope loses nothing, compressed or raw |
| `Frames.EnvelopeSize` | crates/skaidb-cluster/src/internode.rs:1501-1524 | the envelope costs one byte, unless a payload of at least 256 bytes compresses by more than five, which is then all that is sent |
| `Frames.Conn.Send` | crates/skaidb-cluster/src/internode.rs:1567-1592 | the buffer built in place, by truncating and patching, is the big-endian length and then the envelope of the payload, and is what goes out; an oversized frame is refused with nothing written |
| `Frames.Conn.Recv` | crates/skaidb-cluster/src/internode.rs:1602-1625 | one frame is taken off the stream exactly when it is complete and within the limit |
| `Frames.SendThenRecv` | crates/skaidb-cluster/src/internode.rs:1567-1625 | what one side sends the other receives, and the stream is left at the next frame |
| `PeerPool.Pool.BreakerOpen` | crates/skaidb-cluster/src/internode.rs:1681-1686 | open exactly when three recorded failures of the peer stand with no success since the first and one of them is within the cooldown |
| `PeerPool.Pool.RecordOk` | crates/skaidb-cluster/src/internode.rs:1688-1690 | the peer's breaker is closed at every time from then on until failures are recorded, and no other peer's changes |
| `PeerPool.Pool.RecordErr` | crates/skaidb-cluster/src/internode.rs:1717-1724 | from the third failure since a success on, the breaker is open exactly until the cooldown has passed; no other peer's changes |
| `PeerPool.Pool.TakeIdle` | crates/skaidb-cluster/src/internode.rs:1831-1837 | the connection returned last, and only it, leaves the pool |
| `PeerPool.Pool.Put` | crates/skaidb-cluster/src/internode.rs:1839-1853 | the connection is kept, to be taken next, if and only if the peer has fewer than 32; the bound holds after and no other peer's bucket changes |
| `PeerPool.Pool.DropBucket` | crates/skaidb-cluster/src/internode.rs:1749-1752 | nothing of the peer is left to take, and every other peer keeps its connections |
| `PeerPool.StepKeeps` | crates/skaidb-cluster/src/internode.rs:1639-1882 | every step of every call keeps the pool invariant |
| `PeerPool.PoolSafety` | crates/skaidb-cluster/src/internode.rs:1639-1882 | after any interleaving of any calls: no idle connection has an unread reply, no bucket exceeds 32, no connection is in two places, be they buckets or calls, and every finished call has its own reply |
| `PeerPool.BreakerDecides` | crates/skaidb-cluster/src/internode.rs:1681-1742 | in every run a call is refused, without touching a connection, exactly when three failures recorded for the peer stand with no success since the first and one of them is within the cooldown |
| `PeerPool.BreakerFollowsRun` | crates/skaidb-cluster/src/internode.rs:1681-1724 | in every run the breaker holds for each peer the number of failures since its last success and the time of the latest, and nothing for a peer with none |
| `PeerPool.FollowsNext` | crates/skaidb-cluster/src/internode.rs:1688-1724 | recording a success or a failure keeps the breaker in step with the history |
| `PeerPool.StepBooks` | crates/skaidb-cluster/src/internode.rs:1701-1724 | a step changes the breaker by the outcome it records and by nothing else: a success for a reply that is not backpressure or any answered probe, a failure for backpressure or a failed call |
| `PeerPool.OutcomeCounts` | crates/skaidb-cluster/src/internode.rs:1701-1724 | a reply that is not backpressure, and any reply to a probe, clears the peer; backpressure and a failed call are one more failure, now |
| `PeerPool.CallBooksOnce` | crates/skaidb-cluster/src/internode.rs:1743-1753 | in every run a call counts at most once for or against its peer, also when a stale connection made it try again, and exactly once when it has its reply |
| `PoolRetry.CallAttempts` | crates/skaidb-cluster/src/internode.rs:1735-1800 | in every run a call dials at most once and sends at most twice, twice only for `call` and only on a connection it dialed; `call` and `probe` never fail on a reused connection alone; a refused call does neither |
| `PoolRetry.StaleRetried` | crates/skaidb-cluster/src/internode.rs:1743-1753 | a `call` that loses a reused connection has one way on: the peer's idle connections go and it dials, the breaker untouched |
| `PoolLeaks.RunPlaced` | crates/skaidb-cluster/src/internode.rs:1639-1882 | after any interleaving every open connection is where its record says: at its place in an idle bucket or in the hands of one call |
| `PoolLeaks.AllIdleAtRest` | crates/skaidb-cluster/src/internode.rs:1639-1882 | once every call has finished, each connection still open is idle in its peer's bucket: none leaks |
| `PeerPool.OthersStay` | crates/skaidb-cluster/src/internode.rs:1639-1882 | a step of one call leaves every other call as it was |
| `PeerPool.FinishedIsFinal` | crates/skaidb-cluster/src/internode.rs:1869-1882 | a finished call stays finished with the same outcome |

## Left out

Limits of the contracts above:

- SliceWalk.SelectRows: LIMIT + OFFSET is an unbounded sum, so the overflow of that addition is not modelled.
- SliceWalk.Walk: the clock and the local data frontier are arbitrary parameters; cluster errors are not modelled, and when a walk over failing rows stops is stated by what it gathered, not by a formula of the rows.
- Pushdown.ExtractExact: assumes that no field of the row has the name of a compared label, which the source checks after the gather.
- PartialPlan.PartialsAnswerTheQuery: assumes what the source's dynamic check establishes (grouped columns are labels, aggregated fields are fields), no label named like a hidden column or `_score`, and at most 2^63 - 1 samples per group, and for RATE, INCREASE and DELTA that tags tell the group's series apart; a `time_bucket` step is a literal.
- Planner.PlanSelect: aliases are already resolved, and the step of a `time_bucket` is a literal rather than any column-free expression.
- SqlValues.IntegerDivision: the least integer over -1, and the negation of the least integer, wrap in the model where the program stops or wraps depending on how it is built.
- SqlLogic.InIsOr: the candidates of a list are the values of its elements, evaluated in order.
- RollupSplice.CoarsestServes: the group step is at most 2^63 - 1, as a 64-bit field is.
- PartialPlan.EligibleSame: scalar functions other than the few the proofs need (`coalesce`, `time_bucket`, the relevance scores) are one arbitrary function of their name and argument values.
- RollupSplice.SpliceExact: rollup tables are taken as complete below the split, which is what the retention horizon promises, and a rollup row is one record rather than six value streams joined by time.
- PieceOrder.GatheredQueryAnswers: the sort is an insertion sort in place of the library's stable sort, and the range ends are rollup boundaries, without which rows are lost.
- RollupSplice.RouteSound: the split is an unbounded integer, so overflow when rounding near the ends of the 64-bit range is not modelled.
- HnswIndex.Hnsw.Search: recall of a narrow beam is not bounded, since the source promises none.
- HnswIndex.Hnsw.Insert: the level drawn from the generator is an arbitrary function of its state, and node ids do not overflow 32 bits.
- HnswSnapshot.Run: a run ends before the nodes outnumber what the snapshot can count, 2^32 - 1.
- HnswSnapshot.SnapshotRoundTrip: floats travel as bit patterns; a stream is the bytes that remain, not a file.
- Requests.RequestRoundTrip: requests are an operation with fields of the schema's kinds rather than one constructor each, and reading is a function of the remaining bytes; only filters have the mutable cursor.
- Frames.FrameRoundTrip: payloads of 4 GiB and more, whose length the source truncates, are outside the statement; the compressor is any function that inverts.
- GeoPlan.PlanBBox: coordinates are reals, so the rounding of the quantizing multiplication is not modelled; when the quantized halves of a crossing box meet all around the globe, a cell that spills from one half may lie in the other, and an ample budget is only shown sufficient.
- Iso8601.ParseIso8601: text is a sequence of characters read from the front rather than byte indices.
- PeerPool.PoolSafety: each lock section is one step; peers answer in order on one connection.

Not modelled at all:

- Float NaN and infinities, decimals, uuids, byte strings and nested documents as values; floats are reals.
- The response codec, aggregate-row and sorted-row encodings: the same shapes as the request codec.
- Radius boxes and distance functions of the geo code.
- COUNT(*) rewriting and the label-only DISTINCT path of time-series reads.
- Storage (write-ahead log, blocks, compaction), SQL parsing, full-text search, authentication handshakes, TLS and sockets.
- Listing of grants and privilege names.
- Quantized vector arithmetic and distances: the index works for any distance.
