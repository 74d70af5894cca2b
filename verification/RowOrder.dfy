/** Rows of a time-series table, their orders, and sorting a set of rows under an order. */
module RowOrder {
  import opened Int64

  /** A rebuilt row: one document per (series, millisecond). `series` is the rank of the
      series identity in the byte order that the gather's ordered map iterates by. */
  datatype Key = Key(series: int, ts: I64)

  /** `BySeries` is the gather order; `Asc`/`Desc` are `ORDER BY ts` with ties in series order. */
  datatype Order = BySeries | Asc | Desc

  predicate Before(o: Order, a: Key, b: Key) {
    match o
    case BySeries => a.series < b.series || (a.series == b.series && a.ts < b.ts)
    case Asc => a.ts < b.ts || (a.ts == b.ts && a.series < b.series)
    case Desc => a.ts > b.ts || (a.ts == b.ts && a.series < b.series)
  }

  ghost predicate Sorted(o: Order, s: seq<Key>) {
    forall i, j :: 0 <= i < j < |s| ==> Before(o, s[i], s[j])
  }

  function Elems(s: seq<Key>): set<Key> { set k | k in s }

  predicate IsFirst(o: Order, m: Key, rows: set<Key>) {
    m in rows && forall x :: x in rows && x != m ==> Before(o, m, x)
  }

  lemma FirstExists(o: Order, rows: set<Key>)
    requires rows != {}
    ensures exists m :: IsFirst(o, m, rows)
  {
    var x :| x in rows;
    if rows == {x} {
      assert IsFirst(o, x, rows);
    } else {
      var rest := rows - {x};
      FirstExists(o, rest);
      var m :| IsFirst(o, m, rest);
      if Before(o, x, m) {
        forall y | y in rows && y != x ensures Before(o, x, y) {
          assert y in rest;
        }
        assert IsFirst(o, x, rows);
      } else {
        forall y | y in rows && y != m ensures Before(o, m, y) {
          assert y == x || y in rest;
        }
        assert IsFirst(o, m, rows);
      }
    }
  }

  lemma ElemsConcat(s: seq<Key>, t: seq<Key>)
    ensures Elems(s + t) == Elems(s) + Elems(t)
  {
    forall k ensures k in Elems(s + t) <==> k in Elems(s) + Elems(t) {
      assert k in s + t <==> k in s || k in t;
    }
  }

  lemma ConcatSorted(o: Order, s: seq<Key>, t: seq<Key>)
    requires Sorted(o, s) && Sorted(o, t)
    requires forall x, y :: x in Elems(s) && y in Elems(t) ==> Before(o, x, y)
    ensures Sorted(o, s + t)
  {
    forall i, j | 0 <= i < j < |s + t| ensures Before(o, (s + t)[i], (s + t)[j]) {
      if i < |s| <= j {
        assert s[i] in Elems(s) && t[j - |s|] in Elems(t);
      }
    }
  }

  /** The rows of a set in order: what iterating an ordered map yields. */
  function Sort(o: Order, rows: set<Key>): (s: seq<Key>)
    ensures Sorted(o, s) && Elems(s) == rows && |s| == |rows|
  {
    if rows == {} then []
    else
      FirstExists(o, rows);
      var m :| IsFirst(o, m, rows);
      var rest := Sort(o, rows - {m});
      ElemsConcat([m], rest);
      assert Elems([m]) == {m};
      ConcatSorted(o, [m], rest);
      [m] + rest
  }

  lemma NonemptyElems(s: seq<Key>)
    ensures s != [] <==> Elems(s) != {}
  {
    if s != [] { assert s[0] in Elems(s); }
  }

  /** A set has only one ordered listing. */
  lemma {:induction false} SortedUnique(o: Order, s: seq<Key>, t: seq<Key>)
    requires Sorted(o, s) && Sorted(o, t) && Elems(s) == Elems(t)
    ensures s == t
  {
    NonemptyElems(s);
    NonemptyElems(t);
    if s != [] {
      assert s[0] in Elems(s) && t[0] in Elems(t);
      assert s[0] in t && t[0] in s;
      assert s[0] == t[0];
      assert s == [s[0]] + s[1..] && t == [t[0]] + t[1..];
      forall k ensures k in Elems(s[1..]) <==> k in Elems(t[1..]) {
        assert k in Elems(s) <==> k in Elems(t);
      }
      SortedUnique(o, s[1..], t[1..]);
    }
  }

  /** If every row of `a` precedes every row of `b`, sorting the union sorts the parts. */
  lemma SortUnion(o: Order, a: set<Key>, b: set<Key>)
    requires forall x, y :: x in a && y in b ==> Before(o, x, y)
    ensures Sort(o, a + b) == Sort(o, a) + Sort(o, b)
  {
    SortOfListing(o, a + b, Sort(o, a), Sort(o, b));
  }

  /** Two sorted runs, one wholly before the other, list the union. */
  lemma SortOfListing(o: Order, rows: set<Key>, s: seq<Key>, t: seq<Key>)
    requires Sorted(o, s) && Sorted(o, t) && rows == Elems(s) + Elems(t)
    requires forall x, y :: x in Elems(s) && y in Elems(t) ==> Before(o, x, y)
    ensures Sort(o, rows) == s + t
  {
    ElemsConcat(s, t);
    ConcatSorted(o, s, t);
    SortedUnique(o, Sort(o, rows), s + t);
  }

  /** Insert `x` after every row that does not come strictly later in time. */
  function InsertStable(desc: bool, t: seq<Key>, x: Key): (r: seq<Key>)
    ensures |r| == |t| + 1
  {
    if t == [] || (if desc then x.ts <= t[|t| - 1].ts else x.ts >= t[|t| - 1].ts) then t + [x]
    else InsertStable(desc, t[..|t| - 1], x) + [t[|t| - 1]]
  }

  /** `sort_docs` with the single key `ts`: order by time, ties by original position. */
  function StableSort(desc: bool, s: seq<Key>): (r: seq<Key>)
    ensures |r| == |s|
  {
    if s == [] then [] else InsertStable(desc, StableSort(desc, s[..|s| - 1]), s[|s| - 1])
  }

  /** Rows of the same millisecond appear in series order. */
  ghost predicate TieOrdered(s: seq<Key>) {
    forall i, j :: 0 <= i < j < |s| && s[i].ts == s[j].ts ==> s[i].series < s[j].series
  }

  function TimeOrder(desc: bool): Order { if desc then Desc else Asc }

  lemma {:induction false} InsertStableSorted(desc: bool, t: seq<Key>, x: Key)
    requires Sorted(TimeOrder(desc), t)
    requires forall k :: k in Elems(t) && k.ts == x.ts ==> k.series < x.series
    ensures Sorted(TimeOrder(desc), InsertStable(desc, t, x))
    ensures Elems(InsertStable(desc, t, x)) == Elems(t) + {x}
  {
    if t == [] || (if desc then x.ts <= t[|t| - 1].ts else x.ts >= t[|t| - 1].ts) {
      ElemsConcat(t, [x]);
      forall i | 0 <= i < |t| ensures Before(TimeOrder(desc), t[i], x) {
        assert t[i] in Elems(t);
      }
    } else {
      var last, front := t[|t| - 1], t[..|t| - 1];
      assert t == front + [last];
      ElemsConcat(front, [last]);
      InsertStableSorted(desc, front, x);
      var r := InsertStable(desc, front, x);
      ElemsConcat(r, [last]);
      assert Elems([last]) == {last};
      ConcatSorted(TimeOrder(desc), r, [last]);
    }
  }

  /** Sorting rows listed with ties in series order gives the listing of their set. */
  lemma {:induction false} StableSortIsSort(desc: bool, s: seq<Key>)
    requires TieOrdered(s)
    ensures StableSort(desc, s) == Sort(TimeOrder(desc), Elems(s))
  {
    StableSortSorted(desc, s);
    SortedUnique(TimeOrder(desc), StableSort(desc, s), Sort(TimeOrder(desc), Elems(s)));
  }

  lemma {:induction false} StableSortSorted(desc: bool, s: seq<Key>)
    requires TieOrdered(s)
    ensures Sorted(TimeOrder(desc), StableSort(desc, s))
    ensures Elems(StableSort(desc, s)) == Elems(s)
  {
    if s != [] {
      var front, x := s[..|s| - 1], s[|s| - 1];
      assert s == front + [x];
      ElemsConcat(front, [x]);
      StableSortSorted(desc, front);
      forall k | k in Elems(front) && k.ts == x.ts ensures k.series < x.series {
        var i :| 0 <= i < |front| && front[i] == k;
        assert s[i] == k;
      }
      InsertStableSorted(desc, StableSort(desc, front), x);
    }
  }
}
