/** Tunable quorums and last-writer-wins resolution. */
module QuorumRules {
  import opened Prelude

  datatype Consistency = One | Quorum | All {
    /** Acknowledgements required of `rf` replicas. */
    function Required(rf: nat): (n: nat)
      ensures 1 <= n && (rf >= 1 ==> n <= rf)
    {
      var r := if rf < 1 then 1 else rf;
      match this
      case One => 1
      case Quorum => r / 2 + 1
      case All => r
    }
  }

  predicate IsStrong(read: Consistency, write: Consistency, rf: nat) {
    read.Required(rf) + write.Required(rf) > rf
  }

  lemma {:induction false} SomeSubset(s: set<nat>, n: nat)
    requires n <= |s|
    ensures exists t: set<nat> :: t <= s && |t| == n
  {
    if n == |s| {
      assert s <= s;
    } else {
      var x :| x in s;
      SomeSubset(s - {x}, n);
      var t: set<nat> :| t <= s - {x} && |t| == n;
      assert t <= s;
    }
  }

  ghost predicate Overlap(read: Consistency, write: Consistency, rf: nat, replicas: set<nat>) {
    forall r: set<nat>, w: set<nat> ::
      (r <= replicas && w <= replicas && |r| >= read.Required(rf) && |w| >= write.Required(rf)) ==> r * w != {}
  }

  /** Every read set meets every write set if and only if the levels are strong together. */
  lemma StrongIffOverlap(read: Consistency, write: Consistency, rf: nat, replicas: set<nat>)
    requires rf >= 1 && |replicas| == rf
    ensures IsStrong(read, write, rf) <==> Overlap(read, write, rf, replicas)
  {
    if IsStrong(read, write, rf) {
      forall r: set<nat>, w: set<nat> | r <= replicas && w <= replicas &&
        |r| >= read.Required(rf) && |w| >= write.Required(rf)
        ensures r * w != {}
      {
        SubsetSize(r + w, replicas);
        assert |r + w| == |r| + |w| - |r * w|;
      }
    } else {
      SomeSubset(replicas, read.Required(rf));
      var r: set<nat> :| r <= replicas && |r| == read.Required(rf);
      assert |replicas - r| == rf - |r|;
      SomeSubset(replicas - r, write.Required(rf));
      var w: set<nat> :| w <= replicas - r && |w| == write.Required(rf);
      assert r * w == {} && w <= replicas;
    }
  }

  /** A quorum is the least number of replicas two sets of which always meet. Two quorums are strong, and so is
      ALL with any level; ONE is so with itself, or with a quorum, only where it cannot miss. */
  lemma QuorumIsMajority(rf: nat, n: nat)
    requires rf >= 1
    ensures n >= Quorum.Required(rf) <==> n + n > rf
    ensures IsStrong(Quorum, Quorum, rf) && forall l: Consistency :: IsStrong(All, l, rf) && IsStrong(l, All, rf)
    ensures IsStrong(One, One, rf) <==> rf == 1
    ensures IsStrong(One, Quorum, rf) <==> rf <= 2
    ensures All.Required(rf) == rf && One.Required(rf) == 1
  {
  }

  /** With no replicas configured, every level asks for one acknowledgement. */
  lemma NoReplicas(l: Consistency)
    ensures l.Required(0) == 1
  {
  }

  // Last writer wins.

  datatype Hlc = Hlc(physical: nat, logical: nat) {
    predicate Before(other: Hlc) {
      physical < other.physical || (physical == other.physical && logical < other.logical)
    }
  }

  /** Stamps are totally ordered, the physical part first. */
  lemma StampOrder(a: Hlc, b: Hlc)
    ensures a.physical < b.physical ==> a.Before(b)
    ensures a.physical == b.physical && a.logical < b.logical ==> a.Before(b)
    ensures a == b || (a.Before(b) <==> !b.Before(a))
    ensures !a.Before(a)
  {
  }

  datatype Versioned<T> = Versioned(hlc: Hlc, value: T)

  /** Older by stamp, or equally old and smaller in the canonical value order. */
  predicate Loses<V>(rank: V -> int, a: Versioned<V>, b: Versioned<V>) {
    a.hlc.Before(b.hlc) || (a.hlc == b.hlc && rank(a.value) < rank(b.value))
  }

  /** The winning copy: among equals the last. */
  function Winner<V>(rank: V -> int, versions: seq<Versioned<V>>): (w: Versioned<V>)
    requires versions != []
    ensures w in versions
    ensures forall i :: 0 <= i < |versions| ==> !Loses(rank, w, versions[i])
  {
    var last := versions[|versions| - 1];
    if |versions| == 1 then last
    else
      var best := Winner(rank, versions[..|versions| - 1]);
      assert forall i :: 0 <= i < |versions| - 1 ==> versions[i] == versions[..|versions| - 1][i];
      if Loses(rank, last, best) then best else last
  }

  /** The newest stamp wins; of equally new copies, the highest in the value order. */
  lemma WinnerIs<V>(rank: V -> int, versions: seq<Versioned<V>>, v: Versioned<V>)
    requires v in versions
    ensures var w := Winner(rank, versions);
            v.hlc.Before(w.hlc) || (v.hlc == w.hlc && rank(v.value) <= rank(w.value))
  {
    var i :| 0 <= i < |versions| && versions[i] == v;
    assert !Loses(rank, Winner(rank, versions), versions[i]);
    StampOrder(v.hlc, Winner(rank, versions).hlc);
  }

  function ResolveValue<V>(rank: V -> int, versions: seq<Versioned<V>>): Option<V> {
    if versions == [] then None else Some(Winner(rank, versions).value)
  }

  /** Resolution does not depend on the order of the copies. */
  lemma ResolvePermutes<V>(rank: V -> int, a: seq<Versioned<V>>, b: seq<Versioned<V>>)
    requires multiset(a) == multiset(b) && forall x, y :: x in a && y in a && rank(x.value) == rank(y.value) ==>
             x.value == y.value
    ensures ResolveValue(rank, a) == ResolveValue(rank, b)
  {
    assert |multiset(a)| == |multiset(b)|;
    if a != [] {
      var x, y := Winner(rank, a), Winner(rank, b);
      assert x in multiset(b) && y in multiset(a);
      var i :| 0 <= i < |b| && b[i] == x;
      var j :| 0 <= j < |a| && a[j] == y;
      assert !Loses(rank, x, a[j]) && !Loses(rank, y, b[i]);
    }
  }

  /** The copies a read collects from its replicas. */
  ghost predicate Copies<V>(store: map<nat, Versioned<V>>, read: set<nat>, copies: seq<Versioned<V>>) {
    && read <= store.Keys
    && forall r :: r in read ==> store[r] in copies
  }

  /** A strong read never resolves to a stamp older than an acknowledged write. */
  lemma ReadSeesWrite<V>(rank: V -> int, read: Consistency, write: Consistency, rf: nat, replicas: set<nat>,
                         store: map<nat, Versioned<V>>, readers: set<nat>, writers: set<nat>, stamp: Hlc,
                         copies: seq<Versioned<V>>)
    requires rf >= 1 && |replicas| == rf && IsStrong(read, write, rf)
    requires readers <= replicas && |readers| >= read.Required(rf)
    requires writers <= replicas && |writers| >= write.Required(rf)
    requires Copies(store, readers, copies)
    requires forall w :: w in writers * readers ==> !store[w].hlc.Before(stamp)
    ensures copies != [] && !Winner(rank, copies).hlc.Before(stamp)
  {
    StrongIffOverlap(read, write, rf, replicas);
    assert readers * writers != {};
    var r :| r in readers * writers;
    assert store[r] in copies;
    var i :| 0 <= i < |copies| && copies[i] == store[r];
    assert !Loses(rank, Winner(rank, copies), copies[i]);
  }

  // Field-level merge.

  type Doc<V> = map<string, V>

  /** The winning stamp and value of one field: the first copy with the highest stamp that holds it. */
  function FieldWinner<V>(versions: seq<Versioned<Doc<V>>>, f: string): Option<(Hlc, V)> {
    if versions == [] then None
    else
      var best, v := FieldWinner(versions[..|versions| - 1], f), versions[|versions| - 1];
      if f !in v.value then best
      else if best.None? || best.value.0.Before(v.hlc) then Some((v.hlc, v.value[f]))
      else best
  }

  /** `merge_documents`: each field from its winner, and no other field. */
  method MergeDocuments<V>(versions: seq<Versioned<Doc<V>>>) returns (doc: Doc<V>)
    ensures forall f :: f in doc <==> FieldWinner(versions, f).Some?
    ensures forall f :: f in doc ==> doc[f] == FieldWinner(versions, f).value.1
  {
    var fields: map<string, (Hlc, V)> := map[];
    var i := 0;
    while i < |versions|
      invariant 0 <= i <= |versions|
      invariant Tracks(versions[..i], fields)
    {
      assert versions[..i + 1][..i] == versions[..i];
      fields := MergeCopy(versions[..i], versions[i], fields);
      assert versions[..i + 1] == versions[..i] + [versions[i]];
      i := i + 1;
    }
    assert versions[..i] == versions;
    doc := map[];
    var rest := fields.Keys;
    while rest != {}
      invariant rest <= fields.Keys
      invariant forall f :: f in doc <==> f in fields && f !in rest
      invariant forall f :: f in doc ==> f in fields && doc[f] == fields[f].1
      decreases |rest|
    {
      var f :| f in rest;
      doc, rest := doc[f := fields[f].1], rest - {f};
    }
  }

  ghost predicate Tracks<V>(versions: seq<Versioned<Doc<V>>>, fields: map<string, (Hlc, V)>) {
    forall f :: FieldWinner(versions, f) == if f in fields then Some(fields[f]) else None
  }

  /** The inner loop: fold one copy's fields, in any order, into the winners so far. */
  method MergeCopy<V>(ghost done: seq<Versioned<Doc<V>>>, v: Versioned<Doc<V>>, before: map<string, (Hlc, V)>)
    returns (fields: map<string, (Hlc, V)>)
    requires Tracks(done, before)
    ensures Tracks(done + [v], fields)
  {
    fields := before;
    var rest := v.value.Keys;
    while rest != {}
      invariant rest <= v.value.Keys
      invariant forall f :: f in fields <==> f in before || (f in v.value && f !in rest)
      invariant forall f :: f in fields && f in v.value && f !in rest && (f !in before || before[f].0.Before(v.hlc)) ==>
                  fields[f] == (v.hlc, v.value[f])
      invariant forall f :: f in before && !(f in v.value && f !in rest && before[f].0.Before(v.hlc)) ==>
                  fields[f] == before[f]
      decreases |rest|
    {
      var f :| f in rest;
      if f !in fields || fields[f].0.Before(v.hlc) { fields := fields[f := (v.hlc, v.value[f])]; }
      rest := rest - {f};
    }
    assert (done + [v])[..|done|] == done;
    forall f ensures FieldWinner(done + [v], f) == if f in fields then Some(fields[f]) else None {
      assert FieldWinner(done, f) == if f in before then Some(before[f]) else None;
    }
  }

  /** The winner of a field is a copy that holds it, and no copy that holds it is newer. */
  lemma {:induction false} FieldWinnerIs<V>(versions: seq<Versioned<Doc<V>>>, f: string)
    ensures FieldWinner(versions, f).None? <==> forall v :: v in versions ==> f !in v.value
    ensures FieldWinner(versions, f).Some? ==>
              && (exists v :: v in versions && f in v.value && FieldWinner(versions, f).value == (v.hlc, v.value[f]))
              && (forall v :: v in versions && f in v.value ==> !FieldWinner(versions, f).value.0.Before(v.hlc))
  {
    if versions != [] {
      var front, v := versions[..|versions| - 1], versions[|versions| - 1];
      assert versions == front + [v];
      FieldWinnerIs(front, f);
    }
  }

  /** A copy that holds the field, with no newer one. */
  ghost predicate Newest<V(!new)>(versions: seq<Versioned<Doc<V>>>, f: string, x: Versioned<Doc<V>>) {
    x in versions && f in x.value && forall v :: v in versions && f in v.value ==> !x.hlc.Before(v.hlc)
  }

  /** The newest copies holding the field agree on it. */
  ghost predicate NewestAgree<V(!new)>(versions: seq<Versioned<Doc<V>>>, f: string) {
    forall x, y :: Newest(versions, f, x) && Newest(versions, f, y) ==> x.value[f] == y.value[f]
  }

  lemma {:induction false} FrontWins<V>(x: Versioned<Doc<V>>, rest: seq<Versioned<Doc<V>>>, f: string)
    requires f in x.value && forall v :: v in rest && f in v.value ==> !x.hlc.Before(v.hlc)
    ensures FieldWinner([x] + rest, f) == Some((x.hlc, x.value[f]))
  {
    var all := [x] + rest;
    if rest != [] {
      var front, v := rest[..|rest| - 1], rest[|rest| - 1];
      assert all[..|all| - 1] == [x] + front;
      assert v in rest && forall u :: u in front ==> u in rest;
      FrontWins(x, front, f);
    } else {
      assert all[..0] == [];
    }
  }

  /** A field's merged value is the same for every order of the copies if and only if its newest copies agree. */
  lemma MergeOrderIff<V(!new)>(versions: seq<Versioned<Doc<V>>>, f: string)
    ensures (forall p: seq<Versioned<Doc<V>>> :: multiset(p) == multiset(versions) ==>
               FieldWinner(p, f) == FieldWinner(versions, f)) <==> NewestAgree(versions, f)
  {
    if NewestAgree(versions, f) {
      forall p: seq<Versioned<Doc<V>>> | multiset(p) == multiset(versions)
        ensures FieldWinner(p, f) == FieldWinner(versions, f)
      {
        SameWinner(versions, p, f);
      }
    } else {
      var x, y :| Newest(versions, f, x) && Newest(versions, f, y) && x.value[f] != y.value[f];
      var p := ToFront(versions, x, f);
      var q := ToFront(versions, y, f);
      assert FieldWinner(p, f) != FieldWinner(q, f);
    }
  }

  /** Two copies with equal stamps: the first one's value wins, whichever it is. */
  lemma EqualStampsDisagree(f: string)
    ensures var a, b := Versioned(Hlc(0, 0), map[f := 1]), Versioned(Hlc(0, 0), map[f := 2]);
            && multiset([a, b]) == multiset([b, a])
            && FieldWinner([a, b], f) == Some((Hlc(0, 0), 1)) && FieldWinner([b, a], f) == Some((Hlc(0, 0), 2))
  {
    var a, b := Versioned(Hlc(0, 0), map[f := 1]), Versioned(Hlc(0, 0), map[f := 2]);
    assert [a, b] == [a] + [b] && [b, a] == [b] + [a];
    FrontWins(a, [b], f);
    FrontWins(b, [a], f);
  }

  lemma SameMembers<T>(a: seq<T>, b: seq<T>)
    requires multiset(a) == multiset(b)
    ensures forall v :: v in a <==> v in b
  {
    forall v ensures v in a <==> v in b { assert v in multiset(a) <==> v in multiset(b); }
  }

  lemma WinnerIsNewest<V(!new)>(versions: seq<Versioned<Doc<V>>>, f: string) returns (x: Versioned<Doc<V>>)
    requires FieldWinner(versions, f).Some?
    ensures Newest(versions, f, x) && FieldWinner(versions, f) == Some((x.hlc, x.value[f]))
  {
    FieldWinnerIs(versions, f);
    x :| x in versions && f in x.value && FieldWinner(versions, f).value == (x.hlc, x.value[f]);
  }

  lemma NewestAmong<V(!new)>(a: seq<Versioned<Doc<V>>>, b: seq<Versioned<Doc<V>>>, f: string, x: Versioned<Doc<V>>)
    requires multiset(a) == multiset(b) && Newest(a, f, x)
    ensures Newest(b, f, x) && FieldWinner(b, f).Some?
  {
    SameMembers(a, b);
    FieldWinnerIs(b, f);
  }

  lemma SameWinner<V(!new)>(versions: seq<Versioned<Doc<V>>>, p: seq<Versioned<Doc<V>>>, f: string)
    requires multiset(p) == multiset(versions) && NewestAgree(versions, f)
    ensures FieldWinner(p, f) == FieldWinner(versions, f)
  {
    if FieldWinner(versions, f).Some? {
      var x := WinnerIsNewest(versions, f);
      NewestAmong(versions, p, f, x);
      var y := WinnerIsNewest(p, f);
      NewestAmong(p, versions, f, y);
      assert !x.hlc.Before(y.hlc) && !y.hlc.Before(x.hlc);
    } else if FieldWinner(p, f).Some? {
      var y := WinnerIsNewest(p, f);
      NewestAmong(p, versions, f, y);
    }
  }

  lemma ToFront<V(!new)>(versions: seq<Versioned<Doc<V>>>, x: Versioned<Doc<V>>, f: string)
    returns (p: seq<Versioned<Doc<V>>>)
    requires Newest(versions, f, x)
    ensures multiset(p) == multiset(versions) && FieldWinner(p, f) == Some((x.hlc, x.value[f]))
  {
    var i :| 0 <= i < |versions| && versions[i] == x;
    var rest := versions[..i] + versions[i + 1..];
    p := [x] + rest;
    assert versions == versions[..i] + [x] + versions[i + 1..];
    forall v | v in rest ensures v in versions { }
    FrontWins(x, rest, f);
  }
}
