/** Whole runs of the host cache: accounting, coherence, and how long a key stays cached. */
module HostCacheRuns {
  import opened Common
  import opened HostCache

  function Run(maxBytes: int, c: Cache, ops: seq<Op>): Cache {
    if ops == [] then c else Step(maxBytes, Run(maxBytes, c, ops[..|ops| - 1]), ops[|ops| - 1])
  }

  // ---------- Accounting ----------

  lemma {:induction false} EvictedConsistent(c: Cache, n: nat, maxBytes: int)
    requires Distinct(c)
    ensures var r := Evicted(c, n, maxBytes);
            && Distinct(r) && Total(r) <= Total(c) && (forall e :: e in r ==> e in c)
            && (forall k :: Find(c, k).None? ==> Find(r, k).None?)
            && (r == [] || Total(r) + n <= maxBytes)
  {
    if c != [] && Total(c) + n > maxBytes {
      EvictedConsistent(c[1..], n, maxBytes);
    }
  }

  lemma StepConsistent(maxBytes: int, c: Cache, op: Op)
    requires Consistent(maxBytes, c)
    ensures Consistent(maxBytes, Step(maxBytes, c, op))
  {
    if !op.Clear? { WithoutFacts(c, op.key); }
    match op
    case Clear =>
    case Delete(k) =>
    case Get(k) =>
      if Find(c, k).Some? {
        TotalAppend(Without(c, k), [Find(c, k).value]);
        DistinctAppend(Without(c, k), Find(c, k).value);
      }
    case Put(k, t) =>
      var n, e := t.Nbytes(), Entry(k, t, t.Nbytes());
      EvictedConsistent(Without(c, k), n, maxBytes);
      var r := Evicted(Without(c, k), n, maxBytes);
      assert r + [] == r;
      TotalAppend(r, [e]);
      DistinctAppend(r, e);
  }

  /** Every reachable cache has distinct keys, true sizes and a total within the budget. */
  lemma {:induction false} RunConsistent(maxBytes: int, c: Cache, ops: seq<Op>)
    requires Consistent(maxBytes, c)
    ensures Consistent(maxBytes, Run(maxBytes, c, ops))
  {
    if ops != [] {
      RunConsistent(maxBytes, c, ops[..|ops| - 1]);
      StepConsistent(maxBytes, Run(maxBytes, c, ops[..|ops| - 1]), ops[|ops| - 1]);
    }
  }

  // ---------- Coherence ----------

  /** The tensor last put under a key, unless the key was deleted or the cache cleared since. */
  function LastPut(ops: seq<Op>, k: string): Option<HostTensor> {
    if ops == [] then None
    else match ops[|ops| - 1]
      case Put(j, t) => if j == k then Some(t) else LastPut(ops[..|ops| - 1], k)
      case Delete(j) => if j == k then None else LastPut(ops[..|ops| - 1], k)
      case Clear => None
      case Get(_) => LastPut(ops[..|ops| - 1], k)
  }

  /** Whatever a lookup returns is the tensor last put under that key. */
  lemma {:induction false} Coherence(maxBytes: int, ops: seq<Op>, k: string)
    ensures var found := Find(Run(maxBytes, [], ops), k);
            found.Some? ==> LastPut(ops, k) == Some(found.value.tensor)
  {
    if ops == [] {
    } else {
      var init, op := ops[..|ops| - 1], ops[|ops| - 1];
      var c := Run(maxBytes, [], init);
      RunConsistent(maxBytes, [], init);
      Coherence(maxBytes, init, k);
      if !op.Clear? { WithoutFacts(c, op.key); }
      match op
      case Clear =>
      case Delete(_) =>
      case Get(j) =>
        if Find(c, j).Some? { FindAppend(Without(c, j), [Find(c, j).value], k); }
      case Put(j, t) =>
        var r := Evicted(Without(c, j), t.Nbytes(), maxBytes);
        assert r + [] == r;
        EvictedFinds(Without(c, j), t.Nbytes(), maxBytes, k);
        FindAppend(r, [Entry(j, t, t.Nbytes())], k);
    }
  }

  lemma {:induction false} EvictedFinds(c: Cache, n: nat, maxBytes: int, k: string)
    requires Distinct(c)
    ensures Find(Evicted(c, n, maxBytes), k).Some? ==> Find(Evicted(c, n, maxBytes), k) == Find(c, k)
  {
    if c != [] && Total(c) + n > maxBytes {
      EvictedFinds(c[1..], n, maxBytes, k);
    }
  }

  // ---------- Retention ----------

  /** Keys with the largest size each of them has had. */
  type Peaks = seq<(string, nat)>

  function PeakOf(p: Peaks, k: string): Option<nat> {
    if p == [] then None else if p[0].0 == k then Some(p[0].1) else PeakOf(p[1..], k)
  }

  function PeakTotal(p: Peaks): nat { if p == [] then 0 else p[0].1 + PeakTotal(p[1..]) }

  function Raised(p: Peaks, k: string, n: nat): Peaks {
    if p == [] then [(k, n)]
    else if p[0].0 == k then [(k, if n > p[0].1 then n else p[0].1)] + p[1..]
    else [p[0]] + Raised(p[1..], k, n)
  }

  /** A put, or a get that hits, raises its key's peak to the entry's size. */
  function NextPeaks(p: Peaks, c: Cache, op: Op): Peaks {
    match op
    case Put(k, t) => Raised(p, k, t.Nbytes())
    case Get(k) => if Find(c, k).Some? then Raised(p, k, Find(c, k).value.nbytes) else p
    case Delete(_) => p
    case Clear => p
  }

  /** The keys that a run puts or hits, each with the largest size it had when it was put or hit. */
  function Demand(maxBytes: int, c: Cache, ops: seq<Op>): Peaks {
    if ops == [] then []
    else
      var init := ops[..|ops| - 1];
      NextPeaks(Demand(maxBytes, c, init), Run(maxBytes, c, init), ops[|ops| - 1])
  }

  predicate Covers(p: Peaks, c: Cache) {
    c == [] || (PeakOf(p, c[0].key).Some? && c[0].nbytes <= PeakOf(p, c[0].key).value && Covers(p, c[1..]))
  }

  lemma {:induction false} RaisedFacts(p: Peaks, k: string, n: nat)
    ensures PeakTotal(p) <= PeakTotal(Raised(p, k, n))
    ensures PeakOf(Raised(p, k, n), k).Some? && PeakOf(Raised(p, k, n), k).value >= n
    ensures forall j :: PeakOf(p, j).Some? ==>
              PeakOf(Raised(p, k, n), j).Some? && PeakOf(Raised(p, k, n), j).value >= PeakOf(p, j).value
  {
    if p != [] && p[0].0 != k {
      RaisedFacts(p[1..], k, n);
      assert Raised(p, k, n)[1..] == Raised(p[1..], k, n);
    }
  }

  function PeaksWithout(p: Peaks, k: string): Peaks {
    if p == [] then [] else if p[0].0 == k then p[1..] else [p[0]] + PeaksWithout(p[1..], k)
  }

  lemma {:induction false} PeaksWithoutFacts(p: Peaks, k: string)
    requires PeakOf(p, k).Some?
    ensures PeakTotal(p) == PeakOf(p, k).value + PeakTotal(PeaksWithout(p, k))
    ensures forall j :: j != k ==> PeakOf(PeaksWithout(p, k), j) == PeakOf(p, j)
  {
    if p[0].0 != k {
      PeaksWithoutFacts(p[1..], k);
      assert PeaksWithout(p, k)[1..] == PeaksWithout(p[1..], k);
    }
  }

  lemma {:induction false} CoversTransfer(p: Peaks, q: Peaks, c: Cache)
    requires Covers(p, c)
    requires forall e :: e in c && PeakOf(p, e.key).Some? ==>
               PeakOf(q, e.key).Some? && PeakOf(q, e.key).value >= PeakOf(p, e.key).value
    ensures Covers(q, c)
  {
    if c != [] { CoversTransfer(p, q, c[1..]); }
  }

  lemma {:induction false} CoversTotal(p: Peaks, c: Cache)
    requires Covers(p, c) && Distinct(c)
    ensures Total(c) <= PeakTotal(p)
    decreases |c|
  {
    if c != [] {
      var k := c[0].key;
      PeaksWithoutFacts(p, k);
      CoversTransfer(p, PeaksWithout(p, k), c[1..]);
      CoversTotal(PeaksWithout(p, k), c[1..]);
    }
  }

  lemma {:induction false} CoversWithout(p: Peaks, c: Cache, k: string)
    requires Covers(p, c)
    ensures Covers(p, Without(c, k))
  {
    if c != [] {
      CoversWithout(p, c[1..], k);
      if c[0].key != k { assert Without(c, k)[1..] == Without(c[1..], k); }
    }
  }

  lemma {:induction false} CoversAppend(p: Peaks, c: Cache, e: Entry)
    requires Covers(p, c) && PeakOf(p, e.key).Some? && e.nbytes <= PeakOf(p, e.key).value
    ensures Covers(p, c + [e])
  {
    if c == [] {
      assert [] + [e] == [e];
    } else {
      assert (c + [e])[1..] == c[1..] + [e];
      CoversAppend(p, c[1..], e);
    }
  }

  lemma {:induction false} EvictedKeepsSuffix(a: Cache, b: Cache, n: nat, maxBytes: int) returns (a': Cache)
    requires Total(b) + n <= maxBytes
    ensures Evicted(a + b, n, maxBytes) == a' + b
  {
    if a == [] {
      assert a + b == b;
      a' := [];
    } else if Total(a + b) + n > maxBytes {
      assert (a + b)[1..] == a[1..] + b;
      a' := EvictedKeepsSuffix(a[1..], b, n, maxBytes);
    } else {
      a' := a;
    }
  }

  /** The entry e, and after it only entries that the peaks account for. */
  ghost predicate Protected(c: Cache, e: Entry, older: Cache, newer: Cache, p: Peaks) {
    c == older + ([e] + newer) && Covers(p, newer)
  }

  lemma DistinctParts(a: Cache, b: Cache)
    requires Distinct(a + b)
    ensures Distinct(b)
    decreases |a|
  {
    if a == [] {
      assert a + b == b;
    } else {
      assert (a + b)[1..] == a[1..] + b;
      DistinctParts(a[1..], b);
    }
  }

  lemma WithoutOther(e: Entry, newer: Cache, k: string)
    requires e.key != k
    ensures Without([e] + newer, k) == [e] + Without(newer, k)
  {
    assert ([e] + newer)[1..] == newer;
  }

  lemma TotalCons(e: Entry, c: Cache)
    ensures Total([e] + c) == e.nbytes + Total(c)
  {
    assert ([e] + c)[1..] == c;
  }

  lemma MoveToEnd(a: Cache, e: Entry, b: Cache, x: Entry)
    ensures a + ([e] + b) + [x] == a + ([e] + (b + [x]))
  {
  }

  /** Without another key, the entry and what follows it. */
  lemma {:induction false} ProtectedWithout(c: Cache, e: Entry, older: Cache, newer: Cache, p: Peaks, k: string)
    requires Protected(c, e, older, newer, p) && k != e.key
    ensures Protected(Without(c, k), e, Without(older, k), Without(newer, k), p)
  {
    WithoutAppend(older, [e] + newer, k);
    WithoutOther(e, newer, k);
    CoversWithout(p, newer, k);
  }

  /** An entry appended under a key whose peak is raised to its size. */
  lemma ProtectedAppend(c: Cache, e: Entry, older: Cache, newer: Cache, p: Peaks, x: Entry)
    requires Protected(c, e, older, newer, p)
    ensures Protected(c + [x], e, older, newer + [x], Raised(p, x.key, x.nbytes))
  {
    hide Covers, PeakOf, Raised, PeakTotal;
    RaisedFacts(p, x.key, x.nbytes);
    CoversTransfer(p, Raised(p, x.key, x.nbytes), newer);
    CoversAppend(Raised(p, x.key, x.nbytes), newer, x);
    MoveToEnd(older, e, newer, x);
  }

  /** One operation on another key keeps e, as long as what the peaks account for fits beside it. */
  lemma ProtectedStep(maxBytes: int, c: Cache, e: Entry, older: Cache, newer: Cache, p: Peaks, op: Op)
    returns (older': Cache, newer': Cache)
    requires Consistent(maxBytes, c) && Protected(c, e, older, newer, p)
    requires !op.Clear? && op.key != e.key
    requires e.nbytes + PeakTotal(NextPeaks(p, c, op)) <= maxBytes
    ensures Protected(Step(maxBytes, c, op), e, older', newer', NextPeaks(p, c, op))
  {
    hide Protected, Without, Find, Evicted, Raised, PeakTotal, Total;
    var k := op.key;
    ProtectedWithout(c, e, older, newer, p, k);
    older', newer' := Without(older, k), Without(newer, k);
    match op {
      case Delete(_) =>
      case Get(_) =>
        if Find(c, k).None? {
          older', newer' := older, newer;
        } else {
          ProtectedAppend(Without(c, k), e, older', newer', p, Find(c, k).value);
          newer' := newer' + [Find(c, k).value];
        }
      case Put(_, t) =>
        older', newer' := ProtectedPut(maxBytes, c, e, older', newer', p, Entry(k, t, t.Nbytes()));
    }
  }

  lemma ProtectedPut(maxBytes: int, c: Cache, e: Entry, a: Cache, b: Cache, p: Peaks, put: Entry)
    returns (older': Cache, newer': Cache)
    requires Consistent(maxBytes, c) && Protected(Without(c, put.key), e, a, b, p)
    requires e.nbytes + PeakTotal(Raised(p, put.key, put.nbytes)) <= maxBytes
    ensures put.nbytes <= maxBytes
    ensures Protected(Evicted(Without(c, put.key), put.nbytes, maxBytes) + [put], e, older', newer',
                      Raised(p, put.key, put.nbytes))
  {
    hide Without, Find, Evicted, Raised, PeakTotal, Total, Covers;
    ProtectedAppend(Without(c, put.key), e, a, b, p, put);
    PutFits(c, e, a, b, put, Raised(p, put.key, put.nbytes));
    var a' := EvictedKeepsSuffix(a, [e] + b, put.nbytes, maxBytes);
    ProtectedAppend(a' + ([e] + b), e, a', b, p, put);
    older', newer' := a', b + [put];
  }

  lemma PutFits(c: Cache, e: Entry, a: Cache, b: Cache, put: Entry, p: Peaks)
    requires Distinct(c) && Without(c, put.key) == a + ([e] + b)
    requires Covers(p, b + [put])
    ensures Total([e] + b) + put.nbytes <= e.nbytes + PeakTotal(p)
  {
    hide Without, Covers, PeakTotal, Distinct;
    WithoutFacts(c, put.key);
    Concat3(a, [e], b);
    DistinctParts(a + [e], b);
    FindAppend(a + [e], b, put.key);
    DistinctAppend(b, put);
    CoversTotal(p, b + [put]);
    TotalAppend(b, [put]);
    TotalCons(e, b);
  }

  lemma {:induction false} DemandGrows(maxBytes: int, c: Cache, ops: seq<Op>)
    requires ops != []
    ensures PeakTotal(Demand(maxBytes, c, ops[..|ops| - 1])) <= PeakTotal(Demand(maxBytes, c, ops))
  {
    NextPeaksGrow(Demand(maxBytes, c, ops[..|ops| - 1]), Run(maxBytes, c, ops[..|ops| - 1]), ops[|ops| - 1]);
  }

  lemma NextPeaksGrow(p: Peaks, c: Cache, op: Op)
    ensures PeakTotal(p) <= PeakTotal(NextPeaks(p, c, op))
  {
    match op
    case Put(k, t) => RaisedFacts(p, k, t.Nbytes());
    case Get(k) => if Find(c, k).Some? { RaisedFacts(p, k, Find(c, k).value.nbytes); }
    case Delete(_) =>
    case Clear =>
  }

  lemma {:induction false} ProtectedRun(maxBytes: int, c: Cache, e: Entry, older: Cache, ops: seq<Op>)
    returns (older': Cache, newer': Cache)
    requires Consistent(maxBytes, c) && c == older + [e]
    requires forall op :: op in ops ==> !op.Clear? && op.key != e.key
    requires e.nbytes + PeakTotal(Demand(maxBytes, c, ops)) <= maxBytes
    ensures Protected(Run(maxBytes, c, ops), e, older', newer', Demand(maxBytes, c, ops))
  {
    if ops == [] {
      assert [e] + [] == [e];
      older', newer' := older, [];
    } else {
      var init, op := ops[..|ops| - 1], ops[|ops| - 1];
      DemandGrows(maxBytes, c, ops);
      var o, w := ProtectedRun(maxBytes, c, e, older, init);
      RunConsistent(maxBytes, c, init);
      assert op in ops;
      older', newer' := ProtectedStep(maxBytes, Run(maxBytes, c, init), e, o, w, Demand(maxBytes, c, init), op);
    }
  }

  /** The most recently used entry is still cached, unchanged, after any run that neither touches its key nor clears the
      cache, if its size and the largest size of each key put or hit in the run fit in the budget together. */
  lemma {:induction false} Retention(maxBytes: int, c: Cache, ops: seq<Op>)
    requires Consistent(maxBytes, c) && c != []
    requires forall op :: op in ops ==> !op.Clear? && op.key != c[|c| - 1].key
    requires c[|c| - 1].nbytes + PeakTotal(Demand(maxBytes, c, ops)) <= maxBytes
    ensures Find(Run(maxBytes, c, ops), c[|c| - 1].key) == Some(c[|c| - 1])
  {
    var e, older := c[|c| - 1], c[..|c| - 1];
    assert c == older + [e];
    var o, w := ProtectedRun(maxBytes, c, e, older, ops);
    RunConsistent(maxBytes, c, ops);
    FindMiddle(o, e, w);
  }

  lemma {:induction false} FindMiddle(a: Cache, e: Entry, b: Cache)
    requires Distinct(a + ([e] + b))
    ensures Find(a + ([e] + b), e.key) == Some(e)
  {
    var c := a + ([e] + b);
    if a == [] {
      assert c == [e] + b;
    } else {
      assert c[1..] == a[1..] + ([e] + b);
      FindMiddle(a[1..], e, b);
    }
  }

  // ---------- Since a key's last access ----------

  lemma {:induction false} RunAppend(maxBytes: int, c: Cache, a: seq<Op>, b: seq<Op>)
    ensures Run(maxBytes, c, a + b) == Run(maxBytes, Run(maxBytes, c, a), b)
  {
    if b == [] {
      assert a + b == a;
    } else {
      hide Step;
      var init := b[..|b| - 1];
      assert (a + b)[..|a + b| - 1] == a + init;
      RunAppend(maxBytes, c, a, init);
    }
  }

  /** The operation uses its key: a put that fits, or a get that hits. */
  predicate Accesses(maxBytes: int, c: Cache, op: Op) {
    (op.Put? && op.tensor.Nbytes() <= maxBytes) || (op.Get? && Find(c, op.key).Some?)
  }

  function Accessed(c: Cache, op: Op): HostTensor
    requires op.Put? || (op.Get? && Find(c, op.key).Some?)
  {
    if op.Put? then op.tensor else Find(c, op.key).value.tensor
  }

  lemma AccessMakesNewest(maxBytes: int, c: Cache, op: Op)
    requires Consistent(maxBytes, c) && Accesses(maxBytes, c, op)
    ensures var c' := Step(maxBytes, c, op);
            && c' != [] && c'[|c'| - 1] == Entry(op.key, Accessed(c, op), Accessed(c, op).Nbytes())
  {
    if op.Get? { FoundEntry(c, op.key); }
  }

  lemma {:induction false} FoundEntry(c: Cache, k: string)
    requires Find(c, k).Some?
    ensures Find(c, k).value in c && Find(c, k).value.key == k
  {
    if c[0].key != k { FoundEntry(c[1..], k); }
  }

  /** In any run from an empty cache, a key accessed for the last time (by a put that fits or a get that hits, with no
      later operation on it and no clear) is still cached with its tensor, if its size and the largest size of every
      other key put or hit since fit in the budget together. */
  lemma {:induction false} RetainedSinceAccess(maxBytes: int, before: seq<Op>, access: Op, after: seq<Op>)
    requires Accesses(maxBytes, Run(maxBytes, [], before), access)
    requires forall op :: op in after ==> !op.Clear? && op.key != access.key
    requires var tensor := Accessed(Run(maxBytes, [], before), access);
             tensor.Nbytes() + PeakTotal(Demand(maxBytes, Run(maxBytes, [], before + [access]), after)) <= maxBytes
    ensures var tensor := Accessed(Run(maxBytes, [], before), access);
            Find(Run(maxBytes, [], before + [access] + after), access.key)
            == Some(Entry(access.key, tensor, tensor.Nbytes()))
  {
    hide Step, Find, PeakTotal, Demand, Accesses, Accessed, Consistent, Run;
    var c := Run(maxBytes, [], before);
    EmptyConsistent(maxBytes);
    RunConsistent(maxBytes, [], before);
    RunConsistent(maxBytes, [], before + [access]);
    RunOne(maxBytes, [], before, access);
    AccessMakesNewest(maxBytes, c, access);
    RunAppend(maxBytes, [], before + [access], after);
    Retention(maxBytes, Run(maxBytes, [], before + [access]), after);
  }

  lemma EmptyConsistent(maxBytes: int)
    ensures Consistent(maxBytes, [])
  {
  }

  lemma RunOne(maxBytes: int, c: Cache, ops: seq<Op>, op: Op)
    ensures Run(maxBytes, c, ops + [op]) == Step(maxBytes, Run(maxBytes, c, ops), op)
  {
    hide Step;
    assert (ops + [op])[..|ops|] == ops;
  }
}
