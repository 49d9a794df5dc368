/** The in-memory manifest index with a time to live per entry, deleted when next looked at. */
module MemoryIndex {
  import opened Common
  import opened TransferTypes

  type Index = map<string, PrefixManifest>

  predicate Expired(m: PrefixManifest, now: int) { m.ttlS > 0 && now - m.createdAtMs > m.ttlS * 1000 }

  function Live(index: Index, now: int): Index { map k | k in index && !Expired(index[k], now) :: index[k] }

  datatype Op =
    | Get(key: string)
    | Put(manifest: PrefixManifest)
    | Delete(key: string)
    | Touch(key: string)
    | EvictExpired

  /** A lookup's result (None for the other operations) and the index afterwards, when entries vanish only when looked
      at or evicted. */
  function LazyStep(index: Index, now: int, op: Op): (Option<PrefixManifest>, Index) {
    match op
    case Get(k) =>
      if k !in index then (None, index)
      else if Expired(index[k], now) then (None, index - {k})
      else (Some(index[k]), index)
    case Put(m) => (None, index[m.prefixKey := m])
    case Delete(k) => (None, index - {k})
    case Touch(k) => (None, if k in index then index[k := index[k].(lastAccessMs := now)] else index)
    case EvictExpired => (None, Live(index, now))
  }

  class MemoryIndex {
    var index: Index

    constructor ()
      ensures index == map[]
    {
      index := map[];
    }

    method GetManifest(key: string, now: int) returns (manifest: Option<PrefixManifest>)
      modifies this
      ensures (manifest, index) == LazyStep(old(index), now, Get(key))
      ensures manifest.Some? ==> manifest == Some(old(index)[key]) && index == old(index)
      ensures manifest.None? ==> index == old(index) - {key}
      ensures manifest.Some? <==>
        && key in old(index)
        && (old(index)[key].ttlS <= 0 || now <= old(index)[key].createdAtMs + 1000 * old(index)[key].ttlS)
    {
      if key in index {
        if Expired(index[key], now) {
          index := index - {key};
          return None;
        }
        return Some(index[key]);
      }
      manifest := None;
    }

    method PutManifest(manifest: PrefixManifest)
      modifies this
      ensures index == old(index)[manifest.prefixKey := manifest]
    {
      index := index[manifest.prefixKey := manifest];
    }

    method DeleteKey(key: string) returns (existed: bool)
      modifies this
      ensures existed <==> key in old(index)
      ensures index == old(index) - {key}
    {
      existed := key in index;
      index := index - {key};
    }

    method TouchKey(key: string, now: int) returns (existed: bool)
      modifies this
      ensures existed <==> key in old(index)
      ensures index == LazyStep(old(index), now, Touch(key)).1
      ensures index == if key in old(index)
                       then old(index)[key := old(index)[key].(lastAccessMs := now)] else old(index)
    {
      existed := key in index;
      if existed {
        index := index[key := index[key].(lastAccessMs := now)];
      }
    }

    /** The first loop of evict_expired. */
    method ExpiredKeys(now: int) returns (expired: seq<string>)
      ensures forall k :: k in expired <==> k in index && Expired(index[k], now)
      ensures forall i, j :: 0 <= i < j < |expired| ==> expired[i] != expired[j]
    {
      hide Expired;
      expired := [];
      var todo := index.Keys;
      while todo != {}
        invariant todo <= index.Keys
        invariant forall k :: k in expired <==> k in index.Keys - todo && Expired(index[k], now)
        invariant forall i, j :: 0 <= i < j < |expired| ==> expired[i] != expired[j]
        decreases |todo|
      {
        var k :| k in todo;
        if Expired(index[k], now) {
          expired := expired + [k];
        }
        todo := todo - {k};
      }
    }

    method EvictAllExpired(now: int) returns (count: nat)
      modifies this
      ensures index == Live(old(index), now) && count == |old(index)| - |index|
      ensures forall k :: k in index <==>
                && k in old(index)
                && (old(index)[k].ttlS <= 0 || now <= old(index)[k].createdAtMs + 1000 * old(index)[k].ttlS)
    {
      hide Live, Expired;
      var expired := ExpiredKeys(now);
      ghost var gone: set<string> := {};
      for i := 0 to |expired|
        invariant index == old(index) - gone && |gone| == i
        invariant forall k :: k in gone <==> k in expired[..i]
      {
        NextGone(old(index), expired, i, gone);
        gone := gone + {expired[i]};
        index := index - {expired[i]};
      }
      assert expired[..|expired|] == expired;
      RemoveExpired(old(index), gone, now);
      LiveIff(old(index), now);
      count := |expired|;
    }
  }

  lemma LiveIff(m: Index, now: int)
    ensures forall k :: k in Live(m, now) <==> k in m && (m[k].ttlS <= 0 || now <= m[k].createdAtMs + 1000 * m[k].ttlS)
    ensures forall k :: k in Live(m, now) ==> Live(m, now)[k] == m[k]
  {
  }

  lemma NextGone(m: Index, keys: seq<string>, i: nat, gone: set<string>)
    requires i < |keys| && (forall k :: k in gone <==> k in keys[..i]) && forall j :: 0 <= j < i ==> keys[j] != keys[i]
    ensures keys[i] !in gone && m - gone - {keys[i]} == m - (gone + {keys[i]})
    ensures forall k :: k in gone + {keys[i]} <==> k in keys[..i + 1]
  {
    assert keys[..i + 1] == keys[..i] + [keys[i]];
  }

  lemma RemoveExpired(m: Index, gone: set<string>, now: int)
    requires gone <= m.Keys && forall k :: k in m ==> (k in gone <==> Expired(m[k], now))
    ensures m - gone == Live(m, now) && |m - gone| == |m| - |gone|
  {
    assert (m - gone).Keys == m.Keys - gone;
  }

  // ---------- Lazy deletion against immediate deletion ----------

  /** The same operations on an index whose expired entries vanish at once. */
  function EagerStep(index: Index, now: int, op: Op): (Option<PrefixManifest>, Index) {
    var live := Live(index, now);
    match op
    case Get(k) => (if k in live then Some(live[k]) else None, live)
    case Put(m) => (None, live[m.prefixKey := m])
    case Delete(k) => (None, live - {k})
    case Touch(k) => (None, if k in live then live[k := live[k].(lastAccessMs := now)] else live)
    case EvictExpired => (None, live)
  }

  /** A manifest without its access time. */
  function Bare(m: PrefixManifest): PrefixManifest { m.(lastAccessMs := 0) }

  function BareResult(r: Option<PrefixManifest>): Option<PrefixManifest> {
    if r.Some? then Some(Bare(r.value)) else None
  }

  /** The unexpired entries, without their access times: all that a lookup can show. */
  function Visible(index: Index, now: int): Index { map k | k in index && !Expired(index[k], now) :: Bare(index[k]) }

  datatype Event = Event(now: int, op: Op)

  predicate ClockForward(start: int, events: seq<Event>)
    decreases |events|
  {
    events == [] || (start <= events[0].now && ClockForward(events[0].now, events[1..]))
  }

  /** What each lookup of a run returns, access times left out; None for the other operations. */
  function LazyLookups(index: Index, events: seq<Event>): seq<Option<PrefixManifest>>
    decreases |events|
  {
    if events == [] then []
    else
      var (r, next) := LazyStep(index, events[0].now, events[0].op);
      (if events[0].op.Get? then [BareResult(r)] else []) + LazyLookups(next, events[1..])
  }

  function EagerLookups(index: Index, events: seq<Event>): seq<Option<PrefixManifest>>
    decreases |events|
  {
    if events == [] then []
    else
      var (r, next) := EagerStep(index, events[0].now, events[0].op);
      (if events[0].op.Get? then [BareResult(r)] else []) + EagerLookups(next, events[1..])
  }

  lemma VisibleLater(a: Index, b: Index, t: int, now: int)
    requires t <= now && Visible(a, t) == Visible(b, t)
    ensures Visible(a, now) == Visible(b, now)
  {
    forall k
      ensures k in Visible(a, now) <==> k in Visible(b, now)
      ensures k in Visible(a, now) ==> Visible(a, now)[k] == Visible(b, now)[k]
    {
      assert k in Visible(a, t) <==> k in Visible(b, t);
      if k in Visible(a, t) {
        assert Visible(a, t)[k] == Visible(b, t)[k];
        assert Bare(a[k]) == Bare(b[k]);
        assert a[k].ttlS == b[k].ttlS && a[k].createdAtMs == b[k].createdAtMs;
      }
    }
  }

  /** What is visible after an operation, and what a lookup returns, depend only on what was visible before. */
  function VisibleStep(v: Index, now: int, op: Op): Index {
    match op
    case Put(m) => if Expired(m, now) then v - {m.prefixKey} else v[m.prefixKey := Bare(m)]
    case Delete(k) => v - {k}
    case Get(_) => v
    case Touch(_) => v
    case EvictExpired => v
  }

  lemma LazyVisible(index: Index, now: int, op: Op)
    ensures Visible(LazyStep(index, now, op).1, now) == VisibleStep(Visible(index, now), now, op)
    ensures op.Get? ==> BareResult(LazyStep(index, now, op).0)
                        == if op.key in Visible(index, now) then Some(Visible(index, now)[op.key]) else None
  {
  }

  lemma EagerVisible(index: Index, now: int, op: Op)
    ensures Visible(EagerStep(index, now, op).1, now) == VisibleStep(Visible(index, now), now, op)
    ensures op.Get? ==> BareResult(EagerStep(index, now, op).0)
                        == if op.key in Visible(index, now) then Some(Visible(index, now)[op.key]) else None
  {
  }

  /** With a clock that never runs back, every lookup of any run gives the hit or miss, and the manifest up to its
      access time, that it would give if expired entries vanished at once. */
  lemma {:induction false} LazyRefinesEager(lazy: Index, eager: Index, t: int, events: seq<Event>)
    requires Visible(lazy, t) == Visible(eager, t) && ClockForward(t, events)
    ensures LazyLookups(lazy, events) == EagerLookups(eager, events)
    decreases |events|
  {
    if events != [] {
      hide LazyStep, EagerStep, Visible, VisibleStep;
      var now, op := events[0].now, events[0].op;
      VisibleLater(lazy, eager, t, now);
      LazyVisible(lazy, now, op);
      EagerVisible(eager, now, op);
      LazyRefinesEager(LazyStep(lazy, now, op).1, EagerStep(eager, now, op).1, now, events[1..]);
    }
  }

  lemma {:induction false} SameVisibleSameLookups(a: Index, b: Index, t: int, events: seq<Event>)
    requires Visible(a, t) == Visible(b, t) && ClockForward(t, events)
    ensures LazyLookups(a, events) == LazyLookups(b, events)
    decreases |events|
  {
    if events != [] {
      hide LazyStep, Visible, VisibleStep;
      var now, op := events[0].now, events[0].op;
      VisibleLater(a, b, t, now);
      LazyVisible(a, now, op);
      LazyVisible(b, now, op);
      SameVisibleSameLookups(LazyStep(a, now, op).1, LazyStep(b, now, op).1, now, events[1..]);
    }
  }

  /** Evicting expired entries, or touching a key, anywhere in a run cannot be seen through later lookups. */
  lemma {:induction false} HousekeepingInvisible(index: Index, t: int, before: seq<Event>, e: Event, after: seq<Event>)
    requires e.op.EvictExpired? || e.op.Touch?
    requires ClockForward(t, before + [e] + after)
    ensures LazyLookups(index, before + [e] + after) == LazyLookups(index, before + after)
    decreases |before|
  {
    hide LazyStep, Visible;
    var all := before + [e] + after;
    if before == [] {
      assert all[1..] == after && before + after == after;
      LazyVisible(index, e.now, e.op);
      var next := LazyStep(index, e.now, e.op).1;
      SameVisibleSameLookups(next, index, e.now, after);
      assert [] + LazyLookups(next, after) == LazyLookups(next, after);
    } else {
      var rest := before[1..];
      assert all[1..] == rest + [e] + after && (before + after)[1..] == rest + after;
      assert all[0] == before[0] == (before + after)[0];
      HousekeepingInvisible(LazyStep(index, before[0].now, before[0].op).1, before[0].now, rest, e, after);
    }
  }
}
