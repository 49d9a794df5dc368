/** The byte-budget LRU cache of host tensors. */
module HostCache {
  import opened Common

  datatype HostTensor = HostTensor(elementSize: nat, elements: seq<real>) {
    function Nbytes(): nat { elementSize * |elements| }
  }

  datatype Entry = Entry(key: string, tensor: HostTensor, nbytes: nat)

  /** The ordered dictionary, least recently used entry first. */
  type Cache = seq<Entry>

  function Find(c: Cache, k: string): (e: Option<Entry>)
    ensures e.Some? ==> e.value in c && e.value.key == k
    ensures e.None? ==> forall x :: x in c ==> x.key != k
  {
    if c == [] then None else if c[0].key == k then Some(c[0]) else Find(c[1..], k)
  }

  predicate Distinct(c: Cache) {
    c == [] || (Find(c[1..], c[0].key).None? && Distinct(c[1..]))
  }

  function Without(c: Cache, k: string): (r: Cache)
    ensures forall e :: e in r ==> e in c && e.key != k
  {
    if c == [] then []
    else if c[0].key == k then Without(c[1..], k)
    else [c[0]] + Without(c[1..], k)
  }

  function Total(c: Cache): nat { if c == [] then 0 else c[0].nbytes + Total(c[1..]) }

  // ---------- What each operation does to the cache ----------

  /** The entries that remain once enough of the oldest have gone to make room for n more bytes. */
  function Evicted(c: Cache, n: nat, maxBytes: int): Cache {
    if c != [] && Total(c) + n > maxBytes then Evicted(c[1..], n, maxBytes) else c
  }

  datatype Op = Get(key: string) | Put(key: string, tensor: HostTensor) | Delete(key: string) | Clear

  function Step(maxBytes: int, c: Cache, op: Op): Cache {
    match op
    case Get(k) => if Find(c, k).Some? then Without(c, k) + [Find(c, k).value] else c
    case Put(k, t) =>
      Evicted(Without(c, k), t.Nbytes(), maxBytes) + if t.Nbytes() <= maxBytes then [Entry(k, t, t.Nbytes())] else []
    case Delete(k) => Without(c, k)
    case Clear => []
  }

  lemma {:induction false} EvictedSuffix(c: Cache, n: nat, maxBytes: int)
    ensures var r := Evicted(c, n, maxBytes);
            |r| <= |c| && r == c[|c| - |r|..] && (r == [] || Total(r) + n <= maxBytes)
  {
    hide Total;
    var r := Evicted(c, n, maxBytes);
    if c != [] && Total(c) + n > maxBytes {
      EvictedSuffix(c[1..], n, maxBytes);
      assert c[1..][|c| - 1 - |r|..] == c[|c| - |r|..];
    }
  }

  lemma {:induction false} EvictedNeeded(c: Cache, n: nat, maxBytes: int, i: nat)
    requires i + |Evicted(c, n, maxBytes)| < |c|
    ensures Total(c[i..]) + n > maxBytes
  {
    hide Total;
    if i == 0 {
      assert c[0..] == c;
    } else {
      EvictedNeeded(c[1..], n, maxBytes, i - 1);
      assert c[i..] == c[1..][i - 1..];
    }
  }

  /** Evicted drops the shortest oldest-first prefix that makes room, and everything when nothing would make room. */
  lemma EvictedShortest(c: Cache, n: nat, maxBytes: int)
    ensures var r := Evicted(c, n, maxBytes);
            && |r| <= |c| && r == c[|c| - |r|..]
            && (r == [] || Total(r) + n <= maxBytes)
            && (forall i :: 0 <= i < |c| - |r| ==> Total(c[i..]) + n > maxBytes)
            && (n > maxBytes ==> r == [])
  {
    hide Total, Evicted;
    EvictedSuffix(c, n, maxBytes);
    forall i | 0 <= i < |c| - |Evicted(c, n, maxBytes)|
      ensures Total(c[i..]) + n > maxBytes
    {
      EvictedNeeded(c, n, maxBytes, i);
    }
  }

  /** Entries are stored under distinct keys with their tensors' sizes, within the budget. */
  ghost predicate Consistent(maxBytes: int, c: Cache) {
    && Distinct(c) && (forall e :: e in c ==> e.nbytes == e.tensor.Nbytes())
    && Total(c) <= if maxBytes < 0 then 0 else maxBytes
  }

  lemma {:induction false} TotalAppend(a: Cache, b: Cache)
    ensures Total(a + b) == Total(a) + Total(b)
  {
    if a == [] {
      assert a + b == b;
    } else {
      assert (a + b)[1..] == a[1..] + b;
      TotalAppend(a[1..], b);
    }
  }

  function SizeOf(e: Option<Entry>): nat { if e.Some? then e.value.nbytes else 0 }

  lemma {:induction false} WithoutFacts(c: Cache, k: string)
    requires Distinct(c)
    ensures Distinct(Without(c, k)) && Total(Without(c, k)) + SizeOf(Find(c, k)) == Total(c)
    ensures forall j :: Find(Without(c, k), j) == if j == k then None else Find(c, j)
  {
    if c != [] {
      WithoutFacts(c[1..], k);
      if c[0].key != k {
        assert Without(c, k)[1..] == Without(c[1..], k);
      }
    }
  }

  lemma {:induction false} NothingWithout(c: Cache, k: string)
    ensures (forall e :: e in c ==> e.key != k) ==> Without(c, k) == c
  {
    if c != [] { NothingWithout(c[1..], k); }
  }

  lemma {:induction false} FindAt(c: Cache, i: nat)
    requires Distinct(c) && i < |c|
    ensures Find(c, c[i].key) == Some(c[i]) && (i > 0 ==> c[0].key != c[i].key)
  {
    if i > 0 {
      assert c[1..][i - 1] == c[i] && c[i] in c[1..];
      FindAt(c[1..], i - 1);
    }
  }

  lemma {:induction false} WithoutAppend(a: Cache, b: Cache, k: string)
    ensures Without(a + b, k) == Without(a, k) + Without(b, k)
  {
    if a == [] {
      assert a + b == b;
    } else {
      assert (a + b)[1..] == a[1..] + b;
      WithoutAppend(a[1..], b, k);
    }
  }

  lemma {:induction false} KeysApart(c: Cache, i: nat, j: nat)
    requires Distinct(c) && i < j < |c|
    ensures c[i].key != c[j].key
  {
    if i == 0 {
      FindAt(c, j);
    } else {
      KeysApart(c[1..], i - 1, j - 1);
    }
  }

  lemma WithoutMiddle(a: Cache, e: Entry, b: Cache)
    requires (forall x :: x in a ==> x.key != e.key) && forall x :: x in b ==> x.key != e.key
    ensures Without(a + ([e] + b), e.key) == a + b
  {
    assert Without([e], e.key) == [];
    hide Without;
    WithoutAppend(a, [e] + b, e.key);
    WithoutAppend([e], b, e.key);
    NothingWithout(a, e.key);
    NothingWithout(b, e.key);
  }

  lemma OthersApart(c: Cache, i: nat)
    requires Distinct(c) && i < |c|
    ensures (forall x :: x in c[..i] ==> x.key != c[i].key) && forall x :: x in c[i + 1..] ==> x.key != c[i].key
  {
    hide Distinct;
    forall j | 0 <= j < |c| && j != i
      ensures c[j].key != c[i].key
    {
      KeysApart(c, if i < j then i else j, if i < j then j else i);
    }
  }

  /** Taking out a key keeps the other entries in their order. */
  lemma WithoutAt(c: Cache, i: nat)
    requires Distinct(c) && i < |c|
    ensures Without(c, c[i].key) == c[..i] + c[i + 1..] && Find(c, c[i].key) == Some(c[i])
  {
    hide Without, Find, Distinct;
    FindAt(c, i);
    OthersApart(c, i);
    WithoutMiddle(c[..i], c[i], c[i + 1..]);
    assert c == c[..i] + ([c[i]] + c[i + 1..]);
  }

  lemma WithoutEach(c: Cache, k: string)
    requires Distinct(c)
    ensures forall i :: 0 <= i < |c| && c[i].key == k ==>
              Without(c, k) == c[..i] + c[i + 1..] && Find(c, k) == Some(c[i])
  {
    forall i | 0 <= i < |c| && c[i].key == k
      ensures Without(c, k) == c[..i] + c[i + 1..] && Find(c, k) == Some(c[i])
    {
      WithoutAt(c, i);
    }
  }

  /** Without its first i entries the cache has room for n more bytes, and with any more of them it has not. */
  ghost predicate LeavesRoom(c: Cache, i: int, n: nat, maxBytes: int) {
    && 0 <= i <= |c| && (i == |c| || Total(c[i..]) + n <= maxBytes)
    && forall j :: 0 <= j < i ==> Total(c[j..]) + n > maxBytes
  }

  /** A put leaves the new entry newest, behind the longest suffix of the other entries that leaves room for it, or,
      if it can have no room, an empty cache. */
  lemma PutShape(maxBytes: int, c: Cache, k: string, t: HostTensor) returns (i: nat)
    ensures var n, rest, after := t.elementSize * |t.elements|, Without(c, k), Step(maxBytes, c, Put(k, t));
            if n > maxBytes then after == []
            else LeavesRoom(rest, i, n, maxBytes) && after == rest[i..] + [Entry(k, t, n)]
  {
    hide Total, Evicted, Without;
    var rest := Without(c, k);
    EvictedShortest(rest, t.Nbytes(), maxBytes);
    var kept := Evicted(rest, t.Nbytes(), maxBytes);
    i := |rest| - |kept|;
    assert rest[i..] == kept;
    assert kept + [] == kept;
  }

  lemma {:induction false} FindAppend(a: Cache, b: Cache, k: string)
    ensures Find(a + b, k) == if Find(a, k).Some? then Find(a, k) else Find(b, k)
  {
    if a == [] {
      assert a + b == b;
    } else {
      assert (a + b)[1..] == a[1..] + b;
      FindAppend(a[1..], b, k);
    }
  }

  lemma {:induction false} DistinctAppend(c: Cache, e: Entry)
    requires Distinct(c) && Find(c, e.key).None?
    ensures Distinct(c + [e])
  {
    if c != [] {
      assert (c + [e])[1..] == c[1..] + [e];
      DistinctAppend(c[1..], e);
      FindAppend(c[1..], [e], c[0].key);
    }
  }

  /** Sound entries, none of them under this key. */
  ghost predicate Free(c: Cache, key: string) {
    Distinct(c) && Find(c, key).None? && forall e :: e in c ==> e.nbytes == e.tensor.Nbytes()
  }

  lemma WithoutFree(maxBytes: int, c: Cache, key: string)
    requires Consistent(maxBytes, c)
    ensures Free(Without(c, key), key) && Total(Without(c, key)) + SizeOf(Find(c, key)) == Total(c)
  {
    hide Total, Find;
    WithoutFacts(c, key);
    assert Find(Without(c, key), key).None?;
  }

  lemma DropOldest(c: Cache, key: string, n: nat, maxBytes: int)
    requires Free(c, key) && c != [] && Total(c) + n > maxBytes
    ensures Free(c[1..], key) && Total(c) == c[0].nbytes + Total(c[1..])
    ensures Evicted(c, n, maxBytes) == Evicted(c[1..], n, maxBytes)
  {
  }

  /** When eviction stops, the entries left are those that Evicted keeps, and the new entry can be added if it fits at
      all. */
  lemma RoomMade(c: Cache, key: string, tensor: HostTensor, maxBytes: int)
    requires Free(c, key) && (c == [] || Total(c) + tensor.Nbytes() <= maxBytes)
    ensures var n := tensor.Nbytes();
            var added := c + [Entry(key, tensor, n)];
            && Evicted(c, n, maxBytes) == c
            && (n <= maxBytes ==> Consistent(maxBytes, added) && Total(added) == Total(c) + n)
            && (n > maxBytes ==> c == [] && Consistent(maxBytes, c))
  {
    var e := Entry(key, tensor, tensor.Nbytes());
    TotalAppend(c, [e]);
    DistinctAppend(c, e);
    assert Total([e]) == e.nbytes + Total([]);
    hide Find, Distinct;
  }

  class HostCache {
    const maxBytes: int
    var currentBytes: int
    var cache: Cache

    ghost predicate Valid()
      reads this
    {
      Consistent(maxBytes, cache) && currentBytes == Total(cache)
    }

    constructor (maxBytes: int)
      ensures Valid() && this.maxBytes == maxBytes && cache == []
    {
      this.maxBytes := maxBytes;
      currentBytes, cache := 0, [];
    }

    method GetTensor(key: string) returns (tensor: Option<HostTensor>)
      requires Valid()
      modifies this
      ensures Valid() && cache == Step(maxBytes, old(cache), Get(key))
      ensures tensor == match Find(old(cache), key) case Some(e) => Some(e.tensor) case None => None
      ensures tensor.None? ==> cache == old(cache)
      ensures forall i :: 0 <= i < |old(cache)| && old(cache)[i].key == key ==>
                tensor == Some(old(cache)[i].tensor) && cache == old(cache)[..i] + old(cache)[i + 1..] + [old(cache)[i]]
    {
      WithoutEach(cache, key);
      var found := Find(cache, key);
      if found.None? { return None; }
      WithoutFacts(cache, key);
      TotalAppend(Without(cache, key), [found.value]);
      DistinctAppend(Without(cache, key), found.value);
      cache := Without(cache, key) + [found.value];
      tensor := Some(found.value.tensor);
    }

    method PutTensor(key: string, tensor: HostTensor)
      requires Valid()
      modifies this
      ensures Valid() && cache == Step(maxBytes, old(cache), Put(key, tensor))
      ensures tensor.elementSize * |tensor.elements| > maxBytes ==> cache == []
      ensures tensor.elementSize * |tensor.elements| <= maxBytes ==>
                cache != [] && cache[|cache| - 1] == Entry(key, tensor, tensor.elementSize * |tensor.elements|)
    {
      var nbytes := tensor.Nbytes();
      WithoutFree(maxBytes, cache, key);
      hide Without, Total, Find, Evicted, Free, Consistent;
      var found := Find(cache, key);
      if found.Some? {
        currentBytes := currentBytes - found.value.nbytes;
      }
      cache := Without(cache, key);
      ghost var start := cache;
      while currentBytes + nbytes > maxBytes && |cache| > 0
        invariant Free(cache, key) && currentBytes == Total(cache)
        invariant Evicted(cache, nbytes, maxBytes) == Evicted(start, nbytes, maxBytes)
        decreases |cache|
      {
        DropOldest(cache, key, nbytes, maxBytes);
        var oldest := cache[0];
        cache := cache[1..];
        currentBytes := currentBytes - oldest.nbytes;
      }
      RoomMade(cache, key, tensor, maxBytes);
      if nbytes <= maxBytes {
        cache := cache + [Entry(key, tensor, nbytes)];
        currentBytes := currentBytes + nbytes;
      }
      assert Evicted(start, nbytes, maxBytes) + [] == Evicted(start, nbytes, maxBytes);
    }

    method DeleteKey(key: string)
      requires Valid()
      modifies this
      ensures Valid() && cache == Step(maxBytes, old(cache), Delete(key))
      ensures (forall e :: e in old(cache) ==> e.key != key) ==> cache == old(cache)
      ensures forall i :: 0 <= i < |old(cache)| && old(cache)[i].key == key ==>
                cache == old(cache)[..i] + old(cache)[i + 1..]
    {
      NothingWithout(cache, key);
      WithoutEach(cache, key);
      WithoutFacts(cache, key);
      var found := Find(cache, key);
      if found.Some? {
        currentBytes := currentBytes - found.value.nbytes;
      }
      cache := Without(cache, key);
    }

    method ClearAll()
      modifies this
      ensures Valid() && cache == []
    {
      currentBytes, cache := 0, [];
    }
  }
}
