/** The item-count LRU policy: an ordered dictionary from keys to sizes, least recently used key first. */
module LruPolicy {
  import opened Common

  predicate Distinct(keys: seq<string>) { forall i, j :: 0 <= i < j < |keys| ==> keys[i] != keys[j] }

  function Without(keys: seq<string>, k: string): (r: seq<string>)
    ensures k !in keys ==> r == keys
    ensures forall x :: x in r <==> x in keys && x != k
  {
    if keys == [] then []
    else if keys[0] == k then Without(keys[1..], k)
    else [keys[0]] + Without(keys[1..], k)
  }

  lemma {:induction false} WithoutDistinct(keys: seq<string>, k: string)
    requires Distinct(keys)
    ensures Distinct(Without(keys, k)) && |Without(keys, k)| == if k in keys then |keys| - 1 else |keys|
  {
    if keys != [] {
      assert keys == [keys[0]] + keys[1..];
      WithoutDistinct(keys[1..], k);
      assert keys[0] !in keys[1..];
    }
  }

  /** Taking out a key keeps the others in their order. */
  lemma {:induction false} WithoutAt(keys: seq<string>, i: nat)
    requires Distinct(keys) && i < |keys|
    ensures Without(keys, keys[i]) == keys[..i] + keys[i + 1..]
  {
    assert keys == [keys[0]] + keys[1..];
    if i == 0 {
      assert keys[0] !in keys[1..];
    } else {
      WithoutAt(keys[1..], i - 1);
      assert keys[..i] == [keys[0]] + keys[1..][..i - 1];
    }
  }

  lemma WithoutEach(keys: seq<string>, k: string)
    requires Distinct(keys)
    ensures forall i :: 0 <= i < |keys| && keys[i] == k ==> Without(keys, k) == keys[..i] + keys[i + 1..]
  {
    forall i | 0 <= i < |keys| && keys[i] == k
      ensures Without(keys, k) == keys[..i] + keys[i + 1..]
    {
      WithoutAt(keys, i);
    }
  }

  lemma TailMembers(keys: seq<string>)
    requires keys != [] && Distinct(keys)
    ensures forall k :: k in keys[1..] <==> k in keys && k != keys[0]
  {
    assert keys == [keys[0]] + keys[1..];
  }

  datatype Op = Touch(key: string) | Add(key: string) | Remove(key: string)

  function Apply(capacity: int, keys: seq<string>, op: Op): seq<string> {
    match op
    case Touch(k) => if k in keys then Without(keys, k) + [k] else keys
    case Add(k) =>
      if k in keys then Without(keys, k) + [k]
      else if |keys| + 1 > capacity then (keys + [k])[1..]
      else keys + [k]
    case Remove(k) => Without(keys, k)
  }

  function Run(capacity: int, keys: seq<string>, ops: seq<Op>): seq<string>
    decreases |ops|
  {
    if ops == [] then keys else Run(capacity, Apply(capacity, keys, ops[0]), ops[1..])
  }

  class LRUEvictionPolicy {
    const maxItems: int
    var keys: seq<string>
    var sizes: map<string, int>

    ghost predicate Valid()
      reads this
    {
      Distinct(keys) && (forall k :: k in keys <==> k in sizes) && |keys| <= if maxItems < 0 then 0 else maxItems
    }

    constructor (maxItems: int)
      ensures Valid() && this.maxItems == maxItems && keys == []
    {
      this.maxItems := maxItems;
      keys, sizes := [], map[];
    }

    method TouchKey(key: string)
      requires Valid()
      modifies this
      ensures Valid() && keys == Apply(maxItems, old(keys), Touch(key)) && sizes == old(sizes)
      ensures key !in old(keys) ==> keys == old(keys)
      ensures forall i :: 0 <= i < |old(keys)| && old(keys)[i] == key ==>
                keys == old(keys)[..i] + old(keys)[i + 1..] + [key]
    {
      WithoutEach(keys, key);
      if key in sizes {
        WithoutDistinct(keys, key);
        keys := Without(keys, key) + [key];
      }
    }

    method AddKey(key: string, size: int)
      requires Valid()
      modifies this
      ensures Valid() && keys == Apply(maxItems, old(keys), Add(key))
      ensures forall k :: k in sizes ==> sizes[k] == if k in old(sizes) then old(sizes)[k] else size
      ensures key !in old(keys) ==>
                keys == if |old(keys)| + 1 > maxItems then (old(keys) + [key])[1..] else old(keys) + [key]
      ensures forall i :: 0 <= i < |old(keys)| && old(keys)[i] == key ==>
                keys == old(keys)[..i] + old(keys)[i + 1..] + [key]
    {
      WithoutEach(keys, key);
      if key in sizes {
        WithoutDistinct(keys, key);
        keys := Without(keys, key) + [key];
      } else {
        keys, sizes := keys + [key], sizes[key := size];
        if |keys| > maxItems {
          var oldest := keys[0];
          TailMembers(keys);
          keys, sizes := keys[1..], sizes - {oldest};
        }
      }
    }

    method RemoveKey(key: string)
      requires Valid()
      modifies this
      ensures Valid() && keys == Apply(maxItems, old(keys), Remove(key)) && sizes == old(sizes) - {key}
      ensures key !in old(keys) ==> keys == old(keys)
      ensures forall i :: 0 <= i < |old(keys)| && old(keys)[i] == key ==> keys == old(keys)[..i] + old(keys)[i + 1..]
    {
      WithoutEach(keys, key);
      if key in sizes {
        WithoutDistinct(keys, key);
        keys, sizes := Without(keys, key), sizes - {key};
      }
    }

    /** The oldest keys, as many as asked for and present; a negative count asks for all but that many. They are the
        ones that new keys will push out: the policy filled up with new keys and then given one more per candidate
        holds just its other keys and the new ones. */
    method GetEvictionCandidates(targetCount: int) returns (candidates: seq<string>)
      requires Valid()
      ensures candidates <= keys
      ensures targetCount >= 0 ==> |candidates| == if targetCount < |keys| then targetCount else |keys|
      ensures targetCount < 0 ==> |candidates| == if |keys| + targetCount > 0 then |keys| + targetCount else 0
      ensures forall added :: Distinct(keys + added) && |added| == maxItems - |keys| + |candidates| ==>
                Run(maxItems, keys, Adds(added)) == keys[|candidates|..] + added
    {
      candidates := TakePy(keys, targetCount);
      forall added | Distinct(keys + added) && |added| == maxItems - |keys| + |candidates|
        ensures Run(maxItems, keys, Adds(added)) == keys[|candidates|..] + added
      {
        CandidatesEvicted(maxItems, keys, |candidates|, added);
      }
    }
  }

  // ---------- Inclusion ----------

  /** a can be obtained from b by leaving out elements. */
  predicate IsSubsequence(a: seq<string>, b: seq<string>) {
    a == [] || (b != [] && (if a[0] == b[0] then IsSubsequence(a[1..], b[1..]) else IsSubsequence(a, b[1..])))
  }

  lemma {:induction false} SubsequenceMember(a: seq<string>, b: seq<string>, k: string)
    requires IsSubsequence(a, b) && k in a
    ensures k in b
  {
    if a[0] == b[0] {
      if k != a[0] { SubsequenceMember(a[1..], b[1..], k); }
    } else {
      SubsequenceMember(a, b[1..], k);
    }
  }

  lemma {:induction false} SubsequenceTail(a: seq<string>, b: seq<string>)
    requires IsSubsequence(a, b) && a != []
    ensures IsSubsequence(a[1..], b)
    decreases |b|, 0
  {
    if a[0] == b[0] {
      SubsequenceGrow(a[1..], b[1..], b[0]);
      assert b == [b[0]] + b[1..];
    } else {
      SubsequenceTail(a, b[1..]);
      SubsequenceGrow(a[1..], b[1..], b[0]);
      assert b == [b[0]] + b[1..];
    }
  }

  lemma {:induction false} SubsequenceGrow(a: seq<string>, b: seq<string>, x: string)
    requires IsSubsequence(a, b)
    ensures IsSubsequence(a, [x] + b)
    decreases |b|, 1
  {
    assert ([x] + b)[1..] == b;
    if a != [] && a[0] == x {
      SubsequenceTail(a, b);
    }
  }

  lemma {:induction false} SubsequenceAppend(a: seq<string>, b: seq<string>, x: string)
    requires IsSubsequence(a, b)
    ensures IsSubsequence(a, b + [x]) && IsSubsequence(a + [x], b + [x])
  {
    if b == [] {
      assert [x][1..] == [];
    } else {
      assert (b + [x])[1..] == b[1..] + [x];
      if a == [] {
        SubsequenceAppend([], b[1..], x);
        assert [] + [x] == [x];
        SubsequenceGrow([x], b[1..] + [x], b[0]);
        assert b + [x] == [b[0]] + (b[1..] + [x]);
      } else if a[0] == b[0] {
        assert (a + [x])[1..] == a[1..] + [x];
        SubsequenceAppend(a[1..], b[1..], x);
      } else {
        SubsequenceAppend(a, b[1..], x);
      }
    }
  }

  lemma {:induction false} SubsequenceWithout(a: seq<string>, b: seq<string>, k: string)
    requires IsSubsequence(a, b)
    ensures IsSubsequence(Without(a, k), Without(b, k))
  {
    if a != [] {
      if a[0] == b[0] {
        SubsequenceWithout(a[1..], b[1..], k);
      } else {
        SubsequenceWithout(a, b[1..], k);
        if b[0] != k {
          SubsequenceGrow(Without(a, k), Without(b[1..], k), b[0]);
        }
      }
    }
  }

  /** Dropping the oldest key of the larger list. */
  lemma {:induction false} SubsequenceDropFirst(a: seq<string>, b: seq<string>)
    requires IsSubsequence(a, b) && b != [] && Distinct(b)
    ensures IsSubsequence(a[if a != [] && a[0] == b[0] then 1 else 0..], b[1..])
    ensures a != [] && a[0] != b[0] ==> b[0] !in a
  {
    if a != [] && a[0] != b[0] && b[0] in a {
      SubsequenceMember(a, b[1..], b[0]);
    }
  }

  /** The relation between a small and a large policy fed the same operations: the small one's order is a
      subsequence of the large one's, and it has no more free places. */
  ghost predicate Included(m: int, small: seq<string>, n: int, large: seq<string>) {
    && Distinct(small) && Distinct(large) && IsSubsequence(small, large)
    && |small| <= (if m < 0 then 0 else m) && |large| <= (if n < 0 then 0 else n)
    && m - |small| <= n - |large|
  }

  lemma MovedToEnd(keys: seq<string>, k: string)
    requires Distinct(keys) && k in keys
    ensures Distinct(Without(keys, k) + [k]) && |Without(keys, k) + [k]| == |keys|
  {
    WithoutDistinct(keys, k);
  }

  lemma {:induction false} IncludedMove(m: int, small: seq<string>, n: int, large: seq<string>, k: string)
    requires Included(m, small, n, large) && k in large
    ensures k in small ==> Included(m, Without(small, k) + [k], n, Without(large, k) + [k])
    ensures k !in small ==> Included(m, small, n, Without(large, k) + [k])
  {
    MovedToEnd(large, k);
    SubsequenceWithout(small, large, k);
    SubsequenceAppend(Without(small, k), Without(large, k), k);
    if k in small { MovedToEnd(small, k); }
  }

  lemma IncludedAdd(m: int, small: seq<string>, n: int, large: seq<string>, k: string)
    requires Included(m, small, n, large) && k !in small
    ensures Included(m, Apply(m, small, Add(k)), n, Apply(n, large, Add(k)))
  {
    if k in large {
      MovedToEnd(large, k);
      SubsequenceWithout(small, large, k);
      SubsequenceAppend(small, Without(large, k), k);
    } else {
      SubsequenceAppend(small, large, k);
    }
    var a, b := small + [k], if k in large then Without(large, k) + [k] else large + [k];
    assert Distinct(a) && Distinct(b) && IsSubsequence(a, b);
    if |a| > m { SubsequenceTail(a, b); }
    if k !in large && |b| > n { SubsequenceDropFirst(a, b); SubsequenceDropFirst(a[1..], b); }
  }

  lemma IncludedStep(m: int, small: seq<string>, n: int, large: seq<string>, op: Op)
    requires Included(m, small, n, large)
    ensures Included(m, Apply(m, small, op), n, Apply(n, large, op))
  {
    if op.key in small { SubsequenceMember(small, large, op.key); }
    match op
    case Touch(k) => if k in large { IncludedMove(m, small, n, large, k); }
    case Add(k) => if k in small { IncludedMove(m, small, n, large, k); } else { IncludedAdd(m, small, n, large, k); }
    case Remove(k) =>
      SubsequenceWithout(small, large, k);
      WithoutDistinct(small, k);
      WithoutDistinct(large, k);
  }

  /** Under any common sequence of operations a policy of smaller capacity keeps a subsequence, in order, of the keys
      that one of larger capacity keeps. */
  lemma {:induction false} Inclusion(m: int, small: seq<string>, n: int, large: seq<string>, ops: seq<Op>)
    requires Included(m, small, n, large)
    ensures Included(m, Run(m, small, ops), n, Run(n, large, ops))
    decreases |ops|
  {
    if ops != [] {
      IncludedStep(m, small, n, large, ops[0]);
      Inclusion(m, Apply(m, small, ops[0]), n, Apply(n, large, ops[0]), ops[1..]);
    }
  }

  lemma InclusionFromEmpty(m: int, n: int, ops: seq<Op>)
    requires m <= n
    ensures IsSubsequence(Run(m, [], ops), Run(n, [], ops))
  {
    Inclusion(m, [], n, [], ops);
  }

  // ---------- Eviction order ----------

  function Adds(added: seq<string>): seq<Op> {
    if added == [] then [] else [Add(added[0])] + Adds(added[1..])
  }

  /** The last keys of a list, as many as fit. */
  function Newest(keys: seq<string>, capacity: nat): seq<string> {
    if |keys| > capacity then keys[|keys| - capacity..] else keys
  }

  lemma NewestStep(keys: seq<string>, capacity: nat, rest: seq<string>)
    ensures Newest(Newest(keys, capacity) + rest, capacity) == Newest(keys + rest, capacity)
  {
  }

  lemma FreshHead(keys: seq<string>, k: string, rest: seq<string>)
    requires Distinct(keys + [k] + rest)
    ensures k !in keys
  {
    var all := keys + [k] + rest;
    assert all[|keys|] == k && forall i :: 0 <= i < |keys| ==> all[i] == keys[i];
  }

  lemma DistinctSuffix(keys: seq<string>, n: nat, rest: seq<string>)
    requires n <= |keys| && Distinct(keys + rest)
    ensures Distinct(keys[n..] + rest)
  {
    assert keys[n..] + rest == (keys + rest)[n..];
  }

  lemma FreshAdd(capacity: nat, keys: seq<string>, k: string)
    requires k !in keys && |keys| <= capacity
    ensures var next := Apply(capacity, keys, Add(k));
            && next == Newest(keys + [k], capacity) && |next| <= capacity
            && next == (keys + [k])[|keys| + 1 - |next|..]
  {
  }

  /** After adding keys not present before, the keys present are the last ones, up to capacity, of the old order
      followed by the new keys. */
  lemma {:induction false} FreshAdds(capacity: nat, keys: seq<string>, added: seq<string>)
    requires Distinct(keys + added) && |keys| <= capacity
    ensures Run(capacity, keys, Adds(added)) == Newest(keys + added, capacity)
    decreases |added|
  {
    if added == [] {
      assert keys + added == keys;
    } else {
      hide Distinct;
      var k, rest := added[0], added[1..];
      assert keys + added == keys + [k] + rest;
      FreshHead(keys, k, rest);
      var next := Apply(capacity, keys, Add(k));
      FreshAdd(capacity, keys, k);
      hide Newest, Apply;
      assert Adds(added)[1..] == Adds(rest);
      DistinctSuffix(keys + [k], |keys| + 1 - |next|, rest);
      FreshAdds(capacity, next, rest);
      NewestStep(keys + [k], capacity, rest);
    }
  }

  /** For t up to the number of keys, the first t eviction candidates are exactly the keys, oldest first, that are
      pushed out once additions of new keys have filled the policy and then added t more. */
  lemma CandidatesEvicted(capacity: nat, keys: seq<string>, t: nat, added: seq<string>)
    requires Distinct(keys + added) && t <= |keys| <= capacity && |added| == capacity - |keys| + t
    ensures Run(capacity, keys, Adds(added)) == keys[t..] + added
    ensures TakePy(keys, t) + keys[t..] == keys
    ensures forall k :: k in TakePy(keys, t) ==> k !in Run(capacity, keys, Adds(added))
  {
    hide Run, Adds;
    FreshAdds(capacity, keys, added);
    var all := keys + added;
    assert all[t..] == keys[t..] + added;
    assert Newest(all, capacity) == all[t..];
    hide Newest;
    forall k | k in keys[..t]
      ensures k !in all[t..]
    {
      assert keys[..t] == all[..t];
      var i :| 0 <= i < t && all[..t][i] == k;
      assert all[i] == k;
    }
  }

  // ---------- How long a key stays ----------

  /** The other keys used after a key: added, or touched while present, and not removed since. */
  function NextNewer(keys: seq<string>, newer: set<string>, op: Op): set<string> {
    match op
    case Add(j) => newer + {j}
    case Touch(j) => if j in keys then newer + {j} else newer
    case Remove(j) => newer - {j}
  }

  /** From this order and these newer keys on, the newer keys are at all times fewer than the capacity. */
  predicate StaysWithin(capacity: int, keys: seq<string>, newer: set<string>, ops: seq<Op>)
    decreases |ops|
  {
    ops == [] ||
    (|NextNewer(keys, newer, ops[0])| < capacity
     && StaysWithin(capacity, Apply(capacity, keys, ops[0]), NextNewer(keys, newer, ops[0]), ops[1..]))
  }

  /** The key, and behind it exactly the newer keys. */
  ghost predicate Placed(keys: seq<string>, older: seq<string>, k: string, tail: seq<string>, newer: set<string>) {
    keys == older + ([k] + tail) && Distinct(keys) && forall x :: x in tail <==> x in newer
  }

  function Elements(keys: seq<string>): (s: set<string>)
    ensures forall x :: x in s <==> x in keys
  {
    set x | x in keys
  }

  lemma {:induction false} DistinctCount(keys: seq<string>)
    requires Distinct(keys)
    ensures |Elements(keys)| == |keys|
  {
    if keys != [] {
      TailMembers(keys);
      DistinctCount(keys[1..]);
      assert Elements(keys) == Elements(keys[1..]) + {keys[0]};
    }
  }

  lemma {:induction false} WithoutConcat(a: seq<string>, b: seq<string>, k: string)
    ensures Without(a + b, k) == Without(a, k) + Without(b, k)
  {
    if a == [] {
      assert a + b == b;
    } else {
      assert (a + b)[1..] == a[1..] + b;
      WithoutConcat(a[1..], b, k);
    }
  }

  lemma PlacedCount(keys: seq<string>, older: seq<string>, k: string, tail: seq<string>, newer: set<string>)
    requires Placed(keys, older, k, tail, newer)
    ensures |newer| == |tail| && |keys| == |older| + 1 + |tail|
  {
    assert tail == keys[|older| + 1..];
    DistinctCount(tail);
    assert Elements(tail) == newer;
  }

  lemma PlacedWithout(keys: seq<string>, older: seq<string>, k: string, tail: seq<string>,
                      newer: set<string>, j: string)
    requires Placed(keys, older, k, tail, newer) && j != k
    ensures Placed(Without(keys, j), Without(older, j), k, Without(tail, j), newer - {j})
  {
    WithoutConcat(older, [k] + tail, j);
    WithoutConcat([k], tail, j);
    assert Without([k], j) == [k];
    WithoutDistinct(keys, j);
  }

  lemma PlacedAppend(keys: seq<string>, older: seq<string>, k: string, tail: seq<string>, newer: set<string>, j: string)
    requires Placed(keys, older, k, tail, newer) && j !in keys
    ensures Placed(keys + [j], older, k, tail + [j], newer + {j})
  {
    assert keys + [j] == older + ([k] + (tail + [j]));
  }

  /** One operation on another key: the key keeps its place before the newer keys, unless they would fill the policy. */
  lemma PlacedStep(capacity: nat, keys: seq<string>, older: seq<string>, k: string, tail: seq<string>,
                   newer: set<string>, op: Op) returns (older': seq<string>, tail': seq<string>)
    requires Placed(keys, older, k, tail, newer) && |keys| <= capacity && op.key != k
    ensures |Apply(capacity, keys, op)| <= capacity && Distinct(Apply(capacity, keys, op))
    ensures if |NextNewer(keys, newer, op)| < capacity
            then Placed(Apply(capacity, keys, op), older', k, tail', NextNewer(keys, newer, op))
            else k !in Apply(capacity, keys, op)
  {
    var j := op.key;
    PlacedCount(keys, older, k, tail, newer);
    WithoutDistinct(keys, j);
    if j in keys {
      PlacedWithout(keys, older, k, tail, newer, j);
      older', tail' := Without(older, j), Without(tail, j);
      if op.Remove? {
        PlacedCount(Without(keys, j), older', k, tail', newer - {j});
      } else {
        PlacedAppend(Without(keys, j), older', k, tail', newer - {j}, j);
        tail' := tail' + [j];
        assert newer - {j} + {j} == newer + {j};
        PlacedCount(Without(keys, j) + [j], older', k, tail', newer + {j});
      }
    } else if op.Add? {
      PlacedAppend(keys, older, k, tail, newer, j);
      older', tail' := older, tail + [j];
      PlacedCount(keys + [j], older, k, tail', newer + {j});
      if |keys| + 1 > capacity { PlacedDrop(keys + [j], older, k, tail', newer + {j}); }
      if |keys| + 1 > capacity && older != [] { older' := older[1..]; }
    } else {
      older', tail' := older, tail;
      assert newer - {j} == newer;
    }
  }

  lemma PlacedDrop(keys: seq<string>, older: seq<string>, k: string, tail: seq<string>, newer: set<string>)
    requires Placed(keys, older, k, tail, newer)
    ensures Distinct(keys[1..])
    ensures if older == [] then k !in keys[1..] else Placed(keys[1..], older[1..], k, tail, newer)
  {
    TailMembers(keys);
    if older != [] { assert keys[1..] == older[1..] + ([k] + tail); }
  }

  lemma {:induction false} StaysGone(capacity: nat, keys: seq<string>, k: string, ops: seq<Op>)
    requires k !in keys && forall op :: op in ops ==> op.key != k
    ensures k !in Run(capacity, keys, ops)
    decreases |ops|
  {
    if ops != [] {
      assert ops[0] in ops;
      StaysGone(capacity, Apply(capacity, keys, ops[0]), k, ops[1..]);
    }
  }

  lemma {:induction false} PlacedRun(capacity: nat, keys: seq<string>, older: seq<string>, k: string, tail: seq<string>,
                                     newer: set<string>, ops: seq<Op>)
    requires Placed(keys, older, k, tail, newer) && |keys| <= capacity && forall op :: op in ops ==> op.key != k
    ensures k in Run(capacity, keys, ops) <==> StaysWithin(capacity, keys, newer, ops)
    decreases |ops|
  {
    if ops == [] {
      assert keys[|older|] == k;
    } else {
      hide Apply, NextNewer, Placed;
      assert ops[0] in ops;
      var older', tail' := PlacedStep(capacity, keys, older, k, tail, newer, ops[0]);
      var next := NextNewer(keys, newer, ops[0]);
      if |next| < capacity {
        PlacedRun(capacity, Apply(capacity, keys, ops[0]), older', k, tail', next, ops[1..]);
      } else {
        StaysGone(capacity, Apply(capacity, keys, ops[0]), k, ops[1..]);
      }
    }
  }

  lemma {:induction false} RunAppend(capacity: int, keys: seq<string>, a: seq<Op>, b: seq<Op>)
    ensures Run(capacity, keys, a + b) == Run(capacity, Run(capacity, keys, a), b)
    decreases |a|
  {
    if a == [] {
      assert a + b == b;
    } else {
      hide Apply;
      assert (a + b)[1..] == a[1..] + b;
      RunAppend(capacity, Apply(capacity, keys, a[0]), a[1..], b);
    }
  }

  lemma {:induction false} RunWithin(capacity: nat, keys: seq<string>, ops: seq<Op>)
    requires Distinct(keys) && |keys| <= capacity
    ensures Distinct(Run(capacity, keys, ops)) && |Run(capacity, keys, ops)| <= capacity
    decreases |ops|
  {
    if ops != [] {
      WithoutDistinct(keys, ops[0].key);
      RunWithin(capacity, Apply(capacity, keys, ops[0]), ops[1..]);
    }
  }

  /** In any run from an empty policy, a key last used by an addition, or by a touch while present, is still held
      exactly when since then the other keys added or touched, and not removed, were at all times fewer than the
      capacity. */
  lemma {:induction false} HeldIff(capacity: nat, before: seq<Op>, use: Op, after: seq<Op>)
    requires capacity > 0 && (use.Add? || (use.Touch? && use.key in Run(capacity, [], before)))
    requires forall op :: op in after ==> op.key != use.key
    ensures use.key in Run(capacity, [], before + [use] + after)
       <==> StaysWithin(capacity, Run(capacity, [], before + [use]), {}, after)
  {
    var keys, k := Run(capacity, [], before), use.key;
    RunWithin(capacity, [], before);
    RunWithin(capacity, keys, [use]);
    RunAppend(capacity, [], before, [use]);
    RunAppend(capacity, [], before + [use], after);
    WithoutDistinct(keys, k);
    var next := Run(capacity, keys, [use]);
    assert next == Apply(capacity, keys, use) && next[|next| - 1] == k;
    assert next == next[..|next| - 1] + ([k] + []);
    PlacedRun(capacity, next, next[..|next| - 1], k, [], {}, after);
  }

  /** The other keys that a run adds, or touches while they are present. */
  function Used(capacity: int, keys: seq<string>, ops: seq<Op>): set<string>
    decreases |ops|
  {
    if ops == [] then {}
    else NextNewer(keys, {}, ops[0]) + Used(capacity, Apply(capacity, keys, ops[0]), ops[1..])
  }

  lemma {:induction false} WithinUsed(capacity: int, keys: seq<string>, newer: set<string>, ops: seq<Op>)
    requires (forall op :: op in ops ==> !op.Remove?) && |newer| < capacity
    ensures StaysWithin(capacity, keys, newer, ops) <==> |newer + Used(capacity, keys, ops)| < capacity
    decreases |ops|
  {
    if ops == [] {
      assert newer + {} == newer;
    } else {
      hide Apply;
      assert ops[0] in ops;
      var next, rest := NextNewer(keys, newer, ops[0]), Used(capacity, Apply(capacity, keys, ops[0]), ops[1..]);
      assert next == newer + NextNewer(keys, {}, ops[0]);
      assert newer + Used(capacity, keys, ops) == next + rest;
      Larger(next, next + rest);
      if |next| < capacity { WithinUsed(capacity, Apply(capacity, keys, ops[0]), next, ops[1..]); }
    }
  }

  lemma Larger(a: set<string>, b: set<string>)
    requires a <= b
    ensures |a| <= |b|
  {
    assert b == a + (b - a) && |a + (b - a)| == |a| + |b - a|;
  }

  /** If nothing is removed since, that is when fewer than the capacity distinct other keys were added or touched. */
  lemma HeldIffFewUsed(capacity: nat, before: seq<Op>, use: Op, after: seq<Op>)
    requires capacity > 0 && (use.Add? || (use.Touch? && use.key in Run(capacity, [], before)))
    requires forall op :: op in after ==> op.key != use.key && !op.Remove?
    ensures use.key in Run(capacity, [], before + [use] + after)
       <==> |Used(capacity, Run(capacity, [], before + [use]), after)| < capacity
  {
    hide Run, StaysWithin, Used;
    HeldIff(capacity, before, use, after);
    var keys := Run(capacity, [], before + [use]);
    WithinUsed(capacity, keys, {}, after);
    assert {} + Used(capacity, keys, after) == Used(capacity, keys, after);
  }
}
