/**
 * Rows of a paged KV buffer: extracting and injecting by slot or block, and applying critical and refinement rows.
 * A row is a value of any type R.
 */
module PagedKv {
  import opened Common

  function Min(a: int, b: int): int { if a < b then a else b }

  predicate InBounds(id: int, n: int) { 0 <= id < n }

  /** Writes rows[i] to row ids[i] for each i below n in turn, skipping ids outside the buffer. */
  function Writes<R>(cache: seq<R>, ids: seq<int>, rows: seq<R>, n: nat): (r: seq<R>)
    requires n <= |ids| && n <= |rows|
    ensures |r| == |cache|
  {
    if n == 0 then cache
    else
      var before := Writes(cache, ids, rows, n - 1);
      if InBounds(ids[n - 1], |cache|) then before[ids[n - 1] := rows[n - 1]] else before
  }

  function Overwritten<R>(cache: seq<R>, ids: seq<int>, rows: seq<R>): (r: seq<R>)
    ensures |r| == |cache|
  {
    Writes(cache, ids, rows, Min(|ids|, |rows|))
  }

  /** The last position below n that names row x; -1 if none does. */
  function LastNaming(ids: seq<int>, n: nat, x: int): (i: int)
    requires n <= |ids|
    ensures -1 <= i < n
    ensures i >= 0 ==> ids[i] == x
    ensures forall k :: i < k < n ==> ids[k] != x
  {
    if n == 0 then -1 else if ids[n - 1] == x then n - 1 else LastNaming(ids, n - 1, x)
  }

  /** Every row ends up with the last row written to it, and rows that no id names keep their contents. */
  lemma {:induction false} WritesAt<R>(cache: seq<R>, ids: seq<int>, rows: seq<R>, n: nat, x: nat)
    requires n <= |ids| && n <= |rows| && x < |cache|
    ensures Writes(cache, ids, rows, n)[x]
         == if LastNaming(ids, n, x) >= 0 then rows[LastNaming(ids, n, x)] else cache[x]
  {
    if n > 0 { WritesAt(cache, ids, rows, n - 1, x); }
  }

  // ---------- gpu_apply ----------

  /** apply_kv_to_cache: by slot, as far as both the slots and the rows go. */
  method ApplyKvToCache<R>(kv: seq<R>, cache: array<R>, slots: seq<int>)
    modifies cache
    ensures cache[..] == Overwritten(old(cache[..]), slots, kv)
  {
    for i := 0 to Min(|kv|, |slots|)
      invariant cache[..] == Writes(old(cache[..]), slots, kv, i)
    {
      if InBounds(slots[i], cache.Length) {
        cache[slots[i]] := kv[i];
      }
    }
  }

  /** apply_critical_kv and apply_refinement_kv: by block; a block without a row raises IndexError, after the blocks
      before it have been written. */
  method ApplyBlockKv<R>(rows: seq<R>, cache: array<R>, blocks: seq<int>) returns (r: Result<()>)
    modifies cache
    ensures cache[..] == Overwritten(old(cache[..]), blocks, rows)
    ensures r == if exists i :: |rows| <= i < |blocks| && 0 <= blocks[i] < cache.Length then Err(IndexError) else Ok(())
  {
    for i := 0 to |blocks|
      invariant cache[..] == Writes(old(cache[..]), blocks, rows, Min(i, |rows|))
      invariant forall k :: |rows| <= k < i ==> !InBounds(blocks[k], cache.Length)
    {
      if InBounds(blocks[i], cache.Length) {
        if i >= |rows| { return Err(IndexError); }
        cache[blocks[i]] := rows[i];
      }
    }
    r := Ok(());
  }

  // ---------- paged_kv_ops ----------

  function InBoundsOf(ids: seq<int>, n: nat): (r: seq<int>)
    ensures forall k :: 0 <= k < |r| ==> 0 <= r[k] < n
    ensures forall x :: x in r <==> x in ids && InBounds(x, n)
    ensures (forall x :: x in ids ==> InBounds(x, n)) ==> r == ids
  {
    if ids == [] then []
    else
      assert ids[0] in ids;
      assert forall x :: x in ids[1..] ==> x in ids;
      (if InBounds(ids[0], n) then [ids[0]] else []) + InBoundsOf(ids[1..], n)
  }

  function NonNegative(slots: seq<int>): (r: seq<int>)
    ensures forall k :: 0 <= k < |r| ==> r[k] >= 0 && r[k] in slots
    ensures |r| <= |slots| && (|r| == |slots| <==> forall k :: 0 <= k < |slots| ==> slots[k] >= 0)
    ensures (forall k :: 0 <= k < |slots| ==> slots[k] >= 0) ==> r == slots
  {
    if slots == [] then []
    else if slots[0] >= 0 then [slots[0]] + NonNegative(slots[1..])
    else NonNegative(slots[1..])
  }

  function Pick<R>(layer: seq<R>, ids: seq<int>): (r: seq<R>)
    requires forall k :: 0 <= k < |ids| ==> 0 <= ids[k] < |layer|
    ensures |r| == |ids| && forall k :: 0 <= k < |ids| ==> r[k] == layer[ids[k]]
  {
    seq(|ids|, k requires 0 <= k < |ids| => layer[ids[k]])
  }

  predicate AllBelow(ids: seq<int>, n: nat) { forall k :: 0 <= k < |ids| ==> ids[k] < n }

  /** extract_prefix_kv_from_layer: by slots if any is valid, else by blocks if any is inside the layer, else a prefix;
      an out-of-range slot falls back to the prefix. */
  function Extract<R>(layer: seq<R>, slots: Option<seq<int>>, blocks: seq<int>, tokens: int): seq<R> {
    var valid := if slots.Some? then NonNegative(slots.value) else [];
    if valid != [] then
      var taken := TakePy(valid, tokens);
      if AllBelow(taken, |layer|) then Pick(layer, taken)
      else TakePy(layer, Min(tokens, |layer|))
    else if InBoundsOf(blocks, |layer|) != [] then Pick(layer, InBoundsOf(blocks, |layer|))
    else TakePy(layer, tokens)
  }

  /** The buffer after inject_prefix_kv_into_layer. */
  function Injected<R>(dst: seq<R>, src: seq<R>, slots: Option<seq<int>>, blocks: seq<int>): (r: seq<R>)
    ensures |r| == |dst|
  {
    if slots.Some? && slots.value != [] then Overwritten(dst, slots.value, src)
    else if blocks != [] then Overwritten(dst, InBoundsOf(blocks, |dst|), src)
    else src[..Min(|src|, |dst|)] + dst[Min(|src|, |dst|)..]
  }

  lemma {:induction false} InBoundsOfSnoc(ids: seq<int>, n: nat, i: nat)
    requires i < |ids|
    ensures InBoundsOf(ids[..i + 1], n) == InBoundsOf(ids[..i], n) + if InBounds(ids[i], n) then [ids[i]] else []
  {
    if i == 0 {
      assert ids[..1][1..] == [] && ids[..0] == [];
    } else {
      assert ids[..i + 1][1..] == ids[1..][..i] && ids[..i][1..] == ids[1..][..i - 1];
      InBoundsOfSnoc(ids[1..], n, i - 1);
    }
  }

  lemma {:induction false} WritesPrefix<R>(cache: seq<R>, a: seq<int>, b: seq<int>, rows: seq<R>, n: nat)
    requires n <= |a| && n <= |b| && n <= |rows| && a[..n] == b[..n]
    ensures Writes(cache, a, rows, n) == Writes(cache, b, rows, n)
  {
    if n > 0 {
      assert a[..n - 1] == a[..n][..n - 1] == b[..n][..n - 1] == b[..n - 1];
      assert a[n - 1] == a[..n][n - 1] == b[n - 1];
      WritesPrefix(cache, a, b, rows, n - 1);
    }
  }

  lemma OverwrittenSnoc<R>(cache: seq<R>, ids: seq<int>, x: int, rows: seq<R>)
    ensures Overwritten(cache, ids + [x], rows)
         == if |ids| < |rows| && InBounds(x, |cache|) then Overwritten(cache, ids, rows)[x := rows[|ids|]]
            else Overwritten(cache, ids, rows)
  {
    WritesPrefix(cache, ids, ids + [x], rows, Min(|ids|, |rows|));
  }

  /** inject_prefix_kv_into_layer, by blocks: a row is used up only by a block inside the buffer. */
  method InjectByBlocks<R>(dst: array<R>, src: seq<R>, blocks: seq<int>)
    modifies dst
    ensures dst[..] == Overwritten(old(dst[..]), InBoundsOf(blocks, dst.Length), src)
  {
    hide Overwritten, InBoundsOf;
    var next := 0;
    ghost var start, done: seq<int> := dst[..], [];
    NoneInBounds(start, src, dst.Length);
    for i := 0 to |blocks|
      invariant done == InBoundsOf(blocks[..i], dst.Length) && next == Min(|done|, |src|)
      invariant dst[..] == Overwritten(start, done, src)
    {
      InBoundsOfSnoc(blocks, dst.Length, i);
      if InBounds(blocks[i], dst.Length) {
        OverwrittenSnoc(start, done, blocks[i], src);
        done := done + [blocks[i]];
        if next < |src| {
          dst[blocks[i]] := src[next];
          next := next + 1;
        }
      }
    }
    assert blocks[..|blocks|] == blocks;
  }

  lemma NoneInBounds<R>(cache: seq<R>, rows: seq<R>, n: nat)
    ensures Overwritten(cache, [], rows) == cache && InBoundsOf([], n) == []
  {
  }

  method InjectPrefixKv<R>(dst: array<R>, src: seq<R>, slots: Option<seq<int>>, blocks: seq<int>)
    modifies dst
    ensures dst[..] == Injected(old(dst[..]), src, slots, blocks)
  {
    hide Overwritten, InBoundsOf;
    if slots.Some? && slots.value != [] {
      ApplyKvToCache(src, dst, slots.value);
    } else if blocks != [] {
      InjectByBlocks(dst, src, blocks);
    } else {
      var n := Min(|src|, dst.Length);
      for i := 0 to n
        invariant forall k :: 0 <= k < i ==> dst[k] == src[k]
        invariant forall k :: i <= k < dst.Length ==> dst[k] == old(dst[k])
      {
        dst[i] := src[i];
      }
    }
  }

  // ---------- Round trips ----------

  predicate DistinctIds(ids: seq<int>) { forall i, j :: 0 <= i < j < |ids| ==> ids[i] != ids[j] }

  /** Every id is inside a buffer of n rows, and none is repeated. */
  predicate Separate(ids: seq<int>, n: nat) { (forall id :: id in ids ==> InBounds(id, n)) && DistinctIds(ids) }

  /** Extracting by a block list and injecting by the same list copies exactly the named rows that exist, whatever ids
      are repeated or out of range. */
  lemma ExtractInject<R>(layer: seq<R>, dst: seq<R>, blocks: seq<int>, tokens: int, x: nat)
    requires |layer| == |dst| && blocks != [] && x < |dst|
    ensures Injected(dst, Extract(layer, None, blocks, tokens), None, blocks)[x]
         == if x in blocks then layer[x] else dst[x]
  {
    var ids := InBoundsOf(blocks, |dst|);
    var rows := Extract(layer, None, blocks, tokens);
    WritesAt(dst, ids, rows, Min(|ids|, |rows|), x);
    if x in blocks {
      assert x in ids;
      var i := LastNaming(ids, |ids|, x);
    }
  }

  /** Rows written to distinct blocks inside the buffer are read back in order. */
  lemma InjectExtractBlocks<R>(dst: seq<R>, src: seq<R>, blocks: seq<int>, tokens: int)
    requires blocks != [] && Separate(blocks, |dst|) && |src| >= |blocks|
    ensures Extract(Injected(dst, src, None, blocks), None, blocks, tokens) == src[..|blocks|]
  {
    WrittenRows(dst, src, blocks);
  }

  lemma WrittenRows<R>(dst: seq<R>, src: seq<R>, ids: seq<int>)
    requires Separate(ids, |dst|) && |src| >= |ids|
    ensures forall k :: 0 <= k < |ids| ==> InBounds(ids[k], |dst|) && Overwritten(dst, ids, src)[ids[k]] == src[k]
  {
    forall k | 0 <= k < |ids|
      ensures InBounds(ids[k], |dst|) && Overwritten(dst, ids, src)[ids[k]] == src[k]
    {
      assert ids[k] in ids;
      WritesAt(dst, ids, src, |ids|, ids[k]);
    }
  }

  /** Rows written to distinct slots inside the buffer are read back in order when enough tokens are asked for. */
  lemma InjectExtractSlots<R>(dst: seq<R>, src: seq<R>, slots: seq<int>, blocks: seq<int>, tokens: int)
    requires slots != [] && Separate(slots, |dst|) && |src| >= |slots| && tokens >= |slots|
    ensures Extract(Injected(dst, src, Some(slots), blocks), Some(slots), blocks, tokens) == src[..|slots|]
  {
    hide Overwritten, InBoundsOf, DistinctIds;
    WrittenRows(dst, src, slots);
    var after := Overwritten(dst, slots, src);
    AllValid(slots, |dst|);
    assert TakePy(slots, tokens) == slots;
    assert Pick(after, slots) == src[..|slots|];
  }

  lemma AllValid(slots: seq<int>, n: nat)
    requires forall id :: id in slots ==> InBounds(id, n)
    ensures NonNegative(slots) == slots && AllBelow(slots, n)
  {
    assert forall k :: 0 <= k < |slots| ==> slots[k] in slots;
  }

  /** Given a row for every slot, slots return their rows, whatever the contents, exactly when all slots are inside the
      buffer, none is repeated and enough tokens are asked for. */
  lemma InjectExtractSlotsIff(slots: seq<int>, blocks: seq<int>, tokens: int, m: nat, n: nat)
    requires slots != [] && m >= |slots|
    ensures (forall dst: seq<int>, src: seq<int> | |dst| == n && |src| == m ::
               Extract(Injected(dst, src, Some(slots), blocks), Some(slots), blocks, tokens) == src[..|slots|])
       <==> Separate(slots, n) && tokens >= |slots|
  {
    hide Extract, Injected, Separate;
    if forall dst: seq<int>, src: seq<int> | |dst| == n && |src| == m ::
         Extract(Injected(dst, src, Some(slots), blocks), Some(slots), blocks, tokens) == src[..|slots|] {
      var dst, src := seq(n, _ => -1), seq(m, i => i);
      var after := Injected(dst, src, Some(slots), blocks);
      assert Extract(after, Some(slots), blocks, tokens) == src[..|slots|];
      ShowsLastNaming(dst, src, slots, Some(slots), blocks);
      SlotsReadBack(after, slots, blocks, tokens);
    } else {
      var dst: seq<int>, src: seq<int> :| |dst| == n && |src| == m
        && Extract(Injected(dst, src, Some(slots), blocks), Some(slots), blocks, tokens) != src[..|slots|];
      if Separate(slots, n) && tokens >= |slots| { InjectExtractSlots(dst, src, slots, blocks, tokens); }
    }
  }

  /** Rows that are their own positions, over places holding -1, leave in each place the last position naming it. */
  lemma ShowsLastNaming(dst: seq<int>, src: seq<int>, ids: seq<int>, slots: Option<seq<int>>, blocks: seq<int>)
    requires (forall x :: 0 <= x < |dst| ==> dst[x] == -1) && (forall i :: 0 <= i < |src| ==> src[i] == i)
    requires ids != [] && |src| >= |ids|
    requires slots == Some(ids) || (slots == None && blocks != [] && ids == InBoundsOf(blocks, |dst|))
    ensures forall x :: 0 <= x < |dst| ==> Injected(dst, src, slots, blocks)[x] == LastNaming(ids, |ids|, x)
  {
    hide LastNaming, InBoundsOf, Overwritten;
    forall x | 0 <= x < |dst|
      ensures Injected(dst, src, slots, blocks)[x] == LastNaming(ids, |ids|, x)
    {
      WritesAtEnd(dst, ids, src, x);
    }
  }

  lemma WritesAtEnd<R>(cache: seq<R>, ids: seq<int>, rows: seq<R>, x: nat)
    requires |rows| >= |ids| && x < |cache|
    ensures Overwritten(cache, ids, rows)[x]
         == if LastNaming(ids, |ids|, x) >= 0 then rows[LastNaming(ids, |ids|, x)] else cache[x]
  {
    WritesAt(cache, ids, rows, |ids|, x);
  }

  lemma SlotsReadBack(after: seq<int>, slots: seq<int>, blocks: seq<int>, tokens: int)
    requires slots != [] && forall x :: 0 <= x < |after| ==> after[x] == LastNaming(slots, |slots|, x)
    requires |Extract(after, Some(slots), blocks, tokens)| == |slots|
    requires forall k :: 0 <= k < |slots| ==> Extract(after, Some(slots), blocks, tokens)[k] == k
    ensures Separate(slots, |after|) && tokens >= |slots|
  {
    hide LastNaming, InBoundsOf, Separate;
    var valid := NonNegative(slots);
    var taken := TakePy(valid, tokens);
    assert Extract(after, Some(slots), blocks, tokens)[0] == 0;
    if valid == [] {
      NoneValid(after, slots);
    } else if !AllBelow(taken, |after|) {
      FallbackBelow(after, slots, tokens);
    } else {
      assert Extract(after, Some(slots), blocks, tokens) == Pick(after, taken);
      assert taken == slots;
      NamedOnce(slots, after);
    }
  }

  /** With no negative slot but one past the end, extraction falls back to a prefix. */
  lemma SlotPastTheEnd()
    ensures Extract(Injected([0, 0], [7, 8], Some([0, 5]), []), Some([0, 5]), [], 2) == [7, 0]
  {
    var after := Injected([0, 0], [7, 8], Some([0, 5]), []);
    assert Writes([0, 0], [0, 5], [7, 8], 1) == [7, 0];
    assert after == [7, 0];
    assert NonNegative([0, 5]) == [0, 5] && TakePy([0, 5], 2) == [0, 5];
    assert [0, 5][1] == 5 && !AllBelow([0, 5], 2);
  }

  lemma NoneValid(after: seq<int>, slots: seq<int>)
    requires NonNegative(slots) == [] && forall x :: 0 <= x < |after| ==> after[x] == LastNaming(slots, |slots|, x)
    ensures forall x :: 0 <= x < |after| ==> after[x] == -1
  {
    hide LastNaming;
    AllNegative(slots);
  }

  lemma {:induction false} AllNegative(slots: seq<int>)
    requires NonNegative(slots) == []
    ensures forall k :: 0 <= k < |slots| ==> slots[k] < 0
  {
    if slots != [] { AllNegative(slots[1..]); }
  }

  /** If the prefix that extraction falls back to were the rows, no slot would be out of range. */
  lemma FallbackBelow(after: seq<int>, slots: seq<int>, tokens: int)
    requires forall x :: 0 <= x < |after| ==> after[x] == LastNaming(slots, |slots|, x)
    requires |slots| <= |after| && forall k :: 0 <= k < |slots| ==> after[k] == k
    ensures AllBelow(TakePy(NonNegative(slots), tokens), |after|)
  {
    hide LastNaming, NonNegative;
    forall k | 0 <= k < |slots|
      ensures slots[k] == k
    {
      assert after[k] == k;
    }
  }

  lemma NamedOnce(ids: seq<int>, after: seq<int>)
    requires forall x :: 0 <= x < |after| ==> after[x] == LastNaming(ids, |ids|, x)
    requires forall k :: 0 <= k < |ids| ==> InBounds(ids[k], |after|) && after[ids[k]] == k
    ensures Separate(ids, |after|)
  {
    forall i, j | 0 <= i < j < |ids|
      ensures ids[i] != ids[j]
    {
      assert LastNaming(ids, |ids|, ids[i]) == i;
    }
  }

  /** Given a row for every block, blocks return their rows, whatever the contents, exactly when all blocks are inside
      the buffer and none is repeated. */
  lemma InjectExtractBlocksIff(blocks: seq<int>, tokens: int, m: nat, n: nat)
    requires blocks != [] && m >= |blocks|
    ensures (forall dst: seq<int>, src: seq<int> | |dst| == n && |src| == m ::
               Extract(Injected(dst, src, None, blocks), None, blocks, tokens) == src[..|blocks|])
       <==> Separate(blocks, n)
  {
    hide Extract, Injected, InBoundsOf, LastNaming;
    if forall dst: seq<int>, src: seq<int> | |dst| == n && |src| == m ::
         Extract(Injected(dst, src, None, blocks), None, blocks, tokens) == src[..|blocks|] {
      var dst, src := seq(n, _ => -1), seq(m, i => i);
      var after := Injected(dst, src, None, blocks);
      assert Extract(after, None, blocks, tokens) == src[..|blocks|];
      BlocksReadBack(dst, src, blocks, tokens);
    } else {
      var dst: seq<int>, src: seq<int> :| |dst| == n && |src| == m
        && Extract(Injected(dst, src, None, blocks), None, blocks, tokens) != src[..|blocks|];
      if Separate(blocks, n) { InjectExtractBlocks(dst, src, blocks, tokens); }
    }
  }

  lemma BlocksReadBack(dst: seq<int>, src: seq<int>, blocks: seq<int>, tokens: int)
    requires (forall x :: 0 <= x < |dst| ==> dst[x] == -1) && (forall i :: 0 <= i < |src| ==> src[i] == i)
    requires blocks != [] && |src| >= |blocks|
    requires Extract(Injected(dst, src, None, blocks), None, blocks, tokens) == src[..|blocks|]
    ensures Separate(blocks, |dst|)
  {
    hide LastNaming, Overwritten, InBoundsOf, Separate;
    var inside, after := InBoundsOf(blocks, |dst|), Injected(dst, src, None, blocks);
    InsideCount(blocks, |dst|);
    assert src[..|blocks|][0] == 0;
    NothingWritten(dst, src, tokens);
    assert inside != [];
    ShowsLastNaming(dst, src, inside, None, blocks);
    assert Extract(after, None, blocks, tokens) == Pick(after, inside);
    assert inside == blocks;
    NamedOnce(blocks, after);
  }

  lemma NothingWritten(dst: seq<int>, src: seq<int>, tokens: int)
    requires forall x :: 0 <= x < |dst| ==> dst[x] == -1
    ensures Overwritten(dst, [], src) == dst && 0 !in TakePy(dst, tokens)
  {
  }

  lemma {:induction false} InsideCount(ids: seq<int>, n: nat)
    ensures |InBoundsOf(ids, n)| <= |ids| && (|InBoundsOf(ids, n)| == |ids| ==> InBoundsOf(ids, n) == ids)
  {
    if ids != [] { InsideCount(ids[1..], n); }
  }

  // ---------- Neither slots nor blocks ----------

  /** No slot that is not negative, and no block inside the layer. */
  predicate NoneUsable(slots: Option<seq<int>>, blocks: seq<int>, n: nat) {
    && (slots.Some? ==> forall k :: 0 <= k < |slots.value| ==> slots.value[k] < 0)
    && forall id :: id in blocks ==> !InBounds(id, n)
  }

  lemma {:induction false} NegativeNone(slots: seq<int>)
    requires forall k :: 0 <= k < |slots| ==> slots[k] < 0
    ensures NonNegative(slots) == []
  {
    if slots != [] { NegativeNone(slots[1..]); }
  }

  /** Without a usable slot or block extraction takes the first rows, as many as tokens. */
  lemma ExtractPrefix<R>(layer: seq<R>, slots: Option<seq<int>>, blocks: seq<int>, tokens: nat)
    requires NoneUsable(slots, blocks, |layer|)
    ensures Extract(layer, slots, blocks, tokens) == layer[..Min(tokens, |layer|)]
  {
    if slots.Some? { NegativeNone(slots.value); }
    NoneInside(blocks, |layer|);
  }

  /** Without slots or blocks injection overwrites the first rows, as far as both sides go, and no others, and what it
      wrote is what extraction takes. */
  lemma DirectRoundTrip<R>(dst: seq<R>, src: seq<R>, tokens: nat)
    requires tokens <= |src| && tokens <= |dst|
    ensures var after := Injected(dst, src, None, []);
            && (forall x :: 0 <= x < |dst| ==> after[x] == if x < |src| then src[x] else dst[x])
            && Injected(dst, src, Some([]), []) == after
            && Extract(after, None, [], tokens) == src[..tokens]
  {
    ExtractPrefix(Injected(dst, src, None, []), None, [], tokens);
  }

  // ---------- Refinement over critical rows ----------

  /** Every block that the first c rows reach inside a buffer of n rows is also named among those with one of f rows. */
  predicate Covers(ids: seq<int>, c: nat, f: nat, n: nat) {
    forall i :: 0 <= i < |ids| && i < c && InBounds(ids[i], n) ==> LastNaming(ids, Min(|ids|, f), ids[i]) >= 0
  }

  lemma RefinementOverwrites<R>(cache: seq<R>, ids: seq<int>, critical: seq<R>, refined: seq<R>)
    requires Covers(ids, |critical|, |refined|, |cache|)
    ensures Overwritten(Overwritten(cache, ids, critical), ids, refined) == Overwritten(cache, ids, refined)
  {
    var a, b := Min(|ids|, |critical|), Min(|ids|, |refined|);
    var mid := Overwritten(cache, ids, critical);
    forall x | 0 <= x < |cache|
      ensures Overwritten(mid, ids, refined)[x] == Overwritten(cache, ids, refined)[x]
    {
      WritesAt(mid, ids, refined, b, x);
      WritesAt(cache, ids, refined, b, x);
      WritesAt(cache, ids, critical, a, x);
    }
  }

  /** Applying critical rows and then refinement rows to the same blocks gives what refinement alone gives, on all
      contents, exactly when refinement rows cover every block that critical rows reach. */
  lemma RefinementOverwritesIff(ids: seq<int>, c: nat, f: nat, n: nat)
    ensures (forall cache: seq<int>, critical: seq<int>, refined: seq<int>
               | |cache| == n && |critical| == c && |refined| == f ::
               Overwritten(Overwritten(cache, ids, critical), ids, refined) == Overwritten(cache, ids, refined))
       <==> Covers(ids, c, f, n)
  {
    hide Overwritten, Covers;
    if Covers(ids, c, f, n) {
      forall cache: seq<int>, critical: seq<int>, refined: seq<int> | |cache| == n && |critical| == c && |refined| == f
        ensures Overwritten(Overwritten(cache, ids, critical), ids, refined) == Overwritten(cache, ids, refined)
      {
        RefinementOverwrites(cache, ids, critical, refined);
      }
    } else {
      var i := Uncovered(ids, c, f, n);
      var cache, critical, refined := seq(n, _ => 0), seq(c, _ => 1), seq(f, _ => 0);
      CriticalShows(cache, ids, critical, refined, i);
      assert Overwritten(Overwritten(cache, ids, critical), ids, refined) != Overwritten(cache, ids, refined);
    }
  }

  lemma Uncovered(ids: seq<int>, c: nat, f: nat, n: nat) returns (i: nat)
    requires !Covers(ids, c, f, n)
    ensures i < |ids| && i < c && InBounds(ids[i], n) && LastNaming(ids, Min(|ids|, f), ids[i]) < 0
  {
    i :| 0 <= i < |ids| && i < c && InBounds(ids[i], n) && LastNaming(ids, Min(|ids|, f), ids[i]) < 0;
  }

  lemma CriticalShows(cache: seq<int>, ids: seq<int>, critical: seq<int>, refined: seq<int>, i: nat)
    requires i < |ids| && i < |critical| && InBounds(ids[i], |cache|)
    requires LastNaming(ids, Min(|ids|, |refined|), ids[i]) < 0
    requires (forall k :: 0 <= k < |critical| ==> critical[k] == 1) && forall k :: 0 <= k < |cache| ==> cache[k] == 0
    ensures Overwritten(Overwritten(cache, ids, critical), ids, refined)[ids[i]] == 1
    ensures Overwritten(cache, ids, refined)[ids[i]] == 0
  {
    var a, b := Min(|ids|, |critical|), Min(|ids|, |refined|);
    WritesAt(Overwritten(cache, ids, critical), ids, refined, b, ids[i]);
    WritesAt(cache, ids, refined, b, ids[i]);
    WritesAt(cache, ids, critical, a, ids[i]);
  }

  lemma RefinementWithRowPerBlock<R>(cache: seq<R>, ids: seq<int>, critical: seq<R>, refined: seq<R>)
    requires |refined| >= |ids|
    ensures Overwritten(Overwritten(cache, ids, critical), ids, refined) == Overwritten(cache, ids, refined)
    ensures forall x :: 0 <= x < |cache| && x !in ids ==> Overwritten(cache, ids, refined)[x] == cache[x]
  {
    RefinementOverwrites(cache, ids, critical, refined);
    forall x | 0 <= x < |cache| && x !in ids
      ensures Overwritten(cache, ids, refined)[x] == cache[x]
    {
      WritesAt(cache, ids, refined, |ids|, x);
    }
  }

  /** With rows for the first m ids, position-by-position writing and injection, which skips ids outside the buffer
      without using up a row, put the same row last into each place of a buffer of n rows. */
  predicate SameLastRows(ids: seq<int>, m: nat, n: nat) {
    var inside := InBoundsOf(ids, n);
    forall x :: 0 <= x < n ==> LastNaming(ids, Min(|ids|, m), x) == LastNaming(inside, Min(|inside|, m), x)
  }

  lemma LoopsAgree<R>(cache: seq<R>, ids: seq<int>, rows: seq<R>)
    requires ids != [] && SameLastRows(ids, |rows|, |cache|)
    ensures Injected(cache, rows, None, ids) == Overwritten(cache, ids, rows)
  {
    hide LastNaming, InBoundsOf;
    var inside := InBoundsOf(ids, |cache|);
    forall x | 0 <= x < |cache|
      ensures Overwritten(cache, inside, rows)[x] == Overwritten(cache, ids, rows)[x]
    {
      WritesAt(cache, inside, rows, Min(|inside|, |rows|), x);
      WritesAt(cache, ids, rows, Min(|ids|, |rows|), x);
      assert LastNaming(ids, Min(|ids|, |rows|), x) == LastNaming(inside, Min(|inside|, |rows|), x);
    }
  }

  /** The loops agree on all contents exactly when they put the same row last into each place; with no ids at all
      injection copies a prefix, and they agree when there is nothing to copy. */
  lemma LoopsAgreeIff(ids: seq<int>, m: nat, n: nat)
    ensures (forall cache: seq<int>, rows: seq<int> | |cache| == n && |rows| == m ::
               Injected(cache, rows, None, ids) == Overwritten(cache, ids, rows))
       <==> if ids == [] then m == 0 || n == 0 else SameLastRows(ids, m, n)
  {
    hide LastNaming, InBoundsOf, SameLastRows, Injected, Overwritten;
    if forall cache: seq<int>, rows: seq<int> | |cache| == n && |rows| == m ::
         Injected(cache, rows, None, ids) == Overwritten(cache, ids, rows) {
      var cache, rows := seq(n, _ => -1), seq(m, i => i);
      assert Injected(cache, rows, None, ids) == Overwritten(cache, ids, rows);
      if ids == [] { CopiesPrefix(cache, rows); } else { TellsApart(cache, ids, rows); }
    } else {
      var cache: seq<int>, rows: seq<int> :| |cache| == n && |rows| == m
        && Injected(cache, rows, None, ids) != Overwritten(cache, ids, rows);
      if ids == [] {
        CopiesPrefix(cache, rows);
      } else if SameLastRows(ids, m, n) {
        LoopsAgree(cache, ids, rows);
      }
    }
  }

  lemma CopiesPrefix(cache: seq<int>, rows: seq<int>)
    ensures Overwritten(cache, [], rows) == cache
    ensures |rows| == 0 || |cache| == 0 ==> Injected(cache, rows, None, []) == cache
    ensures |rows| > 0 && |cache| > 0 ==> Injected(cache, rows, None, [])[0] == rows[0]
  {
  }

  /** Rows that are their own positions, over places holding -1, show which row was written last. */
  lemma TellsApart(cache: seq<int>, ids: seq<int>, rows: seq<int>)
    requires ids != []
    requires (forall x :: 0 <= x < |cache| ==> cache[x] == -1) && forall i :: 0 <= i < |rows| ==> rows[i] == i
    requires Injected(cache, rows, None, ids) == Overwritten(cache, ids, rows)
    ensures SameLastRows(ids, |rows|, |cache|)
  {
    hide LastNaming, InBoundsOf;
    var inside := InBoundsOf(ids, |cache|);
    forall x | 0 <= x < |cache|
      ensures LastNaming(ids, Min(|ids|, |rows|), x) == LastNaming(inside, Min(|inside|, |rows|), x)
    {
      WritesAt(cache, inside, rows, Min(|inside|, |rows|), x);
      WritesAt(cache, ids, rows, Min(|ids|, |rows|), x);
    }
  }

  /** Ids outside the buffer do no harm at the end of the list, where no row is left for injection to misplace. */
  lemma OutsideLast(good: seq<int>, bad: seq<int>, m: nat, n: nat)
    requires (forall id :: id in good ==> InBounds(id, n)) && forall id :: id in bad ==> !InBounds(id, n)
    ensures SameLastRows(good + bad, m, n)
  {
    InsideOnly(good, bad, n);
    var ids := good + bad;
    forall k | |good| <= k < |ids|
      ensures !InBounds(ids[k], n)
    {
      assert ids[k] in bad;
    }
    forall x | 0 <= x < n
      ensures LastNaming(ids, Min(|ids|, m), x) == LastNaming(good, Min(|good|, m), x)
    {
      var i, j := LastNaming(ids, Min(|ids|, m), x), LastNaming(good, Min(|good|, m), x);
      assert i >= 0 ==> good[i] == x;
      assert j >= 0 ==> ids[j] == x;
    }
  }

  lemma {:induction false} InsideOnly(good: seq<int>, bad: seq<int>, n: nat)
    requires (forall id :: id in good ==> InBounds(id, n)) && forall id :: id in bad ==> !InBounds(id, n)
    ensures InBoundsOf(good + bad, n) == good
  {
    if good != [] {
      assert (good + bad)[1..] == good[1..] + bad;
      assert good[0] in good;
      InsideOnly(good[1..], bad, n);
    } else {
      assert good + bad == bad;
      NoneInside(bad, n);
    }
  }

  lemma {:induction false} NoneInside(bad: seq<int>, n: nat)
    requires forall id :: id in bad ==> !InBounds(id, n)
    ensures InBoundsOf(bad, n) == []
  {
    if bad != [] {
      assert bad[0] in bad;
      NoneInside(bad[1..], n);
    }
  }

  /** An id outside the buffer, before one inside, makes them differ: injection does not use up a row for it. */
  lemma LoopsDiffer()
    ensures Injected([0, 0], [7, 8], None, [5, 1]) == [0, 7]
    ensures Overwritten([0, 0], [5, 1], [7, 8]) == [0, 8]
  {
    hide Writes, Overwritten, InBoundsOf;
    OneInBounds([5, 1]);
    WritesTwo([0, 0], [5, 1], [7, 8]);
    WritesOne([0, 0], [1], [7, 8]);
  }

  lemma WritesOne(cache: seq<int>, ids: seq<int>, rows: seq<int>)
    requires |rows| == |cache| == 2 && ids == [1]
    ensures Overwritten(cache, ids, rows) == [cache[0], rows[0]]
  {
    assert Writes(cache, ids, rows, 0) == cache;
  }

  lemma OneInBounds(ids: seq<int>)
    requires |ids| == 2 && ids[0] == 5 && ids[1] == 1
    ensures InBoundsOf(ids, 2) == [1]
  {
    assert ids[1..] == [1] && [1][1..] == [];
    assert InBoundsOf([1], 2) == [1];
  }

  lemma WritesTwo(cache: seq<int>, ids: seq<int>, rows: seq<int>)
    requires |ids| == |rows| == |cache| == 2 && ids[0] == 5 && ids[1] == 1
    ensures Overwritten(cache, ids, rows) == [cache[0], rows[1]]
  {
    assert Writes(cache, ids, rows, 1) == cache;
  }

  // ---------- The loader's pending refinements ----------

  /** What applying a request's pending refinement does: success, the remaining refinements and the layers. */
  function Applied<R>(pending: map<string, seq<seq<R>>>, layers: seq<seq<R>>, request: string, ids: seq<int>)
    : (bool, map<string, seq<seq<R>>>, seq<seq<R>>)
  {
    if request !in pending || |pending[request]| != |layers| then (false, pending, layers)
    else
      (true, pending - {request},
       seq(|layers|, i requires 0 <= i < |layers| => Overwritten(layers[i], ids, pending[request][i])))
  }

  function Contents<R>(layers: seq<array<R>>): (c: seq<seq<R>>)
    reads layers
    ensures |c| == |layers| && forall i :: 0 <= i < |layers| ==> c[i] == layers[i][..]
  {
    if layers == [] then [] else Contents(layers[..|layers| - 1]) + [layers[|layers| - 1][..]]
  }

  class RemoteKVLoader<R> {
    var pending: map<string, seq<seq<R>>>

    constructor ()
      ensures pending == map[]
    {
      pending := map[];
    }

    method ApplyRefinementToLayer(rows: seq<R>, layer: array<R>, ids: seq<int>)
      modifies layer
      ensures layer[..] == Overwritten(old(layer[..]), ids, rows)
    {
      for i := 0 to |ids|
        invariant layer[..] == Writes(old(layer[..]), ids, rows, Min(i, |rows|))
      {
        if InBounds(ids[i], layer.Length) {
          if i < |rows| {
            layer[ids[i]] := rows[i];
          }
        }
      }
    }

    /** The layers are different buffers, as a model's per-layer caches are. */
    method ApplyRefinementIfReady(request: string, layers: seq<array<R>>, ids: seq<int>) returns (ok: bool)
      requires forall i, j :: 0 <= i < j < |layers| ==> layers[i] != layers[j]
      modifies this, layers
      ensures (ok, pending, Contents(layers)) == Applied(old(pending), old(Contents(layers)), request, ids)
      ensures ok <==> request in old(pending) && |old(pending)[request]| == |layers|
      ensures !ok ==> pending == old(pending) && Contents(layers) == old(Contents(layers))
      ensures ok ==> pending == old(pending) - {request} && forall i :: 0 <= i < |layers| ==>
                layers[i][..] == Overwritten(old(layers[i][..]), ids, old(pending)[request][i])
    {
      if request !in pending { return false; }
      var tensors := pending[request];
      if |tensors| != |layers| { return false; }
      for k := 0 to |layers|
        invariant pending == old(pending)
        invariant forall i :: 0 <= i < k ==> layers[i][..] == Overwritten(old(layers[i][..]), ids, tensors[i])
        invariant forall i :: k <= i < |layers| ==> layers[i][..] == old(layers[i][..])
      {
        ApplyRefinementToLayer(tensors[k], layers[k], ids);
      }
      pending := pending - {request};
      ok := true;
      assert Contents(layers) == Applied(old(pending), old(Contents(layers)), request, ids).2;
    }
  }
}
