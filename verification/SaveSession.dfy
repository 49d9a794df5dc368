/** A save session: the layers of one request collected in any order, first arrival of each index kept. */
module SaveSession {
  import opened Common
  import opened Decimal
  import opened Int8Codec

  datatype Layer = Layer(index: int, name: string, tensor: Tensor)

  datatype Session = Session(
    prefixKey: string,
    matchedTokens: int,
    matchedBlocks: seq<int>,
    numLayers: int,
    layers: map<int, Layer>,
    completed: bool,
    aborted: bool,
    abortReason: Option<string>)

  function Opened(prefixKey: string, matchedTokens: int, matchedBlocks: seq<int>, numLayers: int): Session {
    Session(prefixKey, matchedTokens, matchedBlocks, numLayers, map[], false, false, None)
  }

  // ---------- Layer names ----------

  /** The part of a name after its last underscore. */
  function LastSegment(name: string): string {
    if '_' !in name then name
    else if name[0] == '_' then LastSegment(name[1..])
    else
      assert '_' in name[1..];
      LastSegment(name[1..])
  }

  const WHITESPACE := {' ', '\t', '\n', '\r', '\U{B}', '\U{C}', '\U{1C}', '\U{1D}', '\U{1E}', '\U{1F}'}

  function TrimLeft(s: string): string {
    if s != "" && s[0] in WHITESPACE then TrimLeft(s[1..]) else s
  }

  function TrimRight(s: string): string {
    if s != "" && s[|s| - 1] in WHITESPACE then TrimRight(s[..|s| - 1]) else s
  }

  function ParseDigits(s: string): Option<int> {
    if s != "" && DigitRun(s) == |s| then Some(DigitsValue(s)) else None
  }

  /** Python's int() on ASCII text without underscores. */
  function ParseInt(s: string): Option<int> {
    var t := TrimRight(TrimLeft(s));
    if t == "" then None
    else if t[0] == '-' then
      match ParseDigits(t[1..])
      case Some(n) => Some(-n)
      case None => None
    else if t[0] == '+' then ParseDigits(t[1..])
    else ParseDigits(t)
  }

  /** The index a layer is stored under; a name without a number at its end takes the next count. */
  function IndexOf(name: string, count: nat): int {
    if '_' in name && ParseInt(LastSegment(name)).Some? then ParseInt(LastSegment(name)).value else count
  }

  // ---------- Operations ----------

  datatype Op = AddLayer(name: string, tensor: Tensor) | Abort(reason: string) | MarkCompleted

  function Step(s: Session, op: Op): (bool, Session) {
    match op
    case Abort(reason) => (true, s.(aborted := true, abortReason := Some(reason)))
    case MarkCompleted => (true, s.(completed := true))
    case AddLayer(name, t) =>
      var i := IndexOf(name, |s.layers|);
      if s.completed || s.aborted || i >= s.numLayers || i in s.layers then (false, s)
      else (true, s.(layers := s.layers[i := Layer(i, name, t)]))
  }

  function Run(s: Session, ops: seq<Op>): Session {
    if ops == [] then s else Step(Run(s, ops[..|ops| - 1]), ops[|ops| - 1]).1
  }

  predicate IsComplete(s: Session) { |s.layers| >= s.numLayers }

  /** A dictionary key, wrapped so that one can be chosen from a set of them. */
  datatype Key = Key(index: int)

  function KeysOf(layers: map<int, Layer>): set<Key> { set k | k in layers :: Key(k) }

  lemma {:induction false} LeastExists(s: set<Key>)
    requires s != {}
    ensures exists m :: m in s && forall x :: x in s ==> m.index <= x.index
  {
    var m :| m in s;
    if s != {m} {
      LeastExists(s - {m});
      var n :| n in s - {m} && forall x :: x in s - {m} ==> n.index <= x.index;
      var least := if m.index < n.index then m else n;
      assert least in s;
      forall x | x in s
        ensures least.index <= x.index
      {
        if x != m { assert x in s - {m}; }
      }
    }
  }

  function Sorted(s: set<Key>): (r: seq<Key>)
    ensures forall x :: x in r <==> x in s
  {
    if s == {} then []
    else
      LeastExists(s);
      var m :| m in s && forall x :: x in s ==> m.index <= x.index;
      [m] + Sorted(s - {m})
  }

  function AllLayers(s: Session): seq<Layer> {
    var keys := Sorted(KeysOf(s.layers));
    seq(|keys|, i requires 0 <= i < |keys| => (assert keys[i] in keys; s.layers[keys[i].index]))
  }

  // ---------- The session, complete or not ----------

  /** Layers are filed under their own indices, which are below the layer count. */
  ghost predicate Filed(s: Session) { forall k :: k in s.layers ==> s.layers[k].index == k < s.numLayers }

  /** Every index below the layer count is stored. */
  predicate HasAll(s: Session) { forall k: nat :: k < s.numLayers ==> k in s.layers }

  lemma SortedStep(s: set<Key>, m: Key)
    requires m in s && forall x :: x in s ==> m.index <= x.index
    ensures Sorted(s) == [m] + Sorted(s - {m})
  {
  }

  lemma {:induction false} SortedIncreasing(s: set<Key>)
    ensures |Sorted(s)| == |s|
    ensures forall i, j :: 0 <= i < j < |Sorted(s)| ==> Sorted(s)[i].index < Sorted(s)[j].index
  {
    if s != {} {
      LeastExists(s);
      var m :| m in s && forall x :: x in s ==> m.index <= x.index;
      SortedStep(s, m);
      SortedIncreasing(s - {m});
      hide Sorted;
      LeastFirst(s, m, Sorted(s - {m}));
    } else {
      assert Sorted(s) == [];
    }
  }

  lemma LeastFirst(s: set<Key>, m: Key, rest: seq<Key>)
    requires (forall x :: x in s ==> m.index <= x.index) && forall x :: x in rest ==> x in s - {m}
    requires forall i, j :: 0 <= i < j < |rest| ==> rest[i].index < rest[j].index
    ensures var all := [m] + rest; forall i, j :: 0 <= i < j < |all| ==> all[i].index < all[j].index
  {
    forall i | 0 <= i < |rest|
      ensures m.index < rest[i].index
    {
      assert rest[i] in rest;
    }
  }

  function Indices(keys: set<Key>): set<int> { set k | k in keys :: k.index }

  lemma {:induction false} IndexCount(keys: set<Key>)
    ensures |Indices(keys)| == |keys|
  {
    if keys != {} {
      var k :| k in keys;
      IndexCount(keys - {k});
      assert Indices(keys) == Indices(keys - {k}) + {k.index};
    }
  }

  lemma KeyCount(layers: map<int, Layer>)
    ensures |KeysOf(layers)| == |layers|
  {
    IndexCount(KeysOf(layers));
    forall k
      ensures k in Indices(KeysOf(layers)) <==> k in layers.Keys
    {
      assert k in layers ==> Key(k) in KeysOf(layers);
    }
    assert Indices(KeysOf(layers)) == layers.Keys;
  }

  /** The collected layers are all the stored ones, each once, by increasing index, whether or not any is missing. */
  lemma LayersInOrder(s: Session)
    requires Filed(s)
    ensures var all := AllLayers(s);
            && |all| == |s.layers|
            && (forall k :: k in s.layers ==> s.layers[k] in all)
            && (forall l :: l in all ==> l.index in s.layers && s.layers[l.index] == l)
            && forall i, j :: 0 <= i < j < |all| ==> all[i].index < all[j].index
  {
    hide Sorted;
    SortedIncreasing(KeysOf(s.layers));
    KeyCount(s.layers);
    var keys, all := Sorted(KeysOf(s.layers)), AllLayers(s);
    forall i | 0 <= i < |keys|
      ensures keys[i].index in s.layers && all[i] == s.layers[keys[i].index] && all[i].index == keys[i].index
    {
      assert keys[i] in keys;
    }
    forall k | k in s.layers
      ensures s.layers[k] in all
    {
      assert Key(k) in keys;
    }
  }

  function Below(n: nat): (s: set<int>)
    ensures |s| == n && forall k :: k in s <==> 0 <= k < n
  {
    if n == 0 then {} else Below(n - 1) + {n - 1}
  }

  lemma SubsetSize(a: set<int>, b: set<int>)
    requires a <= b
    ensures |a| <= |b| && (|a| == |b| ==> a == b)
  {
    if a != b {
      var rest := b - a;
      assert a + rest == b && |a + rest| == |a| + |rest|;
    }
  }

  /** The count test against the presence of every index: presence passes it, and passing it means presence when no
      stored index is negative. */
  lemma CountTest(s: Session)
    requires Filed(s)
    ensures HasAll(s) ==> IsComplete(s)
    ensures IsComplete(s) && (forall k :: k in s.layers ==> k >= 0) ==> HasAll(s)
  {
    hide Below;
    var keys := s.layers.Keys;
    var all := Below(if s.numLayers < 0 then 0 else s.numLayers);
    assert |keys| == |s.layers|;
    if HasAll(s) {
      assert forall k :: k in all ==> k in keys;
      SubsetSize(all, keys);
    }
    if forall k :: k in s.layers ==> k >= 0 {
      assert forall k :: k in keys ==> k in all;
      SubsetSize(keys, all);
    }
  }

  class SaveSession {
    const prefixKey: string
    const matchedTokens: int
    const matchedBlocks: seq<int>
    const numLayers: int
    var layerData: map<int, Layer>
    var completed: bool
    var aborted: bool
    var abortReason: Option<string>

    constructor (prefixKey: string, matchedTokens: int, matchedBlocks: seq<int>, numLayers: int)
      ensures Valid() && View() == Opened(prefixKey, matchedTokens, matchedBlocks, numLayers)
    {
      this.prefixKey, this.matchedTokens, this.matchedBlocks := prefixKey, matchedTokens, matchedBlocks;
      this.numLayers := numLayers;
      layerData, completed, aborted, abortReason := map[], false, false, None;
    }

    /** Layers are filed under their own indices, which are below the layer count. */
    ghost predicate Valid()
      reads this
    {
      Filed(View())
    }

    function View(): Session
      reads this
    {
      Session(prefixKey, matchedTokens, matchedBlocks, numLayers, layerData, completed, aborted, abortReason)
    }

    method Add(name: string, tensor: Tensor) returns (added: bool)
      requires Valid()
      modifies this
      ensures Valid() && (added, View()) == Step(old(View()), AddLayer(name, tensor))
      ensures added <==> !old(completed) && !old(aborted)
                         && IndexOf(name, |old(layerData)|) < numLayers
                         && IndexOf(name, |old(layerData)|) !in old(layerData)
      ensures layerData == if !added then old(layerData)
                           else var i := IndexOf(name, |old(layerData)|); old(layerData)[i := Layer(i, name, tensor)]
      ensures completed == old(completed) && aborted == old(aborted) && abortReason == old(abortReason)
    {
      if completed || aborted { return false; }
      var index := IndexOf(name, |layerData|);
      if index >= numLayers { return false; }
      if index in layerData { return false; }
      layerData := layerData[index := Layer(index, name, tensor)];
      added := true;
    }

    /** A session with every layer is complete; a complete one has every layer unless a negative index is stored. */
    method Complete() returns (complete: bool)
      requires Valid()
      ensures complete <==> IsComplete(View())
      ensures HasAll(View()) ==> complete
      ensures complete && (forall k :: k in layerData ==> k >= 0) ==> HasAll(View())
    {
      complete := |layerData| >= numLayers;
      CountTest(View());
    }

    method AbortWith(reason: string)
      requires Valid()
      modifies this
      ensures Valid() && View() == Step(old(View()), Abort(reason)).1
      ensures aborted && abortReason == Some(reason) && completed == old(completed) && layerData == old(layerData)
    {
      aborted, abortReason := true, Some(reason);
    }

    /** Every stored layer once, by increasing index. */
    method Layers() returns (layers: seq<Layer>)
      requires Valid()
      ensures layers == AllLayers(View())
      ensures |layers| == |layerData| && forall k :: k in layerData ==> layerData[k] in layers
      ensures forall l :: l in layers ==> l.index in layerData && layerData[l.index] == l
      ensures forall i, j :: 0 <= i < j < |layers| ==> layers[i].index < layers[j].index
    {
      layers := AllLayers(View());
      LayersInOrder(View());
    }

    method MarkDone()
      requires Valid()
      modifies this
      ensures Valid() && View() == Step(old(View()), MarkCompleted).1
      ensures completed && aborted == old(aborted) && abortReason == old(abortReason) && layerData == old(layerData)
    {
      completed := true;
    }
  }

  // ---------- Names that end in a number ----------

  predicate Numbered(name: string) {
    '_' in name && ParseInt(LastSegment(name)).Some? && ParseInt(LastSegment(name)).value >= 0
  }

  function NumberOf(name: string): nat
    requires Numbered(name)
  {
    ParseInt(LastSegment(name)).value
  }

  lemma {:induction false} LastSegmentOf(prefix: string, digits: string)
    requires '_' !in digits
    ensures LastSegment(prefix + "_" + digits) == digits
  {
    var name := prefix + "_" + digits;
    assert name[|prefix|] == '_';
    if prefix == "" {
      assert name == "_" + digits && name[1..] == digits;
    } else {
      assert name[1..] == prefix[1..] + "_" + digits;
      LastSegmentOf(prefix[1..], digits);
    }
  }

  /** A name made of any prefix, an underscore and the decimal form of k is stored under k. */
  lemma DecimalName(prefix: string, k: nat)
    ensures Numbered(prefix + "_" + PrintNat(k)) && NumberOf(prefix + "_" + PrintNat(k)) == k
  {
    hide PrintNat, ParseInt, LastSegment;
    var digits := PrintNat(k);
    PrintNatDigits(k);
    assert forall i :: 0 <= i < |digits| ==> IsDigit(digits[i]) && digits[i] != '_';
    LastSegmentOf(prefix, digits);
    ParsePlainInt(digits);
    assert (prefix + "_" + digits)[|prefix|] == '_';
  }

  lemma ParsePlainInt(digits: string)
    requires digits != "" && forall i :: 0 <= i < |digits| ==> IsDigit(digits[i])
    ensures ParseInt(digits) == Some(DigitsValue(digits))
  {
    hide DigitsValue, DigitRun, TrimLeft, TrimRight, ParseDigits;
    assert IsDigit(digits[0]) && IsDigit(digits[|digits| - 1]);
    NothingToTrim(digits);
    AllDigits(digits);
  }

  lemma NothingToTrim(s: string)
    requires s != "" && (s[0] == '-' || IsDigit(s[0])) && IsDigit(s[|s| - 1])
    ensures TrimLeft(s) == s && TrimRight(s) == s
  {
  }

  /** ASCII white space by code. */
  predicate IsSpace(c: char) { c == ' ' || 9 <= c as int <= 13 || 28 <= c as int <= 31 }

  predicate AllSpace(s: string) { forall i :: 0 <= i < |s| ==> IsSpace(s[i]) }

  lemma {:induction false} TrimSpaceLeft(left: string, t: string)
    requires AllSpace(left) && t != "" && !IsSpace(t[0])
    ensures TrimLeft(left + t) == t
  {
    if left == "" {
      assert left + t == t;
    } else {
      assert (left + t)[1..] == left[1..] + t;
      TrimSpaceLeft(left[1..], t);
    }
  }

  lemma {:induction false} TrimSpaceRight(t: string, right: string)
    requires AllSpace(right) && t != "" && !IsSpace(t[|t| - 1])
    ensures TrimRight(t + right) == t
  {
    if right == "" {
      assert t + right == t;
    } else {
      assert (t + right)[..|t + right| - 1] == t + right[..|right| - 1];
      TrimSpaceRight(t, right[..|right| - 1]);
    }
  }

  /** White space around the number, and a plus sign before it, make no difference. */
  lemma {:induction false} SpacedName(prefix: string, left: string, plus: bool, k: nat, right: string, count: nat)
    requires AllSpace(left) && AllSpace(right)
    ensures IndexOf(prefix + "_" + (left + ((if plus then "+" else "") + PrintNat(k) + right)), count) == k
  {
    hide PrintNat, TrimLeft, TrimRight, LastSegment, ParseDigits, DigitsValue, DigitRun;
    var digits := PrintNat(k);
    PrintNatDigits(k);
    assert forall i :: 0 <= i < |digits| ==> IsDigit(digits[i]) && digits[i] != '_' && !IsSpace(digits[i]);
    var t := (if plus then "+" else "") + digits;
    assert plus ==> t[0] == '+' && t[1..] == digits;
    assert !plus ==> t == digits;
    assert t[|t| - 1] == digits[|digits| - 1];
    assert left + (t + right) == left + t + right;
    SpacedInt(left, t, right);
    AllDigits(digits);
    LastSegmentOf(prefix, left + (t + right));
    assert (prefix + "_" + (left + (t + right)))[|prefix|] == '_';
  }

  lemma SpacedInt(left: string, t: string, right: string)
    requires AllSpace(left) && AllSpace(right) && t != "" && !IsSpace(t[0]) && !IsSpace(t[|t| - 1])
    ensures TrimRight(TrimLeft(left + (t + right))) == t
  {
    hide TrimLeft, TrimRight;
    TrimSpaceLeft(left, t + right);
    TrimSpaceRight(t, right);
  }

  // ---------- First arrivals ----------

  predicate OnlyNumberedAdds(ops: seq<Op>) { forall op :: op in ops ==> op.AddLayer? && Numbered(op.name) }

  /** The first layer that a run offers for index k. */
  function First(ops: seq<Op>, k: nat): Option<Layer> {
    if ops == [] then None
    else
      var earlier, op := First(ops[..|ops| - 1], k), ops[|ops| - 1];
      if earlier.Some? then earlier
      else if op.AddLayer? && Numbered(op.name) && NumberOf(op.name) == k then Some(Layer(k, op.name, op.tensor))
      else None
  }

  /** After numbered additions in any order and repetition, a session holds, under each index below its layer count, the
      first layer offered for it, and nothing else. */
  lemma {:induction false} KeepsFirst(s: Session, ops: seq<Op>)
    requires s.layers == map[] && !s.completed && !s.aborted && OnlyNumberedAdds(ops)
    ensures var r := Run(s, ops);
            && r == s.(layers := r.layers)
            && (forall k :: k in r.layers ==> 0 <= k < s.numLayers)
            && forall k: nat :: k < s.numLayers ==>
                 First(ops, k) == if k in r.layers then Some(r.layers[k]) else None
  {
    if ops != [] {
      hide Numbered, NumberOf, IndexOf;
      var init, op := ops[..|ops| - 1], ops[|ops| - 1];
      assert op in ops;
      KeepsFirst(s, init);
      NumberedIndex(op.name, |Run(s, init).layers|);
    }
  }

  lemma NumberedIndex(name: string, count: nat)
    requires Numbered(name)
    ensures IndexOf(name, count) == NumberOf(name)
  {
  }

  predicate AllPresent(ops: seq<Op>, n: int) { forall k: nat :: k < n ==> First(ops, k).Some? }

  lemma PresentKeys(s: Session, ops: seq<Op>, n: nat)
    requires s.layers == map[] && !s.completed && !s.aborted && OnlyNumberedAdds(ops)
    requires n == if s.numLayers < 0 then 0 else s.numLayers
    ensures Run(s, ops).layers.Keys <= Below(n)
    ensures Run(s, ops).layers.Keys == Below(n) <==> AllPresent(ops, s.numLayers)
  {
    hide Run, First, OnlyNumberedAdds, Below;
    KeepsFirst(s, ops);
    var layers := Run(s, ops).layers;
    if AllPresent(ops, s.numLayers) {
      forall k | k in Below(n)
        ensures k in layers.Keys
      {
        var i: nat := k;
        assert First(ops, i).Some?;
      }
    }
    if layers.Keys == Below(n) {
      forall k: nat | k < s.numLayers
        ensures First(ops, k).Some?
      {
        assert k in Below(n);
      }
    }
  }

  /** A session fed numbered layers is complete exactly when every index below its layer count has arrived. */
  lemma CompleteIffAllArrived(s: Session, ops: seq<Op>)
    requires s.layers == map[] && !s.completed && !s.aborted && OnlyNumberedAdds(ops)
    ensures IsComplete(Run(s, ops)) <==> AllPresent(ops, s.numLayers)
  {
    hide Run, First, OnlyNumberedAdds, Below, AllPresent;
    var keys := Run(s, ops).layers.Keys;
    var n := if s.numLayers < 0 then 0 else s.numLayers;
    PresentKeys(s, ops, n);
    SubsetSize(keys, Below(n));
    KeepsFirst(s, ops);
    assert |keys| == |Run(s, ops).layers|;
  }

  // ---------- Any names, and sessions closed on the way ----------

  /** The name ends in a negative number, which becomes the layer's index. */
  predicate Negative(name: string) {
    '_' in name && ParseInt(LastSegment(name)).Some? && ParseInt(LastSegment(name)).value < 0
  }

  /** For one, any prefix followed by an underscore, a minus sign and the decimal form of a positive number. */
  lemma NegativeName(prefix: string, k: nat)
    requires k > 0
    ensures Negative(prefix + "_" + ("-" + PrintNat(k)))
  {
    hide PrintNat, ParseInt, LastSegment;
    var digits := PrintNat(k);
    PrintNatDigits(k);
    assert forall i :: 0 <= i < |digits| ==> IsDigit(digits[i]) && digits[i] != '_';
    LastSegmentOf(prefix, "-" + digits);
    ParseNegated(digits);
    assert (prefix + "_" + ("-" + digits))[|prefix|] == '_';
  }

  lemma ParseNegated(digits: string)
    requires digits != "" && forall i :: 0 <= i < |digits| ==> IsDigit(digits[i])
    ensures ParseInt("-" + digits).Some? && ParseInt("-" + digits).value == -(DigitsValue(digits) as int)
  {
    hide DigitsValue, DigitRun, TrimLeft, TrimRight, ParseDigits;
    var s := "-" + digits;
    assert IsDigit(s[|s| - 1]) && s[0] == '-' && s[1..] == digits;
    NothingToTrim(s);
    AllDigits(digits);
  }

  lemma AllDigits(digits: string)
    requires digits != "" && forall i :: 0 <= i < |digits| ==> IsDigit(digits[i])
    ensures ParseDigits(digits) == Some(DigitsValue(digits))
  {
    hide DigitsValue, DigitRun;
    DigitRunAppend(digits, "");
    assert digits + "" == digits;
  }

  predicate NoNegativeNames(ops: seq<Op>) { forall op :: op in ops && op.AddLayer? ==> !Negative(op.name) }

  lemma {:induction false} RunFiled(s: Session, ops: seq<Op>)
    requires Filed(s)
    ensures Filed(Run(s, ops)) && Run(s, ops).numLayers == s.numLayers
  {
    if ops != [] {
      hide IndexOf;
      RunFiled(s, ops[..|ops| - 1]);
    }
  }

  lemma {:induction false} NeverNegative(s: Session, ops: seq<Op>)
    requires s.layers == map[] && NoNegativeNames(ops)
    ensures forall k :: k in Run(s, ops).layers ==> k >= 0
  {
    if ops != [] {
      var init, op := ops[..|ops| - 1], ops[|ops| - 1];
      assert op in ops;
      NeverNegative(s, init);
      if op.AddLayer? { IndexNotNegative(op.name, |Run(s, init).layers|); }
      hide IndexOf, Negative;
    }
  }

  lemma IndexNotNegative(name: string, count: nat)
    ensures IndexOf(name, count) < 0 <==> Negative(name)
  {
  }

  /** Whatever the names, unnumbered ones included, and wherever the session is aborted or completed, if no name ends
      in a negative number the count test holds exactly when every index below the layer count is stored. */
  lemma CompleteIffAllPresent(s: Session, ops: seq<Op>)
    requires s.layers == map[] && NoNegativeNames(ops)
    ensures IsComplete(Run(s, ops)) <==> HasAll(Run(s, ops))
  {
    hide Run, IsComplete, HasAll;
    RunFiled(s, ops);
    NeverNegative(s, ops);
    CountTest(Run(s, ops));
  }

  /** A layer under a given name, then layers 0 to n - 1 in order. */
  function After(name: string, t: Tensor, n: nat): seq<Op> {
    if n == 0 then [AddLayer(name, t)] else After(name, t, n - 1) + [AddLayer("layer_" + PrintNat(n - 1), t)]
  }

  lemma AddedLayer(s: Session, i: int, name: string, t: Tensor)
    requires !s.completed && !s.aborted && i == IndexOf(name, |s.layers|) && i < s.numLayers && i !in s.layers
    ensures var r := Step(s, AddLayer(name, t)).1;
            r == s.(layers := r.layers) && r.layers.Keys == s.layers.Keys + {i} && |r.layers| == |s.layers| + 1
  {
    hide IndexOf;
  }

  lemma LayerName(k: nat, count: nat)
    ensures IndexOf("layer_" + PrintNat(k), count) == k
  {
    hide PrintNat, IndexOf, Numbered, NumberOf;
    assert "layer" + "_" + PrintNat(k) == "layer_" + PrintNat(k);
    DecimalName("layer", k);
    NumberedIndex("layer_" + PrintNat(k), count);
  }

  /** Open, with layers 0 to n - 1 and one with a negative index. */
  ghost predicate Holds(s: Session, r: Session, negative: int, n: nat) {
    && r == s.(layers := r.layers) && |r.layers| == n + 1
    && forall k :: k in r.layers <==> k == negative || 0 <= k < n
  }

  lemma HoldsFirst(s: Session, name: string, t: Tensor)
    requires s.layers == map[] && !s.completed && !s.aborted && IndexOf(name, 0) < 0 && s.numLayers > 0
    ensures Holds(s, Run(s, [AddLayer(name, t)]), IndexOf(name, 0), 0)
  {
    AddedLayer(s, IndexOf(name, 0), name, t);
    hide Step, IndexOf;
    assert [] + [AddLayer(name, t)] == [AddLayer(name, t)];
    RunSnoc(s, [], AddLayer(name, t));
    var r := Step(s, AddLayer(name, t)).1;
    assert forall k :: k in r.layers <==> k in r.layers.Keys;
  }

  lemma HoldsNext(s: Session, r: Session, negative: int, n: nat, t: Tensor)
    requires Holds(s, r, negative, n) && negative < 0 && n < s.numLayers && !s.completed && !s.aborted
    ensures Holds(s, Step(r, AddLayer("layer_" + PrintNat(n), t)).1, negative, n + 1)
  {
    hide PrintNat, IndexOf, Step;
    var layer := "layer_" + PrintNat(n);
    LayerName(n, |r.layers|);
    AddedLayer(r, n, layer, t);
    var next := Step(r, AddLayer(layer, t)).1;
    assert forall k :: k in next.layers <==> k in next.layers.Keys;
    assert forall k :: k in r.layers <==> k in r.layers.Keys;
  }

  lemma {:induction false} AfterNegative(s: Session, name: string, t: Tensor, n: nat)
    requires s.layers == map[] && !s.completed && !s.aborted && IndexOf(name, 0) < 0 && n < s.numLayers
    ensures Holds(s, Run(s, After(name, t, n)), IndexOf(name, 0), n)
  {
    hide PrintNat, IndexOf, Step, Holds, Run;
    if n == 0 {
      HoldsFirst(s, name, t);
    } else {
      var earlier := After(name, t, n - 1);
      AfterNegative(s, name, t, n - 1);
      HoldsNext(s, Run(s, earlier), IndexOf(name, 0), n - 1, t);
      RunSnoc(s, earlier, AddLayer("layer_" + PrintNat(n - 1), t));
    }
  }

  lemma RunSnoc(s: Session, ops: seq<Op>, op: Op)
    ensures Run(s, ops + [op]) == Step(Run(s, ops), op).1
  {
    hide Step;
    assert (ops + [op])[..|ops|] == ops;
  }

  /** Every name with a negative index spoils every newly opened session: followed by layers 0 to numLayers - 2 it
      makes the session complete without its last layer. */
  lemma NegativeIndexCounts(s: Session, name: string, t: Tensor)
    requires s.layers == map[] && !s.completed && !s.aborted && s.numLayers >= 1 && Negative(name)
    ensures var r := Run(s, After(name, t, s.numLayers - 1));
            IsComplete(r) && s.numLayers - 1 !in r.layers
  {
    IndexNotNegative(name, 0);
    hide Run, After, IndexOf, Negative;
    AfterNegative(s, name, t, s.numLayers - 1);
  }

  function KeysBetween(from: nat, n: nat): (s: set<Key>)
    ensures forall k :: k in s <==> from <= k.index < n
  {
    set i | from <= i < n :: Key(i)
  }

  lemma {:induction false} SortedBetween(from: nat, n: nat)
    requires from <= n
    ensures Sorted(KeysBetween(from, n)) == seq(n - from, i => Key(from + i))
    decreases n - from
  {
    hide Sorted, KeysBetween;
    var s := KeysBetween(from, n);
    if from == n {
      assert s == {};
      SortedEmpty();
    } else {
      SortedStep(s, Key(from));
      assert s - {Key(from)} == KeysBetween(from + 1, n);
      SortedBetween(from + 1, n);
    }
  }

  lemma SortedEmpty()
    ensures Sorted({}) == []
  {
  }

  /** The collected layers depend only on the first layer offered for each index. */
  lemma {:induction false} LayersDependOnFirst(s: Session, a: seq<Op>, b: seq<Op>)
    requires s.layers == map[] && !s.completed && !s.aborted && OnlyNumberedAdds(a) && OnlyNumberedAdds(b)
    requires forall k: nat :: k < s.numLayers ==> First(a, k) == First(b, k)
    ensures AllLayers(Run(s, a)) == AllLayers(Run(s, b))
  {
    KeepsFirst(s, a);
    KeepsFirst(s, b);
    var x, y := Run(s, a).layers, Run(s, b).layers;
    forall k
      ensures k in x <==> k in y
      ensures k in x ==> x[k] == y[k]
    {
      if 0 <= k < s.numLayers {
        assert First(a, k) == if k in x then Some(x[k]) else None;
        assert First(b, k) == if k in y then Some(y[k]) else None;
      }
    }
    assert x == y;
  }

  /** A complete session returns exactly one layer for each index, in order. */
  lemma CompleteLayers(s: Session, ops: seq<Op>)
    requires s.layers == map[] && !s.completed && !s.aborted && OnlyNumberedAdds(ops) && s.numLayers >= 0
    requires AllPresent(ops, s.numLayers)
    ensures var all := AllLayers(Run(s, ops));
            |all| == s.numLayers && forall k: nat :: k < s.numLayers ==> Some(all[k]) == First(ops, k)
  {
    hide Run, First, OnlyNumberedAdds, Sorted, KeysOf, Below;
    KeepsFirst(s, ops);
    PresentKeys(s, ops, s.numLayers);
    var layers := Run(s, ops).layers;
    SameKeys(layers, s.numLayers);
    SortedBetween(0, s.numLayers);
    forall k: nat | k < s.numLayers
      ensures Some(AllLayers(Run(s, ops))[k]) == First(ops, k)
    {
      assert k in Below(s.numLayers);
    }
  }

  lemma SameKeys(layers: map<int, Layer>, n: nat)
    requires layers.Keys == Below(n)
    ensures KeysOf(layers) == KeysBetween(0, n)
  {
    forall k
      ensures k in KeysOf(layers) <==> k in KeysBetween(0, n)
    {
      assert k.index in layers.Keys <==> k.index in Below(n);
    }
  }

  /** Nothing changes the layers of a session that is aborted or completed. */
  lemma {:induction false} ClosedUnchanged(s: Session, ops: seq<Op>)
    requires s.completed || s.aborted
    ensures Run(s, ops).layers == s.layers && (Run(s, ops).completed || Run(s, ops).aborted)
  {
    if ops != [] { ClosedUnchanged(s, ops[..|ops| - 1]); }
  }

  lemma {:induction false} RunAppend(s: Session, a: seq<Op>, b: seq<Op>)
    ensures Run(s, a + b) == Run(Run(s, a), b)
  {
    if b == [] {
      assert a + b == a;
    } else {
      hide Step;
      assert (a + b)[..|a + b| - 1] == a + b[..|b| - 1];
      RunAppend(s, a, b[..|b| - 1]);
    }
  }

  /** Whatever the session, aborting or completing it closes it: no later layer is stored, and it stays closed. */
  lemma ClosingEndsCollection(s: Session, before: seq<Op>, reason: string, after: seq<Op>)
    ensures Run(s, before + [Abort(reason)] + after).layers == Run(s, before).layers
    ensures Run(s, before + [MarkCompleted] + after).layers == Run(s, before).layers
    ensures Run(s, before + [Abort(reason)]).aborted && Run(s, before + [Abort(reason)]).abortReason == Some(reason)
    ensures Run(s, before + [MarkCompleted]).completed
  {
    RunSnoc(s, before, Abort(reason));
    RunSnoc(s, before, MarkCompleted);
    hide Run;
    RunAppend(s, before + [Abort(reason)], after);
    RunAppend(s, before + [MarkCompleted], after);
    ClosedUnchanged(Run(s, before + [Abort(reason)]), after);
    ClosedUnchanged(Run(s, before + [MarkCompleted]), after);
  }

  /** A name without an underscore, or whose end is neither a digit nor white space, takes the next count. */
  lemma UnnumberedName(name: string, count: nat)
    requires '_' !in name || (name[|name| - 1] !in WHITESPACE && !IsDigit(name[|name| - 1]))
    ensures IndexOf(name, count) == count
  {
    if '_' in name {
      LastSegmentEnd(name);
      var s := LastSegment(name);
      hide LastSegment;
      if s != "" { NoNumber(s); }
    }
  }

  lemma {:induction false} LastSegmentEnd(name: string)
    requires '_' in name
    ensures LastSegment(name) != "" ==> LastSegment(name)[|LastSegment(name)| - 1] == name[|name| - 1]
  {
    if '_' in name[1..] {
      LastSegmentEnd(name[1..]);
    } else {
      assert LastSegment(name) == name[1..];
    }
  }

  lemma {:induction false} TrimLeftEnd(s: string, c: char)
    requires s != "" && s[|s| - 1] == c && c !in WHITESPACE
    ensures TrimLeft(s) != "" && TrimLeft(s)[|TrimLeft(s)| - 1] == c
  {
    if s[0] in WHITESPACE { TrimLeftEnd(s[1..], c); }
  }

  lemma NoNumber(s: string)
    requires s != "" && s[|s| - 1] !in WHITESPACE && !IsDigit(s[|s| - 1])
    ensures ParseInt(s) == None
  {
    TrimLeftEnd(s, s[|s| - 1]);
    var t := TrimLeft(s);
    assert TrimRight(t) == t;
    hide TrimLeft, TrimRight;
    NotDigits(t);
    if t[1..] != "" { NotDigits(t[1..]); }
  }

  lemma NotDigits(s: string)
    requires s != "" && !IsDigit(s[|s| - 1])
    ensures ParseDigits(s) == None
  {
  }
}
