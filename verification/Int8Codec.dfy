/**
 * Symmetric int8 quantisation of a flattened tensor, in exact real arithmetic. The only rounding besides
 * the quantiser's own is that of the stored scale, which is a parameter.
 */
module Int8Codec {
  import opened Common

  type Tensor = seq<real>

  /** struct format 'f': how a scale is stored in four bytes and read back. */
  datatype FloatFormat = FloatFormat(pack: real -> seq<byte>, unpack: seq<byte> -> real) {
    ghost predicate Valid() { forall s :: |pack(s)| == 4 }

    /** The scale that a reader sees. */
    function Stored(s: real): real { unpack(pack(s)) }
  }

  function Abs(x: real): (r: real)
    ensures r >= 0.0 && (r == x || r == -x)
  {
    if x < 0.0 then -x else x
  }

  function AbsMax(t: Tensor): (m: real)
    ensures m >= 0.0 && forall i :: 0 <= i < |t| ==> Abs(t[i]) <= m
    ensures t != [] ==> exists i :: 0 <= i < |t| && Abs(t[i]) == m
  {
    if t == [] then 0.0
    else
      var m := AbsMax(t[1..]);
      assert m == 0.0 || exists i {:trigger t[i]} :: 1 <= i < |t| && Abs(t[i]) == m by {
        if t[1..] != [] {
          var i :| 0 <= i < |t[1..]| && Abs(t[1..][i]) == m;
          assert t[i + 1] == t[1..][i];
        }
      }
      if Abs(t[0]) >= m then Abs(t[0]) else m
  }

  /** The quantisation step: the largest magnitude is mapped to 127; an all-zero tensor gets 1/127. */
  function Scale(t: Tensor): (s: real)
    ensures s > 0.0
  {
    (if AbsMax(t) == 0.0 then 1.0 else AbsMax(t)) / 127.0
  }

  /** numpy.round: to the nearest integer, ties to even. */
  function Round(x: real): int {
    var below := x.Floor;
    var part := x - below as real;
    if part < 0.5 || (part == 0.5 && below % 2 == 0) then below else below + 1
  }

  function Quantise(x: real, scale: real): int
    requires scale > 0.0
  {
    Round(x / scale)
  }

  /** The byte of an int8, after the wrap-around of a conversion to eight bits. */
  function ToInt8(q: int): byte { (q % 256) as byte }

  function FromInt8(b: byte): int { if b < 128 then b as int else b as int - 256 }

  function Encode(f: FloatFormat, t: Tensor): Result<seq<byte>> {
    if t == [] then Err(EmptyTensor)
    else
      var scale := Scale(t);
      Ok(f.pack(scale) + seq(|t|, i requires 0 <= i < |t| => ToInt8(Quantise(t[i], scale))))
  }

  function Decode(f: FloatFormat, data: seq<byte>): Result<Tensor> {
    if |data| < 4 then Err(StructError)
    else
      var scale := f.unpack(data[..4]);
      Ok(seq(|data| - 4, i requires 0 <= i < |data| - 4 => FromInt8(data[4 + i]) as real * scale))
  }

  /** decode_to: the destination tensor is overwritten with the decoded one, whose size it must have. */
  method DecodeTo(f: FloatFormat, data: seq<byte>, dst: array<real>) returns (r: Result<()>)
    requires Decode(f, data).Ok? ==> |Decode(f, data).value| == dst.Length
    modifies dst
    ensures r.Ok? <==> |data| >= 4
    ensures dst[..] == if r.Ok? then Decode(f, data).value else old(dst[..])
  {
    hide FromInt8;
    var decoded := Decode(f, data);
    if decoded.Err? { return Err(decoded.error); }
    for i := 0 to dst.Length
      invariant forall k :: 0 <= k < i ==> dst[k] == decoded.value[k]
    {
      dst[i] := decoded.value[i];
    }
    r := Ok(());
  }

  // ---------- The rounding rule ----------

  lemma RoundNear(x: real)
    ensures -0.5 <= x - Round(x) as real <= 0.5
  {
  }

  /** Half way between two integers the even one is taken. */
  lemma RoundHalf(n: int)
    ensures Round(n as real + 0.5) == if n % 2 == 0 then n else n + 1
  {
    assert (n as real + 0.5).Floor == n;
  }

  lemma RoundMonotone(x: real, y: real)
    requires x <= y
    ensures Round(x) <= Round(y)
  {
  }

  lemma RoundOdd(x: real)
    ensures Round(-x) == -Round(x)
  {
    var n := x.Floor;
    if x == n as real {
      assert (-x).Floor == -n;
    } else {
      assert (-x).Floor == -n - 1;
    }
  }

  lemma RoundInteger(n: int)
    ensures Round(n as real) == n
  {
  }

  lemma RoundBounds(x: real)
    requires -127.0 <= x <= 127.0
    ensures -127 <= Round(x) <= 127
  {
    RoundInteger(127);
    RoundInteger(-127);
    RoundMonotone(x, 127.0);
    RoundMonotone(-127.0, x);
  }

  lemma Int8RoundTrip(q: int)
    requires -128 <= q < 128
    ensures FromInt8(ToInt8(q)) == q
  {
  }

  // ---------- Real division, one fact at a time ----------

  lemma DivideMultiply(x: real, s: real)
    requires s > 0.0
    ensures x / s * s == x && x * s / s == x && (-x) / s == -(x / s)
  {
  }

  lemma MultiplyMonotone(x: real, y: real, s: real)
    requires x <= y && s >= 0.0
    ensures x * s <= y * s
  {
  }

  lemma DivideMonotone(x: real, y: real, s: real)
    requires x <= y && s > 0.0
    ensures x / s <= y / s
  {
  }

  lemma AbsProduct(q: int, e: real, p: real)
    requires -127 <= q <= 127 && p == q as real * e
    ensures Abs(p) <= 127.0 * Abs(e)
    ensures q in {127, -127} ==> Abs(p) == 127.0 * Abs(e)
  {
    var a, x := Abs(e), q as real;
    MultiplyMonotone(x, 127.0, a);
    MultiplyMonotone(-127.0, x, a);
    if e < 0.0 {
      assert p == -(x * a);
    } else {
      assert p == x * a;
    }
    assert -127.0 * a <= x * a <= 127.0 * a;
  }

  // ---------- The quantiser ----------

  /** The map from values to levels keeps order and sign. */
  lemma QuantiseMonotoneOdd(x: real, y: real, s: real)
    requires s > 0.0
    ensures x <= y ==> Quantise(x, s) <= Quantise(y, s)
    ensures Quantise(-x, s) == -Quantise(x, s)
  {
    if x <= y {
      DivideMonotone(x, y, s);
      RoundMonotone(x / s, y / s);
    }
    DivideMultiply(x, s);
    RoundOdd(x / s);
  }

  /** Every level of a tensor fits the int8 range symmetrically. */
  lemma QuantiseRange(t: Tensor, i: nat)
    requires i < |t|
    ensures -127 <= Quantise(t[i], Scale(t)) <= 127
  {
    var s := Scale(t);
    var limit := 127.0 * s;
    assert -limit <= t[i] <= limit by { assert Abs(t[i]) <= AbsMax(t); }
    DivideMultiply(127.0, s);
    DivideMultiply(-127.0, s);
    DivideMonotone(t[i], limit, s);
    DivideMonotone(-127.0 * s, t[i], s);
    RoundBounds(t[i] / s);
  }

  lemma EncodedAt(f: FloatFormat, t: Tensor, i: nat)
    requires f.Valid() && i < |t|
    ensures var data := Encode(f, t).value;
            |data| == 4 + |t| && data[..4] == f.pack(Scale(t)) && FromInt8(data[4 + i]) == Quantise(t[i], Scale(t))
  {
    QuantiseRange(t, i);
    Int8RoundTrip(Quantise(t[i], Scale(t)));
  }

  /** The step is 1/127 of the largest magnitude, which some element has; for an all-zero tensor it is 1/127. */
  lemma ScaleOfLargest(t: Tensor)
    requires t != []
    ensures forall i :: 0 <= i < |t| ==> -127.0 * Scale(t) <= t[i] <= 127.0 * Scale(t)
    ensures if forall i :: 0 <= i < |t| ==> t[i] == 0.0 then 127.0 * Scale(t) == 1.0
            else exists i :: 0 <= i < |t| && (t[i] == 127.0 * Scale(t) || t[i] == -127.0 * Scale(t))
  {
    var m := AbsMax(t);
    forall i | 0 <= i < |t|
      ensures -m <= t[i] <= m
    {
      assert Abs(t[i]) <= m;
    }
    var i :| 0 <= i < |t| && Abs(t[i]) == m;
    assert t[i] == m || t[i] == -m;
    DivideMultiply(if m == 0.0 then 1.0 else m, 127.0);
  }

  /** The stored form: four bytes of scale, then a byte per element: its level in two's complement, the nearest
      multiple of the step, and of two equally near ones the even multiple. */
  lemma EncodedLayout(f: FloatFormat, t: Tensor, i: nat)
    requires f.Valid() && i < |t|
    ensures var data, s := Encode(f, t).value, Scale(t);
            && Encode(f, t).Ok? && |data| == 4 + |t| && data[..4] == f.pack(s)
            && var q := if data[4 + i] < 128 then data[4 + i] as int else data[4 + i] as int - 256;
            && -0.5 * s <= t[i] - q as real * s <= 0.5 * s
            && (t[i] - q as real * s == 0.5 * s || t[i] - q as real * s == -0.5 * s ==> q % 2 == 0)
  {
    hide Scale, Quantise;
    EncodedAt(f, t, i);
    HalfStep(t[i], Scale(t));
    HalfEven(t[i], Scale(t));
  }

  lemma HalfEven(x: real, s: real)
    requires s > 0.0
    ensures x - Quantise(x, s) as real * s == 0.5 * s || x - Quantise(x, s) as real * s == -0.5 * s ==>
              Quantise(x, s) % 2 == 0
  {
    var q := Quantise(x, s);
    if x - q as real * s == 0.5 * s {
      HalfApart(x, q as real, 0.5, s);
      RoundHalf(q);
    } else if x - q as real * s == -0.5 * s {
      HalfApart(x, q as real, -0.5, s);
      assert x / s == (q - 1) as real + 0.5;
      RoundHalf(q - 1);
    }
  }

  lemma HalfApart(x: real, q: real, h: real, s: real)
    requires s > 0.0 && x - q * s == h * s
    ensures x / s == q + h
  {
    DistributeMinus(q, -h, s);
    DivideMultiply(q + h, s);
  }

  /** Decoding an encoded tensor gives level times stored scale, element by element. */
  lemma DecodeEncoded(f: FloatFormat, t: Tensor)
    requires f.Valid() && t != []
    ensures Encode(f, t).Ok? && |Encode(f, t).value| == 4 + |t|
    ensures var d := Decode(f, Encode(f, t).value);
            && d.Ok? && |d.value| == |t|
            && forall i :: 0 <= i < |t| ==> d.value[i] == Quantise(t[i], Scale(t)) as real * f.Stored(Scale(t))
  {
    hide Quantise, Scale, ToInt8, FromInt8;
    EncodedAt(f, t, 0);
    forall i | 0 <= i < |t|
      ensures Decode(f, Encode(f, t).value).value[i] == Quantise(t[i], Scale(t)) as real * f.Stored(Scale(t))
    {
      EncodedAt(f, t, i);
    }
  }

  lemma QuantiseNear(x: real, s: real)
    requires s > 0.0
    ensures -0.5 <= x / s - Quantise(x, s) as real <= 0.5
  {
    RoundNear(x / s);
  }

  lemma HalfStep(x: real, s: real)
    requires s > 0.0
    ensures -0.5 * s <= x - Quantise(x, s) as real * s <= 0.5 * s
  {
    hide Quantise;
    var y, q := x / s, Quantise(x, s) as real;
    QuantiseNear(x, s);
    DivideMultiply(x, s);
    MultiplyMonotone(y - q, 0.5, s);
    MultiplyMonotone(-0.5, y - q, s);
    DistributeMinus(y, q, s);
  }

  lemma DistributeMinus(y: real, q: real, s: real)
    ensures (y - q) * s == y * s - q * s
  {
  }

  lemma AbsSum(x: real, a: real, b: real, h: real, k: real)
    requires -h <= x - a <= h && Abs(a - b) <= k
    ensures Abs(x - b) <= h + k
  {
  }

  lemma LevelError(x: real, s: real, stored: real, decoded: real)
    requires s > 0.0 && -127 <= Quantise(x, s) <= 127 && decoded == Quantise(x, s) as real * stored
    ensures Abs(x - decoded) <= 0.5 * s + 127.0 * Abs(s - stored)
  {
    hide Quantise, Abs;
    var q := Quantise(x, s);
    HalfStep(x, s);
    var a := q as real * s;
    AbsProduct(q, s - stored, a - decoded);
    AbsSum(x, a, decoded, 0.5 * s, 127.0 * Abs(s - stored));
  }

  /** Encoding and decoding moves no element by more than half a step, plus 127 times the error of the stored scale. */
  lemma ErrorBound(f: FloatFormat, t: Tensor, i: nat)
    requires f.Valid() && i < |t|
    ensures Encode(f, t).Ok? && Decode(f, Encode(f, t).value).Ok? && |Decode(f, Encode(f, t).value).value| == |t|
    ensures Abs(t[i] - Decode(f, Encode(f, t).value).value[i])
         <= 0.5 * Scale(t) + 127.0 * Abs(Scale(t) - f.Stored(Scale(t)))
  {
    hide Quantise, Scale, Encode, Decode, Abs, FloatFormat.Stored;
    DecodeEncoded(f, t);
    QuantiseRange(t, i);
    LevelError(t[i], Scale(t), f.Stored(Scale(t)), Decode(f, Encode(f, t).value).value[i]);
  }

  // ---------- Idempotence ----------

  lemma ExactLevel(q: int, s: real, x: real)
    requires s > 0.0 && x == q as real * s
    ensures Quantise(x, s) == q
  {
    DivideMultiply(q as real, s);
    RoundInteger(q);
  }

  lemma {:induction false} PeakValue(t: Tensor, i: nat)
    requires i < |t| && AbsMax(t) > 0.0 && Abs(t[i]) == AbsMax(t)
    ensures t[i] == 127 as real * Scale(t) || t[i] == -127 as real * Scale(t)
  {
    hide AbsMax;
    DivideMultiply(AbsMax(t), 127.0);
  }

  lemma {:induction false} PeakLevel(t: Tensor, i: nat)
    requires i < |t| && AbsMax(t) > 0.0 && Abs(t[i]) == AbsMax(t)
    ensures Quantise(t[i], Scale(t)) in {127, -127}
  {
    hide Quantise, Scale, AbsMax, Abs;
    PeakValue(t, i);
    if t[i] == 127 as real * Scale(t) {
      ExactLevel(127, Scale(t), t[i]);
    } else {
      ExactLevel(-127, Scale(t), t[i]);
    }
  }

  lemma AbsMaxOf(t: Tensor, m: real, peak: nat)
    requires peak < |t| && Abs(t[peak]) == m && forall i :: 0 <= i < |t| ==> Abs(t[i]) <= m
    ensures AbsMax(t) == m
  {
    assert Abs(t[peak]) <= AbsMax(t);
    var i :| 0 <= i < |t| && Abs(t[i]) == AbsMax(t);
  }

  lemma ZeroTensor(t: Tensor, i: nat)
    requires i < |t| && AbsMax(t) == 0.0
    ensures t[i] == 0.0
  {
    assert Abs(t[i]) <= 0.0;
  }

  lemma DecodedAbs(q: int, s: real, x: real)
    requires -127 <= q <= 127 && s > 0.0 && x == q as real * s
    ensures Abs(x) <= 127.0 * s
    ensures q in {127, -127} ==> Abs(x) == 127.0 * s
  {
    AbsProduct(q, s, x);
  }

  lemma {:induction false} DecodedPeak(t: Tensor, d: Tensor, stored: real)
    requires |d| == |t| != 0 && stored > 0.0 && AbsMax(t) > 0.0
    requires forall i :: 0 <= i < |t| ==> d[i] == Quantise(t[i], Scale(t)) as real * stored
    ensures AbsMax(d) == 127.0 * stored
  {
    hide Quantise, Scale, AbsMax, Abs;
    var peak :| 0 <= peak < |t| && Abs(t[peak]) == AbsMax(t);
    PeakLevel(t, peak);
    DecodedAbs(Quantise(t[peak], Scale(t)), stored, d[peak]);
    forall i | 0 <= i < |t|
      ensures Abs(d[i]) <= 127.0 * stored
    {
      QuantiseRange(t, i);
      DecodedAbs(Quantise(t[i], Scale(t)), stored, d[i]);
    }
    AbsMaxOf(d, 127.0 * stored, peak);
  }

  lemma {:induction false} DecodedZero(t: Tensor, d: Tensor, stored: real)
    requires |d| == |t| != 0 && AbsMax(t) == 0.0
    requires forall i :: 0 <= i < |t| ==> d[i] == Quantise(t[i], Scale(t)) as real * stored
    ensures AbsMax(d) == 0.0 && forall i :: 0 <= i < |d| ==> d[i] == 0.0
  {
    hide Quantise, Scale, AbsMax;
    forall i | 0 <= i < |t|
      ensures d[i] == 0.0
    {
      ZeroTensor(t, i);
      ExactLevel(0, Scale(t), t[i]);
    }
    AbsMaxOf(d, 0.0, 0);
  }

  lemma ScaleOfPeak(d: Tensor, s: real)
    requires s > 0.0 && AbsMax(d) == 127.0 * s
    ensures Scale(d) == s
  {
    hide AbsMax;
    DivideMultiply(s, 127.0);
  }

  lemma ScaleOfZero(t: Tensor, d: Tensor)
    requires AbsMax(t) == AbsMax(d) == 0.0
    ensures Scale(t) == Scale(d)
  {
    hide AbsMax;
  }

  /** A decoded tensor has the stored scale as its own scale, or is all zero again. */
  lemma {:induction false} DecodedScale(f: FloatFormat, t: Tensor)
    requires f.Valid() && t != [] && f.Stored(Scale(t)) > 0.0
    ensures Decode(f, Encode(f, t).value).Ok?
    ensures Scale(Decode(f, Encode(f, t).value).value) == if AbsMax(t) == 0.0 then Scale(t) else f.Stored(Scale(t))
  {
    hide Quantise, Encode, Decode, AbsMax, Scale, FloatFormat.Stored;
    DecodeEncoded(f, t);
    var d, stored := Decode(f, Encode(f, t).value).value, f.Stored(Scale(t));
    if AbsMax(t) == 0.0 {
      DecodedZero(t, d, stored);
      ScaleOfZero(t, d);
    } else {
      DecodedPeak(t, d, stored);
      ScaleOfPeak(d, stored);
    }
  }

  /** Encoding a decoded tensor gives the same bytes again, provided that storing a stored scale changes nothing. */
  lemma {:induction false} Idempotent(f: FloatFormat, t: Tensor)
    requires f.Valid() && t != []
    requires f.Stored(Scale(t)) > 0.0 && f.pack(f.Stored(Scale(t))) == f.pack(Scale(t))
    ensures Decode(f, Encode(f, t).value).Ok?
    ensures Encode(f, Decode(f, Encode(f, t).value).value) == Encode(f, t)
  {
    hide Quantise, Decode, AbsMax, Scale, ToInt8, FloatFormat.Stored;
    DecodeEncoded(f, t);
    DecodedScale(f, t);
    var d, stored := Decode(f, Encode(f, t).value).value, f.Stored(Scale(t));
    forall i | 0 <= i < |t|
      ensures Quantise(d[i], Scale(d)) == Quantise(t[i], Scale(t))
    {
      if AbsMax(t) == 0.0 {
        DecodedZero(t, d, stored);
        ZeroTensor(t, i);
      } else {
        ExactLevel(Quantise(t[i], Scale(t)), stored, d[i]);
      }
    }
    assert Encode(f, d).value == Encode(f, t).value;
  }
}
