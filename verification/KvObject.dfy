/** The stored prefix object: a 128-byte header and one encoded blob per layer; saver, loader and slicing. */
module KvObject {
  import opened Common
  import opened ByteOrder
  import opened Int8Codec

  const OBJECT_MAGIC: seq<byte> := [0x44, 0x41, 0x4B, 0x56, 0x4F, 0x42, 0x4A, 0x00]  // "DAKVOBJ\0"
  const HEADER_SIZE := 128

  /** The header fields that are written to the object. */
  datatype ObjectHeader = ObjectHeader(
    formatVersion: int,
    numLayers: int,
    matchedTokens: int,
    matchedBlocks: int,
    blockSize: int)

  predicate IsU32(n: int) { 0 <= n < U32_LIMIT }

  predicate Serializable(h: ObjectHeader) {
    && IsU32(h.formatVersion) && IsU32(h.numLayers) && IsU32(h.matchedTokens)
    && IsU32(h.matchedBlocks) && IsU32(h.blockSize)
  }

  function Zeros(n: nat): (z: seq<byte>)
    ensures |z| == n
  {
    seq(n, _ => 0)
  }

  function SerializeHeader(h: ObjectHeader): (r: Result<seq<byte>>)
    ensures r.Ok? <==> Serializable(h)
    ensures r.Ok? ==> |r.value| == HEADER_SIZE
  {
    var version :- PackU32Little(h.formatVersion);
    var layers :- PackU32Little(h.numLayers);
    var tokens :- PackU32Little(h.matchedTokens);
    var blocks :- PackU32Little(h.matchedBlocks);
    var size :- PackU32Little(h.blockSize);
    Ok(OBJECT_MAGIC + version + layers + tokens + blocks + size + Zeros(12) + Zeros(88))
  }

  function TryParseHeader(b: seq<byte>): Option<ObjectHeader> {
    if |b| < HEADER_SIZE then None
    else if b[..8] != OBJECT_MAGIC then None
    else
      Some(ObjectHeader(UnpackU32Little(b[8..12]), UnpackU32Little(b[12..16]), UnpackU32Little(b[16..20]),
                        UnpackU32Little(b[20..24]), UnpackU32Little(b[24..28])))
  }

  function BuildObject(h: ObjectHeader, blobs: seq<seq<byte>>): Result<seq<byte>> {
    var header :- SerializeHeader(h);
    Ok(header + Flatten(blobs))
  }

  // ---------- Encoding and decoding lists of layers ----------

  function EncodeAll(f: FloatFormat, layers: seq<Tensor>): Result<seq<seq<byte>>> {
    if layers == [] then Ok([])
    else
      var init :- EncodeAll(f, layers[..|layers| - 1]);
      var last :- Encode(f, layers[|layers| - 1]);
      Ok(init + [last])
  }

  function DecodeAll(f: FloatFormat, blobs: seq<seq<byte>>): Result<seq<Tensor>> {
    if blobs == [] then Ok([])
    else
      var init :- DecodeAll(f, blobs[..|blobs| - 1]);
      var last :- Decode(f, blobs[|blobs| - 1]);
      Ok(init + [last])
  }

  /** How many bytes each of n slices gets. */
  function Width(total: nat, n: nat): nat
    requires n > 0
  {
    total / n
  }

  /** Where slice i begins. */
  function Offset(i: nat, width: nat): nat { i * width }

  lemma OffsetStep(i: nat, width: nat)
    ensures Offset(0, width) == 0 && Offset(i + 1, width) == Offset(i, width) + width
  {
  }

  lemma OffsetMonotone(i: nat, n: nat, width: nat)
    requires i <= n
    ensures Offset(i, width) <= Offset(n, width)
  {
  }

  lemma {:induction false} SliceBound(i: nat, n: nat, total: nat)
    requires i < n
    ensures Offset(i, Width(total, n)) + Width(total, n) <= Offset(n, Width(total, n)) <= total
    ensures total == Offset(n, Width(total, n)) + total % n
  {
    OffsetStep(i, Width(total, n));
    OffsetMonotone(i + 1, n, Width(total, n));
  }

  lemma {:induction false} OffsetGrow(n: nat, a: nat, b: nat)
    requires a < b
    ensures Offset(n, a) + n <= Offset(n, b)
  {
    var d := b - a;
    assert b == a + d && n * (a + d) == n * a + n * d;
    assert n * d >= n;
  }

  lemma {:induction false} WidthOfOffset(n: nat, width: nat)
    requires n > 0
    ensures Width(Offset(n, width), n) == width
  {
    hide Offset, Width;
    var total, q := Offset(n, width), Width(Offset(n, width), n);
    SliceBound(0, n, total);
    assert 0 <= total % n < n;
    if q < width {
      OffsetGrow(n, q, width);
    } else if q > width {
      OffsetGrow(n, width, q);
    }
  }

  lemma {:induction false} WidthLeast(total: nat, n: nat, least: nat)
    requires n > 0 && total >= Offset(n, least)
    ensures Width(total, n) >= least
  {
    if total / n < least {
      OffsetMonotone(total / n + 1, least, n);
    }
  }

  /** n slices of equal width, from start; what is left over at the end is dropped. */
  function LoaderSlices(data: seq<byte>, start: nat, n: nat): (r: seq<seq<byte>>)
    requires start <= |data| && n > 0
    ensures |r| == n
  {
    hide Offset, Width;
    var width := Width(|data| - start, n);
    seq(n, i requires 0 <= i < n =>
      (SliceBound(i, n, |data| - start); data[start + Offset(i, width)..start + Offset(i, width) + width]))
  }

  lemma {:induction false} SliceAt(data: seq<byte>, start: nat, n: nat, i: nat)
    requires start <= |data| && i < n
    ensures var width := Width(|data| - start, n);
            && start + Offset(i, width) + width <= |data|
            && LoaderSlices(data, start, n)[i] == data[start + Offset(i, width)..start + Offset(i, width) + width]
            && |LoaderSlices(data, start, n)[i]| == width
  {
    hide Offset, Width;
    SliceBound(i, n, |data| - start);
  }

  lemma {:induction false} SliceLengths(data: seq<byte>, start: nat, n: nat)
    requires start <= |data| && n > 0
    ensures forall i :: 0 <= i < n ==> |LoaderSlices(data, start, n)[i]| == Width(|data| - start, n)
  {
    hide Width, Offset, LoaderSlices;
    forall i | 0 <= i < n
      ensures |LoaderSlices(data, start, n)[i]| == Width(|data| - start, n)
    {
      SliceAt(data, start, n, i);
    }
  }

  /** _save_critical_tier up to the point where the object is stored. */
  method SaveObject(f: FloatFormat, h: ObjectHeader, layers: seq<Tensor>) returns (r: Result<seq<byte>>)
    ensures r == SavedObject(f, h, layers)
  {
    if layers == [] { return Err(NoLayers); }
    var encoded: seq<seq<byte>> := [];
    for i := 0 to |layers|
      invariant EncodeAll(f, layers[..i]) == Ok(encoded)
    {
      assert layers[..i + 1][..i] == layers[..i];
      var blob := Encode(f, layers[i]);
      if blob.Err? {
        EncodeAllStops(f, layers, i + 1);
        return Err(blob.error);
      }
      encoded := encoded + [blob.value];
    }
    assert layers[..|layers|] == layers;
    r := BuildObject(h.(numLayers := |layers|), encoded);
  }

  function SavedObject(f: FloatFormat, h: ObjectHeader, layers: seq<Tensor>): Result<seq<byte>> {
    if layers == [] then Err(NoLayers)
    else
      var blobs :- EncodeAll(f, layers);
      BuildObject(h.(numLayers := |layers|), blobs)
  }

  lemma {:induction false} EncodeAllStops(f: FloatFormat, layers: seq<Tensor>, i: nat)
    requires i <= |layers| && EncodeAll(f, layers[..i]).Err?
    ensures EncodeAll(f, layers) == EncodeAll(f, layers[..i])
  {
    hide Encode;
    if i == |layers| {
      assert layers[..i] == layers;
    } else {
      var init := layers[..|layers| - 1];
      assert init[..i] == layers[..i];
      EncodeAllStops(f, init, i);
    }
  }

  lemma {:induction false} DecodeAllStops(f: FloatFormat, blobs: seq<seq<byte>>, i: nat)
    requires i <= |blobs| && DecodeAll(f, blobs[..i]).Err?
    ensures DecodeAll(f, blobs) == DecodeAll(f, blobs[..i])
  {
    hide Decode;
    if i == |blobs| {
      assert blobs[..i] == blobs;
    } else {
      var init := blobs[..|blobs| - 1];
      assert init[..i] == blobs[..i];
      DecodeAllStops(f, init, i);
    }
  }

  /** The slice-and-decode loop that _decode_with_header and _decode_legacy_format share. */
  method DecodeSlices(f: FloatFormat, data: seq<byte>, start: nat, n: nat) returns (r: Result<seq<Tensor>>)
    requires start <= |data| && n > 0
    ensures r == DecodeAll(f, LoaderSlices(data, start, n))
  {
    hide Decode, Offset, Width;
    ghost var slices := LoaderSlices(data, start, n);
    var width := Width(|data| - start, n);
    var tensors: seq<Tensor> := [];
    for i := 0 to n
      invariant DecodeAll(f, slices[..i]) == Ok(tensors)
    {
      SliceBound(i, n, |data| - start);
      var from := start + Offset(i, width);
      var blob := data[from..from + width];
      assert slices[..i + 1][..i] == slices[..i] && slices[i] == blob;
      var tensor := Decode(f, blob);
      if tensor.Err? {
        DecodeAllStops(f, slices, i + 1);
        return Err(tensor.error);
      }
      tensors := tensors + [tensor.value];
    }
    assert slices[..n] == slices;
    r := Ok(tensors);
  }

  function WithHeader(f: FloatFormat, data: seq<byte>, h: ObjectHeader): Result<(Option<ObjectHeader>, seq<Tensor>)>
    requires |data| >= HEADER_SIZE && h.numLayers >= 0
  {
    if h.numLayers == 0 then Ok((Some(h), []))
    else
      var tensors :- DecodeAll(f, LoaderSlices(data, HEADER_SIZE, h.numLayers));
      Ok((Some(h), tensors))
  }

  function Legacy(f: FloatFormat, data: seq<byte>, numLayers: int): Result<(Option<ObjectHeader>, seq<Tensor>)> {
    if numLayers <= 0 then Ok((None, []))
    else
      var tensors :- DecodeAll(f, LoaderSlices(data, 0, numLayers));
      Ok((None, tensors))
  }

  /** What the loader makes of stored bytes: the header format, and the headerless one when that fails. */
  function Loaded(f: FloatFormat, data: seq<byte>, numLayers: int): Result<(Option<ObjectHeader>, seq<Tensor>)> {
    if |data| < HEADER_SIZE then Legacy(f, data, numLayers)
    else
      match TryParseHeader(data[..HEADER_SIZE])
      case Some(h) =>
        if h.formatVersion >= 1 && WithHeader(f, data, h).Ok? then WithHeader(f, data, h)
        else Legacy(f, data, numLayers)
      case None => Legacy(f, data, numLayers)
  }

  method DecodeWithHeader(f: FloatFormat, data: seq<byte>, h: ObjectHeader)
    returns (r: Result<(Option<ObjectHeader>, seq<Tensor>)>)
    requires |data| >= HEADER_SIZE && h.numLayers >= 0
    ensures r == WithHeader(f, data, h)
  {
    hide DecodeAll;
    if h.numLayers == 0 { return Ok((Some(h), [])); }
    var tensors := DecodeSlices(f, data, HEADER_SIZE, h.numLayers);
    r := if tensors.Err? then Err(tensors.error) else Ok((Some(h), tensors.value));
  }

  method DecodeLegacyFormat(f: FloatFormat, data: seq<byte>, numLayers: int)
    returns (r: Result<(Option<ObjectHeader>, seq<Tensor>)>)
    ensures r == Legacy(f, data, numLayers)
  {
    hide DecodeAll;
    if numLayers <= 0 { return Ok((None, [])); }
    var tensors := DecodeSlices(f, data, 0, numLayers);
    r := if tensors.Err? then Err(tensors.error) else Ok((None, tensors.value));
  }

  method ParseAndDecodeObject(f: FloatFormat, data: seq<byte>, numLayers: int)
    returns (r: Result<(Option<ObjectHeader>, seq<Tensor>)>)
    ensures r == Loaded(f, data, numLayers)
  {
    hide WithHeader, Legacy;
    if |data| < HEADER_SIZE {
      r := DecodeLegacyFormat(f, data, numLayers);
      return;
    }
    var header := TryParseHeader(data[..HEADER_SIZE]);
    if header.Some? && header.value.formatVersion >= 1 {
      r := DecodeWithHeader(f, data, header.value);
      if r.Ok? { return; }
    }
    r := DecodeLegacyFormat(f, data, numLayers);
  }

  // ---------- Header round trip ----------

  /** A written header is 128 bytes long, holds the magic and then the five fields as little-endian words, is zero from
      byte 28 on, and parses back to the same fields. */
  lemma HeaderRoundTrip(h: ObjectHeader)
    requires Serializable(h)
    ensures TryParseHeader(SerializeHeader(h).value) == Some(h)
    ensures var b := SerializeHeader(h).value;
            && b[..8] == [0x44, 0x41, 0x4B, 0x56, 0x4F, 0x42, 0x4A, 0x00]
            && UnpackU32Little(b[8..12]) == h.formatVersion && UnpackU32Little(b[12..16]) == h.numLayers
            && UnpackU32Little(b[16..20]) == h.matchedTokens && UnpackU32Little(b[20..24]) == h.matchedBlocks
            && UnpackU32Little(b[24..28]) == h.blockSize && forall i :: 28 <= i < HEADER_SIZE ==> b[i] == 0
  {
    var b := SerializeHeader(h).value;
    var v, l, t, k, s := PackU32Little(h.formatVersion).value, PackU32Little(h.numLayers).value,
        PackU32Little(h.matchedTokens).value, PackU32Little(h.matchedBlocks).value, PackU32Little(h.blockSize).value;
    HeaderLayout(v, l, t, k, s);
    assert b[28..] == Zeros(12) + Zeros(88);
    assert forall i :: 28 <= i < HEADER_SIZE ==> b[i] == b[28..][i - 28];
  }

  lemma HeaderLayout(v: seq<byte>, l: seq<byte>, t: seq<byte>, k: seq<byte>, s: seq<byte>)
    requires |v| == |l| == |t| == |k| == |s| == 4
    ensures var b := OBJECT_MAGIC + v + l + t + k + s + Zeros(12) + Zeros(88);
            && b[..8] == OBJECT_MAGIC && b[8..12] == v && b[12..16] == l && b[16..20] == t
            && b[20..24] == k && b[24..28] == s
  {
    hide Zeros;
  }

  // ---------- Slicing ----------

  predicate SameLength<T>(parts: seq<seq<T>>) { forall i, j :: 0 <= i < j < |parts| ==> |parts[i]| == |parts[j]| }

  lemma {:induction false} FlattenEqual(parts: seq<seq<byte>>, width: nat, i: nat)
    requires i < |parts| && forall k :: 0 <= k < |parts| ==> |parts[k]| == width
    ensures |Flatten(parts)| == Offset(|parts|, width) && Offset(i, width) + width <= Offset(|parts|, width)
    ensures Flatten(parts)[Offset(i, width)..Offset(i, width) + width] == parts[i]
  {
    hide Offset;
    OffsetStep(|parts| - 1, width);
    OffsetStep(i, width);
    OffsetMonotone(i + 1, |parts|, width);
    var rest := parts[1..];
    if |parts| == 1 {
      assert Flatten(parts) == parts[0];
    } else if i == 0 {
      FlattenEqual(rest, width, 0);
    } else {
      FlattenEqual(rest, width, i - 1);
      OffsetStep(i - 1, width);
      var from := Offset(i - 1, width);
      assert Flatten(parts)[from + width..from + width + width] == Flatten(rest)[from..from + width];
    }
  }

  lemma {:induction false} SliceIsBlob(header: seq<byte>, blobs: seq<seq<byte>>, width: nat, i: nat)
    requires i < |blobs| && forall k :: 0 <= k < |blobs| ==> |blobs[k]| == width
    ensures LoaderSlices(header + Flatten(blobs), |header|, |blobs|)[i] == blobs[i]
  {
    hide Offset, Width, Flatten, LoaderSlices;
    var data, from := header + Flatten(blobs), Offset(i, width);
    FlattenEqual(blobs, width, i);
    assert |data| - |header| == Offset(|blobs|, width);
    WidthOfOffset(|blobs|, width);
    SliceAt(data, |header|, |blobs|, i);
    assert data[|header| + from..|header| + from + width] == Flatten(blobs)[from..from + width];
  }

  /** Slicing an object's payload gives back its blobs exactly when all blobs have one length. */
  lemma {:induction false} SlicesAreBlobs(header: seq<byte>, blobs: seq<seq<byte>>)
    requires blobs != []
    ensures LoaderSlices(header + Flatten(blobs), |header|, |blobs|) == blobs <==> SameLength(blobs)
  {
    hide Offset, Width, Flatten, LoaderSlices;
    var slices := LoaderSlices(header + Flatten(blobs), |header|, |blobs|);
    SliceLengths(header + Flatten(blobs), |header|, |blobs|);
    if SameLength(blobs) {
      forall i | 0 <= i < |blobs|
        ensures slices[i] == blobs[i]
      {
        SliceIsBlob(header, blobs, |blobs[0]|, i);
      }
    }
  }

  // ---------- Saving and loading ----------

  predicate NonEmptyLayers(layers: seq<Tensor>) { forall i :: 0 <= i < |layers| ==> layers[i] != [] }

  lemma {:induction false} EncodeAllAt(f: FloatFormat, layers: seq<Tensor>)
    requires f.Valid() && NonEmptyLayers(layers)
    ensures EncodeAll(f, layers).Ok? && |EncodeAll(f, layers).value| == |layers|
    ensures forall i :: 0 <= i < |layers| ==>
      Encode(f, layers[i]) == Ok(EncodeAll(f, layers).value[i]) && |EncodeAll(f, layers).value[i]| == 4 + |layers[i]|
  {
    hide Encode, Decode;
    if layers != [] {
      var n := |layers| - 1;
      EncodeAllAt(f, layers[..n]);
      DecodeEncoded(f, layers[n]);
    }
  }

  lemma {:induction false} DecodeAllAt(f: FloatFormat, blobs: seq<seq<byte>>)
    requires forall i :: 0 <= i < |blobs| ==> |blobs[i]| >= 4
    ensures DecodeAll(f, blobs).Ok? && |DecodeAll(f, blobs).value| == |blobs|
    ensures forall i :: 0 <= i < |blobs| ==>
      Decode(f, blobs[i]) == Ok(DecodeAll(f, blobs).value[i]) && |DecodeAll(f, blobs).value[i]| == |blobs[i]| - 4
  {
    if blobs != [] {
      DecodeAllAt(f, blobs[..|blobs| - 1]);
    }
  }

  lemma {:induction false} FlattenLength(parts: seq<seq<byte>>, least: nat)
    requires forall i :: 0 <= i < |parts| ==> |parts[i]| >= least
    ensures |Flatten(parts)| >= Offset(|parts|, least)
  {
    if parts != [] {
      FlattenLength(parts[1..], least);
      OffsetStep(|parts| - 1, least);
    }
  }

  /** Any object saved from non-empty layers is read along the header path, whatever layer count the caller expects,
      as slices of its payload. */
  lemma {:induction false} LoadedSaved(f: FloatFormat, h: ObjectHeader, layers: seq<Tensor>, numLayers: int)
    requires f.Valid() && layers != [] && NonEmptyLayers(layers)
    requires Serializable(h.(numLayers := |layers|)) && h.formatVersion >= 1
    ensures SavedObject(f, h, layers).Ok? && EncodeAll(f, layers).Ok?
    ensures var stored := SavedObject(f, h, layers).value;
            && |stored| == HEADER_SIZE + |Flatten(EncodeAll(f, layers).value)|
            && var slices := LoaderSlices(stored, HEADER_SIZE, |layers|);
            && (slices == EncodeAll(f, layers).value <==> SameLength(layers))
            && DecodeAll(f, slices).Ok?
            && Loaded(f, stored, numLayers) == Ok((Some(h.(numLayers := |layers|)), DecodeAll(f, slices).value))
  {
    hide Encode, Decode, SerializeHeader, TryParseHeader, EncodeAll, DecodeAll, LoaderSlices, Flatten, Width, Offset;
    EncodeAllAt(f, layers);
    var h1, blobs := h.(numLayers := |layers|), EncodeAll(f, layers).value;
    var header := SerializeHeader(h1).value;
    var stored := header + Flatten(blobs);
    HeaderRoundTrip(h1);
    assert stored[..HEADER_SIZE] == header;
    SlicesAreBlobs(header, blobs);
    assert SameLength(blobs) <==> SameLength(layers);
    FlattenLength(blobs, 4);
    WidthLeast(|Flatten(blobs)|, |blobs|, 4);
    SliceLengths(stored, HEADER_SIZE, |layers|);
    DecodeAllAt(f, LoaderSlices(stored, HEADER_SIZE, |layers|));
  }

  /** Saving fails exactly without layers, with an empty layer, or with a header field beyond 32 bits, in this order of
      precedence. */
  lemma SaveFailsIff(f: FloatFormat, h: ObjectHeader, layers: seq<Tensor>)
    requires f.Valid()
    ensures SavedObject(f, h, layers).Ok? <==>
      layers != [] && NonEmptyLayers(layers) && Serializable(h.(numLayers := |layers|))
    ensures layers == [] ==> SavedObject(f, h, layers) == Err(NoLayers) && EstimateCriticalSize(f, layers) == Ok(0)
    ensures layers != [] && !NonEmptyLayers(layers) ==> SavedObject(f, h, layers) == Err(EmptyTensor)
    ensures layers != [] && NonEmptyLayers(layers) && !Serializable(h.(numLayers := |layers|)) ==>
              SavedObject(f, h, layers) == Err(StructError)
  {
    EncodeAllFails(f, layers);
    if NonEmptyLayers(layers) { EncodeAllAt(f, layers); }
    hide EncodeAll, Flatten;
  }

  lemma {:induction false} EncodeAllFails(f: FloatFormat, layers: seq<Tensor>)
    requires f.Valid()
    ensures !NonEmptyLayers(layers) ==> EncodeAll(f, layers) == Err(EmptyTensor)
  {
    if layers != [] {
      var n := |layers| - 1;
      EncodeAllFails(f, layers[..n]);
      if NonEmptyLayers(layers[..n]) { EncodeAllAt(f, layers[..n]); }
    }
  }

  /** A saved object gives back the layers' element counts exactly when all layers have one size. */
  lemma {:induction false} ElementCounts(f: FloatFormat, h: ObjectHeader, layers: seq<Tensor>, numLayers: int)
    requires f.Valid() && layers != [] && NonEmptyLayers(layers)
    requires Serializable(h.(numLayers := |layers|)) && h.formatVersion >= 1
    ensures SavedObject(f, h, layers).Ok? && Loaded(f, SavedObject(f, h, layers).value, numLayers).Ok?
    ensures var (header, tensors) := Loaded(f, SavedObject(f, h, layers).value, numLayers).value;
            && |tensors| == |layers|
            && ((forall i :: 0 <= i < |layers| ==> |tensors[i]| == |layers[i]|) <==> SameLength(layers))
  {
    hide Loaded, SavedObject, EncodeAll, DecodeAll, LoaderSlices, Flatten, Width, Offset, Encode, Decode;
    LoadedSaved(f, h, layers, numLayers);
    EncodeAllAt(f, layers);
    var data, blobs := SavedObject(f, h, layers).value, EncodeAll(f, layers).value;
    FlattenLength(blobs, 4);
    WidthLeast(|Flatten(blobs)|, |blobs|, 4);
    var slices := LoaderSlices(data, HEADER_SIZE, |layers|);
    SliceLengths(data, HEADER_SIZE, |layers|);
    DecodeAllAt(f, slices);
  }

  /** Equally sized layers come back in order, every element within half of its layer's step of the original (plus
      127 times what storing the step in four bytes changed). */
  lemma {:induction false} SaveLoad(f: FloatFormat, h: ObjectHeader, layers: seq<Tensor>, numLayers: int)
    requires f.Valid() && layers != [] && NonEmptyLayers(layers) && SameLength(layers)
    requires Serializable(h.(numLayers := |layers|)) && h.formatVersion >= 1
    ensures SavedObject(f, h, layers).Ok? && Loaded(f, SavedObject(f, h, layers).value, numLayers).Ok?
    ensures var (header, tensors) := Loaded(f, SavedObject(f, h, layers).value, numLayers).value;
            && header == Some(h.(numLayers := |layers|)) && |tensors| == |layers|
            && forall i :: 0 <= i < |layers| ==>
                 && |tensors[i]| == |layers[i]|
                 && forall j :: 0 <= j < |layers[i]| ==>
                      Abs(layers[i][j] - tensors[i][j])
                      <= 0.5 * Scale(layers[i]) + 127.0 * Abs(Scale(layers[i]) - f.Stored(Scale(layers[i])))
  {
    hide Loaded, SavedObject, EncodeAll, DecodeAll, LoaderSlices, Encode, Decode, Abs, Scale, FloatFormat.Stored;
    LoadedSaved(f, h, layers, numLayers);
    EncodeAllAt(f, layers);
    var blobs := EncodeAll(f, layers).value;
    DecodeAllAt(f, blobs);
    var tensors := DecodeAll(f, blobs).value;
    forall i | 0 <= i < |layers|
      ensures |tensors[i]| == |layers[i]|
      ensures forall j :: 0 <= j < |layers[i]| ==>
        Abs(layers[i][j] - tensors[i][j])
        <= 0.5 * Scale(layers[i]) + 127.0 * Abs(Scale(layers[i]) - f.Stored(Scale(layers[i])))
    {
      forall j | 0 <= j < |layers[i]|
        ensures Abs(layers[i][j] - tensors[i][j])
             <= 0.5 * Scale(layers[i]) + 127.0 * Abs(Scale(layers[i]) - f.Stored(Scale(layers[i])))
      {
        ErrorBound(f, layers[i], j);
      }
    }
  }

  /** Equally long blobs stored without a header come back with the layer count the caller expects, whenever the bytes
      cannot be mistaken for the header format. */
  lemma {:induction false} LegacyLoad(f: FloatFormat, blobs: seq<seq<byte>>)
    requires blobs != [] && SameLength(blobs) && |blobs[0]| >= 4
    requires |Flatten(blobs)| < HEADER_SIZE || Flatten(blobs)[..8] != OBJECT_MAGIC
    ensures DecodeAll(f, blobs).Ok? && Loaded(f, Flatten(blobs), |blobs|) == Ok((None, DecodeAll(f, blobs).value))
  {
    hide Decode, DecodeAll, LoaderSlices, Flatten;
    var data := Flatten(blobs);
    SlicesAreBlobs([], blobs);
    assert [] + data == data;
    DecodeAllAt(f, blobs);
    assert |data| >= HEADER_SIZE ==> data[..HEADER_SIZE][..8] == data[..8];
  }

  /** The header path is taken exactly for at least 128 bytes that start with the magic, claim a version of 1 or more,
      and hold, after the header, the layers the header counts; everything else is read without a header. */
  lemma HeaderPathIff(f: FloatFormat, data: seq<byte>, numLayers: int)
    ensures var r := Loaded(f, data, numLayers);
            && (r.Ok? && r.value.0.Some? <==>
                  && |data| >= 128 && data[..8] == [0x44, 0x41, 0x4B, 0x56, 0x4F, 0x42, 0x4A, 0x00]
                  && UnpackU32Little(data[8..12]) >= 1
                  && var n := UnpackU32Little(data[12..16]);
                     n == 0 || DecodeAll(f, LoaderSlices(data, 128, n)).Ok?)
            && (r.Ok? && r.value.0.Some? ==>
                  && r.value.0 == TryParseHeader(data[..128])
                  && var n := UnpackU32Little(data[12..16]);
                     if n == 0 then r.value.1 == [] else Ok(r.value.1) == DecodeAll(f, LoaderSlices(data, 128, n)))
            && (r.Err? || r.value.0.None? ==>
                  if numLayers <= 0 then r == Ok((None, []))
                  else var all := DecodeAll(f, LoaderSlices(data, 0, numLayers));
                       if all.Ok? then r == Ok((None, all.value)) else r == Err(all.error))
  {
    hide DecodeAll, LoaderSlices, UnpackU32Little;
    if |data| >= 128 {
      assert data[..128][..8] == data[..8] && data[..128][8..12] == data[8..12] && data[..128][12..16] == data[12..16];
    }
  }

  // ---------- The size recorded for an object ----------

  /** _estimate_critical_size: the first layer's encoded length stands for every layer's. */
  function EstimateCriticalSize(f: FloatFormat, layers: seq<Tensor>): Result<nat> {
    if layers == [] then Ok(0)
    else
      var sample :- Encode(f, layers[0]);
      Ok(|sample| * |layers| + HEADER_SIZE)
  }

  lemma {:induction false} EstimateExact(f: FloatFormat, h: ObjectHeader, layers: seq<Tensor>)
    requires f.Valid() && layers != [] && NonEmptyLayers(layers) && SameLength(layers)
    requires Serializable(h.(numLayers := |layers|))
    ensures SavedObject(f, h, layers).Ok? && EstimateCriticalSize(f, layers) == Ok(|SavedObject(f, h, layers).value|)
  {
    hide Encode, EncodeAll, Flatten, SerializeHeader;
    EncodeAllAt(f, layers);
    FlattenEqual(EncodeAll(f, layers).value, 4 + |layers[0]|, 0);
  }

  // ---------- The worker's slices ----------

  /** _decode_critical_kv: as the loader's slices from the first byte, except that the last runs to the end. */
  function WorkerSlices(data: seq<byte>, n: nat): (r: seq<seq<byte>>)
    requires n > 0
    ensures |r| == n
  {
    hide Offset, Width;
    var width := Width(|data|, n);
    seq(n, i requires 0 <= i < n =>
      (SliceBound(i, n, |data|); data[Offset(i, width)..if i < n - 1 then Offset(i, width) + width else |data|]))
  }

  method SliceForWorker(data: seq<byte>, n: nat) returns (slices: seq<seq<byte>>)
    requires n > 0
    ensures slices == WorkerSlices(data, n)
  {
    hide Offset, Width;
    slices := [];
    var width := Width(|data|, n);
    for i := 0 to n
      invariant slices == WorkerSlices(data, n)[..i]
    {
      SliceBound(i, n, |data|);
      var from := Offset(i, width);
      var to := if i < n - 1 then from + width else |data|;
      assert WorkerSlices(data, n)[i] == data[from..to];
      slices := slices + [data[from..to]];
    }
  }

  lemma {:induction false} FlattenSlices(data: seq<byte>, n: nat, k: nat)
    requires n > 0 && k <= n
    ensures Offset(k, Width(|data|, n)) <= |data|
    ensures Flatten(LoaderSlices(data, 0, n)[..k]) == data[..Offset(k, Width(|data|, n))]
  {
    hide Offset, Width;
    var width, slices := Width(|data|, n), LoaderSlices(data, 0, n);
    if k == 0 {
      OffsetStep(0, width);
    } else {
      FlattenSlices(data, n, k - 1);
      SliceBound(k - 1, n, |data|);
      OffsetStep(k - 1, width);
      var from := Offset(k - 1, width);
      AppendSlice(slices, k - 1);
      assert data[..from] + data[from..from + width] == data[..from + width];
    }
  }

  lemma AppendSlice(slices: seq<seq<byte>>, k: nat)
    requires k < |slices|
    ensures Flatten(slices[..k + 1]) == Flatten(slices[..k]) + slices[k]
  {
    assert slices[..k + 1] == slices[..k] + [slices[k]];
    FlattenAppend(slices[..k], [slices[k]]);
    assert Flatten([slices[k]]) == slices[k];
  }

  /** All slices but the last are the same in both lists. */
  lemma LastSlices(data: seq<byte>, n: nat)
    requires n > 0
    ensures var from := Offset(n - 1, Width(|data|, n));
            && from + Width(|data|, n) + |data| % n == |data|
            && WorkerSlices(data, n)[..n - 1] == LoaderSlices(data, 0, n)[..n - 1]
            && WorkerSlices(data, n)[n - 1] == data[from..]
            && LoaderSlices(data, 0, n)[n - 1] == data[from..from + Width(|data|, n)]
  {
    hide Offset, Width;
    SliceBound(n - 1, n, |data|);
    OffsetStep(n - 1, Width(|data|, n));
  }

  /** The loader's slices are consecutive and leave out fewer than n bytes; the worker's concatenate to everything;
      the two lists are the same exactly when n divides the length. */
  lemma SlicingCompared(data: seq<byte>, n: nat)
    requires n > 0
    ensures Flatten(LoaderSlices(data, 0, n)) <= data
    ensures |data| - |Flatten(LoaderSlices(data, 0, n))| == |data| % n < n
    ensures Flatten(WorkerSlices(data, n)) == data
    ensures LoaderSlices(data, 0, n) == WorkerSlices(data, n) <==> |data| % n == 0
  {
    hide Offset, Width, Flatten, LoaderSlices, WorkerSlices;
    var ls, ws, from := LoaderSlices(data, 0, n), WorkerSlices(data, n), Offset(n - 1, Width(|data|, n));
    LastSlices(data, n);
    FlattenSlices(data, n, n);
    SliceBound(n - 1, n, |data|);
    assert ls[..n] == ls && ws[..n] == ws;
    FlattenSlices(data, n, n - 1);
    AppendSlice(ws, n - 1);
    assert data[..from] + data[from..] == data;
    assert ls == ls[..n - 1] + [ls[n - 1]] && ws == ws[..n - 1] + [ws[n - 1]];
    if |data| % n == 0 {
      assert from + Width(|data|, n) == |data|;
      assert ls[n - 1] == ws[n - 1];
    } else {
      assert |ls[n - 1]| != |ws[n - 1]|;
    }
  }
}
