/** The wire frame: magic, version, two lengths, a JSON header and a payload. */
module FrameProtocol {
  import opened Common
  import opened ByteOrder
  import opened JsonText
  import Utf8

  datatype FrameHeader = FrameHeader(
    op: string,
    requestId: string,
    objectId: string,
    tier: string,
    codec: string,
    payloadNbytes: int,
    checksum: string,
    deadlineMs: int)

  const MAGIC: seq<byte> := [0x44, 0x41, 0x4B, 0x56]  // "DAKV"
  const VERSION := 1
  const PREFIX_LENGTH := 14

  function Members(h: FrameHeader): seq<Member> {
    [("op", Str(h.op)),
     ("request_id", Str(h.requestId)),
     ("object_id", Str(h.objectId)),
     ("tier", Str(h.tier)),
     ("codec", Str(h.codec)),
     ("checksum", Str(h.checksum)),
     ("deadline_ms", Int(h.deadlineMs))]
  }

  function HeaderBytes(h: FrameHeader): seq<byte> { Utf8.Encode(Dumps(Members(h))) }

  function EncodeFrame(h: FrameHeader, payload: seq<byte>): (r: Result<seq<byte>>)
    ensures r.Ok? <==> |HeaderBytes(h)| < U32_LIMIT && |payload| < U32_LIMIT
  {
    var headerJson := HeaderBytes(h);
    var headerLen :- PackU32Big(|headerJson|);
    var payloadLen :- PackU32Big(|payload|);
    Ok(MAGIC + PackU16Big(VERSION) + headerLen + payloadLen + headerJson + payload)
  }

  function TextOf(ms: seq<Member>, key: string): Result<string> {
    match Lookup(ms, key)
    case Some(Str(s)) => Ok(s)
    case _ => Err(BadHeader)
  }

  function NumberOf(ms: seq<Member>, key: string): Result<int> {
    match Lookup(ms, key)
    case Some(Int(n)) => Ok(n)
    case _ => Err(BadHeader)
  }

  function HeaderOf(ms: seq<Member>, payloadLen: nat): Result<FrameHeader> {
    var op :- TextOf(ms, "op");
    var requestId :- TextOf(ms, "request_id");
    var objectId :- TextOf(ms, "object_id");
    var tier :- TextOf(ms, "tier");
    var codec :- TextOf(ms, "codec");
    var checksum :- TextOf(ms, "checksum");
    var deadlineMs :- NumberOf(ms, "deadline_ms");
    Ok(FrameHeader(op, requestId, objectId, tier, codec, payloadLen, checksum, deadlineMs))
  }

  function ParseHeader(b: seq<byte>, payloadLen: nat): Result<FrameHeader> {
    match Utf8.Decode(b)
    case None => Err(BadHeader)
    case Some(text) =>
      match Loads(text)
      case None => Err(BadHeader)
      case Some(ms) => HeaderOf(ms, payloadLen)
  }

  function HeaderLength(s: seq<byte>): nat
    requires |s| >= PREFIX_LENGTH
  {
    UnpackU32Big(s[6..10])
  }

  function PayloadLength(s: seq<byte>): nat
    requires |s| >= PREFIX_LENGTH
  {
    UnpackU32Big(s[10..14])
  }

  /** The length the 14-byte prefix announces for the whole frame. */
  function FrameLength(s: seq<byte>): nat
    requires |s| >= PREFIX_LENGTH
  {
    PREFIX_LENGTH + HeaderLength(s) + PayloadLength(s)
  }

  /** A header or payload cut short by the end of the data is taken as far as it goes, as Python slices do. */
  function DecodeFrame(data: seq<byte>): Result<(FrameHeader, seq<byte>)> {
    if !(MAGIC <= data) then Err(BadMagic)
    else if |data| < 6 then Err(StructError)
    else if UnpackU16Big(data[4..6]) != VERSION then Err(BadVersion)
    else if |data| < PREFIX_LENGTH then Err(StructError)
    else
      var headerJson := TakePy(data[14..], HeaderLength(data));
      var h :- ParseHeader(headerJson, PayloadLength(data));
      Ok((h, TakePy(data[14 + |headerJson|..], PayloadLength(data))))
  }

  // ---------- The header's text ----------

  /** A quoted name, a colon, a space and a value. */
  function Pair(name: string, v: Value): string { "\"" + name + "\"" + ": " + PrintValue(v) }

  predicate IsName(s: string) { forall i :: 0 <= i < |s| ==> 'a' <= s[i] <= 'z' || s[i] == '_' }

  lemma NamedMember(name: string, v: Value)
    requires IsName(name)
    ensures PrintMember((name, v)) == Pair(name, v)
  {
    QuotePlain(name);
    hide EscapeAll, PrintValue;
  }

  lemma Names()
    ensures IsName("op") && IsName("request_id") && IsName("object_id") && IsName("tier") && IsName("codec")
    ensures IsName("checksum") && IsName("deadline_ms")
  {
  }

  lemma SevenMembers(a: Member, b: Member, c: Member, d: Member, e: Member, f: Member, g: Member)
    ensures PrintMembers([a, b, c, d, e, f, g])
         == PrintMember(a) + ", " + (PrintMember(b) + ", " + (PrintMember(c) + ", " + (PrintMember(d) + ", "
            + (PrintMember(e) + ", " + (PrintMember(f) + ", " + PrintMember(g))))))
  {
    hide PrintMember;
    assert [a, b, c, d, e, f, g][1..] == [b, c, d, e, f, g] && [b, c, d, e, f, g][1..] == [c, d, e, f, g];
    assert [c, d, e, f, g][1..] == [d, e, f, g] && [d, e, f, g][1..] == [e, f, g] && [e, f, g][1..] == [f, g];
    assert [f, g][1..] == [g];
    assert PrintMembers([f, g]) == PrintMember(f) + ", " + PrintMember(g);
    assert PrintMembers([e, f, g]) == PrintMember(e) + ", " + PrintMembers([f, g]);
    assert PrintMembers([d, e, f, g]) == PrintMember(d) + ", " + PrintMembers([e, f, g]);
    assert PrintMembers([c, d, e, f, g]) == PrintMember(c) + ", " + PrintMembers([d, e, f, g]);
    assert PrintMembers([b, c, d, e, f, g]) == PrintMember(b) + ", " + PrintMembers([c, d, e, f, g]);
  }

  /** The header is one JSON object of seven members, named and ordered as here, in printable ASCII; the payload's
      length is not among them. */
  lemma HeaderText(h: FrameHeader)
    ensures Dumps(Members(h)) ==
            "{" + (Pair("op", Str(h.op)) + ", " + (Pair("request_id", Str(h.requestId)) + ", "
            + (Pair("object_id", Str(h.objectId)) + ", " + (Pair("tier", Str(h.tier)) + ", "
            + (Pair("codec", Str(h.codec)) + ", " + (Pair("checksum", Str(h.checksum)) + ", "
            + Pair("deadline_ms", Int(h.deadlineMs)))))))) + "}"
    ensures Plain(Dumps(Members(h)))
  {
    DumpsPlain(Members(h));
    Names();
    hide PrintMember, PrintMembers, Pair, Plain, IsName, PrintValue;
    NamedMember("op", Str(h.op));
    NamedMember("request_id", Str(h.requestId));
    NamedMember("object_id", Str(h.objectId));
    NamedMember("tier", Str(h.tier));
    NamedMember("codec", Str(h.codec));
    NamedMember("checksum", Str(h.checksum));
    NamedMember("deadline_ms", Int(h.deadlineMs));
    SevenMembers(("op", Str(h.op)), ("request_id", Str(h.requestId)), ("object_id", Str(h.objectId)),
                 ("tier", Str(h.tier)), ("codec", Str(h.codec)), ("checksum", Str(h.checksum)),
                 ("deadline_ms", Int(h.deadlineMs)));
  }

  // ---------- Decoding what was encoded ----------

  lemma {:induction false} LookupLast(ms: seq<Member>, i: nat)
    requires i < |ms|
    requires forall j :: i < j < |ms| ==> ms[j].0 != ms[i].0
    ensures Lookup(ms, ms[i].0) == Some(ms[i].1)
  {
    if i < |ms| - 1 {
      LookupLast(ms[..|ms| - 1], i);
    }
  }

  lemma LookupMembers(h: FrameHeader, i: nat)
    requires i < 7
    ensures Lookup(Members(h), Members(h)[i].0) == Some(Members(h)[i].1)
  {
    var ms := Members(h);
    assert forall j :: 0 <= j < 7 ==> |ms[j].0| == [2, 10, 9, 4, 5, 8, 11][j];
    LookupLast(ms, i);
  }

  lemma HeaderOfMembers(h: FrameHeader, n: nat)
    ensures HeaderOf(Members(h), n) == Ok(h.(payloadNbytes := n))
  {
    LookupMembers(h, 0);
    LookupMembers(h, 1);
    LookupMembers(h, 2);
    LookupMembers(h, 3);
    LookupMembers(h, 4);
    LookupMembers(h, 5);
    LookupMembers(h, 6);
  }

  lemma ParsePrintedHeader(h: FrameHeader, n: nat)
    ensures ParseHeader(HeaderBytes(h), n) == Ok(h.(payloadNbytes := n))
  {
    Utf8.RoundTrip(Dumps(Members(h)));
    LoadsDumps(Members(h));
    HeaderOfMembers(h, n);
  }

  lemma PrefixShape(v: seq<byte>, hl: seq<byte>, pl: seq<byte>, tail: seq<byte>)
    requires |v| == 2 && |hl| == 4 && |pl| == 4
    ensures var data := MAGIC + v + hl + pl + tail;
            && MAGIC <= data && data[4..6] == v && data[6..10] == hl && data[10..14] == pl && data[14..] == tail
  {
  }

  lemma FrameShape(h: FrameHeader, payload: seq<byte>, rest: seq<byte>)
    requires EncodeFrame(h, payload).Ok?
    ensures var data := EncodeFrame(h, payload).value + rest;
            && |data| >= PREFIX_LENGTH && MAGIC <= data && UnpackU16Big(data[4..6]) == VERSION
            && HeaderLength(data) == |HeaderBytes(h)| && PayloadLength(data) == |payload|
            && data[14..] == HeaderBytes(h) + (payload + rest)
  {
    hide HeaderBytes;
    var v, hl, pl := PackU16Big(VERSION), PackU32Big(|HeaderBytes(h)|).value, PackU32Big(|payload|).value;
    Concat4(MAGIC + v + hl + pl, HeaderBytes(h), payload, rest);
    PrefixShape(v, hl, pl, HeaderBytes(h) + (payload + rest));
  }

  /** Every frame is "DAKV", version 1, the header's and the payload's length, and then these two. */
  lemma FrameLayout(h: FrameHeader, payload: seq<byte>)
    requires EncodeFrame(h, payload).Ok?
    ensures var frame := EncodeFrame(h, payload).value;
            && |frame| >= PREFIX_LENGTH && frame[..6] == [0x44, 0x41, 0x4B, 0x56, 0, 1]
            && UnpackU32Big(frame[6..10]) == |HeaderBytes(h)| && UnpackU32Big(frame[10..14]) == |payload|
            && frame[14..] == HeaderBytes(h) + payload && FrameLength(frame) == |frame|
  {
    hide HeaderBytes;
    var frame := EncodeFrame(h, payload).value;
    FrameShape(h, payload, []);
    assert frame + [] == frame;
    assert frame[..6] == MAGIC + PackU16Big(VERSION);
  }

  /** Decoding an encoded frame returns its header, with the payload's length filled in, and its payload,
      whatever bytes follow. */
  lemma {:induction false} DecodeEncoded(h: FrameHeader, payload: seq<byte>, rest: seq<byte>)
    requires EncodeFrame(h, payload).Ok?
    ensures DecodeFrame(EncodeFrame(h, payload).value + rest) == Ok((h.(payloadNbytes := |payload|), payload))
  {
    hide HeaderBytes, ParseHeader;
    var data := EncodeFrame(h, payload).value + rest;
    FrameShape(h, payload, rest);
    assert TakePy(data[14..], |HeaderBytes(h)|) == HeaderBytes(h);
    ParsePrintedHeader(h, |payload|);
    assert data[14 + |HeaderBytes(h)|..] == data[14..][|HeaderBytes(h)|..] == payload + rest;
    assert TakePy(payload + rest, |payload|) == payload;
  }

  lemma EncodedLength(h: FrameHeader, payload: seq<byte>, rest: seq<byte>)
    requires EncodeFrame(h, payload).Ok?
    ensures |EncodeFrame(h, payload).value| >= PREFIX_LENGTH
    ensures FrameLength(EncodeFrame(h, payload).value + rest) == |EncodeFrame(h, payload).value|
  {
    hide HeaderBytes;
    FrameShape(h, payload, rest);
  }

  /** No frame is a proper prefix of another, and a frame determines its header fields and payload. */
  lemma PrefixFree(h1: FrameHeader, p1: seq<byte>, h2: FrameHeader, p2: seq<byte>)
    requires EncodeFrame(h1, p1).Ok? && EncodeFrame(h2, p2).Ok?
    requires EncodeFrame(h1, p1).value <= EncodeFrame(h2, p2).value
    ensures EncodeFrame(h1, p1) == EncodeFrame(h2, p2)
    ensures h1 == h2.(payloadNbytes := h1.payloadNbytes) && p1 == p2
  {
    hide DecodeFrame;
    var f1, f2 := EncodeFrame(h1, p1).value, EncodeFrame(h2, p2).value;
    var rest := f2[|f1|..];
    assert f1 + rest == f2 && f2 + [] == f2;
    DecodeEncoded(h1, p1, rest);
    DecodeEncoded(h2, p2, []);
    assert Members(h1) == Members(h2);
  }
}
