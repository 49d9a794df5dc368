/** The data server: requests dispatched to the store, and the replies sent back. */
module DataServer {
  import opened Common
  import opened FrameProtocol
  import opened ByteStream
  import opened ObjectStore
  import Utf8

  /** SHA-256 in hexadecimal; only that it is a function of the data is used. */
  type Digest = seq<byte> -> string

  const GET_CRITICAL := "GET_CRITICAL"
  const GET_REFINEMENT := "GET_REFINEMENT"
  const PUT_CRITICAL := "PUT_CRITICAL"
  const PUT_REFINEMENT := "PUT_REFINEMENT"
  const DELETE := "DELETE"
  const RESPONSE := "RESPONSE"
  const ERROR := "ERROR"

  /** Stands for the text of an exception raised while a reply is packed. */
  const EXCEPTION_TEXT := "argument out of range"
  const OK_BODY: seq<byte> := [0x4F, 0x4B]

  // ---------- Requests and answers ----------

  datatype Request =
    | Get(tier: Tier, id: string)
    | Put(tier: Tier, id: string, data: seq<byte>, sumOk: bool)
    | Delete(id: string)
    | Unknown(op: string)

  datatype Answer =
    | Found(tier: Tier, data: seq<byte>)
    | Stored(tier: Tier)
    | Deleted
    | Missing
    | BadSum
    | Refused
    | UnknownOp(op: string)

  function RequestOf(digest: Digest, h: FrameHeader, payload: seq<byte>): Request {
    var sumOk := h.checksum == "" || digest(payload) == h.checksum;
    if h.op == GET_CRITICAL then Get(Critical, h.objectId)
    else if h.op == GET_REFINEMENT then Get(Refinement, h.objectId)
    else if h.op == PUT_CRITICAL then Put(Critical, h.objectId, payload, sumOk)
    else if h.op == PUT_REFINEMENT then Put(Refinement, h.objectId, payload, sumOk)
    else if h.op == DELETE then Delete(h.objectId)
    else Unknown(h.op)
  }

  /** What the two directories answer, and what becomes of them. */
  function DiskStep(d: Disk, q: Request): (Answer, Disk) {
    match q
    case Get(tier, id) =>
      (match d.Read(tier, id) case Some(data) => Found(tier, data) case None => Missing, d)
    case Put(tier, id, data, sumOk) =>
      if !sumOk then (BadSum, d)
      else (if id in d.unwritable then Refused else Stored(tier), d.Written(tier, id, data))
    case Delete(id) => (Deleted, d.Removed(Critical, id).Removed(Refinement, id))
    case Unknown(op) => (UnknownOp(op), d)
  }

  function TierName(tier: Tier): string { if tier.Refinement? then "refinement" else "critical" }

  function ReplyHeader(op: string, h: FrameHeader, tier: string, codec: string, n: nat, checksum: string): FrameHeader {
    FrameHeader(op, h.requestId, h.objectId, tier, codec, n, checksum, 0)
  }

  function ErrorReply(h: FrameHeader, message: string): (FrameHeader, seq<byte>) {
    (ReplyHeader(ERROR, h, "", "", |message|, ""), Utf8.Encode(message))
  }

  /** The reply frame that carries an answer to request h. */
  function ReplyFor(digest: Digest, h: FrameHeader, a: Answer): (FrameHeader, seq<byte>) {
    match a
    case Found(tier, data) => (ReplyHeader(RESPONSE, h, TierName(tier), h.codec, |data|, digest(data)), data)
    case Stored(tier) => (ReplyHeader(RESPONSE, h, TierName(tier), h.codec, 0, ""), OK_BODY)
    case Deleted => (ReplyHeader(RESPONSE, h, "", "", 0, ""), OK_BODY)
    case Missing => ErrorReply(h, "Object not found")
    case BadSum => ErrorReply(h, "Checksum mismatch")
    case Refused => ErrorReply(h, "Failed to store object")
    case UnknownOp(op) => ErrorReply(h, "Unknown op: " + op)
  }

  function Pack(reply: (FrameHeader, seq<byte>)): Result<seq<byte>> { EncodeFrame(reply.0, reply.1) }

  /** The bytes sent for a reply; a reply too long for the format turns into an error reply. */
  function Sent(h: FrameHeader, reply: (FrameHeader, seq<byte>)): Result<seq<byte>> {
    var packed := Pack(reply);
    if packed.Ok? then packed else Pack(ErrorReply(h, EXCEPTION_TEXT))
  }

  /** One received frame: the reply bytes, or the exception that ends the connection. */
  function ServeFrame(digest: Digest, d: Disk, frame: seq<byte>): (Result<seq<byte>>, Disk) {
    match DecodeFrame(frame)
    case Err(e) => (Err(e), d)
    case Ok((h, payload)) =>
      var (a, d') := DiskStep(d, RequestOf(digest, h, payload));
      (Sent(h, ReplyFor(digest, h, a)), d')
  }

  /** The frames of one connection, up to the first exception: everything sent back, and the final store. */
  function ServeAll(digest: Digest, d: Disk, frames: seq<seq<byte>>): (seq<byte>, Disk)
    decreases |frames|
  {
    if frames == [] then ([], d)
    else
      var (reply, d') := ServeFrame(digest, d, frames[0]);
      if reply.Err? then ([], d')
      else
        var (out, d'') := ServeAll(digest, d', frames[1..]);
        (reply.value + out, d'')
  }

  lemma ServeAllNil(digest: Digest, d: Disk)
    ensures ServeAll(digest, d, []) == ([], d)
  {
  }

  lemma ServeAllStep(digest: Digest, d: Disk, frame: seq<byte>, frames: seq<seq<byte>>)
    ensures var (reply, d') := ServeFrame(digest, d, frame);
            ServeAll(digest, d, [frame] + frames) ==
            if reply.Err? then ([], d')
            else (reply.value + ServeAll(digest, d', frames).0, ServeAll(digest, d', frames).1)
  {
    hide ServeFrame;
    assert ([frame] + frames)[1..] == frames;
  }

  // ---------- The server ----------

  class DataServer {
    const store: LocalDiskBackend
    const digest: Digest

    constructor (store: LocalDiskBackend, digest: Digest)
      ensures this.store == store && this.digest == digest
    {
      this.store, this.digest := store, digest;
    }

    method HandleGet(h: FrameHeader, tier: string) returns (r: Result<seq<byte>>)
      requires tier == TierName(TierOf(tier))
      ensures r == Pack(ReplyFor(digest, h, DiskStep(store.View(), Get(TierOf(tier), h.objectId)).0))
    {
      hide Pack, ErrorReply, ReplyHeader;
      var data := store.Get(h.objectId, tier);
      if data.None? {
        return Pack(ErrorReply(h, "Object not found"));
      }
      var checksum := digest(data.value);
      r := Pack((ReplyHeader(RESPONSE, h, tier, h.codec, |data.value|, checksum), data.value));
    }

    method HandlePut(h: FrameHeader, payload: seq<byte>, tier: string) returns (r: Result<seq<byte>>)
      requires tier == TierName(TierOf(tier))
      modifies store
      ensures var sumOk := h.checksum == "" || digest(payload) == h.checksum;
              var (a, d) := DiskStep(old(store.View()), Put(TierOf(tier), h.objectId, payload, sumOk));
              store.View() == d && r == Pack(ReplyFor(digest, h, a))
    {
      hide Pack, ErrorReply, ReplyHeader;
      if h.checksum != "" && digest(payload) != h.checksum {
        return Pack(ErrorReply(h, "Checksum mismatch"));
      }
      var success := store.Put(h.objectId, payload, tier);
      if !success {
        return Pack(ErrorReply(h, "Failed to store object"));
      }
      r := Pack((ReplyHeader(RESPONSE, h, tier, h.codec, 0, ""), OK_BODY));
    }

    method HandleDelete(h: FrameHeader) returns (r: Result<seq<byte>>)
      modifies store
      ensures var (a, d) := DiskStep(old(store.View()), Delete(h.objectId));
              store.View() == d && r == Pack(ReplyFor(digest, h, a))
    {
      hide Pack, ErrorReply, ReplyHeader;
      var _ := store.Delete(h.objectId, "critical");
      var _ := store.Delete(h.objectId, "refinement");
      r := Pack((ReplyHeader(RESPONSE, h, "", "", 0, ""), OK_BODY));
    }

    method ProcessRequest(h: FrameHeader, payload: seq<byte>) returns (r: Result<seq<byte>>)
      modifies store
      ensures var (a, d) := DiskStep(old(store.View()), RequestOf(digest, h, payload));
              store.View() == d && r == Sent(h, ReplyFor(digest, h, a))
    {
      hide Pack, ErrorReply, ReplyHeader;
      if h.op == GET_CRITICAL {
        r := HandleGet(h, "critical");
      } else if h.op == GET_REFINEMENT {
        r := HandleGet(h, "refinement");
      } else if h.op == PUT_CRITICAL {
        r := HandlePut(h, payload, "critical");
      } else if h.op == PUT_REFINEMENT {
        r := HandlePut(h, payload, "refinement");
      } else if h.op == DELETE {
        r := HandleDelete(h);
      } else {
        r := Pack(ErrorReply(h, "Unknown op: " + h.op));
      }
      if r.Err? {
        r := Pack(ErrorReply(h, EXCEPTION_TEXT));
      }
    }

    /** Serves one connection until it closes, a frame is cut short, or an exception is raised. */
    method HandleClient(conn: Connection)
      modifies store, conn
      ensures var (out, d) := ServeAll(digest, old(store.View()), ReceiveAll(old(conn.incoming)));
              conn.sent == old(conn.sent) + out && store.View() == d
    {
      hide DecodeFrame, DiskStep, RequestOf, ReplyFor, Sent, NextFrame, Bytes, ReceiveAll, ServeAll;
      ghost var start := ServeAll(digest, store.View(), ReceiveAll(conn.incoming));
      ghost var done: seq<byte> := [];
      while true
        invariant conn.sent == old(conn.sent) + done
        invariant var rest := ServeAll(digest, store.View(), ReceiveAll(conn.incoming));
                  done + rest.0 == start.0 && rest.1 == start.1
        decreases |Bytes(conn.incoming)|
      {
        ghost var before := store.View();
        ReceiveAllStep(conn.incoming);
        var frame := conn.RecvFrame();
        assert done + [] == done;
        if frame.None? {
          ServeAllNil(digest, before);
          break;
        }
        ServeAllStep(digest, before, frame.value, ReceiveAll(conn.incoming));
        var decoded := DecodeFrame(frame.value);
        if decoded.Err? {
          break;
        }
        var response := ProcessRequest(decoded.value.0, decoded.value.1);
        if response.Err? {
          break;
        }
        conn.SendAll(response.value);
        Concat3(done, response.value, ServeAll(digest, store.View(), ReceiveAll(conn.incoming)).0);
        done := done + response.value;
      }
    }
  }
}
