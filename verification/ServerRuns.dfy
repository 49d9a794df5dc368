/** Whole runs of the data server over many connections, against one plain map keyed by (tier, object id). */
module ServerRuns {
  import opened Common
  import opened FrameProtocol
  import opened ObjectStore
  import opened DataServer
  import Utf8

  type Table = map<(Tier, string), seq<byte>>

  /** The reference: one map, tiers as part of the key. */
  function TableStep(unwritable: set<string>, t: Table, q: Request): (Answer, Table) {
    match q
    case Get(tier, id) => (if (tier, id) in t then Found(tier, t[(tier, id)]) else Missing, t)
    case Put(tier, id, data, sumOk) =>
      if !sumOk then (BadSum, t)
      else if id in unwritable then (Refused, t)
      else (Stored(tier), t[(tier, id) := data])
    case Delete(id) => (Deleted, t - {(Critical, id), (Refinement, id)})
    case Unknown(op) => (UnknownOp(op), t)
  }

  ghost predicate Represents(d: Disk, t: Table) {
    forall tier, id :: d.Read(tier, id) == if (tier, id) in t then Some(t[(tier, id)]) else None
  }

  lemma StepRefines(d: Disk, t: Table, q: Request)
    requires Represents(d, t)
    ensures DiskStep(d, q).0 == TableStep(d.unwritable, t, q).0
    ensures Represents(DiskStep(d, q).1, TableStep(d.unwritable, t, q).1)
    ensures DiskStep(d, q).1.unwritable == d.unwritable
  {
    var d', t' := DiskStep(d, q).1, TableStep(d.unwritable, t, q).1;
    match q
    case Get(tier, id) => assert d.Read(tier, id) == if (tier, id) in t then Some(t[(tier, id)]) else None;
    case Put(_, _, _, _) =>
    case Unknown(_) =>
    case Delete(_) =>
      forall tier, id
        ensures d'.Read(tier, id) == if (tier, id) in t' then Some(t'[(tier, id)]) else None
      {
        assert d.Read(tier, id) == if (tier, id) in t then Some(t[(tier, id)]) else None;
      }
  }

  /** One request frame arriving on some connection. */
  datatype Step = Step(conn: nat, header: FrameHeader, payload: seq<byte>) {
    predicate Sendable() { EncodeFrame(header, payload).Ok? }

    function Frame(): seq<byte>
      requires Sendable()
    {
      EncodeFrame(header, payload).value
    }
  }

  predicate AllSendable(steps: seq<Step>) { forall s :: s in steps ==> s.Sendable() }

  function RunServer(digest: Digest, d: Disk, steps: seq<Step>): (r: (seq<Result<seq<byte>>>, Disk))
    requires AllSendable(steps)
    ensures |r.0| == |steps|
    decreases |steps|
  {
    if steps == [] then ([], d)
    else
      assert steps[0].Sendable();
      var (reply, d') := ServeFrame(digest, d, steps[0].Frame());
      var (replies, d'') := RunServer(digest, d', steps[1..]);
      ([reply] + replies, d'')
  }

  /** The reply frames of the plain map, before they are packed. */
  function RunTable(digest: Digest, unwritable: set<string>, t: Table, steps: seq<Step>)
    : (r: (seq<(FrameHeader, seq<byte>)>, Table))
    ensures |r.0| == |steps|
    decreases |steps|
  {
    if steps == [] then ([], t)
    else
      var s := steps[0];
      var (a, t') := TableStep(unwritable, t, RequestOf(digest, s.header, s.payload));
      var (replies, t'') := RunTable(digest, unwritable, t', steps[1..]);
      ([ReplyFor(digest, s.header, a)] + replies, t'')
  }

  lemma {:induction false} FrameReply(digest: Digest, d: Disk, t: Table, s: Step)
    requires Represents(d, t) && s.Sendable()
    ensures var (a, t') := TableStep(d.unwritable, t, RequestOf(digest, s.header, s.payload));
            var (reply, d') := ServeFrame(digest, d, s.Frame());
            && reply == Sent(s.header, ReplyFor(digest, s.header, a))
            && Represents(d', t') && d'.unwritable == d.unwritable
  {
    hide EncodeFrame, DecodeFrame, DiskStep, TableStep, RequestOf, ReplyFor, Sent, Disk.Read;
    DecodeEncoded(s.header, s.payload, []);
    assert s.Frame() + [] == s.Frame();
    var h := s.header.(payloadNbytes := |s.payload|);
    SameRequest(digest, s.header, |s.payload|, s.payload);
    StepRefines(d, t, RequestOf(digest, h, s.payload));
    SameReply(digest, s.header, |s.payload|, DiskStep(d, RequestOf(digest, h, s.payload)).0);
  }

  lemma SameRequest(digest: Digest, h: FrameHeader, n: int, payload: seq<byte>)
    ensures RequestOf(digest, h.(payloadNbytes := n), payload) == RequestOf(digest, h, payload)
  {
  }

  lemma SameReply(digest: Digest, h: FrameHeader, n: int, a: Answer)
    ensures ReplyFor(digest, h.(payloadNbytes := n), a) == ReplyFor(digest, h, a)
    ensures Sent(h.(payloadNbytes := n), ReplyFor(digest, h, a)) == Sent(h, ReplyFor(digest, h, a))
  {
    SameHeader(h, n);
    hide EncodeFrame, ReplyHeader, Utf8.Encode, TierName;
  }

  /** A reply takes nothing from the payload length that its request announced. */
  lemma SameHeader(h: FrameHeader, n: int)
    ensures forall op, tier, codec, m, sum :: ReplyHeader(op, h.(payloadNbytes := n), tier, codec, m, sum)
                                           == ReplyHeader(op, h, tier, codec, m, sum)
  {
  }

  // ---------- What each kind of frame does ----------

  /** The bytes sent are this reply frame, or an error frame for the same request if it is too long for the format. */
  predicate Sends(sent: Result<seq<byte>>, reply: FrameHeader, body: seq<byte>) {
    sent == if EncodeFrame(reply, body).Ok? then EncodeFrame(reply, body)
            else EncodeFrame(FrameHeader("ERROR", reply.requestId, reply.objectId, "", "", |EXCEPTION_TEXT|, "", 0),
                             Utf8.Encode(EXCEPTION_TEXT))
  }

  lemma Served(digest: Digest, d: Disk, h: FrameHeader, payload: seq<byte>)
    requires EncodeFrame(h, payload).Ok?
    ensures var (sent, d') := ServeFrame(digest, d, EncodeFrame(h, payload).value);
            var (a, d'') := DiskStep(d, RequestOf(digest, h, payload));
            && d' == d'' && sent == Sent(h, ReplyFor(digest, h, a))
            && Sends(sent, ReplyFor(digest, h, a).0, ReplyFor(digest, h, a).1)
  {
    hide EncodeFrame, DecodeFrame, DiskStep, RequestOf, ReplyFor;
    DecodeEncoded(h, payload, []);
    assert EncodeFrame(h, payload).value + [] == EncodeFrame(h, payload).value;
    SameRequest(digest, h, |payload|, payload);
    var a := DiskStep(d, RequestOf(digest, h, payload)).0;
    SameReply(digest, h, |payload|, a);
    SameIds(digest, h, a);
  }

  lemma SameIds(digest: Digest, h: FrameHeader, a: Answer)
    ensures ReplyFor(digest, h, a).0.requestId == h.requestId && ReplyFor(digest, h, a).0.objectId == h.objectId
  {
    hide Utf8.Encode, TierName;
  }

  lemma OpsDiffer()
    ensures "DELETE" !in {"GET_CRITICAL", "GET_REFINEMENT", "PUT_CRITICAL", "PUT_REFINEMENT"}
    ensures "GET_CRITICAL" !in {"GET_REFINEMENT", "PUT_CRITICAL", "PUT_REFINEMENT"}
    ensures "GET_REFINEMENT" !in {"PUT_CRITICAL", "PUT_REFINEMENT"} && "PUT_CRITICAL" != "PUT_REFINEMENT"
  {
    assert |"DELETE"| == 6 && |"GET_CRITICAL"| == |"PUT_CRITICAL"| == 12;
    assert |"GET_REFINEMENT"| == |"PUT_REFINEMENT"| == 14;
    assert "GET_CRITICAL"[0] == 'G' && "PUT_CRITICAL"[0] == 'P';
    assert "GET_REFINEMENT"[0] == 'G' && "PUT_REFINEMENT"[0] == 'P';
  }

  /** The request that each op means. */
  lemma Meaning(digest: Digest, h: FrameHeader, payload: seq<byte>)
    ensures var q, sumOk := RequestOf(digest, h, payload), h.checksum == "" || digest(payload) == h.checksum;
            && (h.op == "GET_CRITICAL" ==> q == Get(Critical, h.objectId))
            && (h.op == "GET_REFINEMENT" ==> q == Get(Refinement, h.objectId))
            && (h.op == "PUT_CRITICAL" ==> q == Put(Critical, h.objectId, payload, sumOk))
            && (h.op == "PUT_REFINEMENT" ==> q == Put(Refinement, h.objectId, payload, sumOk))
            && (h.op == "DELETE" ==> q == Delete(h.objectId))
  {
    OpsDiffer();
  }

  /** A DELETE frame removes the id from both directories, and nothing else, and is answered OK. */
  lemma DeleteServed(digest: Digest, d: Disk, h: FrameHeader, payload: seq<byte>)
    requires EncodeFrame(h, payload).Ok? && h.op == "DELETE"
    ensures var (sent, d') := ServeFrame(digest, d, EncodeFrame(h, payload).value);
            && d' == Disk(d.critical - {h.objectId}, d.refinement - {h.objectId}, d.unwritable)
            && Sends(sent, FrameHeader("RESPONSE", h.requestId, h.objectId, "", "", 0, "", 0), [0x4F, 0x4B])
  {
    hide EncodeFrame, ServeFrame, Sends, Sent;
    Served(digest, d, h, payload);
    Meaning(digest, h, payload);
    hide RequestOf;
  }

  lemma GetAnswer(digest: Digest, d: Disk, h: FrameHeader, tier: Tier)
    ensures var files := if tier.Critical? then d.critical else d.refinement;
            var (a, d') := DiskStep(d, Get(tier, h.objectId));
            d' == d &&
            ReplyFor(digest, h, a) ==
            if h.objectId in files then
              (FrameHeader("RESPONSE", h.requestId, h.objectId, if tier.Critical? then "critical" else "refinement",
                           h.codec, |files[h.objectId]|, digest(files[h.objectId]), 0), files[h.objectId])
            else
              (FrameHeader("ERROR", h.requestId, h.objectId, "", "", 16, "", 0), Utf8.Encode("Object not found"))
  {
    hide Utf8.Encode;
    assert |"Object not found"| == 16;
  }

  lemma PutAnswer(digest: Digest, d: Disk, h: FrameHeader, tier: Tier, payload: seq<byte>)
    ensures var sumOk := h.checksum == "" || digest(payload) == h.checksum;
            var (a, d') := DiskStep(d, Put(tier, h.objectId, payload, sumOk));
            && d' == (if !sumOk || h.objectId in d.unwritable then d
                      else if tier.Critical? then d.(critical := d.critical[h.objectId := payload])
                      else d.(refinement := d.refinement[h.objectId := payload]))
            && ReplyFor(digest, h, a) ==
               if !sumOk then
                 (FrameHeader("ERROR", h.requestId, h.objectId, "", "", 17, "", 0), Utf8.Encode("Checksum mismatch"))
               else if h.objectId in d.unwritable then
                 (FrameHeader("ERROR", h.requestId, h.objectId, "", "", 22, "", 0),
                  Utf8.Encode("Failed to store object"))
               else
                 (FrameHeader("RESPONSE", h.requestId, h.objectId, if tier.Critical? then "critical" else "refinement",
                              h.codec, 0, "", 0), [0x4F, 0x4B])
  {
    hide Utf8.Encode;
    assert |"Checksum mismatch"| == 17 && |"Failed to store object"| == 22;
  }

  /** A GET frame changes nothing; it is answered with the stored bytes and their checksum, or with an error. */
  lemma GetServed(digest: Digest, d: Disk, h: FrameHeader, payload: seq<byte>)
    requires EncodeFrame(h, payload).Ok? && h.op in {"GET_CRITICAL", "GET_REFINEMENT"}
    ensures var (sent, d') := ServeFrame(digest, d, EncodeFrame(h, payload).value);
            var (tier, files) :=
              if h.op == "GET_CRITICAL" then ("critical", d.critical) else ("refinement", d.refinement);
            && d' == d
            && if h.objectId in files then
                 var data := files[h.objectId];
                 Sends(sent,
                       FrameHeader("RESPONSE", h.requestId, h.objectId, tier, h.codec, |data|, digest(data), 0), data)
               else
                 Sends(sent, FrameHeader("ERROR", h.requestId, h.objectId, "", "", 16, "", 0),
                       Utf8.Encode("Object not found"))
  {
    hide EncodeFrame, ServeFrame, Sends, Sent, Utf8.Encode;
    Served(digest, d, h, payload);
    Meaning(digest, h, payload);
    hide RequestOf;
    if h.op == "GET_CRITICAL" { GetAnswer(digest, d, h, Critical); } else { GetAnswer(digest, d, h, Refinement); }
    hide DiskStep, ReplyFor;
  }

  /** A PUT frame whose checksum is not its payload's changes nothing and is answered with an error; any other is stored
      in the one directory its op names and answered OK, or fails as the file system does. */
  lemma PutServed(digest: Digest, d: Disk, h: FrameHeader, payload: seq<byte>)
    requires EncodeFrame(h, payload).Ok? && h.op in {"PUT_CRITICAL", "PUT_REFINEMENT"}
    ensures var (sent, d') := ServeFrame(digest, d, EncodeFrame(h, payload).value);
            if h.checksum != "" && h.checksum != digest(payload) then
              && d' == d
              && Sends(sent, FrameHeader("ERROR", h.requestId, h.objectId, "", "", 17, "", 0),
                       Utf8.Encode("Checksum mismatch"))
            else if h.objectId in d.unwritable then
              && d' == d
              && Sends(sent, FrameHeader("ERROR", h.requestId, h.objectId, "", "", 22, "", 0),
                       Utf8.Encode("Failed to store object"))
            else if h.op == "PUT_CRITICAL" then
              && d' == d.(critical := d.critical[h.objectId := payload])
              && Sends(sent, FrameHeader("RESPONSE", h.requestId, h.objectId, "critical", h.codec, 0, "", 0),
                       [0x4F, 0x4B])
            else
              && d' == d.(refinement := d.refinement[h.objectId := payload])
              && Sends(sent, FrameHeader("RESPONSE", h.requestId, h.objectId, "refinement", h.codec, 0, "", 0),
                       [0x4F, 0x4B])
  {
    hide EncodeFrame, ServeFrame, Sends, Sent, Utf8.Encode;
    Served(digest, d, h, payload);
    Meaning(digest, h, payload);
    hide RequestOf;
    if h.op == "PUT_CRITICAL" {
      PutAnswer(digest, d, h, Critical, payload);
    } else {
      PutAnswer(digest, d, h, Refinement, payload);
    }
    hide DiskStep, ReplyFor;
  }

  /** A frame with any other op changes nothing and is answered with an error that names the op. */
  lemma UnknownServed(digest: Digest, d: Disk, h: FrameHeader, payload: seq<byte>)
    requires EncodeFrame(h, payload).Ok?
    requires h.op !in {"GET_CRITICAL", "GET_REFINEMENT", "PUT_CRITICAL", "PUT_REFINEMENT", "DELETE"}
    ensures var (sent, d') := ServeFrame(digest, d, EncodeFrame(h, payload).value);
            var message := "Unknown op: " + h.op;
            && d' == d
            && Sends(sent, FrameHeader("ERROR", h.requestId, h.objectId, "", "", |message|, "", 0),
                     Utf8.Encode(message))
  {
    hide EncodeFrame, ServeFrame, Sends, Sent, Utf8.Encode;
    Served(digest, d, h, payload);
  }

  // ---------- Whole runs ----------

  /** The bytes sent decode to this reply, its payload length filled in. */
  predicate Carries(sent: Result<seq<byte>>, reply: (FrameHeader, seq<byte>)) {
    sent.Ok? && DecodeFrame(sent.value) == Ok((reply.0.(payloadNbytes := |reply.1|), reply.1))
  }

  lemma {:induction false} SentCarries(h: FrameHeader, reply: (FrameHeader, seq<byte>))
    requires Pack(reply).Ok?
    ensures Carries(Sent(h, reply), reply)
  {
    hide EncodeFrame, DecodeFrame;
    DecodeEncoded(reply.0, reply.1, []);
    assert Pack(reply).value + [] == Pack(reply).value;
  }

  /** The bytes sent are those of this reply, and decode to it if it fits the format. */
  predicate Answers(s: Step, sent: Result<seq<byte>>, reply: (FrameHeader, seq<byte>)) {
    sent == Sent(s.header, reply) && (Pack(reply).Ok? ==> Carries(sent, reply))
  }

  lemma SentAnswers(s: Step, reply: (FrameHeader, seq<byte>))
    ensures Answers(s, Sent(s.header, reply), reply)
  {
    hide Pack, Sent, Carries;
    if Pack(reply).Ok? { SentCarries(s.header, reply); }
  }

  predicate AllAnswer(steps: seq<Step>, replies: seq<Result<seq<byte>>>, expected: seq<(FrameHeader, seq<byte>)>) {
    |steps| == |replies| == |expected| && forall i :: 0 <= i < |steps| ==> Answers(steps[i], replies[i], expected[i])
  }

  lemma AnswersCons(steps: seq<Step>, sent: Result<seq<byte>>, reply: (FrameHeader, seq<byte>),
                    replies: seq<Result<seq<byte>>>, expected: seq<(FrameHeader, seq<byte>)>)
    requires steps != [] && Answers(steps[0], sent, reply) && AllAnswer(steps[1..], replies, expected)
    ensures AllAnswer(steps, [sent] + replies, [reply] + expected)
  {
    hide Answers;
    forall i | 1 <= i < |steps|
      ensures Answers(steps[i], ([sent] + replies)[i], ([reply] + expected)[i])
    {
      assert Answers(steps[1..][i - 1], replies[i - 1], expected[i - 1]);
    }
  }

  /** In every run the bytes sent are those of the plain map's replies, an error reply standing in for one that does not
      fit the format, and every reply that fits is what the bytes decode to; the steps may belong to any number of
      connections in any order. */
  lemma {:induction false} RunRefinesTable(digest: Digest, d: Disk, t: Table, steps: seq<Step>)
    requires Represents(d, t) && AllSendable(steps)
    ensures var (replies, d') := RunServer(digest, d, steps);
            var (expected, t') := RunTable(digest, d.unwritable, t, steps);
            AllAnswer(steps, replies, expected) && Represents(d', t')
    decreases |steps|
  {
    hide ServeFrame, TableStep, RequestOf, ReplyFor, Represents, Sent, EncodeFrame, Answers, RunServer, RunTable;
    hide AllSendable, AllAnswer;
    if steps == [] {
      EmptyRun(digest, d, t);
    } else {
      var s := steps[0];
      ServerNext(digest, d, steps);
      TableNext(digest, d.unwritable, t, steps);
      FrameReply(digest, d, t, s);
      var (a, t1) := TableStep(d.unwritable, t, RequestOf(digest, s.header, s.payload));
      var (reply, d1) := ServeFrame(digest, d, s.Frame());
      RunRefinesTable(digest, d1, t1, steps[1..]);
      SentAnswers(s, ReplyFor(digest, s.header, a));
      AnswersCons(steps, reply, ReplyFor(digest, s.header, a),
                  RunServer(digest, d1, steps[1..]).0, RunTable(digest, d.unwritable, t1, steps[1..]).0);
    }
  }

  lemma EmptyRun(digest: Digest, d: Disk, t: Table)
    ensures RunServer(digest, d, []) == ([], d) && RunTable(digest, d.unwritable, t, []) == ([], t)
    ensures AllAnswer([], [], [])
  {
  }

  lemma ServerNext(digest: Digest, d: Disk, steps: seq<Step>)
    requires AllSendable(steps) && steps != []
    ensures steps[0].Sendable() && AllSendable(steps[1..])
    ensures var (reply, d') := ServeFrame(digest, d, steps[0].Frame());
            var (replies, d'') := RunServer(digest, d', steps[1..]);
            RunServer(digest, d, steps) == ([reply] + replies, d'')
  {
    hide ServeFrame, EncodeFrame;
    assert steps[0].Sendable();
  }

  lemma TableNext(digest: Digest, unwritable: set<string>, t: Table, steps: seq<Step>)
    requires steps != []
    ensures var s := steps[0];
            var (a, t') := TableStep(unwritable, t, RequestOf(digest, s.header, s.payload));
            var (replies, t'') := RunTable(digest, unwritable, t', steps[1..]);
            RunTable(digest, unwritable, t, steps) == ([ReplyFor(digest, s.header, a)] + replies, t'')
  {
    hide TableStep, RequestOf, ReplyFor;
  }
}
