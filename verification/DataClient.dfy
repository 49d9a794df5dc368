/** The client side of a GET or PUT exchange, and what a client gets back from the store. */
module DataClient {
  import opened Common
  import opened FrameProtocol
  import opened ByteStream
  import opened ObjectStore
  import opened DataServer
  import opened ServerRuns
  import Utf8

  function GetHeader(objectId: string, tier: string, requestId: string): FrameHeader {
    FrameHeader(if tier == "critical" then GET_CRITICAL else GET_REFINEMENT, requestId, objectId, tier, "", 0, "", 0)
  }

  function PutHeader(digest: Digest, objectId: string, data: seq<byte>, tier: string, codec: string, requestId: string)
    : FrameHeader
  {
    FrameHeader(if tier == "critical" then PUT_CRITICAL else PUT_REFINEMENT, requestId, objectId, tier, codec,
                |data|, digest(data), 0)
  }

  /** What a GET returns for a received frame: nothing on a lost, unreadable, error or corrupted reply. */
  function GetResult(digest: Digest, response: Option<seq<byte>>): Option<seq<byte>> {
    if response.None? then None
    else match DecodeFrame(response.value)
      case Err(_) => None
      case Ok((h, payload)) =>
        if h.op == ERROR then None
        else if h.checksum != "" && digest(payload) != h.checksum then None
        else Some(payload)
  }

  function PutResult(response: Option<seq<byte>>): bool {
    response.Some? && DecodeFrame(response.value).Ok? && DecodeFrame(response.value).value.0.op != ERROR
  }

  lemma ClientHeaders(digest: Digest, id: string, data: seq<byte>, tier: string, codec: string, requestId: string)
    ensures GetHeader(id, tier, requestId)
         == FrameHeader(if tier == "critical" then "GET_CRITICAL" else "GET_REFINEMENT", requestId, id, tier, "",
                        0, "", 0)
    ensures PutHeader(digest, id, data, tier, codec, requestId)
         == FrameHeader(if tier == "critical" then "PUT_CRITICAL" else "PUT_REFINEMENT", requestId, id, tier, codec,
                        |data|, digest(data), 0)
  {
  }

  /** A client takes the payload of a readable frame that is no error and whose checksum, if it has one, is right; it
      takes nothing else, and reports a PUT as done exactly for a readable frame that is no error. */
  lemma ResultsIff(digest: Digest, response: Option<seq<byte>>, data: seq<byte>)
    ensures GetResult(digest, response) == Some(data) <==>
      && response.Some? && DecodeFrame(response.value).Ok?
      && var (h, payload) := DecodeFrame(response.value).value;
      payload == data && h.op != "ERROR" && (h.checksum == "" || h.checksum == digest(data))
    ensures PutResult(response) <==>
      response.Some? && DecodeFrame(response.value).Ok? && DecodeFrame(response.value).value.0.op != "ERROR"
  {
    hide DecodeFrame;
  }

  class DataClient {
    const digest: Digest

    constructor (digest: Digest)
      ensures this.digest == digest
    {
      this.digest := digest;
    }

    /** One GET over a fresh connection whose incoming chunks are the server's answer. */
    method Get(conn: Connection, objectId: string, tier: string, requestId: string) returns (data: Option<seq<byte>>)
      modifies conn
      ensures var op := if tier == "critical" then "GET_CRITICAL" else "GET_REFINEMENT";
              var frame := EncodeFrame(FrameHeader(op, requestId, objectId, tier, "", 0, "", 0), []);
              if frame.Err? then data == None && conn.sent == old(conn.sent)
              else && conn.sent == old(conn.sent) + frame.value
                   && data == GetResult(digest, NextFrame(old(conn.incoming)).0)
    {
      ClientHeaders(digest, objectId, [], tier, "", requestId);
      hide DecodeFrame, NextFrame, EncodeFrame, GetHeader;
      var frame := EncodeFrame(GetHeader(objectId, tier, requestId), []);
      if frame.Err? { return None; }
      conn.SendAll(frame.value);
      var response := conn.RecvFrame();
      if response.None? { return None; }
      var decoded := DecodeFrame(response.value);
      if decoded.Err? { return None; }
      var (h, payload) := decoded.value;
      if h.op == ERROR { return None; }
      if h.checksum != "" && digest(payload) != h.checksum { return None; }
      data := Some(payload);
    }

    /** One PUT over a fresh connection. */
    method Put(conn: Connection, objectId: string, data: seq<byte>, tier: string, codec: string, requestId: string)
      returns (ok: bool)
      modifies conn
      ensures var op := if tier == "critical" then "PUT_CRITICAL" else "PUT_REFINEMENT";
              var h := FrameHeader(op, requestId, objectId, tier, codec, |data|, digest(data), 0);
              var frame := EncodeFrame(h, data);
              if frame.Err? then !ok && conn.sent == old(conn.sent)
              else conn.sent == old(conn.sent) + frame.value && ok == PutResult(NextFrame(old(conn.incoming)).0)
    {
      ClientHeaders(digest, objectId, data, tier, codec, requestId);
      hide DecodeFrame, NextFrame, EncodeFrame, PutHeader;
      var frame := EncodeFrame(PutHeader(digest, objectId, data, tier, codec, requestId), data);
      if frame.Err? { return false; }
      conn.SendAll(frame.value);
      var response := conn.RecvFrame();
      if response.None? { return false; }
      var decoded := DecodeFrame(response.value);
      if decoded.Err? { return false; }
      ok := decoded.value.0.op != ERROR;
    }
  }

  // ---------- What is put is what is got ----------

  /** A request that can change the object stored under (tier, id). */
  predicate Overwrites(q: Request, tier: Tier, id: string) {
    match q
    case Put(t, i, _, sumOk) => t == tier && i == id && sumOk
    case Delete(i) => i == id
    case _ => false
  }

  lemma {:induction false} RunTableAppend(digest: Digest, unwritable: set<string>, t: Table, a: seq<Step>, b: seq<Step>)
    ensures var (first, t') := RunTable(digest, unwritable, t, a);
            var (second, t'') := RunTable(digest, unwritable, t', b);
            RunTable(digest, unwritable, t, a + b) == (first + second, t'')
    decreases |a|
  {
    hide TableStep, RequestOf, ReplyFor;
    if a == [] {
      assert a + b == b;
      var second := RunTable(digest, unwritable, t, b).0;
      assert [] + second == second;
    } else {
      assert (a + b)[0] == a[0] && (a + b)[1..] == a[1..] + b;
      var (answer, t1) := TableStep(unwritable, t, RequestOf(digest, a[0].header, a[0].payload));
      RunTableAppend(digest, unwritable, t1, a[1..], b);
      var (first, t2) := RunTable(digest, unwritable, t1, a[1..]);
      Concat3([ReplyFor(digest, a[0].header, answer)], first, RunTable(digest, unwritable, t2, b).0);
    }
  }

  lemma {:induction false} ObjectKept(digest: Digest, unwritable: set<string>, t: Table, steps: seq<Step>,
                                          tier: Tier, id: string)
    requires (tier, id) in t
    requires forall s :: s in steps ==> !Overwrites(RequestOf(digest, s.header, s.payload), tier, id)
    ensures var t' := RunTable(digest, unwritable, t, steps).1; (tier, id) in t' && t'[(tier, id)] == t[(tier, id)]
    decreases |steps|
  {
    hide RequestOf, ReplyFor;
    if steps != [] {
      assert steps[0] in steps;
      ObjectKept(digest, unwritable, TableStep(unwritable, t, RequestOf(digest, steps[0].header, steps[0].payload)).1,
                 steps[1..], tier, id);
    }
  }

  lemma ClientRequests(digest: Digest, id: string, data: seq<byte>, tier: Tier, codec: string, requestId: string)
    ensures RequestOf(digest, PutHeader(digest, id, data, TierName(tier), codec, requestId), data)
         == Put(tier, id, data, true)
    ensures RequestOf(digest, GetHeader(id, TierName(tier), requestId), []) == Get(tier, id)
  {
  }

  lemma RunTableOne(digest: Digest, unwritable: set<string>, t: Table, s: Step)
    ensures var (a, t') := TableStep(unwritable, t, RequestOf(digest, s.header, s.payload));
            RunTable(digest, unwritable, t, [s]) == ([ReplyFor(digest, s.header, a)], t')
  {
    hide TableStep, RequestOf, ReplyFor;
    assert [s][1..] == [];
    var reply := ReplyFor(digest, s.header, TableStep(unwritable, t, RequestOf(digest, s.header, s.payload)).0);
    assert [reply] + [] == [reply];
  }

  lemma ReadFound(digest: Digest, h: FrameHeader, tier: Tier, data: seq<byte>, sent: Result<seq<byte>>)
    requires Carries(sent, ReplyFor(digest, h, Found(tier, data)))
    ensures sent.Ok? && GetResult(digest, Some(sent.value)) == Some(data)
  {
    hide DecodeFrame, TierName;
    assert RESPONSE != ERROR by { assert |RESPONSE| != |ERROR|; }
  }

  lemma ReadStored(digest: Digest, h: FrameHeader, tier: Tier, sent: Result<seq<byte>>)
    requires Carries(sent, ReplyFor(digest, h, Stored(tier)))
    ensures sent.Ok? && PutResult(Some(sent.value))
  {
    hide DecodeFrame, TierName;
    assert RESPONSE != ERROR by { assert |RESPONSE| != |ERROR|; }
  }

  /** An error reply is read as a miss by a GET and as a failure by a PUT. */
  lemma ReadError(digest: Digest, h: FrameHeader, a: Answer, sent: Result<seq<byte>>)
    requires a in {Missing, BadSum, Refused} || a.UnknownOp?
    requires Carries(sent, ReplyFor(digest, h, a))
    ensures sent.Ok? && GetResult(digest, Some(sent.value)) == None && !PutResult(Some(sent.value))
  {
    hide DecodeFrame, Utf8.Encode;
  }

  /** A client that stores an object and later fetches it gets the same bytes back, whatever other requests of any
      connections run in between, unless one of them deletes the id or replaces the object. */
  lemma {:induction false} PutThenGet(digest: Digest, d: Disk, t: Table, put: Step, between: seq<Step>, get: Step,
                   id: string, data: seq<byte>, tier: Tier, codec: string, putId: string, getId: string)
    requires Represents(d, t) && id !in d.unwritable
    requires put.header == PutHeader(digest, id, data, TierName(tier), codec, putId) && put.payload == data
    requires get.header == GetHeader(id, TierName(tier), getId) && get.payload == []
    requires AllSendable([put] + between + [get])
    requires forall s :: s in between ==> !Overwrites(RequestOf(digest, s.header, s.payload), tier, id)
    requires Pack(ReplyFor(digest, put.header, Stored(tier))).Ok?
    requires Pack(ReplyFor(digest, get.header, Found(tier, data))).Ok?
    ensures var replies := RunServer(digest, d, [put] + between + [get]).0;
            && |replies| == |between| + 2
            && replies[0].Ok? && PutResult(Some(replies[0].value))
            && replies[|between| + 1].Ok? && GetResult(digest, Some(replies[|between| + 1].value)) == Some(data)
  {
    hide RequestOf, ReplyFor, PutHeader, GetHeader, Pack, Carries, PutResult, GetResult, Represents;
    hide RunServer, RunTable, EncodeFrame, Overwrites, AllSendable, TableStep, Sent;
    var steps := [put] + between + [get];
    RunRefinesTable(digest, d, t, steps);
    ExpectedReplies(digest, d.unwritable, t, put, between, get, id, data, tier, codec, putId, getId);
    var replies := RunServer(digest, d, steps).0;
    ReadStored(digest, put.header, tier, replies[0]);
    ReadFound(digest, get.header, tier, data, replies[|between| + 1]);
  }

  /** What the plain map answers to the PUT and to the GET. */
  lemma ExpectedReplies(digest: Digest, unwritable: set<string>, t: Table, put: Step, between: seq<Step>, get: Step,
                        id: string, data: seq<byte>, tier: Tier, codec: string, putId: string, getId: string)
    requires id !in unwritable
    requires put.header == PutHeader(digest, id, data, TierName(tier), codec, putId) && put.payload == data
    requires get.header == GetHeader(id, TierName(tier), getId) && get.payload == []
    requires forall s :: s in between ==> !Overwrites(RequestOf(digest, s.header, s.payload), tier, id)
    ensures var expected := RunTable(digest, unwritable, t, [put] + between + [get]).0;
            && expected[0] == ReplyFor(digest, put.header, Stored(tier))
            && expected[|between| + 1] == ReplyFor(digest, get.header, Found(tier, data))
  {
    hide RequestOf, ReplyFor, PutHeader, GetHeader, RunTable, Overwrites;
    ClientRequests(digest, id, data, tier, codec, putId);
    ClientRequests(digest, id, data, tier, codec, getId);
    var t1 := t[(tier, id) := data];
    var (middle, t2) := RunTable(digest, unwritable, t1, between);
    ObjectKept(digest, unwritable, t1, between, tier, id);
    RunTableOne(digest, unwritable, t, put);
    RunTableOne(digest, unwritable, t2, get);
    RunTableAppend(digest, unwritable, t, [put], between);
    RunTableAppend(digest, unwritable, t, [put] + between, [get]);
  }

  // ---------- What is deleted is gone ----------

  /** A request that stores an object under (tier, id). */
  predicate Stores(q: Request, tier: Tier, id: string) { q.Put? && q.tier == tier && q.id == id && q.sumOk }

  lemma {:induction false} StaysAbsent(digest: Digest, unwritable: set<string>, t: Table, steps: seq<Step>,
                                       tier: Tier, id: string)
    requires (tier, id) !in t
    requires forall s :: s in steps ==> !Stores(RequestOf(digest, s.header, s.payload), tier, id)
    ensures (tier, id) !in RunTable(digest, unwritable, t, steps).1
    decreases |steps|
  {
    hide RequestOf, ReplyFor;
    if steps != [] {
      assert steps[0] in steps;
      StaysAbsent(digest, unwritable, TableStep(unwritable, t, RequestOf(digest, steps[0].header, steps[0].payload)).1,
                  steps[1..], tier, id);
    }
  }

  /** After a DELETE frame a client's GET of that id misses in either tier, whatever other requests of any connections
      run in between, unless one of them stores the object again. */
  lemma {:induction false} DeleteThenGet(digest: Digest, d: Disk, t: Table, delete: Step, between: seq<Step>, get: Step,
                                         id: string, tier: Tier, getId: string)
    requires Represents(d, t) && delete.header.op == "DELETE" && delete.header.objectId == id
    requires get.header == GetHeader(id, TierName(tier), getId) && get.payload == []
    requires AllSendable([delete] + between + [get])
    requires forall s :: s in between ==> !Stores(RequestOf(digest, s.header, s.payload), tier, id)
    requires Pack(ReplyFor(digest, get.header, Missing)).Ok?
    ensures var replies := RunServer(digest, d, [delete] + between + [get]).0;
            && |replies| == |between| + 2
            && replies[|between| + 1].Ok? && GetResult(digest, Some(replies[|between| + 1].value)) == None
  {
    hide RequestOf, ReplyFor, GetHeader, Pack, Carries, PutResult, GetResult, Represents, RunServer, RunTable;
    hide EncodeFrame, Stores, AllSendable, Sent;
    var steps := [delete] + between + [get];
    RunRefinesTable(digest, d, t, steps);
    ExpectedMiss(digest, d.unwritable, t, delete, between, get, id, tier, getId);
    var replies := RunServer(digest, d, steps).0;
    ReadError(digest, get.header, Missing, replies[|between| + 1]);
  }

  lemma ExpectedMiss(digest: Digest, unwritable: set<string>, t: Table, delete: Step, between: seq<Step>, get: Step,
                     id: string, tier: Tier, getId: string)
    requires delete.header.op == "DELETE" && delete.header.objectId == id
    requires get.header == GetHeader(id, TierName(tier), getId) && get.payload == []
    requires forall s :: s in between ==> !Stores(RequestOf(digest, s.header, s.payload), tier, id)
    ensures RunTable(digest, unwritable, t, [delete] + between + [get]).0[|between| + 1]
         == ReplyFor(digest, get.header, Missing)
  {
    hide RequestOf, ReplyFor, GetHeader, RunTable, Stores;
    Meaning(digest, delete.header, delete.payload);
    ClientRequests(digest, id, [], tier, "", getId);
    var t1 := t - {(Critical, id), (Refinement, id)};
    var t2 := RunTable(digest, unwritable, t1, between).1;
    StaysAbsent(digest, unwritable, t1, between, tier, id);
    RunTableOne(digest, unwritable, t, delete);
    RunTableOne(digest, unwritable, t2, get);
    RunTableAppend(digest, unwritable, t, [delete], between);
    RunTableAppend(digest, unwritable, t, [delete] + between, [get]);
  }
}
