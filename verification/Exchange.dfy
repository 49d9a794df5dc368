/** Whole connections: request frames in, reply frames out, both cut into arbitrary chunks. */
module Exchange {
  import opened Common
  import opened FrameProtocol
  import opened ByteStream
  import opened ObjectStore
  import opened DataServer
  import opened ServerRuns

  function Frames(steps: seq<Step>): (fs: seq<seq<byte>>)
    requires AllSendable(steps)
    ensures |fs| == |steps|
  {
    if steps == [] then []
    else
      assert steps[0].Sendable();
      [steps[0].Frame()] + Frames(steps[1..])
  }

  predicate AllOk(replies: seq<Result<seq<byte>>>) { forall r :: r in replies ==> r.Ok? }

  function Values(replies: seq<Result<seq<byte>>>): (vs: seq<seq<byte>>)
    requires AllOk(replies)
    ensures |vs| == |replies| && forall i :: 0 <= i < |replies| ==> vs[i] == replies[i].value
  {
    if replies == [] then []
    else
      assert replies[0].Ok?;
      [replies[0].value] + Values(replies[1..])
  }

  /** Serving a connection's frames sends the replies of the run, one after the other. */
  lemma {:induction false} ServeAllIsRun(digest: Digest, d: Disk, steps: seq<Step>)
    requires AllSendable(steps) && AllOk(RunServer(digest, d, steps).0)
    ensures ServeAll(digest, d, Frames(steps))
         == (Flatten(Values(RunServer(digest, d, steps).0)), RunServer(digest, d, steps).1)
    decreases |steps|
  {
    hide ServeFrame, EncodeFrame;
    if steps == [] {
    } else {
      assert steps[0].Sendable();
      var (reply, d') := ServeFrame(digest, d, steps[0].Frame());
      var replies, rest := RunServer(digest, d, steps).0, RunServer(digest, d', steps[1..]).0;
      assert replies == [reply] + rest && reply in replies && replies[1..] == rest;
      assert forall r :: r in rest ==> r in replies;
      ServeAllStep(digest, d, steps[0].Frame(), Frames(steps[1..]));
      ServeAllIsRun(digest, d', steps[1..]);
      assert Values(replies) == [reply.value] + Values(rest);
      assert Values(replies)[1..] == Values(rest);
    }
  }

  lemma SomeFrame() returns (f: seq<byte>)
    ensures IsFrame(f) && [] < f
  {
    f := [0, 0, 0, 0, 0, 0, 0, 0, 0, 0, 0, 0, 0, 0];
  }

  lemma WholeStream(chunks: seq<Chunk>, frames: seq<seq<byte>>)
    requires forall f :: f in frames ==> IsFrame(f)
    requires Bytes(chunks) == Flatten(frames) && PrefixesWhole(chunks, frames)
    ensures ReceiveAll(chunks) == frames
  {
    var cut := SomeFrame();
    assert Flatten(frames) + [] == Flatten(frames);
    Reassembly(chunks, frames, [], cut);
  }

  lemma {:induction false} FramesAreFrames(steps: seq<Step>)
    requires AllSendable(steps)
    ensures forall f :: f in Frames(steps) ==> IsFrame(f)
    decreases |steps|
  {
    hide EncodeFrame;
    if steps != [] {
      var s := steps[0];
      assert s.Sendable();
      EncodedLength(s.header, s.payload, []);
      assert s.Frame() + [] == s.Frame();
      FramesAreFrames(steps[1..]);
    }
  }

  /** The bytes sent for a reply that fits are one whole frame. */
  lemma SentIsFrame(h: FrameHeader, reply: (FrameHeader, seq<byte>))
    requires Pack(reply).Ok?
    ensures Sent(h, reply).Ok? && IsFrame(Sent(h, reply).value)
  {
    hide EncodeFrame;
    EncodedLength(reply.0, reply.1, []);
    assert Pack(reply).value + [] == Pack(reply).value;
  }

  /** All replies of the plain map fit the format. */
  predicate RepliesFit(digest: Digest, unwritable: set<string>, t: Table, steps: seq<Step>) {
    forall reply :: reply in RunTable(digest, unwritable, t, steps).0 ==> Pack(reply).Ok?
  }

  lemma {:induction false} RepliesAreFrames(digest: Digest, d: Disk, t: Table, steps: seq<Step>)
    requires Represents(d, t) && AllSendable(steps) && RepliesFit(digest, d.unwritable, t, steps)
    ensures AllOk(RunServer(digest, d, steps).0)
    ensures forall r :: r in RunServer(digest, d, steps).0 ==> IsFrame(r.value)
    decreases |steps|
  {
    hide ServeFrame, TableStep, RequestOf, ReplyFor, Represents, Pack, Sent, EncodeFrame, IsFrame;
    if steps != [] {
      var s := steps[0];
      assert s.Sendable();
      FrameReply(digest, d, t, s);
      var (a, t1) := TableStep(d.unwritable, t, RequestOf(digest, s.header, s.payload));
      var expected := RunTable(digest, d.unwritable, t, steps).0;
      assert expected[0] in expected;
      SentIsFrame(s.header, expected[0]);
      assert forall x :: x in expected[1..] ==> x in expected;
      RepliesAreFrames(digest, ServeFrame(digest, d, s.Frame()).1, t1, steps[1..]);
    }
  }

  /** When all replies fit, each frame sent decodes to the plain map's reply. */
  lemma RepliesCarry(digest: Digest, d: Disk, t: Table, steps: seq<Step>)
    requires Represents(d, t) && AllSendable(steps) && RepliesFit(digest, d.unwritable, t, steps)
    ensures AllOk(RunServer(digest, d, steps).0) && |RunServer(digest, d, steps).0| == |steps|
    ensures forall i :: 0 <= i < |steps| ==>
              Carries(Ok(Values(RunServer(digest, d, steps).0)[i]), RunTable(digest, d.unwritable, t, steps).0[i])
  {
    hide RunTable, RunServer, Represents, Pack, Carries, AllSendable;
    RepliesAreFrames(digest, d, t, steps);
    RunRefinesTable(digest, d, t, steps);
    var replies, expected := RunServer(digest, d, steps).0, RunTable(digest, d.unwritable, t, steps).0;
    forall i | 0 <= i < |steps|
      ensures Carries(Ok(Values(replies)[i]), expected[i])
    {
      assert replies[i] in replies && expected[i] in expected;
      assert Ok(Values(replies)[i]) == replies[i];
    }
  }

  /** A connection carries any requests, split into chunks anywhere but inside a frame's 14-byte prefix, and the
      client receives what the server sent, split likewise: it gets one frame per request, and each decodes to the
      plain map's reply. */
  lemma {:induction false} ConnectionExchange(digest: Digest, d: Disk, t: Table, steps: seq<Step>,
                                                incoming: seq<Chunk>, outgoing: seq<Chunk>)
    requires Represents(d, t) && AllSendable(steps) && RepliesFit(digest, d.unwritable, t, steps)
    requires Bytes(incoming) == Flatten(Frames(steps)) && PrefixesWhole(incoming, Frames(steps))
    requires Bytes(outgoing) == ServeAll(digest, d, ReceiveAll(incoming)).0
    requires AllOk(RunServer(digest, d, steps).0) && PrefixesWhole(outgoing, Values(RunServer(digest, d, steps).0))
    ensures var received := ReceiveAll(outgoing);
            var expected := RunTable(digest, d.unwritable, t, steps).0;
            && |received| == |steps|
            && forall i :: 0 <= i < |steps| ==> Carries(Ok(received[i]), expected[i])
    ensures Represents(ServeAll(digest, d, ReceiveAll(incoming)).1, RunTable(digest, d.unwritable, t, steps).1)
  {
    hide ServeFrame, RunTable, RunServer, Represents, Pack, EncodeFrame, IsFrame, Carries, ReceiveAll;
    hide ServeAll, PrefixesWhole, Bytes, Flatten, AllSendable;
    FramesAreFrames(steps);
    WholeStream(incoming, Frames(steps));
    ServeAllIsRun(digest, d, steps);
    RepliesAreFrames(digest, d, t, steps);
    var replies := RunServer(digest, d, steps).0;
    forall f | f in Values(replies)
      ensures IsFrame(f)
    {
      var i :| 0 <= i < |replies| && Values(replies)[i] == f;
      assert replies[i] in replies;
    }
    WholeStream(outgoing, Values(replies));
    RunRefinesTable(digest, d, t, steps);
    RepliesCarry(digest, d, t, steps);
  }

  // ---------- Several connections at once ----------

  /** What belongs to connection c, of one thing per step. */
  function OnConnection<T>(steps: seq<Step>, xs: seq<T>, c: nat): seq<T>
    requires |steps| == |xs|
  {
    if steps == [] then []
    else (if steps[0].conn == c then [xs[0]] else []) + OnConnection(steps[1..], xs[1..], c)
  }

  lemma {:induction false} OnConnectionMember<T>(steps: seq<Step>, xs: seq<T>, c: nat, x: T)
    requires |steps| == |xs| && x in OnConnection(steps, xs, c)
    ensures x in xs
  {
    var rest := OnConnection(steps[1..], xs[1..], c);
    if !(steps[0].conn == c && x == xs[0]) {
      assert x in rest;
      OnConnectionMember(steps[1..], xs[1..], c, x);
    }
  }

  lemma {:induction false} OnConnectionCarries(steps: seq<Step>, sent: seq<seq<byte>>,
                                                 expected: seq<(FrameHeader, seq<byte>)>, c: nat)
    requires |steps| == |sent| == |expected| && forall i :: 0 <= i < |steps| ==> Carries(Ok(sent[i]), expected[i])
    ensures var a, b := OnConnection(steps, sent, c), OnConnection(steps, expected, c);
            |a| == |b| && forall i :: 0 <= i < |a| ==> Carries(Ok(a[i]), b[i])
  {
    hide Carries;
    if steps != [] {
      OnConnectionCarries(steps[1..], sent[1..], expected[1..], c);
    }
  }

  /** The server taking turns between connections: at each turn it receives the next frame of the connection whose
      turn it is and serves it. A connection is given up when no frame comes or serving raises. The log holds, for
      every frame served, its connection and the bytes sent back. */
  function ServeTurns(digest: Digest, d: Disk, streams: map<nat, seq<Chunk>>, turns: seq<nat>): (seq<Logged>, Disk)
    decreases |turns|
  {
    if turns == [] then ([], d)
    else
      var c := turns[0];
      var (frame, rest) := NextFrame(if c in streams then streams[c] else []);
      if frame.None? then ServeTurns(digest, d, streams - {c}, turns[1..])
      else
        var (reply, d') := ServeFrame(digest, d, frame.value);
        var (log, d'') := ServeTurns(digest, d', if reply.Ok? then streams[c := rest] else streams - {c}, turns[1..]);
        ([Logged(c, reply)] + log, d'')
  }

  datatype Logged = Logged(conn: nat, reply: Result<seq<byte>>)

  /** The frames sent to connection c. */
  function SentTo(log: seq<Logged>, c: nat): seq<seq<byte>> {
    if log == [] then []
    else (if log[0].conn == c && log[0].reply.Ok? then [log[0].reply.value] else []) + SentTo(log[1..], c)
  }

  function Turns(steps: seq<Step>): seq<nat> { if steps == [] then [] else [steps[0].conn] + Turns(steps[1..]) }

  /** The frames that a connection still brings. */
  function Brought(streams: map<nat, seq<Chunk>>, c: nat): seq<seq<byte>> {
    if c in streams then ReceiveAll(streams[c]) else []
  }

  /** What each connection still brings are the frames of its own remaining requests. */
  ghost predicate Bring(streams: map<nat, seq<Chunk>>, steps: seq<Step>)
    requires AllSendable(steps)
  {
    forall c: nat :: Brought(streams, c) == OnConnection(steps, Frames(steps), c)
  }

  lemma FramesNext(steps: seq<Step>)
    requires AllSendable(steps) && steps != []
    ensures AllSendable(steps[1..]) && Frames(steps)[1..] == Frames(steps[1..])
  {
    hide EncodeFrame;
  }

  lemma OnConnectionNext<T>(steps: seq<Step>, xs: seq<T>, c: nat)
    requires |steps| == |xs| && steps != []
    ensures OnConnection(steps, xs, c)
         == (if steps[0].conn == c then [xs[0]] else []) + OnConnection(steps[1..], xs[1..], c)
  {
  }

  lemma BroughtNext(streams: map<nat, seq<Chunk>>, c: nat)
    requires Brought(streams, c) != []
    ensures c in streams && NextFrame(streams[c]).0 == Some(Brought(streams, c)[0])
    ensures Brought(streams[c := NextFrame(streams[c]).1], c) == Brought(streams, c)[1..]
    ensures forall x: nat :: x != c ==> Brought(streams[c := NextFrame(streams[c]).1], x) == Brought(streams, x)
  {
    hide ReceiveAll, NextFrame;
    ReceiveAllStep(streams[c]);
  }

  lemma BringNext(streams: map<nat, seq<Chunk>>, steps: seq<Step>)
    requires AllSendable(steps) && steps != [] && Bring(streams, steps)
    ensures var c := steps[0].conn;
            && c in streams && NextFrame(streams[c]).0 == Some(Frames(steps)[0])
            && AllSendable(steps[1..]) && Bring(streams[c := NextFrame(streams[c]).1], steps[1..])
  {
    hide Brought, NextFrame, OnConnection, Frames, AllSendable;
    var c, frames := steps[0].conn, Frames(steps);
    OnConnectionNext(steps, frames, c);
    FramesNext(steps);
    BroughtNext(streams, c);
    var after := streams[c := NextFrame(streams[c]).1];
    forall x: nat
      ensures Brought(after, x) == OnConnection(steps[1..], Frames(steps[1..]), x)
    {
      OnConnectionNext(steps, frames, x);
      assert Brought(streams, x) == OnConnection(steps, frames, x);
    }
  }

  /** Taking turns in the order of the steps serves exactly the run of the steps. */
  lemma {:induction false} TurnsAreRun(digest: Digest, d: Disk, streams: map<nat, seq<Chunk>>, steps: seq<Step>)
    requires AllSendable(steps) && Bring(streams, steps) && AllOk(RunServer(digest, d, steps).0)
    ensures var (log, d') := ServeTurns(digest, d, streams, Turns(steps));
            && d' == RunServer(digest, d, steps).1
            && forall c: nat :: SentTo(log, c) == OnConnection(steps, Values(RunServer(digest, d, steps).0), c)
    decreases |steps|
  {
    hide ServeFrame, EncodeFrame, NextFrame, Bring;
    if steps != [] {
      BringNext(streams, steps);
      RunStep(digest, d, steps);
      var c := steps[0].conn;
      var (reply, d') := ServeFrame(digest, d, steps[0].Frame());
      var streams' := streams[c := NextFrame(streams[c]).1];
      TurnsAreRun(digest, d', streams', steps[1..]);
      TurnStep(digest, d, streams, Turns(steps), steps[0].Frame());
      hide ServeTurns, RunServer, AllOk, Values, Turns;
      var replies, rest := RunServer(digest, d, steps).0, RunServer(digest, d', steps[1..]).0;
      var log := ServeTurns(digest, d, streams, Turns(steps)).0;
      var later := ServeTurns(digest, d', streams', Turns(steps[1..])).0;
      forall x: nat
        ensures SentTo(log, x) == OnConnection(steps, Values(replies), x)
      {
        assert SentTo(later, x) == OnConnection(steps[1..], Values(rest), x);
        LogStep(Logged(c, reply), later, steps, Values(replies), x);
      }
    }
  }

  lemma RunStep(digest: Digest, d: Disk, steps: seq<Step>)
    requires AllSendable(steps) && steps != [] && AllOk(RunServer(digest, d, steps).0)
    ensures AllSendable(steps[1..]) && steps[0].Sendable()
    ensures var (reply, d') := ServeFrame(digest, d, steps[0].Frame());
            var (replies, d'') := RunServer(digest, d, steps);
            var (rest, last) := RunServer(digest, d', steps[1..]);
            && reply.Ok? && AllOk(rest) && d'' == last
            && Values(replies)[0] == reply.value && Values(replies)[1..] == Values(rest)
  {
    hide ServeFrame, EncodeFrame, AllSendable, RunServer;
    ServerNext(digest, d, steps);
    var (reply, d') := ServeFrame(digest, d, steps[0].Frame());
    var replies, rest := RunServer(digest, d, steps).0, RunServer(digest, d', steps[1..]).0;
    assert reply in replies && replies[1..] == rest;
    assert forall r :: r in rest ==> r in replies;
  }

  lemma TurnStep(digest: Digest, d: Disk, streams: map<nat, seq<Chunk>>, turns: seq<nat>, frame: seq<byte>)
    requires turns != [] && turns[0] in streams && NextFrame(streams[turns[0]]).0 == Some(frame)
    requires ServeFrame(digest, d, frame).0.Ok?
    ensures var c := turns[0];
            var (reply, d') := ServeFrame(digest, d, frame);
            var (log, last) := ServeTurns(digest, d', streams[c := NextFrame(streams[c]).1], turns[1..]);
            ServeTurns(digest, d, streams, turns) == ([Logged(c, reply)] + log, last)
  {
    hide ServeFrame, NextFrame;
  }

  lemma LogStep(entry: Logged, later: seq<Logged>, steps: seq<Step>, sent: seq<seq<byte>>, x: nat)
    requires steps != [] && |steps| == |sent| && entry.conn == steps[0].conn && entry.reply == Ok(sent[0])
    requires SentTo(later, x) == OnConnection(steps[1..], sent[1..], x)
    ensures SentTo([entry] + later, x) == OnConnection(steps, sent, x)
  {
    var log := [entry] + later;
    assert log[0] == entry && log[1..] == later;
    assert SentTo(log, x) == (if entry.conn == x then [sent[0]] else []) + SentTo(later, x);
  }

  /** Each connection's bytes are the frames of its own requests, split anywhere but inside a prefix. */
  ghost predicate Incoming(streams: map<nat, seq<Chunk>>, steps: seq<Step>)
    requires AllSendable(steps)
  {
    forall c: nat ::
      var own := OnConnection(steps, Frames(steps), c);
      if c in streams then Bytes(streams[c]) == Flatten(own) && PrefixesWhole(streams[c], own) else own == []
  }

  lemma IncomingBring(streams: map<nat, seq<Chunk>>, steps: seq<Step>)
    requires AllSendable(steps) && Incoming(streams, steps)
    ensures Bring(streams, steps)
  {
    hide ReceiveAll, Bytes, Flatten, PrefixesWhole, IsFrame, Frames, OnConnection, AllSendable;
    FramesAreFrames(steps);
    forall c: nat
      ensures Brought(streams, c) == OnConnection(steps, Frames(steps), c)
    {
      var own := OnConnection(steps, Frames(steps), c);
      if c in streams {
        forall f | f in own
          ensures IsFrame(f)
        {
          OnConnectionMember(steps, Frames(steps), c, f);
        }
        WholeStream(streams[c], own);
      } else {
        assert own == [];
      }
    }
  }

  lemma OwnReplies(digest: Digest, d: Disk, t: Table, steps: seq<Step>, c: nat)
    requires Represents(d, t) && AllSendable(steps) && RepliesFit(digest, d.unwritable, t, steps)
    ensures AllOk(RunServer(digest, d, steps).0) && |RunServer(digest, d, steps).0| == |steps|
    ensures var own := OnConnection(steps, Values(RunServer(digest, d, steps).0), c);
            var expected := OnConnection(steps, RunTable(digest, d.unwritable, t, steps).0, c);
            && (forall f :: f in own ==> IsFrame(f))
            && |own| == |expected| && forall i :: 0 <= i < |own| ==> Carries(Ok(own[i]), expected[i])
  {
    hide RunTable, RunServer, Represents, RepliesFit, Carries, AllSendable, OnConnection, IsFrame;
    RepliesAreFrames(digest, d, t, steps);
    RepliesCarry(digest, d, t, steps);
    var replies, expected := RunServer(digest, d, steps).0, RunTable(digest, d.unwritable, t, steps).0;
    var sent := Values(replies);
    OnConnectionCarries(steps, sent, expected, c);
    forall f | f in OnConnection(steps, sent, c)
      ensures IsFrame(f)
    {
      OnConnectionMember(steps, sent, c, f);
      var i :| 0 <= i < |replies| && sent[i] == f;
      assert replies[i] in replies;
    }
  }

  /** The server takes turns between many connections in any order. Through any splitting both ways that keeps
      prefixes whole, each client receives one frame per request of its own, in order, and each decodes to the reply
      that the plain map shared by all connections gives at that point of the run. */
  lemma InterleavedExchange(digest: Digest, d: Disk, t: Table, steps: seq<Step>, streams: map<nat, seq<Chunk>>,
                            c: nat, outgoing: seq<Chunk>)
    requires Represents(d, t) && AllSendable(steps) && RepliesFit(digest, d.unwritable, t, steps)
    requires Incoming(streams, steps)
    requires var own := SentTo(ServeTurns(digest, d, streams, Turns(steps)).0, c);
             Bytes(outgoing) == Flatten(own) && PrefixesWhole(outgoing, own)
    ensures var received := ReceiveAll(outgoing);
            var expected := OnConnection(steps, RunTable(digest, d.unwritable, t, steps).0, c);
            |received| == |expected| && forall i :: 0 <= i < |received| ==> Carries(Ok(received[i]), expected[i])
    ensures Represents(ServeTurns(digest, d, streams, Turns(steps)).1, RunTable(digest, d.unwritable, t, steps).1)
  {
    hide ServeTurns, RunTable, RunServer, Represents, RepliesFit, Carries, Incoming, Bring, ReceiveAll, Bytes;
    hide PrefixesWhole, Flatten, AllSendable, OnConnection, AllOk, IsFrame, SentTo;
    OwnReplies(digest, d, t, steps, c);
    IncomingBring(streams, steps);
    TurnsAreRun(digest, d, streams, steps);
    RunRefinesTable(digest, d, t, steps);
    WholeStream(outgoing, SentTo(ServeTurns(digest, d, streams, Turns(steps)).0, c));
  }
}
