/**
 * A connection as a stream of bytes delivered in arbitrary non-empty chunks, and the receive loop
 * that both the server and the client use to reassemble one frame.
 */
module ByteStream {
  import opened Common
  import opened FrameProtocol

  type Chunk = s: seq<byte> | s != [] witness [0]

  const RECV_LIMIT := 4096

  // ---------- Chunk lists ----------

  function Bytes(chunks: seq<Chunk>): (r: seq<byte>)
    ensures chunks != [] ==> r != [] && chunks[0] <= r
    ensures chunks == [] ==> r == []
  {
    if chunks == [] then [] else chunks[0] + Bytes(chunks[1..])
  }

  /** The stream after its first n bytes, chunk boundaries kept. */
  function Drop(chunks: seq<Chunk>, n: nat): (r: seq<Chunk>)
    ensures n <= |Bytes(chunks)| ==> Bytes(r) == Bytes(chunks)[n..]
    ensures n >= |Bytes(chunks)| ==> r == []
  {
    if n == 0 || chunks == [] then chunks
    else if |chunks[0]| <= n then
      assert n <= |Bytes(chunks)| ==> Bytes(chunks)[n..] == Bytes(chunks[1..])[n - |chunks[0]|..];
      Drop(chunks[1..], n - |chunks[0]|)
    else
      assert Bytes(chunks)[n..] == chunks[0][n..] + Bytes(chunks[1..]);
      [chunks[0][n..]] + chunks[1..]
  }

  lemma {:induction false} DropDrop(chunks: seq<Chunk>, m: nat, n: nat)
    ensures Drop(Drop(chunks, m), n) == Drop(chunks, m + n)
  {
    if m == 0 || chunks == [] {
    } else if |chunks[0]| <= m {
      DropDrop(chunks[1..], m - |chunks[0]|, n);
    } else if n > 0 {
      var head, tail := chunks[0], chunks[1..];
      assert ([head[m..]] + tail)[1..] == tail;
      if |head| > m + n {
        assert head[m..][n..] == head[m + n..];
      }
    }
  }

  lemma ExtendPrefix(a: seq<byte>, b: seq<byte>, whole: seq<byte>)
    requires a <= whole && b <= whole[|a|..]
    ensures a + b <= whole
    ensures whole[|a|..] == [] ==> a == whole
  {
    assert whole == a + whole[|a|..];
  }

  // ---------- One frame ----------

  function FirstLength(chunks: seq<Chunk>): nat { if chunks == [] then 0 else |chunks[0]| }

  /** What one receive call yields: nothing when the first recv falls short of the prefix or the stream
      ends inside the frame, and otherwise exactly the bytes the prefix announces. */
  function NextFrame(chunks: seq<Chunk>): (r: (Option<seq<byte>>, seq<Chunk>))
    ensures r.0.Some? ==> |r.0.value| >= PREFIX_LENGTH && Bytes(chunks) == r.0.value + Bytes(r.1)
  {
    if FirstLength(chunks) < PREFIX_LENGTH then (None, Drop(chunks, FirstLength(chunks)))
    else
      var n := FrameLength(Bytes(chunks));
      if |Bytes(chunks)| < n then (None, [])
      else (Some(Bytes(chunks)[..n]), Drop(chunks, n))
  }

  lemma PrefixAgrees(f: seq<byte>, s: seq<byte>)
    requires |f| >= PREFIX_LENGTH && f <= s
    ensures FrameLength(s) == FrameLength(f)
  {
    assert s[6..10] == f[6..10] && s[10..14] == f[10..14];
  }

  lemma FrameArrived(chunks: seq<Chunk>, data: seq<byte>)
    requires FirstLength(chunks) >= PREFIX_LENGTH && data <= Bytes(chunks)
    requires |data| == FrameLength(Bytes(chunks))
    ensures NextFrame(chunks) == (Some(data), Drop(chunks, |data|))
  {
    assert data == Bytes(chunks)[..|data|];
  }

  class Connection {
    var incoming: seq<Chunk>
    var sent: seq<byte>

    constructor (chunks: seq<Chunk>)
      ensures incoming == chunks && sent == []
    {
      incoming, sent := chunks, [];
    }

    /** socket.recv: at most n bytes of the next chunk; empty once the peer has closed. */
    method Recv(n: nat) returns (data: seq<byte>)
      requires n > 0
      modifies this`incoming
      ensures data <= Bytes(old(incoming)) && |data| <= n
      ensures |data| == if FirstLength(old(incoming)) <= n then FirstLength(old(incoming)) else n
      ensures incoming == Drop(old(incoming), |data|)
    {
      if incoming == [] { return []; }
      var head := incoming[0];
      if |head| <= n {
        data, incoming := head, incoming[1..];
      } else {
        data, incoming := head[..n], [head[n..]] + incoming[1..];
      }
    }

    method SendAll(data: seq<byte>)
      modifies this`sent
      ensures sent == old(sent) + data
    {
      sent := sent + data;
    }

    method RecvFrame() returns (frame: Option<seq<byte>>)
      modifies this`incoming
      ensures (frame, incoming) == NextFrame(old(incoming))
    {
      ghost var start := incoming;
      ghost var whole := Bytes(start);
      var data := Recv(PREFIX_LENGTH);
      if |data| < PREFIX_LENGTH {
        return None;
      }
      var total := PREFIX_LENGTH + HeaderLength(data) + PayloadLength(data);
      PrefixAgrees(data, whole);
      while |data| < total
        invariant |data| <= total && data <= whole
        invariant incoming == Drop(start, |data|)
        decreases total - |data|
      {
        var rest := total - |data|;
        var chunk := Recv(if rest < RECV_LIMIT then rest else RECV_LIMIT);
        DropDrop(start, |data|, |chunk|);
        ExtendPrefix(data, chunk, whole);
        if |chunk| == 0 {
          return None;
        }
        data := data + chunk;
      }
      FrameArrived(start, data);
      frame := Some(data);
    }
  }

  // ---------- Many frames ----------

  /** The frames that repeated receive calls return, up to the first None. */
  function ReceiveAll(chunks: seq<Chunk>): seq<seq<byte>>
    decreases |Bytes(chunks)|
  {
    var (frame, rest) := NextFrame(chunks);
    if frame.None? then [] else [frame.value] + ReceiveAll(rest)
  }

  lemma ReceiveAllStep(chunks: seq<Chunk>)
    ensures var (frame, rest) := NextFrame(chunks);
            if frame.None? then ReceiveAll(chunks) == []
            else ReceiveAll(chunks) == [frame.value] + ReceiveAll(rest) && |Bytes(rest)| < |Bytes(chunks)|
  {
    hide Drop;
  }

  /** Each frame's 14-byte prefix lies inside one chunk. */
  predicate PrefixesWhole(chunks: seq<Chunk>, frames: seq<seq<byte>>)
    decreases |frames|
  {
    frames != [] ==>
      FirstLength(chunks) >= PREFIX_LENGTH && PrefixesWhole(Drop(chunks, |frames[0]|), frames[1..])
  }

  predicate IsFrame(f: seq<byte>) { |f| >= PREFIX_LENGTH && FrameLength(f) == |f| }

  /** The next receive returns the next frame exactly when that frame's prefix arrives in one piece. */
  lemma NextFrameIff(chunks: seq<Chunk>, f: seq<byte>, rest: seq<byte>)
    requires IsFrame(f) && Bytes(chunks) == f + rest
    ensures NextFrame(chunks).0 == Some(f) <==> FirstLength(chunks) >= PREFIX_LENGTH
    ensures FirstLength(chunks) >= PREFIX_LENGTH ==> NextFrame(chunks).1 == Drop(chunks, |f|)
  {
    PrefixAgrees(f, Bytes(chunks));
  }

  /** A stream that ends inside a frame yields nothing for it, however it is split. */
  lemma TruncatedFrame(chunks: seq<Chunk>, f: seq<byte>)
    requires IsFrame(f) && Bytes(chunks) < f
    ensures NextFrame(chunks).0 == None
  {
    if FirstLength(chunks) >= PREFIX_LENGTH {
      PrefixAgrees(Bytes(chunks), f);
    }
  }

  /** Frames sent back to back, then a tail that is cut off before its frame ends, come back as exactly those
      frames, in order, if and only if every 14-byte prefix arrives whole. */
  lemma {:induction false} Reassembly(chunks: seq<Chunk>, frames: seq<seq<byte>>, tail: seq<byte>, cut: seq<byte>)
    requires forall f :: f in frames ==> IsFrame(f)
    requires Bytes(chunks) == Flatten(frames) + tail
    requires IsFrame(cut) && tail < cut
    ensures ReceiveAll(chunks) == frames <==> PrefixesWhole(chunks, frames)
    decreases |frames|
  {
    if frames == [] {
      assert Bytes(chunks) == tail;
      TruncatedFrame(chunks, cut);
    } else {
      var f, rest := frames[0], Flatten(frames[1..]) + tail;
      Concat3(f, Flatten(frames[1..]), tail);
      NextFrameIff(chunks, f, rest);
      assert frames == [f] + frames[1..];
      if FirstLength(chunks) >= PREFIX_LENGTH {
        assert Bytes(Drop(chunks, |f|)) == (f + rest)[|f|..] == rest;
        Reassembly(Drop(chunks, |f|), frames[1..], tail, cut);
        var more := ReceiveAll(NextFrame(chunks).1);
        assert ReceiveAll(chunks) == [f] + more;
        assert ReceiveAll(chunks)[1..] == more;
      } else {
        assert ReceiveAll(chunks) == [];
      }
    }
  }
}
