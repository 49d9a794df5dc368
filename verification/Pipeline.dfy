/** The whole path of a prefix: layers collected by a session, saved, stored, fetched and decoded. */
module Pipeline {
  import opened Common
  import opened Int8Codec
  import opened KvObject
  import opened ObjectStore
  import opened DataServer
  import opened ServerRuns
  import opened DataClient
  import SS = SaveSession

  function Tensors(layers: seq<SS.Layer>): (ts: seq<Tensor>)
    ensures |ts| == |layers| && forall i :: 0 <= i < |layers| ==> ts[i] == layers[i].tensor
  {
    seq(|layers|, i requires 0 <= i < |layers| => layers[i].tensor)
  }

  /** Numbered layers of one size may reach a session in any order and more than once. When all indices are present, the
      object that is saved, stored by a client's PUT, and fetched by a later GET past any requests that leave it alone,
      decodes to the first arrival of each index, in order, up to half a quantisation step per element (and what storing
      the steps in four bytes changes). */
  lemma {:induction false} SavedPrefixIsLoaded(
    f: FloatFormat, h: ObjectHeader, session: SS.Session, ops: seq<SS.Op>,
    digest: Digest, d: Disk, t: Table, put: Step, between: seq<Step>, get: Step,
    id: string, tier: Tier, codec: string, putId: string, getId: string, expectedLayers: int)
    requires session.layers == map[] && !session.completed && !session.aborted && session.numLayers > 0
    requires SS.OnlyNumberedAdds(ops) && SS.AllPresent(ops, session.numLayers)
    requires f.Valid() && h.formatVersion >= 1 && Serializable(h.(numLayers := session.numLayers))
    requires var layers := Tensors(SS.AllLayers(SS.Run(session, ops)));
             && NonEmptyLayers(layers) && SameLength(layers)
             && var data := SavedObject(f, h, layers);
             && data.Ok? && put.header == PutHeader(digest, id, data.value, TierName(tier), codec, putId)
             && put.payload == data.value && Pack(ReplyFor(digest, get.header, Found(tier, data.value))).Ok?
    requires get.header == GetHeader(id, TierName(tier), getId) && get.payload == []
    requires Represents(d, t) && id !in d.unwritable && AllSendable([put] + between + [get])
    requires forall s :: s in between ==> !Overwrites(RequestOf(digest, s.header, s.payload), tier, id)
    requires Pack(ReplyFor(digest, put.header, Stored(tier))).Ok?
    ensures var replies := RunServer(digest, d, [put] + between + [get]).0;
            && |replies| == |between| + 2 && replies[|between| + 1].Ok?
            && var fetched := GetResult(digest, Some(replies[|between| + 1].value));
            && fetched.Some?
            && var loaded := Loaded(f, fetched.value, expectedLayers);
            && loaded.Ok? && loaded.value.0 == Some(h.(numLayers := session.numLayers))
            && |loaded.value.1| == session.numLayers
            && forall k: nat :: k < session.numLayers ==>
                 && SS.First(ops, k).Some?
                 && var original := SS.First(ops, k).value.tensor;
                 && |loaded.value.1[k]| == |original|
                 && forall j :: 0 <= j < |original| ==>
                      Abs(original[j] - loaded.value.1[k][j])
                      <= 0.5 * Scale(original) + 127.0 * Abs(Scale(original) - f.Stored(Scale(original)))
  {
    hide SS.Run, SS.First, SS.AllLayers, SS.OnlyNumberedAdds, SavedObject, Loaded, Abs, Scale, FloatFormat.Stored,
         RunServer, GetResult, PutResult, Represents, Pack, ReplyFor, RequestOf, Overwrites, PutHeader,
         GetHeader, TierName, Serializable;
    var all := SS.AllLayers(SS.Run(session, ops));
    var layers := Tensors(all);
    SS.CompleteLayers(session, ops);
    PutThenGet(digest, d, t, put, between, get, id, SavedObject(f, h, layers).value, tier, codec, putId, getId);
    SaveLoad(f, h, layers, expectedLayers);
    forall k: nat | k < session.numLayers
      ensures SS.First(ops, k) == Some(all[k]) && layers[k] == all[k].tensor
    {
      assert Some(all[k]) == SS.First(ops, k);
    }
  }
}
