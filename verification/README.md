# A verified model of the deadline-aware remote KV cache

The repository saves the key/value rows of a prompt prefix to a remote store and, before a later request with the
same prefix runs, decides whether fetching them beats recomputing them. This project models that path in Dafny and
proves what it is for:

* **Prefix objects** (`SaveSession`, `Int8Codec`, `KvObject`, `PagedKv`, `Pipeline`): layers collected in any order,
  quantised, laid out behind a 128-byte header, sliced, decoded and written into a paged buffer.
* **Wire and store** (`JsonText`, `Utf8`, `FrameProtocol`, `ByteStream`, `ObjectStore`, `DataServer`, `DataClient`,
  `ServerRuns`, `Exchange`): frames printed and parsed, reassembled from arbitrary chunks, served from two directories,
  and seen by clients as one plain map.
* **Caches and indexes** (`LruPolicy`, `HostCache`, `HostCacheRuns`, `MemoryIndex`).
* **Planning** (`Planner`): a moving-average estimator and the deadline planner over it.
* **Request lifecycle** (`Scheduler`, `Connector`, `ConnectorRuns`): many requests' calls in any interleaving.

Code that changes state is a class or an in-place method proved equal to a function on values; what the program promises
is proved about those functions over all inputs and all runs. What comes from outside (a fetched blob, a manifest
answer, the clock, SHA-256, the four-byte form of a scale, the chunks a socket delivers) is a parameter.

Where the pieces of the program do not fit together the model takes the intent: the object header has the fields that the
saver writes and the loader reads, `object_format_version` is an integer, and a transfer mode is the plan's mode. The
protocol document lists tiers "T1 | T2" in frame headers; the code sends "critical" and "refinement", and so does the model.
The planner's `critical_deadline_ms` and the other float-to-int conversions truncate toward zero.

## What fails, and exactly when it holds

* A receive returns the next frame only if its 14-byte prefix arrives in one piece; frames come back as sent if and
  only if all prefixes do (`ByteStream.NextFrameIff`, `ByteStream.Reassembly`).
* A saved object gives back its layers' sizes if and only if all layers are equally large
  (`KvObject.SlicesAreBlobs`, `KvObject.ElementCounts`).
* The loader's and the worker's slices agree if and only if the layer count divides the length
  (`KvObject.SlicingCompared`).
* Given a row for every slot, slot extraction after slot injection returns the rows, whatever the contents, if and only if
  all slots are inside the buffer (neither negative nor past the end), none is repeated, and at least as many tokens are
  asked for (`PagedKv.InjectExtractSlotsIff`, `PagedKv.SlotPastTheEnd`); for blocks likewise, without the tokens
  (`PagedKv.InjectExtractBlocksIff`).
* The block loops of the loader, `gpu_apply` and injection agree on all contents if and only if, for the given ids, row
  count and buffer size, they put the same row last into each place; ids outside the buffer at the end of the list do no
  harm (`PagedKv.LoopsAgreeIff`, `PagedKv.OutsideLast`, `PagedKv.LoopsDiffer`).
* Refinement erases critical rows on all contents if and only if it has a row for every block they reach
  (`PagedKv.RefinementOverwritesIff`).
* A save session's count test means that every index is stored, whatever the names and wherever it is closed, if no name
  ends in a negative number; every such name breaks it in every newly opened session (`SaveSession.CompleteIffAllPresent`,
  `SaveSession.NegativeIndexCounts`).
* With all weight on the newest sample a transfer of no bytes makes the bandwidth estimate zero and the planner raise; the
  estimate is positive exactly otherwise (`Planner.BandwidthPositive`, `Scheduler.PlannerFailsIff`).
* A planner that raises leaves the request marked as planned with whatever plan it held before. With none it gets no
  metadata; with one, left by an earlier match, it is served that plan with the new manifest. Planned requests stay sound
  if and only if at each match no lookup is made, or the planner does not raise, or the plan left over fits
  (`Scheduler.FailedPlannerLeavesHit`, `ConnectorRuns.StalePlanServed`, `Scheduler.PreparedPlanned`,
  `ConnectorRuns.PlannedThroughout`).

## Model

Members without a row are helpers, some of them direct consequences of a definition.

| member | source | states |
|---|---|---|
| Utf8.RoundTrip | src/dakv/transport/protocol.py:34 | encoding any text as UTF-8 and strictly decoding it gives the text back |
| JsonText.ParseEscaped | src/dakv/transport/protocol.py:34 | every character, printed plainly, as a short escape, as \u or as a surrogate pair, is read back as itself, whatever follows |
| JsonText.ParseQuoted | src/dakv/transport/protocol.py:68 | a printed string literal parses to the string and stops right after its closing quote |
| JsonText.LoadsDumps | src/dakv/transport/protocol.py:34 | json.loads of json.dumps of a flat object returns its members in order |
| JsonText.DumpsPlain | src/dakv/transport/protocol.py:34 | printed text is printable ASCII throughout |
| JsonText.OtherEscapes | src/dakv/transport/protocol.py:68 | an escaped slash and capital hexadecimal digits are read as well |
| JsonText.StrictForms | src/dakv/transport/protocol.py:68 | an unescaped control character is rejected, and a number starting with zero is zero |
| JsonText.SpaceSkipped | src/dakv/transport/protocol.py:68 | tabs, line ends and spaces between tokens are skipped, and nothing else |
| FrameProtocol.EncodeFrame | src/dakv/transport/protocol.py:22-45 | a frame can be built exactly when header text and payload are each shorter than 2^32 bytes |
| FrameProtocol.HeaderText | src/dakv/transport/protocol.py:23-34 | the header is one JSON object of seven members in this order, all printable ASCII; the payload length is not among them |
| FrameProtocol.FrameLayout | docs/PROTOCOL.md:7-22 | a frame is four magic bytes, version 1, the big-endian lengths of header and payload, in this order, and then header and payload |
| FrameProtocol.DecodeEncoded | src/dakv/transport/protocol.py:48-84 | decoding an encoded frame with any bytes after it returns its header, payload length filled in, and its payload |
| FrameProtocol.PrefixFree | src/dakv/transport/protocol.py:38-45 | no frame is a proper prefix of another, and equal frames carry equal headers and payloads |
| ByteStream.Connection.Recv | src/dakv/transport/data_server.py:78 | recv returns at most n bytes of the next chunk, in order, and nothing only at the end of the stream |
| ByteStream.Connection.RecvFrame | src/dakv/transport/data_server.py:65-83 | the receive loop takes from the stream exactly what NextFrame says and never a byte more; it terminates |
| ByteStream.NextFrameIff | src/dakv/transport/data_client.py:120-139 | the next receive yields the next frame if and only if the frame's prefix arrives in one chunk |
| ByteStream.TruncatedFrame | src/dakv/transport/data_server.py:77-80 | a stream that stops inside a frame yields None for it, however it is split |
| ByteStream.Reassembly | src/dakv/transport/data_server.py:47-83 | repeated receives return exactly the frames sent, in order, if and only if every prefix arrives whole, for any splitting and any cut-off tail |
| ObjectStore.LocalDiskBackend.Get | src/dakv/store/local_disk_backend.py:27-36 | a read returns the file of that tier's directory or nothing |
| ObjectStore.LocalDiskBackend.Put | src/dakv/store/local_disk_backend.py:38-46 | a write replaces one file of one tier, or fails and changes nothing when the file cannot be created |
| ObjectStore.LocalDiskBackend.Delete | src/dakv/store/local_disk_backend.py:48-57 | a deletion removes one file of one tier and reports whether it existed |
| ObjectStore.LocalDiskBackend.Exists | src/dakv/store/local_disk_backend.py:59-61 | existence agrees with reading |
| ObjectStore.LocalDiskBackend.Size | src/dakv/store/local_disk_backend.py:63-68 | the size is the length of what is read, 0 if nothing |
| DataServer.DataServer.HandleGet | src/dakv/transport/data_server.py:103-123 | a GET reply carries the stored bytes and their checksum, or the not-found error |
| DataServer.DataServer.HandlePut | src/dakv/transport/data_server.py:125-145 | a PUT with a wrong checksum changes nothing and says so; otherwise the store and the reply follow the request |
| DataServer.DataServer.HandleDelete | src/dakv/transport/data_server.py:147-162 | DELETE removes the id from both tiers and answers OK |
| DataServer.DataServer.ProcessRequest | src/dakv/transport/data_server.py:85-101 | each request changes the store and is answered as `ServerRuns` says of frames; an answer too long for a frame becomes an error reply |
| DataServer.DataServer.HandleClient | src/dakv/transport/data_server.py:47-63 | serving a connection sends the replies to its frames in order up to the first exception, and leaves the store as those requests do |
| ServerRuns.GetServed | src/dakv/transport/data_server.py:103-123 | a GET frame changes nothing and is answered with the stored bytes and their checksum or an error, field by field |
| ServerRuns.PutServed | src/dakv/transport/data_server.py:125-145 | a PUT frame with a wrong checksum changes nothing and is answered with an error; any other is stored in the one directory its op names and answered OK, unless the file system refuses |
| ServerRuns.DeleteServed | src/dakv/transport/data_server.py:147-162 | a DELETE frame removes the id from both directories, and nothing else, and is answered OK |
| ServerRuns.UnknownServed | src/dakv/transport/data_server.py:97-98 | a frame with any other op changes nothing and is answered with an error naming the op |
| ServerRuns.StepRefines | src/dakv/store/local_disk_backend.py:21-57 | one request on two directories answers and changes the store as on one map keyed by tier and id |
| ServerRuns.RunRefinesTable | src/dakv/transport/data_server.py:85-162 | over any run of requests from any connections the bytes sent are the plain map's replies, or an error reply for one too long for a frame, and each that fits decodes to that reply |
| Exchange.ServeAllIsRun | src/dakv/transport/data_server.py:47-63 | what one connection is sent is the concatenation of its requests' replies |
| Exchange.ConnectionExchange | src/dakv/transport/data_client.py:120-139 | through any chunking both ways that brings each 14-byte prefix whole, a client receives one frame per request, each decoding to the plain map's reply |
| Exchange.TurnsAreRun | src/dakv/transport/data_server.py:35-63 | a server taking turns between connections, each turn receiving the next frame of that connection's chunks, serves the run of the requests in turn order |
| Exchange.InterleavedExchange | src/dakv/transport/data_server.py:35-63 | with many connections taking turns in any order, their streams chunked both ways with prefixes whole, each client receives, in order, the plain map's replies to its own requests |
| DataClient.DataClient.Get | src/dakv/transport/data_client.py:34-76 | one GET frame is sent, and the result is what the received frame allows: nothing on loss, error or a wrong checksum |
| DataClient.DataClient.Put | src/dakv/transport/data_client.py:78-118 | one PUT frame with the data's checksum is sent, and success is reported exactly for a readable reply that is no error |
| DataClient.ResultsIff | src/dakv/transport/data_client.py:57-72 | a client takes exactly the payload of a readable frame that is no error and whose checksum, if any, is right, and a PUT succeeds exactly on a readable frame that is no error |
| DataClient.ReadError | src/dakv/transport/data_client.py:65-67 | an error reply reads as a miss for GET and as failure for PUT |
| DataClient.ObjectKept | src/dakv/transport/data_server.py:125-162 | an object survives any run without a valid PUT to the same tier and id or a DELETE of the id; other tiers and wrong checksums do not touch it |
| DataClient.PutThenGet | src/dakv/transport/data_client.py:34-118 | what a client PUT is what a later GET returns, through all encodings and any requests in between that leave it alone |
| DataClient.DeleteThenGet | src/dakv/transport/data_server.py:147-162 | after a DELETE frame a GET of that id misses in either tier until the object is stored again |
| Int8Codec.QuantiseMonotoneOdd | src/dakv/codec/int8_symm.py:27 | quantisation keeps order and sign |
| Int8Codec.QuantiseRange | src/dakv/codec/int8_symm.py:21-27 | every level lies in [-127, 127], so the int8 conversion never wraps |
| Int8Codec.ScaleOfLargest | src/dakv/codec/int8_symm.py:21-25 | the step is 1/127 of the largest magnitude, which some element has, and 1/127 for an all-zero tensor |
| Int8Codec.EncodedLayout | src/dakv/codec/int8_symm.py:27-31 | four bytes of scale, then per element the two's-complement byte of the nearest multiple of the step, of two equally near ones the even multiple |
| Int8Codec.ErrorBound | src/dakv/codec/int8_symm.py:12-70 | decoding what was encoded moves no element by more than half a step plus 127 times the error of the stored scale |
| Int8Codec.Idempotent | src/dakv/codec/int8_symm.py:12-70 | encoding a decoded tensor gives the same bytes, the all-zero tensor included |
| Int8Codec.DecodeTo | src/dakv/codec/int8_symm.py:42-47 | the destination becomes the decoded tensor, and is untouched when the blob is too short |
| KvObject.HeaderRoundTrip | src/dakv/connector/saver.py:284-303 | a header is 128 bytes with the magic and five little-endian fields at fixed offsets, zero after them, and parses back |
| KvObject.SaveObject | src/dakv/connector/saver.py:109-147 | the encode loop yields the object of all layers in order, or the first layer's error |
| KvObject.SaveFailsIff | src/dakv/connector/saver.py:109-147 | saving fails exactly without layers, with an empty layer, or with a header field beyond 32 bits |
| KvObject.DecodeSlices | src/dakv/connector/loader.py:304-320 | the slice-and-decode loop decodes the equal slices in order, or gives the first error |
| KvObject.DecodeWithHeader | src/dakv/connector/loader.py:291-326 | header-path decoding, with the zero-layer case |
| KvObject.DecodeLegacyFormat | src/dakv/connector/loader.py:328-361 | headerless decoding, with the zero-layer case |
| KvObject.ParseAndDecodeObject | src/dakv/connector/loader.py:211-255 | the loader takes the header path when it can and falls back to the headerless format on a missing, old or undecodable header |
| KvObject.SlicesAreBlobs | src/dakv/connector/loader.py:304-310 | slicing a payload returns the blobs if and only if they all have one length |
| KvObject.LoadedSaved | src/dakv/connector/loader.py:232-246 | an object saved from non-empty layers is always read along the header path, whatever layer count the caller expects |
| KvObject.HeaderPathIff | src/dakv/connector/loader.py:232-255 | the header path is taken exactly for 128 bytes or more with the magic, a version of at least 1 and decodable layers; anything else is read without a header |
| KvObject.ElementCounts | src/dakv/connector/loader.py:211-326 | a saved object returns its layers' element counts if and only if all layers have one size |
| KvObject.SaveLoad | src/dakv/connector/saver.py:124-147 | equally sized layers come back in order and within the quantisation error, per layer and element |
| KvObject.LegacyLoad | src/dakv/connector/loader.py:328-361 | equal blobs stored without a header come back with the expected count when they cannot be mistaken for the header format |
| KvObject.EstimateExact | src/dakv/connector/saver.py:305-316 | the recorded size equals the stored object's length for equally sized layers |
| KvObject.SliceForWorker | src/dakv/connector/worker_side.py:409-415 | the worker's slicing loop yields n slices, the last running to the end |
| KvObject.SlicingCompared | src/dakv/connector/worker_side.py:409-415 | loader slices drop fewer than n trailing bytes, worker slices drop none, and they agree if and only if n divides the length |
| SaveSession.SaveSession.Add | src/dakv/connector/save_session.py:41-82 | a layer is stored only in an open session, under a new index below the layer count |
| SaveSession.SaveSession.Complete | src/dakv/connector/save_session.py:84-85 | a session with every layer is reported complete, and one reported complete has every layer unless a negative index is stored |
| SaveSession.SaveSession.Layers | src/dakv/connector/save_session.py:92-93 | every stored layer is returned exactly once, by strictly increasing index, whether or not any is missing |
| SaveSession.SaveSession.AbortWith | src/dakv/connector/save_session.py:87-90 | aborting sets the aborted flag and the reason and nothing else |
| SaveSession.SaveSession.MarkDone | src/dakv/connector/save_session.py:95-97 | completion sets the completed flag and nothing else |
| SaveSession.DecimalName | src/dakv/connector/save_session.py:53 | any name ending in an underscore and the decimal form of k is stored under k |
| SaveSession.UnnumberedName | src/dakv/connector/save_session.py:53-55 | a name without an underscore, or ending in neither digit nor white space, takes the next count |
| SaveSession.SpacedName | src/dakv/connector/save_session.py:53 | white space around the number and a plus sign before it make no difference |
| SaveSession.KeepsFirst | src/dakv/connector/save_session.py:61-78 | under any arrival order and repetition each index below the layer count holds the first layer offered for it |
| SaveSession.LayersInOrder | src/dakv/connector/save_session.py:92-93 | sorting the stored indices loses and repeats no layer and puts them in increasing order |
| SaveSession.CompleteIffAllArrived | src/dakv/connector/save_session.py:84-85 | for numbered names the count test holds exactly when a layer for every index has been offered |
| SaveSession.CompleteIffAllPresent | src/dakv/connector/save_session.py:52-85 | for any names without a negative number at the end, and any aborts and completions on the way, the count test holds exactly when every index is stored |
| SaveSession.NegativeName | src/dakv/connector/save_session.py:53 | any prefix, an underscore, a minus sign and a positive decimal number is a name with a negative index |
| SaveSession.NegativeIndexCounts | src/dakv/connector/save_session.py:57 | every name with a negative index makes every newly opened session complete without its last layer, once the others have come |
| SaveSession.LayersDependOnFirst | src/dakv/connector/save_session.py:92-93 | the collected layers depend only on the first arrival of each index |
| SaveSession.CompleteLayers | src/dakv/connector/save_session.py:92-93 | a complete session returns one layer per index, in order |
| SaveSession.ClosedUnchanged | src/dakv/connector/save_session.py:48-50 | nothing changes the layers after abort or completion |
| SaveSession.ClosingEndsCollection | src/dakv/connector/save_session.py:87-97 | in any run, whatever the session, no layer is stored after an abort or a completion |
| Pipeline.SavedPrefixIsLoaded | src/dakv/connector/loader.py:31-79 | layers collected in any order, saved, PUT, fetched later and decoded give each index's first arrival within the quantisation error |
| PagedKv.ApplyKvToCache | src/dakv/tier/gpu_apply.py:9-30 | rows are written by slot as far as slots and rows go, out-of-range slots skipped |
| PagedKv.ApplyBlockKv | src/dakv/tier/gpu_apply.py:33-64 | rows are written by block, and an IndexError is raised exactly when a block inside the cache has no row |
| PagedKv.InjectByBlocks | src/dakv/connector/paged_kv_ops.py:60-68 | block injection uses up a row only for a block inside the buffer |
| PagedKv.InjectPrefixKv | src/dakv/connector/paged_kv_ops.py:37-77 | injection by slots, by blocks, or directly leaves the buffer as the value-level function says |
| PagedKv.WritesAt | src/dakv/connector/paged_kv_ops.py:53-56 | every row ends with the last row written to it, and unnamed rows are untouched |
| PagedKv.ExtractInject | src/dakv/connector/paged_kv_ops.py:17-28 | extract then inject by one block list copies exactly the named rows that exist, repeated and out-of-range ids included |
| PagedKv.InjectExtractBlocks | src/dakv/connector/paged_kv_ops.py:60-68 | rows of any type injected at distinct blocks inside the buffer are extracted again in order |
| PagedKv.InjectExtractBlocksIff | src/dakv/connector/paged_kv_ops.py:22-28 | given a row per block, over all contents only then |
| PagedKv.InjectExtractSlots | src/dakv/connector/paged_kv_ops.py:17-20 | rows of any type injected at distinct slots inside the buffer are extracted again in order when enough tokens are asked for |
| PagedKv.InjectExtractSlotsIff | src/dakv/connector/paged_kv_ops.py:17-34 | given a row per slot, over all contents only then: a negative, repeated or out-of-range slot, or too few tokens, spoils it |
| PagedKv.SlotPastTheEnd | src/dakv/connector/paged_kv_ops.py:32-34 | an example: a slot past the end makes extraction fall back to the prefix |
| PagedKv.ExtractPrefix | src/dakv/connector/paged_kv_ops.py:30 | without a usable slot or block the first rows are extracted, as many as tokens |
| PagedKv.DirectRoundTrip | src/dakv/connector/paged_kv_ops.py:70-73 | without slots and blocks injection overwrites the first rows and no others, and extraction takes them again |
| PagedKv.RefinementOverwrites | src/dakv/connector/loader.py:195-205 | critical then refinement equals refinement alone if every block that critical rows reach also has a refinement row |
| PagedKv.RefinementOverwritesIff | src/dakv/connector/loader.py:195-205 | and over all contents only then |
| PagedKv.RefinementWithRowPerBlock | src/dakv/connector/loader.py:195-205 | with a row per block refinement erases critical rows and leaves unnamed rows alone |
| PagedKv.LoopsAgree | src/dakv/tier/gpu_apply.py:50-64 | loader, gpu and injection loops write the same buffer, of rows of any type, when they put the same row last into each place |
| PagedKv.LoopsAgreeIff | src/dakv/connector/paged_kv_ops.py:60-77 | over all contents the loops agree if and only if, for these ids, row count and buffer size, they put the same row last into each place |
| PagedKv.OutsideLast | src/dakv/connector/paged_kv_ops.py:62-66 | they do when all ids outside the buffer come last, so in particular when there are none |
| PagedKv.LoopsDiffer | src/dakv/connector/paged_kv_ops.py:62-66 | an example that fails the condition: an id outside the buffer before one inside |
| PagedKv.RemoteKVLoader.ApplyRefinementToLayer | src/dakv/connector/loader.py:195-205 | one layer receives the refinement rows of its blocks |
| PagedKv.RemoteKVLoader.ApplyRefinementIfReady | src/dakv/connector/loader.py:145-193 | exactly with an entry of matching layer count all layers are overwritten and that entry alone is dropped, so a second call changes nothing; otherwise nothing changes |
| LruPolicy.LRUEvictionPolicy.TouchKey | src/dakv/store/eviction.py:12-15 | a present key moves to the end and the others keep their order; an absent one changes nothing |
| LruPolicy.LRUEvictionPolicy.AddKey | src/dakv/store/eviction.py:17-24 | a new key is appended and the oldest dropped beyond capacity; a present one moves and keeps its size |
| LruPolicy.LRUEvictionPolicy.RemoveKey | src/dakv/store/eviction.py:26-29 | exactly that key goes and the others keep their order |
| LruPolicy.LRUEvictionPolicy.GetEvictionCandidates | src/dakv/store/eviction.py:31-34 | the candidates are the oldest keys, as many as asked for (for a negative count all but that many), and exactly those that new keys will push out |
| LruPolicy.InclusionFromEmpty | src/dakv/store/eviction.py:12-29 | under any operations the smaller policy's order is a subsequence of the larger one's |
| LruPolicy.Inclusion | src/dakv/store/eviction.py:17-24 | inclusion, and that the smaller policy never has more free places, is kept by every run |
| LruPolicy.CandidatesEvicted | src/dakv/store/eviction.py:31-34 | the first t candidates are exactly the keys that fresh additions push out, in order |
| LruPolicy.HeldIff | src/dakv/store/eviction.py:12-29 | in any run from empty a key is still held exactly when, since it was last added or touched, the other keys added or touched and not removed were at all times fewer than the capacity |
| LruPolicy.HeldIffFewUsed | src/dakv/store/eviction.py:12-24 | without removals, exactly when fewer than the capacity distinct other keys were added or touched since |
| HostCache.HostCache.GetTensor | src/dakv/tier/host_cache.py:20-28 | a hit returns the tensor and makes the entry newest; a miss changes nothing |
| HostCache.HostCache.PutTensor | src/dakv/tier/host_cache.py:30-52 | the eviction loop terminates and leaves the cache as specified, with true accounting within the budget |
| HostCache.HostCache.DeleteKey | src/dakv/tier/host_cache.py:54-60 | exactly that entry goes, and its bytes with it |
| HostCache.HostCache.ClearAll | src/dakv/tier/host_cache.py:62-66 | the cache is empty and accounts for nothing |
| HostCache.EvictedShortest | src/dakv/tier/host_cache.py:44-47 | the evicted entries are the shortest oldest-first prefix that makes room, and all entries for an oversized put |
| HostCache.PutShape | src/dakv/tier/host_cache.py:30-52 | a put leaves the new entry behind the longest suffix of the others that leaves it room; an oversized one flushes everything |
| HostCacheRuns.RunConsistent | src/dakv/tier/host_cache.py:20-66 | in every reachable cache keys are distinct, sizes true, and the total within the budget |
| HostCacheRuns.Coherence | src/dakv/tier/host_cache.py:20-66 | whatever a lookup returns is the tensor last put under the key since its last delete or clear |
| HostCacheRuns.Retention | src/dakv/tier/host_cache.py:20-52 | the newest key stays cached, unchanged, while its size plus the largest size of each other key accessed since fits in the budget |
| HostCacheRuns.RetainedSinceAccess | src/dakv/tier/host_cache.py:20-52 | in any run from an empty cache this holds for every key since its last access, a put that fits or a hit |
| MemoryIndex.MemoryIndex.GetManifest | src/dakv/store/memory_index.py:12-19 | a manifest is returned exactly until its time to live, counted from its creation, has passed, and always without one; an expired entry is deleted |
| MemoryIndex.MemoryIndex.PutManifest | src/dakv/store/memory_index.py:21-23 | the manifest is filed under its prefix key |
| MemoryIndex.MemoryIndex.DeleteKey | src/dakv/store/memory_index.py:25-30 | exactly that entry goes, and the result says whether it existed |
| MemoryIndex.MemoryIndex.TouchKey | src/dakv/store/memory_index.py:32-37 | only the access time of that entry changes |
| MemoryIndex.MemoryIndex.EvictAllExpired | src/dakv/store/memory_index.py:50-60 | exactly the live entries remain, and the result counts the others |
| MemoryIndex.LazyRefinesEager | src/dakv/store/memory_index.py:12-60 | with a clock that never runs back every lookup answers as if expired entries vanished at once, access times aside |
| MemoryIndex.HousekeepingInvisible | src/dakv/store/memory_index.py:32-60 | an eviction or touch inserted anywhere in a run cannot be seen through lookups |
| Planner.BandwidthEstimator.Update | src/dakv/planner/estimator.py:18-27 | the fields follow the history of all samples reported |
| Planner.BandwidthEstimator.GetEstimate | src/dakv/planner/estimator.py:31-38 | the estimate read is the one of the whole history |
| Planner.RunIsAverage | src/dakv/planner/estimator.py:20-25 | both estimates are the exponentially decaying averages of everything measured, skipped samples left out |
| Planner.BandwidthInRange | src/dakv/planner/estimator.py:20-22 | the bandwidth lies in every interval holding its initial value and all measurements |
| Planner.BandwidthPositive | src/dakv/planner/deadline_planner.py:63 | the bandwidth is positive, so division is defined, if and only if the past keeps some weight or the last timed transfer carried bytes |
| Planner.BetterRun | src/dakv/planner/estimator.py:18-27 | a history at least as fast at every step, with the same skips, gives an estimate at least as good |
| Planner.FasterHistoryPlans | src/dakv/planner/deadline_planner.py:45-135 | such a history never leads to a worse mode for the same manifest, and planning is always defined, whenever the slower history keeps the bandwidth positive |
| Planner.PlanMeetsDeadline | src/dakv/planner/deadline_planner.py:56-135 | an accepted plan's bytes arrive within the budget, its tokens and blocks are the manifest's, and recomputation means even half the bytes would be late |
| Planner.PlanByTheNumbers | src/dakv/planner/deadline_planner.py:56-135 | in bits and milliseconds: full size exactly when round trip and bytes take less than the budget, half size exactly when only that does, recomputed otherwise; bytes, tokens and blocks of the plan by its mode |
| Planner.PlanBudgets | src/dakv/planner/deadline_planner.py:98-135 | deadlines are the budget in whole milliseconds; refinement is planned exactly when enabled, available and needed, with three tenths of the target but at least 100 ms |
| Scheduler.StateManager.GcFinished | src/dakv/connector/state.py:187-204 | exactly the unfinished states remain |
| Scheduler.SchedulerSide.PrepareRequestState | src/dakv/connector/scheduler_side.py:55-162 | 0 for a short prompt, the count kept for a request already prepared, otherwise the accepted manifest's tokens less those computed or 0, or the planner's exception; no other request's state changes |
| Scheduler.SchedulerSide.BindAllocatedBlocks | src/dakv/connector/scheduler_side.py:164-181 | blocks are recorded for a known request only |
| Scheduler.SchedulerSide.BuildRequestMetadata | src/dakv/connector/scheduler_side.py:183-221 | metadata is built for planned requests only |
| Scheduler.PreparedPlanned | src/dakv/connector/scheduler_side.py:86-162 | preparing a request keeps every planned request sound (a manifest and an accepted plan for it, with equal token counts) if and only if no lookup is made, the planner does not raise, or a plan left from an earlier match fits the manifest found |
| Scheduler.LookupOutcome | src/dakv/connector/scheduler_side.py:86-162 | field by field, what a lookup reports and leaves behind: a miss, an accepted plan, a refused one, or a planner that raises |
| Scheduler.ReportedTokens | src/dakv/connector/scheduler_side.py:86-91 | tokens are reported exactly for an accepted manifest with more tokens than computed, and then the difference; a repeated call reports the full count and changes nothing |
| Scheduler.PlannerFailsIff | src/dakv/planner/deadline_planner.py:63 | the planner raises exactly for a long enough hit under a zero bandwidth estimate |
| Scheduler.FailedPlannerLeavesHit | src/dakv/connector/scheduler_side.py:130-135 | a planner that raises leaves the request marked as planned with the plan it held before: without one it gets no metadata, with one it gets that plan's mode and deadline and the new manifest's tokens and object |
| Scheduler.WellFormedValidates | src/dakv/connector/metadata.py:172-194 | metadata from a well-formed manifest validates exactly when request and prefix are named |
| Scheduler.ValidatesIff | src/dakv/connector/metadata.py:172-194 | for any manifest, metadata validates exactly when request and prefix are named, tokens and critical object are usable and a refinement in use has an id |
| Connector.WorkerSide.StartLoadKv | src/dakv/connector/worker_side.py:79-174 | a load records the request's metadata, layers and refinement future, and a failed one leaves no active load |
| Connector.WorkerSide.SaveKvLayer | src/dakv/connector/worker_side.py:208-263 | a layer goes to the request's session, created if absent; a failed extraction aborts it |
| Connector.WorkerSide.RequestFinished | src/dakv/connector/worker_side.py:288-350 | the request leaves all four worker tables and nothing else does |
| Connector.DeadlinePrefixKVConnector.GetNumNewMatchedTokens | src/dakv/connector/deadline_connector.py:131-156 | the same number of tokens, and 0 when the planner raises |
| Connector.DeadlinePrefixKVConnector.UpdateStateAfterAlloc | src/dakv/connector/deadline_connector.py:158-179 | blocks are bound when there are any |
| Connector.DeadlinePrefixKVConnector.BuildConnectorMeta | src/dakv/connector/deadline_connector.py:181-212 | metadata that can be built is returned and filed as pending |
| Connector.DeadlinePrefixKVConnector.UpdateConnectorOutput | src/dakv/connector/deadline_connector.py:222-242 | a worker result is filed under its request |
| Connector.DeadlinePrefixKVConnector.StartLoadKv | src/dakv/connector/deadline_connector.py:302-338 | a load starts only with pending metadata |
| Connector.DeadlinePrefixKVConnector.SaveKvLayer | src/dakv/connector/deadline_connector.py:357-376 | a layer is saved only for a named request |
| Connector.DeadlinePrefixKVConnector.RequestFinished | src/dakv/connector/deadline_connector.py:244-276 | all tables are cleaned for the request, its state is done, and it is queued as finished |
| Connector.DeadlinePrefixKVConnector.GetFinishedRequests | src/dakv/connector/deadline_connector.py:286-298 | the queue is returned and emptied |
| ConnectorRuns.NonInterference | src/dakv/connector/deadline_connector.py:181-376 | after any interleaving, everything held for a request is what the calls about it alone produce on their own |
| ConnectorRuns.FinishedInRun | src/dakv/connector/deadline_connector.py:244-276 | in any run, finishing a request removes it from all six tables until a later call about it, and every other request ends as if that call had not been made |
| ConnectorRuns.FinishedAccounting | src/dakv/connector/deadline_connector.py:286-298 | everything get_finished returned, followed by what is queued, is what was queued before followed by the sequence of request_finished calls |
| ConnectorRuns.QuietUntilMatched | src/dakv/connector/deadline_connector.py:302-325 | a finished request never starts a load again unless it is matched again |
| ConnectorRuns.PlannedThroughout | src/dakv/connector/scheduler_side.py:86-162 | every planned request is sound after every call of a run if and only if each match of the run meets the condition of `PreparedPlanned` |
| ConnectorRuns.RunSafe | src/dakv/connector/scheduler_side.py:86-221 | in any run, whatever is handed out or loaded for a request has the fields of a manifest found for it and an accepted plan of its own, never one to recompute; the plan accepted that very manifest unless the planner raised when the manifest was found |
| ConnectorRuns.RunValidates | src/dakv/connector/metadata.py:172-194 | in any run over well-formed manifests, whatever is handed out or loaded validates exactly when request and prefix have names, so always if every match names them |
| ConnectorRuns.EstimatedNeverRaises | src/dakv/planner/deadline_planner.py:63 | the planner never raises in runs whose estimates come from histories that keep the bandwidth positive |
| ConnectorRuns.StalePlanServed | src/dakv/connector/scheduler_side.py:130-135 | a planned and finished request, matched again while the planner raises, is handed its old plan with the new manifest |
| ConnectorRuns.AllocatedBlocksServed | src/dakv/connector/scheduler_side.py:164-221 | metadata handed out names the blocks last allocated to the request, whatever other requests do in between |
| ConnectorRuns.MissGetsNoMetadata | src/dakv/connector/scheduler_side.py:195-212 | in any run metadata is available exactly for the requests now planned and holding a plan, so never for a missed or recomputed one; with the condition of `PreparedPlanned`, for all planned ones |

## Left out

- Int8Codec.ErrorBound: float16 and float32 rounding, NaN and infinity are not modelled; values are exact reals and the rounding of the stored scale is a parameter.
- Int8Codec.DecodeTo: tensor shapes, dtypes and devices are not modelled; a tensor is its flat sequence of elements.
- KvObject.SaveObject: storing through the channel, object ids and the manifest update are not part of it; `Pipeline` connects the object to a PUT. cache_dtype, kv_layout_version and checksum are not written to the header and are left out.
- KvObject.SliceForWorker: the worker's shape estimate and its decoding are not modelled; it does not skip the object header.
- JsonText.LoadsDumps: nested values, fractions, true, false and null are rejected by the model's parser; frame headers have none. Strings with lone surrogates are not representable.
- SaveSession.DecimalName: int() of digits and white space outside ASCII is not modelled.
- FrameProtocol.DecodeEncoded: header members of a wrong JSON type are rejected here; the program passes them on.
- ObjectStore.LocalDiskBackend.Put: a tier directory is a map keyed by object id; path resolution and partly written files are not modelled.
- ObjectStore.LocalDiskBackend.Exists: an id that names a directory, the empty one for instance, exists in the program without being readable; here existence and reading agree.
- ObjectStore.LocalDiskBackend.Get: an id such as "../refinement/x", whose path leads into the other tier's directory, is one more key of its own tier.
- DataServer.DataServer.ProcessRequest: the text of an exception is one constant.
- MemoryIndex.MemoryIndex.EvictAllExpired: the clock is read once per call; manifests are values, so a caller's own reference to a touched manifest is not followed.
- Scheduler.SchedulerSide.PrepareRequestState: a request's state is a value in the table, so references to it handed out by get_state are not followed; the always-false second result is left out. Load-progress transitions that no lifecycle method calls are left out.
- Connector.WorkerSide.StartLoadKv: fetching and decoding are one outcome given with the call; a future is only present or absent.
- Connector.WorkerSide.SaveKvLayer: sessions are values in the table, the extracted tensor is given with the call, and the abort reason is a constant.
- PagedKv.RemoteKVLoader.ApplyRefinementIfReady: the layers are taken to be different buffers and rows of one shape.
- Connector.DeadlinePrefixKVConnector.StartLoadKv: with the producer role neither side exists and every method only tracks finished requests; that role is left out.
- Planner.PlanMeetsDeadline: the random plan id and the constant tier of a plan are left out.
- wait_for_layer_load, take_events and statistics calls: they change nothing.
- Sockets, HTTP, threads, locks, metrics, logging and configuration loading; each locked method is one step.
- The fp16_raw codec, the codec registry, throttling, placement, policies and the refinement manager.
