# A verified model of Memcache-Router

Memcache-Router is a multithreaded proxy in front of memcached. This project models its
state-heavy parts in Dafny and proves, for all inputs and all runs, what they keep and what they
compute. Where a property one would expect does not hold of the code, the project says exactly when
it does.

`dafny verify dfyconfig.toml` checks everything.

| file | part of the system |
|---|---|
| `Wire.dfy`, `Messages.dfy` | the generated message code: varints, fields, KeyValue, Server, Instruction |
| `LruCache.dfy`, `LruMemory.dfy` | one bucket of the LRU cache; its memory counter |
| `MemClient.dfy` | 64 buckets in front of a memcached store: the read-through client |
| `MemReads.dfy`, `MemWrites.dfy` | what a read answers, its cas included; which writes the store takes |
| `WorkQueue.dfy`, `Envelope.dfy`, `Batch.dfy` | the packet queue, multi-frame envelopes, serving a batch of GETs |
| `Router.dfy`, `RouterLocking.dfy`, `RouterAccounting.dfy` | dispatcher, workers and output pipe as a step system, and its invariants |
| `RouterReplies.dfy`, `RouterCoherence.dfy` | what a GET gets back, and how it reflects the SETs before it |
| `RouterSwitch.dfy`, `RouterProgress.dfy` | when switching the server list completes; that everything received gets served |
| `Protocol.dfy`, `Demux.dfy` | the memcached binary protocol and the pipelined demultiplexer |
| `Ring.dfy` | the ketama ring |
| `PyValue.dfy` | the Python client's value codec |
| `Worklist.dfy`, `VectorCounter.dfy` | two algorithms of the binding generator |
| `Seqs.dfy` | sequence facts |

## How the model reads the code

- Strings are sequences of bytes. Integers are unbounded; the widths that matter (the 64-bit memory
  counter, the `int` result of `Used`, 16- and 32-bit length fields, varint truncation, 32-bit ring
  positions) are written out.
- Code that updates state is a class or a loop proved against a specification function; runs are
  sequences of operations, and the theorems about runs are proved on the specification functions.
- The router is a step system. One step is what a thread does between two points at which another
  thread can interfere; `notify_one` may pick any waiter, waits may end spuriously, and the pipe may
  deliver replies in any order. One read of the client is one step, over whatever cache and store
  the worker finds at that moment. Sending a reply blocks when the output pipe has no room for one
  more reply of that worker; how much a pipe takes, and when reading it gives room back, is up to
  ZeroMQ and a parameter of the run. `None` as the result of a step means that the step is not possible
  then, or that the program aborts or is undefined there.
- A list iterator is the identity of its node. An index entry whose node was erased is a dangling
  iterator; following it is undefined in the source and is `None` here. Every theorem about runs of
  the cache holds for all runs that do not follow one.
- memcached is a map from keys to items with compare-and-swap, add and set. MD5, pickling, zlib and
  number formatting are functions with their laws as hypotheses. The order in which results of a
  fetch arrive, the hash of the cache index, and the choices of the scheduler are parameters.

## What the code does not do

- Evicting the placeholder that a cache miss leaves behind erases the wrong index entry:
  `EvictionKeepsBijectionIff` and, over whole runs, `BijectionIffCleanRun` give the exact condition,
  `PlaceholderEvictionDangles` a run.
- The memory counter can drop below zero and wrap (same run): `EvictionExactIff`, `StepExactIff` and
  `RunExactIff` give the exact condition, told from the state before each operation, and
  `MemoryStaysBounded` limits on the entries under which it never does.
- A compare-and-swap or add that memcached refuses, or a set that is not propagated, leaves the
  cache ahead of the store: `SetKeyAgreesIff`, with `RefusedSetShowsThrough` an example.
- A read answered from an entry that a set has cached carries the cas the set was sent with, and not
  the one memcached has given it: `CasAnsweredIff`.
- A server list that only adds servers at the end is not put in force, and one that only drops
  servers at the end makes the comparison read past its end: `ListTakenOverIff`, with
  `GrownListIgnored` and `ShrunkListUndefined` as examples.
- Switching the server list can wait for ever, for three reasons. The shutdown flag is set and
  announced outside the queue mutex, so a worker may block after the announcement (`SwitchCanHang`);
  the dispatcher holds the server-list mutex while it joins workers that may still be waiting for that
  mutex (`SwitchCanDeadlock`); and it does not read the output pipe meanwhile, so a worker with more
  replies left than the pipe takes blocks in a send (`SwitchCanJam`). `SwitchCompletesIff` says that
  the model has no other reason, and `SwitchMustComplete` that without these three the switch
  completes whatever the scheduling.
- A read from a server that ends inside a response kills the thread or is cut up wrongly:
  `CutExactlyIff`, with `CutInHeaderDies` an example. A response of more than 512 bytes is never read
  otherwise: `BoundaryReadsIff`.
- A key of 2^16 bytes or more, or a body of 2^32, does not survive the request header:
  `FrameDecodesIff`, with `LongKeyLost` an example.
- The empty string comes back as None; a compressed value of 2^31 bytes or more throws, and so does
  one that inflates into an empty last chunk, as a multiple of 64 KiB may: `RestoreAfterPrepareIff`
  states all three, with `HugeStringThrows` an example.

## Model

| member | source | states |
|---|---|---|
| Wire.MergePartialFromCodedStream | memdata.pb.cc:365-592 | the tag loop computes the record that reading the fields one after another gives, later fields overriding earlier ones, or reports malformed input |
| Wire.SerializeWithCachedSizes | memdata.pb.cc:594-674 | the serializer emits exactly the present fields in ascending field order |
| Wire.ParseSerialized | memdata.pb.cc:365-674 | parsing a serialized record on top of another overrides exactly its fields and consumes exactly its bytes, whatever follows |
| Wire.PayloadRoundTrip | memdata.pb.cc:401-576 | a payload of every kind, negative int32 included, is read back and the rest of the input is untouched |
| Wire.ByteSizeIsLength | memdata.pb.cc:762-865 | the size summed from per-field sizes is the length of the serialization |
| Wire.UnknownFieldSkipped | memdata.pb.cc:578-588 | a field of unknown number, or of a known one with another wire type, is stepped over and what follows is read as before |
| Wire.VarintBytes | memdata.pb.cc:611-634 | 300 is encoded as the bytes 172 and 2 |
| Wire.LongVarintRefused | memdata.pb.cc:401-420 | ten bytes that all announce another one are refused |
| Wire.BlobRefusedIff | memdata.pb.cc:388-397 | a length-delimited field is refused if and only if its length is 2^31 or more or exceeds the input |
| Messages.KvRoundTrip | memdata.pb.cc:365-674 | parsing a serialized KeyValue restores all thirteen fields and presence bits |
| Messages.MergeKvIsUnion | memdata.pb.cc:879-925 | merging is union of field records, the source winning |
| Messages.KvConcatenationMerges | memdata.pb.cc:879-925 | parsing one serialized KeyValue after another gives the second merged into the first |
| Messages.KvByteSizeIsLength | memdata.pb.cc:762-865 | ByteSize of a KeyValue is its serialized length |
| Messages.DataLayout | memdata.pb.cc:596-668 | the tags 10, 18 and 122 belong to key, val and return_error |
| Messages.NumberLayout | memdata.pb.cc:611-644 | the tags 24, 32, 40, 56 and 72 belong to the unsigned fields flags, expire_in_seconds, cas, default_counter_val and counter_val, over their whole range |
| Messages.SignedLayout | memdata.pb.cc:636-659 | the tags 64, 80 and 112 belong to the signed fields offset, server_index and return_code, negative numbers as 64-bit two's complement |
| Messages.NumberWidths | memdata.pb.cc:401-560 | the width of every number field: flags 32 bits, expiry, cas and the counters 64, the others int32 |
| Messages.FlagLayout | memdata.pb.cc:626-654 | the tags 48 and 88 belong to allow_replace and no_propagate |
| Messages.AbsentFields | memdata.proto:14-28 | the defaults of absent fields: a set may replace and is propagated |
| Messages.ServerRoundTrip | memdata.pb.cc:1048-1122 | parsing a serialized Server restores host name and port with their presence bits |
| Messages.ServerByteSizeIsLength | memdata.pb.cc:1148-1176 | ByteSize of a Server is its serialized length |
| Messages.ServerLayout | memdata.pb.cc:1048-1090 | the tags 10 and 16 belong to host name and port |
| Messages.MergeInstructionFromCodedStream | memdata.pb.cc:2082-2176 | the Instruction parse loop computes the instruction that absorbing the sub-messages in order gives |
| Messages.InstructionRoundTrip | memdata.pb.cc:2082-2214 | parsing a serialized Instruction restores every repeated field in order and the presence of stats |
| Messages.KeyListLayout | memdata.pb.cc:2087-2131 | the tags 10, 18 and 26 belong to get_keys, set_keys and incr_keys |
| Messages.ServerListLayout | memdata.pb.cc:2133-2146 | the tag 34 belongs to servers |
| Messages.StatsLayout | memdata.pb.cc:2148-2160 | the tag 42 belongs to stats |
| Messages.InstructionConcatenationMerges | memdata.pb.cc:2327-2339 | parsing one serialized Instruction after another gives the second merged into the first |
| Messages.InstructionByteSizeIsLength | memdata.pb.cc:2260-2313 | ByteSize of an Instruction is its serialized length |
| LruCache.Bucket.FindOrInsertData | lru_cache.cpp:22-38 | the node of the key is moved to the back, or a placeholder is appended and indexed |
| LruCache.Bucket.DeleteStaleData | lru_cache.cpp:58-70 | the loop evicts from the front until the counter falls below the target or the list is empty |
| LruCache.Bucket.Put | lru_cache.cpp:40-55 | trim, find or insert, write the entry, and charge the counter, modulo 2^64 |
| LruCache.Bucket.Get | lru_cache.cpp:72-86 | answers from the node found, an empty value being a miss, and counts as an access |
| LruCache.EvictionKeepsBijectionIff | lru_cache.cpp:58-70 | evicting n nodes keeps index and list in bijection if and only if no evicted node is a placeholder of a non-empty key |
| LruCache.RecencyAfterEviction | lru_cache.cpp:58-70 | an eviction removes the least recently used keys and leaves the rest ordered by last access |
| LruCache.LruRun | lru_cache.cpp:22-86 | in every run that evicts no such placeholder, no dangling iterator is followed, index and list are in bijection, the list is ordered by last access, and every absent key is staler than every resident one |
| LruCache.BijectionIffCleanRun | lru_cache.cpp:22-86 | a run that follows no dangling iterator ends with index and list in bijection if and only if it evicted no placeholder of a non-empty key |
| LruCache.PlaceholderEvictionDangles | lru_cache.cpp:34-75 | a run of three operations after which the next access to a key follows a dangling iterator and the counter stands at 2^64 - 22 |
| LruMemory.MemoryOfRun | lru_cache.cpp:44-69 | in every run the counter is the sum of Used over live nodes minus twelve per node ever created, modulo 2^64, and equals that number if and only if it fits |
| LruMemory.EvictionExactIff | lru_cache.cpp:58-70 | evicting n nodes keeps an exact counter exact if and only if the counter covers what those nodes use |
| LruMemory.EvictCountMeans | lru_cache.cpp:58-70 | the loop evicts the fewest nodes that bring the counter below the target, or all |
| LruMemory.StepExactIff | lru_cache.cpp:40-86 | an operation keeps an exact counter exact if and only if counter, evicted nodes, overwritten entry and new entry add up to a 64-bit number |
| LruMemory.RunExactIff | lru_cache.cpp:40-86 | the counter is exact throughout a run if and only if there was room for every operation |
| LruMemory.EvictStops | lru_cache.cpp:58-70 | with small entries the eviction loop leaves through its break and never wraps the counter |
| LruMemory.ConstructorIsSensible | lru_cache.cpp:5-8 | for every 64-bit capacity the constructor's limits suit exactly the entries up to the eviction step, at least 100 KiB, whose size fits an int |
| LruMemory.BucketsHoldCapacity | lru_cache.cpp:5-8 | 64 buckets at the limit hold at most the capacity, or 640 MiB if that is more, plus one entry each, and the limits are not needlessly low |
| LruMemory.TrimsIff | lru_cache.cpp:44-46 | a write evicts if and only if the counter is above the threshold and the list is not empty |
| LruMemory.MemoryStaysBounded | lru_cache.cpp:44-69 | if no entry exceeds the eviction step and no replacement shrinks an entry, the counter never wraps, stays within the threshold plus the largest entry, and every eviction ends through its break |
| MemClient.PutThenGet | lru_cache.cpp:40-86 | an entry just written is found again with value, flags and cas |
| MemClient.CacheGetAgrees | lru_cache.cpp:72-86 | a lookup in an agreeing cache answers what the store holds and keeps the agreement |
| MemClient.CachePutAgrees | lru_cache.cpp:40-55 | a write keeps the cache in agreement if and only if the value is empty or is what the store now holds |
| MemClient.SharedBucket | lru_cache.h:145-148 | two keys share one of the 64 buckets if and only if their hashes agree modulo 64 |
| MemClient.Client.constructor | memclient.cpp:10-12 | a new client has the empty cache or none, as asked, and agrees with every store |
| MemClient.Client.ProbeCache | memclient.cpp:52-65 | the first loop answers cached keys and collects the others in order |
| MemClient.Client.InstallResults | memclient.cpp:80-98 | the fetch loop fills the request and the cache in order of arrival |
| MemClient.Client.GetKeys | memclient.cpp:45-99 | probe, fetch only if something was missed, install |
| MemClient.Client.SetKeys | memclient.cpp:101-135 | each entry is written to the cache, then to the store by compare-and-swap, add or set, unless it is not propagated |
| MemClient.GetKeysTransparent | memclient.cpp:45-99 | through an agreeing cache every key gets the value and flags the store alone would give, and the cache still agrees |
| MemClient.ReadKeepsKeys | memclient.cpp:45-99 | whatever the cache holds, the answer has an entry for every key asked for and for no other |
| MemClient.SetKeyAgreesIff | memclient.cpp:101-135 | a set keeps the agreement if and only if there is no cache, nothing to cache, the store takes the value, or it holds that value already |
| MemClient.RefusedSetShowsThrough | memclient.cpp:105-124 | after a refused add or a set that is not propagated the store keeps the old value and the cache answers the new one |
| MemClient.PlainSetsAgree | memclient.cpp:101-135 | plain propagating sets keep the agreement and write the store like a map |
| MemClient.CacheIsTransparent | memclient.cpp:45-135 | over every run of reads and plain sets, whatever is evicted, every answer has the value and flags of the same run answered from the store alone |
| MemReads.PutRemembers | lru_cache.cpp:40-55 | what the cache still holds under a key is the entry last written there, its cas included, whatever is evicted |
| MemReads.ReadAnswers | memclient.cpp:45-99 | a key answered from the cache gets value, flags and cas of the entry last written under it; one fetched gets those of the store with return code 0 and SUCCESS; one the store does not hold is left alone |
| MemReads.CasAnsweredIff | memclient.cpp:45-135 | after every run of reads and plain sets, the cas answered is the store's if and only if the key was fetched just now or its entry was last cached by a fetch and not by a set |
| MemWrites.SetTakenIff | memclient.cpp:105-129 | a compare-and-swap is taken if and only if the store holds the key under that number, an add if and only if it does not hold the key, a plain set always, one not propagated never; only the key changes |
| MemWrites.FreshNumberShows | memclient.cpp:105-129 | with a fresh number the store changes if and only if the set is taken |
| MemWrites.WriteAllStores | memclient.cpp:101-135 | what the set loop does to the store does not depend on the cache |
| MemWrites.SecondSwapRefused | memclient.cpp:112-116 | of two compare-and-swaps of a key with the same number the second is refused if the first was taken, whatever sets come before, between and after |
| MemWrites.ExactlyOneSwap | memclient.cpp:112-116 | if the store holds the key under that number, the first is taken and the second changes nothing, whatever sets come between |
| MemWrites.StaleSwapRefused | memclient.cpp:112-116 | the store holds a key under 7: a swap that names 5 is refused, one that names 7 is taken |
| Batch.CollectKeys | memcache_router.cpp:271-294 | the worker's key map has one empty entry per distinct key of the batch |
| Batch.FanOut | memcache_router.cpp:298-305 | every slot of a packet takes over the answer for its key |
| Batch.BatchServesLikeAlone | memcache_router.cpp:271-309 | a packet served in a batch gets in every slot the value and flags it would get served alone, repeated and missing keys included |
| WorkQueue.BatchSize | memcache_router.cpp:95-113 | a batch is one packet that is not a GET, or the longest leading run of GETs whose key total before the last is below 10000 |
| WorkQueue.BatchSizeIsUnique | memcache_router.cpp:95-113 | the queue determines the batch |
| WorkQueue.BatchLimit | memcache_router.cpp:95-113 | a GET of 10000 keys or more is taken alone, after one of 9999 the next GET joins and no third one |
| WorkQueue.PCQueue.Push | memcache_router.cpp:122-129 | the packet goes to the back of the queue |
| WorkQueue.PCQueue.Pop | memcache_router.cpp:91-120 | takes exactly that batch off the front and asks for another worker if and only if packets remain |
| Envelope.ReceiveOnePacket | memcache_router.cpp:340-364 | the frames before the first empty one are the ids, the last frame behind it is the data |
| Envelope.SendFrames | memcache_router.cpp:366-385 | a reply is the ids, an empty frame, and the payload |
| Envelope.ReplyKeepsEnvelope | memcache_router.cpp:340-385 | a reply starts with the very frames its request started with, delimiter included, and its payload parses back to the instruction |
| Router.MatchFromMeans | memcache_router.cpp:388-403 | the comparison reports a match if and only if the list in force is a prefix of the new one, and reads past the end if and only if the new one is a proper prefix of it |
| Router.ListTakenOverIff | memcache_router.cpp:388-416 | a server-list message puts its list in force if and only if neither list is the other with servers added at the end; it is undefined if and only if the new list is the shorter of such a pair |
| Router.ListIgnoredIff | memcache_router.cpp:388-403 | a list is ignored if and only if every server in force has the host name and the port of the server at its place in the new list |
| Router.ListMessage | memcache_router.cpp:201-206 | what a server-list message does to the router: it is acknowledged if it is ignored, and starts the switch if it is not |
| Router.OtherServerTakesOver | memcache_router.cpp:393-399 | another host at the same port takes over, and so does another port of the same host |
| Router.GrownListIgnored | memcache_router.cpp:388-416 | a list with one server more is ignored |
| Router.ShrunkListUndefined | memcache_router.cpp:388-403 | for a list with one server less the comparison is undefined |
| RouterLocking.NoLostWakeUp | memcache_router.cpp:81-129 | in every interleaving the queue mutex is exclusive, and while the queue is not shut down, with packets queued and a worker blocked, some worker is signalled or about to pop |
| RouterLocking.AnnouncementWakes | memcache_router.cpp:72-75 | the announcement of a switch wakes every worker blocked by then and leaves the others alone |
| RouterLocking.WorkersUseListInForce | memcache_router.cpp:243-338 | in every run nothing is popped, applied or sent before the first list arrives, and every worker past its start uses the list in force |
| RouterLocking.ListInForce | memcache_router.cpp:388-416 | in every interleaving the list in force is determined by the packets received so far |
| RouterLocking.QueueIsFifo | memcache_router.cpp:81-129 | in every run, across list switches, the packets pushed are the popped batches in pop order followed by the queue, and every batch is well-formed |
| RouterLocking.BatchesServable | memcache_router.cpp:264-305 | in every run a worker holds one packet that is no GET or only GETs, and the answers it fetched cover every key of every GET it has yet to answer, so the CHECK there holds |
| RouterSwitch.SwitchCompletesIff | memcache_router.cpp:243-338 | in every reachable state in which the dispatcher joins its workers, a continuation completes the switch if and only if no worker has yet to read the list, the pipe has room for all the replies each worker has left and, unless spurious wake-ups are counted on, none is blocked or about to block |
| RouterSwitch.SwitchMustComplete | memcache_router.cpp:243-338 | the join lasts a bounded number of steps in every interleaving, and with no such worker some step is always possible, so the switch completes whoever is scheduled |
| RouterSwitch.SwitchCanHang | memcache_router.cpp:72-90 | a run that ends with the dispatcher joining a worker that missed the notification, where only a spurious wake-up is possible |
| RouterSwitch.SwitchCanDeadlock | memcache_router.cpp:249-253 | two lists in quick succession lead to a state in which the dispatcher joins a worker that waits for the mutex it holds, and no step is possible |
| RouterSwitch.SwitchCanJam | memcache_router.cpp:296-307 | for every pipe that takes fewer than 10000 replies, a run after which the dispatcher joins a worker with one reply more, and no continuation completes the switch |
| RouterProgress.ComesToRest | memcache_router.cpp:81-129 | without new input the router makes a bounded number of steps in every interleaving, spurious wake-ups not counted, and until it is at rest some such step is possible, unless there is no worker or a worker has a reply to send and no room although the pipe is empty |
| RouterProgress.FairRunComesToRest | memcache_router.cpp:81-129 | the same without that last exception, in every run in which workers start with room in the pipe and get room again at the latest when the last of their replies is read |
| RouterProgress.RestMeansServed | memcache_router.cpp:193-309 | at rest every GET and INCR received has had its one reply forwarded and every SET has been applied |
| RouterAccounting.RunAccounted | memcache_router.cpp:183-309 | in every run the packets pushed are those in queue, batches, applied or sent, as multisets, and those sent are in the pipe or forwarded |
| RouterAccounting.EveryPacketAccounted | memcache_router.cpp:193-309 | in every reachable state each GET or INCR is in exactly one place or replied to once, each SET is in exactly one place and replied to once or, if asynchronous, never, and every STATS or server-list message is replied to once |
| RouterAccounting.PacketsByFields | memcache_router.cpp:40-51 | the same told from the fields: in every run a packet with get_keys is sent by a worker, one with set_keys and no get_keys is applied and acknowledged and never sent, one with only incr_keys is sent and never applied, server lists and statistics requests never reach a worker, and nothing else is received |
| RouterReplies.EveryReplySentBack | memcache_router.cpp:340-385 | in every run every reply starts with the very frames its request came in with, up to and including the empty delimiter, and has one frame more |
| RouterReplies.RequestsAsSent | memcache_router.cpp:340-364 | in every run the instruction of a packet is what the last of its frames parses to, and one that came in by the router socket had a delimiter before it |
| RouterReplies.AcknowledgementsEmpty | memcache_router.cpp:371-375 | in every run the reply to a SET or a server list has an empty last frame |
| RouterReplies.GetRepliesFromStore | memcache_router.cpp:271-309 | in every run the last frame of a reply to a GET parses to the request answered from one fetch made for its batch; if the cache agreed with the store then, every slot has the value and flags of the store, or its own where the store has none; and every slot has value, flags and cas of the entry last cached if the cache answered it, of the store if not |
| RouterCoherence.RepliesAreCoherent | memcache_router.cpp:256-309 | in every run of GETs and plain SETs whose client calls do not overlap, the reply to a GET carries the answers of one fetch, a step of the run for a batch the GET was in, and they hold in every slot the value and flags that the SETs applied before that step had left in the store, whatever was cached and evicted |
| RouterCoherence.GetSeesEarlierSets | memcache_router.cpp:193-309 | with one worker, in every such run a GET is answered with what all SETs received before it, in order of arrival and no others, have left in the store |
| Protocol.BigEndianRoundTrip | protocol.cpp:15-20 | a number survives network byte order if and only if it fits the width |
| Protocol.BigEndianBytes | protocol.cpp:39-93 | numbers go most significant byte first |
| Protocol.HeaderRoundTrip | protocol.h:43-66 | every header field is read back, length fields if and only if they fit |
| Protocol.FrameRoundTrip | protocol.cpp:39-93 | a frame decodes to its command and consumes exactly itself, whatever follows |
| Protocol.FrameStarts | protocol.h:8-25 | every request starts with 0x80 and the number of its command, 0, 1 or 10 |
| Protocol.GetBytes | protocol.cpp:39-53 | a GET byte by byte |
| Protocol.SetBytes | protocol.cpp:55-81 | a SET byte by byte, with flag, expiry and cas |
| Protocol.NoopBytes | protocol.cpp:83-93 | a NOOP byte by byte |
| Protocol.FrameDecodesIff | protocol.cpp:39-93 | a frame decodes to its command if and only if the key is under 2^16 bytes and the body under 2^32 |
| Protocol.LongKeyLost | protocol.cpp:39-53 | a GET for a key of 65536 bytes is not read back |
| Protocol.BufferRoundTrip | protocol.cpp:39-93 | the command buffer splits by the 24 + body length rule into exactly the commands written, in order |
| Protocol.RequestPacket.Reset | protocol.h:75-78 | empties buffer and count |
| Protocol.RequestPacket.Get | protocol.cpp:39-53 | appends the frame of one GET and counts it |
| Protocol.RequestPacket.Set | protocol.cpp:55-81 | appends the frame of one SET with flag, expiry and cas and counts it |
| Protocol.RequestPacket.Noop | protocol.cpp:83-93 | appends the frame of one NOOP and counts it |
| Demux.ResponseState.IncrementPending | routerlib.h:19-22 | one more command pending |
| Demux.ResponseState.DecrementPending | routerlib.h:23-28 | one command less pending |
| Demux.ResponseState.AddResponse | routerlib.h:29-32 | appends the slice |
| Demux.Server.AddCommand | routerlib.cpp:27-43 | request, state and instruction count are appended to the pending node |
| Demux.Server.TakeRequestNode | routerlib.cpp:45-56 | the pending node changes hands |
| Demux.HeaderAt | protocol.cpp:6-25 | at a response boundary the header gives exactly the end of that response |
| Demux.ResponseLayout | protocol.cpp:6-25 | a response starts with 0x81 and its end is told by bytes 8 to 11; another first byte aborts |
| Demux.CutExactlyIff | routerlib.cpp:122-151 | the cutting loop comes out at the end of a read if and only if the read ends on a response boundary; otherwise the thread dies if header and extras of the cut response are not there in full, and the loop runs past the end if they are |
| Demux.CutInHeaderDies | routerlib.cpp:124-138 | a response followed by ten bytes of the next: the first is handed out, then the thread dies |
| Demux.BoundaryReadsIff | routerlib.cpp:117-119 | reads of at most 512 bytes can all end on response boundaries if and only if no response is longer |
| Demux.ProcessBuffer | routerlib.cpp:122-151 | one buffer of whole responses delivers each to the caller of the command it answers and completes commands in order |
| Demux.ProcessReplies | routerlib.cpp:115-157 | every caller receives exactly the responses to its own commands in order, its counter drops once per command, and the loop stops with the last response, even when callers share a state |
| Demux.OwnSlice | routerlib.cpp:124-151 | a caller with one command receives exactly its slice of the reply stream |
| Ring.KeyForPointInjective | consistent_hash.h:14-20 | the hashed strings are injective in host name and point |
| Ring.KeyForPointBytes | consistent_hash.h:14-20 | the key of point 12 of host ab is ab-12 |
| Ring.HashIsLittleEndian | consistent_hash.cpp:39-47 | the hash is the little-endian number in the digest's four bytes at the alignment |
| Ring.AlignmentsDetermineDigest | consistent_hash.cpp:39-47 | the four alignments together determine the digest |
| Ring.Construct | consistent_hash.cpp:12-28 | the three loops insert every point once or abort on the first collision |
| Ring.BuildMeans | consistent_hash.cpp:12-28 | the constructor passes if and only if no two points collide, and the ring then holds exactly 160 points per server, each under its own server |
| Ring.HostnamesDistinct | consistent_hash.cpp:12-28 | servers of a ring have distinct host names |
| Ring.OrderDoesNotMatter | consistent_hash.cpp:12-28 | any permutation of the server list builds the same ring, or aborts likewise |
| Ring.LookupIsNearest | consistent_hash.cpp:30-37 | the lookup finds the unique point at least clockwise distance modulo 2^32 |
| Ring.AddingMovesOnlyToNew | consistent_hash.cpp:12-37 | with a server added anywhere in the list every hash keeps its server or moves to the new one, and removing it moves only its own hashes |
| PyValue.Reassemble | cmrclient.cpp:344-358 | the copy loop rebuilds the inflated data, and throws if and only if the last chunk is empty or the length, narrowed to int, is not the length |
| PyValue.LastChunkNonEmpty | cmrclient.cpp:331-357 | the last chunk is non-empty when the length is no multiple of 64 KiB |
| PyValue.RestoreByFlags | cmrclient.cpp:269-316 | the digit 1 is read as bool, int, long, pickle or string under the flags 16, 2, 4, 1 and 0, and what nothing is read as |
| PyValue.FlagsWritten | cmrclient.cpp:213-267 | the flags written for each kind of value, and that strings and pickles above 3072 bytes are compressed |
| PyValue.RestoreAfterPrepareIff | cmrclient.cpp:213-358 | reading back returns the value if and only if it is not the empty string and, if compressed, is below 2^31 bytes and does not end in an empty chunk; the empty string gives None and the others an exception |
| PyValue.RestoreAfterPrepare | cmrclient.cpp:213-358 | every other value survives whose representation is no multiple of 64 KiB and, if compressed, below 2^31 bytes |
| PyValue.HugeStringThrows | cmrclient.cpp:344-351 | a string of 2^31 + 1 bytes is written and throws when it is read |
| Worklist.PostponeWithinDepth | pybindgen/gccxmlparser.py:1056-1072 | a class that waits for a base still in the list has been postponed fewer times than it is deep |
| Worklist.RegisterClasses | pybindgen/gccxmlparser.py:1056-1131 | the worklist terminates, registers bases first, registers exactly the classes not ignored whose bases are all registered, postpones a class at most as often as it is deep, and raises the postponement error if and only if some class has been postponed ten times, which cannot happen at depth nine or less |
| VectorCounter.RankOrder | pybindgen/overloading.py:22-40 | ranks order position vectors lexicographically and name each once |
| VectorCounter.ProductByRank | pybindgen/overloading.py:22-40 | the Cartesian product lists its choices by rank |
| VectorCounter.Turn | pybindgen/overloading.py:30-39 | advances the last list with an element left and restarts the exhausted ones behind it |
| VectorCounter.AllCombinations | pybindgen/overloading.py:22-40 | what is yielded is the Cartesian product, every position vector once, in lexicographic order |

## Left out

- EveryPacketAccounted: leaves the payload of replies to increments and statistics requests open; what a GET reply holds is stated by `GetRepliesFromStore`.
- GetRepliesFromStore: takes one read of the client as one step over any cache and store, so cache changes by other workers in the middle of a read are not seen; a reply of 2^31 bytes or more is left open, and so is what a request holds whose parse failed.
- RepliesAreCoherent: for client calls that do not overlap, as with one worker; without increments, sets that are not plain, other writers, or a second server list, whose servers may hold other values than the cache.
- SwitchCompletesIff: a client call that memcached never answers is not modelled.
- CutExactlyIff: positions are unbounded; for a cut response of 2^31 bytes or more the source's int overflows.
- CacheIsTransparent: covers sequential runs of reads and plain sets; concurrent fills, increments (which bypass the cache) and expiry are not modelled, and for refused sets `SetKeyAgreesIff` is the statement.
- ConstructorIsSensible: one per cent of the threshold is taken exactly, not in double precision.
- ProcessBuffer: for reads that end on response boundaries; `CutExactlyIff` says what happens otherwise.
- ProcessReplies: assumes that reads end on response boundaries and that every command has at least one instruction; otherwise the loop has no defined end.
- RegisterClasses: classes dropped for reasons other than their bases are dropped before their bases are looked at, and postponement for implicit conversions is not modelled; nor is the one for template arguments, which the source disables with a constant condition. Classes nested in a class just registered are registered in the middle of the loop, so a class sorted before the owner of its base can be dropped although the base is registered later; and postponement counts may survive from an earlier scan.
- KvRoundTrip: for strings and sub-messages shorter than 2^31 bytes, the limit of the wire format.
- MergePartialFromCodedStream: unknown fields are stepped over but not kept, groups are reported as unsupported, and what a failed parse leaves behind is not stated.
- SerializeWithCachedSizes: unknown fields, which the source appends, are not kept.
- MergeInstructionFromCodedStream: the statistics sub-message is kept in encoded form and not parsed.
- InstructionConcatenationMerges: merging statistics is appending their encodings.
- SetKeys: the return codes and error strings written into each entry are not modelled; a SET is answered before it is served and they are never sent.
- The contents of the statistics messages, all timers, counters and statistics.
- Keys with embedded zero bytes in the fetch request, and error codes written into increment requests.
- IncrKeys, memcached errors and expiry, and MemClient::Init beyond the list a worker is given.
- Process shutdown after the poll loop, and socket setup.
- Heap deallocation: each packet is in one place, but freeing it is not modelled.
- The client's request methods, the benchmarks, the scripts, and the rest of pybindgen.
