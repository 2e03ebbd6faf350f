# Illuminator: a Dafny model and its proofs

Illuminator collects records and stack samples from plugins and eBPF probes and passes them in
batches through lock-free channels to processors, aggregators and sinks. This project models its
concurrent core, its byte-level code and its data transformations, and proves what they promise.

- **Queue and channel.** `QueueProtocol` lets any number of threads push and pop, one load,
  compare-and-swap, data access or sequence store at a time; `LockFreeQueue` is the same ring buffer
  over arrays for one thread. `ChannelProtocol` puts the drop policies, the flush sentinel, the
  counters and the backpressure flag on top, again step by step; `ChannelPolicy` says which branch each
  call takes, `ChannelProgress` bounds the steps of one thread, and `AsyncChannel` is the class.
- **Engine.** `PipelineProtocol` runs the controller's `StopAll`, the timer thread, the collect pool
  and the process thread over the interleaved channel, and `PipelineProgress` brings `StopAll` to its
  end. `ThreadPool` treats the pool on its own, and `TimerWheel`, `TimerProtocol` and `TimerDelivery`
  the timers.
- **Bytes.** `WebSocket` (RFC 6455, sections 5.2 and 5.3), `Sha1` (RFC 3174) with `Sha1Rows` and
  `Sha1Abc` for known answers, `Base64` (RFC 4648, section 4), `Handshake`, `Arena` and `DataBatch`
  (allocation and interning).
- **Data.** `Config` (a YAML tree becomes a flat map with dotted keys), `Flame` (samples become a
  tree), `StackAggregation`, `StackMerger`, `Grouping` and `Statistics`, `OffCpu`, `SchedAnalyzer` and
  `SchedReports` (scheduler probes as state machines over event traces, and what is reported of them).
- `Bits`, `Decimal`, `Samples`, `Separators` and `Wrappers` hold what several of these share.

Where the source changes state, the model is a class or a method whose contract ties the new state
to a specification function; the theorems are lemmas about those functions, or about every state
of every run of a protocol.

Where the comments of the source and its code differ, the model follows the code:

- `lock_free_queue.h` calls the queue multi-producer single-consumer; producers pop too, to evict.
- `async_channel.h` says the flush sentinel takes priority; it is pushed at the tail like data.
- A requested capacity of 0 or 1 gives a ring of one cell, and that ring over-fills
  (`QueueProtocol.BoundedIffTwoCells`). The engine asks for 1024, 4096 or 16384.
- `Arena::Allocate` aligns offsets inside a block. That aligns the address for alignments up to 16 and
  for no larger one (`Arena.AlignedIffSmall`, `Arena.OverAligned`).
- Flattened configuration keys are looked up correctly when keys hold no dot. A dotted key cannot be
  told from nesting, and lookups then find what the tree does not hold (`Config.DottedLookupFails`,
  `Config.LookupsAgreeIff`).
- A WebSocket connection is removed after the read that decoded a Close, so what follows a Close is
  handled or not depending on how the stream is cut into reads (`WebSocket.SplitMatters`).
- `kWebSocketGUID` is not the GUID of section 1.3 of RFC 6455, so the answer to a handshake is not the one
  a client has to insist on (`Handshake.SampleRejected`, `Handshake.AnsweredIff`).
- `Collect` looks an entry up and deletes it in two calls; what the tracepoints add between them is lost
  (`SchedAnalyzer.LossIsBetween`).
- A repeating timer whose interval is zero or negative never catches up
  (`TimerWheel.CatchUpIffPositive`).

## Model

| member | source | states |
|---|---|---|
| QueueProtocol.StepRefinesFifo | src/core/memory/lock_free_queue.h:82-126 | with any number of threads every atomic step appends one value to a FIFO with room, takes its oldest value, or leaves it alone |
| QueueProtocol.PositionsExclusive | src/core/memory/lock_free_queue.h:90-125 | every position has one pusher and at most one popper, and the pop of a position holds the value pushed there |
| QueueProtocol.StepInv | src/core/memory/lock_free_queue.h:82-126 | each step of each thread keeps the cell, counter and ownership invariant |
| QueueProtocol.RunInv | src/core/memory/lock_free_queue.h:82-126 | with at least two cells, every state of every run has tail <= head <= tail + capacity and the invariant |
| QueueProtocol.QuiescentConserves | src/core/memory/lock_free_queue.h:100-125 | with no operation under way each pushed value is queued or was returned once, at its position |
| QueueProtocol.FailedPush | src/core/memory/lock_free_queue.h:94-95 | a cell reads below the pushed position only when the ring is full, counting a pop that has not released its slot |
| QueueProtocol.PushGivesUp | src/core/memory/lock_free_queue.h:90-98 | the step in which TryPush gives up finds its position still at the head and the ring full, or the pop one lap earlier still holding the slot |
| QueueProtocol.PopGivesUp | src/core/memory/lock_free_queue.h:113-121 | the step in which TryPop gives up finds its position still at the tail and the queue empty, or its oldest push unpublished |
| QueueProtocol.FailedPop | src/core/memory/lock_free_queue.h:117-118 | a cell reads below the popped position exactly when the queue is empty or its oldest push is not published |
| QueueProtocol.OneCellRun | src/core/memory/lock_free_queue.h:62-71 | a ring of one cell has a run that holds two values at once |
| QueueProtocol.BoundedIffTwoCells | src/core/memory/lock_free_queue.h:62-103 | no run over-fills the ring if and only if it has at least two cells |
| LockFreeQueue.RingBuffer.constructor | src/core/memory/lock_free_queue.h:62-71 | an empty ring for any request: the least power of two not below it, one cell for 0 and 1, no cell beyond 2^63 |
| LockFreeQueue.RingBuffer.TryPush | src/core/memory/lock_free_queue.h:82-103 | fails iff full, otherwise appends the value to the contents |
| LockFreeQueue.RingBuffer.TryPop | src/core/memory/lock_free_queue.h:105-126 | fails iff empty, otherwise takes the oldest value |
| LockFreeQueue.RingBuffer.SizeApprox | src/core/memory/lock_free_queue.h:128-132 | with one thread the size is exact |
| LockFreeQueue.MaskModulo | src/core/memory/lock_free_queue.h:86-87 | pos & mask is pos modulo the capacity |
| LockFreeQueue.MarkIs | src/core/memory/lock_free_queue.h:137-143 | a mark is the greatest whole number not above capacity times ratio |
| Bits.RoundUpPow2 | src/core/memory/lock_free_queue.h:50-56 | the least power of two not below v for v up to 2^63, 1 for 0, and 0 beyond |
| Bits.Smear | src/core/memory/lock_free_queue.h:53-54 | v OR (v >> t) doubles the run of ones below the leading bit |
| Bits.Bitwise | src/core/memory/lock_free_queue.h:50-56 | and, or and exclusive or act on each bit by itself |
| Bits.BitsDetermine | src/core/memory/lock_free_queue.h:50-56 | numbers below 2^m with the same m bits are equal |
| ChannelProtocol.Conservation | src/core/engine/async_channel.h:62-149 | whenever no call is under way in a run, completed enqueues + flushes = dequeued + dropped + queued, for both drop policies |
| ChannelProtocol.QuiescentBalance | src/core/engine/async_channel.h:48-54 | the same per counter: enqueued is the accepted calls, dropped the evictions and rejections, backpressure events the rises of the flag |
| ChannelProtocol.StepInv | src/core/engine/async_channel.h:62-171 | every step keeps the counters balanced against what the calls under way still owe |
| ChannelProtocol.RunInv | src/core/engine/async_channel.h:62-171 | the channel invariant in every state of every run |
| ChannelPolicy.RejectedIff | src/core/engine/async_channel.h:62-85 | in every run a TryEnqueue returns false iff its last chance failed: the one push of kDropNewest, or both of kDropOldest with one pop between them; true iff one push worked |
| ChannelPolicy.PopsAllowed | src/core/engine/async_channel.h:70-84 | with kDropNewest no TryEnqueue ever makes room; a position is taken only by a dequeue, by an InjectFlush whose push failed, or by a kDropOldest TryEnqueue whose first push failed |
| ChannelPolicy.FlushFailsIff | src/core/engine/async_channel.h:87-103 | InjectFlush makes room under either policy and fails iff both its pushes have |
| ChannelPolicy.DequeuedIff | src/core/engine/async_channel.h:105-149 | a dequeue returns an item iff one of its own pops took one, and at most one does |
| ChannelPolicy.CheckedOnce | src/core/engine/async_channel.h:62-149 | every TryEnqueue and every dequeue of an item goes through UpdateBackpressure exactly once, nothing else does |
| ChannelPolicy.FlagFollowsMarks | src/core/engine/async_channel.h:161-171 | however threads interleave, the flag rises only after the queue has held more than the high mark, and falls only after a head and a later tail less than the low mark apart |
| ChannelPolicy.UpdateAlone | src/core/engine/async_channel.h:161-171 | run by one thread alone, the flag ends on the right side of the marks and a rise is counted |
| AsyncChannel.AsyncChannel.TryEnqueue | src/core/engine/async_channel.h:62-85 | new queue, counters and result for both drop policies: full means rejected, or the oldest item makes room |
| AsyncChannel.AsyncChannel.InjectFlush | src/core/engine/async_channel.h:87-103 | a sentinel is appended, evicting the oldest item of a full queue |
| AsyncChannel.AsyncChannel.TryDequeue | src/core/engine/async_channel.h:141-149 | the oldest item, or nothing from an empty queue |
| AsyncChannel.AsyncChannel.Dequeue | src/core/engine/async_channel.h:105-139 | the polling loops return the oldest item, or nothing if the queue is empty |
| AsyncChannel.AsyncChannel.UpdateBackpressure | src/core/engine/async_channel.h:161-171 | the flag follows the two marks and each rise is counted |
| AsyncChannel.AsyncChannel.CannotFlap | src/core/engine/async_channel.h:161-171 | events are the rising edges, and (events - 1) * (H - L + 2) <= dequeued + dropped |
| AsyncChannel.ValidatedMarks | src/core/config/yaml_config_loader.h:105-115 | a configuration that passes validation gives low mark <= high mark <= capacity |
| PipelineProtocol.ShutdownDrains | src/core/engine/pipeline_controller.cc:188-205 | after StopAll channel and aggregator are empty, the sinks were given, in order, exactly the dispatched batches that no processor refused, and an accepted batch is among them iff it was neither evicted nor refused |
| PipelineProtocol.FlushBarrier | src/core/engine/pipeline_controller.h:233-296 | once a sentinel is handled each earlier batch was evicted, refused by a processor, or submitted, and none is left in the aggregator |
| PipelineProtocol.BatchesFlow | src/core/engine/pipeline_controller.h:264-296 | in every state discarded is what the processors refused, the rest is submitted in order, or with an aggregator held since the last sentinel and submitted before it |
| PipelineProgress.StopCompletes | src/core/engine/pipeline_controller.cc:188-205 | from every reachable state there is a continuation to the end of StopAll by steps of the threads it waits for, whatever the others are doing |
| PipelineProgress.StopAdvances | src/core/engine/pipeline_controller.cc:188-205 | in every reachable state what StopAll waits for has a step that brings its end nearer |
| ChannelProgress.SoloEnds | src/core/engine/async_channel.h:62-171 | wherever all other threads have stopped, a thread alone ends its channel call within a bounded number of steps |
| ChannelProgress.SoloBounded | src/core/engine/async_channel.h:62-171 | without spurious failures and repeated polls no run of one thread inside a call is longer than that bound |
| ChannelProgress.SoloDecreases | src/core/memory/lock_free_queue.h:82-126 | each such step brings the end of the call nearer |
| ChannelProgress.StepsBounded | src/core/engine/async_channel.h:62-171 | among any other threads, the steps of one thread inside a call number no more than its rank and two for each position that anybody claims meanwhile, but for spurious failures and repeated polls |
| PipelineProtocol.RunInv | src/core/engine/pipeline_controller.h:137-310 | the invariant of controller, timer, workers, process thread and channel in every state of every run |
| PipelineProtocol.EmptyWhenAlone | src/core/engine/pipeline_controller.h:298-310 | the pop that ends Drain fails on a queue that is truly empty |
| PipelineProtocol.DrainingAlone | src/core/engine/pipeline_controller.cc:189-198 | while Drain runs no other thread is inside the channel |
| ThreadPool.ExecutedExactlyOnce | src/core/threading/thread_pool.h:57-133 | when the destructor returns each submitted item of work was executed exactly once |
| ThreadPool.TakenInOrder | src/core/threading/thread_pool.h:109-123 | work is taken in submission order in every state of every run |
| ThreadPool.NoLostWakeup | src/core/threading/thread_pool.h:86-92 | waiting work with all workers asleep means some Submit has not notified yet |
| ThreadPool.JoinProgresses | src/core/threading/thread_pool.h:57-66 | after notify_all some worker can move until all have exited |
| ThreadPool.JoinDecreases | src/core/threading/thread_pool.h:57-66 | every such move brings the end of the join closer |
| TimerWheel.Timers.AddRepeating | src/core/engine/timer_wheel.h:80-88 | a new id, a first due time one interval from now, and an armed timerfd |
| TimerWheel.Timers.AddOnce | src/core/engine/timer_wheel.h:90-98 | the same for a single firing |
| TimerWheel.Timers.Cancel | src/core/engine/timer_wheel.h:100-103 | the id joins the cancelled list |
| TimerWheel.Timers.PurgeCancelled | src/core/engine/timer_wheel.h:179-194 | exactly the cancelled timers leave the heap |
| TimerWheel.Timers.PopDue | src/core/engine/timer_wheel.h:158-161 | the batch is exactly the due timers, in due order |
| TimerWheel.Timers.FireBatch | src/core/engine/timer_wheel.h:164-173 | each entry fires once and a repeating one returns exactly one interval later |
| TimerWheel.Timers.ProcessFired | src/core/engine/timer_wheel.h:149-177 | purge, due batch in order, refill and re-arm as one change of state |
| TimerWheel.Timers.RearmTimerfd | src/core/engine/timer_wheel.h:196-210 | armed for the earliest due time or one nanosecond from now, disarmed for an empty heap |
| TimerWheel.ArmValue | src/core/engine/timer_wheel.h:200-207 | the armed value is never zero, is normalised, and is the waiting time or one nanosecond |
| TimerWheel.CatchesUp | src/core/engine/timer_wheel.h:149-177 | after k calls at one time a positive interval has fired min(k, floor((now - due) / interval) + 1) times and its due time moved as many intervals |
| TimerWheel.CatchUpIffPositive | src/core/engine/timer_wheel.h:164-173 | repeated calls settle on a due repeating timer iff its interval is positive |
| TimerWheel.OneShotOver | src/core/engine/timer_wheel.h:149-177 | whatever the clock readings, a one-shot fires once iff one of them reaches its due time, and is gone then |
| TimerWheel.RepeatingOver | src/core/engine/timer_wheel.h:164-173 | a repeating timer stays, one interval further for each firing |
| TimerProtocol.NoDrift | src/core/engine/timer_wheel.h:80-98 | in every interleaving firing k of a timer is for its first due time plus k intervals, never early, and a one-shot fires at most once |
| TimerProtocol.CancelledFiresAtMostOnce | src/core/engine/timer_wheel.h:100-103 | after Cancel a timer fires at most once more, and only out of a batch already collected |
| TimerProtocol.WaitingIsArmed | src/core/engine/timer_wheel.h:196-210 | whenever the wheel waits with timers pending the timerfd expires no later than max(earliest due, arming time + 1 ns) |
| TimerProtocol.RunInv | src/core/engine/timer_wheel.h:128-177 | the wheel's invariant in every state of every run |
| TimerDelivery.NoTimerLost | src/core/engine/timer_wheel.h:128-177 | in every run a timer that is not cancelled is waiting or on its way to its callback, until a one-shot has fired or the wheel is stopped |
| TimerDelivery.CollectionIsComplete | src/core/engine/timer_wheel.h:149-161 | a collection takes exactly the timers that are due and not cancelled, in due order, and leaves the later ones as they are |
| WebSocket.StreamReassembly | src/server/websocket_manager.h:160-189 | any well-formed frames, in any chunks, arrive in order as far as they end within the chunk that completes the first Close: all of them iff that chunk completes the last; without a Close always, with an unfinished frame left in the buffer |
| WebSocket.FeedStopsAtClose | src/server/websocket_manager.h:160-189 | for any bytes, reading stops at the first read that completes a Close or a bad length, and delivers what one read of the same bytes would |
| WebSocket.SplitMatters | src/server/websocket_manager.h:160-189 | for any bytes, what is delivered, told by the bytes and the chunk lengths: the frames that end within the chunks read; the split makes no difference iff these also complete the last whole frame, and never without a Close |
| WebSocket.ReadsAreReaching | src/server/websocket_manager.h:160-189 | the last read is that of the first chunk that completes a Close or a bad length |
| WebSocket.ReachingIs | src/server/websocket_manager.h:160-161 | n chunks are the first to hold p bytes iff they hold them, or are all, and fewer hold less |
| WebSocket.TextAfterClose | src/server/websocket_manager.h:176-189 | an input for which the split does matter: a Close and then a Text |
| WebSocket.DecodeInvertsWire | src/server/websocket_server.h:213-256 | a masked or unmasked frame of any of the three length forms decodes to itself, whatever follows |
| WebSocket.DecodedIff | src/server/websocket_server.h:213-256 | a buffer decodes to a frame iff one starts there: opcode, FIN bit and length as the header has them, each payload bit flipped back iff it is set in octet i mod 4 of the key |
| WebSocket.HelloFrame | src/server/websocket_server.h:213-256 | the masked frame of section 5.7 of RFC 6455 decodes to Hello |
| WebSocket.WireIsShortest | src/server/websocket_server.h:180-200 | the wire form has 2, 4 or 10 octets and the key before the payload; no other frame with that content and mask bit is shorter |
| WebSocket.CloseAndPing | src/server/websocket_manager.h:176-184 | an empty Close of a client ends the connection, an empty Ping does not |
| WebSocket.PrefixNeedsMore | src/server/websocket_server.h:213-256 | no proper prefix of a frame decodes |
| WebSocket.DecodeMonotone | src/server/websocket_server.h:213-256 | later bytes change no verdict but the one that more are needed |
| WebSocket.MaskedTwice | src/server/websocket_server.h:247-252 | masking twice with one key gives the payload back |
| WebSocket.DecodeFrame | src/server/websocket_server.h:213-256 | the decoder computes the section 5.2 layout, including lengths that wrap the size check |
| WebSocket.EncodeFrame | src/server/websocket_server.h:180-200 | the encoder emits the unmasked wire form with the shortest length form |
| WebSocket.Connection.OnBytes | src/server/websocket_manager.h:160-185 | one read: the frames and the rest that decoding the whole buffer gives, and removal iff a Close is among them; the loop terminates |
| Sha1.HashPieces | src/server/websocket_server.h:23-49 | any split of a message over Update calls gives the one-shot digest |
| Sha1.Context.Update | src/server/websocket_server.h:23-32 | the context then stands for the longer message |
| Sha1.Context.Final | src/server/websocket_server.h:34-49 | the digest of the message padded as section 4 of RFC 3174 says |
| Sha1.Context.ProcessBlock | src/server/websocket_server.h:54-73 | the chaining value becomes the compression of the block |
| Sha1.Context.AddZeros | src/server/websocket_server.h:38-39 | the padding loop ends with the least number of zeros that leaves 56 bytes in the block |
| Sha1.PadZerosLeast | src/server/websocket_server.h:38-39 | that number is the least that fits, and the only one below 64 |
| Sha1.CompressAppend | src/server/websocket_server.h:30-30 | compressing block by block is compressing the whole |
| Sha1Abc.DigestOfAbc | src/server/websocket_server.h:22-75 | the digest of abc is a9993e36 4706816a ba3e2571 7850c26c 9cd0d89d |
| Sha1.FChooses | src/server/websocket_server.h:66-66 | in the first twenty rounds each bit of b chooses between those of c and d |
| Sha1.FIsParity | src/server/websocket_server.h:67-69 | in the second and last twenty rounds two equal arguments cancel |
| Sha1.FIsMajority | src/server/websocket_server.h:68-68 | in the third twenty rounds the result agrees with any two that agree |
| Sha1.RotLIsCircular | src/server/websocket_server.h:52-52 | what is shifted out comes back in, for the three amounts in use |
| Sha1.KIsRoot | src/server/websocket_server.h:66-69 | the constants are the roots of 2, 3, 5 and 10 to 30 bits |
| Sha1.WordsAreBigEndian | src/server/websocket_server.h:44-58 | words are read and written most significant octet first |
| Sha1.LengthOctet | src/server/websocket_server.h:40-42 | the length is written in base 256, most significant octet first |
| Base64.RoundTrip | src/server/websocket_server.h:81-96 | an independent decoder inverts the encoder on all inputs |
| Base64.EncodedLength | src/server/websocket_server.h:85-85 | 4 characters per started group of 3 octets, as the reserve call assumes |
| Base64.Base64Encode | src/server/websocket_server.h:81-96 | the loop over shifts and masks computes the encoding |
| Base64.QuadDecodes | src/server/websocket_server.h:87-93 | each group with its padding decodes to its one, two or three octets |
| Base64.Vectors | src/server/websocket_server.h:81-96 | the test vectors of section 10 of RFC 4648 for f, fo, foo and foobar, and one for the last two characters |
| Handshake.ComputeAcceptKey | src/server/websocket_server.h:98-105 | the encoded digest of the key and the GUID |
| Handshake.AnsweredIff | src/server/websocket_server.h:98-105 | two GUIDs give the same answer to a key iff the digests behind it are the same |
| Handshake.SampleRejected | src/server/websocket_server.h:16-16 | the sample key of section 1.3 of RFC 6455 is not answered as that section says |
| Arena.AlignUpLeast | src/core/memory/arena.h:148-150 | the bit trick gives the least multiple of the alignment not below the offset |
| Arena.Arena.constructor | src/core/memory/arena.h:50-53 | one block of the default size and nothing live |
| Arena.Arena.Allocate | src/core/memory/arena.h:81-100 | a new region in bounds and disjoint from all live ones, at an aligned offset and for alignments up to 16 at an aligned address; old bytes unchanged, a new block only when the old one lacks room |
| Arena.Arena.CopyString | src/core/memory/arena.h:106-111 | the copy holds the source bytes and every earlier region keeps its own |
| Arena.Arena.Reset | src/core/memory/arena.h:126-133 | one block left and nothing live |
| Arena.Arena.LiveApart | src/core/memory/arena.h:81-100 | no two live regions share an address, across blocks too |
| Arena.AlignedIffSmall | src/core/memory/arena.h:96-97 | aligned offsets in malloc's blocks give aligned addresses iff the alignment is at most 16 |
| Arena.AlignedAddress | src/core/memory/arena.h:96-97 | an address is aligned iff its block is |
| Arena.OverAligned | src/core/memory/arena.h:81-100 | for every alignment above 16 an arena whose Allocate misses it |
| DataBatch.Batch.InternString | src/core/engine/data_batch.h:192-199 | equal strings get the same view, a new string is copied once, all earlier views keep their bytes |
| DataBatch.Batch.ViewsAgree | src/core/engine/data_batch.h:192-199 | each view holds its string, and different strings have disjoint views |
| DataBatch.Batch.TotalIsDistinct | src/core/engine/data_batch.h:192-199 | with interning alone the total is the sum of the lengths of the distinct strings |
| DataBatch.Batch.Clear | src/core/engine/data_batch.h:206-211 | the cache and the arena are empty |
| Config.FlatteningPreservesLookup | src/core/config/yaml_config_loader.h:271-332 | chained operator[] along any path of dot-free keys finds the scalar at that path, and nothing where there is none |
| Config.IndexIsChild | src/core/common/config.h:61-74 | operator[] on a flattened node is the flattened child |
| Config.ListsSurvive | src/core/common/config.h:111-131 | AsList of a sequence of scalars gives its elements in order, if that many can be reserved |
| Config.ScalarIsList | src/core/common/config.h:111-131 | a bare scalar is a list of one, an empty one or a missing value an empty list |
| Config.SequenceAsString | src/core/config/yaml_config_loader.h:300-331 | read as a string, a sequence of scalars and nulls comes apart at the commas into the texts of its scalars, behind an empty one if the first item is null |
| Config.DottedIsNested | src/core/config/yaml_config_loader.h:283-289 | a dotted key flattens to the same map as nesting |
| Config.DottedLookupFails | src/core/common/config.h:61-74 | below a dotted key a lookup finds a node the tree does not hold there |
| Config.LookupsAgreeIff | src/core/common/config.h:61-74 | in a document whose keys have first segments of their own, all lookups agree with the tree iff every dotted key that a lookup can meet starts with a dot or holds nothing |
| Config.MappingIndex | src/core/common/config.h:61-74 | one lookup in a mapping goes wrong exactly at the first segment of a dotted key that holds something |
| Config.SequenceIsPrefixed | src/core/config/yaml_config_loader.h:300-331 | a sequence below a prefix adds its own values, each behind the prefix |
| Config.ParseConfigValue | src/core/config/yaml_config_loader.h:271-297 | the recursive loops of Set calls build the flat map of the document |
| Config.ParseSequenceInto | src/core/config/yaml_config_loader.h:300-331 | adds the indexed elements, the size and the joined text to what is there |
| Config.ConfigValue.At | src/core/common/config.h:61-74 | the loop over all entries computes the sub-map |
| Config.ConfigValue.AsString | src/core/common/config.h:98-101 | the own text or the default |
| Config.ConfigValue.AsList | src/core/common/config.h:111-131 | the elements in index order, one element for a bare scalar, none for a bad size, and an error where the reserve call throws |
| Decimal.StoullInvertsToString | src/core/common/config.h:121-121 | std::stoull reads back what std::to_string wrote |
| Decimal.StoullIs | src/core/common/config.h:121-123 | std::stoull: white space, one sign, digits up to the first other character; no digits or 2^64 and more throw, a minus sign negates modulo 2^64 |
| Decimal.ToStringInjective | src/aggregators/cpu_stats_aggregator/cpu_stats_aggregator.h:255-261 | different numbers print differently |
| Decimal.ToStringIs | src/aggregators/cpu_stats_aggregator/cpu_stats_aggregator.h:255-261 | what is printed are the decimal digits of the number without leading zeros, and nothing else is |
| Flame.ValueIsWeight | web/src/pages/DiffView.tsx:56-66 | the node at a path weighs as much as the samples whose frames start with it |
| Flame.NodesAreStacks | web/src/pages/DiffView.tsx:56-66 | a node exists exactly where some sample passes |
| Flame.AllUnique | web/src/pages/DiffView.tsx:59-63 | siblings have distinct names at every level |
| Flame.RootIsTotal | web/src/pages/DiffView.tsx:52-52 | the root weighs as much as all samples |
| Flame.OrderDoesNotMatter | web/src/pages/DiffView.tsx:32-51 | samples in any order give the same value at every path |
| Flame.FlameNode.InsertStack | web/src/pages/DiffView.tsx:56-66 | the in-place update of the nodes is insertion into the abstract tree |
| Flame.ConvertToFlameNode | web/src/pages/DiffView.tsx:29-54 | the tree of all samples with the root at their total weight |
| Flame.BuildFrames | web/src/pages/DiffView.tsx:33-46 | frame names: command, user frames and kernel frames outermost first, and the fallbacks |
| Flame.FramesAre | web/src/pages/DiffView.tsx:33-46 | command first, then user and kernel frames, each stack from its outermost frame inwards, or a frame that says there is no stack |
| Flame.UserFrameIs | web/src/pages/DiffView.tsx:38-38 | a user frame without a name, or with only its address, is named after the command |
| Flame.WeightIs | web/src/pages/DiffView.tsx:47-49 | off-CPU time to the nearest microsecond, the upper of two, otherwise the count; at least one |
| StackAggregation.KeyInjective | src/aggregators/cpu_stats_aggregator/cpu_stats_aggregator.h:254-264 | different (pid, tid, user addresses, kernel addresses) never share a key |
| StackAggregation.MakeStackKey | src/aggregators/cpu_stats_aggregator/cpu_stats_aggregator.h:254-264 | the loops build that key |
| StackAggregation.Aggregator.Add | src/aggregators/cpu_stats_aggregator/cpu_stats_aggregator.h:87-107 | every sample is counted under its own identity; in = out + buffered, in total and for each identity |
| StackAggregation.Aggregator.Flush | src/aggregators/cpu_stats_aggregator/cpu_stats_aggregator.h:154-186 | one output per distinct identity of the window with its count, the stacks of its first sample and the command name of its last; then an empty window |
| StackAggregation.DrawnStep | src/aggregators/cpu_stats_aggregator/cpu_stats_aggregator.h:90-106 | one more sample keeps first stacks and last command name for every key |
| StackAggregation.BufferStep | src/aggregators/cpu_stats_aggregator/cpu_stats_aggregator.h:87-93 | one sample keeps the buffer right for every key |
| StackAggregation.BalancedFlush | src/aggregators/cpu_stats_aggregator/cpu_stats_aggregator.h:154-184 | a flush moves the counts of the window to the output, in total and for each identity |
| Statistics.ComputeStats | src/aggregators/cpu_stats_aggregator/cpu_stats_aggregator.h:201-216 | least, greatest, mean and two percentiles of the values, in order |
| Statistics.PercentileMonotone | src/aggregators/cpu_stats_aggregator/cpu_stats_aggregator.h:224-232 | percentiles grow with the percentage, from the least value to the greatest |
| Statistics.PercentileIs | src/aggregators/cpu_stats_aggregator/cpu_stats_aggregator.h:224-232 | the percentile lies on the straight line between the sorted values next to its position |
| Grouping.GroupedKeepsTotal | src/processors/stack_merger/stack_merger.h:81-91 | merging by key keeps the total count |
| Grouping.GroupedIdempotent | src/processors/stack_merger/stack_merger.h:81-91 | merging merged items changes nothing but the order |
| StackMerger.Process | src/processors/stack_merger/stack_merger.h:73-137 | one sample per key, everything but the count taken from the first of that key, counts summed |
| StackMerger.ProcessKeepsTotal | src/processors/stack_merger/stack_merger.h:81-91 | no sample weight is lost or made |
| StackMerger.ProcessIsIdempotent | src/processors/stack_merger/stack_merger.h:73-137 | a second pass keeps every (key, count) pair |
| StackMerger.BuildStackKey | src/processors/stack_merger/stack_merger.h:150-185 | the key for each grouping, with or without the kernel stack |
| StackMerger.LabelIs | src/processors/stack_merger/stack_merger.h:150-185 | a frame is labelled with its name, or with its kind and the decimal digits of its address, which tell unnamed frames apart |
| StackMerger.TellsApartIff | src/processors/stack_merger/stack_merger.h:150-185 | keys tell stacks apart iff ';' is in no frame name that enters the key and the bar in one kind of its names at most: command, kernel or user |
| StackMerger.StackKeyInjective | src/processors/stack_merger/stack_merger.h:150-185 | then equal keys mean the same group and the same labels frame by frame |
| StackMerger.Collision | src/processors/stack_merger/stack_merger.h:150-185 | for each way to break that rule, two samples with one key |
| StackMerger.MergeStep | src/processors/stack_merger/stack_merger.h:81-91 | one more sample keeps the map right for every key |
| OffCpu.AbsencesApart | src/ebpf/probes/sched/offcpu_profiler.bpf.c:122-199 | reported off-CPU intervals of one process never overlap |
| OffCpu.ReportedIff | src/ebpf/probes/sched/offcpu_profiler.bpf.c:122-199 | reported is exactly each absence from a switch out to the next switch in that was long enough and found room: its start and length, the CPU of the return, stacks and name of the start |
| OffCpu.InvStep | src/ebpf/probes/sched/offcpu_profiler.bpf.c:122-199 | one context switch keeps the start table and the events right |
| OffCpu.Probe.TraceOffcpu | src/ebpf/probes/sched/offcpu_profiler.bpf.c:122-199 | the tracepoint body is the step function |
| SchedAnalyzer.ChargedOnce | src/ebpf/probes/sched/sched_analyzer.bpf.c:130-140 | a wakeup is charged to at most one switch, and to a later one |
| SchedAnalyzer.LatencyIsWait | src/ebpf/probes/sched/sched_analyzer.bpf.c:131-140 | the latency is the time since the charged wakeup of the same process |
| SchedAnalyzer.CollectedAndWaiting | src/sources/sched/sched_analyzer/sched_analyzer.h:225-304 | per process, switches, latency and migrations of the trace are those collected, those waiting and those lost between a lookup and its delete, however tracepoints and Collect interleave |
| SchedAnalyzer.LossIsBetween | src/sources/sched/sched_analyzer/sched_analyzer.h:242-252 | a collection loses exactly what the tracepoints add between its lookup and its delete |
| SchedAnalyzer.SwitchLost | src/sources/sched/sched_analyzer/sched_analyzer.h:242-252 | a trace in which a switch is lost |
| SchedAnalyzer.LatenciesSane | src/sources/sched/sched_analyzer/sched_analyzer.h:281-301 | max <= total <= count * max for every entry, and average <= maximum at every history point |
| SchedReports.RollupIs | src/sources/sched/sched_analyzer/sched_analyzer.h:225-279 | the roll-up holds the sums and the greatest latency of what was taken and let through since the last collection |
| SchedReports.CollectionReports | src/sources/sched/sched_analyzer/sched_analyzer.h:281-301 | a collection adds one point with those figures and the mean latency; of the earlier points the newest 359 are kept in order |
| SchedReports.EntryIs | src/ebpf/probes/sched/sched_analyzer.bpf.c:69-91 | the entry of a process has the number and the worst latency of its switches since it was last deleted, and the name at the last one |
| SchedAnalyzer.SchedAnalyzer.OnSwitch | src/ebpf/probes/sched/sched_analyzer.bpf.c:130-144 | the switch tracepoint is the step function |
| SchedAnalyzer.SchedAnalyzer.OnWakeup | src/ebpf/probes/sched/sched_analyzer.bpf.c:96-101 | the wakeup tracepoint is the step function |
| SchedAnalyzer.SchedAnalyzer.OnMigrate | src/ebpf/probes/sched/sched_analyzer.bpf.c:172-186 | the migration tracepoint is the step function |
| SchedAnalyzer.SchedAnalyzer.SchedAggAddLatency | src/ebpf/probes/sched/sched_analyzer.bpf.c:69-91 | a first or a further latency of one process |
| SchedAnalyzer.SchedAnalyzer.Collect | src/sources/sched/sched_analyzer/sched_analyzer.h:225-304 | the loop is the sequence of per-process steps and one history point; the batch holds what the white list lets through |

## Left out

- Memory orders: steps are sequentially consistent. Queue positions, statistics, timer identifiers and sample counts are unbounded, so wrap-around at 64 or 32 bits is not modelled.
- `LockFreeQueue.RingBuffer.TryPush`: for rings of at least two cells, the bounded ones; with one thread the compare-and-swap always succeeds, while `QueueProtocol` lets it fail. `AsyncChannel.AsyncChannel.constructor` asks for two cells too.
- Batches in the channel are identifiers; sharing of a batch by several owners is not modelled.
- `PipelineProtocol.ShutdownDrains`: one Pull pipeline; work of other pipelines is anonymous. Push sources are not modelled. What the sinks do with a batch once it is handed over, and the overload check before that, are outside the claim. `Aggregator::Flush` always succeeds, as the one in the repository does.
- `PipelineProgress.StopCompletes`: shows a continuation; that the scheduler takes it, and that compare-and-swap does not fail spuriously for ever, is left to the machine.
- `TimerProtocol.WaitingIsArmed`: reading the clock and setting the timerfd are one step.
- `TimerWheel.Timers.ProcessFired`: callbacks that call back into the wheel are treated in `TimerProtocol` only.
- `AsyncChannel.AsyncChannel.Dequeue`: spinning, yielding and sleeping are a number of polls.
- Watermarks and statistics are over reals; rounding of doubles is not modelled.
- HTTP headers, and what `HandleTextMessage` does with a frame, including its lock.
- `Handshake.AnsweredIff`: that the two digests differ is computed for the sample key only.
- `WebSocket.Connection.OnBytes`: read errors and failed writes also remove a connection; answers to Ping are not modelled.
- `WebSocket.DecodeFrame`: a length field near 2^64 wraps the size check and then makes the resize throw; the model returns an error there. Memory exhaustion for other large lengths is not modelled.
- `Arena.Arena.Allocate`: malloc's placement is a parameter with malloc's guarantees, and a null result ends the program. Sizes whose sum wraps at 2^64 and alignments of 2^63 or more are not modelled. Move construction and arenas shared between batches are left out.
- `DataBatch.Batch.Clear`: records, samples and metadata of the batch are not modelled.
- `Config.ParseConfigValue`: the YAML parser, anchors and tags; `AsInt`, `AsDouble` and `AsBool`.
- `Config.ConfigValue.AsList`: how many elements a vector can reserve is a parameter.
- `Config.LookupsAgreeIff`: keys of one mapping that share their first segment are left out; they overwrite or complete each other, depending on their values.
- `StackAggregation.Aggregator.Add`: records, their label keys and `MakeRecordKey` are not modelled.
- `StackMerger.Process`: records pass through unchanged and are not modelled. Stacks with equal keys count as equal.
- `OffCpu.Probe.TraceOffcpu`: map capacity and updates lost between CPUs.
- `SchedAnalyzer.CollectedAndWaiting`: each tracepoint is one step; updates of one entry on two CPUs at the same time can be lost in the source.
- `SchedAnalyzer.SchedAnalyzer.Collect`: the class runs one Collect without interruption; the interleaving with tracepoints is in `CollectedAndWaiting`. Detailed events through the ring buffer are left out.
- Colours, layout, comparison view and the rest of the web pages; SQLite, JSON, HTTP, `/proc`, perf and libbpf loading, plugin loading: input and output, or easy members.
