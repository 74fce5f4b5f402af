# Verified model of the terminal output path and the shared state around it

This project models the parts of the program where many goroutines meet, and proves what they
keep: the bounded output ring of an instance, the replay a reconnecting terminal performs from
it, the live fan-out that takes over, the WebSocket codec underneath, the versioned state file,
and three smaller pieces of shared state. The theorems quantify over all inputs, all
interleavings the model allows, or all runs. Beside them stand a few single runs that show a
promise failing (`WindowIsSkipped`, `StaleCursorRun`, `RepeatedIdDuplicates`,
`UncheckedSaveLosesCommit`, `AcceptedAgain`, `TwoNoticesInFlight`, `DepartedViewerPanics`).

| file | module | what it models |
|---|---|---|
| `ring_buffer.dfy` | `RingBuffers` | the ring over a circular array, against the history of everything written |
| `replay.dfy` | `Replays` | the handshake replay as a fold over the snapshots its reads saw; the client's cursor; chains of reconnects |
| `handshake.dfy` | `Handshakes` | the same handshake as loops over a real ring, with a writer acting between any two reads and a socket that may fail at any frame |
| `log_stream.dfy` | `LogStreams` | the polling fallback that follows the same ring |
| `fanout.dfy` | `Fanout` | subscribers, bounded queues, overflow, cancel and drain |
| `session.dfy` | `Sessions` | pump, ring, handshake, subscription and live stream of one client together, over whole runs |
| `ws_frame.dfy` | `WsFrames` | frame printer and parser |
| `ws_message.dfy` | `WsMessages` | message reassembly |
| `reorder.dfy` | `Reorders` | tab reordering |
| `store.dfy` | `Stores` | the optimistic-lock state file and its writers |
| `tty_size.dfy` | `TtySizes` | the terminal size several viewers share |
| `buffers.dfy` | `Buffers` | ring-buffer memory against a global budget |
| `limiter.dfy` | `Limiters` | the login limiter, the request pace and the form tokens |
| `sse.dfy` | `Writers`, `EventStreams` | WebSocket messages re-encoded as server-sent events, and the standard parser that undoes it |

Where the source updates something in place, a class or a loop does so here and is proved equal
to a function of the old state; the theorems are then about those functions. A step taken under
a lock is one step of a machine; whatever happens outside the lock is a step of its own.

`dafny verify dfyconfig.toml` checks the project.

## What the proofs found

These are places where a promise made by the code's comments or suggested by its shape does not
hold for every input. The model follows the code; each promise is proved under the exact
condition that makes it true.

- The comment at `internal/app/app.go:2570-2574` says that output produced between the last
  replay read and the subscription is re-requested by the next reconnect. That is so only while
  nothing has arrived live: live frames advance the cursor by their length alone, so it moves
  over bytes nobody delivered. `Sessions.LiveCursorTruthful` says exactly when every offset a
  live cursor has passed was sent or evicted: when the closing sync named the number of bytes
  broadcast at the subscription, or nothing has arrived live. `Sessions.WindowIsSkipped` gives a
  run in which it was not.
- `ReorderInstances` checks that the listed ids are the worktree's instances but not that each
  is listed once. A repeated id duplicates its record; `Reorders.PermutationIffNoRepeats` says
  it permutes exactly when there is no repeat.
- A version that is negative skips the check, and one newer than the loaded state may match a
  later state by accident. `Stores.HonestyIsExact` says which versions make a save land on the
  state it was prepared from.
- The terminal-size notices go out after the lock is released, and a send to a viewer whose
  channel has been closed because it left panics, so that the viewers behind it are not told.
  Finished in issue order and without a panic they bring everyone to the shared size
  (`TtySizes.LandedFlightsAgree`). At any moment of such a run every interleaving of the
  resizes, sends and closes under way ends well exactly when each delivery names the applied
  size and has nobody left to send to who is gone (`TtySizes.EveryOrderIff`).
  `TtySizes.TwoNoticesInFlight` is a run where two sizes cross, and
  `TtySizes.DepartedViewerPanics` one where a single notice of the applied size panics and a
  viewer is never told of it.
- Starts check the memory budget before they allocate. With `n` of them under way the total may
  pass the limit by `n - 1` of the largest buffers and no more (`Buffers.BudgetHolds`), which
  happens for every `n` (`Buffers.OverlapExceeds`). The promised quarter of memory is never
  exceeded exactly when starts come one at a time or memory is too small for any buffer
  (`Buffers.QuarterHoldsIff`).
- The log stream, unlike the terminal replay, does not look at the head when its first read is
  empty. With a cursor beyond the head it stays silent exactly until the ring has grown past it
  (`LogStreams.SilentIff`, with the run `LogStreams.StaleCursorRun`), and a stream misses
  nothing written after it was opened exactly when its cursor was not beyond the head
  (`LogStreams.StreamCompleteIff`).
- A form token can be accepted a second time: `Limiters.AcceptedIff` says exactly when a token
  is accepted, and `Limiters.AcceptedAgain` is a run with two acceptances.
- The event stream carries every text except one with a carriage return,
  `EventStreams.StreamUndone`.

## Model

| member | source | states |
|---|---|---|
| RingBuffers.RingBuffer.constructor | internal/framework/ringbuffer.go:48-54 | an empty open ring of any capacity, zero and negative included |
| RingBuffers.RingBuffer.Store | internal/framework/ringbuffer.go:79-98 | after the wrapped copy the array holds exactly the newest bytes of the extended history at their slots |
| RingBuffers.RingBuffer.Write | internal/framework/ringbuffer.go:66-109 | the history grows by the argument, writes longer than the capacity and writes that wrap included; a closed ring takes nothing and answers 0 |
| RingBuffers.RingBuffer.Offset | internal/framework/ringbuffer.go:112-116 | the number of bytes ever accepted, also after a close |
| RingBuffers.RingBuffer.BytesUsed | internal/framework/ringbuffer.go:119-123 | the smaller of capacity and history length while open, 0 once closed |
| RingBuffers.RingBuffer.Tail | internal/framework/ringbuffer.go:127-137 | the newest held bytes, at most `n`, and the head |
| RingBuffers.RingBuffer.ReadSince | internal/framework/ringbuffer.go:140-164 | the history slice that starts at the cursor or at the oldest held byte, with the offset after it; the error for a negative limit |
| RingBuffers.RingBuffer.Close | internal/framework/ringbuffer.go:167-173 | closed for good, nothing held, head kept |
| RingBuffers.RingBuffer.CopyRange | internal/framework/ringbuffer.go:183-194 | unwrapping gives the history slice |
| RingBuffers.RingBuffer.Perform | internal/framework/ringbuffer.go:14-27 | any sequence of writes and closes on the array ends where the same sequence on the abstract ring ends |
| RingBuffers.WriteKeepsHolding | internal/framework/ringbuffer.go:79-107 | every live offset of the new history sits at its index modulo the capacity, whether just written or kept |
| RingBuffers.RunHistory | internal/framework/ringbuffer.go:66-109 | after any run the history is what was accepted before the first close |
| RingBuffers.FreshRingHoldsLastCapBytes | internal/framework/ringbuffer.go:14-32 | the documented contract: exactly the last `cap` bytes while open, none once closed, offset counts every byte |
| RingBuffers.ReadSinceContract | internal/framework/ringbuffer.go:140-164 | a non-empty answer is the slice from the cursor or the oldest held byte, as long as the limit and the head allow, and moves forward; an empty one never moves past a held byte |
| RingBuffers.ReadSinceEdges | internal/framework/ringbuffer.go:140-152 | a negative limit is the error and nothing else is; a zero limit reads nothing; a negative cursor is the start |
| Replays.ManagerTailExact | internal/framework/manager.go:417-444 | the manager's lower clamp on the tail cursor never fires for a ring: answer and offset are the ring's own, as many of the newest bytes as asked for and held, 4096 when the number is not positive |
| Replays.CatchUpInvariant | internal/app/app.go:2642-2847 | after any number of reads and whatever happens between them: chunks are history slices in order, gaps were evicted, the frames are start sync plus chunks, the counters match |
| Replays.NoLiveByteSkipped | internal/app/app.go:2642-2871 | wherever the connection drops, every offset between the presented cursor and the one the client now holds was received or had been evicted at one of the reads |
| Replays.CursorOnWire | internal/app/app.go:2677-2684 | what a client that adopts syncs and adds frame lengths holds after any prefix of the frames |
| Replays.DropIsSafe | internal/app/app.go:2805-2846 | from the start sync on the cursor is at most the end of the last byte received, with equality when no eviction overtook it between reads |
| Replays.ChainSkipsNothingLive | internal/app/app.go:2684-2704 | over any chain of dropped reconnects every offset below the final cursor was received on one of them or evicted |
| Replays.AccessDecreases | internal/app/app.go:2684-2847 | each read lowers a measure made of the remaining budget and the first-read flag |
| Replays.RankFalls | internal/app/app.go:2684-2847 | so the number of reads is bounded, whatever the writer does |
| Replays.HandshakeTerminates | internal/app/app.go:2684-2847 | a handshake ends within that many reads, and sends less than the budget plus one chunk |
| Replays.DefensiveExitUnreachable | internal/app/app.go:2836-2844 | the exit for a read that does not advance is never taken on a ring |
| Replays.CursorlessModes | internal/app/app.go:2585-2641 | what the two modes without a cursor send |
| Replays.CursorlessEnd | internal/app/app.go:2585-2641 | the offset they publish is one the ring held |
| Replays.SyncsByOptIn | internal/app/app.go:2579-2871 | for every mode and whatever the accesses saw: a client that did not opt in to sync frames is sent the bytes of the chunks and no sync; one that did is sent the same with syncs besides, the last frame of a finished handshake being the sync of its end; a refused one ends with the closing frame |
| Replays.ConsultExact | internal/app/app.go:2728-2799 | the second look at the head: back to reading when there is more, done at the head, or the newest bytes with their start when the cursor is beyond it |
| Replays.StaleCursorReplay | internal/app/app.go:2728-2799 | over a still ring a cursor beyond the head is answered with exactly the newest held bytes, at most one chunk, their start and the real head |
| Replays.AbsentInstance | internal/framework/manager.go:417-501 | an instance that is not running replays nothing in any mode and publishes 0 |
| Replays.FailedAccessRefuses | internal/app/app.go:2710-2745 | a failed access is followed by the closing frame and nothing else |
| Replays.QuietInvariant | internal/app/app.go:2642-2847 | with the head still, what a handshake has sent so far is exactly the next stretch of history |
| Replays.QuietHandshakeExact | internal/app/app.go:2684-2847 | with the head still and the cursor not evicted, one handshake delivers exactly the smaller of 8 MB and what is left |
| Replays.ResumeExact | internal/app/app.go:2866-2871 | handshakes that each resume from the published offset concatenate to the history with no gap or repeat |
| Replays.ReconnectsConverge | internal/app/app.go:179 | and the delta divided by 8 MB, rounded up, of them reach the head |
| Handshakes.PlayEvolves | internal/framework/ringbuffer.go:29-32 | any environment between two reads only extends the ring or closes it |
| Handshakes.SnapshotsTimeline | internal/app/app.go:2642-2847 | so the snapshots of a handshake against a live ring are among those the replay theorems quantify over |
| Handshakes.Handshake.Interfere | internal/framework/ringbuffer.go:66-109 | writer and framework act on the ring between two reads |
| Handshakes.Handshake.ReadSince | internal/framework/manager.go:486-501 | the manager's answer for the snapshot the read saw |
| Handshakes.Handshake.Tail | internal/framework/manager.go:417-444 | likewise for the tail |
| Handshakes.Handshake.EndOffset | internal/framework/manager.go:464-482 | likewise for the head alone |
| Handshakes.Handshake.SendChunk | internal/app/app.go:2802-2835 | start sync once and only if agreed, then the bytes; a failed write ends the handshake with a prefix sent |
| Handshakes.Handshake.ReadAndSend | internal/app/app.go:2710-2835 | one read of the loop and its chunk on the socket are one step of the fold, or the handshake ends with a prefix sent |
| Handshakes.Handshake.Consult | internal/app/app.go:2728-2799 | the one second look at the head: tail, retry, or caught up |
| Handshakes.Handshake.CatchUp | internal/app/app.go:2642-2847 | the loop ends in exactly the state of the fold over the snapshots its reads saw |
| Handshakes.Handshake.FirstConnect | internal/app/app.go:2585-2641 | the same for the modes without a cursor |
| Handshakes.Handshake.Complete | internal/app/app.go:2579-2871 | the whole handshake puts on the socket exactly the frames of the fold, cut at the first failed write, and succeeds exactly when nothing failed or was refused; without the opt-in no sync frame is sent, with it a success ends with the sync of the replay's end |
| LogStreams.FollowTruthful | internal/app/app.go:3121-3208 | after any number of polls the painted chunks are faithful and the cursor is the last published offset |
| LogStreams.LogSkipsNothingLive | internal/app/app.go:3142-3144 | every offset between the stream's start and the client's cursor was painted or had been evicted |
| LogStreams.StaleCursorSilent | internal/app/app.go:3160-3164 | nothing below the presented cursor is ever painted |
| LogStreams.SilentIff | internal/app/app.go:3178-3200 | on a live instance with an open ring the stream has painted nothing exactly as long as the head has not passed the presented cursor |
| LogStreams.StaleCursorRun | internal/app/app.go:3178-3200 | a run with cursor 5 over an empty ring: three bytes are written and held, none is painted |
| LogStreams.StreamCompleteIff | internal/app/app.go:3142-3144 | a stream opened on a live instance misses nothing written afterwards, in any continuation, exactly when its cursor is not beyond the head (or the ring can hold nothing) |
| LogStreams.OpenCursorless | internal/app/app.go:3130-3166 | what the two modes without a cursor start with: the newest held bytes or nothing, and the head |
| LogStreams.OpenAbsent | internal/framework/manager.go:417-501 | an instance that is not running is an empty log |
| LogStreams.OneEventPerRead | internal/app/app.go:3178-3208 | every read gives the client exactly one event until one fails, which ends the stream |
| LogStreams.LogConverges | internal/app/app.go:3142-3200 | over a still ring `n` reads have painted exactly the next `n` chunks of 64 KB, or all there is |
| LogStreams.Serve | internal/app/app.go:3121-3208 | the handler's loop sends exactly the events of the fold up to the client's first refusal: a failed ping is ignored, a failed log event ends it |
| Fanout.SoundNext | internal/instance/pty/driver.go:490-592 | every step keeps: registered channels are open and under their own id, open ones are registered, queues within 64, no id with an empty set |
| Fanout.NoGapsNext | internal/instance/pty/driver.go:490-571 | every step keeps: received plus queued is what the subscriber is owed |
| Fanout.FanOutHasNoGaps | internal/instance/pty/driver.go:283-312 | in every run a registered subscriber has received, or has queued in order, exactly the chunks broadcast to its id since it subscribed |
| Fanout.RegistryExact | internal/instance/pty/driver.go:490-592 | in every run a step drops a subscriber exactly when it cancels it or broadcasts to its id with 64 chunks already queued for it, and adds exactly the one that subscribes |
| Fanout.CancelKeepsBacklog | internal/instance/pty/driver.go:572-592 | in every run, from the cancel of a subscriber that had kept up: received plus still readable stays exactly what was broadcast to its id between subscription and cancel |
| Fanout.HeldIsPrefix | internal/instance/pty/driver.go:490-571 | in every run what a subscriber has received and can still receive is a prefix of what it was owed, unless a drain took from it |
| Fanout.DrainsOnlyShrink | internal/instance/pty/driver.go:361-372 | one step never lengthens a queue that is being drained, and a drain's own step shortens it or ends the drain |
| Fanout.OverflowDrains | internal/instance/pty/driver.go:369-372 | in every run after an overflow: the channel stays closed, its drain makes at most 65 receives, and once the drain has ended the queue is empty |
| Fanout.Hub.SubscribeOutput | internal/instance/pty/driver.go:558-592 | a fresh empty channel under the id; the empty id is refused |
| Fanout.Hub.CloseLocked | internal/instance/pty/driver.go:404-411 | closes at most once and says whether it did |
| Fanout.Hub.CancelOutput | internal/instance/pty/driver.go:572-592 | any number of times, before or after an overflow |
| Fanout.Hub.TrySend | internal/instance/pty/driver.go:511-513 | the non-blocking send, only ever on an open channel |
| Fanout.Hub.OfferAll | internal/instance/pty/driver.go:510-534 | each subscriber of the id gets the chunk or is disconnected, in whatever order the map yields them |
| Fanout.Hub.Disconnect | internal/instance/pty/driver.go:513-533 | registry entry and, with the last one, the id key are gone; the channel is closed and keeps its queue |
| Fanout.Hub.BroadcastOutput | internal/instance/pty/driver.go:490-535 | the whole critical section, and which channels it closed |
| Fanout.Hub.Drain | internal/instance/pty/driver.go:369-372 | terminates on a closed channel and leaves it empty |
| Fanout.Hub.DrainAll | internal/instance/pty/driver.go:498-509 | every channel a broadcast closed is emptied, and no other is touched |
| Sessions.EventKeepsInv | internal/instance/pty/driver.go:283-312 | every event keeps: the ring is what was broadcast plus the pending chunk, and the client's account is in order |
| Sessions.CursorNeverRunsAhead | internal/app/app.go:2866-2880 | over whole runs with any reconnects the cursor passes the head by at most the chunk caught between its ring write and its broadcast at subscription, and never when those two are one step |
| Sessions.LiveBytesExact | internal/instance/pty/driver.go:290-308 | what a connected client received live is exactly the output from where it joined |
| Sessions.RunRemembers | internal/app/app.go:2866-2880 | over whole runs the client's replay stays a finished one over snapshots of this ring, and the joining offset is what had been broadcast |
| Sessions.LiveCursorTruthful | internal/app/app.go:2561-2574 | in every run, for a client live on an open subscription: every offset from where its replay began to its cursor was sent by the replay, evicted at one of its reads or received live, exactly when the closing sync named the number of bytes broadcast at the subscription, or nothing arrived live |
| Sessions.CursorlessSkips | internal/app/app.go:2585-2641 | exactly which offsets the two modes without a cursor put behind the client's cursor unsent: all but the newest 64 KB held, or all of them |
| Sessions.WindowIsSkipped | internal/app/app.go:2561-2574 | a concrete run in which a byte the ring still holds is behind the live cursor and was neither sent, nor evicted at a read, nor received live |
| WsFrames.MaskedTwice | internal/ws/ws.go:248-252 | masking is its own inverse (section 5.3 of RFC 6455) |
| WsFrames.MaskedBits | internal/ws/ws.go:248-252 | masking bit by bit (section 5.3 of RFC 6455): bit k of octet i is set exactly when it differs between the payload's octet i and the key's octet i modulo 4 |
| WsFrames.StandardFrames | internal/ws/ws.go:269-310 | the frames of section 5.7 of RFC 6455: "Hello" unmasked and masked, and the length headers of 256 and 65536 octets |
| WsFrames.LengthRoundTrip | internal/ws/ws.go:217-285 | the parser recovers a length from each of the three forms, up to the 32 bits the printer writes |
| WsFrames.DecodeEncoded | internal/ws/ws.go:209-310 | what the parser makes of any printed frame, errors included |
| WsFrames.FrameSurvives | internal/ws/ws.go:209-310 | a frame within the limits is read back and nothing after it is consumed |
| WsFrames.FrameLost | internal/ws/ws.go:209-310 | any other frame is not |
| WsFrames.FrameRoundTrip | internal/ws/ws.go:209-310 | so a frame survives exactly when its opcode is a nibble, its payload fits, and it is masked or read by a client (sections 5.2 and 5.3 of RFC 6455) |
| WsFrames.ParsedLayout | internal/ws/ws.go:209-254 | whatever the parser accepts has the layout of section 5.2 of RFC 6455 octet by octet: final bit, opcode, mask bit, the three lengths most significant octet first, key, payload; the rest is left; a server accepts only masked frames |
| WsFrames.PrintedLayout | internal/ws/ws.go:269-310 | every printed frame within the limits has that layout |
| WsFrames.TruncatedFrame | internal/ws/ws.go:209-254 | a printed frame that breaks off anywhere is reported as the end of the stream |
| WsFrames.Conn.ReadFull | internal/ws/ws.go:211-214 | all the bytes asked for, or the error |
| WsFrames.Conn.Unmask | internal/ws/ws.go:248-252 | the in-place loop is the masking function, bit by bit that of section 5.3 of RFC 6455 |
| WsFrames.Conn.ReadExtendedLength | internal/ws/ws.go:217-234 | the length the three forms mean |
| WsFrames.Conn.ReadFrame | internal/ws/ws.go:209-254 | the reader is the parser whose layout `WsFrames.ParsedLayout` fixes, and leaves the unread rest |
| WsFrames.Conn.Header | internal/ws/ws.go:272-285 | the printer's header bytes |
| WsFrames.Conn.Mask | internal/ws/ws.go:302-305 | the copied payload, masked bit by bit as section 5.3 of RFC 6455 says |
| WsFrames.Conn.WriteFrame | internal/ws/ws.go:269-310 | appends exactly the printed frame, whose layout `WsFrames.PrintedLayout` fixes |
| WsMessages.Reader.ReadMessage | internal/ws/ws.go:163-207 | one call is the reassembly function on the byte stream, and no open message leaves the buffer empty |
| WsMessages.ControlOpcodes | internal/ws/ws.go:177-182 | opcodes 8, 9 and 10 are control frames and no others |
| WsMessages.ControlsAreTransparent | internal/ws/ws.go:177-182 | control frames between fragments change nothing about the data messages |
| WsMessages.DeliveredInOrder | internal/ws/ws.go:177-206 | messages and control frames come out in the order in which the frames complete them |
| WsMessages.OneMessageAssembles | internal/ws/ws.go:183-206 | one message, however split |
| WsMessages.ReassemblyIsExact | internal/ws/ws.go:163-207 | any messages, any split, any control frames in between: read back with first opcode and whole payload, each control frame after exactly the data messages completed before it, precisely when every multi-part message fits the cap (section 5.4 of RFC 6455) |
| WsMessages.FramesJudged | internal/ws/ws.go:163-207 | any frames at all: a client accepts them exactly when each data frame continues an open message or starts one when none is open and no continued message passes the cap; otherwise it fails with the error of the first frame that does not |
| WsMessages.ServerReceives | internal/ws/ws.go:169-176 | a server takes each final masked frame as a message and refuses fragments and unmasked frames |
| WsMessages.BytesAssemble | internal/ws/ws.go:163-310 | reading the printed bytes of any frames, each masked with its own key or not at all, delivers the same messages as the frames and stops with the same error |
| WsMessages.ClientReadsExactly | internal/ws/ws.go:163-310 | codec and reassembly together: any messages, any split, any control frames and any keys are read back exactly from the bytes, control frames in their places, precisely when every multi-part message fits the cap |
| WsMessages.ReadAll | internal/instance/dsh_web/bridge.go:223-228 | a client that calls ReadMessage until an error gets exactly those messages and that error |
| Reorders.AcceptedIff | internal/framework/methods.go:193-213 | the checks pass exactly when the listed ids are the worktree's instances |
| Reorders.ReorderPlaces | internal/framework/methods.go:214-227 | the worktree's instances in exactly the requested order; behind them all others, once each, at increasing places of the old list |
| Reorders.AcceptedPlaces | internal/framework/methods.go:214-227 | the same without assuming that ids are unique: each listed id has the last instance of that id |
| Reorders.RefusalNames | internal/framework/methods.go:193-213 | a refusal names the first instance the list forgets or, when it forgets none, the first listed id that is no instance of the worktree |
| Reorders.LookupLast | internal/framework/methods.go:214-217 | the instance held for an id is the last one that has it |
| Reorders.PermutationIffNoRepeats | internal/framework/methods.go:193-227 | the new list is a permutation of the old one exactly when no id is listed twice |
| Reorders.RepeatedIdDuplicates | internal/framework/methods.go:193-227 | a repeated id that the checks accept |
| Reorders.IndexById | internal/framework/methods.go:214-217 | the map built in list order holds the last instance of each id |
| Reorders.BuildOrder | internal/framework/methods.go:214-226 | the two rebuilding loops: the listed instances, then all others in the order they had |
| Reorders.ReorderInstances | internal/framework/methods.go:193-227 | checks and rebuild together, with the error for the first offending id; on success all other instances keep their order behind the listed ones |
| Stores.SavedFromCurrent | internal/store/state.go:166-171 | a save the version check lets through was made from the current state |
| Stores.InvSave | internal/framework/manager.go:727-734 | so each save, accepted or refused, keeps the file the serial result of the commits |
| Stores.Serializable | internal/framework/manager.go:659-737 | any interleaving of loads and saves ends in the committed edits applied serially, one version per commit; success is exactly one commit, anything else none |
| Stores.ApplyLands | internal/framework/manager.go:659-737 | what an attempt does to the state it loaded, said of the states alone: the callback's result replaces the first instance with the id, an append is last in the list and in its worktree's tabs, a rearrangement has its order, all else is as it was; and exactly when there is nothing to save |
| Stores.CommitsLand | internal/framework/manager.go:659-737 | over any interleaving every commit has landed in that sense on the state the commits before it had left, one version higher |
| Stores.GivesUpLast | internal/framework/manager.go:705-737 | over any interleaving a call saves at most three times (a rearrangement once) and gives up only then |
| Stores.StaleRearrangeRefused | internal/store/state.go:167-169 | a rearrangement with a stale version changes nothing |
| Stores.HonestyIsExact | internal/store/state.go:142-149 | a save is sure to land on the state it was prepared from exactly when the expected version is neither negative nor newer than that state |
| Stores.UncheckedSaveLosesCommit | internal/store/state.go:167-169 | with a negative version a committed append is wiped out |
| Stores.FileStore.SaveWithVersion | internal/store/state.go:150-186 | commits exactly when the version matches or is negative; a conflict changes nothing; the history stays serial when the saved state was made from the one it replaces |
| Stores.FileStore.EditOne | internal/framework/manager.go:713-725 | the search and the callback: the first instance with the id becomes what the callback made of it and nothing else changes; or not found, or refused by the callback |
| Stores.FileStore.UpdateStore | internal/framework/manager.go:705-737 | at most three attempts; on success one commit, and the file holds the edit, made to the state the other writers had left; gives up only after another writer got in between each time |
| Stores.FileStore.PersistNewInstance | internal/framework/manager.go:659-687 | the same for the append of a new instance, last in the list and in its worktree's tabs |
| Stores.FileStore.Rearrange | internal/framework/methods.go:182-233 | commits exactly when the checks pass and the client's version is negative or still the file's after what other writers did; the file then has the requested order, all other instances and tabs as they were; the history stays serial for a version honestly given |
| TtySizes.SharedUnique | internal/app/app.go:481-507 | the componentwise minimum of the reported sizes is unique, whatever order the map yields them in |
| TtySizes.StepKeeps | internal/app/app.go:396-543 | every join, leave, report and receive keeps the invariant below |
| TtySizes.SharedSizeHolds | internal/app/app.go:396-543 | at every moment: at most 8 viewers, the applied size is the componentwise minimum (none when nobody reported), every viewer shows it or has it waiting, a positive one is the terminal's own |
| TtySizes.StepBooks | internal/app/app.go:396-479 | every step: a newcomer has no size, a leaver is struck out, a report by a viewer who is there is recorded as it is, nothing else changes who is there or what they reported |
| TtySizes.RecordedSizes | internal/app/app.go:396-479 | at every moment of every run the viewers are exactly those let in below the limit who have not left, and each one's size is the last it reported since, none if it reported none |
| TtySizes.StepTells | internal/app/app.go:481-543 | the terminal is only ever given a positive applied size, and while the applied size stays the same nothing new waits for anybody and the terminal is left alone |
| TtySizes.MoveKeeps | internal/app/app.go:396-543 | with the lock, every resize, send and channel close as separate steps: unless one has panicked, the deliveries under way, finished in issue order, lead every viewer and the terminal to the applied size; whoever is still listed is a viewer or has left |
| TtySizes.LandedFlightsAgree | internal/app/app.go:396-543 | in every run of those steps, whenever nothing is under way and no delivery has panicked the whole invariant of the shared size holds |
| TtySizes.FlightRecordedSizes | internal/app/app.go:396-543 | the recorded sizes are the last reported ones also with every resize, send and close as a step of its own, panics included |
| TtySizes.EveryOrderIff | internal/app/app.go:444-543 | at every moment of every such run without a panic so far, every interleaving of the resizes, sends and closes under way ends without a panic and with viewers and terminal in step exactly when each delivery names the applied size and everyone it has yet to send to is still there |
| TtySizes.TwoNoticesInFlight | internal/app/app.go:481-513 | a reachable state with two notices under way that name different sizes, from which some interleaving ends out of step |
| TtySizes.DepartedViewerPanics | internal/app/app.go:459-541 | a reachable state with one notice under way that names the applied size, from which the close of a departed viewer's channel makes its delivery panic: nothing is under way any more and a viewer was never told |
| TtySizes.Sizes.Register | internal/app/app.go:396-419 | a new viewer without a size and with the applied size waiting; the ninth is refused |
| TtySizes.Sizes.Recompute | internal/app/app.go:481-513 | the loop finds the minimum, and says whom to tell if it changed |
| TtySizes.Sizes.Send | internal/app/app.go:530-541 | the newest size replaces whatever waited |
| TtySizes.Sizes.Apply | internal/app/app.go:515-543 | terminal resized if the size is positive, every listed viewer notified; a panic exactly when a listed viewer has left, after some of the others were notified |
| TtySizes.Sizes.Unregister | internal/app/app.go:444-463 | exactly that viewer is gone, and the instance key with the last one; the rest are in step |
| TtySizes.Sizes.Update | internal/app/app.go:467-479 | the reported size is recorded for that viewer, whatever it had reported before, and for no other; an unknown viewer changes nothing; everyone is in step with the new minimum |
| TtySizes.Sizes.Take | internal/app/app.go:3055-3060 | the viewer receives what waited, and nothing waits any more |
| Buffers.ClampCap | internal/framework/memsampler.go:130-138 | the nearest size in range |
| Buffers.AdaptiveCap | internal/framework/memsampler.go:109-128 | a configured size is taken, cut to the range; without one the size is in range |
| Buffers.AdaptiveFits | internal/framework/memsampler.go:113-128 | without a configured size a sixteenth of free memory, within range; the default when nothing is known |
| Buffers.ResolveCap | internal/framework/memsampler.go:89-107 | a granted size lies in range and keeps the total within the limit; a refusal means the size would not have fitted, and reports the figures; the two memory samples are separate |
| Buffers.AllocateKeepsTotal | internal/framework/methods.go:492-504 | the running total stays the sum of live capacities exactly when the id is new (or its buffer counted nothing) |
| Buffers.DropKeepsTotal | internal/framework/methods.go:474-488 | dropping keeps it, and dropping twice is dropping once |
| Buffers.StepKeepsBound | internal/framework/manager.go:210-279 | each check, allocation, abandoned start and drop keeps the bound |
| Buffers.BudgetHolds | internal/framework/manager.go:210-279 | in every run: total is the sum of live capacities, each in range, and at most a quarter of memory plus one largest buffer per further start under way |
| Buffers.OverlapExceeds | internal/framework/manager.go:210-257 | for every number of overlapping starts a run that reaches the bound |
| Buffers.QuarterHoldsIff | internal/framework/memsampler.go:78-88 | no run exceeds a quarter of memory exactly when starts come one at a time or a quarter of memory is less than the smallest buffer |
| Buffers.Manager.AllocateBuffer | internal/framework/methods.go:492-504 | a fresh open ring under the id, the total raised by its capacity |
| Buffers.Manager.DropBuffer | internal/framework/methods.go:474-488 | ring closed and forgotten, total lowered; repeated calls do nothing |
| Buffers.Manager.Start | internal/framework/manager.go:210-258 | one start at a time stays within a quarter of memory; kinds without output allocate nothing |
| Limiters.WindowLimit | internal/portal/portal.go:961-982 | over any run, with cleanups anywhere, every half-open minute holds at most 20 admitted attempts of an address |
| Limiters.AdmittedIff | internal/portal/portal.go:961-982 | and an attempt is refused only for that reason or a full table, which holds exactly the addresses whose last admitted attempt the last cleanup found no older than five minutes |
| Limiters.TokensApart | internal/portal/portal.go:869-894 | only issued tokens are accepted, and two acceptances of one token are more than five minutes apart |
| Limiters.AcceptedIff | internal/portal/portal.go:869-894 | in every reachable state, exactly when a token is accepted: equal values, issued, and either unused and at most five minutes old, or last accepted more than five minutes ago with no cleanup since |
| Limiters.IssuedIff | internal/portal/portal.go:851-857 | in every reachable state a new token is refused exactly when 10000 tokens are in use: accepted, and not found stale by a cleanup since |
| Limiters.AcceptedAgain | internal/portal/portal.go:882-892 | a run in which one token is accepted twice |
| Limiters.RequestPace | internal/portal/portal.go:896-910 | over any run admitted form requests of an address are at least a second apart, and one is refused only for that or a full table, which holds exactly the addresses whose last admitted request the last cleanup found no older than five minutes |
| Limiters.CsrfState.Recent | internal/portal/portal.go:969-975 | the filtering loop |
| Limiters.CsrfState.Allow | internal/portal/portal.go:961-982 | the admission decision; a refusal changes nothing |
| Limiters.CsrfState.AllowRequest | internal/portal/portal.go:896-910 | the pace decision; a refusal changes nothing |
| Limiters.CsrfState.NewToken | internal/portal/portal.go:851-867 | the token becomes pending, unless too many are in use |
| Limiters.CsrfState.Consume | internal/portal/portal.go:869-894 | each branch of the token check |
| Limiters.CsrfState.SweepLists | internal/portal/portal.go:946-958 | stale stamps leave, and addresses left without any |
| Limiters.CsrfState.SweepAll | internal/portal/portal.go:926-959 | cleanup of tokens, request stamps and addresses |
| EventStreams.ParseItem | internal/instance/dsh_web/bridge.go:241-251 | each written item alone is read back as its event, whatever follows |
| EventStreams.CloseReports | internal/instance/dsh_web/bridge.go:234-240 | a close is read back with the decimal numeral of the status code in its first two octets, most significant first, or of 1000 without them |
| EventStreams.HandledExact | internal/instance/dsh_web/bridge.go:223-253 | the pump stops at the first close or ping that cannot be answered, and at nothing else |
| EventStreams.StreamUndone | internal/instance/dsh_web/bridge.go:241-264 | the standard parser gets back exactly the messages, in order, with openings and keep-alives anywhere, precisely when no text contains a carriage return |
| EventStreams.BrokenStream | internal/instance/dsh_web/bridge.go:272-281 | wherever the connection breaks, a prefix of the messages was dispatched |
| EventStreams.CutPrefix | internal/instance/dsh_web/bridge.go:272-281 | for any text at all: reading only its start dispatches only the first of its events |
| EventStreams.ClientSees | internal/instance/dsh_web/bridge.go:223-254 | for every connection: the client dispatches a prefix of the handled messages, all of them when nothing failed |
| EventStreams.Downlink.KeepAlive | internal/instance/dsh_web/bridge.go:256-270 | keep-alives up to the first failed write |
| EventStreams.Downlink.Forward | internal/instance/dsh_web/bridge.go:229-253 | one turn of the switch: text, binary, close, ping, and what is not forwarded |
| EventStreams.Downlink.Pump | internal/instance/dsh_web/bridge.go:223-254 | what reaches the client is the text of the messages up to the first close or unanswered ping, with keep-alives between and behind them, cut where the client stopped accepting |

## Left out

- RingBuffers: offsets are unbounded; the 64-bit counters of the source would wrap after 2^63 bytes.
- RingBuffers.RingBuffer.Write: the byte-slice and string variants share one argument.
- Replays.NoLiveByteSkipped: the client is a cursor that adopts sync offsets and adds frame lengths. A browser whose cursor is 0 omits `since` (internal/ui/static/index.html:4618) and takes the cursorless mode, which `Replays.CursorlessModes` covers.
- Handshakes.Handshake.Complete: heartbeats, read deadlines and the handshake timer are not modelled; a write either happens whole or fails.
- Sessions.LiveBytesExact: contiguity of what a consumer reads after an overflow closed its channel is not claimed, because it races the drain (internal/instance/pty/driver.go:419-427). The ring stays open throughout a session run.
- TtySizes.LandedFlightsAgree: deliveries are finished one after the other in issue order; `TtySizes.EveryOrderIff` is about every other order from any such moment.
- Sessions.CursorNeverRunsAhead: an instance enters the running map once and leaves it once (ids are not used again); a live client that pings, resizes or types does not change the cursor, so those messages are absent.
- LogStreams.Serve: the JSON around a log event is a pair; the ticker is one step per snapshot.
- WsFrames.FrameRoundTrip: the upgrade handshake, TLS and buffered-writer errors are not modelled; shifts and masks on header bytes are written as arithmetic.
- WsFrames.LengthRoundTrip: the printer writes only the low 32 bits of a 64-bit length; the statement says what a longer payload's length is read back as.
- Reorders.ReorderInstances: the surrounding-space trim of the worktree id; the empty id is refused in `Stores.FileStore.Rearrange`.
- Stores.Serializable: covers updateStore, persistNewInstance and ReorderInstances with a version the client was given. The unversioned writers (internal/worktree/worktree.go:216, 299 and 559) bypass the check; Delete, Restart and ReconcileRunningOnStartup save with the version they loaded, like the writers modelled. The worktree list of the state is left out, and a read or write error is a step that ends the call.
- Stores.FileStore.UpdateStore: a load or save that fails with an I/O error is left to the step machine of `Stores.Serializable`.
- TtySizes.SharedSizeHolds: each register, update and unregister is one step together with its notices; `TtySizes.LandedFlightsAgree` and `TtySizes.EveryOrderIff` take them apart.
- TtySizes.EveryOrderIff: what becomes of the program after a panic is not modelled beyond that delivery ending there; nor is a resize of the terminal that fails.
- Buffers.BudgetHolds: the budget sample names the same memory size at every start; without a sample the source does not check the budget at all, as `Buffers.ResolveCap` does here.
- Buffers.ResolveCap: a quarter of memory is computed exactly; the source goes through a 64-bit float, which differs only above 2^53 bytes.
- Limiters.TokensApart: assumes that a random token is not drawn twice.
- Limiters.CsrfState.NewToken: nothing happens between its two critical sections here; in the runs behind `Limiters.AcceptedIff` anything may.
- EventStreams.StreamUndone: text is a sequence of characters; UTF-8 decoding and the byte-order mark are not modelled, nor the reconnection time of a `retry` field. A binary payload is any string over the base64 alphabet.
- EventStreams.Downlink.Pump: the uplink, the connection registry, write deadlines and the dial error event are left out; whether a pong can be written is part of the ping message.
- Process spawning, signals, git, HTTP routing, cookies, TLS, reverse proxies, port claiming and the browser interface are outside the model; where a step needs their outcome it is a parameter.
- Forward-only status changes and tab-order cleanup are not claimed: the code does not enforce them.
