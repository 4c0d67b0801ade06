# gossh: verified models of sessions, forwards, the multiplexed socket and the capture engine

gossh serves SSH sessions to browsers. This project models the parts of it whose correctness is
decided by its own code rather than by a library, and proves properties of every run of them:

- **Sessions** (`Session.dfy`, `SessionRuns.dfy`, `Attaching.dfy`, `Ring.dfy`, `Replay.dfy`,
  `Delivery.dfy`): attaches
  compete for one connection slot through a token while an output pump fills a ring and feeds the slot.
- **Resident forwards** (`Forwards.dfy`, `ForwardRuns.dfy`, `Backoff.dfy`): a supervisor goroutine,
  ensure, reconcile and release share a connection and a table of port forwards per host.
- **The multiplexed WebSocket** (`Codec.dfy`, `Channels.dfy`, `Multiplex.dfy`, `Upstream.dfy`,
  `Downstream.dfy`, `Notices.dfy`): a framed codec on both sides, a router with asynchronous cleanup, queues, and
  browser channels that hold frames until opened. `Multiplex` says what can never happen, `Upstream` that
  what was sent does arrive.
- **The capture engine** (`Scanner.dfy`, `Tokens.dfy`, `Rewriting.dfy`, `Framing.dfy`, `Content.dfy`,
  `Emulator.dfy`, `Graphics.dfy`): a byte scanner that frames terminal output and rewrites it on its way to a terminal
  engine, and the placement of the pictures it finds.
- **The session registry** (`Registry.dfy`, `RegistryRuns.dfy`): live sessions and their records.

Objects the source updates in place are classes whose methods are proved against functions on values;
protocols are state machines with one step per section that holds a lock, run by `Exec` over an
arbitrary sequence of events (an event that is not enabled does nothing). Dial results, launches,
deaths of connections, decoders, the cursor of the terminal engine and the order of map iteration are
nondeterministic. `Bytes.dfy` holds what the modules share.

How a stream and its output are related: a *trace* cuts everything written so far into tokens
(characters, control sequences, control strings, partial characters that were given up) and an unframed
rest. `Rewriting.Explains` says that each token is what the grammar in `Tokens.dfy` calls it, that
tokens and rest are the stream, and that the outputs of the tokens are all the engine was sent. It is
part of `Emulator.Valid`, which every method keeps.

Where code and documentation disagree, the model follows the code:

- The test in `pumpChunk` against the replay boundary never withholds a chunk (`SessionRuns.RingAndBoundary`),
  so a chunk that was replayed is not skipped: `SessionRuns.ReplayedAndDelivered` is a run in which one is
  both replayed and delivered. `SessionRuns.SeesTwiceIff` says exactly when a byte of the snapshot is also
  offered live, and `Delivery.ReplayedTwiceIff` exactly when that is so of a byte replay sends. What
  holds is that nothing is missing.
- A connection that `ensure` installs on a released host state while the old supervisor still waits for
  the earlier connection can be dropped without being closed (`ForwardRuns.ExposedConnectionsCanBeLost`,
  `ForwardRuns.LateConnectionCanBeLost`); every other dial is accounted for.
- Two different forwards can share a key (`Forwards.KeysCanCollide`), exactly when a listening address or a
  target contains a bar (`Forwards.KeyIsSharedIff`, `Forwards.KeysTellApart`).
- `list` reports a forward that is in neither table as running (`ForwardRuns.ListCanMislead`);
  `Forwards.ListIsTruthfulIff` says exactly when a row is true.
- A virtual connection writes whether or not it is closed, so after a Detach and a new Attach the new
  browser channel can receive output of the old connection (`Downstream.StaleFrameArrives`);
  `Downstream.StaleFrameIff` says exactly when. The same holds of eviction notices: a channel can be told
  that it was preempted by its own attach (`Notices.PreemptorIsToldPreempted`, `Notices.ToldOfAnotherIff`).
- `Write` strips kitty placeholders and then returns the stripped length, so it reports fewer bytes than
  it was given exactly when there was a placeholder (`Emulator.StripLength`).
- CSI b with no character since the last reset reuses the replacement of the last replaced sequence:
  `Content.StaleRepeat` is an input, `Content.RepeatMeans` says what it sends in every case, and
  `Content.RemembersLastChar` exactly when there is a character to repeat.
- A backoff base above the maximum, and only that, makes a sleep longer than the maximum, already the
  first one (`Backoff.OversleepsIff`, `Backoff.BackoffIsCappedIff`).
- A session that is re-created from its record starts without the record's title
  (`RegistryRuns.LiveTitleAgreesIff`); exited sessions count against the cap, so that an id can be refused
  while fewer sessions than the cap are alive (`RegistryRuns.RefusedBelowCapIff`,
  `RegistryRuns.ExitedBlocksOwnId`); and `Destroy` can unregister a session newer than the one it closed
  (`RegistryRuns.DeleteHitsNewerIff`).
- `intDivCeil` is not a rounded-up quotient for every negative dividend (`Graphics.CeilCovers`), and
  `rawToImage` would panic on sides that overflow (`Graphics.RawToImage`); no caller passes either.

## Model

| member | source | states |
|---|---|---|
| `Ring.Ring.Write` | internal/session/ring.go:20-37 | after any write the ring is exactly the last bytes, up to its capacity, of everything ever written |
| `Ring.Ring.Snapshot` | internal/session/ring.go:40-44 | a snapshot is the ring's contents and changes nothing |
| `Session.Session.Install` | internal/session/session.go:432-445 | the first section of Attach: refused exactly on a destroyed session, otherwise takes the slot with a new token and hands out the connection it threw out |
| `Session.Session.Finish` | internal/session/session.go:456-471 | the last section of Attach: gives the slot back only with the current token, and reports preemption exactly otherwise on a live session |
| `Session.Session.Destroy` | internal/session/session.go:492-506 | empties the slot, invalidates every token, and names the one connection still to be closed |
| `Session.Session.TakeSnapshot` | internal/session/session.go:519-527 | the snapshot is the ring's worth of output up to the boundary it records |
| `Session.Session.PumpChunk` | internal/session/session.go:697-709 | the chunk joins the output and is offered to whoever holds the slot; the boundary test never rejects it |
| `SessionRuns.ReachableStatesAreGood` | internal/session/session.go:432-509 | ownership, eviction and data-flow invariants hold in every state of every interleaving |
| `SessionRuns.SlotOwnership` | internal/session/session.go:432-509 | in every run: running means exactly one unfinished attach has the current token, the slot holds exactly that attach's connection and is empty otherwise, and destroy leaves no attach with the current token |
| `SessionRuns.TokensGrowAndDestroyedStays` | internal/session/session.go:492-509 | over every run tokens never decrease and a destroyed session stays destroyed |
| `SessionRuns.ConnectionLeavesOnce` | internal/session/session.go:438-473 | over every continuation of a run, how and when a connection left the slot never changes |
| `SessionRuns.LinearEviction` | internal/session/session.go:438-473 | a connection is closed at most once, only by its one evictor; the client hears preempted only after a takeover, and destroyed whenever destroy evicted it |
| `SessionRuns.PreemptedIffNewerAttach` | internal/session/session.go:456-473 | an attach returns the preempted error iff at its finish the session is alive and a newer attach exists |
| `SessionRuns.NoOutputGap` | internal/session/session.go:519-547 | an attach with its snapshot at q got exactly the ring's worth before q, and the chunks from q on that were offered to it spell the output from q to where it left the slot |
| `SessionRuns.HolderSeesUnbrokenSuffix` | internal/session/session.go:697-738 | for the holder between pump rounds, replay and live output form one unbroken suffix of everything printed |
| `SessionRuns.RingAndBoundary` | internal/session/session.go:697-709 | in every state the ring is the tail of all output, the boundary is not ahead of it, and the boundary test always passes |
| `SessionRuns.SeesTwiceIff` | internal/session/session.go:664-709 | in every run some byte is both in an attach's snapshot and offered to it exactly when a byte the ring still held at the snapshot was printed after its install and before it left the slot; the chunks offered before the snapshot spell all output from the install to the snapshot or to where it left |
| `SessionRuns.ReplayedAndDelivered` | internal/session/session.go:664-709 | a run in which a chunk is replayed and delivered |
| `Attaching.AttachTakesSlot` | internal/session/session.go:432-445 | in every run a new attach on a session that is not destroyed is in the slot afterwards with a token one higher, and whoever held the slot has left it, taken over by this attach |
| `Attaching.DestroyEnds` | internal/session/session.go:492-506 | in every run destroy leaves an empty slot, a current token that no attach has and the former holder evicted, for the destroyer to close |
| `Attaching.EvictedIsClosed` | internal/session/session.go:438-509 | in every run an evictor that gets to it has closed the connection it threw out once, with the notice that fits |
| `Attaching.SnapshotIsTaken` | internal/session/session.go:519-527 | in every run an attach gets as its snapshot the ring's worth of everything printed so far |
| `Attaching.AttachReturns` | internal/session/session.go:456-471 | in every run an attach whose bridge is over returns and frees exactly the slot it still held |
| `Attaching.OutputReachesHolder` | internal/session/session.go:697-738 | in every run a printed chunk goes into the ring and is offered and written to exactly the attach in the slot |
| `Delivery.ClientSeesOneStretch` | internal/session/session.go:519-617 | in every run what replay sends is a stretch of the output of at most 262144 + 1024 bytes that ends at the snapshot, and the live chunks continue it without a gap to where the attach left the slot |
| `Delivery.ReplayedTwiceIff` | internal/session/session.go:592-738 | in every run replay and live output share a byte exactly when part of the stretch replay sends was printed after the attach took the slot and before it left it |
| `Delivery.LiveChunksRoute` | internal/session/session.go:670-738 | in every run each live chunk has 1 to 32768 bytes, makes one output frame and passes the routed codec unchanged |
| `Replay.AlignTailStart` | internal/session/session.go:629-642 | the start skips UTF-8 continuation bytes, then moves back to the nearest ESC at most 1024 bytes away, or stays when there is none |
| `Replay.BoundaryIsFirst` | internal/session/session.go:629-642 | the forward scan stops at the first byte that is not a continuation byte |
| `Replay.CutTail` | internal/session/session.go:592-600 | what is replayed is a suffix of the snapshot of at most 262144 + 1024 bytes that starts at a safe place when it was cut |
| `Replay.ReplayOutput` | internal/session/session.go:592-617 | the frames sent have 1 to 32768 payload bytes each, exactly 32768 in all but the last, and concatenate to the tail, or to a proper prefix of it when a write fails |
| `Replay.OutputFramesRoute` | internal/terminal/protocol.go:200-263 | every output frame of at most 32768 payload bytes fits the routed codec and comes back unchanged |
| `Replay.LiveFramesRoute` | internal/session/session.go:670-680 | one read of the terminal, which fits the 32 KiB buffer, makes such a frame |
| `Replay.OutputPump` | internal/session/session.go:670-694 | everything read from the terminal reaches the session, also what arrives together with the final error |
| `Codec.EncodeRouted` | internal/terminal/protocol.go:200-216 | fails exactly for a wrong id length or an oversized payload, and otherwise fills the buffer with the wire layout |
| `Codec.EncodeRoutedConn` | internal/terminal/protocol.go:220-228 | the layout with the all-zero id, which decodes back unless the payload is oversized |
| `Codec.EncodeRoutedSession` | internal/terminal/protocol.go:232-237 | splits a session frame into kind and payload and routes it; an empty frame is an error |
| `Codec.EncodeFrame` | internal/terminal/protocol.go:50-55 | kind byte followed by the payload |
| `Codec.ClientFrameRoundTrip` | internal/terminal/protocol.go:97-108 | input, ping and resize frames decode to what they were made from; every other kind is refused |
| `Codec.LayoutDecodes` | internal/terminal/protocol.go:240-263 | what the decoder makes of every laid-out frame, well-formed or not |
| `Codec.DecodeInvertsEncode` | internal/terminal/protocol.go:200-263 | decoding inverts encoding for every 16-byte id other than all zeros and every payload up to 65535 bytes |
| `Codec.EncodeInvertsDecode` | internal/terminal/protocol.go:240-263 | every accepted frame re-encodes to itself |
| `Codec.DecodeIsInjective` | internal/terminal/protocol.go:240-263 | two wire frames that decode alike are the same bytes |
| `Codec.BrowserEncodeRouted` | apps/web/src/utils/session-channel.ts:42-57 | the browser's encoder writes the same layout, with the id cut or padded to 16 bytes and the length modulo 65536 |
| `Codec.BrowserFramesAtServer` | apps/web/src/utils/session-channel.ts:42-57 | a browser frame is read by the server as what was sent up to 65535 payload bytes, and is rejected, never misread, beyond |
| `Codec.DecodersAgree` | apps/web/src/utils/session-channel.ts:73-84 | the browser's decoder and the server's accept the same byte strings and read the same parts |
| `Channels.VirtualConn.Put` | internal/api/ws_handler.go:358-370 | a frame is queued exactly when the connection is not closed |
| `Channels.VirtualConn.ReadMessage` | internal/api/ws_handler.go:375-388 | oldest frame first; end of file only when closed and drained |
| `Channels.VirtualConn.MarkClosed` | internal/api/ws_handler.go:426-432 | closing keeps the queue |
| `Channels.Router.Register` | internal/api/ws_handler.go:237-265 | a session already registered keeps its channel |
| `Channels.Router.Unregister` | internal/api/ws_handler.go:269-277 | exactly the detached session's entry goes |
| `Channels.Router.Remove` | internal/api/ws_handler.go:290-296 | late cleanup removes an entry only if it is still that channel's |
| `Channels.Router.CloseAll` | internal/api/ws_handler.go:299-311 | the table is emptied and every channel it held is closed, its queue kept |
| `Channels.SessionChannel.SendFrame` | apps/web/src/utils/session-channel.ts:141-156 | sent when open, held up to 64 before, dropped when closed |
| `Channels.SessionChannel.DeliverOpen` | apps/web/src/utils/session-channel.ts:167-178 | opening flushes the held frames once, in order |
| `Channels.SessionChannel.DeliverClose` | apps/web/src/utils/session-channel.ts:208-215 | the first close closes and un-opens the channel; later ones change nothing |
| `Channels.SessionChannel.Reopen` | apps/web/src/utils/session-channel.ts:218-220 | reopening clears only the closed flag |
| `Multiplex.ReachableNetsAreGood` | internal/api/ws_handler.go:193-311 | registration, queue, order and routing invariants hold in every state of every interleaving on one socket |
| `Multiplex.BridgeReadsOwnChannelInOrder` | internal/api/ws_handler.go:193-231 | what a bridge reads is an in-order subsequence, byte for byte, of what the one browser channel that attached it sent, for the same session |
| `Multiplex.HeldFramesGoFirst` | apps/web/src/utils/session-channel.ts:141-178 | held frames are at most 64, only before opening, and everything of a channel still on its way is in sending order |
| `Multiplex.DrainsBeforeEof` | internal/api/ws_handler.go:358-388 | end of file is only seen after every accepted frame was read |
| `Multiplex.ClosedAcceptsNothing` | internal/api/ws_handler.go:358-370 | over every continuation a closed connection never queues another frame |
| `Multiplex.StaysRegistered` | internal/api/ws_handler.go:237-311 | in every run each key is its channel's session id, and a channel without a reason to end is registered |
| `Multiplex.OnlyOwnEventsEndAChannel` | internal/api/ws_handler.go:237-311 | in every run only its own Detach, its own attach or the teardown ends a channel |
| `Multiplex.OneLiveConnection` | internal/api/ws_handler.go:193-311 | in every run a session has at most one connection that nothing has ended |
| `Multiplex.LiveConnectionStays` | internal/api/ws_handler.go:193-296 | in every run the cleanup of another connection and a repeated Attach leave a live connection registered, and neither makes or changes one |
| `Upstream.FrameIsAccepted` | internal/api/ws_handler.go:193-231 | in every run a frame of a registered, open connection's session that is neither an Attach nor a Detach is appended to that connection's queue when it arrives, with its bytes |
| `Upstream.NothingIsLost` | internal/api/ws_handler.go:358-370 | over every continuation in which a connection stays registered and open, a data frame of its channel that is on the wire or accepted is still on the wire or accepted |
| `Upstream.EverythingIsRead` | apps/web/src/utils/session-channel.ts:141-178 | from end to end: up to 64 frames sent before the channel opens and any number after it are all read by the bridge, in order and byte for byte |
| `Upstream.AttachRegisters` | internal/api/ws_handler.go:237-265 | in every run an Attach for an unregistered session registers a new, open, empty connection for the channel that sent it and changes no other |
| `Upstream.RepeatedAttachIsAnswered` | internal/api/ws_handler.go:237-265 | in every run an Attach for a registered session is acknowledged and changes nothing else |
| `Upstream.AttachRuns` | internal/api/ws_handler.go:237-265 | in every run an accepted attach is acknowledged, and one that is refused or over is ending |
| `Upstream.ReadsTheNext` | internal/api/ws_handler.go:375-388 | in every run a bridge that reads gets the oldest queued frame, and the end exactly when none is queued and the connection is closed |
| `Upstream.DetachUnregisters` | internal/api/ws_handler.go:269-277 | in every run a Detach takes exactly its session out of the table and ends that connection |
| `Upstream.CleanupCleans` | internal/api/ws_handler.go:290-296 | in every run the cleanup of an ending connection leaves no entry that points to it, and closes it |
| `Upstream.TeardownEndsAll` | internal/api/ws_handler.go:299-311 | in every run the teardown empties the table and ends every connection |
| `Upstream.AttachIsSent` | apps/web/src/utils/multiplexer.ts:62-81 | in every run attaching an unattached session puts one Attach frame on the wire and makes a new channel for it that is neither open nor closed and holds nothing |
| `Upstream.DetachIsSent` | apps/web/src/utils/multiplexer.ts:89-98 | in every run closing a channel puts one Detach frame on the wire and removes the attachment; the socket stays open exactly while others remain |
| `Downstream.ChannelHearsItsSession` | apps/web/src/utils/multiplexer.ts:163-194 | in every run a browser channel receives frames of its own session only, in the order they were written, from connections that it or an earlier channel of the session attached |
| `Downstream.FrameIsReceived` | apps/web/src/utils/multiplexer.ts:163-194 | in every run an arriving frame is received by exactly the open channel attached for its session, if there is one, behind what it received before, and by nobody else |
| `Downstream.WriteIsSent` | internal/api/ws_handler.go:400-408 | in every run what a started bridge writes while the socket serves is sent, whole and under its own session's id |
| `Downstream.StaleFrameIff` | internal/api/ws_handler.go:400-408 | in every run a frame reaches a channel that did not attach its connection exactly when a newer open channel is attached for the session; whether the connection is closed plays no part |
| `Downstream.StaleFrameArrives` | internal/api/ws_handler.go:400-408 | a run in which a closed connection's output reaches the channel of a later attach |
| `Notices.NoticesAreTrue` | internal/api/ws_handler.go:414-422 | in every run of a session and a socket together, each SessionEvent a channel receives is about a connection of its own session that was evicted as the event says, preempted only after a takeover and destroyed whenever destroy did it, and no connection is announced twice |
| `Notices.EvictionIsAnnounced` | internal/api/ws_handler.go:414-422 | in every run an evicted connection with a started bridge is announced, with the event that fits, when its evictor closes it |
| `Notices.ToldOfAnotherIff` | internal/api/ws_handler.go:414-422 | in every run a channel is told of an eviction that was not its own exactly when a channel newer than the evicted connection's is attached for the session and open, and the evictor's own channel is told exactly when it is that one |
| `Notices.PreemptorIsToldPreempted` | internal/api/ws_handler.go:414-422 | a run in which a channel is told it was preempted by its own attach |
| `Forwards.LaunchFillsGaps` | internal/api/forward_host.go:385-412 | launching keeps what runs, numbers each success anew, and leaves every tried key in exactly one table |
| `Forwards.ReconcileOutcome` | internal/api/forward_host.go:385-412 | a key that did not run before runs afterwards exactly when some launch for it succeeded, an enabled one with none is marked as failed to launch, and exactly the former were launched |
| `Forwards.ReconcileAgrees` | internal/api/forward_host.go:370-412 | afterwards running keys are all enabled and every enabled key is running or failed, not both |
| `Forwards.ReconcileKeepsOrCancels` | internal/api/forward_host.go:370-384 | exactly the entries no longer enabled are cancelled; the others keep running under their id |
| `Forwards.ReconcileIsIdempotent` | internal/api/forward_host.go:349-412 | with no failed launch, reconciling again starts and cancels nothing |
| `Forwards.KeysTellApart` | internal/api/forward_host.go:120 | forwards have the same key exactly when kind, listening address and target agree, as long as no kind and no listening address contains a bar |
| `Forwards.KeyIsSharedIff` | internal/api/forward_host.go:120 | a forward shares its key with another one that could be configured exactly when its listening address or its target contains a bar; no kind has one |
| `Forwards.KeysCanCollide` | internal/api/forward_host.go:120 | two forwards that share a key because of a bar in an address |
| `Forwards.ForwardHostState.ReconcileLocked` | internal/api/forward_host.go:370-412 | the loops over both tables compute the reconciliation whose outcome per key, agreement, cancellations and idempotence the rows above state |
| `Forwards.ForwardHostState.HandleLost` | internal/api/forward_host.go:292-305 | the connection goes, every running entry is cancelled and marked as failed |
| `Forwards.ForwardHostState.Release` | internal/api/forward_host.go:416-445 | the tables are emptied, every entry is handed out for cancelling, the connection for closing, and one more stop is counted |
| `Forwards.List` | internal/api/forward_host.go:461-499 | row i is about forward i; each row is running, failed, pending or disabled as the tables say, whenever there is no connection and nothing runs or the tables agree with the configuration |
| `Forwards.ListIsTruthfulIff` | internal/api/forward_host.go:461-499 | a row is true exactly when the forward is disabled, there is no connection, or a table knows its key |
| `ForwardRuns.ReachableStatesAreGood` | internal/api/forward_host.go:151-445 | conservation, discipline and agreement hold in every state of every interleaving |
| `ForwardRuns.ForwardsAreConserved` | internal/api/forward_host.go:292-305 | every launched entry sits in exactly one table, uncancelled, or in none and was cancelled exactly once |
| `ForwardRuns.TablesHoldOnlyLaunched` | internal/api/forward_host.go:370-445 | what sits in a table was launched there, never cancelled, and its host has a connection |
| `ForwardRuns.TablesAgreeAndListIsTruthful` | internal/api/forward_host.go:349-499 | in every run: no connection means nothing runs, the tables are disjoint, and while the configuration is unchanged since the last reconcile they agree with it and list is true |
| `ForwardRuns.ListCanMislead` | internal/api/forward_host.go:461-499 | for any two enabled forwards with different keys, a run in which the first is running and the second, configured since the last reconcile, is in neither table and reported as running |
| `ForwardRuns.OneSupervisorPerHost` | internal/api/forward_host.go:151-168 | an unreleased state is marked supervised iff exactly one supervisor runs for it; no stop channel is closed twice |
| `ForwardRuns.LookupCreates` | internal/api/forward_host.go:123-137 | in every run a host looked up for the first time gets a new, empty state and no other state changes |
| `ForwardRuns.ResumeStarts` | internal/api/forward_host.go:151-168 | in every run a host with an enabled forward and no supervisor gets exactly one more supervisor, with the backoff at its base |
| `ForwardRuns.SupervisorLooks` | internal/api/forward_host.go:208-216 | in every run a supervisor that looks watches the connection in place, or dials if there is none |
| `ForwardRuns.SupervisorDials` | internal/api/forward_host.go:212-230 | in every run a good dial is a new connection in the supervisor's hands, neither installed nor closed |
| `ForwardRuns.SupervisorAdopts` | internal/api/forward_host.go:225-262 | in every run a supervisor's good dial on a live host without a connection is installed and stays unclosed, clears the error and reconciles the table with the launch results |
| `ForwardRuns.SupervisorEnds` | internal/api/forward_host.go:201-206 | in every run a supervisor ends at the top of its loop exactly when its state has been released |
| `ForwardRuns.SupervisorWakes` | internal/api/forward_host.go:225-228 | in every run a supervisor goes back to the top of its loop after its sleep |
| `ForwardRuns.SupervisorIsStopped` | internal/api/forward_host.go:257-288 | in every run a supervisor that sleeps or watches ends once its state is released |
| `ForwardRuns.EnsureInstalls` | internal/api/forward_host.go:311-345 | in every run a successful ensure on a host without a connection installs its dial and reconciles the table |
| `ForwardRuns.ReconcileApplies` | internal/api/forward_host.go:349-368 | in every run a reconcile on a connected host leaves the reconciled tables and the connection |
| `ForwardRuns.FailureIsRecorded` | internal/api/forward_host.go:225-345 | in every run a failed dial leaves an error exactly on a host without a connection, and touches no table |
| `ForwardRuns.LossIsRecorded` | internal/api/forward_host.go:292-305 | in every run the death of a watched connection leaves none, cancels each running forward once and marks it lost, and keeps earlier failures |
| `ForwardRuns.ReleaseClears` | internal/api/forward_host.go:416-445 | in every run a release empties the tables, closes the connection and the stop channel once and cancels each running forward once |
| `ForwardRuns.DialsAreAccounted` | internal/api/forward_host.go:190-345 | every dial is in place, in its supervisor's hands, closed once or observed dead, except those that were still exposed to an earlier watch, and those were all installed by ensure on a released state |
| `ForwardRuns.ExposedConnectionsCanBeLost` | internal/api/forward_host.go:292-345 | whenever such an installation happens, the death of the earlier connection drops the new one unclosed |
| `ForwardRuns.LateConnectionCanBeLost` | internal/api/forward_host.go:292-345 | a run from the start in which it happens |
| `ForwardRuns.SupervisorNeverAdoptsAfterRelease` | internal/api/forward_host.go:225-262 | in every run, a supervisor that dialled while release ran closes its connection and installs nothing |
| `Backoff.SleepsBackOff` | internal/api/forward_host.go:190-270 | in every run there is exactly one sleep per dial failure or loss, and its length is the base doubled once per failure or loss, counted from the events of the run, since that supervisor's own last successful dial, up to the maximum |
| `Backoff.BackoffIsCappedIff` | internal/api/forward_host.go:190-270 | sleeps equal min(base * 2^k, max) for every k exactly when the base does not exceed the maximum |
| `Backoff.OversleepsIff` | internal/api/forward_host.go:190-270 | some run has a sleep longer than the maximum exactly when the base is above the maximum, and then the first sleep can be |
| `Scanner.ParseParams` | internal/capture/emulator.go:876-898 | the loop cuts at every separator and yields one number per piece, empty and overflowing ones zero |
| `Scanner.GfxScanner.Step` | internal/capture/emulator.go:321-478 | one byte takes the scanner's fields through the transition function; every buffer index stays in range and the payload buffer within 16 MiB |
| `Scanner.GfxScanner.Scan` | internal/capture/emulator.go:288-316 | the ground state: escape, ASCII character, UTF-8 lead byte, or ignored |
| `Scanner.GfxScanner.TakeByte` | internal/capture/emulator.go:241-251 | the payload grows by the byte or is dropped as a whole |
| `Scanner.GfxScanner.Reset` | internal/capture/emulator.go:254-257 | every field back to its initial value |
| `Tokens.BodyGrows` | internal/capture/emulator.go:425-477 | how the text of a control string and its cleaned form grow byte by byte |
| `Tokens.AdvanceTracks` | internal/capture/emulator.go:321-478 | from any state, each byte either completes a token of the stated grammar with the stated event and effect on the modes, or leaves the scanner describing the bytes not yet framed |
| `Tokens.DropPartial` | internal/capture/emulator.go:325-331 | a byte that does not continue a partial character makes the scanner drop exactly that part and take the byte afresh |
| `Rewriting.SpliceStep` | internal/capture/emulator.go:769-776 | the cut removes only bytes of the replaced sequence, all that arrived in this call |
| `Rewriting.CharStep` | internal/capture/emulator.go:754-768 | a character is sent whole after what was injected for it |
| `Rewriting.InterruptKeepsTrace` | internal/capture/emulator.go:668-684 | a resize ends the unframed rest and nothing else |
| `Framing.WholeStops` | internal/capture/emulator.go:321-478 | complete tokens form a prefix code: nothing complete or unfinished properly extends one |
| `Framing.FramingIsUnique` | internal/capture/emulator.go:737-802 | however one stream is cut into calls and wherever the cursor was, it yields the same tokens, payloads, replacements, rest and modes |
| `Framing.Utf8IsRune` | internal/capture/emulator.go:288-316 | every UTF-8 encoding of a code point other than ESC is one character to the scanner |
| `Framing.BytesAreUtf8` | internal/capture/emulator.go:288-316 | a byte is taken as start or continuation of a character exactly when it is one in some UTF-8 encoding |
| `Framing.ParamsOfList` | internal/capture/emulator.go:876-898 | any pieces of digits, also empty ones, with a semicolon or a colon between each two are read as one number per piece |
| `Framing.ParamsRoundTrip` | internal/capture/emulator.go:876-898 | any list of numbers below 2^63 written in decimal is read back as that list |
| `Framing.SequenceIs` | internal/capture/emulator.go:370-384 | ESC [, such pieces and any final byte from 0x40 to 0x7e are one control sequence with those parameters |
| `Framing.StringIs` | internal/capture/emulator.go:346-477 | ESC with ], P or _, any text without ESC of at most 16 MiB and ESC backslash, or BEL for an OSC, are one control string of that kind with the text as its payload |
| `Content.ContentPreserved` | internal/capture/emulator.go:737-802 | without CSI s, u, b: the bytes sent are some bytes of the stream, whole and in order, with only CR LF, ICH and cursor motions put in between; and those bytes, followed by the partly collected character, are the stream less partial characters cut short, or the stream itself if there are none |
| `Emulator.Emulator.ContentIsPreserved` | internal/capture/emulator.go:737-802 | the same, with all its conclusions, of every emulator between calls |
| `Content.RemembersLastChar` | internal/capture/emulator.go:204-209 | in every stream a character is remembered exactly when there was one since the last reset or resize, and it is the last one |
| `Content.RepeatMeans` | internal/capture/emulator.go:409-421 | in every stream CSI b sends the last character as often as asked if there is one since the last reset, and otherwise the replacement of the last replaced sequence or nothing |
| `Content.RepetitionsAre` | internal/capture/emulator.go:409-421 | CSI n b asks for n repetitions, one for zero or no number, at most 4096 |
| `Content.RepeatIs` | internal/capture/emulator.go:409-421 | a repetition is that many copies, one behind the other |
| `Content.SavesAndRestores` | internal/capture/emulator.go:389-424 | in every stream CSI s and u without a question mark become ESC 7 and ESC 8, and besides them only CSI b is replaced |
| `Content.InsertModeMeans` | internal/capture/emulator.go:389-408 | in every stream insert mode is on exactly when the last CSI 4 h or CSI 4 l since the last reset was an h |
| `Content.CharsAreShown` | internal/capture/emulator.go:754-768 | in every stream what is sent for a character is that character behind a CR LF exactly if it is wide and has no room, and behind an ICH for its width exactly in insert mode |
| `Content.StaleRepeat` | internal/capture/emulator.go:409-421 | CSI s and then CSI b in one call send ESC 7 twice |
| `Content.Transparent` | internal/capture/emulator.go:737-802 | with nothing to add, drop or replace the engine receives the stream itself |
| `Content.SpliceIsLocal` | internal/capture/emulator.go:769-776 | what is sent for a replaced sequence is the front part that arrived in earlier calls and the replacement; only the replacement when the sequence lies within one call |
| `Content.StringsAreAllOrNothing` | internal/capture/emulator.go:425-477 | a payload is exactly the text between introducer and first terminator, without ESC pairs, when within 16 MiB, and empty otherwise |
| `Framing.BlanksCommand` | internal/capture/emulator.go:764-767 | the injected ICH is one control sequence whose parameter reads back as the width |
| `Framing.MoveCommand` | internal/capture/emulator.go:714-718 | the cursor motion is one control sequence whose parameters read back as row and column |
| `Emulator.StripLength` | internal/capture/emulator.go:741-742 | stripping shortens the input exactly when it contains a placeholder and is otherwise the identity |
| `Emulator.StripSplits` | internal/capture/emulator.go:741-742 | a placeholder anywhere is taken out and both sides of it are stripped by themselves, which with the identity on input without one determines the result |
| `Emulator.Emulator.Write` | internal/capture/emulator.go:737-802 | any call keeps the whole invariant, extends the stream by exactly the stripped input and the output by appending only, splices exactly the bytes that came with the call, and drops images only for an ESC c |
| `Emulator.Emulator.ShowRune` | internal/capture/emulator.go:754-768 | a wide character that does not fit gets CR LF first, insert mode gets as many blanks as it is wide, in that order |
| `Emulator.Emulator.Take` | internal/capture/emulator.go:630-636 | the scanner takes one byte; ESC c drops the images and resets it, and nothing else drops an image |
| `Emulator.Emulator.Resize` | internal/capture/emulator.go:668-684 | a new size drops images, unframed rest and modes; the same size changes nothing |
| `Emulator.Emulator.MoveCursorTo` | internal/capture/emulator.go:714-718 | any position is pulled to the nearest one on the screen, and one on the screen is taken as it is |
| `Emulator.Emulator.AddImage` | internal/capture/graphics.go:235-277 | a kitty picture is always kept, at the cursor that was read, with the cells asked for or those left to the edge if fewer, its size as given; and the cursor is sent to the stated position on the screen |
| `Emulator.Emulator.AddSixel` | internal/capture/graphics.go:217-230 | a sixel picture is kept at the cursor that was read, with the cells that cover it or those left to the edge if fewer |
| `Graphics.KittyCells` | internal/capture/graphics.go:239-247 | keys c and r are used as given; a missing side is the fewest cells that cover the picture, at least one |
| `Graphics.Clamped` | internal/capture/graphics.go:248-253 | the rectangle is at the given cell, lies inside the screen, is no larger than asked and smaller only where it ends at the edge; protocol and sides as given |
| `Graphics.CursorAfter` | internal/capture/graphics.go:268-276 | right of the picture on its last row, or at the start of the row below it when it reaches the edge, always on the screen |
| `Graphics.PlacementFits` | internal/capture/graphics.go:243-247 | no product of a placement leaves a signed 64-bit integer |
| `Graphics.Atoi` | internal/capture/graphics.go:294-306 | the decimal value when all digits and at most 2^30, else zero |
| `Graphics.CeilCovers` | internal/capture/graphics.go:308-313 | the quotient covers every dividend, is the least that does except exactly for dividends of at most minus the divisor that leave a remainder, and is one for a non-positive divisor |
| `Graphics.SizeFits` | internal/capture/graphics.go:316-324 | for capped sides the wrapped 64-bit size is the exact size, and the picture fits too |
| `Graphics.UncappedSizeWraps` | internal/capture/graphics.go:316-324 | without the cap the check could pass with no pixels there |
| `Graphics.RawToImage` | internal/capture/graphics.go:316-341 | for all 64-bit sides: a picture exactly when the sides are positive, it fits in 64 bits and there are enough bytes, with every read in bounds and pixel k the k-th group; a panic exactly when the wrapped size lets a picture through that does not fit |
| `Graphics.PixelsRoundTrip` | internal/capture/graphics.go:325-341 | the pixels written out again, red, green, blue and alpha in turn, are the bytes they were read from; without an alpha byte every pixel is opaque |
| `Graphics.RawPicture` | internal/capture/graphics.go:124-141 | for every f=24 or f=32 header, whatever its keys hold: never a panic, and a picture exactly when both keys are numbers from 1 to 2^30 and there are enough bytes |
| `Registry.Manager.CreateWithID` | internal/session/manager.go:174-245 | outcome, registry and store are those of the specification whose starts and refusals in every run are the rows of `RegistryRuns` below |
| `Registry.Manager.UpdateTitle` | internal/session/manager.go:335-352 | retitles session and record; found exactly when there is a record |
| `Registry.Manager.DestroyExpired` | internal/session/manager.go:373-388 | exactly the exited, destroyed and expired sessions go; no record changes |
| `Registry.Manager.History` | internal/session/manager.go:317-332 | each record whose id was not registered, exactly once |
| `Registry.Manager.Delete` | internal/session/manager.go:296-313 | the last section of Destroy unregisters whatever has the id |
| `RegistryRuns.RegistryInvariants` | internal/session/manager.go:174-245 | in every run: a positive cap is respected, every registered id has a record with its spec, and run counts are those at boot plus the sessions started since |
| `RegistryRuns.ResurrectsRecorded` | internal/session/manager.go:191-245 | in every run an id that has a record, is not alive and finds room is registered afterwards, when the dial succeeds, with the record's spec and a run count one higher, whatever spec the caller gave, even one without a host |
| `RegistryRuns.StartsFresh` | internal/session/manager.go:174-245 | in every run an id without a record, given or generated, is registered with the caller's spec and a new record, when it names a host, finds room and the dial succeeds |
| `RegistryRuns.StartsNothing` | internal/session/manager.go:174-224 | in every run a create for a live id, without room, with a failed dial, or with neither record nor host changes nothing |
| `RegistryRuns.SweepLeaves` | internal/session/manager.go:373-388 | in every run a sweep leaves exactly the sessions that have not exited, were not destroyed and are not expired, as they were, and no record changes |
| `RegistryRuns.DestroyRemoves` | internal/session/manager.go:296-313 | in every run a Destroy that is not overtaken closes the session it finds and unregisters it; the record stays |
| `RegistryRuns.RecordsAreStable` | internal/session/manager.go:228-241 | from when a record exists it stays, spec and creation time never change, its title is the last one set, and its run count grows by one per start and by nothing else |
| `RegistryRuns.LiveTitleAgreesIff` | internal/session/manager.go:335-352 | in every run a live session shows its record's title exactly when it was renamed since it was started or the record has none |
| `RegistryRuns.TitlesCanDiffer` | internal/session/manager.go:225-241 | a re-created session with a titled record shows none |
| `RegistryRuns.RefusedBelowCapIff` | internal/session/manager.go:178-188 | in every run a create is refused for the cap while fewer sessions than the cap are alive exactly when its own session is not alive, the registry is full and some registered session has exited |
| `RegistryRuns.ExitedBlocksOwnId` | internal/session/manager.go:178-188 | a run in which an id is refused although nothing is alive |
| `RegistryRuns.DeleteHitsNewerIff` | internal/session/manager.go:296-313 | in every run, the last section of Destroy removes an undestroyed session exactly when one newer than the session it closed is registered under the id |
| `RegistryRuns.DestroyCanHitNewer` | internal/session/manager.go:296-313 | a run in which it happens |

## Left out

- PTY and ConPTY, SSH dialling, SOCKS, listeners, HTTP handlers, tray and scripts: input and output only.
- The terminal engine: a log of received bytes and a cursor that is somewhere on the screen when read; that its cursor stays on the screen is assumed.
- Image decoders, base64, zlib and the assembly of chunked kitty transmissions: a transmission yields some picture or none, with arbitrary keys.
- iTerm2 placement: computed in floating point and not clamped, so such images are kept but not claimed to be on the screen.
- Query counting and the wait for answers, cursor visibility, PNG and HTML rendering: timing, one flag, presentation.
- `Session.Detach`: nothing calls it.
- Other sockets of the same session: to the session they are attaches like any other; what their own clients receive is not followed.
- `Wait`, idle timing and keepalives: real time; which sessions are expired is a parameter of the sweep.
- Reconnect timers and the input gate of the browser: one socket lifetime is modelled, and a browser channel belongs to it.
- The order between an AttachOK and the output frames behind it: they travel in two queues of the model, so more orders are allowed than on one socket.
- `closeAll` of the forward manager: it is one release per host state, which the runs already allow in any order.
- Stored credentials of a host state and 64-bit overflow of the doubled backoff: they do not touch the tables; the doubling stops at a maximum far below.
- JSON and file persistence of records: the store is a map filed by id, filled arbitrarily at boot.
- Host inventory, known hosts, secrets, command-line tables: they would only add easy members.
- Registry.Manager.CreateWithID: that a generated id has no record yet is an assumption of the runs, because the random generator does not check it.
- Emulator.Emulator.HandleAPC: does not model which transmissions decode, because decoding is left out.
- Emulator.Emulator.HandleOSC: does not model the number of columns, because it is computed in floating point.
- Graphics.RawToImage: that making a picture of more than 64 bits worth of pixels panics is taken from the image library.
- Scanner.GfxScanner.Step: the three four-byte arrays are values, as arrays inside a Go struct are, not heap arrays.
