# Verified models of the control-mode engine and the MCP runtime

This project models the concurrent core of the repository in Dafny and proves what its code and
documentation promise: the tmux control-mode connection (`tmux/`), and the state machines of the
MCP server that uses it (`mcp/`). `dafny verify dfyconfig.toml` checks all of it.

Objects that the source updates in place are classes, loops are loops, and each such method is
proved against a function of the old state. Mutex sections, channel operations and atomic
swaps are the steps of state machines; a step whose guard does not hold leaves the state as it
is, so every sequence of steps is a run, and each theorem about runs holds for all of them.
Text is a sequence of characters; a byte is a character below 256.

| File | What it models |
|---|---|
| `Options`, `Bytes`, `Counting` | absent values; numerals and fields; counting |
| `NotificationQueue`, `QueueDelivery` | the byte ring behind a client's notifications, its FIFO, and its readers |
| `ControlCommand` | the quoting of a command line, and tmux's reading of it |
| `ControlNotification` | notification records, for any generated table without guards |
| `ControlGuard`, `ControlProtocol` | guard lines, the line parser, captures of a command's text |
| `CapturedResults`, `ReplyFence`, `ControlRequest` | captured text cut into results; the reply fence; running one request, and tmux reading what it writes |
| `RequestLifecycle`, `ReplyStream` | callers and the request loop interleaved; one request from printed lines to results |
| `WireSystem` | the whole connection: callers, loop, line parser and what tmux prints, all interleaved |
| `LanePool` | a pool of connections, each a system of `RequestLifecycle`, carrying one command each |
| `Runtime`, `RuntimeRuns` | the runtime's mutex sections, and everything that uses them at once |
| `RuntimeService` | which errors end the runtime, and that acquisitions get through |
| `PaneIdentity`, `PaneLeases` | exclusive leases on panes |
| `PendingInput`, `InputDispatch` | what was typed and not submitted; many dispatches at once under leases |
| `ResponseLedger`, `SessionTransport` | unsettled calls, and the gate that orders admission behind settlement |
| `CaptureSince` | reading on from a cursor while tmux scrolls, trims and renumbers |
| `ReadBatch` | the size limit of a batch |

Main results:

- **System.** In every interleaving of callers, cancellations, the request loop, the parser and
  tmux printing line by line, a caller that gets a result gets exactly what tmux printed for its
  request (`WireSystem.EveryCallerGetsWhatWasPrinted`), by refinement of the system in which
  frames come whole (`WireSystem.LinesRefineFrames`,
  `RequestLifecycle.EveryCallerGetsItsOwnReplies`); and that is what tmux answered, reading the
  text the request wrote line by line (`RequestLifecycle.EveryCallerGetsItsAnswers`). One request aligns with its replies if and
  only if they do not hold the fence themselves (`ReplyFence.ReplyAlignsExactly`), and from
  printed lines to results the same condition is exact (`ReplyStream.PrintedRepliesAreReturned`).
- **Pool.** A request that comes back without a failure has drained all before it
  (`RequestLifecycle.FenceDrainsWhatIsBeforeIt`), so no lane of a pool is handed out or given
  back with an unanswered command on it, in any interleaving of the pool and all its connections
  (`LanePool.FreeLanesAreDrained`), and none is retired unless its connection has ended, nor kept
  once a call heard that it has (`LanePool.RetiredExactlyWhenEnded`).
- **Service.** From every reachable state, and not only from the start: an undisturbed request
  returns its replies (`RequestLifecycle.AnUndisturbedCallSucceeds`), a pooled call does and gives
  its lane back (`LanePool.APooledCallSucceeds`), an acquisition binds the runtime
  (`RuntimeService.AnAcquisitionBinds`), a session's call is admitted, answered and settled
  (`SessionTransport.ACallIsServed`), and a dispatch ends (`InputDispatch.EveryDispatchEnds`); and
  nobody whose context ends is kept waiting (`RequestLifecycle.ACancelledCallerReturns`,
  `LanePool.EveryGoroutineLeaves`, `RuntimeService.EveryGoroutineLeaves`).
- **Captures.** A command's text is separated from the protocol if and only if no printed nonce
  stands behind a line that reads like an opening guard
  (`ControlProtocol.CaptureSeparatesExactly`); no text without the nonce does
  (`ControlProtocol.NonceUnseen`).
- **Ring.** The ring refines the FIFO, bytes outside the live window stay erased, and over whole
  runs nothing accepted is lost, reordered or delivered after an end
  (`QueueDelivery.DeliveryIsFaithful`).
- **Runtime.** Signals agree with the state, connections have one owner, and closing leaks none.
  A goroutine binds the runtime over live leases exactly when the current binding is not the one
  it started and leases are live (`RuntimeRuns.BindsOverALeaseExactly`). Which errors end the
  runtime, and which cause it then reports, is exact (`RuntimeService.LostExactly`,
  `RuntimeService.EveryStateKnowsItsCause`).
- **Panes.** Pending text is the replay of the keys tmux accepted, in every run of dispatches
  under the leases that the coordinator grants (`InputDispatch.PendingIsTheReplayedLine`), and it
  falls out of step with what tmux holds exactly at a dispatch that failed although tmux took its
  keys and whose keys change the line (`InputDispatch.SyncIsLostExactly`).
- **Calls.** A client that uses an id again after its response was written is never refused as a
  duplicate (`SessionTransport.ReusedIdsAreNeverRefused`), although the ledger may still hold the
  id when the call arrives (`SessionTransport.ReuseArrivesBeforeSettlement`).
- **Cursors.** A read resumes at another row than the cursor's exactly when rows were trimmed and
  the run found is not the one above the cursor (`CaptureSince.ResumesElsewhereExactly`);
  otherwise every row from the cursor on is accounted for (`CaptureSince.NothingIsLostSilently`),
  and whether a read of a pane at rest resumes, is refused or misses rows is exact
  (`CaptureSince.RestingPaneReadsExactly`).
- **Batches.** A reply fits the wire limit with nothing lost but bodies it reports dropped, and
  nothing at all unless the bodies overflowed; a batch is given up only when its rows are over
  the limit without any body (`ReadBatch.RunReadBatch`).

Some properties fail on inputs the code admits. For each there is the condition, as an if and
only if, and an input or run that shows it is needed:

- The ring's header keeps 32 bits of a record's size, so a text of 4 GiB or more, which only a
  limit above 4 GiB lets in, does not read back (`NotificationQueue.StoredRecordReadsBack`).
- A runtime can be bound over a live lease (`RuntimeRuns.BindsOverALeaseExactly`,
  `RuntimeRuns.InterruptedBindingBindsOverALease`).
- A cursor can be misled by a run that repeats after rows were trimmed
  (`CaptureSince.ResumesElsewhereExactly`, `CaptureSince.RepeatedRunMisleads`).
- A failed dispatch that tmux took all the same can leave text that is not pending
  (`InputDispatch.SyncIsLostExactly`, `InputDispatch.UnseenTypingIsForgotten`).

Others rest on a part of the code that a run shows to be needed: the wake-up of notification
readers on the reader token (`QueueDelivery.TwoReadersForgetARecord`), and the admission of
reused ids on the commit gate (`SessionTransport.ReuseArrivesBeforeSettlement`). Guards are
compared as numbers, so two guard lines can match without being spelled alike
(`ControlGuard.GuardsMatchByValue`).

## Model

| member | source | states |
|---|---|---|
| NotificationQueue.StoredRecordReadsBack | tmux/control_notification_queue.go:142-147 | A record's header and text read back from the front of the window if and only if its size fits 32 bits and its position 64 |
| NotificationQueue.RingQueue.Reserve | tmux/control_notification_queue.go:152-167 | Growth keeps the live bytes in order, leaves the rest zero and stays within the limit |
| NotificationQueue.RingQueue.CopyAround | tmux/control_notification_queue.go:169-174 | A write that wraps lands byte for byte on consecutive ring positions and touches no other |
| NotificationQueue.RingQueue.WriteBytes | tmux/control_notification_queue.go:169-174 | Writing appends to the live window |
| NotificationQueue.RingQueue.ReadBytes | tmux/control_notification_queue.go:176-180 | Reading yields the window's bytes, also across the end of the ring |
| NotificationQueue.RingQueue.ClearBytes | tmux/control_notification_queue.go:182-186 | Clearing zeroes exactly the front of the window |
| NotificationQueue.RingQueue.DropBytes | tmux/control_notification_queue.go:245-251 | Consumed bytes leave the window and are erased |
| NotificationQueue.RingQueue.Push | tmux/control_notification_queue.go:141-147 | A stored record becomes the last of the abstract sequence |
| NotificationQueue.RingQueue.Pop | tmux/control_notification_queue.go:239-251 | The first abstract record comes out whole, under any limit below 4 GiB |
| NotificationQueue.RingQueue.Append | tmux/control_notification_queue.go:115-150 | Appending refines the FIFO: refused when closed or ended, ended by an overflow that keeps the backlog, a wake-up whenever something changed |
| NotificationQueue.AcceptedExactlyWhenItFits | tmux/control_notification_queue.go:115-150 | A record is accepted if and only if the queue has not ended and its stored form fits beside the others |
| NotificationQueue.RingQueue.Take | tmux/control_notification_queue.go:223-256 | Taking refines the FIFO: skips what is not above the requested position, delivers the first that is, else waits or reports the end |
| NotificationQueue.RingQueue.Finish | tmux/control_notification_queue.go:258-269 | The first end wins and keeps the backlog |
| NotificationQueue.RingQueue.Close | tmux/control_notification_queue.go:278-292 | Closing drops and erases the backlog once |
| QueueDelivery.TakeIsExact | tmux/control_notification_queue.go:223-256 | One take removes exactly the records not above the position and the one it delivers |
| QueueDelivery.LastEventIsTheAnswer | tmux/control_notification_queue.go:223-256 | The event a take ends with is what its reader got; all before it are skips |
| QueueDelivery.DeliveryIsFaithful | tmux/control_notification_queue.go:115-292 | Over every run: what left is a prefix of what was accepted, the rest is queued, each record was delivered above its position or skipped at or below it, nothing is accepted after an end, and the whole backlog precedes the error |
| QueueDelivery.TheFirstEndIsTold | tmux/control_notification_queue.go:115-269 | In every run the first end, a finish or the overflow of the record refused, is the one everybody is told of |
| QueueDelivery.OneReaderIsNeverForgotten | tmux/control_notification_queue.go:188-221 | With one reader at a time no interleaving parks it over something to read, also with readers that leave when their context ends and reads that do not wait |
| QueueDelivery.TwoReadersForgetARecord | tmux/control_notification_queue.go:92-113 | Without the reader token a queued record can stay unread |
| ControlCommand.EncodeControlCommand | tmux/control_protocol.go:293-343 | The builder loop writes the specified encoding and refuses exactly what it refuses |
| ControlCommand.CommandReadsBack | tmux/control_protocol.go:290-343 | tmux reads the original argument vector back, a bare semicolon only in lists separating; the line is printable ASCII; only an empty command and NUL are refused |
| ControlCommand.EncodingIsInjective | tmux/control_protocol.go:290-343 | No two argument vectors are sent alike |
| ControlNotification.DecodeControlOutput | tmux/control_notification.go:172-207 | The decoding loop is the specified decoder, errors and offsets included |
| ControlNotification.DecodeIsTheInverse | tmux/control_notification.go:172-207 | A tail decodes to data exactly when an encoder that escapes the backslash, and any other byte or not, wrote it for that data |
| ControlNotification.ReadField | tmux/control_notification.go:250-269 | One argument is cut at the next space or refused with the offset |
| ControlNotification.ParseControlNotificationArguments | tmux/control_notification.go:244-317 | The offset-moving loop yields the specified arguments or error |
| ControlNotification.ParsingIsLossless | tmux/control_notification.go:125-170 | For every table: a record is accepted as a kind and arguments if and only if it is, byte for byte, how the kind's tail form writes them |
| ControlNotification.OutputIsDecoded | tmux/control_notification.go:158-168 | An accepted record carries output exactly if its kind does: the first argument's pane, and the data an encoder wrote as its last argument |
| ControlNotification.LookupExactly | tmux/control_notification.go:233-242 | A kind is known exactly if the table names it, by the first definition that does |
| ControlNotification.MalformedKindExactly | tmux/control_notification.go:209-231 | A kind is a lower-case letter, then letters, digits and single hyphens between them, or else the first wrong place is told |
| ControlNotification.FirstFramingExactly | tmux/control_notification.go:129-131 | The first framing byte is found, exactly if there is one |
| ControlNotification.OutputErrorsPoint | tmux/control_notification.go:172-207 | An error in an output tail points at the escape that is cut short or too large, or at the character that is no digit |
| ControlNotification.ArgumentErrorsPoint | tmux/control_notification.go:250-269 | An error in an argument points at the missing space, or at the empty place behind it |
| ControlGuard.PrintedGuardReadsBack | tmux/control_protocol.go:247-285 | Every guard tmux can print is read as itself |
| ControlGuard.GuardExactly | tmux/control_protocol.go:247-285 | A line is a guard exactly if it is the kind's text and three fields that spell its numbers, each in its range |
| ControlGuard.NotGuardExactly | tmux/control_protocol.go:251-261 | A line is left to others exactly if it is no kind's text, alone or before a space |
| ControlGuard.GuardsMatchByValue | tmux/control_protocol.go:247-285 | A plus sign or leading zeros do not tell guards apart |
| ControlProtocol.StreamParser.ConsumeFramed | tmux/control_protocol.go:201-238 | One framed line changes the parser as specified: only a guard equal by value closes, and while a block is open nothing fails |
| ControlProtocol.StreamParser.ConsumeCaptured | tmux/control_protocol.go:177-199 | One captured line is the fence, a notification, or text |
| ControlProtocol.StreamParser.ConsumeLine | tmux/control_protocol.go:150-172 | Capture starts behind the own reply and ends with the fence frame |
| ControlProtocol.IdleLineExactly | tmux/control_protocol.go:201-238 | Between blocks a line opens a block, is a notification, or fails, and exactly one of these |
| ControlProtocol.ConsumeConcat | tmux/control_protocol.go:150-172 | Parsing is compositional over the stream until a line fails |
| ControlProtocol.ParsingUndoesPrinting | tmux/control_protocol.go:201-238 | Any interleaving of notifications and blocks comes back item for item, payload bytes included |
| ControlProtocol.BlockReadsBackExactly | tmux/control_protocol.go:201-238 | A block is read back as itself if and only if its body holds no closing guard equal to its own by value |
| ControlProtocol.FinishFailsInsideABlock | tmux/control_protocol.go:240-245 | The stream may be cut after any printed items, and nowhere inside a block |
| ControlProtocol.NonceUnseen | tmux/control_protocol.go:108-120 | Text that never prints the nonce never looks fenced, whatever guards it prints |
| ControlProtocol.CaptureSeparates | tmux/control_protocol.go:150-199 | The fence frame carries exactly the lines that are no notifications, in order; notifications are emitted apart; the parser ends idle and disarmed |
| ControlProtocol.CaptureSeparatesExactly | tmux/control_protocol.go:150-199 | That outcome holds if and only if no printed nonce stands behind a line that opens like a guard |
| CapturedResults.CaptureResults | tmux/control_request.go:353-411 | The loop yields the results of the one sound cut of the lines, and for a shell command one result with all of them |
| CapturedResults.PiecesCoverTheLines | tmux/control_request.go:348-402 | Every captured line stands in exactly one piece, in order |
| CapturedResults.PiecesAreTheCut | tmux/control_request.go:348-402 | There is exactly one cut into whole frames and maximal bare runs in which only an unclosed frame may open |
| CapturedResults.ResultsHoldTheLines | tmux/control_request.go:353-411 | Read line by line, the results hold every captured line: one result for a shell command, and otherwise one for each piece, with its guard, outcome and body |
| ReplyFence.NewReplyFence | tmux/control_request.go:65-77 | Calibration succeeds exactly for two failed own frames that differ, and then no frame matches both halves |
| ReplyFence.ReplyAligns | tmux/control_request.go:315-345 | A request returns exactly its own frames and consumes exactly them and its fence, also when its last frame looks like the first half |
| ReplyFence.ReplyAlignsExactly | tmux/control_request.go:315-345 | Alignment holds if and only if the reply does not hold the two halves side by side |
| ReplyFence.StreamEnds | tmux/control_request.go:320-327 | A stream that ends yields all frames proven replies and holds back half a fence |
| ReplyFence.CutStreamYieldsAPrefix | tmux/control_request.go:320-327 | A stream cut anywhere before the boundary yields a prefix of the request's replies |
| ControlRequest.ControlClient.ReadReplies | tmux/control_request.go:315-345 | The loop with its held-back frame reads exactly what the specification drains |
| ControlRequest.ControlClient.ExecuteControlRequest | tmux/control_request.go:286-346 | A done context or lost swap writes nothing; otherwise the input is written once, the capture armed for it, and the outcome is unknown unless the boundary was read |
| ControlRequest.InputReadsBack | tmux/control_request.go:299-308 | Read line by line, what a request writes is its command line, for a capture the line that prints its nonce, and then the two lines of the fence |
| ControlRequest.InputIsAnswered | tmux/control_request.go:299-345 | What tmux answers to that text is what it answers to the command lines, and then the two frames of the fence |
| RequestLifecycle.EveryRunKeepsInv | tmux/control_request.go:214-311 | The invariant of callers and loop holds in every run |
| RequestLifecycle.EveryCallerGetsItsOwnReplies | tmux/control_request.go:214-346 | In every run a returned result is exactly the caller's own replies; a bare error means nothing written; an unknown outcome carries only a prefix of the own replies |
| RequestLifecycle.EveryCallerGetsItsAnswers | tmux/control_request.go:286-346 | In every run a result is what tmux answered to the request's own command lines |
| RequestLifecycle.RequestIsReplied | tmux/control_request.go:299-345 | A request of single lines is answered with what tmux answers to its command lines, and the fence |
| RequestLifecycle.CallersReturnProperly | tmux/control_request.go:214-256 | A caller reports an unknown outcome of its own accord only while its request is being written, and returns the loop's response once it has finished |
| RequestLifecycle.AnUndisturbedCallSucceeds | tmux/control_request.go:214-346 | From every reachable state in which the loop waits, a call that nobody cancels or closes returns its replies |
| RequestLifecycle.ACancelledCallerReturns | tmux/control_request.go:230-256 | A caller whose context has ended returns by at most four steps of its own, or is about to be given its response |
| RequestLifecycle.AStoppedLoopLetsGo | tmux/control_request.go:218-227 | A caller that a stopped loop has not taken returns by at most three steps of its own |
| RequestLifecycle.LoopComesBack | tmux/control_request.go:258-284 | On an open connection a loop that has not decided to stop comes back for the next request |
| RequestLifecycle.LoopStopsExactly | tmux/control_request.go:258-284 | The loop stops exactly when asked to while it waits, or once it has told that the connection ended |
| RequestLifecycle.OnlyClosedConnectionsEnd | tmux/control_request.go:258-327 | A failure other than a context's is heard only of a connection that is closed or whose loop has stopped |
| RequestLifecycle.UnboundedWriteIsUnknown | tmux/control_request.go:309-327 | Written without a boundary, every answer says the outcome is unknown |
| RequestLifecycle.EveryReceivedRequestIsAnsweredOnce | tmux/control_request.go:258-284 | Each received request gets exactly one response into an empty channel, is written at most once, and a caller that found it finished is answered |
| RequestLifecycle.EarlierRequestsAreDrained | tmux/control_request.go:315-345 | While the loop runs no reply of an earlier request is left on the connection |
| RequestLifecycle.FenceDrainsWhatIsBeforeIt | tmux/control_request.go:315-345 | A request that comes back without a failure has drained every request received before it |
| RequestLifecycle.UnsentIsNeverWritten | tmux/control_request.go:230-256 | A request whose caller got a bare error is never written afterwards |
| RequestLifecycle.CancelledIsNeverWritten | tmux/control_request.go:246-256 | A cancelled request is never written afterwards |
| RequestLifecycle.NothingIsWrittenTooLate | tmux/control_request.go:258-297 | A request that a close or its context's end finds before the loop has checked for it is never written |
| RequestLifecycle.NobodyEntersAfterClose | tmux/control_request.go:214-217 | A caller that comes to a closed connection never gets to the loop |
| ReplyStream.PrintedRepliesAreReturned | tmux/control_request.go:286-346 | From lines to results: own blocks among notifications and other clients' blocks come back as the results, if and only if they do not hold the fence |
| ReplyStream.PrintedTextIsReturned | tmux/control_request.go:328-402 | From lines to results for a capture: the own reply, then the printed text cut into results |
| WireSystem.ArmAnywhere | tmux/control_request.go:301-308 | Arming a capture changes nothing of what is parsed until an own frame comes, also inside another client's block |
| WireSystem.LinesRefineFrames | tmux/control_protocol.go:150-238 | Every run over printed lines, with the parser's state carried from request to request, is a run of RequestLifecycle |
| WireSystem.EveryCallerGetsWhatWasPrinted | tmux/control_request.go:214-346 | In every such run a result is exactly what tmux printed for the request, replies or captured text, and a failure says no more and no less than what became of it |
| WireSystem.NothingIsLeftOver | tmux/control_request.go:315-345 | In every such run no line fails to parse, nothing of one request is left for the next, and a loop that reads needs nothing but the lines already printed |
| WireSystem.ReadingCatchesUp | tmux/control_protocol.go:150-172 | While the stream lasts, reading line by line brings in every own frame printed |
| WireSystem.AReadingLoopFinishes | tmux/control_request.go:315-345 | A loop that reads a request finishes it with the whole of its replies, or without its boundary if the stream ended before |
| LanePool.ControlLanePool.RetireLane | tmux/control_pool.go:272-282 | The first failure is kept, and the last retirement closes the drained channel |
| LanePool.ANewPoolServes | tmux/control_pool.go:32-45 | A new pool has all its lanes free and open |
| LanePool.EveryRunKeepsLanes | tmux/control_pool.go:202-283 | In every run of the pool and all its connections each lane is in exactly one of free, held or draining, and retired, the counts agree, and the requests of free lanes are over and done with |
| LanePool.FreeLanesAreDrained | tmux/control_pool.go:214-221 | No lane is free, taken or given back with an unanswered command on it: a lane abandoned by its caller rejoins only once a fence has crossed it |
| LanePool.PooledCallsGetTheirOwnReplies | tmux/control_pool.go:202-225 | A pooled call that succeeds returns exactly its own replies |
| LanePool.LanesAreConserved | tmux/control_pool.go:202-295 | No two goroutines hold one lane, sends never block, and drained closes at most once and only when no lane is left |
| LanePool.RetiredExactlyWhenEnded | tmux/control_pool.go:259-295 | A lane is retired only when its connection has closed or its loop has stopped, and is not free once a call heard that it had ended |
| LanePool.TheFirstFailureIsKept | tmux/control_pool.go:272-276 | The pool's failure is that of the first lane retired |
| LanePool.NobodyIsServedTooLate | tmux/control_pool.go:227-257 | A caller that comes to a stopped or drained pool, or with its context ended, never holds a lane |
| LanePool.CallsBeginOnAnOpenPool | tmux/control_pool.go:240-252 | A call begins only while the pool is not stopped, after the context was checked again |
| LanePool.APooledCallSucceeds | tmux/control_pool.go:202-257 | From every reachable state with a free lane whose connection is open, a call gets its replies and gives the lane back |
| LanePool.EveryGoroutineLeaves | tmux/control_pool.go:202-283 | In every reachable state a goroutine leaves by at most four steps of its own, unless its request is on its way or a fence takes its lane over |
| LanePool.LastRetirementDrains | tmux/control_pool.go:272-282 | With no lane left, drained is closed if and only if nobody is about to close it |
| Runtime.TmuxRuntime.TakeLook | mcp/runtime.go:160-197 | One look finds a bound or closed runtime, heals a lost one, waits for a binding or probe, or starts one |
| Runtime.TmuxRuntime.EndAbsentProbe | mcp/runtime.go:235-261 | An absent server yields a lease exactly when the prober still owns the probe of an unbound runtime |
| Runtime.TmuxRuntime.EndLease | mcp/runtime.go:263-274 | The last lease closes the drained signal |
| Runtime.TmuxRuntime.EndProbe | mcp/runtime.go:511-518 | Only the owner of the current probe ends it, and closes its signal |
| Runtime.TmuxRuntime.StartBinding | mcp/runtime.go:496-509 | A binding starts only from unbound, and ends the caller's probe |
| Runtime.TmuxRuntime.EndBinding | mcp/runtime.go:520-538 | A binding that is over gives the connection back to be closed |
| Runtime.TmuxRuntime.AbandonBinding | mcp/runtime.go:540-578 | A failed binding is retryable exactly without a connection, a terminal error or a created session |
| Runtime.TmuxRuntime.ObserveTerminal | mcp/runtime_lifecycle.go:16-33 | A terminal error takes the connection from the runtime once |
| Runtime.TmuxRuntime.HealTerminalLocked | mcp/runtime_lifecycle.go:39-46 | Healing returns to unbound and gives up what was current |
| Runtime.TmuxRuntime.CloseRuntime | mcp/runtime_lifecycle.go:91-111 | Closing ends the probe and the binding and snapshots the connection |
| RuntimeRuns.SignalsAgreeWithTheState | mcp/runtime.go:154-274 | In every run: binding signal iff Binding, probe only in Unbound or Terminal with its prober at work, drained signal iff leases, count of leases exact, no signal closed twice |
| RuntimeRuns.NoWaiterIsForgotten | mcp/runtime.go:606-613 | Nobody waits for a signal that nobody holds |
| RuntimeRuns.ConnectionsHaveOneOwner | mcp/runtime.go:520-578 | Every connection opened is current, in one goroutine's hands, or handed to a close, and exactly one of these |
| RuntimeRuns.ClosingLeaksNothing | mcp/runtime_lifecycle.go:91-121 | After closing, every connection no goroutine holds was handed to a close once |
| RuntimeRuns.BindsOverALeaseExactly | mcp/runtime.go:520-538 | In every run, interrupted or not: the runtime becomes bound over live leases if and only if the goroutine that finishes did not start the current binding and leases are live |
| RuntimeRuns.BoundHasNoLease | mcp/runtime.go:212-221 | In particular, while no error is observed during a binding, a bound runtime has no live lease and at most one goroutine binds |
| RuntimeRuns.InterruptedBindingBindsOverALease | mcp/runtime.go:524-537 | It happens: an interrupted creation finishes inside a later binding and binds over its lease |
| RuntimeRuns.ClosedIsNeverLeft | mcp/runtime_lifecycle.go:91-111 | Closed is never left and keeps its connection |
| RuntimeService.EveryStateKnowsItsCause | mcp/runtime.go:587-604 | In every run the runtime names a server only while bound, has a cause exactly once lost or closed, and keeps the first |
| RuntimeService.ErrorsAreJudgedExactly | mcp/runtime_lifecycle.go:62-89 | An error ends the runtime exactly if it shows the daemon lost, or absent while bound |
| RuntimeService.LostExactly | mcp/runtime.go:540-578 | The runtime is lost exactly by such an error, or by a failed binding that left something behind, and reports that error |
| RuntimeService.RetriesExactly | mcp/runtime.go:218-226 | A failed binding is tried again exactly on the first try, if nothing was left behind and no context ended |
| RuntimeService.RefusedExactlyWhenClosed | mcp/runtime.go:160-197 | An acquisition is refused only by a closed runtime, served at once only by a bound one, and waits only for signals that are held |
| RuntimeService.AnAcquisitionBinds | mcp/runtime.go:154-229 | From every reachable state at rest and not closed, healed if need be, an acquisition gets the runtime bound to a session found, over a new connection |
| RuntimeService.AnAbsentServerIsLeased | mcp/runtime.go:235-261 | Without a server it gets the unbound runtime, with a lease if it asked for one |
| RuntimeService.ALeaseIsGivenBack | mcp/runtime.go:263-274 | Giving the only lease back leaves none, and the runtime as it is |
| RuntimeService.ACreationBinds | mcp/runtime.go:312-494 | A creation binds the runtime to the session it creates and keeps the creating connection |
| RuntimeService.ACreationBindsWhatItFinds | mcp/runtime.go:364-371 | A creation that finds a server binds it first and then looks again |
| RuntimeService.EveryGoroutineLeaves | mcp/runtime.go:606-613 | A goroutine whose context ends leaves by at most nine steps of its own |
| RuntimeService.WaitersGoOnExactly | mcp/runtime.go:606-613 | A goroutine that waits goes on exactly when its signal is closed |
| PaneIdentity.CanonicalPanesAreNumbers | mcp/input_tools.go:788-798 | Exactly the printed forms of the 32-bit numbers are pane ids |
| PaneIdentity.IdentityOrder | mcp/pane_run.go:174-185 | The comparison is a total order |
| PaneIdentity.SortOrders | mcp/pane_run.go:79-80 | Sorting orders the identities and keeps them all |
| PaneIdentity.OrderedIsUnique | mcp/pane_run.go:125-130 | Two sorted requests for the same panes are equal |
| PaneIdentity.OrderedDuplicatesAreAdjacent | mcp/pane_run.go:84-90 | Comparing neighbours finds every duplicate |
| PaneLeases.CheckIdentities | mcp/pane_run.go:84-90 | The loop accepts exactly valid identities without duplicates |
| PaneLeases.PaneInputCoordinator.AcquireSorted | mcp/pane_run.go:74-123 | A request is refused for the first pane in the way, or reserves all of its panes under the next token |
| PaneLeases.PaneInputCoordinator.OwnsSorted | mcp/pane_run.go:125-140 | A lease owns the panes it was granted while all of them are still its own |
| PaneLeases.PaneInputCoordinator.ReleaseLease | mcp/pane_run.go:142-154 | Releasing drops exactly the reservations and detached runs of this lease |
| PaneLeases.PaneInputCoordinator.DetachLease | mcp/pane_run.go:159-172 | Detaching moves exactly the reservations still held |
| PaneLeases.LeasesAreExclusive | mcp/pane_run.go:74-172 | In every history live leases share no pane and no pane has two runs, active or detached |
| PaneLeases.GrantedExactlyWhenFree | mcp/pane_run.go:74-123 | A lease is granted if and only if its panes are valid, asked for once and free of live leases, and for a run of detached ones; then it has them all, else nothing changes |
| PaneLeases.RefusalsTellWhy | mcp/pane_run.go:81-117 | A refusal names a pane asked for and the kind of live lease on it, or the detached run that a run would meet, or the request is malformed |
| PaneLeases.PanesAreFreedAgain | mcp/pane_run.go:142-172 | A lease given back frees its panes at once, and a run left behind frees them for input, though not for another run |
| PaneLeases.StaleLeasesTouchNothing | mcp/pane_run.go:142-172 | A stale release or detach changes nothing, and none touches another lease's panes |
| PaneLeases.OwnsExactlyItsOwn | mcp/pane_run.go:125-140 | owns says yes exactly for a live lease asked about its own panes in any order |
| PendingInput.WillType | mcp/pending_input.go:153-195 | For any prior line, trimming and appending, or the line left behind, equals typing the keys one at a time; a key that is not modelled reports nothing |
| PendingInput.WillTypeLiteral | mcp/pending_input.go:154-163 | Literal text ends every line but its last |
| PendingInput.LiteralLeavesTheLastLine | mcp/pending_input.go:153-163 | Literal text leaves what stands behind its last line break |
| PendingInput.LiteralKeysAreText | mcp/pending_input.go:153-195 | Literal keys are text whatever they are called; others are text if they are runes, end the line if they submit or discard it, and otherwise are not followed |
| PendingInput.ErasingUndoesTyping | mcp/pending_input.go:164-195 | Keys that type one rune each are the text, and as many backspaces take it back |
| PendingInput.TrimTrailingRunes | mcp/pending_input.go:210-216 | At most count runes are erased from the end |
| PendingInput.PendingLines.ApplyDelta | mcp/pending_input.go:49-63 | One pane's text is trimmed and extended, and the old text returned |
| PendingInput.PendingLines.Record | mcp/pending_input.go:105-119 | On distinct panes every pane is extended, the others stay, and what to restore is what was there |
| PendingInput.PendingLines.RestoreAll | mcp/pending_input.go:114-118 | Restoring puts back exactly the recorded panes |
| PendingInput.PendingLines.ClearAll | mcp/pending_input.go:122-126 | Exactly the named panes are cleared |
| PendingInput.PendingLines.SendKeys | mcp/input_tools.go:918-951 | One dispatch leaves the replayed line, the old line if it failed, or none after a separate Enter |
| InputDispatch.PendingIsTheReplayedLine | mcp/input_tools.go:873-951 | In every run of interleaved dispatches, failures and unmodelled keys included, a pane at rest has pending exactly the replay of the keys tmux accepted |
| InputDispatch.SyncIsLostExactly | mcp/input_tools.go:920-928 | When the replayed line is the line tmux holds, the next step keeps it so if and only if it is no dispatch that failed although tmux took its keys and that changes the line |
| InputDispatch.PendingIsWhatTmuxHolds | mcp/input_tools.go:918-951 | At rest, pending is what tmux holds when no such dispatch came since the last accepted line end |
| InputDispatch.UnseenTypingIsForgotten | mcp/input_tools.go:923-928 | It happens: a failed dispatch that tmux took leaves its letter on the line and nothing pending |
| InputDispatch.ActiveDispatchesAreApart | mcp/pending_input.go:99-104 | The coordinator's leases keep dispatches at work apart |
| InputDispatch.UnsubmittedTextStaysPending | mcp/input_tools.go:926-935 | Until tmux has the keys that end a line, its text stays pending |
| InputDispatch.EveryDispatchEnds | mcp/input_tools.go:873-951 | In every reachable state a dispatch that holds its lease ends by steps of its own |
| ResponseLedger.ResponseLedgerMap.Count | mcp/response_ledger.go:68-74 | The loop counts every unsettled call of every session once |
| ResponseLedger.ResponseLedgerMap.AdmitCall | mcp/response_ledger.go:17-52 | A call is admitted unless it repeats an unsettled id or a limit is reached, in this order |
| ResponseLedger.ResponseLedgerMap.SettleResponse | mcp/response_ledger.go:54-64 | A response settles its own call only |
| ResponseLedger.ResponseLedgerMap.TerminateScope | mcp/response_ledger.go:66 | The end of a session removes its calls only |
| ResponseLedger.LedgerIsTheOpenCalls | mcp/response_ledger.go:17-66 | The ledger is exactly the calls admitted and since neither settled nor ended with their session |
| ResponseLedger.RefusedExactly | mcp/response_ledger.go:17-52 | A call is refused exactly if its id is open in its session, or its session or the instance has as many open calls as its limit |
| ResponseLedger.LimitsAlwaysHold | mcp/response_ledger.go:34-45 | No session and no instance exceeds its limit |
| SessionTransport.SessionReadyConnection.AdmitRead | mcp/session_transport.go:109-134 | Admission waits for a commit, is refused on a dead connection, and a refusal ends the connection |
| SessionTransport.SessionReadyConnection.SettleWrite | mcp/session_transport.go:200-218 | A write settles its response on a live connection, or ends it |
| SessionTransport.AdmissionIsFresh | mcp/session_transport.go:109-134 | With no write being committed, no call on its way has the id of an unsettled one |
| SessionTransport.ReusedIdsAreNeverRefused | mcp/session_transport.go:202-206 | In every interleaving a client that reuses an id once it has the response is never refused as a duplicate, and never would be |
| SessionTransport.ReuseArrivesBeforeSettlement | mcp/session_transport.go:202-206 | The gate is needed: the reused id can arrive while the ledger holds it |
| SessionTransport.LedgerIsTheCallsAtWork | mcp/session_transport.go:175-223 | On a live connection the ledger is exactly the calls served or answered; an ended one has none and its end is reported once |
| SessionTransport.OnlyLiveConnectionsSettle | mcp/session_transport.go:109-218 | Only an admission, a settlement of an unbroken write, or the end of the connection touches a session's calls |
| SessionTransport.ACallIsServed | mcp/session_transport.go:109-223 | From every reachable state with the connection at rest and room in the ledger, a call is admitted, answered and settled |
| SessionTransport.WritesBeginOnLiveConnections | mcp/session_transport.go:175-195 | A write begins only on a live connection, by the writer that has the slot |
| SessionTransport.EveryWriterLeaves | mcp/session_transport.go:175-223 | A writer that holds the slot, or waits for it on a connection that has ended, leaves by at most five steps of its own |
| SessionTransport.EveryConnectionEnds | mcp/session_transport.go:562-578 | A connection can be ended at any time, and the ledger then holds none of its calls |
| SessionTransport.LimitsHoldInEveryRun | mcp/response_ledger.go:34-45 | The limits hold in every interleaving |
| CaptureSince.CaptureFingerprintRows | mcp/capture_since.go:494-521 | The rows from the cursor down, and up to twelve settled rows above it, also from history |
| CaptureSince.LeadIsBounded | mcp/capture_since.go:494-521 | The run above the cursor is all there is above it, or the twelve rows next to it |
| CaptureSince.CursorForRead | mcp/capture_since.go:655-677 | A cursor fingerprints the leading, anchor and lower rows |
| CaptureSince.UniqueFingerprintMatch | mcp/capture_since.go:456-471 | A position is found if and only if the run occurs exactly once |
| CaptureSince.LocateAnchor | mcp/capture_since.go:382-436 | An anchor is found if and only if one qualifies, at the coordinates reported |
| CaptureSince.UnseenRows | mcp/capture_since.go:591-613 | Only an unchanged anchor and the unchanged run below are left out, and the skip count is where the rows kept begin |
| CaptureSince.TrimTrailingBlank | mcp/capture_since.go:474-479 | Only blank rows at the end are dropped |
| CaptureSince.BlankExactly | mcp/capture_since.go:474-479 | A row is blank exactly if nothing in it can be seen |
| CaptureSince.ReadDelta | mcp/capture_since.go:322-376 | The first attempt that does not change under the read decides: refused for another process, missed for a lost anchor, else resumed from it; without one the rows are missed |
| CaptureSince.ResumesAtTheAnchor | mcp/capture_since.go:378-436 | The cursor's own row is found if and only if its leading run is retained and either nothing was trimmed or the run occurs once, after any scrolling and renumbering |
| CaptureSince.ResumesElsewhereExactly | mcp/capture_since.go:378-471 | Another row is found if and only if rows were trimmed and the run stands at the predicted place, or only at another place than the cursor's |
| CaptureSince.LostExactlyWhenHistoryShrank | mcp/capture_since.go:567-581 | A pane whose size stayed is given up before the search if and only if its history shrank |
| CaptureSince.ResizedIsLostExactly | mcp/capture_since.go:567-581 | A pane that lost no row is given up, whatever its height became, if and only if its history is gone |
| CaptureSince.RestingPaneReadsExactly | mcp/capture_since.go:322-376 | A read of a pane at rest is refused if and only if the process is another, and resumes if and only if moreover the history has not shrunk and the run is retained, once unless nothing was trimmed |
| CaptureSince.NothingIsLostSilently | mcp/capture_since.go:322-376 | Unless the retained rows mislead the search so, every row from the anchor on is returned in order, unchanged since the last reply, or trailing blank, and nothing else is returned |
| CaptureSince.RepeatedRunMisleads | mcp/capture_since.go:451-455 | It happens: a prompt that repeats after its rows were trimmed resumes at the wrong row |
| ReadBatch.LargestBody | mcp/batch_tools.go:184-198 | The first of the largest bodies is chosen |
| ReadBatch.Batch.EnforceReadBatchLimit | mcp/batch_tools.go:171-209 | The loop ends with a reply that fits or no body left, drops only bodies, largest first, if and only if the reply was over the limit, and counts what it drops |
| ReadBatch.StoppingFits | mcp/batch_tools.go:160-163 | Setting where the batch stopped after the last check never lengthens the reply |
| ReadBatch.SavingIsMeasured | mcp/batch_tools.go:201-206 | The bytes counted for a dropped body are the bytes by which the text of its row shrinks, apart from the flag |
| ReadBatch.RanUpToTheFirstFailure | mcp/batch_tools.go:160-164 | The calls that run are those up to the first failure, or all |
| ReadBatch.RunReadBatch | mcp/batch_tools.go:84-169 | A reply's text fits the wire limit, each row tells its call, outcome and body or that the body was dropped, something is dropped if and only if the bodies so far overflowed, and the dropped bytes are exact over the whole batch; a batch of a proper size is given up only when its rows are over the limit with every body dropped |

## Left out

- NotificationQueue.RingQueue.Take: under a limit above 4 GiB, what follows a queued record of 4 GiB or more is not modelled beyond StoredRecordReadsBack.
- NotificationQueue.RingQueue.Pop: the same, for the first record.
- ControlCommand.CommandReadsBack: the model of tmux's reader covers single quotes, a quoted apostrophe, octal escapes, spaces and semicolons, which is all the encoder writes.
- InputDispatch.PendingIsTheReplayedLine: all panes belong to one tmux server, as the source assumes; keys of one dispatch are taken all or not at all.
- CaptureSince.ReadDelta: an attempt whose state is the same before and after is taken to have captured one moment; a pane that scrolls and returns to the same state in between is not modelled.
- CaptureSince.ResumesAtTheAnchor: a cursor without a leading run, rows rewritten above the cursor and a changed pane size are not covered; the branch without a leading run is modelled in LocateAnchor.
- RequestLifecycle.EveryCallerGetsItsOwnReplies: the replies of a request are taken as one sequence per write that does not hold the fence; a request whose replies do is the exact exception in ReplyFence.ReplyAlignsExactly.
- WireSystem.EveryCallerGetsWhatWasPrinted: what tmux prints for a write that failed half-way is not parsed; the loop has ended then.
- LanePool.PooledCallsGetTheirOwnReplies: each lane has as many requests as its environment lists, any number; lanes are over frames, and WireSystem is one connection.
- RuntimeRuns.SignalsAgreeWithTheState: the lease of an acquisition is released at most once, as its once-only guard ensures.
- Processes, pipes, sockets, timers and deadlines: events and failures the environment chooses.
- The generated notification table: a parameter without guard kinds.
- Frame wire positions, the observation clients' own registry and the connections opened for blocking commands: they add members, not properties.
- Hashes, base64, nonces and the escaping in JSON: a collision-free parameter, a fresh word and strings that are encoded already.
- The screen a missed read shows, and the retry loop of a first read.
- Preflight checks, pastes and invalid UTF-8 in key names.
- Bounded notifications, which hold the write slot without committing, and the physical close of a transport: in SessionTransport they end a connection at any moment.
- The wrap-around of 64-bit tokens and counters.
- Fairness: the run theorems are safety, or give steps that lead on from every reachable state; that a scheduler takes them is not modelled.
