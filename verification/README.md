# Waker: a verified model of one wake attempt

Waker switches a PC on from afar: it opens a private WireGuard tunnel to a FRITZ!Box, asks the box
for the PC's address, asks it to send the Wake-on-LAN packet, and pings the PC until it answers.
This project models that attempt as one concurrent system and proves what its layers promise each
other.

- **The attempt.** `WakeCore` has `run_wake` as a loop over a backend whose answers and timing are
  arbitrary, proved against the set of its six possible outcomes; `WakeTrace` says what its events
  mean to the user interface and to the backend; `Evidence` puts the attempt into a network and
  shows what a success proves; `Timing` joins the clock of the ping loop to that of the attempt.
- **The user interface.** `App` has the wake machine of `WakerApp` (the object, and each method as
  a function on its fields); `AppSystem` lets it interleave with any number of worker threads,
  clicks and crashes; `AppDrain` joins the two; `AppChecks` follows the results of the two
  diagnostic buttons; `AppOverlap` shows that the one exception to a single tunnel really occurs;
  `AppFrame` has the frame and the repaints it asks for; `AttemptIds` the shared attempt counter.
- **The tunnel.** `Engine` has the polling loops, sockets and ports of the engine; `Commands` the
  command queue with its one-shot replies; `Teardown` the shutdown of the two tasks; `Backend` the
  ownership of tunnels.
- **The Android loop.** `Repaint` (the repaint signal and the event loop), `Pointer` (touches to
  pointer events), `Ime` (UTF-16 indices and the input method).
- **The text protocols.** `Text`, `Decimal` and `Address` are the string functions of Rust that the
  code uses. `Hosts` has the client's request printer and reply parsers, `Lab` the chunked reader of
  the lab, `Lookup` the round trip through both. `Profile` has the two parsers of the profile file,
  `ProfilePrint` the round trip of a printed one.

Concurrent parts are state machines: `Apply` performs one step and does nothing when the step is
not possible, and every theorem is about `Run` or `Follow` of an arbitrary sequence of steps. Bytes
on the wire are strings whose characters stand for octets; UTF-8 decoding is written out. Instants
and durations are whole nanoseconds.

Four things a reader of the source may not expect:

- Two tunnels can exist at once, without any crash in exactly two ways (`AppSystem.OverlapIff`).
  `run_wake` reports Awake before it disconnects, so the next action can begin while the old tunnel
  is still open (`AppOverlap.OverlapHappens`). And an error of the probe inside `connect` drops the
  tunnel without joining its tasks, so it can outlive the report of the failure
  (`AppOverlap.LingeringHappens`).
- Every ping carries the same identifier and sequence number, so the answer to any earlier echo
  request to the host counts (`Evidence.AnyAnswerCounts`). That a success rests on the probe in
  progress is certain exactly for a first probe of a host no earlier tunnel has asked
  (`Evidence.CurrentProbeCountsIff`).
- Without a window the Android loop consumes a due repaint and paints nothing
  (`Repaint.DetachedLoopSwallowsRequest`). This is exactly how a message can be left without a
  wake-up (`Repaint.LostExactlyByDetachedTake`), until a window is attached.
- A wake click that fails at once, for its configuration or its thread, puts an error on display for
  five seconds but requests no repaint to take it off again. Its frame requests one in time exactly
  if another timer was running or a check click failed in the same frame by the same instant
  (`AppFrame.FailedWakeArmedIff`). Any later frame, such as one for further input, takes it off too.

The documentation comment of `run_wake` says that the backend is disconnected after a *connected*
attempt (crates/waker-core/src/lib.rs:183-185); the code disconnects after every attempt, and so
does the model.

## Model

| member | source | states |
|---|---|---|
| `WakeCore.RunWake` | crates/waker-core/src/lib.rs:190-258 | The result, over the backend's answers: the first failing of connect, lookup and wake request gives its own stage and text; else the last probe made decides, all before it having said "no" in time: its failure is Probing with its text, a "no" at or past the timeout is Timeout with the seconds in its text, and only its "yes" is success. The events are those of that outcome; success is reported before the disconnect, failure after it; no tunnel is left |
| `WakeCore.Session` | crates/waker-core/src/lib.rs:201-249 | The stages stop at the first failing call and the result names that stage, with the same cases |
| `WakeCore.WaitForPc` | crates/waker-core/src/lib.rs:221-247 | The loop ends with the first probe that does not say "no" or that ends past the timeout; events, probe count and clock are exact |
| `WakeCore.OutcomeIsUnique` | crates/waker-core/src/lib.rs:190-258 | The environment forces one outcome only, so `RunWake` is determined |
| `WakeCore.AttemptsHalt` | crates/waker-core/src/lib.rs:221-247 | With a positive probe interval every attempt ends, whatever happens |
| `WakeCore.ZeroIntervalHaltsIfTimePasses` | crates/waker-core/src/lib.rs:221-247 | With a zero interval every attempt ends if its clock never stops for good |
| `WakeCore.FrozenClockHaltsIff` | crates/waker-core/src/lib.rs:221-247 | With a zero interval and a clock that has stopped for good by round n it ends if and only if some probe is not answered "no" or the timeout has passed by round n; with the row above this covers every zero-interval attempt |
| `WakeCore.ProbeBudget` | crates/waker-core/src/lib.rs:221-247 | At most ceil(timeout / interval) + 1 probes |
| `WakeCore.LastCheckBound` | crates/waker-core/src/lib.rs:234-246 | The last timeout check falls before timeout + interval + longest probe + longest oversleep |
| `WakeCore.DefaultTargetBounds` | crates/waker-core/src/lib.rs:60-68 | The default target: 241 probes, last check before 61.005 s when probes take at most 755 ms |
| `Timing.DefaultAttemptBounds` | crates/waker-net/src/lib.rs:587-623 | Through the 5 ms polling loop of `ping`, whose "no" takes its whole 750 ms: at most 61 probes, and a timeout comes after exactly 61, 60.75 s after the accepted wake request |
| `Timing.PatientBudget` | crates/waker-net/src/lib.rs:1101-1102 | For every target: with probes that say "no" only after their own timeout an attempt makes no more probes than there is time for |
| `Timing.ReachedMeansReply` | crates/waker-net/src/lib.rs:587-623 | The two loops together: an attempt that succeeds at its n-th probe saw the echo reply of the resolved address at the last poll of that probe, before any receive error, and nothing in the n - 1 probes before; one that times out saw nothing at any poll of any probe |
| `WakeTrace.CompleteRun` | crates/waker-core/src/lib.rs:199-257 | Reported states are Connecting, ResolvingPc, Waking, WaitingForPc 1..n saturating at the largest u32, then Awake or Failed, cut short only by the failing stage; backend calls are the matching prefix with one disconnect, last |
| `WakeTrace.TraceSpelled` | crates/waker-core/src/lib.rs:199-257 | The events of each of the six outcomes, one by one, up to the rounds of the waiting loop |
| `WakeTrace.WaitsSpelled` | crates/waker-core/src/lib.rs:221-231 | Round k of the waiting loop reports WaitingForPc k, saturated at the largest u32, and then probes the resolved address |
| `WakeTrace.TunnelReleased` | crates/waker-core/src/lib.rs:251 | At the end of every attempt the tunnel has been given up |
| `WakeTrace.PrefixGuarantee` | crates/waker-core/src/lib.rs:199-257 | At any moment an attempt has reported nothing terminal and no Idle, or its final state and nothing after it; a failure is reported only without a tunnel |
| `Evidence.EndedRunIsDecided` | crates/waker-core/src/lib.rs:199-257 | Every ended attempt in the network is a run of `run_wake`: a script whose refused probes take their timeout forces its outcome, and its events are the trace of that outcome |
| `Evidence.ReceivingAgreesWithPing` | crates/waker-net/src/lib.rs:588-613 | Taking everything that has arrived ends the probe, or lets it wait on, exactly as every run of `Ping` whose last poll shows the same packets |
| `Evidence.FailuresEnd` | crates/waker-core/src/lib.rs:202-219 | A call that fails ends the attempt at its own stage with its own text; one that succeeds goes on |
| `Evidence.NoFalseAwake` | crates/waker-net/src/lib.rs:561-624 | Awake implies, in this attempt and this order: a 2xx lookup reply naming an address, a 2xx reply to the wake request, and a counted echo reply from that address; unless that host sends replies to no request at all, it answers an echo request to that address, sent after the wake request or by an earlier tunnel |
| `Evidence.FirstProbeCounts` | crates/waker-net/src/lib.rs:570-613 | An attempt that succeeds at its first probe has sent one echo request, and unless an earlier tunnel asked the host the counted reply answers that one |
| `Evidence.AnyAnswerCounts` | crates/waker-net/src/lib.rs:570-613 | For every n there is time for and every echo request to the host - of an earlier tunnel or of this attempt - some attempt succeeds at its n-th probe by the answer to that request |
| `Evidence.ReachedInIff` | crates/waker-core/src/lib.rs:221-247 | An attempt can succeed at its n-th probe if and only if n is 1, or n - 1 probes of 750 ms with the intervals between them fit into the timeout |
| `Evidence.CurrentProbeCountsIff` | crates/waker-net/src/lib.rs:570-613 | Every success at the n-th probe rests on the answer to that probe if and only if n is 1 and no earlier tunnel has asked the host, or there is no time for an n-th probe |
| `Evidence.OwnRequestCountsIff` | crates/waker-net/src/lib.rs:570-613 | Every success rests on the answer to a request of its own attempt if and only if no earlier tunnel has asked the host |
| `App.WakerApp.BeginWake` | crates/waker-app/src/lib.rs:310-366 | In each of the three cases the whole new state, with the exact failure: its stage, its text, the time it took and its display deadline; busy, an active attempt and a started worker are the same thing |
| `App.WakerApp.FinishAttempt` | crates/waker-app/src/lib.rs:552-570 | Afterwards no attempt is active; the summary has the elapsed time and the failure of the state, if it is one; Awake starts confetti; a terminal state shows for exactly five seconds; nothing else changes |
| `App.WakerApp.BeginHostStatusCheck` | crates/waker-app/src/lib.rs:368-406 | Ignored unless nothing is outstanding; else a rejected configuration or a missing thread is shown at once with its reason for five seconds, and a worker clears the old result; with the repaint asked for |
| `App.WakerApp.BeginPingCheck` | crates/waker-app/src/lib.rs:408-437 | The same for the ping |
| `App.WakerApp.DrainStateUpdates` | crates/waker-app/src/lib.rs:472-511 | The loop takes every queued state and keeps the last; the attempt ends when any of them was terminal, or, with the Runtime failure of a vanished worker, when the channel is closed without one; otherwise it goes on |
| `App.WakerApp.DrainHostStatusUpdate` | crates/waker-app/src/lib.rs:513-530 | A received result is shown as it is, a closed channel as the silence of the worker, each for five seconds and with the check ended; an empty channel changes nothing |
| `App.WakerApp.DrainPingUpdate` | crates/waker-app/src/lib.rs:532-550 | The same for the ping |
| `App.WakerApp.UpdateTerminalStateTimeout` | crates/waker-app/src/lib.rs:572-587 | Before its deadline a terminal state stays as it is, with the exact time left; from the deadline on it gives way to Idle |
| `App.WakerApp.UpdateDiagnosticResultTimeouts` | crates/waker-app/src/lib.rs:589-611 | The least remaining time of the deadlines that are left, or none if none is left; results are never discarded |
| `AppSystem.WorkerGuarantee` | crates/waker-app/src/lib.rs:1438-1497 | What a wake worker has sent so far is quiet, or quiet up to its final state; a worker holding a tunnel after its final state has reported Awake |
| `AppSystem.UiAgrees` | crates/waker-app/src/lib.rs:310-366 | In every reachable state busy, a receiver and an active attempt are equivalent, and between drains the display deadline is set if and only if the state is Awake or Failed |
| `AppSystem.ButtonsEnabledIff` | crates/waker-app/src/lib.rs:1318-1333 | In every reachable state between drains: the wake button is enabled if and only if the state is Idle or Failed and no check is outstanding, a diagnostic button if and only if nothing at all is |
| `AppSystem.TerminalStays` | crates/waker-app/src/lib.rs:572-587 | In every reachable state: what a finished attempt shows stays, with its deadline, unless a frame comes at or after the deadline or, for a failure only, a click begins a new attempt |
| `AppSystem.AttemptsRecordedOnce` | crates/waker-app/src/lib.rs:472-570 | Every started attempt but the active one is recorded exactly once, in order, with its worker's own final result, or a Runtime failure if the worker crashed first, or the very failure for which it got no worker |
| `AppSystem.FinalSpelled` | crates/waker-app/src/lib.rs:1438-1497 | The final result of a wake worker: the stage and text of each way its attempt can end, or the failure of its runtime |
| `AppSystem.LastAttemptShown` | crates/waker-app/src/lib.rs:552-570 | While no attempt is active, the attempt shown as the last one is the last one recorded |
| `AppSystem.RecordedSuccessIsReached` | crates/waker-app/src/lib.rs:552-570 | A recorded success belongs to a worker whose `run_wake` reached the PC |
| `AppSystem.OneOutstanding` | crates/waker-app/src/lib.rs:641-643 | At most one of wake, status check and ping is outstanding |
| `AppSystem.OverlapIff` | crates/waker-app/src/lib.rs:1318-1333 | While a younger worker exists, a worker that has not crashed has a tunnel (held, being built, or dropped and not yet stopped) if and only if it is a wake attempt that has reported Awake and not yet disconnected, or its connect dropped a tunnel and it has not yet exited |
| `AppSystem.AwakeThenIdle` | crates/waker-app/src/lib.rs:572-587 | However a run goes on from Awake: it stays on display with no attempt begun, to the end or up to a step that makes the state Idle with no attempt begun yet |
| `AppDrain.DrainRefines` | crates/waker-app/src/lib.rs:472-511 | In every reachable state the drain steps of the system, uninterrupted, leave the interface exactly as the loop over the whole channel |
| `AppDrain.DrainFinishesIff` | crates/waker-app/src/lib.rs:506-510 | Such a drain ends the attempt if and only if the worker has sent its final state or is gone |
| `AppChecks.ResultIsLatest` | crates/waker-app/src/lib.rs:513-550 | In every reachable state each diagnostic button shows the outcome of its latest launch: nothing while that worker is waited for, then the worker's own answer or the failure of its runtime, or its silence if and only if it crashed before answering, or the reason why there was no worker |
| `AppOverlap.OverlapHappens` | crates/waker-core/src/lib.rs:231-251 | The first way: a run in which two workers, neither of them crashed, hold tunnels at once |
| `AppOverlap.LingeringHappens` | crates/waker-net/src/lib.rs:1069-1072 | The second way: a run in which a worker holds a tunnel while the one an older worker dropped in its connect may still be there |
| `AppFrame.ShowUi` | crates/waker-app/src/lib.rs:1343-1357 | A frame drains the three channels, then runs the two timers, then the buttons: the fields and the repaint instants are those of `Frame` |
| `AppFrame.FrameArmsTimers` | crates/waker-app/src/lib.rs:1343-1357 | Of the repaints a frame requests, in every run whose clock does not go back: both result timers are armed, and the timer of the terminal state is armed if and only if no wake click failed in that frame or something else arms it |
| `AppFrame.FailedWakeArmedIff` | crates/waker-app/src/lib.rs:333-364 | After a failed wake click (rejected configuration or no thread) the frame requests a repaint by the deadline of its error if and only if another timer was running or a check click failed in the same frame by the same instant |
| `AppFrame.FailedWakeIsNotArmed` | crates/waker-app/src/lib.rs:333-364 | In every run: with no timer running and no further click, a frame with a failed wake click requests no repaint by the deadline of its error |
| `AppFrame.FailedWakeHappens` | crates/waker-app/src/lib.rs:333-364 | Both failures do this in a first frame |
| `AttemptIds.LastAttemptId.NextAttemptId` | crates/waker-app/src/lib.rs:1629-1642 | The retry loop returns the value it stores: the clock reading or one more than the last value, at least the one and greater than the other unless that was the largest u64 |
| `AttemptIds.IdsAreDistinct` | crates/waker-app/src/lib.rs:1629-1642 | For any threads, clocks and interleaving: ids are the stored values, at least their caller's clock reading, increase strictly in swap order, and two are equal if and only if both are the largest u64 |
| `Engine.PortsDiffer` | crates/waker-net/src/lib.rs:626-655 | Ports stay in 49152..65535, and two openings share one if and only if they are a multiple of 16384 apart |
| `Engine.SmolEngine.OpenSocket` | crates/waker-net/src/lib.rs:626-655 | The k-th opening takes the k-th port; the counter goes up by one and from 65535 back to 49152; a failed connect restores the socket set |
| `Engine.SmolEngine.Http` | crates/waker-net/src/lib.rs:460-530 | The loop ends at the first poll that decides, and there, in this order: an error of the first send or of a receive, which alone leaves the socket behind; a socket closed before the request was sent; a request sent whole with nothing more to come, which gives everything received; else, at or after the deadline, the timeout |
| `Engine.HttpMeans` | crates/waker-net/src/lib.rs:460-530 | Success means that the request was accepted whole at the first opportunity and nothing more can come, and gives all received bytes in order; a request fails as unconnected if its socket is closed before it could be sent, and only then |
| `Engine.BodyGathers` | crates/waker-net/src/lib.rs:496-511 | The body gathers the receives of all polls in order; nothing received is ever taken back |
| `Engine.GatheredConcat` | crates/waker-net/src/lib.rs:496-511 | Gathering loses, doubles and moves no byte |
| `Engine.SmolEngine.Receive` | crates/waker-net/src/lib.rs:496-511 | The inner loop gathers all received bytes in order, or fails if and only if some receive fails |
| `Engine.SmolEngine.Probe` | crates/waker-net/src/lib.rs:532-559 | True exactly if the first poll that is not still opening shows an established connection before the deadline; the socket set is always restored |
| `Engine.SmolEngine.Ping` | crates/waker-net/src/lib.rs:561-624 | True if and only if the last poll shows the echo reply of the target with the fixed identifier and sequence number before any receive error; false if and only if no poll shows that reply or an error, and then the deadline has passed; the first receive error otherwise, which alone leaves the socket behind |
| `Engine.SmolEngine.ReceiveIcmp` | crates/waker-net/src/lib.rs:588-613 | The inner receive loop computes `Scan` |
| `Engine.Run` | crates/waker-net/src/lib.rs:428-458 | Over every command sequence: each command ends as `Http`, `Probe` or `Ping` can end on what its polls show, the socket set is exactly the handles of the commands that ended in a leaking error, none of them is used again, and one port is given out for each command but the pings |
| `Engine.ScanFindsReply` | crates/waker-net/src/lib.rs:588-613 | A reply if and only if the awaited packet comes before any receive error, nothing if and only if there is neither, and otherwise the first receive error |
| `Engine.SleptBound` | crates/waker-net/src/lib.rs:614-623 | A loop that checks its deadline before each 5 ms sleep ends less than 5 ms late, and not late at all if the timeout is a multiple of 5 ms |
| `Engine.ReadinessProbeTime` | crates/waker-net/src/lib.rs:1101-1102 | A readiness probe sleeps at most 750 ms |
| `Commands.RepliesFollowQueueOrder` | crates/waker-net/src/lib.rs:428-458 | Over every interleaving with abort and drop: no command is answered twice, replies follow queue order, at most 8 commands wait |
| `Commands.AnswersMatchRequests` | crates/waker-net/src/lib.rs:734-787 | A returned reply was computed for that same command; WorkerStopped is returned only if the engine stopped without replying |
| `Commands.StoppedEngineAnswersAll` | crates/waker-net/src/lib.rs:734-797 | After the engine has stopped every waiting call can return at once: its reply if there was one, else WorkerStopped |
| `Commands.RunningEngineAnswers` | crates/waker-net/src/lib.rs:428-458 | In every reachable state of a running engine, the engine and one call alone bring that call, whether it waits for capacity or for its reply, to the reply for its own request |
| `Teardown.TasksStop` | crates/waker-net/src/lib.rs:704-726 | From the moment a client is shut down or dropped every interleaving has at most `Measure` effective steps, and when none is left both tasks have stopped |
| `Teardown.StepLowersMeasure` | crates/waker-net/src/lib.rs:704-726 | Every effective step of a closing tunnel lowers the measure |
| `Teardown.ShutdownReturnsStopped` | crates/waker-net/src/lib.rs:789-797 | When `shutdown` returns, both tasks have stopped |
| `Teardown.NoMissedSignal` | crates/waker-net/src/lib.rs:704-716 | A device task that waits although the stop flag is set has not seen the latest version and is woken by it |
| `Backend.WakerWireGuardBackend.Connect` | crates/waker-net/src/lib.rs:1063-1084 | A tunnel that is opened is kept if the box is reachable, shut down if it is not, dropped if the probe fails; at most one is held |
| `Backend.WakerWireGuardBackend.Disconnect` | crates/waker-net/src/lib.rs:1107-1112 | The held tunnel is shut down; none is held afterwards |
| `Backend.WakerWireGuardBackend.Attempt` | crates/waker-core/src/lib.rs:201-251 | After connect and disconnect every tunnel ever opened has been shut down or dropped, whatever the connect did |
| `Repaint.RepaintSignal.Request` | crates/waker-app/src/android.rs:36-44 | The deadline becomes the earlier of the two and the loop is woken |
| `Repaint.RepaintSignal.Timeout` | crates/waker-app/src/android.rs:46-49 | The poll timeout ends exactly at the deadline, or at once if it has passed |
| `Repaint.RepaintSignal.TakeIfDue` | crates/waker-app/src/android.rs:51-60 | A deadline is consumed if and only if it has passed |
| `Repaint.NoLostWakeup` | crates/waker-app/src/android.rs:740-837 | In every reachable state with a window a queued message has a repaint already due, unless its worker is between send and request or the loop is between take and drain or attaching; and the loop does not sleep on |
| `Repaint.OneRoundDrains` | crates/waker-app/src/android.rs:740-837 | From such a sleep one round of the loop alone reaches the drain |
| `Repaint.LostExactlyByDetachedTake` | crates/waker-app/src/android.rs:817-820 | In every reachable state, with or without a window, a step leaves a queued message without a coming repaint if and only if it takes a due deadline without a window while no request is on its way |
| `Repaint.DetachedLoopSwallowsRequest` | crates/waker-app/src/android.rs:817-820 | A run that paints a frame before its worker sends, then loses the window, and ends with a message, no deadline and no request coming |
| `Pointer.AndroidInput.HandleMotion` | crates/waker-app/src/android.rs:561-612 | Event by event: a press without a primary touch becomes it and is pushed as move and press; lifting the primary touch pushes release and gone and leaves none; cancelling pushes gone; every motion pushes its touches, and other touches nothing else |
| `Pointer.AndroidInput.TakeFrame` | crates/waker-app/src/android.rs:453-459 | A frame takes every pending event and the tap flag, once |
| `Pointer.FramesOnlySplit` | crates/waker-app/src/android.rs:561-612 | No event is lost or reordered by frames: batches and pending events together are what the same input gives unpainted |
| `Pointer.PointerStreamIsBracketed` | crates/waker-app/src/android.rs:72-119 | For every touch sequence and every split into frames the pointer events are finished gestures - press, moves, then release and gone or gone alone - and at most one open press, open if and only if a primary touch is held |
| `Pointer.MotionMeans` | crates/waker-app/src/android.rs:82-118 | What each motion event adds to the pointer stream and makes of the primary touch, for any state before it |
| `Pointer.MovesCompose` | crates/waker-app/src/android.rs:95-99 | A motion event of several fingers touches and moves for each of them in order, with its own position |
| `Pointer.PrimaryHistory` | crates/waker-app/src/android.rs:82-118 | Over every run: a finger is the primary one if and only if it was pressed when there was none and has since neither been lifted nor cancelled |
| `Pointer.OtherTouchesAreIgnored` | crates/waker-app/src/android.rs:95-112 | While a primary touch is held other touches do not reach the pointer |
| `Pointer.TapBelongsToBatch` | crates/waker-app/src/android.rs:821 | A frame is told of a tap if and only if its own batch contains a press |
| `Ime.Utf16IndexToChar` | crates/waker-app/src/android.rs:211-223 | The counting loop returns the least character index whose UTF-16 index is at least the given one |
| `Ime.Galois` | crates/waker-app/src/android.rs:207-223 | Within the text, the character index of u is at most k if and only if u is at most the UTF-16 index of k |
| `Ime.CharRoundTrip` | crates/waker-app/src/android.rs:207-223 | Character to UTF-16 (section 2.1 of RFC 2781) and back is the identity up to clipping |
| `Ime.Utf16RoundTrip` | crates/waker-app/src/android.rs:207-223 | UTF-16 to character and back is the identity if and only if the index is a character boundary; otherwise it moves to the end of the pair or of the text |
| `Ime.BoundaryIff` | crates/waker-app/src/android.rs:207-223 | The character boundaries are exactly the places of the encoded text (section 2.1 of RFC 2781) at which no low surrogate stands |
| `Ime.AndroidIme.Update` | crates/waker-app/src/android.rs:130-198 | The keyboard is shown if and only if the field is another one, opened again if and only if it is the same and was clicked, hidden if and only if the user tapped with no field focused; the state is pushed if and only if field, text or selection differ; with the new synchroniser state |
| `Ime.AndroidIme.AcceptTextState` | crates/waker-app/src/android.rs:200-204 | Text, selection and composing region are those of the edit; no snapshot of the same field, text and selection counts as changed afterwards |
| `Ime.PushesIffChanged` | crates/waker-app/src/android.rs:145-177 | The editor state is pushed if and only if field, text or selection differ from what Android last knew |
| `Ime.UpdateIsEdgeTriggered` | crates/waker-app/src/android.rs:145-177 | The same editor state is not pushed twice |
| `Ime.TextFields.ApplyAndroidTextInputState` | crates/waker-app/src/lib.rs:1157-1174 | An edit goes into the text of the focused field, and of no other, and overrides its selection |
| `Ime.TextFields.CaptureAndroidTextEdit` | crates/waker-app/src/lib.rs:1107-1155 | A focused field shows its own text, with the overriding selection of an edit to it, else egui's cursor, else a caret at the end; an override for another field is kept |
| `Ime.EditsAreNotEchoed` | crates/waker-app/src/android.rs:652-661 | After any edits ending in a collapsed caret and a frame with the focus kept, the state is pushed back if and only if the caret splits a surrogate pair or lies past the end |
| `Text.Find` | crates/waker-net/src/lib.rs:900-914 | The first occurrence, or none if there is none |
| `Text.LossySplits` | crates/waker-lab/src/main.rs:109-110 | Lossy UTF-8 decoding (RFC 3629) is split by any ASCII octet, for well-formed and ill-formed bytes alike |
| `Text.StrictIff` | crates/waker-net/src/lib.rs:884-885 | A text is decoded from its UTF-8 encoding (section 3 of RFC 3629) and from no other bytes |
| `Text.LowerMeans` | crates/waker-app/src/lib.rs:1698 | Each capital letter becomes the small one and nothing else changes |
| `Decimal.PrintParse` | crates/waker-lab/src/main.rs:109-117 | A printed number is read back if and only if it fits |
| `Decimal.ParseMeans` | crates/waker-net/src/lib.rs:888-892 | Digits are read with at most one plus sign before them, whatever their leading zeros; nothing else is a number |
| `Address.Ipv4ParseIff` | crates/waker-net/src/lib.rs:915-918 | A text is read as an IPv4 address if and only if it is the printed form of that address |
| `Address.MacRoundTrip` | crates/waker-core/src/lib.rs:17-46 | Every MAC address is read back from its printed form |
| `Address.MacForms` | crates/waker-core/src/lib.rs:28-46 | Every MAC address is read from any spelling of its six octets, whichever mixture of colons and dashes stands between them |
| `Address.HexDigits` | crates/waker-core/src/lib.rs:17-25 | An octet is printed high digit first, in upper case |
| `Lab.ReadRequest` | crates/waker-lab/src/main.rs:46-70 | The read loop computes `Collect`: it stops at the first complete request, at the end of the stream or at an error |
| `Lab.CollectMeans` | crates/waker-lab/src/main.rs:46-70 | Whatever is read: the loop holds the first k reads, fewer of which were no complete request, and stops at a complete one, at the end of the stream or at a failed read |
| `Lab.HeaderEnd` | crates/waker-lab/src/main.rs:54-61 | The first blank line of a message is the one after its header lines, whatever the body holds |
| `Lab.LengthOfHeader` | crates/waker-lab/src/main.rs:109-117 | Of the lines of a header, the first usable Content-Length counts, and what follows the header does not |
| `Lab.CompleteMeansWhole` | crates/waker-net/src/lib.rs:858-868 | For any address, any arguments and any action without a line feed, a prefix of the printed request is complete for the lab if and only if it is the whole request (section 6.3 of RFC 9112) |
| `Lab.AnyChunking` | crates/waker-lab/src/main.rs:46-70 | However the request is split into reads, the loop waits until the last one and ends holding the whole request |
| `Lookup.BranchTaken` | crates/waker-lab/src/main.rs:72-90 | For every MAC the client's lookup takes the lab's lookup branch and its wake request the wake branch |
| `Lookup.LookupRoundTrip` | crates/waker-net/src/lib.rs:971-1024 | For every MAC, both addresses and any chunking: the lab reads the whole request, which names that MAC, and its reply parses to status 200, exactly the PC's address, and active |
| `Lookup.WakeRoundTrip` | crates/waker-net/src/lib.rs:1092-1099 | For every MAC and any chunking the wake request is read whole, names that MAC, and is accepted |
| `Lookup.RequestNamesMac` | crates/waker-net/src/lib.rs:858-877 | In every request the first MAC field holds the printed form of its MAC |
| `Lookup.OtherRequestsAreRejected` | crates/waker-lab/src/main.rs:72-106 | A request with no MAC tag, or with neither action, gets a 404 that the client rejects |
| `Hosts.StatusOk` | crates/waker-net/src/lib.rs:879-893 | Every reply with this status line has status 200, whatever follows |
| `Hosts.RequestText` | crates/waker-net/src/lib.rs:856-868 | The whole text of a request |
| `Hosts.StatusReads` | crates/waker-net/src/lib.rs:879-893 | A status line is read for its number, if that fits in 16 bits, whatever stands around it |
| `Hosts.FieldMeans` | crates/waker-net/src/lib.rs:895-914 | For every reply: a field is read only from between the first opening tag and the first closing tag after it |
| `Hosts.FieldReads` | crates/waker-net/src/lib.rs:895-914 | Every such text between the first tags is read, trimmed |
| `Hosts.FieldFails` | crates/waker-net/src/lib.rs:895-914 | A field is reported as missing if and only if its opening tag is, and as incomplete if and only if there is no closing tag behind that |
| `Hosts.ResolvedIpMeans` | crates/waker-net/src/lib.rs:971-1024 | For every reply: an address is used only if the status is 2xx and the address field holds, apart from whitespace, exactly its printed form |
| `Hosts.ResolvedIpReads` | crates/waker-net/src/lib.rs:971-1024 | For every reply with an address field: it gives an address if and only if the status is 2xx and the field holds its printed form |
| `Hosts.WakeAcceptedIff` | crates/waker-net/src/lib.rs:1092-1099 | A wake request is accepted by the replies of status 200 to 299 and by no others |
| `Hosts.HostActiveMeans` | crates/waker-net/src/lib.rs:921-947 | For every reply: active exactly for 1 or true, inactive exactly for 0 or false in the status field |
| `Hosts.HostActiveReads` | crates/waker-net/src/lib.rs:921-947 | For every reply with a status field: 1 and true are active, 0 and false are inactive, and everything else is rejected |
| `Hosts.StatusIs` | crates/waker-net/src/lib.rs:879-893 | For every reply: the status is the second word of the first line without its carriage returns, if that line is UTF-8, has two words and the word is a number that fits; otherwise the matching error |
| `Profile.ParseProfile` | crates/waker-net/src/lib.rs:59-162 | The parse loop computes `Parse`, errors and line numbers included |
| `Profile.ParseWakerFileSettings` | crates/waker-app/src/lib.rs:1690-1705 | The settings loop computes `ParseSettings` |
| `Profile.CommentsAreCut` | crates/waker-net/src/lib.rs:77 | A line has the same content with a hash sign and anything behind it |
| `Profile.InvalidLineIsFirst` | crates/waker-net/src/lib.rs:96-101 | The number in a complaint about an invalid line is that of the first line that is neither empty, nor a section header, nor an assignment |
| `Profile.LaterValuesWin` | crates/waker-net/src/lib.rs:105-134 | A later value of a key replaces the earlier one, allowed networks are added to those before, and an address list without an IPv4 network changes nothing |
| `Profile.FirstIpv4Means` | crates/waker-net/src/lib.rs:106-113 | The address is that of the first entry that is an IPv4 network |
| `Profile.NetworksMean` | crates/waker-net/src/lib.rs:118-124 | A list of networks is accepted if and only if every entry is one, in order; else the first that is none is named |
| `Profile.LastSettingWins` | crates/waker-app/src/lib.rs:1690-1705 | The last line that sets a name, in any mixture of cases, decides its value |
| `Profile.KeepLines` | crates/waker-app/src/lib.rs:1692 | Deleting lines from a text deletes exactly those from its lines |
| `Profile.RecognisedLineIsPassedOver` | crates/waker-net/src/lib.rs:130-133 | A line the settings parser uses leaves the profile parser as it was, in every section |
| `Profile.TwoParsersOneFile` | crates/waker-net/src/lib.rs:76-143 | For every text: without the settings lines the profile parse is the same, an invalid line being numbered by its exact place among the lines left; without all other lines the settings are the same |
| `Profile.SameLineComplainedAbout` | crates/waker-net/src/lib.rs:96-101 | Those two numbers belong to one and the same line, the first invalid one |
| `ProfilePrint.SettingSplits` | crates/waker-net/src/lib.rs:96-103 | A printed assignment is split at its first equals sign, so base64 padding stays in the value |
| `ProfilePrint.ListRoundTrip` | crates/waker-net/src/lib.rs:118-124 | A printed list of networks is read back in order |
| `ProfilePrint.CombinedRoundTrip` | crates/waker-net/src/lib.rs:59-162 | A canonical profile is read back to its fields, its networks in any grouping over lines, wherever settings lines stand between them |
| `ProfilePrint.OneFileRoundTrip` | crates/waker-app/src/lib.rs:1690-1705 | One file with a printed profile and the settings gives each parser back its own |

## Left out

- The insides of smoltcp, GotaTun, tokio and std channels: sockets, queues, watches and clocks are what the code relies on of them. A send into a channel whose receiver is gone is lost; a weak compare-and-swap may fail; a relaxed load may return anything.
- `Engine`: a poll takes no time and a sleep lasts exactly 5 ms; what a poll shows is arbitrary. The port counter and the socket set are exact; socket buffers and packet contents are not modelled.
- `WakeCore`: answers, probe times and oversleeping are arbitrary functions of the probe number; the parameter `horizon` is a bound assumed only to make the loop terminate, and `AttemptsHalt` discharges it.
- `Evidence.NoFalseAwake`: hosts answer requests they received, of this tunnel or an earlier one, at any time and any number of times; a host in the set `liars` may also send echo replies to no request at all, and for such a host the lookup and the accepted wake request are still proved. The texts of errors are arbitrary.
- `Evidence`: the FRITZ!Box is trusted to answer the request it was sent; that the address it names is the PC's is its business.
- `AppFrame.ShowUi`: the drains, timers and the three buttons of a frame; everything it draws and the other widgets are left out.
- `AppFrame.FrameArmsTimers`, `AppFrame.FailedWakeIsNotArmed`: only the repaints requested by the code of the frame are counted, not those of egui itself, of the Android loop after input, or of workers.
- `AppFrame.FrameArmsTimers`: a repaint is counted at the clock reading its delay was computed from; the moments between that reading and the request are not modelled.
- `AppSystem.OverlapIff`: a crashed older worker is exempt, since a panic ends its channel while its runtime is still being dropped; a worker's exit closes its channel and ends its runtime, and with it a dropped tunnel, in one step.
- `AppSystem`: a worker's course (outcome, failing thread, crash) is arbitrary but fixed when it starts; check workers connect, look up and disconnect without the single ping packets in between.
- `Repaint.NoLostWakeup`: egui is taken to forward each repaint request to the callback of the loop, and a paint with a window to begin by running the user interface.
- `Lab.CompleteMeansWhole`: the body is taken to be no longer than the largest 64-bit number, which every Rust string is; the sum of header end and announced length is not wrapped for requests the client did not print.
- `Lookup.RequestNamesMac`: the MAC field is read as the TR-064 service is taken to read it, from the first opening tag to the next closing one; the lab itself looks at no MAC.
- `Lookup.LookupRoundTrip`: for an IPv4 PC address; the lab can also be started with an IPv6 address, which the client rejects as no IPv4 address.
- `Profile.Parse`: base64 and X25519 key decoding and network parsing are parameters, so nothing is said about which keys and networks are valid.
- `Ime.EditsAreNotEchoed`: collapsed carets only. Which end of a non-empty selection is the primary one is decided inside egui, which is not part of this model.
- `Commands`: dropping a client while a call borrows it is impossible in Rust and not a step; the engine's own work is one step that observes anything.
- DNS resolution, UDP sockets, files, logging, diagnostics bundles, labels, colours, confetti painting and all other drawing: input and output, or easy members.
- `sanitize_diagnostics`, `text_data_uri`, `suspicious_dns_result` and `friendly_failure_message`: each is read off its own body.
- Android surfaces beyond the one fact whether a window is there, JNI calls, key maps and insets.
