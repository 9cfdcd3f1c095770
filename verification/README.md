# Reactor: concurrency and shutdown, verified

A Dafny model of the hard core of the reactor library, a thread-per-core server runtime: the call
that runs a closure on another thread's loop, the list of abortables that is changed while it is
walked, the accept loops with their session tickets and the bounded `stop()`, the two lock-free
admission counters, the loop primitives, the lag histogram and the UDP owner thread.

`dafny verify dfyconfig.toml` checks the whole project.

## How it is modelled

Code that several threads or callbacks interleave is a step machine: a `State`, a `Step` for each
atomic operation or mutex-protected block, `Enabled` and `Do`. A run is any sequence of enabled steps
(`Runs`, `After`), so a lemma about `After(s, steps)` for every `steps` is about every interleaving of
any number of threads, callers, reactors or connections. Each machine has one invariant `Inv`, a
lemma `StepKeeps`, and main results that follow from it.

Code that one thread runs and that updates its fields in place is a class whose methods are proved
against functions on values: the intrusive list, the timer state, the backoff counters, the histogram,
the owner thread, the leases, and the deciding blocks of the cross-thread call.

| file | what it covers |
|---|---|
| `SyncCall.dfy` | `Reactor::on_loop_sync`, `claim_loop`, `release_loop` |
| `AbortWalk.dfy`, `AbortList.dfy` | `AbortList`: the sequence it stands for, and the linked nodes that refine it |
| `Tracking.dfy` | `track`, `untrack`, `abort_all`, `force_all` with arbitrary callbacks |
| `Server.dfy` | accept loops, tickets, sessions and `TcpServer::stop` as one machine |
| `AcceptBarrier.dfy`, `StopOrder.dfy`, `StopEnds.dfy` | how accept loops end, what `stop()` does and when, and whether it ends |
| `Ledger.dfy` | what becomes of each accept, ticket, error and pause |
| `ConnectionAdmission.dfy`, `AdmissionGate.dfy` | the two admission counters against one specification, and the leases of both |
| `AcceptBackoff.dfy` | `AcceptControl::retry` |
| `PeriodicTimer.dfy`, `Signal.dfy` | the loop primitives over a FIFO loop |
| `LagBuckets.dfy`, `LagHistogram.dfy` | bucket arithmetic, snapshots, the quantile, the probe's tick |
| `Basics.dfy` | what several of them share |
| `UdpOwner.dfy` | the owner thread of `UdpServer` |

## Where the code does not do what one would expect

Each of these is stated exactly, with the condition under which the expected property holds.

- A closure that throws on the loop leaves `sync_done_` unset. Where the loop's owner catches the
  exception and goes on, as `UdpServer` does, its caller and every later one behind `sync_call_` wait
  forever (`SyncCall.QuietMeansSettled`, `SyncCall.ThrowOnLoopNeverReturns`,
  `SyncCall.ThrowStrandsTheCaller`). The threads of `TcpServer` do not catch it (reactor.h:671), so there
  the process ends instead.
- An `abort()` that throws out of the walk leaves the remaining nodes without their `abort()` for good
  (`Tracking.AbortedExactlyOnce`, `Tracking.MissedNeverAborted`, `Tracking.ThrowMissesTheRest`).
- `stop()` waits forever for an accept loop that is suspended on a loop its host has stopped, since the
  posted close never runs there (`AcceptBarrier.BarrierCanEndIff`, `AcceptBarrier.HaltStrandsStop`).
- `remove` repairs the cursor in use, not the one a nested `each` has saved. A nested walk that removes
  the saved node makes the outer walk visit a removed node and skip a tracked one
  (`AbortWalk.NestedWalkResumes`, `AbortWalk.NestedRemovalBreaksTheWalk`).
- A force walk reaches a node before its abort unless the abort walk has passed it
  (`Tracking.ForceComesFirstIff`, `Tracking.ForceAloneComesFirst`). The order of calls in `stop()` does
  not rule that out: an `abort_all()` that finds `aborting_` already set returns at once, before the
  winner's walk (`Tracking.StopForcesEarlyIff`, `Tracking.LoserForcesFirst`).
- `AdmissionGate` can refuse while nothing is held, because concurrent refusals count until they are
  undone (`AdmissionGate.RefusesWhileEmpty`); `ConnectionAdmission` cannot.
- The free skips of `retry` start again when the 32-bit counter wraps (`AcceptBackoff.FreeSkips`), and a
  launch that runs out of memory never backs off, since the accept before it reset the delay
  (`AcceptBackoff.ResourcePause` with k = 1).

## Model

| member | source | states |
|---|---|---|
| SyncCall.SyncSlot.Take | reactor.h:281-285 | the handler takes the call if and only if it is the open one, and changes nothing otherwise |
| SyncCall.SyncSlot.Decide | reactor.h:291-295 | the caller sleeps exactly while its wait condition fails; otherwise it returns if the call is done and takes the call back if it is still open and no loop thread is left |
| SyncCall.ExactlyOnce | reactor.h:275-297 | in every interleaving of any number of calls, handlers, stops and departures: each closure is entered at most once, a call that returned had its closure run exactly once to its end, and no two posted closures overlap |
| SyncCall.NeverTouchedAfterReturn | reactor.h:269-297 | no step of any thread enters or leaves a closure whose caller has returned or thrown, stale handlers of earlier calls included |
| SyncCall.CallerRunsOnlyOffALoop | reactor.h:276-296 | a caller runs the closure itself only if it is on the loop or no loop thread is left, in every run; otherwise it runs on a loop thread |
| SyncCall.FreshId | reactor.h:277-283 | a call's id is larger than that of every handler still queued or popped and than the last call opened or done, whatever calls came before |
| SyncCall.NoLostWakeup | reactor.h:222-225 | in every reachable state, a caller asleep although its condition holds is still owed a notify by a departed thread |
| SyncCall.NoDeadlock | reactor.h:280-296 | on a running loop or a stopped one, unless a closure has thrown on it, every started call that is not settled has an enabled step of a caller, handler, notify, or of a thread leaving a stopped loop |
| SyncCall.FuelDecreases | reactor.h:275-297 | every step but a new claim or a spurious wakeup uses up a bound on the steps to come |
| SyncCall.RunsAreBounded | reactor.h:275-297 | so every run without those is no longer than that bound: no livelock |
| SyncCall.QuietMeansSettled | reactor.h:221-297 | when no step that finishes a started call is left, on a loop that runs on or on a stopped one, every started call has returned or thrown, if and only if no closure threw on a loop thread |
| SyncCall.ThrowOnLoopNeverReturns | reactor.h:277-288 | a call whose closure threw on the loop, in any run, never returns in any continuation, and a call waiting behind it never gets sync_call_ |
| SyncCall.ThrowStrandsTheCaller | reactor.h:286-288 | such a run exists with one caller and one loop thread |
| AbortWalk.NestedWalkResumes | reactor.h:121-132 | for any callbacks, a nested walk hands the cursor back at the first pending node not removed, if and only if it did not remove the saved node |
| AbortWalk.SparingWalkResumes | reactor.h:121-132 | what a caller can see beforehand: it does so when its callbacks nowhere remove the saved node, at any depth |
| AbortWalk.RunResumes | reactor.h:116-127 | whatever a callback adds and removes, and whatever walks it starts that spare the saved node, the walk goes on at exactly the pending nodes that were not removed, in order |
| AbortWalk.EachVisits | reactor.h:112-132 | for any callbacks whose own walks spare the saved node, whatever is nested in those walks: every visit is to an initial node, not visited or removed before, in list order, and every initial node is visited or was removed; new nodes are never visited |
| AbortWalk.RunAccounts | reactor.h:116-127 | for any callback at any depth, the members of the list after it are those before with the added and removed events of its trace replayed over them |
| AbortWalk.EachAccounts | reactor.h:128-132 | the same for a whole walk |
| AbortWalk.FlatRunDoes | reactor.h:128-132 | a callback without walks performs exactly its operations, in order, but for adds of tracked and removals of untracked nodes |
| AbortWalk.FlatWalkIsKept | reactor.h:128-132 | callbacks that do not nest walks always meet that hypothesis |
| AbortWalk.WalkEnds | reactor.h:130 | under the same hypothesis the walk takes at most one turn per initial node, however many nodes the callbacks add |
| AbortWalk.NestedRemovalBreaksTheWalk | reactor.h:121-132 | for any three nodes, a nested walk that removes the saved one makes the outer walk visit it and skip a tracked node |
| AbortList.AbortList.constructor | reactor.h:134-137 | an empty list over nodes in no list |
| AbortList.AbortList.Meet | reactor.h:106-109 | nodes that are in no list, made at any time, may be added from now on; the list is as it was |
| AbortList.AbortList.TrackNew | reactor.h:394-395 | a node made after the list becomes its head, with what was tracked behind it |
| AbortList.AbortList.Add | reactor.h:116-120 | the links stay well formed, the list is the node followed by what it was, and the cursor is unchanged |
| AbortList.AbortList.Remove | reactor.h:121-127 | the links stay well formed, exactly that node leaves, the cursor steps past it if it was there; nothing happens to a node that is not in this list |
| AbortList.AbortList.Bypass | reactor.h:124-125 | the neighbours of the node, or the head, are linked past it and no other link changes |
| AbortList.AbortList.Detach | reactor.h:124-126 | and the node keeps no links |
| AbortList.AbortList.Each | reactor.h:128-132 | the walk over links refines the sequence walk: same visits in the same order, same list and cursor afterwards, for any callbacks |
| AbortList.AbortList.WalkFromCursor | reactor.h:130 | the same for the loop alone, with the cursor moved under it by the callbacks |
| AbortList.AbortList.VisitNext | reactor.h:130 | one turn: the cursor is past the node before the callback runs |
| AbortList.AbortList.IsEmpty | reactor.h:133 | empty() is true exactly when nothing is tracked |
| Tracking.AbortedExactlyOnce | reactor.h:227-243 | in every run with arbitrary nested callbacks, throwing ones included, and any number of abort_all() calls: no node is aborted twice in one tracking or before the walk has begun; once the walk is over, every tracked node user code can see was aborted exactly once, except exactly those the walk had yet to reach when an abort() threw out of it |
| Tracking.MissedNeverAborted | reactor.h:128-132 | those are not aborted in any continuation while they stay tracked |
| Tracking.ThrowMissesTheRest | reactor.h:128-132 | a run with two nodes in which the abort() of the first throws and the second is missed |
| Tracking.ThrowReachesUserCode | reactor.h:231-248 | an exception from a callback leaves one track() or walk and arrives in user code, in every run |
| Tracking.RunningSessionAskedOnce | reactor.h:391-398 | a session that was called and still runs when the abort walk is over has been asked to stop exactly once, unless the walk missed it |
| Tracking.ForcedAfterTheWalk | reactor.h:235-248 | after a force walk every tracked node has been forced in its current tracking, unless a callback that threw kept it from that, whatever becomes of the abort walk |
| Tracking.NoForceBeforeForceAll | reactor.h:235-247 | before any force walk has begun no node has been forced, by a late track() or otherwise |
| Tracking.OneCallAStep | reactor.h:231-248 | a step calls abort() and force() on a node at most once |
| Tracking.TrackedIs | reactor.h:231-237 | in every run exactly the nodes last tracked and not untracked since are in the list, whatever walks, callbacks and exceptions do |
| Tracking.NoForceBeforeAbort | reactor.h:231-248 | with force walks after the abort walk, no step forces a node that was not aborted in its current tracking, a late track() included, unless the abort walk missed it |
| Tracking.ForceComesFirstIff | reactor.h:241-248 | in any order: a step that forces a tracked node does so before its abort() if and only if the abort walk has not begun, has yet to reach the node, or missed it |
| Tracking.ForceAloneComesFirst | reactor.h:246-248 | a run in which it does: a force_all() with no abort_all() before it |
| Tracking.StopForcesEarlyIff | reactor.h:707-722 | stop()'s force walk begins before the abort walk has ended if and only if its abort_all() lost the exchange and the winner's walk has not ended |
| Tracking.WinnerForcesInOrder | reactor.h:707-722 | while stop() has not lost the exchange and nobody else forces, no node is forced that was not aborted |
| Tracking.WinnerAbortsThenForces | reactor.h:707-722 | a run in which stop() wins, its walk aborts the node, and its force walk forces it |
| Tracking.LoserForcesFirst | reactor.h:242 | the race: another thread wins the exchange, stop() goes on at once and forces a node that has had no abort() |
| Server.Conservation | reactor.h:361-372 | over every path (refusal, hand-off, bad_alloc, normal end, throw, destruction unrun): each reactor's session count is the number of tickets naming it, active is the number of leases held and within the bound, and a connection's lease has been refunded once if it came in on one and its ticket reset it, and never otherwise |
| Server.NoLateBody | reactor.h:391-399 | in every order of launch, hop and abort walk, a session body starts exactly if the walk of its reactor has not begun; otherwise the session ends unserved |
| Server.DrainedAtOnce | reactor.h:744-749 | when stop() finds all sessions ended, looking at one reactor after another, all reactors are drained at the same time, every ticket is gone and no lease is active |
| Server.TwoGracesAtMost | reactor.h:718-722 | stop() spends at most two graces waiting for sessions, for any number of reactors, and gives up on sessions only after two full ones |
| StopOrder.EveryReactorAsked | reactor.h:710-722 | past its abort_all() calls stop() has asked every reactor to abort, and when it ends with sessions alive it has forced every one |
| StopOrder.StopForcesIff | reactor.h:719-722 | a finished stop() has forced a reactor if and only if its first grace ended with a session alive |
| StopOrder.NoSessionStaysMeansDrained | reactor.h:744-749 | a run in which no wait ran out on a living session never forces and ends drained |
| StopOrder.WalksHaltsAndClock | reactor.h:241-244 | an abort walk has begun, and a loop is halted, exactly if a step of the run did so, and the clock shows what has passed |
| StopEnds.StopCanEndIff | reactor.h:707-722 | in every reachable state some continuation brings stop() to its end if and only if no accept loop is suspended on a loop its host has stopped |
| Ledger.EveryPeerAccounted | reactor.h:537-549 | in every run each peer accepted has got a ticket, was refused by a full bound, was turned away by a stop, or is in the accept loop's hands; none is dropped otherwise |
| Ledger.EveryTicketAccounted | reactor.h:391-416 | each ticket has led to a call of the session, was dropped for a begun abort walk, a failed launch or a frame destroyed unrun, or still waits |
| Ledger.EveryErrorRetried | reactor.h:541-551 | each accept error and failed launch goes through retry(), and each pause it asks for is taken |
| Ledger.AcceptLoopGoesOn | reactor.h:537-552 | until it is told to stop an accept loop does not end, whatever it meets, unless its listener could not be opened or an error is fatal |
| Ledger.SpawnedOnItsLoop | reactor.h:400-416 | a session is spawned on its own loop, by its own acceptor or by the hop to it |
| AcceptBarrier.NoUncancelledWait | reactor.h:480-483 | once stop_on_owner has run, the accept loop is in no accept or timer wait that has not completed, wherever it was when stopping was set, and past every point from which it could launch |
| AcceptBarrier.OwnStepsAreBounded | reactor.h:537-552 | in any schedule and any continuation, an accept loop takes at most six steps of its own once stopping is set, and at most three once stop_on_owner has run |
| AcceptBarrier.QuietMeansFinished | reactor.h:711-717 | in every reachable state in which the close was posted and the loop has no step left to take, the accept loop is finished if and only if it is not suspended on a loop its host has stopped |
| AcceptBarrier.BarrierCanEndIff | reactor.h:711-717 | in every reachable state after the close of a loop was posted, whatever occupies the loop, some continuation finishes the accept loop, within five steps, if and only if it is not suspended on a loop its host has stopped |
| AcceptBarrier.StaysStranded | reactor.h:514-517 | an accept loop suspended on a stopped loop stays so in every continuation, and a stop() that waits for it waits forever |
| AcceptBarrier.HaltStrandsStop | reactor.h:711-717 | such a run: an accept is pending, the host stops the loop, stop() is called |
| AcceptBarrier.FinishedForGood | reactor.h:501-517 | a finished accept loop stays finished and takes no step of its own in any continuation, so it starts no session |
| ConnectionAdmission.NeverOverTheBound | connection_admission.h:65-82 | for any number of threads, with spurious failures: active counts the leases held or being handed out and never exceeds the maximum, and high_water never exceeds the true peak |
| ConnectionAdmission.ExactWhenQuiet | connection_admission.h:26-31 | whenever no try_enter is under way: high_water is the peak of the run, accepted and rejected are the numbers of grants and refusals capped at 2^64-1 |
| ConnectionAdmission.RefinesBoundedLeases | connection_admission.h:65-76 | every step is a step of the bounded leases: a refusal happens only at a moment when `maximum` leases are held |
| ConnectionAdmission.CurrentValueIsGranted | connection_admission.h:72-74 | a compare-and-swap on the current value that does not fail spuriously is granted |
| ConnectionAdmission.AloneBelowTheBoundEnters | connection_admission.h:65-82 | from any state, a thread left alone below the bound gets its lease, with every counter as it should be |
| ConnectionAdmission.AloneAtTheBoundIsRefused | connection_admission.h:68-71 | at the bound it is refused, counted, and nothing else changes |
| ConnectionAdmission.GhostsAreTrue | connection_admission.h:65-82 | the peak, grants and refusals that the state carries are those of the run itself |
| AdmissionGate.HeldWithinTheLimit | reactor.h:161-169 | in every run, held admissions never exceed a positive limit although inflight may, and inflight is what is held plus the refusals not yet undone |
| AdmissionGate.RefinesBoundedLeases | reactor.h:161-168 | every step is a step of the bounded leases with the refusals under way as slack, and an attempt is refused if and only if held and refusals under way together reach the limit |
| AdmissionGate.RejectedCounts | reactor.h:162-166 | rejected is the number of refusals of the run, but for the threads that have yet to count theirs |
| AdmissionGate.RefusesWhileEmpty | reactor.h:161-168 | without that slack it is false: a gate of limit 1 refuses an attempt while nothing is held |
| Leases.EachReleasedOnce | connection_admission.h:34-59 | over every sequence of moves, self-moves, resets and destructions of either kind of lease, an admission is released as often as it was admitted and is no longer held |
| Leases.CellsAfter | connection_admission.h:39-53 | what a reset, move, self-move and fresh lease do to every cell, and which admission each gives back |
| Leases.Gate.TryEnter | reactor.h:161-168 | alone on the gate: enters exactly below a positive limit or without one, and a refusal leaves inflight as it was and is counted |
| Leases.Gate.Enter | reactor.h:185 | the lease holds the gate exactly if try_enter entered |
| Leases.Gate.Leave | reactor.h:169 | gives back one admission |
| Leases.Lease.Clear | reactor.h:179 | an admission held is given back and the lease is empty |
| Leases.Lease.MoveFrom | reactor.h:176 | the admission held before is given back, the source's is taken over and the source emptied; a self-move leaves the lease empty |
| AcceptBackoff.AcceptControl.constructor | reactor.h:449-452 | starts at the first delay with no skips |
| AcceptBackoff.AcceptControl.Accepted | reactor.h:542-543 | a success resets both counters |
| AcceptBackoff.AcceptControl.Retry | reactor.h:462-479 | per kind of error: a connection error goes on up to 64 and pauses 1 ms beyond, a resource error pauses the current delay, anything else throws and changes nothing; a stopping control answers end and changes nothing |
| AcceptBackoff.ResourcePause | reactor.h:470-474 | after every history, the k-th resource error since the last success pauses min(10 * 2^(k-1), 1000) ms, whatever connection errors came between |
| AcceptBackoff.SkipPause | reactor.h:465-470 | after every history, the n-th connection error since the last success is free exactly if n modulo 2^32 is at most 64, and pauses 1 ms otherwise |
| AcceptBackoff.RowCosts | reactor.h:462-479 | a row of errors pauses at least one millisecond for each that is not a free skip |
| AcceptBackoff.FreeSkips | reactor.h:452-465 | how many of n skips are free, exactly, wrap-around included |
| AcceptBackoff.NoSpin | reactor.h:450-452 | n errors in a row after a success, fewer than 2^32, pause at least n - 64 ms |
| PeriodicTimer.TimerState.ArmTimer | reactor_events.h:100-103 | a new generation, the pending wait ended with an error, a new wait |
| PeriodicTimer.TimerState.CancelTimer | reactor_events.h:94-97 | a new generation and no wait |
| PeriodicTimer.TimerState.RunHandler | reactor_events.h:61-79 | one queued handler: a control, or a completion that is dropped if it failed or is stale |
| PeriodicTimer.TimerState.FinishCallback | reactor_events.h:107-111 | the automatic re-arm after the callback |
| PeriodicTimer.OneOutstanding | reactor_events.h:94-113 | in every run at most one outstanding completion carries the current generation, none while the callback runs, and the callback re-arms exactly if the repeat interval is set |
| PeriodicTimer.ControlsDoTheirPart | reactor_events.h:61-79 | start() arms, stop() cancels, again() arms exactly if the repeat interval is set when it runs |
| PeriodicTimer.ControlsInOrder | reactor_events.h:61-79 | in every run the controls executed, and then those queued, are exactly the ones posted, in order |
| PeriodicTimer.RepeatIsTheLast | reactor_events.h:58-63 | the repeat interval is the one stored last |
| PeriodicTimer.ArmedFires | reactor_events.h:100-107 | in every reachable state with a wait pending, no callback under way and no control queued, expiry leads to exactly that arm's callback |
| PeriodicTimer.FiresOnlyTheLatestArm | reactor_events.h:100-106 | every firing comes right after the arm it belongs to, with no cancel or arm executed between, and each arm fires at most once |
| PeriodicTimer.OvertakenNeverFires | reactor_events.h:76-111 | an arm executed while a control is queued never fires |
| PeriodicTimer.StopInCallback | reactor_events.h:107-111 | a callback that called stop() is not run again by its own automatic re-arm, in any continuation of any run |
| Signal.EverySendAnswered | reactor_events.h:131-140 | in every interleaving of any number of senders: pending is set exactly while one handler is due, every send is followed by a callback that starts after it or by one still due, and callbacks never outnumber sends |
| Signal.HandlerAnswers | reactor_events.h:136-139 | a queued handler on a free loop clears pending, calls back once and leaves the loop free |
| LagBuckets.EdgesTile | reactor_lag.h:68-74 | bucket edges strictly increase and tile the range from 0 to 2^32 without gap |
| LagBuckets.InItsBucket | reactor_lag.h:60-66 | index_of is in range for every value, and below 2^32 a value has index i if and only if it lies in [lower, upper) of i |
| LagBuckets.IndexMonotone | reactor_lag.h:60-66 | index_of is monotone |
| LagBuckets.Widths | reactor_lag.h:68-74 | from 4 us up a bucket is at most a quarter of its lower edge wide and at least an eighth of its upper edge |
| LagBuckets.EdgeAboveSample | reactor_lag.h:60-73 | the upper edge of a sample's bucket is above it and at most 1.25 times it |
| LagHistogram.RankInSorted | reactor_lag.h:77-90 | the bucket at which the running count reaches a rank is the bucket of the sample of that rank in the sorted list |
| LagHistogram.SortedExists | reactor_lag.h:77-90 | every list of samples has a sorted form, so the statements over all of them are not empty |
| LagHistogram.Rank | reactor_lag.h:81-83 | the nearest rank: the least number of samples that is at least the fraction q, and at least one |
| LagHistogram.LagSnapshot.Record | reactor_lag.h:186-189 | the counters after a wake are those of the samples with it, in 64 bits, and max_us is the largest |
| LagHistogram.LagSnapshot.Total | reactor_lag.h:78-79 | the counters add up to the number of samples |
| LagHistogram.LagSnapshot.Since | reactor_lag.h:93-100 | the difference of two snapshots is exactly what was recorded between them, even across wrap-around; max_us is the later one's |
| LagHistogram.LagSnapshot.QuantileUpperUs | reactor_lag.h:76-90 | for every list of samples and every q the result is the upper edge of the bucket of the nearest-rank sample of the sorted list; 0 when empty, the last edge for q above 1 |
| LagHistogram.Lateness | reactor_lag.h:184 | whole microseconds between due and now, rounded down, and 0 for an early wake |
| LagHistogram.LagProbe.Tick | reactor_lag.h:181-193 | a cancelled or stopped wake changes nothing; any other records its lateness, and the next is due in 1 ms exactly while the last new activity is under a second old, and in 100 ms otherwise |
| UdpOwner.Owner.Run | reactor_udp.h:147 | one run of the loop: handlers in order until the loop is stopped, out of work, or one throws |
| UdpOwner.Owner.OwnerThread | reactor_udp.h:145-151 | for every queue of handlers that return, throw, stop, or stop and throw: those run are exactly the specified ones, the reports are as many as the places of throwing handlers among them, a stopped loop is not run again, and the claim is released once |
| UdpOwner.ExecutedIsThePrefix | reactor_udp.h:145-151 | the specified ones are the queue up to and including the first handler that stops the loop, or up to a stop from outside, or all of it |

## Left out

- Asio, the coroutine frames and their scheduler: a loop is a FIFO queue or a set of steps that run one at a time, a wait is pending, completed or cancelled, and a spawned coroutine is posted to its loop.
- Memory order: whole atomic operations interleave; nothing is claimed of `stats()` or `snapshot()` read while writers run.
- Generation ids of `on_loop_sync` and of the timer do not wrap at 2^64, `inflight` does not overflow an int, and `AdmissionGate::rejected` is unbounded. The counters of ConnectionAdmission and of the histogram and `skipped` are modelled in their own width.
- A closure that itself calls `on_loop_sync` from a thread that is not the loop's: calls come from distinct callers.
- A closure or handler that never ends is not modelled: every closure returns or throws.
- Callbacks of `AbortList::each` are finite scripts of adds, removes and nested walks; an add of a node already tracked is skipped, since `add` requires an untracked one. They name nodes that exist when the walk begins. Callbacks that throw are in Tracking.
- AbortWalk.EachVisits: holds when the walks its callbacks start spare the saved cursor; AbortWalk.NestedWalkResumes says for each of them exactly when the walk goes on in place.
- Tracking: the walk of an abort_all() or force_all() begins at a point where user code could run; the call that carries it to the loop is SyncCall.
- Tracking is on values and refers to the sequence form of the list; calls that track or untrack from another thread than the loop's are assumed away, as the code requires.
- Server, ConnectionAdmission, AdmissionGate and Signal are machines on values: their shared fields are changed by interleaved atomic steps, which no single method body expresses.
- A ticket is one entity of Server; that its moves between frames keep what it holds is proved for the lease in Leases.
- Server.TwoGracesAtMost: a wait with a deadline is taken to return no later than the deadline; time spent in `abort_all`, `force_all` and the accept barrier is not counted.
- Server.NoLateBody: what the user's session does between start and end is not modelled, only that it ends, throws or is destroyed.
- LagHistogram.LagSnapshot.QuantileUpperUs: q is an exact real, so rounding of the double product is not modelled; fewer than 2^64 samples, as the counters promise.
- AcceptBarrier.BarrierCanEndIff: says when finishing is possible. That it is inevitable on a loop that goes on running its handlers is AcceptBarrier.OwnStepsAreBounded with AcceptBarrier.QuietMeansFinished; the fairness of the loop itself is Asio's.
- A stopped loop is not restarted: neither server does, and io_context::restart() is not modelled.
- StopEnds.StopCanEndIff: the last loops of stop(), which stop and join the threads, are not modelled; its end is the end of the last scan.
- The round-robin choice of the shared acceptor: any target reactor is allowed at every accept.
- Closing and joining after the last grace, `close()`, `destroy_roots()` and the startup failure path.
- Socket options, bind and listen, TLS configuration, `shutdown_connection`, the UDP receive loop, the probe's slot allocator, member layout, `RunScope`: system calls, or simple.
