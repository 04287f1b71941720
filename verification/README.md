# Calandria: verified model

Dafny 4.11 models of the parts of Calandria whose correctness spans many functions or many threads, with
proofs over every input, every run and every interleaving. `dafny verify dfyconfig.toml` checks all of it.

## What is modelled

**The deterministic simulation kernel.** `Timelines`, `Contexts`, `Actions`, `Schedulers`, `Seeded` and
`Kernel` say what every operation does, as functions on values. `KernelSafety`, `KernelEffects`,
`KernelDecisions`, `KernelRuns`, `Replays` and `Tracing` prove the properties of steps and whole runs. `TimelineOwner`, `ContextOwner`,
`SchedulerOwner` and `SimulationOwner` are the same components as objects updated in place; each method is
proved to do what the value-level function says, so the run theorems are theorems about those objects.
The consumer's model, events, observations and errors are abstract types. One callback is an arbitrary
function from the responses received so far to the next context operation, so it may react to every
result; rollback is proved for all of them. Scheduler and monitor are arbitrary functions of their state.

**The cross-thread protocols.** `WakeProtocol`, `Mailboxes` (two bounded lanes, the wake handle, the thread
parker and the owner's drain-and-park loop together), `GroupFence`, `ReactorTermination` and
`ShutdownBarrier` are interleavings of single atomic accesses and single lock-protected sections, over any
number of threads. Every hand-off in the source goes through one atomic location or one mutex, so such
steps taken one after the other describe it. What callers observe is recorded as an event log or as the
outcome of an operation, and the theorems are about these observations. In `Mailboxes` only the owner
acknowledges, under the mailbox lock, and an owner whose drain reported more pending work takes another turn.

**Owner-local structures.** `Resources`, `TimerQueues` and `RegistrationTable` hold a class updated in
place, a value-level description, and theorems about every sequence of operations.

Identities, moments, generations and byte counts are 64-bit and their exhaustion is modelled. Panics and
assertions of the modelled code are not dropped: each is a `requires` of the operation that states it, an
explicit `Panicked` position, or a partial operation, and a theorem shows it is never reached; the few that
are not modelled are listed at the end.

One property fails as first read: a mailbox whose wake source may fail can leave its owner parked although
the last sender is gone, because that sender's drop ignores the failed wake
(`crates/calandria/src/mailbox/sender.rs:127-129`). `Mailboxes.FailedDropStrandsOwner` exhibits such a run and
`Mailboxes.NoLostWakeup` shows it happens exactly when the last drop's own wake failed; the built-in thread
parker never fails. Queued work is never stranded.

## Model

| member | source | states |
|---|---|---|
| `Timelines.ScheduleAtEffect` | crates/calandria-sim/src/timeline/owner.rs:89-211 | Scheduling succeeds exactly when the moment is not past and count, bytes and identities allow it; the event gets an identity above every pending one, is the only change to the map, and a refusal changes nothing; accounting stays exact, so the identity-collision panic is unreachable |
| `Timelines.ScheduleRefusalIsTrue` | crates/calandria-sim/src/timeline/owner.rs:89-194 | Each refusal is given exactly for its own cause, the first limit the request exceeds, with the exact retained bytes |
| `Timelines.CancelEffect` | crates/calandria-sim/src/timeline/owner.rs:130-137 | Cancelling removes exactly the named event, returns its value, and never underflows the retained bytes; an unknown or foreign token changes nothing |
| `Timelines.RestoreEffect` | crates/calandria-sim/src/timeline/transaction.rs:46-77 | Putting an event back under the asserted conditions keeps count, byte and identity accounting exact |
| `Timelines.SortedKeys` | crates/calandria-sim/src/timeline/transaction.rs:34-44 | Ordered enumeration lists every key once, strictly ascending by moment then identity |
| `TimelineOwner.Timeline.ScheduleAt` | crates/calandria-sim/src/timeline/owner.rs:89-211 | The in-place method agrees with the specification whose effect is `ScheduleAtEffect`, on every branch |
| `TimelineOwner.Timeline.Cancel` | crates/calandria-sim/src/timeline/owner.rs:130-137 | The in-place method agrees with the specification whose effect is `CancelEffect`, and finds an event exactly when it is pending |
| `TimelineOwner.Timeline.Restore` | crates/calandria-sim/src/timeline/transaction.rs:46-77 | Under the asserted conditions the in-place method agrees with the specification and keeps the timeline valid |
| `TimelineOwner.Timeline.PopNext` | crates/calandria-sim/src/timeline/owner.rs:142-149 | Pops the least pending (moment, identity), moves the clock to it and never backward, and removes nothing else |
| `TimelineOwner.Timeline.AdvanceTo` | crates/calandria-sim/src/timeline/transaction.rs:10-14 | Changes the clock only |
| `Contexts.SendAtEffect` | crates/calandria-sim/src/model/context/send.rs:36-111 | A send succeeds exactly within effect count, effect bytes, topology, liveness, ceiling and timeline; it stages exactly the new event, and a refusal changes nothing |
| `Contexts.SendRefusalIsTrue` | crates/calandria-sim/src/model/context/send.rs:45-105 | Each refused send is given exactly for its own cause: target, moment, limit or the timeline's own refusal |
| `Contexts.SendAfterIsExact` | crates/calandria-sim/src/model/context/send.rs:17-33 | A relative send is refused exactly when now plus delay overflows, and is otherwise the absolute send |
| `Contexts.CancelRefusalIsTrue` | crates/calandria-sim/src/model/context/cancellation.rs:12-58 | Each refused cancellation is given exactly for its own cause |
| `Contexts.ObserveEffect` | crates/calandria-sim/src/model/context/observation.rs:10-42 | An observation is kept, after the earlier ones, exactly while count and bytes allow; each refusal has exactly its own cause |
| `Contexts.CallbackRunsItsRequests` | crates/calandria-sim/src/simulation/execute.rs:50-52 | A callback runs to its own return: each request is served as asked over the context the earlier ones left, and sees exactly the earlier responses |
| `Contexts.CancelEventEffect` | crates/calandria-sim/src/model/context/cancellation.rs:12-63 | A cancellation succeeds exactly for a pending event of this timeline within the effect limits; it takes out that event only, releasing the bytes of an own insertion and charging those of an older event |
| `Contexts.CancelEventSafe` | crates/calandria-sim/src/model/context/cancellation.rs:29-62 | In every staged state a cancellation underflows neither timeline nor effect accounting: its panics are unreachable |
| `Contexts.SendAtStaged` | crates/calandria-sim/src/model/context/send.rs:77-111 | A send keeps the timeline equal to the original with exactly the staged insertions and removals layered on it |
| `Contexts.CancelEventStaged` | crates/calandria-sim/src/model/context/cancellation.rs:29-62 | A cancellation, of an own insertion or of an older event, keeps that layering |
| `Contexts.RunCallback` | crates/calandria-sim/src/model/context/owner.rs:29-44 | Every callback, adaptive in every response, ends in a staged state |
| `Contexts.RunWithinLimits` | crates/calandria-sim/src/model/context/owner.rs:46-71 | No callback exceeds its effect or observation limits, and observation bytes are the sum over what was emitted |
| `Contexts.RunContinues` | crates/calandria-sim/src/model/context/send.rs:45-111 | After any callback each pending event is an old one unchanged, or targets a live duty between now and the ceiling, is caused by this action and has a fresh identity |
| `Contexts.RestoreSafe` | crates/calandria-sim/src/timeline/transaction.rs:46-77 | While rollback restores, every assertion of `restore` holds of the next removed event |
| `Contexts.CancelAllExact` | crates/calandria-sim/src/model/context/rollback.rs:14-21 | Cancelling the staged insertions in any order never panics and leaves exactly the removals staged |
| `Contexts.RestoreAllExact` | crates/calandria-sim/src/model/context/rollback.rs:22-25 | Restoring the staged removals in order never panics and yields the original events and bytes |
| `Contexts.RollbackExact` | crates/calandria-sim/src/model/context/rollback.rs:9-27 | From every staged state, for every visiting order, dropping the context gives back the timeline of its creation with only the identity counter advanced |
| `Contexts.FailedCallbackLeavesNoTrace` | crates/calandria-sim/src/model/context/rollback.rs:9-27 | The same for whole callbacks: whatever one does and however it ends, dropping its context undoes exactly its effects |
| `ContextOwner.ActionContext.constructor` | crates/calandria-sim/src/model/context/owner.rs:47-71 | A new context is staged over the timeline it is opened on, with nothing to undo |
| `ContextOwner.ActionContext.SendAt` | crates/calandria-sim/src/model/context/send.rs:36-111 | The in-place method agrees with the specification whose effect is `SendAtEffect` and keeps the context staged |
| `ContextOwner.ActionContext.SendAfter` | crates/calandria-sim/src/model/context/send.rs:17-33 | A relative send is the absolute one at now plus delay, refused only when that overflows |
| `ContextOwner.ActionContext.Cancel` | crates/calandria-sim/src/model/context/cancellation.rs:12-63 | The in-place method agrees with the specification whose effect is `CancelEventEffect`; its panics are excluded by proof |
| `ContextOwner.ActionContext.Observe` | crates/calandria-sim/src/model/context/observation.rs:10-42 | The in-place method agrees with the bounded-observation specification and keeps what is staged |
| `ContextOwner.ActionContext.Commit` | crates/calandria-sim/src/model/context/owner.rs:89-94 | Committing returns the observations, keeps the timeline and leaves nothing to undo |
| `ContextOwner.ActionContext.Drop` | crates/calandria-sim/src/model/context/rollback.rs:9-27 | A committed context leaves the timeline alone; an uncommitted one restores its origin up to the identity counter, through loops whose every call meets the asserted conditions |
| `Actions.ActionOrderIsTotal` | crates/calandria-sim/src/action.rs:74-88 | The canonical action order is a strict total order |
| `Actions.SortingIsIdle` | crates/calandria-sim/src/simulation/step.rs:103-104 | A canonical ready list is the only sorted permutation of itself, so sorting and deduplicating it change nothing |
| `Schedulers.LeastDutyAfter` | crates/calandria-sim/src/scheduler/round_robin.rs:32-39 | The least ready duty beyond the cursor, and none exactly when there is none |
| `Schedulers.FirstOf` | crates/calandria-sim/src/scheduler/round_robin.rs:43-47 | The first ready action of the selected owner |
| `Schedulers.RoundRobinChoosesNext` | crates/calandria-sim/src/scheduler/round_robin.rs:30-50 | Round robin chooses the first ready action of the least ready owner beyond the cursor, or of the least one when there is none beyond, and remembers that owner |
| `Schedulers.ReplayChoiceIsExact` | crates/calandria-sim/src/scheduler/replay/owner.rs:53-82 | A replay chooses the next entry exactly when its moment is reached and it is ready; otherwise the divergence says what differs |
| `Schedulers.ReplayCommitIsExact` | crates/calandria-sim/src/scheduler/replay/owner.rs:84-112 | A replay accepts a commit exactly when it selected it and it equals the entry; otherwise the divergence says what differs |
| `Schedulers.ReplayFinishIsExact` | crates/calandria-sim/src/scheduler/replay/owner.rs:114-127 | A replay accepts the end exactly when every entry was committed; otherwise the divergence says what is missing |
| `SchedulerOwner.RoundRobinScheduler.Choose` | crates/calandria-sim/src/scheduler/round_robin.rs:30-50 | The in-place scheduler agrees with the policy of the fairness theorem and remembers the owner it chose |
| `SchedulerOwner.SeededScheduler.Choose` | crates/calandria-sim/src/scheduler/seeded.rs:47-62 | The in-place scheduler agrees with the policy and chooses the ready action whose equal part of the draw range holds the draw |
| `SchedulerOwner.ReplayScheduler.Choose` | crates/calandria-sim/src/scheduler/replay/owner.rs:53-82 | The in-place scheduler agrees with the replay policy of the record and replay theorems on every divergence |
| `SchedulerOwner.ReplayScheduler.Committed` | crates/calandria-sim/src/scheduler/replay/owner.rs:84-112 | The same for commit validation; a pending selection always has its trace entry |
| `SchedulerOwner.ReplayScheduler.Finished` | crates/calandria-sim/src/scheduler/replay/owner.rs:114-127 | A finish is accepted exactly when every entry was committed and none is pending |
| `SchedulerOwner.Trace.AfterAction` | crates/calandria-sim/src/trace/monitor.rs:72-89 | The in-place trace agrees with the recorder of the replay theorems: record first, then let the inner monitor judge; refuse at capacity without recording |
| `SchedulerOwner.Trace.Replay` | crates/calandria-sim/src/trace/monitor.rs:55-57 | A replay scheduler over exactly the recorded entries, at its start |
| `Seeded.SeededChoose` | crates/calandria-sim/src/scheduler/seeded.rs:47-62 | A selection succeeds exactly while counter and size allow, consumes one selection, and chooses the ready action whose equal part of the 2^64 draws holds the draw; each refusal has exactly its own cause and consumes nothing |
| `Seeded.ScaledInRange` | crates/calandria-sim/src/scheduler/seeded.rs:56-61 | The scaled index is in range for every draw |
| `Seeded.DrawsOfIndex` | crates/calandria-sim/src/scheduler/seeded.rs:56-57 | The draws that select an index are exactly one interval |
| `Seeded.VotesAreWidth` | crates/calandria-sim/src/scheduler/seeded.rs:56-57 | The number of draws selecting an index is that interval's width |
| `Seeded.SelectionIsFair` | crates/calandria-sim/src/scheduler/seeded.rs:47-62 | Every index is selected by some draw, and the numbers of draws for any two indices differ by at most one |
| `Seeded.ChoiceIsScaled` | crates/calandria-sim/src/scheduler/seeded.rs:56-61 | The choice is exactly the action at the one index whose part of the draw range holds the draw |
| `Seeded.ChoiceIsFair` | crates/calandria-sim/src/scheduler/seeded.rs:47-62 | Over all values of the draw, every ready action is chosen by some, and any two by numbers of values that differ by at most one |
| `Kernel.ReadyIsEnabled` | crates/calandria-sim/src/simulation/step.rs:68-106 | The ready set holds an action if and only if it is enabled: a due delivery to its target, or a runnable owner |
| `Kernel.NextDeadline` | crates/calandria-sim/src/simulation/step.rs:150-158 | The least deadline any duty waits for, and none exactly when no duty waits for one |
| `KernelSafety.BuildEstablishesInv` | crates/calandria-sim/src/simulation/owner.rs:87-147 | Building succeeds exactly within its limits, and starts in the kernel invariant with every duty ready, nothing stopped and nothing pending |
| `KernelSafety.InjectKeepsInv` | crates/calandria-sim/src/simulation/injection.rs:44-92 | An injection is admitted exactly for an active world, a live target, a moment between now and the ceiling, and timeline room; it keeps the invariant and adds exactly the given event for the given duty at the given moment, caused by nothing |
| `KernelSafety.InjectIsExact` | crates/calandria-sim/src/simulation/injection.rs:44-92 | The token, the new entry, the next identity and the bytes of an admitted injection, and for each of the five refusals exactly its own cause |
| `KernelSafety.ReadySucceeds` | crates/calandria-sim/src/simulation/step.rs:68-92 | In the invariant building the ready set never finds an unknown or stopped target |
| `KernelSafety.ReadyIsCanonical` | crates/calandria-sim/src/simulation/step.rs:93-105 | The ready set is built strictly ascending in the canonical order |
| `KernelSafety.ExecuteKeepsInv` | crates/calandria-sim/src/simulation/execute.rs:22-127 | Executing an enabled action keeps the invariant and fails neither with a lost nor with a mismatched delivery; an executed delivery is gone from the timeline |
| `KernelSafety.AdvanceKeepsInv` | crates/calandria-sim/src/simulation/step.rs:108-148 | An idle world advances strictly, to a state with some action ready, within the ceiling, and never reports missing progress or a delivery to a stopped duty |
| `KernelSafety.StepKeepsInv` | crates/calandria-sim/src/simulation/step.rs:21-66 | Every step keeps the invariant (pending events target live duties, lie between now and the ceiling, have earlier causes; stopped is the set of `Stop` duties; counters within limits), moves clocks and counters forward only, and its only kernel failure is a duty stopping with deliveries pending |
| `KernelSafety.QuiescentExactly` | crates/calandria-sim/src/simulation/step.rs:108-134 | Quiescence is reported if and only if nothing is pending, some duty is live and every live duty waits for a wake |
| `KernelSafety.FinishedExactly` | crates/calandria-sim/src/simulation/step.rs:108-124 | Completion is reported if and only if every duty has stopped and the scheduler accepts; nothing is pending then |
| `KernelEffects.StepEffect` | crates/calandria-sim/src/simulation/execute.rs:129-188 | A committed action was enabled, is numbered by the action count, carries the cause of what it delivers, publishes exactly what its callback returned and staged, and updates its own duty's interest and the one matching counter; a model failure or a refused stop leaves all duties and all other pending events as they were |
| `KernelDecisions.StepDecision` | crates/calandria-sim/src/simulation/step.rs:21-66 | How a busy step is decided for every state: budgets first, then the scheduler's failure, then a choice that is not enabled, then the chosen action: the model's failure exactly when the callback failed, a refused stop exactly when it stopped its duty and left it deliveries, with their number, and otherwise a commit that scheduler and then monitor alone accept or refuse |
| `KernelDecisions.ActDecision` | crates/calandria-sim/src/simulation/execute.rs:22-188 | The same for one executed action, with the committed core and both payloads of a refusal after the commit |
| `KernelDecisions.IdleDecision` | crates/calandria-sim/src/simulation/step.rs:108-148 | How an idle step is decided for every state: completion or the scheduler's refusal once every duty stopped, otherwise the earliest moment is reached or refused beyond the ceiling, and quiescence exactly when there is none |
| `KernelDecisions.FifoActsFirst` | crates/calandria-sim/src/scheduler/fifo.rs:23-28 | Under Fifo a committed action is the least enabled one in the canonical order |
| `KernelDecisions.RunIsSteps` | crates/calandria-sim/src/simulation/run.rs:17-29 | The run loop is exactly that many steps: all but the last act or advance time, and the last gives the reported end |
| `KernelEffects.LimitsAreExact` | crates/calandria-sim/src/simulation/step.rs:160-173 | Each action limit is reported if and only if an action is enabled and exactly that budget is spent, the total budget first |
| `KernelEffects.TimeAdvanceIsExact` | crates/calandria-sim/src/simulation/step.rs:126-148 | Time jumps to exactly the earliest pending event or deadline and only the moment's action count is reset |
| `KernelRuns.RunIsSafe` | crates/calandria-sim/src/simulation/step.rs:21-181 | No sequence of steps and injections leaves the invariant or reports an unknown, stopped, mismatched or lost delivery, exhausted action identities or missing progress |
| `KernelRuns.BuiltRunIsSafe` | crates/calandria-sim/src/simulation/owner.rs:87-147 | The same for every run of every built simulation |
| `KernelRuns.RunToQuiescence` | crates/calandria-sim/src/simulation/run.rs:17-29 | The run loop terminates for every model, scheduler and monitor, within its fuel |
| `KernelRuns.RunReturns` | crates/calandria-sim/src/simulation/run.rs:17-29 | It returns within twice the remaining action budget plus two steps; quiescent only at rest, completed only with every duty stopped and nothing pending, and an error leaves the world inactive |
| `KernelRuns.FifoDeliversFirst` | crates/calandria-sim/src/scheduler/fifo.rs:23-28 | Under Fifo a committed delivery is the least pending event of the whole timeline |
| `KernelRuns.FifoRunOrder` | crates/calandria-sim/src/scheduler/fifo.rs:23-28 | Under Fifo the deliveries of a whole run are strictly increasing in (moment, identity), whatever callbacks and injections add |
| `KernelRuns.RoundRobinApproaches` | crates/calandria-sim/src/scheduler/round_robin.rs:30-50 | Choosing another owner brings the cursor strictly closer to a ready duty |
| `KernelRuns.RoundRobinFairness` | crates/calandria-sim/src/scheduler/round_robin.rs:30-50 | Until one of its own actions runs, a duty with a ready turn stays ready, and fewer actions than there are duties run before it |
| `KernelRuns.InactiveRunIsStill` | crates/calandria-sim/src/simulation/step.rs:25-27 | Nothing happens to a world that is no longer active |
| `SimulationOwner.RunModel` | crates/calandria-sim/src/simulation/execute.rs:50-52 | Consumer code run against the in-place context ends exactly as the callback specification says |
| `SimulationOwner.Simulation.BuildReadySet` | crates/calandria-sim/src/simulation/step.rs:68-106 | The two loops compute the specified ready set or its failure |
| `SimulationOwner.Simulation.Perform` | crates/calandria-sim/src/simulation/execute.rs:41-71 | One callback over the live timeline is committed exactly when it returned a turn that does not stop its duty with deliveries left; the model's failure and a refused stop are reported exactly as they happened |
| `SimulationOwner.Simulation.ExecuteSelected` | crates/calandria-sim/src/simulation/execute.rs:22-127 | Owner turns and deliveries executed in place agree with the specification |
| `SimulationOwner.Simulation.UpdateDuty` | crates/calandria-sim/src/simulation/execute.rs:129-143 | The duty's interest, counter and the stopped set become what the specification says, and nothing else moves |
| `SimulationOwner.Simulation.FinishAction` | crates/calandria-sim/src/simulation/execute.rs:145-173 | Scheduler validation first, then the monitor on the committed world; either refusal fails the simulation |
| `SimulationOwner.Simulation.AdvanceTimeOrFinish` | crates/calandria-sim/src/simulation/step.rs:108-148 | Completion, quiescence and time advance in place agree with the specification |
| `SimulationOwner.Simulation.ActOn` | crates/calandria-sim/src/simulation/step.rs:55-65 | Allocation, counting, execution and commit in place agree with the specification |
| `SimulationOwner.Simulation.TakeStep` | crates/calandria-sim/src/simulation/step.rs:21-66 | One in-place step is the specified step and keeps the kernel invariant |
| `SimulationOwner.Simulation.Inject` | crates/calandria-sim/src/simulation/injection.rs:44-92 | In-place injection is the specified one, adds exactly the given event for the given duty, and keeps the kernel invariant |
| `SimulationOwner.Simulation.RunUntilQuiescent` | crates/calandria-sim/src/simulation/run.rs:17-29 | The loop over in-place steps terminates within the bound and ends in the specified state |
| `SimulationOwner.Simulation.RunToCompletion` | crates/calandria-sim/src/simulation/run.rs:31-37 | `Ok` exactly when the run completes, cleanly; a deadlock is reported only at rest |
| `SimulationOwner.WithParts` | crates/calandria-sim/src/simulation/owner.rs:87-147 | Construction refuses too many duties, a start beyond the ceiling and an unaddressable ready set, and otherwise starts in the kernel invariant |
| `Replays.RecordedStep` | crates/calandria-sim/src/trace/monitor.rs:72-89 | A committed action extends the trace by exactly its own entry; a step that neither acts nor fails leaves it alone |
| `Replays.RunMirrors` | crates/calandria-sim/src/scheduler/replay/owner.rs:53-127 | From any mirrored pair of worlds a recorded run and its replay give the same outcomes and stay mirrored |
| `Replays.ReplayReproduces` | crates/calandria-sim/src/scheduler/replay/owner.rs:53-127 | For any model, scheduler, monitor and commands: if the traced run does not fail, replaying its trace gives the same outcomes, the same world and an exhausted trace, without divergence |
| `Replays.ReplayStep` | crates/calandria-sim/src/scheduler/replay/owner.rs:53-112 | A replayed action is the next trace entry and moves the cursor by one; a finish needs the whole trace |
| `Replays.ReplayCommitsTrace` | crates/calandria-sim/src/scheduler/replay/owner.rs:84-127 | Any replay run commits a prefix of its trace, and one that completes commits exactly the whole trace |
| `Tracing.TracedStep` | crates/calandria-sim/src/trace/monitor.rs:72-89 | While the trace has room a traced step is the untraced one |
| `Tracing.FinishTraced` | crates/calandria-sim/src/trace/monitor.rs:77-85 | A full trace refuses exactly what the monitor would be asked about, and records nothing |
| `Tracing.TracingIsTransparent` | crates/calandria-sim/src/trace/monitor.rs:72-89 | A run that does not fail and fits the trace gives, when traced, the same outcomes and world, and the trace is exactly its committed actions |
| `Tracing.EveryRunReplays` | crates/calandria-sim/src/scheduler/replay/owner.rs:53-127 | Every run that does not fail is reproduced by replaying its committed actions alone |
| `WakeProtocol.TakeKeepsInv` | crates/calandria/src/wake.rs:61-167 | Each atomic access of `wake` or `acknowledge` keeps the phase protocol invariant |
| `WakeProtocol.WakeIsSafe` | crates/calandria/src/wake.rs:61-167 | For any number of callers: no phase panic, at most one backend call in flight, backend successes at most effective acknowledgements plus one, and `Ok` only after the caller's own success or one since the last acknowledgement, `Err` only after its own failure; whoever waits for an in-flight phase waits for a thread that settles it |
| `WakeProtocol.IdleCallerCallsBackend` | crates/calandria/src/wake.rs:61-87 | A caller that finds the handle idle makes the backend call itself and returns exactly its result |
| `WakeProtocol.RequestedCallerCoalesces` | crates/calandria/src/wake.rs:64-65 | A caller that finds a wake requested returns at once without a backend call |
| `WakeProtocol.AcknowledgementClears` | crates/calandria/src/wake.rs:100-132 | An acknowledgement takes back a requested or in-flight wake and is otherwise without effect |
| `WakeProtocol.AcknowledgedSuccessSettles` | crates/calandria/src/wake.rs:139-157 | A success acknowledged in flight leaves the handle idle |
| `WakeProtocol.CallersCanMove` | crates/calandria/src/wake.rs:61-167 | In every reachable state a caller that has not returned can move, or waits for a thread that can |
| `Mailboxes.DrainConserves` | crates/calandria/src/mailbox/shared.rs:108-123 | Popping entries moves exactly the oldest items, in order, and the byte subtraction never underflows |
| `Mailboxes.AdmitConserves` | crates/calandria/src/mailbox/shared.rs:103-106 | An admitted entry keeps bytes exact and within both limits |
| `Mailboxes.TakeKeepsInv` | crates/calandria/src/mailbox/sender.rs:43-131 | Each locked or atomic step of producers, external wakers and the owner keeps the mailbox invariant |
| `Mailboxes.NoLostWakeup` | crates/calandria/src/host/waiter.rs:94-133 | In every run, an owner parked without a notification has both lanes empty and its receiver alive, and no sender is left exactly when the last one was dropped while its own wake failed, which an infallible source excludes |
| `Mailboxes.FailedDropStrandsOwner` | crates/calandria/src/mailbox/sender.rs:121-131 | With a source that may fail, a run exists that leaves the owner parked although every sender is gone |
| `Mailboxes.MailboxConserves` | crates/calandria/src/mailbox/shared.rs:103-123 | Per lane and over any run: drained items followed by queued ones are exactly the successful sends in order; retained bytes are the sum over the queue; both limits hold |
| `Mailboxes.DrainTakesControlFirst` | crates/calandria/src/mailbox/receiver.rs:19-44 | A drain takes as much control work as the budget allows before ordinary work, in queue order, and acknowledges exactly when both lanes are left empty |
| `Mailboxes.SendOutcome` | crates/calandria/src/mailbox/sender.rs:43-99 | Each rejection has exactly its own cause, returns the caller's item and leaves both lanes alone; a failed wake is reported only with both lanes empty |
| `Mailboxes.SendBegins` | crates/calandria/src/mailbox/sender.rs:43-88 | A send the limits allow takes the lock and wakes the owner before anything is published |
| `Mailboxes.SendEnds` | crates/calandria/src/mailbox/sender.rs:86-98 | A successful wake publishes the item behind everything queued; a failed one publishes nothing; the other lane is untouched |
| `Mailboxes.PendingWorkIsDrained` | crates/calandria/src/host/waiter.rs:94-133 | In every run an owner parked while work is queued has its notification, wakes up, and its next drain hands out what the budget allows |
| `Mailboxes.CloseReturnsEverything` | crates/calandria/src/mailbox/receiver.rs:61-69 | Closing hands out everything still queued, in order, and leaves both lanes empty |
| `Mailboxes.ClosedIsFinal` | crates/calandria/src/mailbox/receiver.rs:30-39 | After a `Closed` drain or a close nothing is ever queued, accepted or drained again |
| `Mailboxes.StoppedRunIsFinal` | crates/calandria/src/mailbox/receiver.rs:61-69 | The same for every continuation of every run that stopped the owner |
| `GroupFence.TakeKeepsInv` | crates/calandria/src/reactor/group/port.rs:46-88 | Each check, lock, recheck, publication and closer step keeps the fence invariant |
| `GroupFence.ClosesClean` | crates/calandria/src/reactor/group/admission.rs:38-43 | A close returns only when no thread on any shard can still publish |
| `GroupFence.CloseIsFence` | crates/calandria/src/reactor/group/admission.rs:34-43 | For any number of shards, senders and closers: nothing is published after any close returned; each send published its item exactly once on the shard it named before `Ok`, or returned it unpublished for exactly the cause it names; one that begins after the gate closed returns `Closed`; no shard lock leaks |
| `ReactorTermination.TakeKeepsInv` | crates/calandria/src/reactor/control.rs:48-101 | Each request and each step of the run loop keeps the termination invariant |
| `ReactorTermination.TerminationIsLinear` | crates/calandria/src/reactor/runner.rs:20-80 | At most one request observes `Requested`; at most one duty turn begins after it; the outcome is then not `Stopped`, is `Terminated` only then, and the host phase agrees; a turn that continues is followed by a turn and only one that waits by a wait |
| `ReactorTermination.RequestedLoopEnds` | crates/calandria/src/reactor/runner.rs:20-80 | After a request the loop takes at most five further steps |
| `ReactorTermination.LoopCanStep` | crates/calandria/src/reactor/runner.rs:20-80 | A loop that has not ended can take one |
| `ShutdownBarrier.TakeKeepsInv` | crates/calandria/src/shutdown/shared.rs:67-121 | Each access of subscribers, completer and observers keeps the barrier invariant |
| `ShutdownBarrier.BarrierIsSafe` | crates/calandria/src/shutdown/requester.rs:33-121 | Over all interleavings: at most one callback in flight and at most one success, no invariant panic, subscribers within capacity although the first success pushes unchecked, nothing resolved or received twice, every result the terminal one |
| `ShutdownBarrier.SettledResolvesEveryone` | crates/calandria/src/shutdown/completer.rs:21-63 | Once the completer has settled, every subscription told `Ok` has resolved exactly once, one told an error never; waiting subscribers always wait for a live attempt |
| `ShutdownBarrier.EnterIsExact` | crates/calandria/src/shutdown/requester.rs:40-68 | A subscriber runs the request, waits, is retained behind the others, resolves itself, or is refused as full or closed, each exactly in its own phase |
| `ShutdownBarrier.FinishCallIsExact` | crates/calandria/src/shutdown/shared.rs:67-107 | The first success retains its caller and publishes the request; failure and unwinding reopen the barrier; a barrier that settled meanwhile decides instead |
| `ShutdownBarrier.SettleIsExact` | crates/calandria/src/shutdown/shared.rs:109-120 | Settling decides the terminal phase once and takes every retained subscriber, in order |
| `ShutdownBarrier.DeliverIsExact` | crates/calandria/src/shutdown/completer.rs:21-40 | Each taken subscriber gets the settled result unless its observer is gone |
| `ShutdownBarrier.TryTakeIsExact` | crates/calandria/src/completion/shared.rs:115-125 | An observer receives exactly the ready result, once |
| `ShutdownBarrier.CallerAndObserverMoves` | crates/calandria/src/completion/shared.rs:145-161 | A callback's result is kept as it was; an abandoned completion gives up its result; a late subscriber resolves itself with success |
| `Resources.FirstVacant` | crates/calandria/src/resource/table.rs:165-173 | The first vacant slot, and none exactly when no slot is vacant |
| `Resources.Validate` | crates/calandria/src/resource/validation.rs:6-40 | A token validates only to its own occupied slot |
| `Resources.AdmitOutcome` | crates/calandria/src/resource/table.rs:100-143 | A refused admission returns both values; an admitted one names a vacant slot and its generation |
| `Resources.FullIffCounted` | crates/calandria/src/resource/table.rs:115-128 | The live count equals the capacity exactly when every slot is occupied, and live plus retired falls short exactly when some slot is vacant |
| `Resources.ResourceTable.Admit` | crates/calandria/src/resource/table.rs:100-143 | The counting method decides `CapacityReached` and `TokenSpaceExhausted` exactly as the slot states do, and fills exactly the issued slot |
| `Resources.ResourceTable.Remove` | crates/calandria/src/resource/lifecycle.rs:9-35 | Returns the exact live values; the slot moves to its next generation, or is retired after the last |
| `Resources.ResourceTable.Get` | crates/calandria/src/resource/access.rs:7-18 | Resolves exactly the live generation, with the exact failure otherwise |
| `Resources.ResourceTable.Replace` | crates/calandria/src/resource/access.rs:20-28 | Mutable access changes only the resource of the exact live generation |
| `Resources.ResourceTable.TokenFor` | crates/calandria/src/resource/table.rs:146-163 | A token exactly when the identity is live, and one that resolves to it |
| `Resources.ResourceTable.Snapshot` | crates/calandria/src/resource/lifecycle.rs:38-55 | Live, vacant and retired slots add up to the capacity, without underflow |
| `Resources.OpRefines` | crates/calandria/src/resource/table.rs:100-143 | Each operation changes what tokens resolve to exactly as it changes a map |
| `Resources.ValidateIsExact` | crates/calandria/src/resource/validation.rs:6-40 | A token validates exactly by owner, slot and generation of a live slot; each failure says which is wrong |
| `Resources.AdmitIsExact` | crates/calandria/src/resource/table.rs:100-143 | Each refusal exactly for its own cause: a live identity, every slot occupied, every free slot retired; otherwise the first vacant slot, at its generation, and no other |
| `Resources.RemoveIsExact` | crates/calandria/src/resource/lifecycle.rs:9-35 | A removal moves exactly its slot to the next generation, or retires it after the last |
| `Resources.TokensNeverReissued` | crates/calandria/src/resource/lifecycle.rs:24-33 | Over any run from any generation floor no (slot, generation) pair is issued twice |
| `Resources.TableRefinesMap` | crates/calandria/src/resource/access.rs:7-28 | Over any run a token resolves exactly while its own admission is live, to its identity and the resource last written |
| `Resources.RetiredTokenIsOlder` | crates/calandria/src/resource/slot.rs:18-31 | A retired token is refused as older than what its slot holds now, or because the slot is retired |
| `Resources.IdentitiesStayUnique` | crates/calandria/src/resource/table.rs:90-97 | Over any run live identities are distinct |
| `Resources.RetiredForever` | crates/calandria/src/resource/lifecycle.rs:24-33 | A retired slot stays retired and never issues a token again |
| `TimerQueues.HeapOrderIsFiringOrder` | crates/calandria/src/timer/scheduled.rs:26-34 | The reversed heap comparison is the (deadline, identity) firing order |
| `TimerQueues.TopIsFirst` | crates/calandria/src/timer/owner.rs:149-158 | The greatest heap entry is the first timer in firing order |
| `TimerQueues.DrainFiresInOrder` | crates/calandria/src/timer/owner.rs:162-181 | A drain fires due timers only, strictly in (deadline, identity) order and before everything it leaves, stops early only when nothing is due, and `more_due` is exact |
| `TimerQueues.DrainBudgetsAdd` | crates/calandria/src/timer/owner.rs:162-181 | Draining two budgets at one moment is draining their sum |
| `TimerQueues.CancelIsExact` | crates/calandria/src/timer/owner.rs:130-146 | Cancelling removes the timer with exactly that token and no other |
| `TimerQueues.RunConserves` | crates/calandria/src/timer/owner.rs:96-181 | Over any run identities increase and are never reused, and every admitted timer is exactly once pending or given back, within count and byte limits |
| `TimerQueues.ScheduleIsExact` | crates/calandria/src/timer/owner.rs:96-127 | Scheduling succeeds exactly within count, bytes and identities; token, new members and next identity are the requested ones; each refusal has exactly its own cause and returns deadline and value |
| `TimerQueues.PendingWereScheduled` | crates/calandria/src/timer/owner.rs:96-127 | Over any run every pending timer waits for the deadline its own schedule operation asked for |
| `TimerQueues.DrainReleasesDue` | crates/calandria/src/timer/owner.rs:162-181 | Over any run a drain releases only timers whose own schedule operation asked for a deadline no later than now |
| `TimerQueues.TimerQueue.Schedule` | crates/calandria/src/timer/owner.rs:96-127 | The in-place queue issues the next identity with the requested deadline and adds exactly that timer, or refuses for exactly the specified reason |
| `TimerQueues.TimerQueue.Cancel` | crates/calandria/src/timer/owner.rs:130-146 | Position and swap-removal in the heap vector remove exactly the named timer from the firing order, with its bytes |
| `TimerQueues.TimerQueue.NextDeadline` | crates/calandria/src/timer/owner.rs:89-93 | The deadline of the first timer in firing order |
| `TimerQueues.TimerQueue.PopDue` | crates/calandria/src/timer/owner.rs:149-158 | Gives back the first timer exactly when it is due |
| `TimerQueues.TimerQueue.DrainDueInto` | crates/calandria/src/timer/owner.rs:162-181 | The pop loop appends exactly the due prefix the budget allows and reports exactly whether more is due |
| `RegistrationTable.Lookup` | crates/calandria-mio/src/registrations.rs:75-80 | The reference linear scan: an entry with that token, and none exactly when no entry has it |
| `RegistrationTable.LookupInvertsBackend` | crates/calandria-mio/src/registrations.rs:67-80 | Looking up by backend token and by resource are inverse to each other |
| `RegistrationTable.Registrations.Reserve` | crates/calandria-mio/src/registrations.rs:32-46 | Consumes one token above every entry, or refuses for the exact reason |
| `RegistrationTable.Registrations.Commit` | crates/calandria-mio/src/registrations.rs:48-65 | Under the asserted conditions the entry is appended and the table stays strictly sorted |
| `RegistrationTable.Registrations.Register` | crates/calandria-mio/src/poller.rs:64-77 | Reserve, external registration and commit: the commit assertions always hold, and a refused source consumes its token |
| `RegistrationTable.Registrations.ResourceOf` | crates/calandria-mio/src/registrations.rs:75-80 | Binary search equals the linear scan |
| `RegistrationTable.Registrations.Deregister` | crates/calandria-mio/src/poller.rs:101-109 | Removes exactly the resource's entry once the selector agreed, and otherwise nothing |
| `RegistrationTable.RegisterIsExact` | crates/calandria-mio/src/poller.rs:64-77 | Success and each refusal exactly for its own cause; an accepted registration answers for the resource with the next token and disturbs no other resource or token |
| `RegistrationTable.DeregisterIsExact` | crates/calandria-mio/src/registrations.rs:82-92 | An accepted deregistration leaves the resource and its token unanswered and every other answer unchanged |
| `RegistrationTable.RunKeepsTable` | crates/calandria-mio/src/registrations.rs:32-92 | Over any mix of operations the table stays strictly sorted and token 0 never resolves |
| `RegistrationTable.TokensNeverReused` | crates/calandria-mio/src/registrations.rs:32-92 | For the rest of any run an issued token resolves to the resource it has now or to nothing, and a retired one never resolves |

## Left out

- Contexts.RunCallback: a callback is bounded by a number of requests it brings along, since Dafny needs it to end; a callback that never returns is not modelled, and the bound is arbitrary.
- SimulationOwner.Simulation.BuildReadySet: leaves out the final sort and deduplication, which change nothing by `KernelSafety.ReadyIsCanonical` and `Actions.SortingIsIdle`.
- SimulationOwner.Simulation.ExecuteSelected: owner turns and deliveries share one method for the steps the source writes twice.
- TimerQueues.TimerQueue.Schedule: the heap is its vector in arbitrary order with extraction of a greatest entry; the sifting of the standard library's binary heap is not modelled.
- TimerQueues.TimerQueue.DrainDueInto: the destination vector is passed and returned as a sequence.
- RegistrationTable.Registrations.ResourceOf: the standard library's binary search is written out as a loop over the same comparison.
- ReactorTermination.TerminationIsLinear: the wake that follows a first request is not part of this module; waking a parked owner is the subject of `Mailboxes`.
- SchedulerOwner.ReplayScheduler.Committed: the separate 64-bit replay position, always equal to the cursor, is not kept.
- SchedulerOwner.RoundRobinScheduler.Choose: an empty ready set, on which the source panics and which a step never passes on, is excluded; the value-level policies return a placeholder error for it.
- Poisoning of a simulation and unwinding out of consumer code, schedulers, monitors, wake sources and wakers, except that the shutdown request callback may unwind.
- Recovery of poisoned locks, panic payloads, thread creation and joins, group start-up and supervision.
- Condition-variable timing and wall-clock reads: a wait returns when notified, or at any time as if at its bound.
- Memory orderings weaker than sequential consistency; each protocol hands over through one location or one lock.
- `usize` counts are natural numbers; the sender count and lengths do not overflow. Pressure counters of the mailbox are not kept.
- The values behind `materialize` and `retained_bytes` callbacks of a send: an item and its bytes are given.
- SplitMix64: a draw is an arbitrary 64-bit value of a stream indexed by the selection count.
- Relative injections and the convenience constructors, which only call what is modelled.
- Task wakers of completions, and the blocking and polling ways of taking a result, which take the same step as `try_take`.
- Mio polling, selector and readiness translation, re-registration, error types, display code, snapshots and accessors.
- `ExactScript`, `EventBatch`, `PollEvents`, `Next::merge`, `HostAction` and span arithmetic, which would add only easy members.
