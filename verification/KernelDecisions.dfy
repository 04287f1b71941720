/** Which answer one step gives, for every state: the exact condition of each outcome and of each failure. */
module KernelDecisions {
  import opened Base
  import opened Consumer
  import opened Timelines
  import opened Contexts
  import opened Actions
  import opened Schedulers
  import opened Kernel
  import opened KernelSafety
  import opened KernelRuns
  import opened KernelEffects

  // ----- A chosen action -----

  /** How many deliveries to a duty its callback leaves pending. */
  ghost function LeftFor(ran: Returned, duty: DutyId): nat {
    |set k | k in ran.context.timeline.events && ran.context.timeline.events[k].routed.target == duty|
  }

  /** The callback returned a turn that may be committed: it does not stop its duty, or leaves it nothing. */
  ghost predicate Committable(ran: Returned, duty: DutyId) {
    ran.outcome.Ok? && (ran.outcome.value.next.Stop? ==> LeftFor(ran, duty) == 0)
  }

  /** The model's failure, and a stop with deliveries left, are reported exactly as they happened. */
  ghost predicate FailsAs(r: Result<ActionRecord, StepError>, ran: Returned, meta: ActionMeta) {
    && (forall source :: r == Err(ModelFailed(meta, source)) <==> ran.outcome == Err(source))
    && (forall duty, left ::
          r == Err(KernelFailed(StoppedWithPending(duty, left))) <==>
            && ran.outcome.Ok? && ran.outcome.value.next.Stop?
            && duty == meta.key.duty && left == LeftFor(ran, duty) && left != 0)
    && (r.Ok? <==> Committable(ran, meta.key.duty))
  }

  lemma InvokeDecision(core: Core, t: TimelineState, callback: Callback, meta: ActionMeta)
    requires Valid(t) && meta.key.duty in core.states
    ensures FailsAs(Invoke(core, t, callback, meta).1, Called(core, t, callback, meta.id), meta)
  {
    hide Valid, Staged, RunCallback, UpdateOwner;
    var ran := Called(core, t, callback, meta.id);
    assert PendingFor(ran.context.timeline, meta.key.duty) == LeftFor(ran, meta.key.duty);
  }

  lemma ExecuteDecision(code: ModelCode, core: Core, key: ActionKey, id: ActionId)
    requires Valid(core.timeline) && key.duty in core.states && Enabled(core, key)
    ensures FailsAs(Execute(code, core, key, id).1, Performed(code, core, key, id), ActionMeta(id, key, core.timeline.now, CauseOf(core, key)))
  {
    hide Valid, Invoke, FailsAs, Called;
    match key.kind
    case OwnerTurn =>
      InvokeDecision(core, core.timeline, code.turn(core.model, key.duty, Clock(core), id), ActionMeta(id, key, Clock(core), None));
    case Delivery(token) =>
      CancelEffect(core.timeline, token);
      var (t, removed) := Cancel(core.timeline, token);
      InvokeDecision(core, t, code.deliver(core.model, key.duty, token, removed.value.event, id),
                     ActionMeta(id, key, Clock(core), removed.value.cause));
  }

  /** The core with the effects of one callback committed, whether or not scheduler and monitor then agree. */
  ghost predicate CommittedInto(before: Core, after: Core, key: ActionKey, ran: Returned) {
    && ran.outcome.Ok? && key.duty in before.states && key.duty in after.states
    && DutyUpdated(before.states[key.duty], after.states[key.duty], key, ran.outcome.value)
    && after.states == before.states[key.duty := after.states[key.duty]]
    && after.stopped == (if ran.outcome.value.next.Stop? then before.stopped + {key.duty} else before.stopped)
    && after.model == ran.model && after.timeline == ran.context.timeline
    && after.topology == before.topology && after.limits == before.limits
    && after.nextAction == (if before.actions < U64_MAX then Some(before.actions + 1) else None)
    && after.actions == before.actions + 1 && after.actionsAtMoment == before.actionsAtMoment + 1
  }

  lemma InvokeCommits(core: Core, t: TimelineState, callback: Callback, meta: ActionMeta)
    requires Valid(t) && meta.key.duty in core.states
    ensures var (core', r) := Invoke(core, t, callback, meta);
            var ran := Called(core, t, callback, meta.id);
            && (r.Err? ==> core'.phase == Failed)
            && (r.Ok? ==>
              && r.value == ActionRecord(meta, ran.outcome.value, ran.context.observations)
              && core' == core.(model := ran.model, timeline := ran.context.timeline, states := core'.states, stopped := core'.stopped)
              && core'.states.Keys == core.states.Keys
              && core'.states == core.states[meta.key.duty := core'.states[meta.key.duty]])
  {
    hide Valid, Staged, RunCallback;
  }

  lemma ExecuteCommits(code: ModelCode, core: Core, key: ActionKey, id: ActionId)
    requires Valid(core.timeline) && key.duty in core.states && Enabled(core, key)
    ensures var (core', r) := Execute(code, core, key, id);
            var ran := Performed(code, core, key, id);
            && (r.Err? ==> core'.phase == Failed)
            && (r.Ok? ==>
              && r.value == ActionRecord(ActionMeta(id, key, core.timeline.now, CauseOf(core, key)), ran.outcome.value, ran.context.observations)
              && core' == core.(model := ran.model, timeline := ran.context.timeline, states := core'.states, stopped := core'.stopped)
              && core'.states.Keys == core.states.Keys
              && core'.states == core.states[key.duty := core'.states[key.duty]])
  {
    hide Valid, Invoke, Called;
    match key.kind
    case OwnerTurn =>
      InvokeCommits(core, core.timeline, code.turn(core.model, key.duty, Clock(core), id), ActionMeta(id, key, Clock(core), None));
    case Delivery(token) =>
      CancelEffect(core.timeline, token);
      var (t, removed) := Cancel(core.timeline, token);
      InvokeCommits(core, t, code.deliver(core.model, key.duty, token, removed.value.event, id),
                    ActionMeta(id, key, Clock(core), removed.value.cause));
  }

  /** What scheduler and monitor make of a committed action: the scheduler is asked first, the monitor only if it agrees. */
  ghost predicate Validated<S, N>(world: World<S, N>, chosen: S, monitor: N, record: ActionRecord, committed: Core, sim': Sim<S, N>, step: Step) {
    var (scheduler, refused) := world.policy.committed(chosen, record.meta, record.turn);
    && sim'.scheduler == scheduler
    && if refused.Some? then
         step == Error(SchedulerFailed(refused.value)) && sim'.monitor == monitor && sim'.core == committed.(phase := Failed)
       else
         var (judged, rejected) := world.watch(monitor, ViewOf(committed), record);
         && sim'.monitor == judged
         && if rejected.Some? then step == Error(MonitorFailed(record.meta, rejected.value)) && sim'.core == committed.(phase := Failed)
            else step == Acted(record) && sim'.core == committed
  }

  lemma FinishDecision<S, N>(world: World<S, N>, sim: Sim<S, N>, record: ActionRecord)
    ensures var (sim', step) := Finish(world, sim, record);
            Validated(world, sim.scheduler, sim.monitor, record, sim.core, sim', step)
  {
  }

  /**
   * The answer to one chosen, enabled action. The step reports the model's failure exactly when the
   * callback failed, a stop with pending deliveries exactly when the callback stopped its duty and left
   * it some, with their number; otherwise the callback's effects are committed, and scheduler and monitor
   * alone decide between their own refusals and the committed action.
   */
  ghost predicate Answers<S, N>(world: World<S, N>, sim: Sim<S, N>, chosen: S, key: ActionKey, sim': Sim<S, N>, step: Step)
    requires Valid(sim.core.timeline) && Enabled(sim.core, key)
  {
    var core := sim.core;
    var ran := Performed(world.code, core, key, core.actions);
    var meta := ActionMeta(core.actions, key, core.timeline.now, CauseOf(core, key));
    && (forall source :: step == Error(ModelFailed(meta, source)) <==> ran.outcome == Err(source))
    && (forall duty, left ::
          step == Error(KernelFailed(StoppedWithPending(duty, left))) <==>
            && ran.outcome.Ok? && ran.outcome.value.next.Stop?
            && duty == key.duty && left == LeftFor(ran, duty) && left != 0)
    && (Committable(ran, key.duty) ==>
          exists committed: Core ::
            && committed.phase == Active && CommittedInto(core, committed, key, ran)
            && Validated(world, chosen, sim.monitor, ActionRecord(meta, ran.outcome.value, ran.context.observations), committed, sim', step))
    && (!Committable(ran, key.duty) ==> sim'.scheduler == chosen && sim'.monitor == sim.monitor && sim'.core.phase == Failed)
  }

  lemma ActDecision<S, N>(world: World<S, N>, sim: Sim<S, N>, key: ActionKey)
    requires Inv(sim.core) && sim.core.phase == Active && Enabled(sim.core, key) && key.duty in sim.core.states
    requires Valid(sim.core.timeline) && sim.core.actions < U64_MAX && sim.core.actionsAtMoment < U64_MAX
    ensures var (sim', step) := Act(world, sim, key); Answers(world, sim, sim.scheduler, key, sim', step)
  {
    hide Inv, Valid, Execute, DutyUpdated, Finish, Validated, LeftFor, ViewOf, Enabled, Performed, CauseOf;
    var core := sim.core;
    IdentityIsCount(core);
    var counted := Allocated(core);
    CountedPerforms(world.code, core, key);
    ExecuteDecision(world.code, counted, key, core.actions);
    ExecuteCommits(world.code, counted, key, core.actions);
    ExecuteEffect(world.code, counted, key, core.actions);
    var (core', r) := Execute(world.code, counted, key, core.actions);
    if r.Ok? {
      assert CommittedInto(core, core', key, Performed(world.code, core, key, core.actions));
      FinishDecision(world, sim.(core := core'), r.value);
      FinishIsNoActionFailure(world, sim.(core := core'), r.value);
    }
  }

  lemma IdentityIsCount(core: Core)
    requires Inv(core)
    ensures core.nextAction == Some(core.actions)
  {
  }

  /** Counting an action changes neither what it is nor what it runs. */
  lemma CountedPerforms(code: ModelCode, core: Core, key: ActionKey)
    requires Valid(core.timeline) && Enabled(core, key)
    requires core.nextAction.Some? && core.actions < U64_MAX && core.actionsAtMoment < U64_MAX
    ensures Enabled(Allocated(core), key)
    ensures Performed(code, Allocated(core), key, core.actions) == Performed(code, core, key, core.actions)
    ensures CauseOf(Allocated(core), key) == CauseOf(core, key)
  {
    hide Valid, RunCallback;
  }

  lemma FinishIsNoActionFailure<S, N>(world: World<S, N>, sim: Sim<S, N>, record: ActionRecord)
    ensures var (_, step) := Finish(world, sim, record); step.Error? ==> !ActionFailure(step.error)
  {
  }

  // ----- The whole step -----

  /**
   * How a step of a busy active world is decided: the budgets come first, then the scheduler's own
   * failure, then a choice that is not enabled, and otherwise the chosen action answers.
   */
  lemma StepDecision<S, N>(world: World<S, N>, sim: Sim<S, N>)
    requires Inv(sim.core) && sim.core.phase == Active
    requires exists key :: Enabled(sim.core, key)
    ensures Valid(sim.core.timeline) && BuildReady(sim.core).Ok? && BuildReady(sim.core).value != []
    ensures var (sim', step) := StepOnce(world, sim);
            var core := sim.core;
            var (chosen, choice) := world.policy.choose(sim.scheduler, core.timeline.now, BuildReady(core).value);
            if core.actions == core.limits.totalActions then
              step == Error(LimitReached(TotalActions(core.limits.totalActions))) && sim' == sim.(core := core.(phase := Failed))
            else if core.actionsAtMoment == core.limits.actionsPerMoment then
              && step == Error(LimitReached(ActionsAtMoment(core.timeline.now, core.limits.actionsPerMoment)))
              && sim' == sim.(core := core.(phase := Failed))
            else if choice.Err? then
              step == Error(SchedulerFailed(choice.error)) && sim' == Sim(core.(phase := Failed), chosen, sim.monitor)
            else if !Enabled(core, choice.value) then
              step == Error(InvalidSelection(choice.value)) && sim' == Sim(core.(phase := Failed), chosen, sim.monitor)
            else Answers(world, sim, chosen, choice.value, sim', step)
  {
    hide Inv, BuildReady, Act, AdvanceOrFinish, Enabled, Answers;
    var core := sim.core;
    InvValid(core);
    BudgetsHold(core);
    AllStopped(core);
    ReadySucceeds(core);
    IdleMeans(core);
    var ready := BuildReady(core).value;
    var (chosen, choice) := world.policy.choose(sim.scheduler, Clock(core), ready);
    if choice.Ok? {
      ReadyIsEnabled(core, choice.value);
      if choice.value in ready && core.actions < core.limits.totalActions && core.actionsAtMoment < core.limits.actionsPerMoment {
        ActDecision(world, sim.(scheduler := chosen), choice.value);
        AnswersIgnoresScheduler(world, sim, chosen, choice.value);
      }
    }
  }

  lemma BudgetsHold(core: Core)
    requires Inv(core)
    ensures core.actions <= core.limits.totalActions && core.actionsAtMoment <= core.limits.actionsPerMoment
  {
  }

  lemma AnswersIgnoresScheduler<S, N>(world: World<S, N>, sim: Sim<S, N>, chosen: S, key: ActionKey)
    requires Valid(sim.core.timeline) && Enabled(sim.core, key) && key.duty in sim.core.states
    requires sim.core.actions < U64_MAX && sim.core.actionsAtMoment < U64_MAX
    requires var (sim', step) := Act(world, sim.(scheduler := chosen), key);
             Answers(world, sim.(scheduler := chosen), chosen, key, sim', step)
    ensures var (sim', step) := Act(world, sim.(scheduler := chosen), key);
            Answers(world, sim, chosen, key, sim', step)
  {
    hide Act, Validated, CommittedInto, Performed, CauseOf, LeftFor;
  }

  /** The moment of the earliest pending event or awaited deadline. */
  ghost predicate IsEarliest(core: Core, next: Moment) {
    && (forall k :: k in core.timeline.events ==> next <= k.at)
    && (forall d :: d in core.states && core.states[d].next.WakeOr? ==> next <= core.states[d].next.deadline)
    && ((exists k :: k in core.timeline.events && k.at == next)
        || (exists d :: d in core.states && core.states[d].next == WakeOr(next)))
  }

  /** What a snapshot says of a core. */
  ghost predicate Describes(snapshot: Snapshot, core: Core, phase: Phase) {
    && snapshot.phase == phase && snapshot.now == core.timeline.now
    && snapshot.duties == |core.topology| && snapshot.stopped == |core.stopped|
    && snapshot.pending == |core.timeline.events| && snapshot.retained == core.timeline.retained
    && snapshot.actions == core.actions && snapshot.actionsAtMoment == core.actionsAtMoment
    && (snapshot.nextAt == None <==> core.timeline.events == map[])
  }

  /**
   * How a step of an idle active world is decided: once every duty has stopped the scheduler decides
   * between completion and its refusal; otherwise the earliest pending moment is reached, or refused
   * beyond the ceiling; with no such moment the world is quiescent.
   */
  ghost predicate AnswersIdle<S, N>(world: World<S, N>, sim: Sim<S, N>, sim': Sim<S, N>, step: Step) {
    var core := sim.core;
    var (scheduler, refused) := world.policy.finished(sim.scheduler);
    if forall d :: d in core.states ==> core.states[d].next.Stop? then
      if refused.Some? then step == Error(SchedulerFailed(refused.value)) && sim' == Sim(core.(phase := Failed), scheduler, sim.monitor)
      else step.Finished? && Describes(step.snapshot, core, Completed) && sim' == Sim(core.(phase := Completed), scheduler, sim.monitor)
    else
      && (step.Quiescent? <==> forall next: Moment :: !IsEarliest(core, next))
      && (step.Quiescent? ==> sim' == sim && Describes(step.snapshot, core, Active))
      && (forall next: Moment :: IsEarliest(core, next) ==> ReachesOrRefuses(sim, next, sim', step))
  }

  ghost predicate ReachesOrRefuses<S, N>(sim: Sim<S, N>, next: Moment, sim': Sim<S, N>, step: Step) {
    var core := sim.core;
    if next <= core.limits.context.maxTime then
      && step == TimeAdvanced(core.timeline.now, next)
      && sim' == sim.(core := core.(timeline := core.timeline.(now := next), actionsAtMoment := 0))
    else
      && step == Error(LimitReached(VirtualTime(next, core.limits.context.maxTime)))
      && sim' == sim.(core := core.(phase := Failed))
  }

  lemma IdleDecision<S, N>(world: World<S, N>, sim: Sim<S, N>)
    requires Inv(sim.core) && sim.core.phase == Active
    requires forall key :: !Enabled(sim.core, key)
    ensures var (sim', step) := StepOnce(world, sim); AnswersIdle(world, sim, sim', step)
  {
    hide Inv, BuildReady, Act, Enabled, NextAt, NextDeadline, FirstKey, IsEarliest, Describes, Follows, ActedOn;
    var core := sim.core;
    IdleMeans(core);
    AllStopped(core);
    ReadySucceeds(core);
    NextIsFuture(core);
    EarliestIsNext(core);
    SnapshotDescribes(core);
    CompletedDescribes(core);
    StoppedMeans(core);
  }

  lemma CompletedDescribes(core: Core)
    ensures Describes(SnapshotOf(core.(phase := Completed)), core, Completed)
  {
    hide FirstKey;
  }

  lemma StoppedMeans(core: Core)
    requires core.states.Keys == DutySet(core.topology) && core.stopped == StoppedOf(core.states)
    ensures core.stopped == core.states.Keys <==> forall d :: d in core.states ==> core.states[d].next.Stop?
  {
  }

  lemma SnapshotDescribes(core: Core)
    ensures Describes(SnapshotOf(core), core, core.phase)
  {
    hide FirstKey;
  }

  lemma EarliestIsNext(core: Core)
    requires core.states.Keys == DutySet(core.topology)
    ensures var next := Earliest(NextAt(core.timeline), NextDeadline(core, core.topology));
            forall m: Moment :: IsEarliest(core, m) <==> next == Some(m)
  {
    hide NextAt, NextDeadline;
    AdvanceIsLeast(core);
    var next := Earliest(NextAt(core.timeline), NextDeadline(core, core.topology));
    forall m: Moment ensures IsEarliest(core, m) <==> next == Some(m) {
      if IsEarliest(core, m) {
        EarliestIsReached(core, m);
      }
    }
  }

  lemma EarliestIsReached(core: Core, m: Moment)
    requires core.states.Keys == DutySet(core.topology) && IsEarliest(core, m)
    ensures Earliest(NextAt(core.timeline), NextDeadline(core, core.topology)) == Some(m)
  {
    hide NextAt, NextDeadline, Earliest;
    AdvanceIsLeast(core);
    SomethingIsNext(core, m);
  }

  lemma SomethingIsNext(core: Core, m: Moment)
    requires core.states.Keys == DutySet(core.topology) && IsEarliest(core, m)
    ensures Earliest(NextAt(core.timeline), NextDeadline(core, core.topology)).Some?
  {
    hide FirstKey;
    if k :| k in core.timeline.events && k.at == m {
      assert NextAt(core.timeline).Some?;
    } else {
      var d :| d in core.states && core.states[d].next == WakeOr(m);
      assert d in core.topology;
    }
  }

  // ----- Fifo, and the run loop as steps -----

  /** Under Fifo a committed action is the least enabled one in the canonical order. */
  lemma FifoActsFirst<N>(world: World<(), N>, sim: Sim<(), N>, other: ActionKey)
    requires Inv(sim.core) && world.policy == Fifo && StepOnce(world, sim).1.Acted?
    requires Enabled(sim.core, other)
    ensures var key := StepOnce(world, sim).1.record.meta.key;
            Enabled(sim.core, key) && (key == other || ActionLess(key, other))
  {
    hide Inv, BuildReady, StepOnce, Enabled;
    ActedChoice(world, sim);
    AllStopped(sim.core);
    ReadyIsCanonical(sim.core);
    var ready := BuildReady(sim.core).value;
    ReadyIsEnabled(sim.core, ready[0]);
    ReadyIsEnabled(sim.core, other);
    var i :| 0 <= i < |ready| && ready[i] == other;
    assert i > 0 ==> ActionLess(ready[0], ready[i]);
  }

  function Steps(count: nat): (commands: seq<Command>)
    ensures |commands| == count && forall i :: 0 <= i < count ==> commands[i] == TakeStep
  {
    if count == 0 then [] else [TakeStep] + Steps(count - 1)
  }

  /** The answer that ends a run. */
  predicate EndsWith(end: RunEnd, outcome: Outcome) {
    match end
    case EndQuiescent(snapshot) => outcome == Stepped(Quiescent(snapshot))
    case EndCompleted(snapshot) => outcome == Stepped(Step.Finished(snapshot))
    case EndError(error) => outcome == Stepped(Step.Error(error))
  }

  predicate GoesOn(outcome: Outcome) {
    outcome.Stepped? && (outcome.step.Acted? || outcome.step.TimeAdvanced?)
  }

  /** The run loop is that many steps and nothing else: all but the last act or advance time, and the last is what it reports. */
  lemma {:induction false} RunIsSteps<S, N>(world: World<S, N>, sim: Sim<S, N>)
    requires Inv(sim.core)
    ensures var (last, end, steps) := RunToQuiescence(world, sim);
            var (there, outcomes) := Run(world, sim, Steps(steps));
            && steps > 0 && |outcomes| == steps && there == last
            && EndsWith(end, outcomes[steps - 1])
            && forall i :: 0 <= i < steps - 1 ==> GoesOn(outcomes[i])
    decreases Fuel(sim.core)
  {
    hide Inv, StepOnce, Idle, Follows;
    ProgressBurnsFuel(world, sim);
    var (next, step) := StepOnce(world, sim);
    var (last, end, steps) := RunToQuiescence(world, sim);
    assert Steps(steps)[1..] == Steps(steps - 1);
    var (_, rest) := Run(world, next, Steps(steps - 1));
    var outcomes := Run(world, sim, Steps(steps)).1;
    assert outcomes == [Stepped(step)] + rest;
    if step.Acted? || step.TimeAdvanced? {
      RunIsSteps(world, next);
      forall i | 0 <= i < steps - 1 ensures GoesOn(outcomes[i]) {
        assert i > 0 ==> outcomes[i] == rest[i - 1];
      }
    }
  }
}
