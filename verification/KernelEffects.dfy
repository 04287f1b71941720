/** What exactly one committed action, one failed action and one time advance change. */
module KernelEffects {
  import opened Base
  import opened Consumer
  import opened Timelines
  import opened Contexts
  import opened Actions
  import opened Schedulers
  import opened Kernel
  import opened KernelSafety
  import opened KernelRuns

  /** The causing action recorded for a key: the one that scheduled the delivered event, none for a turn. */
  function CauseOf(core: Core, key: ActionKey): Option<ActionId> {
    match key.kind
    case OwnerTurn => None
    case Delivery(token) =>
      (match Lookup(core.timeline, token)
       case None => None
       case Some(entry) => entry.routed.cause)
  }

  /** The pending events an action starts from: all of them, without the one being delivered. */
  function EventsBefore(core: Core, key: ActionKey): map<EventKey, Entry> {
    match key.kind
    case OwnerTurn => core.timeline.events
    case Delivery(token) => core.timeline.events - {KeyOf(token)}
  }

  /** A committed action advances its own duty's interest and exactly one of its counters. */
  ghost predicate DutyUpdated(before: DutyState, after: DutyState, key: ActionKey, turn: Turn) {
    && after.next == turn.next
    && after.turns == (if key.kind.OwnerTurn? then Saturating(before.turns) else before.turns)
    && after.deliveries == (if key.kind.Delivery? then Saturating(before.deliveries) else before.deliveries)
  }

  /** The consumer's callback for an enabled action, run on the timeline without what it delivers. */
  ghost function Performed(code: ModelCode, core: Core, key: ActionKey, id: ActionId): Returned
    requires Valid(core.timeline) && Enabled(core, key)
  {
    match key.kind
    case OwnerTurn => Called(core, core.timeline, code.turn(core.model, key.duty, Clock(core), id), id)
    case Delivery(token) =>
      CancelEffect(core.timeline, token);
      var (t, removed) := Cancel(core.timeline, token);
      Called(core, t, code.deliver(core.model, key.duty, token, removed.value.event, id), id)
  }

  /** A commit publishes exactly what the callback returned and staged. */
  ghost predicate Publishes(after: Core, record: ActionRecord, ran: Returned) {
    && after.model == ran.model && after.timeline == ran.context.timeline
    && Ok(record.turn) == ran.outcome && record.observations == ran.context.observations
  }

  lemma InvokeEffect(core: Core, t: TimelineState, callback: Callback, meta: ActionMeta)
    requires Valid(t) && meta.key.duty in core.states
    ensures var (core', r) := Invoke(core, t, callback, meta);
            var ran := Called(core, t, callback, meta.id);
            && core'.model == ran.model
            && (r.Ok? ==>
                  && Publishes(core', r.value, ran)
                  && r.value.meta == meta && core'.states.Keys == core.states.Keys
                  && DutyUpdated(core.states[meta.key.duty], core'.states[meta.key.duty], meta.key, r.value.turn)
                  && core'.stopped == (if r.value.turn.next.Stop? then core.stopped + {meta.key.duty} else core.stopped)
                  && core'.actionsAtMoment == core.actionsAtMoment)
            && (r.Err? ==> ActionFailure(r.error) && core'.timeline == t.(nextId := core'.timeline.nextId)
                           && core'.states == core.states && core'.stopped == core.stopped)
  {
    hide Valid, Staged, RunCallback;
  }

  lemma ExecuteEffect(code: ModelCode, core: Core, key: ActionKey, id: ActionId)
    requires Valid(core.timeline) && key.duty in core.states && Enabled(core, key)
    ensures var (core', r) := Execute(code, core, key, id);
            var ran := Performed(code, core, key, id);
            && core'.model == ran.model
            && (r.Ok? ==>
                  && Publishes(core', r.value, ran)
                  && r.value.meta == ActionMeta(id, key, core.timeline.now, CauseOf(core, key))
                  && core'.states.Keys == core.states.Keys
                  && DutyUpdated(core.states[key.duty], core'.states[key.duty], key, r.value.turn)
                  && core'.stopped == (if r.value.turn.next.Stop? then core.stopped + {key.duty} else core.stopped)
                  && core'.actionsAtMoment == core.actionsAtMoment)
            && (r.Err? ==> ActionFailure(r.error) && core'.timeline.events == EventsBefore(core, key)
                           && core'.states == core.states && core'.stopped == core.stopped)
  {
    hide Valid, Invoke, DutyUpdated, ActionFailure, Called, Publishes;
    match key.kind
    case OwnerTurn =>
      InvokeEffect(core, core.timeline, code.turn(core.model, key.duty, Clock(core), id), ActionMeta(id, key, Clock(core), None));
    case Delivery(token) =>
      CancelEffect(core.timeline, token);
      var (t, removed) := Cancel(core.timeline, token);
      var routed := removed.value;
      InvokeEffect(core, t, code.deliver(core.model, key.duty, token, routed.event, id),
                   ActionMeta(id, key, Clock(core), routed.cause));
  }

  lemma ActEffect<S, N>(world: World<S, N>, sim: Sim<S, N>, key: ActionKey)
    requires Inv(sim.core) && Enabled(sim.core, key) && key.duty in sim.core.states
    requires Valid(sim.core.timeline) && sim.core.actions < U64_MAX && sim.core.actionsAtMoment < U64_MAX
    ensures var (sim', step) := Act(world, sim, key);
            var ran := Performed(world.code, sim.core, key, sim.core.actions);
            && (step.Acted? ==>
                  && Publishes(sim'.core, step.record, ran)
                  && step.record.meta == ActionMeta(sim.core.actions, key, sim.core.timeline.now, CauseOf(sim.core, key))
                  && key.duty in sim'.core.states
                  && DutyUpdated(sim.core.states[key.duty], sim'.core.states[key.duty], key, step.record.turn)
                  && sim'.core.stopped == (if step.record.turn.next.Stop? then sim.core.stopped + {key.duty} else sim.core.stopped)
                  && sim'.core.actionsAtMoment == sim.core.actionsAtMoment + 1)
            && (step.Error? && ActionFailure(step.error) ==>
                  && sim'.core.model == ran.model
                  && sim'.core.timeline.events == EventsBefore(sim.core, key)
                  && sim'.core.states == sim.core.states && sim'.core.stopped == sim.core.stopped)
  {
    hide Valid, Execute, DutyUpdated, Finish, Publishes;
    var core := sim.core;
    assert core.nextAction == Some(core.actions);
    var counted := Allocated(core);
    assert Enabled(counted, key);
    assert Performed(world.code, counted, key, core.actions) == Performed(world.code, core, key, core.actions);
    ExecuteEffect(world.code, counted, key, core.actions);
    var (core', r) := Execute(world.code, counted, key, core.actions);
    if r.Ok? {
      FinishEffect(world, sim.(core := core'), r.value);
    }
  }

  /**
   * A committed action: identified by the action count, caused by whoever scheduled what it delivers,
   * it publishes exactly what its callback returned and staged, and advances its own duty and one of that
   * duty's counters. An action the model fails, or that would stop a duty with deliveries pending, leaves
   * every duty and every other pending event as they were; only the consumer's model keeps its changes.
   */
  lemma StepEffect<S, N>(world: World<S, N>, sim: Sim<S, N>)
    requires Inv(sim.core)
    ensures var (sim', step) := StepOnce(world, sim);
            var core, core' := sim.core, sim'.core;
            && Valid(core.timeline)
            && (step.Acted? ==>
                  var key := step.record.meta.key;
                  && Enabled(core, key)
                  && Publishes(core', step.record, Performed(world.code, core, key, core.actions))
                  && step.record.meta == ActionMeta(core.actions, key, core.timeline.now, CauseOf(core, key))
                  && key.duty in core.states && key.duty in core'.states
                  && DutyUpdated(core.states[key.duty], core'.states[key.duty], key, step.record.turn)
                  && core'.stopped == (if step.record.turn.next.Stop? then core.stopped + {key.duty} else core.stopped)
                  && core'.actionsAtMoment == core.actionsAtMoment + 1 <= core.limits.actionsPerMoment)
            && (step.Error? && ActionFailure(step.error) ==>
                  exists key: ActionKey ::
                    && Enabled(core, key)
                    && core'.model == Performed(world.code, core, key, core.actions).model
                    && core'.timeline.events == EventsBefore(core, key)
                    && core'.states == core.states && core'.stopped == core.stopped)
  {
    hide Inv, BuildReady, Act, AdvanceOrFinish, Enabled, Follows, ActedOn, DutyUpdated, Performed, Publishes;
    var core := sim.core;
    StepKeepsInv(world, sim);
    ReadySucceeds(core);
    AllStopped(core);
    InvValid(core);
    if core.phase == Active {
      var ready := BuildReady(core).value;
      if ready == [] {
        AdvanceKeepsInv(world, sim);
        AdvanceIsNoActionFailure(world, sim);
      } else if core.actions < core.limits.totalActions && core.actionsAtMoment < core.limits.actionsPerMoment {
        var (scheduler, choice) := world.policy.choose(sim.scheduler, Clock(core), ready);
        if choice.Ok? && choice.value in ready {
          ReadyIsEnabled(core, choice.value);
          ActEffect(world, sim.(scheduler := scheduler), choice.value);
          ActKeepsInv(world, sim.(scheduler := scheduler), choice.value);
        }
      }
    }
  }

  /** The action limits stop a run exactly when some action is enabled and the budget is spent. */
  lemma LimitsAreExact<S, N>(world: World<S, N>, sim: Sim<S, N>)
    requires Inv(sim.core)
    ensures var (sim', step) := StepOnce(world, sim);
            var core := sim.core;
            && (step == Error(LimitReached(TotalActions(core.limits.totalActions))) <==>
                  core.phase == Active && !Idle(core) && core.actions == core.limits.totalActions)
            && (step == Error(LimitReached(ActionsAtMoment(core.timeline.now, core.limits.actionsPerMoment))) <==>
                  && core.phase == Active && !Idle(core) && core.actions < core.limits.totalActions
                  && core.actionsAtMoment == core.limits.actionsPerMoment)
  {
    hide Valid, BuildReady, Act, Enabled, Follows, ActedOn, EventsOk, NextAt, NextDeadline, FirstKey;
    var core := sim.core;
    StepKeepsInv(world, sim);
    ReadySucceeds(core);
    InvValid(core);
    AllStopped(core);
    if core.phase == Active && BuildReady(core).value != []
       && core.actions < core.limits.totalActions && core.actionsAtMoment < core.limits.actionsPerMoment {
      var (scheduler, choice) := world.policy.choose(sim.scheduler, Clock(core), BuildReady(core).value);
      if choice.Ok? && choice.value in BuildReady(core).value {
        ReadyIsEnabled(core, choice.value);
        ActIsNotLimited(world, sim.(scheduler := scheduler), choice.value);
      }
    }
  }

  lemma ActIsNotLimited<S, N>(world: World<S, N>, sim: Sim<S, N>, key: ActionKey)
    requires Valid(sim.core.timeline) && key.duty in sim.core.states
    requires sim.core.actions < U64_MAX && sim.core.actionsAtMoment < U64_MAX
    ensures var step := Act(world, sim, key).1; step.Error? ==> !step.error.LimitReached?
  {
    hide Valid, Staged, RunCallback, UpdateOwner;
    if sim.core.nextAction.Some? {
      var (core, r) := Execute(world.code, Allocated(sim.core), key, sim.core.nextAction.value);
      if r.Ok? {
        FinishEffect(world, sim.(core := core), r.value);
      }
    }
  }

  lemma AdvanceIsNoActionFailure<S, N>(world: World<S, N>, sim: Sim<S, N>)
    requires sim.core.states.Keys == DutySet(sim.core.topology)
    ensures var (_, step) := AdvanceOrFinish(world, sim); step.Error? ==> !ActionFailure(step.error)
  {
    hide NextAt, NextDeadline, FirstKey;
  }

  /** Time jumps exactly to the earliest pending event or deadline and changes nothing else but the moment's action count. */
  lemma TimeAdvanceIsExact<S, N>(world: World<S, N>, sim: Sim<S, N>)
    requires Inv(sim.core) && StepOnce(world, sim).1.TimeAdvanced?
    ensures var (sim', step) := StepOnce(world, sim);
            var core := sim.core;
            && step.from == core.timeline.now < step.to <= core.limits.context.maxTime
            && sim' == sim.(core := core.(timeline := core.timeline.(now := step.to), actionsAtMoment := 0))
            && (forall k :: k in core.timeline.events ==> step.to <= k.at)
            && (forall d :: d in core.states && core.states[d].next.WakeOr? ==> step.to <= core.states[d].next.deadline)
            && ((exists k :: k in core.timeline.events && k.at == step.to)
                || (exists d :: d in core.states && core.states[d].next == WakeOr(step.to)))
  {
    hide Inv, StepOnce, NextAt, NextDeadline, FirstKey, Idle, Follows, ActedOn;
    var core := sim.core;
    StepKeepsInv(world, sim);
    QuietStep(world, sim);
    AdvanceIsLeast(core);
  }

  lemma AdvanceIsLeast(core: Core)
    requires core.states.Keys == DutySet(core.topology)
    ensures var next := Earliest(NextAt(core.timeline), NextDeadline(core, core.topology));
            next.Some? ==>
              && (forall k :: k in core.timeline.events ==> next.value <= k.at)
              && (forall d :: d in core.states && core.states[d].next.WakeOr? ==> next.value <= core.states[d].next.deadline)
              && ((exists k :: k in core.timeline.events && k.at == next.value)
                  || (exists d :: d in core.states && core.states[d].next == WakeOr(next.value)))
  {
    assert forall d :: d in core.states <==> d in core.topology;
    if core.timeline.events != map[] {
      assert core.timeline.events.Keys != {};
      var first := FirstKey(core.timeline.events.Keys);
      assert first in core.timeline.events && NextAt(core.timeline) == Some(first.at);
    }
  }
}
