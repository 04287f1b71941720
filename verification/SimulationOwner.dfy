/** The simulation updated in place, method by method, against the value-level kernel. */
module SimulationOwner {
  import opened Base
  import opened Consumer
  import opened Timelines
  import opened Contexts
  import opened Actions
  import opened Schedulers
  import opened Kernel
  import opened KernelSafety
  import opened KernelRuns
  import opened KernelDecisions
  import opened TimelineOwner
  import opened ContextOwner

  /** One context operation requested by consumer code. */
  method ServeRequest(context: ActionContext, request: Request) returns (response: Response)
    requires context.Valid() && !context.committed && !request.Return?
    modifies context, context.timeline
    ensures request.CancelToken? ==> CanCancel(old(context.State()), request.token)
    ensures (context.State(), response) == Serve(old(context.State()), request)
    ensures context.Valid() && !context.committed
  {
    match request
    case Send(target, event) =>
      var r := context.SendAt(target, context.timeline.now, event);
      response := Sent(r);
    case SendAtMoment(target, at, event) =>
      var r := context.SendAt(target, at, event);
      response := Sent(r);
    case SendLater(target, delay, event) =>
      var r := context.SendAfter(target, delay, event);
      response := Sent(r);
    case CancelToken(token) =>
      var r := context.Cancel(token);
      response := Cancelled(r);
    case Emit(observation) =>
      var r := context.Observe(observation);
      response := Emitted(r);
  }

  /** Consumer code runs against the context until it returns. */
  method RunModel(context: ActionContext, callback: Callback) returns (model: Model, outcome: Result<Turn, ModelError>)
    requires context.Valid() && !context.committed
    modifies context, context.timeline
    ensures Returned(context.State(), model, outcome) == RunCallback(context.origin, old(context.State()), callback, [])
    ensures context.Valid() && !context.committed
  {
    hide Staged, Serve;
    var seen: seq<Response> := [];
    while true
      invariant context.Valid() && !context.committed && |seen| <= callback.bound
      invariant RunCallback(context.origin, context.State(), callback, seen)
             == RunCallback(context.origin, old(context.State()), callback, [])
      decreases callback.bound - |seen|
    {
      var request := RequestOf(callback, seen);
      if request.Return? {
        return request.model, request.outcome;
      }
      ServeStaged(context.origin, context.State(), request);
      var response := ServeRequest(context, request);
      seen := seen + [response];
    }
  }

  lemma Regroup<T>(front: seq<T>, x: T, rest: seq<T>)
    ensures front + ([x] + rest) == (front + [x]) + rest
  {
  }

  lemma NextTurn(core: Core, i: nat)
    requires core.states.Keys == DutySet(core.topology) && i < |core.topology|
    ensures core.topology[i] in core.states
    ensures DueTurns(core, core.topology[i..])
         == if Runnable(core.states[core.topology[i]], Clock(core))
            then [ActionKey(core.topology[i], OwnerTurn)] + DueTurns(core, core.topology[i + 1..])
            else DueTurns(core, core.topology[i + 1..])
  {
    var duties := core.topology[i..];
    assert duties[0] == core.topology[i] && duties[1..] == core.topology[i + 1..];
  }

  datatype RunError = Deadlock(snapshot: Snapshot) | StepFailed(error: StepError)

  /** Performing a callback depends on the timeline it is given, not on the one it replaces. */
  lemma InvokeReplacesTimeline(core: Core, t: TimelineState, callback: Callback, meta: ActionMeta)
    requires Valid(t) && meta.key.duty in core.states
    ensures Invoke(core.(timeline := t), t, callback, meta) == Invoke(core, t, callback, meta)
  {
  }

  class Simulation<S(!new), N(!new)> {
    const world: World<S, N>
    const topology: Topology
    const limits: Limits
    const timeline: Timeline
    var model: Model
    var states: map<DutyId, DutyState>
    var stopped: set<DutyId>
    var phase: Phase
    var nextAction: Option<ActionId>
    var actions: U64
    var actionsAtMoment: U64
    var ready: seq<ActionKey>
    var scheduler: S
    var monitor: N

    function Now(): Core
      reads this, timeline
    {
      Core(model, topology, states, stopped, timeline.State(), limits, phase, nextAction, actions, actionsAtMoment)
    }

    function State(): Sim<S, N>
      reads this, timeline
    {
      Sim(Now(), scheduler, monitor)
    }

    /** The parts were validated by `WithParts`. */
    constructor (id: U64, now: Moment, model: Model, topology: Topology, limits: Limits, maxEvents: nat, maxBytes: U64,
                 measure: Event -> U64, world: World<S, N>, scheduler: S, monitor: N)
      requires Build(id, now, model, topology, limits, maxEvents, maxBytes, measure).Ok?
      ensures State() == Sim(Build(id, now, model, topology, limits, maxEvents, maxBytes, measure).value, scheduler, monitor)
      ensures Inv(Now()) && this.world == world && fresh(timeline)
    {
      this.world, this.topology, this.limits := world, topology, limits;
      this.model, this.scheduler, this.monitor := model, scheduler, monitor;
      timeline := new Timeline.At(id, now, maxEvents, maxBytes, measure);
      states := map d | d in topology :: DutyState(Next.Now, 0, 0);
      stopped, phase, nextAction, actions, actionsAtMoment, ready := {}, Active, Some(0), 0, 0, [];
      new;
      BuildEstablishesInv(id, now, model, topology, limits, maxEvents, maxBytes, measure);
    }

    method BuildReadySet() returns (failure: Option<KernelFailure>)
      requires states.Keys == DutySet(topology)
      modifies this`ready
      ensures match BuildReady(Now())
              case Err(f) => failure == Some(f)
              case Ok(keys) => failure == None && ready == keys
    {
      hide DueDeliveries, DueTurns;
      ready := [];
      failure := AddDeliveries(KeysAt(timeline.State(), timeline.now));
      if failure.None? {
        AddTurns();
      }
    }

    /** The first loop: due deliveries in timeline order. */
    method AddDeliveries(due: seq<EventKey>) returns (failure: Option<KernelFailure>)
      requires ready == [] && forall k :: k in due ==> k in timeline.events
      modifies this`ready
      ensures match DueDeliveries(Now(), due)
              case Err(f) => failure == Some(f)
              case Ok(keys) => failure == None && ready == keys
    {
      ghost var core := Now();
      var i := 0;
      assert due[0..] == due;
      assert DueDeliveries(core, due).Ok? ==> ready + DueDeliveries(core, due).value == DueDeliveries(core, due).value;
      while i < |due|
        invariant i <= |due| && Now() == core
        invariant match DueDeliveries(core, due[i..])
                  case Err(f) => DueDeliveries(core, due) == Err(f)
                  case Ok(rest) => DueDeliveries(core, due) == Ok(ready + rest)
      {
        assert due[i] in due && due[i..][0] == due[i] && due[i..][1..] == due[i + 1..];
        var token := TokenOf(timeline.State(), due[i]);
        var target := timeline.events[due[i]].routed.target;
        if target !in topology {
          return Some(UnknownDeliveryTarget(token, target));
        }
        if target in stopped {
          return Some(DeliveryTargetsStopped(token, target));
        }
        ghost var rest := DueDeliveries(core, due[i + 1..]);
        if rest.Ok? {
          Regroup(ready, ActionKey(target, Delivery(token)), rest.value);
        }
        ready := ready + [ActionKey(target, Delivery(token))];
        i := i + 1;
      }
      assert due[i..] == [];
      return None;
    }

    /** The second loop: runnable owners in duty order. */
    method AddTurns()
      requires states.Keys == DutySet(topology)
      modifies this`ready
      ensures ready == old(ready) + DueTurns(Now(), topology)
    {
      hide Runnable;
      ghost var core := Now();
      var i := 0;
      assert topology[0..] == topology;
      while i < |topology|
        invariant i <= |topology| && Now() == core
        invariant ready + DueTurns(core, topology[i..]) == old(ready) + DueTurns(core, topology)
      {
        NextTurn(core, i);
        Regroup(ready, ActionKey(topology[i], OwnerTurn), DueTurns(core, topology[i + 1..]));
        if Runnable(states[topology[i]], timeline.now) {
          ready := ready + [ActionKey(topology[i], OwnerTurn)];
        }
        i := i + 1;
      }
      assert topology[i..] == [];
    }

    /** Runs one callback in a context over the current timeline, then commits it or drops it. */
    method Perform(meta: ActionMeta, callback: Callback) returns (r: Result<ActionRecord, StepError>)
      requires Valid(timeline.State()) && meta.key.duty in states
      modifies this, timeline
      ensures (Now(), r) == Invoke(old(Now()), old(timeline.State()), callback, meta)
      ensures FailsAs(r, Called(old(Now()), old(timeline.State()), callback, meta.id), meta)
      ensures scheduler == old(scheduler) && monitor == old(monitor)
    {
      hide Valid, Staged, RunCallback, Called, FailsAs;
      InvokeDecision(Now(), timeline.State(), callback, meta);
      var context := new ActionContext(timeline, topology, stopped, meta.id, limits.context);
      var outcome;
      model, outcome := RunModel(context, callback);
      if outcome.Err? {
        context.Drop();
        phase := Failed;
        return Err(ModelFailed(meta, outcome.error));
      }
      var turn := outcome.value;
      var pending := PendingFor(timeline.State(), meta.key.duty);
      if turn.next.Stop? && pending != 0 {
        context.Drop();
        phase := Failed;
        return Err(KernelFailed(StoppedWithPending(meta.key.duty, pending)));
      }
      var observations := context.Commit();
      UpdateDuty(meta.key.duty, turn, meta.key.kind.Delivery?);
      return Ok(ActionRecord(meta, turn, observations));
    }

    method UpdateDuty(duty: DutyId, turn: Turn, delivery: bool)
      requires duty in states
      modifies this
      ensures Now() == UpdateOwner(old(Now()), duty, turn, delivery)
      ensures scheduler == old(scheduler) && monitor == old(monitor)
    {
      var state := states[duty];
      state := state.(next := turn.next);
      if delivery {
        state := state.(deliveries := Saturating(state.deliveries));
      } else {
        state := state.(turns := Saturating(state.turns));
      }
      states := states[duty := state];
      if turn.next.Stop? {
        stopped := stopped + {duty};
      }
    }

    method ExecuteSelected(key: ActionKey, id: ActionId) returns (r: Result<ActionRecord, StepError>)
      requires Valid(timeline.State()) && key.duty in states
      modifies this, timeline
      ensures (Now(), r) == Execute(world.code, old(Now()), key, id)
      ensures scheduler == old(scheduler) && monitor == old(monitor)
    {
      hide Valid, Invoke;
      match key.kind
      case OwnerTurn =>
        r := Perform(ActionMeta(id, key, timeline.now, None), world.code.turn(model, key.duty, timeline.now, id));
      case Delivery(token) =>
        var routed := timeline.Cancel(token);
        if routed.None? {
          phase := Failed;
          return Err(KernelFailed(TimelineLostEvent(token)));
        }
        if routed.value.target != key.duty {
          phase := Failed;
          return Err(KernelFailed(DeliveryTargetMismatch(token, key.duty, routed.value.target)));
        }
        InvokeReplacesTimeline(old(Now()), timeline.State(), world.code.deliver(model, key.duty, token, routed.value.event, id),
                               ActionMeta(id, key, timeline.now, routed.value.cause));
        r := Perform(ActionMeta(id, key, timeline.now, routed.value.cause),
                     world.code.deliver(model, key.duty, token, routed.value.event, id));
    }

    method FinishAction(record: ActionRecord) returns (step: Step)
      modifies this
      ensures (State(), step) == Finish(world, old(State()), record)
    {
      var (scheduler', refused) := world.policy.committed(scheduler, record.meta, record.turn);
      scheduler := scheduler';
      if refused.Some? {
        phase := Failed;
        return Error(SchedulerFailed(refused.value));
      }
      var view := View(model, topology, states, SnapshotOf(Now()));
      var (monitor', rejected) := world.watch(monitor, view, record);
      monitor := monitor';
      if rejected.Some? {
        phase := Failed;
        return Error(MonitorFailed(record.meta, rejected.value));
      }
      return Acted(record);
    }

    method AdvanceTimeOrFinish() returns (step: Step)
      requires states.Keys == DutySet(topology)
      modifies this, timeline
      ensures (State(), step) == AdvanceOrFinish(world, old(State()))
    {
      hide NextAt, FirstKey, NextDeadline;
      if |stopped| == |topology| {
        if timeline.events != map[] {
          assert timeline.events.Keys != {};
          var first := FirstKey(timeline.events.Keys);
          phase := Failed;
          return Error(KernelFailed(DeliveryTargetsStopped(TokenOf(timeline.State(), first), timeline.events[first].routed.target)));
        }
        var (scheduler', refused) := world.policy.finished(scheduler);
        scheduler := scheduler';
        if refused.Some? {
          phase := Failed;
          return Error(SchedulerFailed(refused.value));
        }
        phase := Completed;
        return Step.Finished(SnapshotOf(Now()));
      }
      var now := timeline.now;
      var next := Earliest(NextAt(timeline.State()), NextDeadline(Now(), topology));
      if next.None? {
        return Quiescent(SnapshotOf(Now()));
      }
      if next.value <= now {
        phase := Failed;
        return Error(KernelFailed(NoFutureProgress(now)));
      }
      if next.value > limits.context.maxTime {
        phase := Failed;
        return Error(LimitReached(VirtualTime(next.value, limits.context.maxTime)));
      }
      timeline.AdvanceTo(next.value);
      actionsAtMoment := 0;
      return TimeAdvanced(now, next.value);
    }

    /** One kernel step; every reachable state keeps the kernel invariant. */
    method TakeStep() returns (step: Step)
      requires Inv(Now())
      modifies this, timeline
      ensures (State(), step) == StepOnce(world, old(State()))
      ensures Inv(Now()) && Follows(old(Now()), Now())
    {
      hide Inv, Valid, BuildReady, Execute, Enabled, AdvanceOrFinish, Finish, Follows, ActedOn;
      ghost var before := State();
      StepKeepsInv(world, before);
      InvValid(before.core);
      AllStopped(before.core);
      if phase != Active {
        return Error(Inactive(phase));
      }
      var failure := BuildReadySet();
      if failure.Some? {
        phase := Failed;
        return Error(KernelFailed(failure.value));
      }
      if ready == [] {
        step := AdvanceTimeOrFinish();
        return;
      }
      if actions >= limits.totalActions {
        phase := Failed;
        return Error(LimitReached(TotalActions(limits.totalActions)));
      }
      if actionsAtMoment >= limits.actionsPerMoment {
        phase := Failed;
        return Error(LimitReached(ActionsAtMoment(timeline.now, limits.actionsPerMoment)));
      }
      var (scheduler', choice) := world.policy.choose(scheduler, timeline.now, ready);
      scheduler := scheduler';
      if choice.Err? {
        phase := Failed;
        return Error(SchedulerFailed(choice.error));
      }
      if choice.value !in ready {
        phase := Failed;
        return Error(InvalidSelection(choice.value));
      }
      ReadyIsEnabled(before.core, choice.value);
      step := ActOn(choice.value);
    }

    /** Allocates an action identity, executes the chosen action and validates its commit. */
    method ActOn(key: ActionKey) returns (step: Step)
      requires Valid(timeline.State()) && key.duty in states
      requires actions < U64_MAX && actionsAtMoment < U64_MAX
      modifies this, timeline
      ensures (State(), step) == Act(world, old(State()), key)
    {
      hide Valid, Execute, Finish;
      if nextAction.None? {
        phase := Failed;
        return Error(KernelFailed(ActionIdsExhausted));
      }
      var id := nextAction.value;
      nextAction := CheckedAdd(id, 1);
      actions := actions + 1;
      actionsAtMoment := actionsAtMoment + 1;
      var executed := ExecuteSelected(key, id);
      if executed.Err? {
        return Error(executed.error);
      }
      step := FinishAction(executed.value);
    }

    method Inject(target: DutyId, at: Moment, event: Event) returns (r: Result<EventToken, InjectionFailure>)
      requires Inv(Now())
      modifies timeline
      ensures (Now(), r) == InjectAt(old(Now()), target, at, event)
      ensures r.Ok? ==>
                timeline.events
                == old(timeline.events)[KeyOf(r.value) := Entry(Routed(target, None, event), timeline.measure(event))]
      ensures Inv(Now())
    {
      hide Inv, ScheduleAt;
      InvValid(Now());
      InjectKeepsInv(Now(), target, at, event);
      if phase != Active {
        return Err(InjectInactive(phase));
      }
      if target !in topology {
        return Err(InjectUnknownTarget(target));
      }
      if target in stopped {
        return Err(InjectTargetStopped(target));
      }
      if at > limits.context.maxTime {
        return Err(InjectBeyondTimeLimit(at, limits.context.maxTime));
      }
      ScheduleAtEffect(timeline.State(), at, Routed(target, None, event));
      var token := timeline.ScheduleAt(at, Routed(target, None, event));
      if token.Err? {
        return Err(InjectTimeline(token.error));
      }
      return Ok(token.value);
    }

    /** The run loop ends, within the bound, where `RunReturns` says. */
    method RunUntilQuiescent() returns (end: RunEnd, ghost steps: nat)
      requires Inv(Now())
      modifies this, timeline
      ensures Inv(Now())
      ensures (State(), end, steps) == RunToQuiescence(world, old(State()))
      ensures steps <= 2 * (limits.totalActions - old(actions)) + 2
    {
      hide Inv, StepOnce, BuildReady, Follows, Idle;
      RunReturns(world, State());
      steps := 0;
      while true
        invariant Inv(Now())
        invariant var (last, end, more) := RunToQuiescence(world, State());
                  RunToQuiescence(world, old(State())) == (last, end, steps + more)
        decreases Fuel(Now())
      {
        ProgressBurnsFuel(world, State());
        var step := TakeStep();
        steps := steps + 1;
        match step
        case Acted(_) =>
        case TimeAdvanced(_, _) =>
        case Quiescent(snapshot) => return EndQuiescent(snapshot), steps;
        case Finished(snapshot) => return EndCompleted(snapshot), steps;
        case Error(error) => return EndError(error), steps;
      }
    }

    /** Quiescence before every duty has stopped is a deadlock. */
    method RunToCompletion() returns (r: Result<Snapshot, RunError>)
      requires Inv(Now())
      modifies this, timeline
      ensures Inv(Now())
      ensures r.Ok? <==> RunToQuiescence(world, old(State())).1.EndCompleted?
      ensures r.Ok? ==> CleanlyCompleted(Now())
      ensures r.Err? && r.error.Deadlock? ==> AtRest(Now())
      ensures r.Err? && r.error.StepFailed? ==> ReachableError(r.error.error) && phase != Active
    {
      hide Inv, RunToQuiescence;
      RunReturns(world, State());
      var end, _ := RunUntilQuiescent();
      match end
      case EndCompleted(snapshot) => return Ok(snapshot);
      case EndQuiescent(snapshot) => return Err(Deadlock(snapshot));
      case EndError(error) => return Err(StepFailed(error));
    }
  }

  /** Construction from parts: refuses too many duties, a start beyond the ceiling, or a ready set too large to address. */
  method WithParts<S(!new), N(!new)>(
      id: U64, now: Moment, model: Model, topology: Topology, limits: Limits, maxEvents: nat, maxBytes: U64,
      measure: Event -> U64, world: World<S, N>, scheduler: S, monitor: N) returns (r: Result<Simulation<S, N>, BuildFailure>)
    ensures match Build(id, now, model, topology, limits, maxEvents, maxBytes, measure)
            case Err(failure) => r == Err(failure)
            case Ok(core) => r.Ok? && r.value.State() == Sim(core, scheduler, monitor) && Inv(core)
  {
    var built := Build(id, now, model, topology, limits, maxEvents, maxBytes, measure);
    if built.Err? {
      return Err(built.error);
    }
    var simulation := new Simulation(id, now, model, topology, limits, maxEvents, maxBytes, measure, world, scheduler, monitor);
    return Ok(simulation);
  }
}
