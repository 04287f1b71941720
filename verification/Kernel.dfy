/** The deterministic simulation kernel: ready sets, scheduling, execution and time advance. */
module Kernel {
  import opened Base
  import opened Consumer
  import opened Timelines
  import opened Contexts
  import opened Actions
  import opened Schedulers

  datatype Phase = Active | Completed | Failed

  datatype DutyState = DutyState(next: Next, turns: U64, deliveries: U64)

  datatype Limits = Limits(maxDuties: nat, context: ContextLimits, totalActions: U64, actionsPerMoment: U64)

  predicate StrictlyAscending(duties: seq<DutyId>) {
    forall i, j :: 0 <= i < j < |duties| ==> duties[i] < duties[j]
  }

  /** Sorted, duplicate-free, nonempty duty identities. */
  type Topology = duties: seq<DutyId> | duties != [] && StrictlyAscending(duties) witness [0]

  /** Everything the kernel owns except scheduler and monitor state. */
  datatype Core = Core(
    model: Model,
    topology: Topology,
    states: map<DutyId, DutyState>,
    stopped: set<DutyId>,
    timeline: TimelineState,
    limits: Limits,
    phase: Phase,
    nextAction: Option<ActionId>,
    actions: U64,
    actionsAtMoment: U64)

  datatype Sim<S, N> = Sim(core: Core, scheduler: S, monitor: N)

  datatype Snapshot = Snapshot(
    phase: Phase, now: Moment, duties: nat, stopped: nat, pending: nat, retained: U64,
    nextAt: Option<Moment>, actions: U64, actionsAtMoment: U64)

  datatype View = View(model: Model, topology: Topology, states: map<DutyId, DutyState>, snapshot: Snapshot)

  datatype MonitorError = TraceCapacity(limit: nat) | Rejected(reason: Rejection)

  /** Consumer code: one callback per owner turn and per delivery. */
  datatype ModelCode = ModelCode(
    turn: (Model, DutyId, Moment, ActionId) -> Callback,
    deliver: (Model, DutyId, EventToken, Event, ActionId) -> Callback)

  datatype World<!S, !N> = World(
    code: ModelCode,
    policy: Policy<S>,
    watch: (N, View, ActionRecord) -> (N, Option<MonitorError>))

  datatype KernelFailure =
    | UnknownDeliveryTarget(token: EventToken, target: DutyId)
    | DeliveryTargetsStopped(token: EventToken, target: DutyId)
    | DeliveryTargetMismatch(token: EventToken, expected: DutyId, actual: DutyId)
    | TimelineLostEvent(token: EventToken)
    | StoppedWithPending(duty: DutyId, pending: nat)
    | ActionIdsExhausted
    | NoFutureProgress(now: Moment)

  datatype LimitFailure =
    | TotalActions(limit: U64)
    | ActionsAtMoment(at: Moment, limit: U64)
    | VirtualTime(next: Moment, ceiling: Moment)

  datatype StepError =
    | ModelFailed(action: ActionMeta, source: ModelError)
    | MonitorFailed(action: ActionMeta, rejection: MonitorError)
    | SchedulerFailed(failure: SchedulerError)
    | InvalidSelection(key: ActionKey)
    | KernelFailed(kernel: KernelFailure)
    | LimitReached(limit: LimitFailure)
    | Inactive(phase: Phase)

  datatype Step =
    | Acted(record: ActionRecord)
    | TimeAdvanced(from: Moment, to: Moment)
    | Quiescent(snapshot: Snapshot)
    | Finished(snapshot: Snapshot)
    | Error(error: StepError)

  // ----- Invariant -----

  function DutySet(duties: seq<DutyId>): set<DutyId> {
    set d | d in duties
  }

  function StoppedOf(states: map<DutyId, DutyState>): set<DutyId> {
    set d | d in states && states[d].next.Stop?
  }

  /** A pending event targets a live duty, lies below the time ceiling and was caused by an earlier action. */
  ghost predicate EventOk(topology: Topology, stopped: set<DutyId>, ceiling: Moment, actions: U64, at: Moment, routed: Routed) {
    && routed.target in topology && routed.target !in stopped
    && at <= ceiling
    && (routed.cause.Some? ==> routed.cause.value < actions)
  }

  ghost predicate EventsOk(events: map<EventKey, Entry>, topology: Topology, stopped: set<DutyId>, ceiling: Moment, actions: U64) {
    forall k :: k in events ==> EventOk(topology, stopped, ceiling, actions, k.at, events[k].routed)
  }

  ghost predicate CountersOk(core: Core) {
    && core.nextAction == Some(core.actions)
    && core.actions <= core.limits.totalActions
    && core.actionsAtMoment <= core.limits.actionsPerMoment
  }

  /** What every step and injection keeps. */
  ghost predicate Inv(core: Core) {
    && Valid(core.timeline)
    && core.timeline.now <= core.limits.context.maxTime
    && core.states.Keys == DutySet(core.topology)
    && core.stopped == StoppedOf(core.states)
    && EventsOk(core.timeline.events, core.topology, core.stopped, core.limits.context.maxTime, core.actions)
    && CountersOk(core)
  }

  function Clock(core: Core): Moment {
    core.timeline.now
  }

  function Fail(core: Core): Core {
    core.(phase := Failed)
  }

  // ----- Construction and injection -----

  datatype BuildFailure =
    | DutyCapacity(limit: nat, actual: nat)
    | InitialTimeBeyondLimit(initial: Moment, ceiling: Moment)
    | ReadyCapacityOverflow(duties: nat, events: nat)

  function Build(id: U64, now: Moment, model: Model, topology: Topology, limits: Limits,
                 maxEvents: nat, maxBytes: U64, measure: Event -> U64): (r: Result<Core, BuildFailure>)
  {
    if |topology| > limits.maxDuties then Err(DutyCapacity(limits.maxDuties, |topology|))
    else if now > limits.context.maxTime then Err(InitialTimeBeyondLimit(now, limits.context.maxTime))
    else if |topology| + maxEvents > U64_MAX then Err(ReadyCapacityOverflow(|topology|, maxEvents))
    else
      Ok(Core(model, topology, map d | d in topology :: DutyState(Next.Now, 0, 0), {},
              Empty(id, now, maxEvents, maxBytes, measure), limits, Active, Some(0), 0, 0))
  }

  datatype InjectionFailure =
    | InjectInactive(phase: Phase)
    | InjectUnknownTarget(target: DutyId)
    | InjectTargetStopped(target: DutyId)
    | InjectBeyondTimeLimit(requested: Moment, ceiling: Moment)
    | InjectTimeline(failure: ScheduleFailure)

  function InjectAt(core: Core, target: DutyId, at: Moment, event: Event): (r: (Core, Result<EventToken, InjectionFailure>))
  {
    if core.phase != Active then (core, Err(InjectInactive(core.phase)))
    else if target !in core.topology then (core, Err(InjectUnknownTarget(target)))
    else if target in core.stopped then (core, Err(InjectTargetStopped(target)))
    else if at > core.limits.context.maxTime then (core, Err(InjectBeyondTimeLimit(at, core.limits.context.maxTime)))
    else
      var (t, r) := ScheduleAt(core.timeline, at, Routed(target, None, event));
      match r
      case Ok(token) => (core.(timeline := t), Ok(token))
      case Err(failure) => (core, Err(InjectTimeline(failure)))
  }

  // ----- Ready set -----

  predicate Runnable(state: DutyState, now: Moment) {
    match state.next
    case Now => true
    case WakeOr(deadline) => deadline <= now
    case Wake => false
    case Stop => false
  }

  /** Due deliveries in timeline order, refusing unknown or stopped targets. */
  function DueDeliveries(core: Core, keys: seq<EventKey>): (r: Result<seq<ActionKey>, KernelFailure>)
    requires forall k :: k in keys ==> k in core.timeline.events
    decreases |keys|
  {
    if keys == [] then Ok([])
    else
      var token := TokenOf(core.timeline, keys[0]);
      var target := core.timeline.events[keys[0]].routed.target;
      if target !in core.topology then Err(UnknownDeliveryTarget(token, target))
      else if target in core.stopped then Err(DeliveryTargetsStopped(token, target))
      else
        match DueDeliveries(core, keys[1..])
        case Err(failure) => Err(failure)
        case Ok(rest) => Ok([ActionKey(target, Delivery(token))] + rest)
  }

  /** Runnable owners in duty order. */
  function DueTurns(core: Core, duties: seq<DutyId>): (r: seq<ActionKey>)
    requires forall d :: d in duties ==> d in core.states
  {
    if duties == [] then []
    else (if Runnable(core.states[duties[0]], Clock(core)) then [ActionKey(duties[0], OwnerTurn)] else [])
         + DueTurns(core, duties[1..])
  }

  function BuildReady(core: Core): (r: Result<seq<ActionKey>, KernelFailure>)
    requires core.states.Keys == DutySet(core.topology)
  {
    match DueDeliveries(core, KeysAt(core.timeline, Clock(core)))
    case Err(failure) => Err(failure)
    case Ok(deliveries) => Ok(deliveries + DueTurns(core, core.topology))
  }

  /** Which actions the current state enables. */
  ghost predicate Enabled(core: Core, key: ActionKey) {
    match key.kind
    case OwnerTurn => key.duty in core.states && Runnable(core.states[key.duty], Clock(core))
    case Delivery(token) =>
      && Lookup(core.timeline, token).Some? && token.at == Clock(core)
      && core.timeline.events[KeyOf(token)].routed.target == key.duty
  }

  // ----- Execution -----

  function Saturating(n: U64): U64 {
    if n == U64_MAX then n else n + 1
  }

  function UpdateOwner(core: Core, duty: DutyId, turn: Turn, delivery: bool): Core
    requires duty in core.states
  {
    var state := core.states[duty];
    var next := if delivery then state.(next := turn.next, deliveries := Saturating(state.deliveries))
                else state.(next := turn.next, turns := Saturating(state.turns));
    core.(states := core.states[duty := next],
          stopped := if turn.next.Stop? then core.stopped + {duty} else core.stopped)
  }

  /** Runs one callback over timeline `t` and commits it, or drops its context. */
  ghost function Invoke(core: Core, t: TimelineState, callback: Callback, meta: ActionMeta): (r: (Core, Result<ActionRecord, StepError>))
    requires Valid(t) && meta.key.duty in core.states
  {
    var c := Begin(t, core.topology, core.stopped, meta.id, core.limits.context);
    BeginStaged(t, core.topology, core.stopped, meta.id, core.limits.context);
    var returned := RunCallback(t, c, callback, []);
    var after := returned.context;
    var dropped := Fail(core.(model := returned.model, timeline := RolledBack(t, after)));
    match returned.outcome
    case Err(source) => (dropped, Err(ModelFailed(meta, source)))
    case Ok(turn) =>
      var pending := PendingFor(after.timeline, meta.key.duty);
      if turn.next.Stop? && pending != 0 then
        (dropped, Err(KernelFailed(StoppedWithPending(meta.key.duty, pending))))
      else
        (UpdateOwner(core.(model := returned.model, timeline := after.timeline), meta.key.duty, turn, meta.key.kind.Delivery?),
         Ok(ActionRecord(meta, turn, after.observations)))
  }

  /** Executes the selected action. */
  ghost function Execute(code: ModelCode, core: Core, key: ActionKey, id: ActionId): (r: (Core, Result<ActionRecord, StepError>))
    requires Valid(core.timeline) && key.duty in core.states
  {
    match key.kind
    case OwnerTurn =>
      Invoke(core, core.timeline, code.turn(core.model, key.duty, Clock(core), id), ActionMeta(id, key, Clock(core), None))
    case Delivery(token) =>
      CancelEffect(core.timeline, token);
      var (t, removed) := Cancel(core.timeline, token);
      match removed
      case None => (Fail(core), Err(KernelFailed(TimelineLostEvent(token))))
      case Some(routed) =>
        if routed.target != key.duty then
          (Fail(core.(timeline := t)), Err(KernelFailed(DeliveryTargetMismatch(token, key.duty, routed.target))))
        else
          Invoke(core, t, code.deliver(core.model, key.duty, token, routed.event, id), ActionMeta(id, key, Clock(core), routed.cause))
  }

  function SnapshotOf(core: Core): Snapshot {
    Snapshot(core.phase, Clock(core), |core.topology|, |core.stopped|, |core.timeline.events|, core.timeline.retained,
             NextAt(core.timeline), core.actions, core.actionsAtMoment)
  }

  /** Post-commit validation by the scheduler, then by the monitor. */
  function Finish<S, N>(world: World<S, N>, sim: Sim<S, N>, record: ActionRecord): (r: (Sim<S, N>, Step))
  {
    var (scheduler, refused) := world.policy.committed(sim.scheduler, record.meta, record.turn);
    var sim1 := sim.(scheduler := scheduler);
    if refused.Some? then (sim1.(core := Fail(sim.core)), Error(SchedulerFailed(refused.value)))
    else
      var view := View(sim.core.model, sim.core.topology, sim.core.states, SnapshotOf(sim.core));
      var (monitor, rejected) := world.watch(sim.monitor, view, record);
      var sim2 := sim1.(monitor := monitor);
      if rejected.Some? then (sim2.(core := Fail(sim.core)), Error(MonitorFailed(record.meta, rejected.value)))
      else (sim2, Acted(record))
  }

  // ----- Time -----

  function NextDeadline(core: Core, duties: seq<DutyId>): (r: Option<Moment>)
    requires forall d :: d in duties ==> d in core.states
    ensures r.Some? ==> exists d :: d in duties && core.states[d].next == WakeOr(r.value)
    ensures forall d :: d in duties && core.states[d].next.WakeOr? ==> r.Some? && r.value <= core.states[d].next.deadline
  {
    if duties == [] then None
    else
      var rest := NextDeadline(core, duties[1..]);
      assert forall d :: d in duties <==> d == duties[0] || d in duties[1..];
      var next := core.states[duties[0]].next;
      if next.WakeOr? then Earliest(Some(next.deadline), rest) else rest
  }

  function Earliest(left: Option<Moment>, right: Option<Moment>): Option<Moment> {
    match (left, right)
    case (Some(a), Some(b)) => Some(if a <= b then a else b)
    case (Some(a), None) => Some(a)
    case (None, b) => b
  }

  function AdvanceOrFinish<S, N>(world: World<S, N>, sim: Sim<S, N>): (r: (Sim<S, N>, Step))
    requires sim.core.states.Keys == DutySet(sim.core.topology)
  {
    var core := sim.core;
    if |core.stopped| == |core.topology| then
      if core.timeline.events != map[] then
        assert core.timeline.events.Keys != {};
        var first := FirstKey(core.timeline.events.Keys);
        (sim.(core := Fail(core)),
         Error(KernelFailed(DeliveryTargetsStopped(TokenOf(core.timeline, first), core.timeline.events[first].routed.target))))
      else
        var (scheduler, refused) := world.policy.finished(sim.scheduler);
        if refused.Some? then (Sim(Fail(core), scheduler, sim.monitor), Error(SchedulerFailed(refused.value)))
        else
          var completed := core.(phase := Completed);
          (Sim(completed, scheduler, sim.monitor), Finished(SnapshotOf(completed)))
    else
      match Earliest(NextAt(core.timeline), NextDeadline(core, core.topology))
      case None => (sim, Quiescent(SnapshotOf(core)))
      case Some(next) =>
        if next <= Clock(core) then (sim.(core := Fail(core)), Error(KernelFailed(NoFutureProgress(Clock(core)))))
        else if next > core.limits.context.maxTime then
          (sim.(core := Fail(core)), Error(LimitReached(VirtualTime(next, core.limits.context.maxTime))))
        else
          (sim.(core := core.(timeline := core.timeline.(now := next), actionsAtMoment := 0)), TimeAdvanced(Clock(core), next))
  }

  // ----- One step -----

  /** The core once an action identity is allocated and the action counted. */
  function Allocated(core: Core): Core
    requires core.nextAction.Some? && core.actions < U64_MAX && core.actionsAtMoment < U64_MAX
  {
    core.(nextAction := CheckedAdd(core.nextAction.value, 1), actions := core.actions + 1, actionsAtMoment := core.actionsAtMoment + 1)
  }

  /** Executes a chosen action and validates its commit. */
  ghost function Act<S, N>(world: World<S, N>, sim: Sim<S, N>, key: ActionKey): (r: (Sim<S, N>, Step))
    requires Valid(sim.core.timeline) && key.duty in sim.core.states
    requires sim.core.actions < U64_MAX && sim.core.actionsAtMoment < U64_MAX
  {
    if sim.core.nextAction.None? then (sim.(core := Fail(sim.core)), Error(KernelFailed(ActionIdsExhausted)))
    else
      var (core, result) := Execute(world.code, Allocated(sim.core), key, sim.core.nextAction.value);
      match result
      case Err(error) => (sim.(core := core), Error(error))
      case Ok(record) => Finish(world, sim.(core := core), record)
  }

  lemma {:induction false} DueDeliveriesAreDue(core: Core, keys: seq<EventKey>, key: ActionKey)
    requires forall k :: k in keys ==> k in core.timeline.events
    ensures var r := DueDeliveries(core, keys);
            r.Ok? ==> (key in r.value <==>
                         && key.kind.Delivery? && key.kind.token.timeline == core.timeline.id
                         && KeyOf(key.kind.token) in keys
                         && key.duty == core.timeline.events[KeyOf(key.kind.token)].routed.target)
    ensures var r := DueDeliveries(core, keys); r.Ok? && key in r.value ==> key.duty in core.topology
  {
    if keys != [] {
      DueDeliveriesAreDue(core, keys[1..], key);
      assert keys == [keys[0]] + keys[1..];
    }
  }

  lemma {:induction false} DueTurnsAreRunnable(core: Core, duties: seq<DutyId>, key: ActionKey)
    requires forall d :: d in duties ==> d in core.states
    ensures key in DueTurns(core, duties) <==>
              key.kind.OwnerTurn? && key.duty in duties && Runnable(core.states[key.duty], Clock(core))
  {
    if duties != [] {
      DueTurnsAreRunnable(core, duties[1..], key);
      assert duties == [duties[0]] + duties[1..];
    }
  }

  /** The ready set holds exactly the enabled actions. */
  lemma ReadyIsEnabled(core: Core, key: ActionKey)
    requires core.states.Keys == DutySet(core.topology)
    ensures BuildReady(core).Ok? ==> (key in BuildReady(core).value <==> Enabled(core, key))
    ensures BuildReady(core).Ok? && key in BuildReady(core).value ==> key.duty in core.states
  {
    DueDeliveriesAreDue(core, KeysAt(core.timeline, Clock(core)), key);
    DueTurnsAreRunnable(core, core.topology, key);
  }

  ghost function StepOnce<S, N>(world: World<S, N>, sim: Sim<S, N>): (r: (Sim<S, N>, Step))
    requires Inv(sim.core)
  {
    var core := sim.core;
    if core.phase != Active then (sim, Error(Inactive(core.phase)))
    else
      match BuildReady(core)
      case Err(failure) => (sim.(core := Fail(core)), Error(KernelFailed(failure)))
      case Ok(ready) =>
        if ready == [] then AdvanceOrFinish(world, sim)
        else if core.actions >= core.limits.totalActions then
          (sim.(core := Fail(core)), Error(LimitReached(TotalActions(core.limits.totalActions))))
        else if core.actionsAtMoment >= core.limits.actionsPerMoment then
          (sim.(core := Fail(core)), Error(LimitReached(ActionsAtMoment(Clock(core), core.limits.actionsPerMoment))))
        else
          var (scheduler, choice) := world.policy.choose(sim.scheduler, Clock(core), ready);
          var sim1 := sim.(scheduler := scheduler);
          match choice
          case Err(failure) => (sim1.(core := Fail(core)), Error(SchedulerFailed(failure)))
          case Ok(key) =>
            if key !in ready then (sim1.(core := Fail(core)), Error(InvalidSelection(key)))
            else
              ReadyIsEnabled(core, key);
              Act(world, sim1, key)
  }
}
