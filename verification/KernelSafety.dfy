/** The whole-run kernel invariant: what every step and injection keeps, and which failures it excludes. */
module KernelSafety {
  import opened Base
  import opened Consumer
  import opened Timelines
  import opened Contexts
  import opened Actions
  import opened Schedulers
  import opened Kernel

  /** How a core may change across one command: fixed parts fixed, clocks and counters forward, events kept or fresh. */
  ghost predicate Follows(before: Core, after: Core) {
    && after.topology == before.topology && after.limits == before.limits
    && after.timeline.id == before.timeline.id && after.timeline.measure == before.timeline.measure
    && before.timeline.now <= after.timeline.now
    && before.actions <= after.actions
    && IdAdvances(before.timeline.nextId, after.timeline.nextId)
    && before.stopped <= after.stopped
    && (forall k :: k in after.timeline.events ==> KeptOrFresh(before.timeline, k))
  }

  ghost predicate KeptOrFresh(t: TimelineState, k: EventKey) {
    k in t.events || (t.now <= k.at && t.nextId.Some? && t.nextId.value <= k.id)
  }

  lemma BuildEstablishesInv(id: U64, now: Moment, model: Model, topology: Topology, limits: Limits,
                            maxEvents: nat, maxBytes: U64, measure: Event -> U64)
    ensures var r := Build(id, now, model, topology, limits, maxEvents, maxBytes, measure);
            && (r.Ok? <==> |topology| <= limits.maxDuties && now <= limits.context.maxTime && |topology| + maxEvents <= U64_MAX)
            && (r == Err(DutyCapacity(limits.maxDuties, |topology|)) <==> |topology| > limits.maxDuties)
            && (r == Err(InitialTimeBeyondLimit(now, limits.context.maxTime)) <==>
                  |topology| <= limits.maxDuties && now > limits.context.maxTime)
            && (r == Err(ReadyCapacityOverflow(|topology|, maxEvents)) <==>
                  |topology| <= limits.maxDuties && now <= limits.context.maxTime && |topology| + maxEvents > U64_MAX)
            && (r.Ok? ==>
                  && r.value.model == model && r.value.topology == topology && r.value.limits == limits
                  && r.value.timeline.id == id && r.value.timeline.measure == measure
                  && r.value.timeline.maxEvents == maxEvents && r.value.timeline.maxBytes == maxBytes
                  && Inv(r.value) && r.value.phase == Active
                  && r.value.timeline.now == now && r.value.timeline.events == map[]
                  && r.value.stopped == {} && r.value.actions == 0
                  && forall d :: d in r.value.states ==> r.value.states[d] == DutyState(Next.Now, 0, 0))
  {
  }

  lemma InjectKeepsInv(core: Core, target: DutyId, at: Moment, event: Event)
    requires Inv(core)
    ensures var (core', r) := InjectAt(core, target, at, event);
            && Inv(core') && Follows(core, core')
            && (r.Ok? <==>
                  && core.phase == Active && target in core.topology && target !in core.stopped
                  && core.timeline.now <= at <= core.limits.context.maxTime
                  && ScheduleAt(core.timeline, at, Routed(target, None, event)).1.Ok?)
            && (r.Err? ==> core' == core)
            && core' == core.(timeline := core'.timeline) && core'.timeline.now == core.timeline.now
            && (r.Ok? ==> target in core.topology && target !in core.stopped
                          && core.timeline.now <= at <= core.limits.context.maxTime
                          && KeyOf(r.value).at == at && r.value.timeline == core.timeline.id
                          && core'.timeline.events
                             == core.timeline.events[KeyOf(r.value) := Entry(Routed(target, None, event), core.timeline.measure(event))])
  {
    ScheduleAtEffect(core.timeline, at, Routed(target, None, event));
  }

  /** The cause of each refused injection, the first in order of the checks. */
  ghost predicate InjectRefusedBecause(core: Core, target: DutyId, at: Moment, event: Event, failure: InjectionFailure) {
    var active := core.phase == Active;
    var live := active && target in core.topology && target !in core.stopped;
    match failure
    case InjectInactive(phase) => phase == core.phase && !active
    case InjectUnknownTarget(duty) => active && duty == target && target !in core.topology
    case InjectTargetStopped(duty) => active && duty == target && target in core.topology && target in core.stopped
    case InjectBeyondTimeLimit(requested, ceiling) =>
      live && requested == at && ceiling == core.limits.context.maxTime && at > ceiling
    case InjectTimeline(reason) =>
      live && at <= core.limits.context.maxTime && RefusedBecause(core.timeline, at, core.timeline.measure(event), reason)
  }

  /**
   * An injection that is admitted schedules exactly the given event for the given duty at the given
   * moment, caused by no action, under the next identity; every refusal has exactly its own cause.
   */
  lemma InjectIsExact(core: Core, target: DutyId, at: Moment, event: Event)
    requires Inv(core)
    ensures var (core', r) := InjectAt(core, target, at, event);
            var bytes := core.timeline.measure(event);
            && (r.Ok? ==>
                  && core.timeline.nextId.Some?
                  && r.value == EventToken(core.timeline.id, core.timeline.nextId.value, at)
                  && core'.timeline.events
                     == core.timeline.events[EventKey(at, core.timeline.nextId.value) := Entry(Routed(target, None, event), bytes)]
                  && core'.timeline.nextId == (if core.timeline.nextId.value < U64_MAX then Some(core.timeline.nextId.value + 1) else None)
                  && core'.timeline.retained == core.timeline.retained + bytes
                  && core' == core.(timeline := core'.timeline) && SameFrame(core.timeline, core'.timeline))
            && (forall failure: InjectionFailure :: r == Err(failure) <==> InjectRefusedBecause(core, target, at, event, failure))
  {
    hide ScheduleAt, RefusedBecause, Total, EventsOk, CountersOk;
    var routed := Routed(target, None, event);
    ScheduleAtEffect(core.timeline, at, routed);
    ScheduleKeepsBytes(core.timeline, at, routed);
    forall reason: ScheduleFailure
      ensures ScheduleAt(core.timeline, at, routed).1 == Err(reason) <==>
                RefusedBecause(core.timeline, at, core.timeline.measure(event), reason)
    {
      ScheduleRefusalIsTrue(core.timeline, at, routed, reason);
    }
  }

  lemma ScheduleKeepsBytes(t: TimelineState, at: Moment, routed: Routed)
    ensures var (t', r) := ScheduleAt(t, at, routed); r.Ok? ==> t'.retained == t.retained + t.measure(routed.event)
  {
  }

  lemma LaterEventsOk(events: map<EventKey, Entry>, topology: Topology, stopped: set<DutyId>, ceiling: Moment, actions: U64, later: U64)
    requires EventsOk(events, topology, stopped, ceiling, actions) && actions <= later
    ensures EventsOk(events, topology, stopped, ceiling, later)
  {
    forall k | k in events ensures EventOk(topology, stopped, ceiling, later, k.at, events[k].routed) {
      assert EventOk(topology, stopped, ceiling, actions, k.at, events[k].routed);
    }
  }

  lemma AllocatedKeepsInv(core: Core, key: ActionKey)
    requires Inv(core) && core.actions < core.limits.totalActions && core.actionsAtMoment < core.limits.actionsPerMoment
    ensures core.nextAction == Some(core.actions)
    ensures var counted := Allocated(core);
            && Inv(counted) && (Enabled(core, key) ==> Enabled(counted, key))
            && (forall after :: Follows(counted, after) ==> Follows(core, after))
            && counted.limits == core.limits && counted.states == core.states && counted.timeline == core.timeline
            && counted.actions == core.actions + 1 && counted.phase == core.phase
  {
    hide Valid;
    LaterEventsOk(core.timeline.events, core.topology, core.stopped, core.limits.context.maxTime, core.actions, core.actions + 1);
  }

  /** Events of a committed callback satisfy the invariant again. */
  lemma CommittedEventsOk(first: ContextState, after: ContextState, topology: Topology, actions: U64)
    requires EventsOk(first.timeline.events, topology, first.stopped, first.limits.maxTime, actions)
    requires first.topology == topology && first.action < actions
    requires Continues(first, after)
    ensures EventsOk(after.timeline.events, topology, first.stopped, first.limits.maxTime, actions)
  {
    forall k | k in after.timeline.events
      ensures EventOk(topology, first.stopped, first.limits.maxTime, actions, k.at, after.timeline.events[k].routed)
    {
      assert k in first.timeline.events ==>
          EventOk(topology, first.stopped, first.limits.maxTime, actions, k.at, first.timeline.events[k].routed);
    }
  }

  /** Recording the new interest of a live duty keeps the invariant, given that a stopping duty has nothing pending. */
  lemma UpdateOwnerKeepsInv(core: Core, duty: DutyId, turn: Turn, delivery: bool)
    requires Inv(core) && duty in core.states && duty !in core.stopped
    requires turn.next.Stop? ==> PendingFor(core.timeline, duty) == 0
    ensures Inv(UpdateOwner(core, duty, turn, delivery))
  {
    hide Valid;
    var next := UpdateOwner(core, duty, turn, delivery);
    var events := core.timeline.events;
    var ceiling := core.limits.context.maxTime;
    assert next.stopped == StoppedOf(next.states);
    var targeting := set k | k in events && events[k].routed.target == duty;
    forall k | k in events ensures EventOk(core.topology, next.stopped, ceiling, core.actions, k.at, events[k].routed) {
      assert EventOk(core.topology, core.stopped, ceiling, core.actions, k.at, events[k].routed);
      assert turn.next.Stop? ==> k !in targeting;
    }
  }

  /** The callback of one action, run on its own context. */
  ghost function Called(core: Core, t: TimelineState, callback: Callback, id: ActionId): (r: Returned)
    requires Valid(t)
    ensures Staged(t, r.context)
  {
    BeginStaged(t, core.topology, core.stopped, id, core.limits.context);
    RunCallback(t, Begin(t, core.topology, core.stopped, id, core.limits.context), callback, [])
  }

  lemma CallContinues(core: Core, t: TimelineState, callback: Callback, id: ActionId)
    requires Inv(core.(timeline := t))
    ensures Valid(t)
    ensures var first := Begin(t, core.topology, core.stopped, id, core.limits.context);
            var after := Called(core, t, callback, id).context;
            Continues(first, after) && Valid(after.timeline) && IdAdvances(t.nextId, after.timeline.nextId)
  {
    var first := Begin(t, core.topology, core.stopped, id, core.limits.context);
    BeginStaged(t, core.topology, core.stopped, id, core.limits.context);
    RunContinues(t, first, first, callback, []);
  }

  /** The only ways an action may fail before its commit. */
  ghost predicate ActionFailure(error: StepError) {
    error.ModelFailed? || (error.KernelFailed? && error.kernel.StoppedWithPending?)
  }

  lemma InvokeKeepsInv(core: Core, t: TimelineState, callback: Callback, meta: ActionMeta)
    requires Inv(core.(timeline := t)) && SameFrame(core.timeline, t)
    requires meta.id < core.actions && meta.key.duty in core.states && meta.key.duty !in core.stopped
    ensures var (core', r) := Invoke(core, t, callback, meta);
            && Inv(core') && Follows(core.(timeline := t), core')
            && core'.actions == core.actions && core'.actionsAtMoment == core.actionsAtMoment
            && core'.timeline.now == t.now
            && (r.Ok? ==> core'.phase == core.phase && r.value.meta == meta
                          && core'.states == core.states[meta.key.duty := core'.states[meta.key.duty]])
            && (r.Err? ==> ActionFailure(r.error) && core'.phase == Failed)
  {
    hide Valid, Layered, Continues, Staged, RunCallback, Inv, Follows, UpdateOwner;
    var first := Begin(t, core.topology, core.stopped, meta.id, core.limits.context);
    InvValid(core.(timeline := t));
    var returned := Called(core, t, callback, meta.id);
    var after := returned.context;
    CallContinues(core, t, callback, meta.id);
    DroppedKeepsInv(core, t, after, returned.model);
    if returned.outcome.Ok? {
      var turn := returned.outcome.value;
      if !(turn.next.Stop? && PendingFor(after.timeline, meta.key.duty) != 0) {
        CommittedKeepsInv(core, first, after, returned.model, meta.key.duty, turn, meta.key.kind.Delivery?);
      }
    }
  }

  /** A dropped context leaves the timeline of its creation behind. */
  lemma DroppedKeepsInv(core: Core, t: TimelineState, after: ContextState, model: Model)
    requires Inv(core.(timeline := t)) && IdAdvances(t.nextId, after.timeline.nextId)
    ensures var dropped := Fail(core.(model := model, timeline := RolledBack(t, after)));
            Inv(dropped) && Follows(core.(timeline := t), dropped)
  {
    RolledBackKeepsValid(t, after);
    hide Valid;
  }

  /** A committed context adds only events the invariant accepts. */
  lemma CommittedKeepsInv(core: Core, first: ContextState, after: ContextState, model: Model, duty: DutyId, turn: Turn, delivery: bool)
    requires Inv(core.(timeline := first.timeline)) && Valid(after.timeline)
    requires first == Begin(first.timeline, core.topology, core.stopped, first.action, core.limits.context)
    requires first.action < core.actions && Continues(first, after)
    requires duty in core.states && duty !in core.stopped
    requires turn.next.Stop? ==> PendingFor(after.timeline, duty) == 0
    ensures var core' := UpdateOwner(core.(model := model, timeline := after.timeline), duty, turn, delivery);
            && Inv(core') && Follows(core.(timeline := first.timeline), core')
            && core'.actions == core.actions && core'.actionsAtMoment == core.actionsAtMoment
            && core'.timeline.now == first.timeline.now && core'.phase == core.phase
            && core'.states == core.states[duty := core'.states[duty]]
  {
    CommittedEventsOk(first, after, core.topology, core.actions);
    ContinuesKeepsOrFreshens(first, after);
    hide Valid;
    UpdateOwnerKeepsInv(core.(model := model, timeline := after.timeline), duty, turn, delivery);
  }

  lemma ContinuesKeepsOrFreshens(first: ContextState, after: ContextState)
    requires Continues(first, after)
    ensures forall k :: k in after.timeline.events ==> KeptOrFresh(first.timeline, k)
  {
  }

  lemma RolledBackKeepsValid(t: TimelineState, after: ContextState)
    requires Valid(t) && IdAdvances(t.nextId, after.timeline.nextId)
    ensures Valid(RolledBack(t, after))
  {
  }

  lemma EventTargetsLive(core: Core, k: EventKey)
    requires Inv(core) && k in core.timeline.events
    ensures var routed := core.timeline.events[k].routed;
            && routed.target in core.states && routed.target !in core.stopped
            && core.timeline.now <= k.at <= core.limits.context.maxTime
            && (routed.cause.Some? ==> routed.cause.value < core.actions)
  {
    var routed := core.timeline.events[k].routed;
    assert EventOk(core.topology, core.stopped, core.limits.context.maxTime, core.actions, k.at, routed);
  }

  lemma CancelKeepsInv(core: Core, token: EventToken)
    requires Inv(core)
    ensures Lookup(core.timeline, token).Some? ==> core.timeline.events[KeyOf(token)].retained <= core.timeline.retained
    ensures Inv(core.(timeline := Cancel(core.timeline, token).0))
  {
    CancelEffect(core.timeline, token);
    hide Valid;
    var events := Cancel(core.timeline, token).0.events;
    forall k | k in events
      ensures EventOk(core.topology, core.stopped, core.limits.context.maxTime, core.actions, k.at, events[k].routed)
    {
      assert EventOk(core.topology, core.stopped, core.limits.context.maxTime, core.actions, k.at, core.timeline.events[k].routed);
    }
  }

  /** Executing an enabled action keeps the invariant; its target is never lost, mismatched or stopped. */
  lemma ExecuteKeepsInv(code: ModelCode, core: Core, key: ActionKey, id: ActionId)
    requires Inv(core) && Enabled(core, key) && id < core.actions
    ensures key.duty in core.states && key.duty !in core.stopped
    ensures var (core', r) := Execute(code, core, key, id);
            && Inv(core') && Follows(core, core')
            && core'.actions == core.actions && core'.actionsAtMoment == core.actionsAtMoment
            && core'.timeline.now == core.timeline.now
            && (r.Ok? ==> core'.phase == core.phase && r.value.meta.key == key && r.value.meta.at == core.timeline.now
                          && core'.states == core.states[key.duty := core'.states[key.duty]]
                          && r.value.meta.id == id)
            && (r.Err? ==> ActionFailure(r.error) && core'.phase == Failed)
            && (key.kind.Delivery? ==> KeyOf(key.kind.token) !in core'.timeline.events)
  {
    match key.kind
    case OwnerTurn =>
      assert core == core.(timeline := core.timeline);
      InvokeKeepsInv(core, core.timeline, code.turn(core.model, key.duty, Clock(core), id), ActionMeta(id, key, Clock(core), None));
    case Delivery(token) =>
      EventTargetsLive(core, KeyOf(token));
      CancelKeepsInv(core, token);
      CancelEffect(core.timeline, token);
      var (t, removed) := Cancel(core.timeline, token);
      var routed := removed.value;
      var meta := ActionMeta(id, key, Clock(core), routed.cause);
      InvokeKeepsInv(core, t, code.deliver(core.model, key.duty, token, routed.event, id), meta);
      assert IdBelow(token.id, t.nextId);
      assert forall k :: KeptOrFresh(t, k) ==> KeptOrFresh(core.timeline, k);
  }

  // ----- Ready sets under the invariant -----

  lemma {:induction false} DueDeliveriesSucceed(core: Core, keys: seq<EventKey>)
    requires Inv(core) && forall k :: k in keys ==> k in core.timeline.events
    ensures DueDeliveries(core, keys).Ok? && |DueDeliveries(core, keys).value| == |keys|
    ensures forall i :: 0 <= i < |keys| ==>
              DueDeliveries(core, keys).value[i] ==
              ActionKey(core.timeline.events[keys[i]].routed.target, Delivery(TokenOf(core.timeline, keys[i])))
  {
    if keys != [] {
      EventTargetsLive(core, keys[0]);
      hide Inv;
      DueDeliveriesSucceed(core, keys[1..]);
    }
  }

  /** Neither ready-set failure can occur. */
  lemma ReadySucceeds(core: Core)
    requires Inv(core)
    ensures BuildReady(core).Ok?
  {
    DueDeliveriesSucceed(core, KeysAt(core.timeline, Clock(core)));
  }

  lemma {:induction false} DueTurnsCanonical(core: Core, duties: seq<DutyId>)
    requires StrictlyAscending(duties) && forall d :: d in duties ==> d in core.states
    ensures Canonical(DueTurns(core, duties))
    ensures forall i :: 0 <= i < |DueTurns(core, duties)| ==>
              DueTurns(core, duties)[i].kind.OwnerTurn? && DueTurns(core, duties)[i].duty in duties
  {
    if duties != [] {
      var rest := DueTurns(core, duties[1..]);
      DueTurnsCanonical(core, duties[1..]);
      forall i | 0 <= i < |rest| ensures duties[0] < rest[i].duty {
        var j :| 0 <= j < |duties[1..]| && duties[1..][j] == rest[i].duty;
        assert duties[j + 1] == rest[i].duty;
      }
    }
  }

  /** The ready set is strictly increasing in the canonical order, so sorting and deduplicating it changes nothing. */
  lemma ReadyIsCanonical(core: Core)
    requires Inv(core)
    ensures BuildReady(core).Ok? && Canonical(BuildReady(core).value)
  {
    hide Inv, DueDeliveries, DueTurns, Canonical, KeysAt;
    StatesMatch(core);
    DueDeliveriesCanonical(core);
    DueTurnsCanonical(core, core.topology);
    CanonicalAppend(DueDeliveries(core, KeysAt(core.timeline, Clock(core))).value, DueTurns(core, core.topology));
  }

  lemma StatesMatch(core: Core)
    requires Inv(core)
    ensures core.states.Keys == DutySet(core.topology)
    ensures forall d :: d in core.topology ==> d in core.states
  {
  }

  lemma DueDeliveriesCanonical(core: Core)
    requires Inv(core)
    ensures forall k :: k in KeysAt(core.timeline, Clock(core)) ==> k in core.timeline.events
    ensures var r := DueDeliveries(core, KeysAt(core.timeline, Clock(core)));
            r.Ok? && Canonical(r.value) && forall i :: 0 <= i < |r.value| ==> r.value[i].kind.Delivery?
  {
    hide Inv, DueDeliveries;
    var keys := KeysAt(core.timeline, Clock(core));
    DueDeliveriesSucceed(core, keys);
    var deliveries := DueDeliveries(core, keys).value;
    forall i, j | 0 <= i < j < |deliveries| ensures ActionLess(deliveries[i], deliveries[j]) {
      assert KeyLess(keys[i], keys[j]) && keys[i] in keys && keys[j] in keys;
    }
  }

  lemma CanonicalAppend(deliveries: seq<ActionKey>, turns: seq<ActionKey>)
    requires Canonical(deliveries) && Canonical(turns)
    requires forall i :: 0 <= i < |deliveries| ==> deliveries[i].kind.Delivery?
    requires forall i :: 0 <= i < |turns| ==> turns[i].kind.OwnerTurn?
    ensures Canonical(deliveries + turns)
  {
  }

  /** Whether nothing is enabled now. */
  ghost predicate Idle(core: Core)
    requires core.states.Keys == DutySet(core.topology)
  {
    BuildReady(core) == Ok([])
  }

  lemma IdleMeans(core: Core)
    requires Inv(core)
    ensures Idle(core) <==> forall key :: !Enabled(core, key)
  {
    ReadySucceeds(core);
    var ready := BuildReady(core).value;
    forall key ensures key in ready <==> Enabled(core, key) {
      ReadyIsEnabled(core, key);
    }
    assert ready != [] ==> ready[0] in ready;
  }

  /** An idle world has every event and every deadline strictly in the future. */
  lemma IdleIsFuture(core: Core)
    requires Inv(core) && Idle(core)
    ensures forall k :: k in core.timeline.events ==> Clock(core) < k.at
    ensures forall d :: d in core.states ==> !core.states[d].next.Now?
    ensures forall d :: d in core.states && core.states[d].next.WakeOr? ==> Clock(core) < core.states[d].next.deadline
  {
    IdleMeans(core);
    forall k | k in core.timeline.events ensures Clock(core) < k.at {
      var token := TokenOf(core.timeline, k);
      assert KeyOf(token) == k;
      assert !Enabled(core, ActionKey(core.timeline.events[k].routed.target, Delivery(token)));
    }
    forall d | d in core.states ensures !Runnable(core.states[d], Clock(core)) {
      assert !Enabled(core, ActionKey(d, OwnerTurn));
    }
  }

  // ----- Steps -----

  /** The kernel failures that remain possible: only a duty that stops with deliveries pending. */
  ghost predicate ReachableError(error: StepError) {
    error.KernelFailed? ==> error.kernel.StoppedWithPending?
  }

  lemma {:induction false} DistinctDuties(duties: seq<DutyId>)
    requires StrictlyAscending(duties)
    ensures |DutySet(duties)| == |duties|
  {
    if duties != [] {
      DistinctDuties(duties[1..]);
      assert duties == [duties[0]] + duties[1..];
      assert duties[0] !in duties[1..];
      assert DutySet(duties) - {duties[0]} == DutySet(duties[1..]);
    }
  }

  lemma AllStopped(core: Core)
    requires Inv(core)
    ensures core.states.Keys == DutySet(core.topology) && core.stopped == StoppedOf(core.states)
    ensures |core.stopped| <= |core.topology|
    ensures |core.stopped| == |core.topology| <==> core.stopped == core.states.Keys
    ensures |core.stopped| == |core.topology| ==> core.timeline.events == map[]
  {
    DistinctDuties(core.topology);
    var duties := DutySet(core.topology);
    assert core.stopped <= duties;
    SubsetSize(core.stopped, duties);
    if core.stopped == duties {
      forall k | k in core.timeline.events ensures false {
        EventTargetsLive(core, k);
      }
    }
  }

  lemma SubsetSize(part: set<DutyId>, whole: set<DutyId>)
    requires part <= whole
    ensures |part| <= |whole| && (|part| == |whole| ==> part == whole)
  {
    assert whole == part + (whole - part);
  }

  lemma AdvanceKeepsInv<S, N>(world: World<S, N>, sim: Sim<S, N>)
    requires Inv(sim.core) && Idle(sim.core) && sim.core.phase == Active
    ensures var (sim', step) := AdvanceOrFinish(world, sim);
            && Inv(sim'.core) && Follows(sim.core, sim'.core)
            && sim'.core.states == sim.core.states && sim'.core.actions == sim.core.actions
            && !step.Acted?
            && (step.Error? ==> ReachableError(step.error) && sim'.core.phase == Failed)
            && (step.TimeAdvanced? ==> sim'.core.phase == Active && !Idle(sim'.core) && step.from < step.to)
            && (step.Quiescent? ==> sim' == sim)
            && (step.Finished? ==> sim'.core.phase == Completed && sim'.monitor == sim.monitor)
  {
    hide Inv, Follows, NextAt, NextDeadline, BuildReady;
    var core := sim.core;
    AllStopped(core);
    NextIsFuture(core);
    FailKeepsInv(core);
    CompletedKeepsInv(core);
    var next := Earliest(NextAt(core.timeline), NextDeadline(core, core.topology));
    if next.Some? && next.value <= core.limits.context.maxTime {
      AdvanceIsBusy(core, next.value);
    }
  }

  lemma CompletedKeepsInv(core: Core)
    requires Inv(core)
    ensures Inv(core.(phase := Completed)) && Follows(core, core.(phase := Completed))
  {
    hide Valid;
  }

  lemma NextIsFuture(core: Core)
    requires Inv(core) && Idle(core)
    ensures var next := Earliest(NextAt(core.timeline), NextDeadline(core, core.topology));
            next.Some? ==>
              && Clock(core) < next.value
              && (forall k :: k in core.timeline.events ==> next.value <= k.at)
              && ((exists k :: k in core.timeline.events && k.at == next.value)
                  || (exists d :: d in core.states && core.states[d].next == WakeOr(next.value)))
  {
    hide Valid, EventsOk, CountersOk, BuildReady;
    IdleIsFuture(core);
    if core.timeline.events != map[] {
      var first := FirstKey(core.timeline.events.Keys);
      assert first in core.timeline.events;
    }
  }

  lemma LaterKeepsValid(t: TimelineState, next: Moment)
    requires Valid(t) && t.now <= next && forall k :: k in t.events ==> next <= k.at
    ensures Valid(t.(now := next))
  {
  }

  /** Advancing to the earliest event or deadline enables something there. */
  lemma AdvanceIsBusy(core: Core, next: Moment)
    requires Inv(core) && Idle(core) && next <= core.limits.context.maxTime
    requires Earliest(NextAt(core.timeline), NextDeadline(core, core.topology)) == Some(next)
    ensures var core' := core.(timeline := core.timeline.(now := next), actionsAtMoment := 0);
            Inv(core') && Follows(core, core') && !Idle(core')
  {
    hide Inv, BuildReady, Follows, Enabled;
    NextIsFuture(core);
    LaterKeepsInv(core, next);
    IdleExactly(core.(timeline := core.timeline.(now := next), actionsAtMoment := 0));
  }

  lemma LaterKeepsInv(core: Core, next: Moment)
    requires Inv(core) && core.timeline.now <= next <= core.limits.context.maxTime
    requires forall k :: k in core.timeline.events ==> next <= k.at
    ensures var core' := core.(timeline := core.timeline.(now := next), actionsAtMoment := 0);
            Inv(core') && Follows(core, core')
  {
    LaterKeepsValid(core.timeline, next);
    hide Valid;
  }

  /** No next moment exists exactly when nothing is pending and no duty waits for a deadline. */
  lemma NothingNext(core: Core)
    requires Inv(core)
    ensures Earliest(NextAt(core.timeline), NextDeadline(core, core.topology)).None? <==>
              core.timeline.events == map[] && (forall d :: d in core.states ==> !core.states[d].next.WakeOr?)
  {
  }

  lemma FailKeepsInv(core: Core)
    requires Inv(core)
    ensures Inv(Fail(core)) && Follows(core, Fail(core)) && Follows(core, core)
  {
  }

  /** A committed action: an enabled key, counted once, changing the interest of its own duty only. */
  ghost predicate ActedOn(before: Core, after: Core, record: ActionRecord) {
    && before.phase == Active && after.phase == Active
    && Enabled(before, record.meta.key)
    && record.meta.at == before.timeline.now && record.meta.id == before.actions
    && after.actions == before.actions + 1 && after.actions <= after.limits.totalActions
    && after.timeline.now == before.timeline.now
    && record.meta.key.duty in before.states
    && after.states.Keys == before.states.Keys
    && (forall d :: d in before.states && d != record.meta.key.duty ==> after.states[d] == before.states[d])
    && (record.meta.key.kind.Delivery? ==> KeyOf(record.meta.key.kind.token) !in after.timeline.events)
  }

  lemma ActKeepsInv<S, N>(world: World<S, N>, sim: Sim<S, N>, key: ActionKey)
    requires Inv(sim.core) && sim.core.phase == Active && Enabled(sim.core, key)
    requires sim.core.actions < sim.core.limits.totalActions
    requires sim.core.actionsAtMoment < sim.core.limits.actionsPerMoment
    ensures key.duty in sim.core.states
    ensures var (sim', step) := Act(world, sim, key);
            && Inv(sim'.core) && Follows(sim.core, sim'.core)
            && (step.Error? || step.Acted?)
            && (step.Error? ==> ReachableError(step.error) && sim'.core.phase == Failed)
            && (step.Acted? ==> ActedOn(sim.core, sim'.core, step.record) && step.record.meta.key == key)
  {
    hide Inv, Follows, Enabled, Execute, Allocated, Finish;
    var core := sim.core;
    AllocatedKeepsInv(core, key);
    var counted := Allocated(core);
    ExecuteKeepsInv(world.code, counted, key, core.actions);
    InvValid(counted);
    var (core', r) := Execute(world.code, counted, key, core.actions);
    FailKeepsInv(core');
    FollowsTransitive(core, core', Fail(core'));
    if r.Ok? {
      FinishEffect(world, sim.(core := core'), r.value);
    }
  }

  lemma InvValid(core: Core)
    requires Inv(core)
    ensures Valid(core.timeline) && core.actions <= core.limits.totalActions
  {
  }

  lemma FollowsTransitive(a: Core, b: Core, c: Core)
    requires Follows(a, b) && Follows(b, c)
    ensures Follows(a, c)
  {
    forall k | k in c.timeline.events ensures KeptOrFresh(a.timeline, k) {
      assert KeptOrFresh(b.timeline, k);
    }
  }

  lemma FinishEffect<S, N>(world: World<S, N>, sim: Sim<S, N>, record: ActionRecord)
    ensures var (sim', step) := Finish(world, sim, record);
            || (step == Acted(record) && sim'.core == sim.core)
            || (step.Error? && (step.error.SchedulerFailed? || step.error.MonitorFailed?) && sim'.core == Fail(sim.core))
  {
  }

  /**
   * Kernel invariant: every step keeps it, moves clocks and counters only forward, and fails with a
   * kernel failure only when a duty stops with deliveries still pending.
   */
  lemma StepKeepsInv<S, N>(world: World<S, N>, sim: Sim<S, N>)
    requires Inv(sim.core)
    ensures var (sim', step) := StepOnce(world, sim);
            && Inv(sim'.core) && Follows(sim.core, sim'.core)
            && (sim.core.phase != Active ==> sim' == sim && step == Error(Inactive(sim.core.phase)))
            && (step.Error? ==> ReachableError(step.error) && sim'.core.phase != Active
                                && (sim.core.phase == Active ==> sim'.core.phase == Failed))
            && (step.Acted? ==> ActedOn(sim.core, sim'.core, step.record))
            && (step.TimeAdvanced? ==> Idle(sim.core) && !Idle(sim'.core) && step.from < step.to
                                       && sim'.core.phase == Active && sim'.core.states == sim.core.states
                                       && sim'.core.actions == sim.core.actions)
            && (step.Quiescent? ==> sim' == sim && sim.core.phase == Active && Idle(sim.core))
            && (step.Finished? ==> sim'.core.phase == Completed && Idle(sim.core) && sim'.core.actions == sim.core.actions)
  {
    hide Inv, Follows, ActedOn, Enabled, Act, AdvanceOrFinish, BuildReady;
    var core := sim.core;
    FailKeepsInv(core);
    ReadySucceeds(core);
    AllStopped(core);
    if core.phase == Active {
      var ready := BuildReady(core).value;
      if ready == [] {
        AdvanceKeepsInv(world, sim);
      } else if core.actions < core.limits.totalActions && core.actionsAtMoment < core.limits.actionsPerMoment {
        var (scheduler, choice) := world.policy.choose(sim.scheduler, Clock(core), ready);
        if choice.Ok? && choice.value in ready {
          ReadyIsEnabled(core, choice.value);
          ActKeepsInv(world, sim.(scheduler := scheduler), choice.value);
        }
      }
    }
  }

  /** Quiescence is returned exactly when nothing is pending and every live duty, of which there is one, waits for a wake. */
  lemma QuiescentExactly<S, N>(world: World<S, N>, sim: Sim<S, N>)
    requires Inv(sim.core)
    ensures StepOnce(world, sim).1.Quiescent? <==>
              && sim.core.phase == Active
              && sim.core.timeline.events == map[]
              && (exists d :: d in sim.core.states && !sim.core.states[d].next.Stop?)
              && (forall d :: d in sim.core.states ==> sim.core.states[d].next.Stop? || sim.core.states[d].next.Wake?)
  {
    hide Inv, Follows, ActedOn, BuildReady, Act, NextAt, NextDeadline, Enabled;
    var core := sim.core;
    StepKeepsInv(world, sim);
    AllStopped(core);
    NothingNext(core);
    IdleExactly(core);
  }

  /** Idleness in terms of what is pending and what the duties await. */
  lemma IdleExactly(core: Core)
    requires Inv(core)
    ensures Idle(core) <==>
              && (forall k :: k in core.timeline.events ==> k.at != core.timeline.now)
              && (forall d :: d in core.states ==> !Runnable(core.states[d], core.timeline.now))
  {
    IdleMeans(core);
    if Idle(core) {
      IdleIsFuture(core);
    } else {
      var key :| Enabled(core, key);
      assert key.kind.Delivery? ==> KeyOf(key.kind.token) in core.timeline.events;
    }
  }

  /** Completion is returned exactly when every duty has stopped and the scheduler accepts; nothing is pending then. */
  lemma FinishedExactly<S, N>(world: World<S, N>, sim: Sim<S, N>)
    requires Inv(sim.core)
    ensures StepOnce(world, sim).1.Finished? <==>
              && sim.core.phase == Active
              && (forall d :: d in sim.core.states ==> sim.core.states[d].next.Stop?)
              && world.policy.finished(sim.scheduler).1.None?
    ensures StepOnce(world, sim).1.Finished? ==> sim.core.timeline.events == map[]
  {
    hide Inv, Follows, ActedOn, BuildReady, Act, NextAt, NextDeadline, Enabled;
    var core := sim.core;
    StepKeepsInv(world, sim);
    AllStopped(core);
    IdleExactly(core);
    assert core.stopped == core.states.Keys <==> forall d :: d in core.states ==> core.states[d].next.Stop?;
  }
}
