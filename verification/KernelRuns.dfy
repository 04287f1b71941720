/** Whole runs of the kernel: safety, termination, delivery order under Fifo and fairness under round robin. */
module KernelRuns {
  import opened Base
  import opened Consumer
  import opened Timelines
  import opened Contexts
  import opened Actions
  import opened Schedulers
  import opened Kernel
  import opened KernelSafety

  /** What drives a simulation: kernel steps and external injections, in any order. */
  datatype Command = TakeStep | Inject(target: DutyId, at: Moment, event: Event)

  datatype Outcome = Stepped(step: Step) | Injected(result: Result<EventToken, InjectionFailure>)

  ghost function Apply<S, N>(world: World<S, N>, sim: Sim<S, N>, command: Command): (r: (Sim<S, N>, Outcome))
    requires Inv(sim.core)
  {
    match command
    case TakeStep => var (sim', step) := StepOnce(world, sim); (sim', Stepped(step))
    case Inject(target, at, event) =>
      var (core, result) := InjectAt(sim.core, target, at, event);
      (sim.(core := core), Injected(result))
  }

  lemma ApplyKeepsInv<S, N>(world: World<S, N>, sim: Sim<S, N>, command: Command)
    requires Inv(sim.core)
    ensures var (sim', outcome) := Apply(world, sim, command); Inv(sim'.core) && Follows(sim.core, sim'.core)
  {
    hide Inv, Follows, StepOnce, InjectAt, ActedOn, Idle;
    match command
    case TakeStep => StepKeepsInv(world, sim);
    case Inject(target, at, event) => InjectKeepsInv(sim.core, target, at, event);
  }

  ghost function Run<S, N>(world: World<S, N>, sim: Sim<S, N>, commands: seq<Command>): (r: (Sim<S, N>, seq<Outcome>))
    requires Inv(sim.core)
    ensures Inv(r.0.core) && |r.1| == |commands|
    decreases |commands|
  {
    if commands == [] then (sim, [])
    else
      ApplyKeepsInv(world, sim, commands[0]);
      var (next, outcome) := Apply(world, sim, commands[0]);
      var (last, outcomes) := Run(world, next, commands[1..]);
      (last, [outcome] + outcomes)
  }

  ghost predicate SafeOutcome(outcome: Outcome) {
    outcome.Stepped? && outcome.step.Error? ==> ReachableError(outcome.step.error)
  }

  /**
   * Whole-run safety: from any state of the invariant, no sequence of steps and injections leaves it,
   * goes back in time, forgets an identity, or reports an unknown, stopped, mismatched or lost
   * delivery, exhausted action identities, or missing future progress.
   */
  lemma {:induction false} RunIsSafe<S, N>(world: World<S, N>, sim: Sim<S, N>, commands: seq<Command>)
    requires Inv(sim.core)
    ensures var (last, outcomes) := Run(world, sim, commands);
            && Inv(last.core) && Follows(sim.core, last.core)
            && (forall i :: 0 <= i < |outcomes| ==> SafeOutcome(outcomes[i]))
    decreases |commands|
  {
    hide Inv, Follows, Apply, ActedOn, Idle;
    if commands == [] {
      FailKeepsInv(sim.core);
    } else {
      ApplyKeepsInv(world, sim, commands[0]);
      ApplyIsSafe(world, sim, commands[0]);
      var (next, outcome) := Apply(world, sim, commands[0]);
      RunIsSafe(world, next, commands[1..]);
      FollowsTransitive(sim.core, next.core, Run(world, next, commands[1..]).0.core);
    }
  }

  lemma ApplyIsSafe<S, N>(world: World<S, N>, sim: Sim<S, N>, command: Command)
    requires Inv(sim.core)
    ensures SafeOutcome(Apply(world, sim, command).1)
  {
    hide Inv, Follows, StepOnce, ActedOn, Idle;
    StepKeepsInv(world, sim);
  }

  /** A built simulation starts in the invariant, so its every run is safe. */
  lemma BuiltRunIsSafe<S, N>(
      world: World<S, N>, scheduler: S, monitor: N, id: U64, now: Moment, model: Model, topology: Topology, limits: Limits,
      maxEvents: nat, maxBytes: U64, measure: Event -> U64, commands: seq<Command>)
    requires Build(id, now, model, topology, limits, maxEvents, maxBytes, measure).Ok?
    ensures var core := Build(id, now, model, topology, limits, maxEvents, maxBytes, measure).value;
            && Inv(core)
            && var (last, outcomes) := Run(world, Sim(core, scheduler, monitor), commands);
            && Inv(last.core)
            && (forall i :: 0 <= i < |outcomes| ==> SafeOutcome(outcomes[i]))
  {
    BuildEstablishesInv(id, now, model, topology, limits, maxEvents, maxBytes, measure);
    var core := Build(id, now, model, topology, limits, maxEvents, maxBytes, measure).value;
    RunIsSafe(world, Sim(core, scheduler, monitor), commands);
  }

  // ----- Termination of run_to_quiescence -----

  datatype RunEnd = EndQuiescent(snapshot: Snapshot) | EndCompleted(snapshot: Snapshot) | EndError(error: StepError)

  /** Actions left to take, twice, plus one when only a time advance is possible. */
  ghost function Fuel(core: Core): nat
    requires Inv(core)
  {
    2 * (core.limits.totalActions - core.actions) + (if Idle(core) then 1 else 0)
  }

  lemma ProgressBurnsFuel<S, N>(world: World<S, N>, sim: Sim<S, N>)
    requires Inv(sim.core)
    ensures var (sim', step) := StepOnce(world, sim);
            Inv(sim'.core) && (step.Acted? || step.TimeAdvanced? ==> Fuel(sim'.core) < Fuel(sim.core))
  {
    hide Inv, StepOnce, BuildReady, Enabled;
    InvValid(sim.core);
    StepKeepsInv(world, sim);
    InvValid(StepOnce(world, sim).0.core);
  }

  /** The run loop: its end and how many steps it took. */
  ghost function RunToQuiescence<S, N>(world: World<S, N>, sim: Sim<S, N>): (r: (Sim<S, N>, RunEnd, nat))
    requires Inv(sim.core)
    ensures Inv(r.0.core)
    ensures r.2 <= Fuel(sim.core) + 1
    decreases Fuel(sim.core)
  {
    ProgressBurnsFuel(world, sim);
    var (next, step) := StepOnce(world, sim);
    match step
    case Acted(_) => var (last, end, steps) := RunToQuiescence(world, next); (last, end, steps + 1)
    case TimeAdvanced(_, _) => var (last, end, steps) := RunToQuiescence(world, next); (last, end, steps + 1)
    case Quiescent(snapshot) => (next, EndQuiescent(snapshot), 1)
    case Finished(snapshot) => (next, EndCompleted(snapshot), 1)
    case Error(error) => (next, EndError(error), 1)
  }

  /** Every duty has stopped and nothing is pending. */
  ghost predicate CleanlyCompleted(core: Core) {
    core.phase == Completed && core.timeline.events == map[] && forall d :: d in core.states ==> core.states[d].next.Stop?
  }

  /** Nothing is pending, some duty is live, and every live duty waits for an external wake. */
  ghost predicate AtRest(core: Core) {
    && core.phase == Active && core.timeline.events == map[]
    && (exists d :: d in core.states && !core.states[d].next.Stop?)
    && (forall d :: d in core.states ==> core.states[d].next.Stop? || core.states[d].next.Wake?)
  }

  /**
   * The run loop always returns, within twice the remaining action budget plus two steps, and its
   * end says exactly what the world looks like.
   */
  lemma {:induction false} RunReturns<S, N>(world: World<S, N>, sim: Sim<S, N>)
    requires Inv(sim.core)
    ensures var (last, end, steps) := RunToQuiescence(world, sim);
            && sim.core.actions <= sim.core.limits.totalActions
            && steps <= 2 * (sim.core.limits.totalActions - sim.core.actions) + 2
            && (end.EndQuiescent? ==> AtRest(last.core))
            && (end.EndCompleted? ==> CleanlyCompleted(last.core))
            && (end.EndError? ==> ReachableError(end.error) && last.core.phase != Active)
    decreases Fuel(sim.core)
  {
    hide Inv, StepOnce, BuildReady, Follows, ActedOn, Enabled;
    InvValid(sim.core);
    ProgressBurnsFuel(world, sim);
    var (next, step) := StepOnce(world, sim);
    StepKeepsInv(world, sim);
    match step
    case Acted(_) => RunReturns(world, next);
    case TimeAdvanced(_, _) => RunReturns(world, next);
    case Quiescent(_) => QuiescentExactly(world, sim);
    case Finished(_) =>
      FinishedExactly(world, sim);
      FinishedKeeps(world, sim);
    case Error(_) =>
  }

  lemma FinishedKeeps<S, N>(world: World<S, N>, sim: Sim<S, N>)
    requires Inv(sim.core) && StepOnce(world, sim).1.Finished?
    ensures StepOnce(world, sim).0.core == sim.core.(phase := Completed)
  {
    hide BuildReady, Valid, NextAt, NextDeadline;
    StepKeepsInv(world, sim);
  }

  // ----- What one committed action says about the scheduler -----

  ghost function ViewOf(core: Core): View {
    View(core.model, core.topology, core.states, SnapshotOf(core))
  }

  /** A committed action was chosen from the ready set and accepted by scheduler and monitor. */
  lemma ActedChoice<S, N>(world: World<S, N>, sim: Sim<S, N>)
    requires Inv(sim.core) && StepOnce(world, sim).1.Acted?
    ensures BuildReady(sim.core).Ok? && BuildReady(sim.core).value != []
    ensures var (sim', step) := StepOnce(world, sim);
            var record := step.record;
            var (chosen, choice) := world.policy.choose(sim.scheduler, Clock(sim.core), BuildReady(sim.core).value);
            && choice == Ok(record.meta.key) && record.meta.key in BuildReady(sim.core).value
            && world.policy.committed(chosen, record.meta, record.turn) == (sim'.scheduler, None)
            && world.watch(sim.monitor, ViewOf(sim'.core), record) == (sim'.monitor, None)
  {
    hide Inv, BuildReady, Valid, Enabled, Execute, Follows;
    StepKeepsInv(world, sim);
    AllStopped(sim.core);
    ReadySucceeds(sim.core);
    var ready := BuildReady(sim.core).value;
    if ready == [] {
      AdvanceKeepsInv(world, sim);
    } else {
      var (chosen, choice) := world.policy.choose(sim.scheduler, Clock(sim.core), ready);
      ReadyIsEnabled(sim.core, choice.value);
      ActKeepsInv(world, sim.(scheduler := chosen), choice.value);
    }
  }

  /** A step that neither acts nor fails leaves an inactive world alone, or advances or finishes an idle one. */
  lemma QuietStep<S, N>(world: World<S, N>, sim: Sim<S, N>)
    requires Inv(sim.core)
    requires !StepOnce(world, sim).1.Acted? && StepOnce(world, sim).0.core.phase != Failed
    ensures sim.core.states.Keys == DutySet(sim.core.topology)
    ensures var (sim', step) := StepOnce(world, sim);
            && sim'.monitor == sim.monitor
            && (sim.core.phase != Active ==> sim' == sim)
            && (sim.core.phase == Active ==> Idle(sim.core) && (sim', step) == AdvanceOrFinish(world, sim))
            && (step.Finished? ==> world.policy.finished(sim.scheduler) == (sim'.scheduler, None))
            && (!step.Finished? ==> sim'.scheduler == sim.scheduler)
  {
    hide Inv, BuildReady, Valid, Enabled, Act, Follows, NextAt, NextDeadline, ActedOn;
    StepKeepsInv(world, sim);
    AllStopped(sim.core);
    ReadySucceeds(sim.core);
  }

  // ----- Delivery order under Fifo -----

  /** Keys of the committed deliveries, in commit order. */
  function Delivered(outcomes: seq<Outcome>): (keys: seq<EventKey>) {
    if outcomes == [] then []
    else (match outcomes[0]
          case Stepped(Acted(record)) =>
            (match record.meta.key.kind
             case Delivery(token) => [KeyOf(token)]
             case OwnerTurn => [])
          case _ => [])
         + Delivered(outcomes[1..])
  }

  ghost predicate Increasing(keys: seq<EventKey>) {
    forall i, j :: 0 <= i < j < |keys| ==> KeyLess(keys[i], keys[j])
  }

  ghost predicate AllAfter(last: EventKey, keys: seq<EventKey>) {
    forall i :: 0 <= i < |keys| ==> KeyLess(last, keys[i])
  }

  /** Every pending event, and every event still to be scheduled, comes after `last`. */
  ghost predicate Beyond(t: TimelineState, last: EventKey) {
    && last.at <= t.now && IdBelow(last.id, t.nextId)
    && forall k :: k in t.events ==> KeyLess(last, k)
  }

  lemma FollowsKeepsBeyond(before: Core, after: Core, last: EventKey)
    requires Follows(before, after) && Beyond(before.timeline, last)
    ensures Beyond(after.timeline, last)
  {
    forall k | k in after.timeline.events ensures KeyLess(last, k) {
      assert KeptOrFresh(before.timeline, k);
    }
  }

  /** Fifo delivers the first pending event of the whole timeline. */
  lemma FifoDeliversFirst<N>(world: World<(), N>, sim: Sim<(), N>)
    requires Inv(sim.core) && world.policy == Fifo
    requires StepOnce(world, sim).1.Acted? && StepOnce(world, sim).1.record.meta.key.kind.Delivery?
    ensures var key := KeyOf(StepOnce(world, sim).1.record.meta.key.kind.token);
            && key in sim.core.timeline.events && key.at == sim.core.timeline.now
            && forall k :: k in sim.core.timeline.events && k != key ==> KeyLess(key, k)
  {
    hide Inv, BuildReady, StepOnce, Follows, ActedOn;
    ActedChoice(world, sim);
    StepKeepsInv(world, sim);
    AllStopped(sim.core);
    ReadyIsCanonical(sim.core);
    var core := sim.core;
    var ready := BuildReady(core).value;
    var first := ready[0];
    assert first == StepOnce(world, sim).1.record.meta.key;
    ReadyIsEnabled(core, first);
    forall k | k in core.timeline.events && k != KeyOf(first.kind.token)
      ensures KeyLess(KeyOf(first.kind.token), k)
    {
      EventTargetsLive(core, k);
      if k.at == core.timeline.now {
        var other := ActionKey(core.timeline.events[k].routed.target, Delivery(TokenOf(core.timeline, k)));
        assert KeyOf(other.kind.token) == k;
        ReadyIsEnabled(core, other);
        var i :| 0 <= i < |ready| && ready[i] == other;
        assert i > 0 && ActionLess(ready[0], ready[i]);
      }
    }
  }

  lemma FifoStepOrder<N>(world: World<(), N>, sim: Sim<(), N>)
    requires Inv(sim.core) && world.policy == Fifo
    requires StepOnce(world, sim).1.Acted? && StepOnce(world, sim).1.record.meta.key.kind.Delivery?
    ensures var (sim', step) := StepOnce(world, sim);
            var key := KeyOf(step.record.meta.key.kind.token);
            Beyond(sim'.core.timeline, key) && key in sim.core.timeline.events
  {
    hide Inv, BuildReady, StepOnce, Enabled;
    FifoDeliversFirst(world, sim);
    StepKeepsInv(world, sim);
    var core := sim.core;
    var core' := StepOnce(world, sim).0.core;
    var key := KeyOf(StepOnce(world, sim).1.record.meta.key.kind.token);
    PendingIdsBelow(core, key);
    forall k | k in core'.timeline.events ensures KeyLess(key, k) {
      assert KeptOrFresh(core.timeline, k);
    }
  }

  lemma PendingIdsBelow(core: Core, k: EventKey)
    requires Inv(core) && k in core.timeline.events
    ensures IdBelow(k.id, core.timeline.nextId)
  {
  }

  /**
   * Fifo order over a whole run: committed deliveries come in strictly increasing (moment, identity)
   * order, whatever callbacks schedule or cancel and whatever is injected meanwhile.
   */
  lemma {:induction false} FifoRunOrder<N>(world: World<(), N>, sim: Sim<(), N>, commands: seq<Command>, last: Option<EventKey>)
    requires Inv(sim.core) && world.policy == Fifo
    requires last.Some? ==> Beyond(sim.core.timeline, last.value)
    ensures var keys := Delivered(Run(world, sim, commands).1);
            && Increasing(keys)
            && (last.Some? ==> AllAfter(last.value, keys))
    decreases |commands|
  {
    hide Inv, StepOnce, Follows, InjectAt, Beyond;
    if commands != [] {
      var (next, outcome) := Apply(world, sim, commands[0]);
      ApplyKeepsInv(world, sim, commands[0]);
      if last.Some? {
        FollowsKeepsBeyond(sim.core, next.core, last.value);
      }
      var rest := Run(world, next, commands[1..]).1;
      var outcomes := Run(world, sim, commands).1;
      assert outcomes == [outcome] + rest && outcomes[0] == outcome && outcomes[1..] == rest;
      if outcome.Stepped? && outcome.step.Acted? && outcome.step.record.meta.key.kind.Delivery? {
        FifoStepOrder(world, sim);
        var key := KeyOf(outcome.step.record.meta.key.kind.token);
        if last.Some? {
          BeyondPending(sim.core.timeline, last.value, key);
        }
        FifoRunOrder(world, next, commands[1..], Some(key));
        if last.Some? {
          FifoRunOrder(world, next, commands[1..], last);
        }
        assert Delivered(outcomes) == [key] + Delivered(rest);
      } else {
        FifoRunOrder(world, next, commands[1..], last);
        assert Delivered(outcomes) == Delivered(rest);
      }
    }
  }

  lemma BeyondPending(t: TimelineState, last: EventKey, key: EventKey)
    requires Beyond(t, last) && key in t.events
    ensures KeyLess(last, key)
  {
  }

  // ----- Fairness under round robin -----

  /** Duties a round-robin cursor reaches before `duty`. */
  ghost function Ahead(duties: set<DutyId>, cursor: Option<DutyId>, duty: DutyId): set<DutyId> {
    set x | x in duties && x != duty
            && match cursor
               case None => x < duty
               case Some(c) => if c < duty then c < x < duty else c < x || x < duty
  }

  /** Number of committed actions, and whether one of them belongs to `duty`. */
  function ActionCount(outcomes: seq<Outcome>): nat {
    if outcomes == [] then 0
    else (if outcomes[0].Stepped? && outcomes[0].step.Acted? then 1 else 0) + ActionCount(outcomes[1..])
  }

  ghost predicate ActionOf(outcome: Outcome, duty: DutyId) {
    outcome.Stepped? && outcome.step.Acted? && outcome.step.record.meta.key.duty == duty
  }

  ghost predicate TurnReady(core: Core, duty: DutyId) {
    duty in core.states && Runnable(core.states[duty], core.timeline.now)
  }

  /** One choice by another owner brings the cursor strictly closer to a ready duty. */
  lemma RoundRobinApproaches(duties: set<DutyId>, cursor: Option<DutyId>, ready: seq<ActionKey>, duty: DutyId)
    requires forall i :: 0 <= i < |ready| ==> ready[i].duty in duties
    requires exists i :: 0 <= i < |ready| && ready[i].duty == duty
    ensures RoundRobinOwner(cursor, ready).Some?
    ensures var owner := RoundRobinOwner(cursor, ready).value;
            owner != duty ==> |Ahead(duties, Some(owner), duty)| < |Ahead(duties, cursor, duty)|
  {
    var owner := RoundRobinOwner(cursor, ready).value;
    if owner != duty {
      var before := Ahead(duties, cursor, duty);
      var after := Ahead(duties, Some(owner), duty);
      assert owner in before && owner !in after;
      assert after <= before - {owner};
      SubsetSize(after, before - {owner});
    }
  }

  lemma RoundRobinStep<N>(world: World<Option<DutyId>, N>, sim: Sim<Option<DutyId>, N>, duty: DutyId)
    requires Inv(sim.core) && world.policy == RoundRobin && TurnReady(sim.core, duty)
    ensures var (sim', step) := StepOnce(world, sim);
            && !step.TimeAdvanced?
            && (step.Acted? && step.record.meta.key.duty != duty ==>
                  && TurnReady(sim'.core, duty) && sim'.core.topology == sim.core.topology
                  && |Ahead(DutySet(sim.core.topology), sim'.scheduler, duty)|
                     < |Ahead(DutySet(sim.core.topology), sim.scheduler, duty)|)
  {
    hide Inv, BuildReady, StepOnce, Ahead, RoundRobinOwner, FirstOf;
    StepKeepsInv(world, sim);
    IdleExactly(sim.core);
    var (sim', step) := StepOnce(world, sim);
    if step.Acted? && step.record.meta.key.duty != duty {
      ActedChoice(world, sim);
      AllStopped(sim.core);
      var ready := BuildReady(sim.core).value;
      forall i | 0 <= i < |ready| ensures ready[i].duty in DutySet(sim.core.topology) {
        ReadyIsEnabled(sim.core, ready[i]);
      }
      ReadyIsEnabled(sim.core, ActionKey(duty, OwnerTurn));
      RoundRobinApproaches(DutySet(sim.core.topology), sim.scheduler, ready, duty);
    }
  }

  /**
   * Round-robin fairness: as long as none of its own actions runs, a duty whose turn is ready stays
   * ready, and fewer actions than there are duties can run before it.
   */
  lemma {:induction false} RoundRobinFairness<N>(
      world: World<Option<DutyId>, N>, sim: Sim<Option<DutyId>, N>, commands: seq<Command>, duty: DutyId)
    requires Inv(sim.core) && world.policy == RoundRobin && TurnReady(sim.core, duty) && sim.core.phase == Active
    requires forall i :: 0 <= i < |commands| ==> !ActionOf(Run(world, sim, commands).1[i], duty)
    ensures var (last, outcomes) := Run(world, sim, commands);
            && (last.core.phase == Active ==> TurnReady(last.core, duty))
            && ActionCount(outcomes) <= |Ahead(DutySet(sim.core.topology), sim.scheduler, duty)| < |sim.core.topology|
    decreases |commands|
  {
    hide Inv, StepOnce, InjectAt, Ahead, Idle, Runnable, ActedOn, Follows;
    AheadIsFew(sim.core, sim.scheduler, duty);
    if commands != [] {
      var (next, outcome) := Apply(world, sim, commands[0]);
      ApplyKeepsInv(world, sim, commands[0]);
      var (last, rest) := Run(world, next, commands[1..]);
      var outcomes := Run(world, sim, commands).1;
      assert outcomes == [outcome] + rest && outcomes[1..] == rest;
      assert !ActionOf(outcomes[0], duty);
      forall i | 0 <= i < |rest| ensures !ActionOf(rest[i], duty) {
        assert rest[i] == outcomes[i + 1];
      }
      FairnessApply(world, sim, commands[0], duty);
      if next.core.phase == Active {
        RoundRobinFairness(world, next, commands[1..], duty);
      } else {
        InactiveRunIsStill(world, next, commands[1..]);
      }
    }
  }

  /** One command that is not an action of the duty: it stays ready, and only another owner's action uses up its rank. */
  lemma FairnessApply<N>(world: World<Option<DutyId>, N>, sim: Sim<Option<DutyId>, N>, command: Command, duty: DutyId)
    requires Inv(sim.core) && world.policy == RoundRobin && TurnReady(sim.core, duty) && sim.core.phase == Active
    requires !ActionOf(Apply(world, sim, command).1, duty)
    ensures var (next, outcome) := Apply(world, sim, command);
            && next.core.topology == sim.core.topology
            && (next.core.phase == Active ==>
                  && TurnReady(next.core, duty)
                  && |Ahead(DutySet(sim.core.topology), next.scheduler, duty)| + ActionCount([outcome])
                     <= |Ahead(DutySet(sim.core.topology), sim.scheduler, duty)|)
            && (next.core.phase != Active ==> ActionCount([outcome]) == 0)
  {
    hide Inv, StepOnce, InjectAt, Ahead, Idle;
    match command
    case TakeStep =>
      StepKeepsInv(world, sim);
      RoundRobinStep(world, sim, duty);
    case Inject(target, at, event) => InjectKeepsInv(sim.core, target, at, event);
  }

  lemma AheadIsFew(core: Core, cursor: Option<DutyId>, duty: DutyId)
    requires Inv(core) && duty in core.states
    ensures |Ahead(DutySet(core.topology), cursor, duty)| < |core.topology|
  {
    DistinctDuties(core.topology);
    SubsetSize(Ahead(DutySet(core.topology), cursor, duty), DutySet(core.topology) - {duty});
  }

  /** Nothing happens to a simulation that is no longer active. */
  lemma {:induction false} InactiveRunIsStill<S, N>(world: World<S, N>, sim: Sim<S, N>, commands: seq<Command>)
    requires Inv(sim.core) && sim.core.phase != Active
    ensures Run(world, sim, commands).0 == sim
    ensures ActionCount(Run(world, sim, commands).1) == 0
    decreases |commands|
  {
    hide Inv, BuildReady, Act, AdvanceOrFinish;
    if commands != [] {
      var (next, outcome) := Apply(world, sim, commands[0]);
      assert next == sim;
      var rest := Run(world, sim, commands[1..]).1;
      assert Run(world, sim, commands).1 == [outcome] + rest && ([outcome] + rest)[1..] == rest;
      InactiveRunIsStill(world, sim, commands[1..]);
    }
  }
}
