/** Tracing is transparent: a trace with room changes nothing about a run, so every run can be replayed. */
module Tracing {
  import opened Base
  import opened Consumer
  import opened Timelines
  import opened Contexts
  import opened Actions
  import opened Schedulers
  import opened Kernel
  import opened KernelSafety
  import opened KernelRuns
  import opened Replays

  /** The same world without its trace. */
  ghost function Untraced<S, N>(s: Sim<S, TraceState<N>>): Sim<S, N> {
    Sim(s.core, s.scheduler, s.monitor.inner)
  }

  /** A full trace refuses exactly the actions the untraced world would ask its monitor about; with room it only records. */
  lemma FinishTraced<S, N>(
      code: ModelCode, policy: Policy<S>, watch: (N, View, ActionRecord) -> (N, Option<MonitorError>),
      s: Sim<S, TraceState<N>>, record: ActionRecord)
    ensures var (s', step) := Finish(Recording(code, policy, watch), s, record);
            var (p', plain) := Finish(World(code, policy, watch), Untraced(s), record);
            && (|s.monitor.entries| < s.monitor.limit ==> step == plain && Untraced(s') == p')
            && (|s.monitor.entries| >= s.monitor.limit && policy.committed(s.scheduler, record.meta, record.turn).1.None? ==>
                  step == Error(MonitorFailed(record.meta, TraceCapacity(s.monitor.limit))) && s'.monitor == s.monitor)
            && s'.monitor.limit == s.monitor.limit
  {
    hide SnapshotOf;
  }

  lemma ActTraced<S, N>(
      code: ModelCode, policy: Policy<S>, watch: (N, View, ActionRecord) -> (N, Option<MonitorError>),
      s: Sim<S, TraceState<N>>, key: ActionKey)
    requires Valid(s.core.timeline) && key.duty in s.core.states
    requires s.core.actions < U64_MAX && s.core.actionsAtMoment < U64_MAX
    ensures var (s', step) := Act(Recording(code, policy, watch), s, key);
            var (p', plain) := Act(World(code, policy, watch), Untraced(s), key);
            && (|s.monitor.entries| < s.monitor.limit ==> step == plain && Untraced(s') == p')
            && s'.monitor.limit == s.monitor.limit
  {
    hide Valid, Execute, Finish;
    if s.core.nextAction.Some? {
      var (core, r) := Execute(code, Allocated(s.core), key, s.core.nextAction.value);
      if r.Ok? {
        FinishTraced(code, policy, watch, s.(core := core), r.value);
      }
    }
  }

  /** While the trace has room a traced step is the untraced one. */
  lemma TracedStep<S, N>(
      code: ModelCode, policy: Policy<S>, watch: (N, View, ActionRecord) -> (N, Option<MonitorError>), s: Sim<S, TraceState<N>>)
    requires Inv(s.core)
    ensures var (s', step) := StepOnce(Recording(code, policy, watch), s);
            var (p', plain) := StepOnce(World(code, policy, watch), Untraced(s));
            && (|s.monitor.entries| < s.monitor.limit ==> step == plain && Untraced(s') == p')
            && s'.monitor.limit == s.monitor.limit
  {
    hide Inv, BuildReady, Act, Valid, Enabled, NextAt, NextDeadline, FirstKey, Follows, ActedOn;
    var core := s.core;
    AllStopped(core);
    InvValid(core);
    if core.phase == Active && BuildReady(core).Ok? && BuildReady(core).value != []
       && core.actions < core.limits.totalActions && core.actionsAtMoment < core.limits.actionsPerMoment {
      var (scheduler, choice) := policy.choose(s.scheduler, Clock(core), BuildReady(core).value);
      if choice.Ok? && choice.value in BuildReady(core).value {
        ReadyIsEnabled(core, choice.value);
        ActTraced(code, policy, watch, s.(scheduler := scheduler), choice.value);
      }
    }
  }

  /** A step that asks no monitor does not look at the trace at all. */
  lemma QuietTracedStep<S, N>(
      code: ModelCode, policy: Policy<S>, watch: (N, View, ActionRecord) -> (N, Option<MonitorError>), s: Sim<S, TraceState<N>>)
    requires Inv(s.core)
    requires var (p', plain) := StepOnce(World(code, policy, watch), Untraced(s)); !plain.Acted? && p'.core.phase != Failed
    ensures var (s', step) := StepOnce(Recording(code, policy, watch), s);
            var (p', plain) := StepOnce(World(code, policy, watch), Untraced(s));
            step == plain && Untraced(s') == p' && s'.monitor == s.monitor
  {
    hide Inv, BuildReady, Act, Valid, Enabled, NextAt, NextDeadline, FirstKey, Follows, ActedOn;
    AllStopped(s.core);
    StepKeepsInv(World(code, policy, watch), Untraced(s));
    QuietStep(World(code, policy, watch), Untraced(s));
    ReadySucceeds(s.core);
  }

  lemma TracedApply<S, N>(
      code: ModelCode, policy: Policy<S>, watch: (N, View, ActionRecord) -> (N, Option<MonitorError>),
      s: Sim<S, TraceState<N>>, command: Command)
    requires Inv(s.core)
    requires var (p', plain) := Apply(World(code, policy, watch), Untraced(s), command);
             p'.core.phase != Failed && |s.monitor.entries| + |Committed([plain])| <= s.monitor.limit
    ensures var (s', outcome) := Apply(Recording(code, policy, watch), s, command);
            var (p', plain) := Apply(World(code, policy, watch), Untraced(s), command);
            && outcome == plain && Untraced(s') == p'
            && s'.monitor.limit == s.monitor.limit && s'.monitor.entries == s.monitor.entries + Committed([plain])
  {
    hide Inv, StepOnce, InjectAt;
    if command.TakeStep? {
      TracedStep(code, policy, watch, s);
      RecordedStep(code, policy, watch, s);
      var (_, plain) := StepOnce(World(code, policy, watch), Untraced(s));
      if !plain.Acted? {
        QuietTracedStep(code, policy, watch, s);
      }
    }
  }

  /**
   * Tracing is transparent: a run that does not fail and commits no more actions than the trace has
   * room for gives, when traced, the same outcomes and the same world, and the trace is exactly its
   * committed actions.
   */
  lemma {:induction false} TracingIsTransparent<S, N>(
      code: ModelCode, policy: Policy<S>, watch: (N, View, ActionRecord) -> (N, Option<MonitorError>),
      s: Sim<S, TraceState<N>>, commands: seq<Command>)
    requires Inv(s.core)
    requires var (last, outcomes) := Run(World(code, policy, watch), Untraced(s), commands);
             last.core.phase != Failed && |s.monitor.entries| + |Committed(outcomes)| <= s.monitor.limit
    ensures var (last, outcomes) := Run(World(code, policy, watch), Untraced(s), commands);
            var (traced, same) := Run(Recording(code, policy, watch), s, commands);
            && same == outcomes && Untraced(traced) == last
            && traced.monitor.entries == s.monitor.entries + Committed(outcomes)
    decreases |commands|
  {
    hide Inv, Apply;
    if commands != [] {
      var world := World(code, policy, watch);
      var (next, outcome) := Apply(world, Untraced(s), commands[0]);
      ApplyKeepsInv(world, Untraced(s), commands[0]);
      ApplyKeepsInv(Recording(code, policy, watch), s, commands[0]);
      var (last, rest) := Run(world, next, commands[1..]);
      var outcomes := Run(world, Untraced(s), commands).1;
      assert outcomes == [outcome] + rest && outcomes[1..] == rest;
      assert [outcome][1..] == [];
      assert Committed(outcomes) == Committed([outcome]) + Committed(rest);
      FailureLasts(world, next, commands[1..]);
      TracedApply(code, policy, watch, s, commands[0]);
      TracingIsTransparent(code, policy, watch, Apply(Recording(code, policy, watch), s, commands[0]).0, commands[1..]);
    }
  }

  /** A failed world stays failed. */
  lemma FailureLasts<S, N>(world: World<S, N>, sim: Sim<S, N>, commands: seq<Command>)
    requires Inv(sim.core) && Run(world, sim, commands).0.core.phase != Failed
    ensures sim.core.phase != Failed
  {
    hide Inv, Run;
    if sim.core.phase == Failed {
      InactiveRunIsStill(world, sim, commands);
    }
  }

  /**
   * Every run that does not fail can be replayed from its committed actions alone: the replay gives the
   * same outcome at every command, the same world and the same monitor, and consumes every action.
   */
  lemma EveryRunReplays<S, N>(
      code: ModelCode, policy: Policy<S>, watch: (N, View, ActionRecord) -> (N, Option<MonitorError>),
      sim: Sim<S, N>, commands: seq<Command>)
    requires Inv(sim.core) && Run(World(code, policy, watch), sim, commands).0.core.phase != Failed
    ensures var (last, outcomes) := Run(World(code, policy, watch), sim, commands);
            var (again, repeated) := Run(Replays.Replaying(code, watch), Sim(sim.core, ReplayAt(Committed(outcomes), 0), sim.monitor), commands);
            && repeated == outcomes && again.core == last.core && again.monitor == last.monitor
            && again.scheduler == ReplayAt(Committed(outcomes), |Committed(outcomes)|)
  {
    hide Inv, Run, Committed;
    var outcomes := Run(World(code, policy, watch), sim, commands).1;
    var s := Sim(sim.core, sim.scheduler, TraceState(|Committed(outcomes)|, [], sim.monitor));
    assert Untraced(s) == sim;
    TracingIsTransparent(code, policy, watch, s, commands);
    assert [] + Committed(outcomes) == Committed(outcomes);
    ReplayReproduces(code, policy, watch, sim.core, sim.scheduler, |Committed(outcomes)|, sim.monitor, commands);
  }
}
