/** Recording a run and replaying it: the same steps, the same world, no divergence. */
module Replays {
  import opened Base
  import opened Consumer
  import opened Timelines
  import opened Contexts
  import opened Actions
  import opened Schedulers
  import opened Kernel
  import opened KernelSafety
  import opened KernelRuns

  /** A bounded causal trace composed around an inner monitor. */
  datatype TraceState<N> = TraceState(limit: nat, entries: seq<TraceEntry>, inner: N)

  /** Records the committed action, then lets the inner monitor judge it. */
  function TraceAfter<N>(watch: (N, View, ActionRecord) -> (N, Option<MonitorError>), t: TraceState<N>, view: View, record: ActionRecord)
    : (r: (TraceState<N>, Option<MonitorError>))
  {
    if |t.entries| >= t.limit then (t, Some(TraceCapacity(t.limit)))
    else
      var (inner, rejected) := watch(t.inner, view, record);
      (TraceState(t.limit, t.entries + [TraceEntry(record.meta, record.turn)], inner), rejected)
  }

  /** The world of a recorded run: any model, any scheduler, a trace around any monitor. */
  function Recording<S, N>(code: ModelCode, policy: Policy<S>, watch: (N, View, ActionRecord) -> (N, Option<MonitorError>))
    : World<S, TraceState<N>>
  {
    World(code, policy, (t: TraceState<N>, view, record) => TraceAfter(watch, t, view, record))
  }

  /** The world of its replay: the same model and inner monitor under the replay scheduler. */
  function Replaying<N>(code: ModelCode, watch: (N, View, ActionRecord) -> (N, Option<MonitorError>)): World<Replay, N> {
    World(code, Schedulers.Replaying, watch)
  }

  /** Replay at the position of a recording whose whole trace is `full`. */
  function ReplayAt(full: seq<TraceEntry>, cursor: nat): Replay
    requires cursor <= |full|
  {
    ReplayState(full, cursor, false)
  }

  /** Recording and replay are in the same world, the replay having validated the trace so far. */
  ghost predicate Mirrors<S, N>(recorded: Sim<S, TraceState<N>>, replayed: Sim<Replay, N>, full: seq<TraceEntry>) {
    && replayed.core == recorded.core
    && replayed.monitor == recorded.monitor.inner
    && recorded.monitor.entries <= full
    && replayed.scheduler == ReplayAt(full, |recorded.monitor.entries|)
  }

  // ----- A recorded run, step by step -----

  /** Only a committed action extends the trace, by exactly its own entry. */
  lemma RecordedStep<S, N>(
      code: ModelCode, policy: Policy<S>, watch: (N, View, ActionRecord) -> (N, Option<MonitorError>), s: Sim<S, TraceState<N>>)
    requires Inv(s.core)
    ensures var (s', step) := StepOnce(Recording(code, policy, watch), s);
            && (step.Acted? ==> s'.monitor.entries == s.monitor.entries + [TraceEntry(step.record.meta, step.record.turn)]
                                && watch(s.monitor.inner, ViewOf(s'.core), step.record) == (s'.monitor.inner, None))
            && (s'.core.phase != Failed && !step.Acted? ==> s'.monitor == s.monitor)
            && s.monitor.entries <= s'.monitor.entries
  {
    hide Inv, BuildReady, Execute, ViewOf, NextAt, NextDeadline, Valid, Follows, ActedOn, Enabled;
    var world := Recording(code, policy, watch);
    StepKeepsInv(world, s);
    AllStopped(s.core);
    var (s', step) := StepOnce(world, s);
    if step.Acted? {
      ActedChoice(world, s);
    } else if s'.core.phase != Failed {
      QuietStep(world, s);
    } else {
      FailedStepExtends(code, policy, watch, s);
    }
  }

  lemma FailedStepExtends<S, N>(
      code: ModelCode, policy: Policy<S>, watch: (N, View, ActionRecord) -> (N, Option<MonitorError>), s: Sim<S, TraceState<N>>)
    requires Inv(s.core)
    ensures s.monitor.entries <= StepOnce(Recording(code, policy, watch), s).0.monitor.entries
  {
    hide Inv, BuildReady, Act, NextAt, NextDeadline, Valid, Enabled;
    AllStopped(s.core);
    if s.core.phase == Active {
      var (s', step) := StepOnce(Recording(code, policy, watch), s);
      if BuildReady(s.core).Ok? && BuildReady(s.core).value != []
         && s.core.actions < s.core.limits.totalActions && s.core.actionsAtMoment < s.core.limits.actionsPerMoment {
        var (scheduler, choice) := policy.choose(s.scheduler, Clock(s.core), BuildReady(s.core).value);
        if choice.Ok? && choice.value in BuildReady(s.core).value {
          ReadyIsEnabled(s.core, choice.value);
          InvValid(s.core);
          ActExtends(code, policy, watch, s.(scheduler := scheduler), choice.value);
        }
      }
    }
  }

  lemma ActExtends<S, N>(
      code: ModelCode, policy: Policy<S>, watch: (N, View, ActionRecord) -> (N, Option<MonitorError>), s: Sim<S, TraceState<N>>,
      key: ActionKey)
    requires Valid(s.core.timeline) && key.duty in s.core.states
    requires s.core.actions < U64_MAX && s.core.actionsAtMoment < U64_MAX
    ensures s.monitor.entries <= Act(Recording(code, policy, watch), s, key).0.monitor.entries
  {
    hide Valid, Execute, Finish;
    if s.core.nextAction.Some? {
      var (core, result) := Execute(code, Allocated(s.core), key, s.core.nextAction.value);
      if result.Ok? {
        FinishExtends(code, policy, watch, s.(core := core), result.value);
      }
    }
  }

  lemma FinishExtends<S, N>(
      code: ModelCode, policy: Policy<S>, watch: (N, View, ActionRecord) -> (N, Option<MonitorError>), s: Sim<S, TraceState<N>>,
      record: ActionRecord)
    ensures s.monitor.entries <= Finish(Recording(code, policy, watch), s, record).0.monitor.entries
  {
    hide SnapshotOf, TraceAfter;
    WatchExtends(code, policy, watch, s.monitor, ViewOf(s.core), record);
  }

  lemma WatchExtends<S, N>(
      code: ModelCode, policy: Policy<S>, watch: (N, View, ActionRecord) -> (N, Option<MonitorError>),
      t: TraceState<N>, view: View, record: ActionRecord)
    ensures t.entries <= Recording(code, policy, watch).watch(t, view, record).0.entries
  {
  }

  lemma RecordedApply<S, N>(
      code: ModelCode, policy: Policy<S>, watch: (N, View, ActionRecord) -> (N, Option<MonitorError>), s: Sim<S, TraceState<N>>,
      command: Command)
    requires Inv(s.core)
    ensures s.monitor.entries <= Apply(Recording(code, policy, watch), s, command).0.monitor.entries
    ensures s.core.phase == Failed ==> Apply(Recording(code, policy, watch), s, command).0 == s
  {
    hide Inv, StepOnce, ViewOf;
    RecordedStep(code, policy, watch, s);
    StepKeepsInv(Recording(code, policy, watch), s);
  }

  /** Traces only grow, and a failed run stays failed. */
  lemma {:induction false} RecordedRunGrows<S, N>(
      code: ModelCode, policy: Policy<S>, watch: (N, View, ActionRecord) -> (N, Option<MonitorError>), s: Sim<S, TraceState<N>>,
      commands: seq<Command>)
    requires Inv(s.core)
    ensures var (last, _) := Run(Recording(code, policy, watch), s, commands);
            s.monitor.entries <= last.monitor.entries && (s.core.phase == Failed ==> last.core.phase == Failed)
    decreases |commands|
  {
    hide Inv, Apply;
    if commands != [] {
      var world := Recording(code, policy, watch);
      ApplyKeepsInv(world, s, commands[0]);
      RecordedApply(code, policy, watch, s, commands[0]);
      RecordedRunGrows(code, policy, watch, Apply(world, s, commands[0]).0, commands[1..]);
    }
  }

  // ----- Replay mirrors the recording -----

  /** A committed action replays: it is chosen again, produces the same record, and is accepted again. */
  lemma ActedMirrors<S, N>(
      code: ModelCode, policy: Policy<S>, watch: (N, View, ActionRecord) -> (N, Option<MonitorError>),
      s: Sim<S, TraceState<N>>, r: Sim<Replay, N>, full: seq<TraceEntry>)
    requires Inv(s.core) && Mirrors(s, r, full)
    requires StepOnce(Recording(code, policy, watch), s).1.Acted?
    requires StepOnce(Recording(code, policy, watch), s).0.monitor.entries <= full
    ensures var (s', step) := StepOnce(Recording(code, policy, watch), s);
            var (r', again) := StepOnce(Replaying(code, watch), r);
            again == step && Mirrors(s', r', full)
  {
    hide Inv, BuildReady, Execute, Enabled, Valid, AdvanceOrFinish, TraceAfter, SnapshotOf;
    var world := Recording(code, policy, watch);
    var (s', step) := StepOnce(world, s);
    StepKeepsInv(world, s);
    AllStopped(s.core);
    RecordedStep(code, policy, watch, s);
    ActedChoice(world, s);
    var cursor := |s.monitor.entries|;
    assert s'.monitor.entries[cursor] == full[cursor] == TraceEntry(step.record.meta, step.record.turn);
    ReadyIsEnabled(s.core, step.record.meta.key);
    InvValid(s.core);
    ActedExecutes(world, s);
    var ready := BuildReady(s.core).value;
    assert Schedulers.Replaying.choose(r.scheduler, Clock(s.core), ready)
        == (ReplayState(full, cursor, true), Ok(step.record.meta.key));
  }

  /** A committed action is the execution of its key under the counted core. */
  lemma ActedExecutes<S, N>(world: World<S, N>, sim: Sim<S, N>)
    requires Inv(sim.core) && StepOnce(world, sim).1.Acted?
    ensures sim.core.phase == Active
            && sim.core.actions < sim.core.limits.totalActions && sim.core.actionsAtMoment < sim.core.limits.actionsPerMoment
            && sim.core.nextAction.Some?
    ensures var (sim', step) := StepOnce(world, sim);
            && Valid(sim.core.timeline) && step.record.meta.key.duty in sim.core.states
            && Execute(world.code, Allocated(sim.core), step.record.meta.key, sim.core.nextAction.value) == (sim'.core, Ok(step.record))
  {
    hide Inv, BuildReady, Execute, Valid, Enabled, Follows;
    StepKeepsInv(world, sim);
    InvValid(sim.core);
    AllStopped(sim.core);
    ReadySucceeds(sim.core);
    ActedChoice(world, sim);
    ReadyIsEnabled(sim.core, StepOnce(world, sim).1.record.meta.key);
  }

  /** A step that is not an action replays too, provided a completion finds the whole trace consumed. */
  lemma OtherMirrors<S, N>(
      code: ModelCode, policy: Policy<S>, watch: (N, View, ActionRecord) -> (N, Option<MonitorError>),
      s: Sim<S, TraceState<N>>, r: Sim<Replay, N>, full: seq<TraceEntry>)
    requires Inv(s.core) && Mirrors(s, r, full)
    requires var (s', step) := StepOnce(Recording(code, policy, watch), s);
             !step.Acted? && s'.core.phase != Failed && (step.Finished? ==> s.monitor.entries == full)
    ensures var (s', step) := StepOnce(Recording(code, policy, watch), s);
            var (r', again) := StepOnce(Replaying(code, watch), r);
            again == step && Mirrors(s', r', full)
  {
    hide Inv, BuildReady, NextAt, NextDeadline, Valid, Act, Enabled, Follows;
    var world := Recording(code, policy, watch);
    StepKeepsInv(world, s);
    AllStopped(s.core);
    QuietStep(world, s);
  }

  lemma ApplyMirrors<S, N>(
      code: ModelCode, policy: Policy<S>, watch: (N, View, ActionRecord) -> (N, Option<MonitorError>),
      s: Sim<S, TraceState<N>>, r: Sim<Replay, N>, full: seq<TraceEntry>, command: Command)
    requires Inv(s.core) && Mirrors(s, r, full)
    requires var (s', _) := Apply(Recording(code, policy, watch), s, command);
             && s'.core.phase != Failed && s'.monitor.entries <= full
             && (s.core.phase == Active && s'.core.phase == Completed ==> s'.monitor.entries == full)
    ensures var (s', outcome) := Apply(Recording(code, policy, watch), s, command);
            var (r', again) := Apply(Replaying(code, watch), r, command);
            again == outcome && Mirrors(s', r', full)
  {
    hide Inv, StepOnce, InjectAt, Follows, Idle;
    if command.TakeStep? {
      var (s', step) := StepOnce(Recording(code, policy, watch), s);
      StepKeepsInv(Recording(code, policy, watch), s);
      RecordedStep(code, policy, watch, s);
      if step.Acted? {
        ActedMirrors(code, policy, watch, s, r, full);
      } else {
        OtherMirrors(code, policy, watch, s, r, full);
      }
    }
  }

  lemma {:induction false} RunMirrors<S, N>(
      code: ModelCode, policy: Policy<S>, watch: (N, View, ActionRecord) -> (N, Option<MonitorError>),
      s: Sim<S, TraceState<N>>, r: Sim<Replay, N>, commands: seq<Command>)
    requires Inv(s.core)
    requires var (last, _) := Run(Recording(code, policy, watch), s, commands);
             last.core.phase != Failed && Mirrors(s, r, last.monitor.entries)
    ensures var (last, outcomes) := Run(Recording(code, policy, watch), s, commands);
            var (again, repeated) := Run(Replaying(code, watch), r, commands);
            repeated == outcomes && Mirrors(last, again, last.monitor.entries)
    decreases |commands|
  {
    hide Inv, Apply;
    if commands != [] {
      var world := Recording(code, policy, watch);
      var (next, _) := Apply(world, s, commands[0]);
      ApplyKeepsInv(world, s, commands[0]);
      var full := Run(world, s, commands).0.monitor.entries;
      assert full == Run(world, next, commands[1..]).0.monitor.entries;
      RecordedRunGrows(code, policy, watch, next, commands[1..]);
      if next.core.phase != Active {
        InactiveRunIsStill(world, next, commands[1..]);
      }
      ApplyMirrors(code, policy, watch, s, r, full, commands[0]);
      var (after, _) := Apply(Replaying(code, watch), r, commands[0]);
      RunMirrors(code, policy, watch, next, after, commands[1..]);
    }
  }

  /**
   * Record and replay: if a run under any model, scheduler and inner monitor does not fail, then
   * running the same commands from the same world under the replay of its trace gives the same
   * outcome at every command, ends in the same world with the same monitor state, and has validated
   * the whole trace. In particular a recorded completion replays to completion without divergence.
   */
  lemma ReplayReproduces<S, N>(
      code: ModelCode, policy: Policy<S>, watch: (N, View, ActionRecord) -> (N, Option<MonitorError>),
      core: Core, scheduler: S, limit: nat, monitor: N, commands: seq<Command>)
    requires Inv(core)
    requires Run(Recording(code, policy, watch), Sim(core, scheduler, TraceState(limit, [], monitor)), commands).0.core.phase != Failed
    ensures var (last, outcomes) := Run(Recording(code, policy, watch), Sim(core, scheduler, TraceState(limit, [], monitor)), commands);
            var (again, repeated) := Run(Replaying(code, watch), Sim(core, ReplayAt(last.monitor.entries, 0), monitor), commands);
            && repeated == outcomes
            && again.core == last.core && again.monitor == last.monitor.inner
            && again.scheduler == ReplayAt(last.monitor.entries, |last.monitor.entries|)
  {
    hide Inv, Run;
    var s := Sim(core, scheduler, TraceState(limit, [], monitor));
    var full := Run(Recording(code, policy, watch), s, commands).0.monitor.entries;
    RunMirrors(code, policy, watch, s, Sim(core, ReplayAt(full, 0), monitor), commands);
  }

  // ----- What a completed replay proves -----

  /** Facts of every committed action, in commit order. */
  function Committed(outcomes: seq<Outcome>): (entries: seq<TraceEntry>) {
    if outcomes == [] then []
    else (if outcomes[0].Stepped? && outcomes[0].step.Acted?
          then [TraceEntry(outcomes[0].step.record.meta, outcomes[0].step.record.turn)] else [])
         + Committed(outcomes[1..])
  }

  /** Under replay a committed action is the next entry, and completion needs every entry consumed. */
  lemma ReplayStep<N>(world: World<Replay, N>, r: Sim<Replay, N>)
    requires Inv(r.core) && world.policy == Schedulers.Replaying && !r.scheduler.awaiting
    ensures var (r', step) := StepOnce(world, r);
            && (step.Acted? ==>
                  && r.scheduler.cursor < |r.scheduler.entries|
                  && TraceEntry(step.record.meta, step.record.turn) == r.scheduler.entries[r.scheduler.cursor]
                  && r'.scheduler == ReplayState(r.scheduler.entries, r.scheduler.cursor + 1, false))
            && (!step.Acted? && r'.core.phase != Failed ==> r'.scheduler == r.scheduler)
            && (step.Finished? ==> r.scheduler.cursor == |r.scheduler.entries|)
  {
    hide Inv, BuildReady, Execute, ViewOf, NextAt, NextDeadline, Valid, Follows, ActedOn, Enabled;
    StepKeepsInv(world, r);
    AllStopped(r.core);
    if StepOnce(world, r).1.Acted? {
      ActedChoice(world, r);
    } else if StepOnce(world, r).0.core.phase != Failed {
      QuietStep(world, r);
    }
  }

  /**
   * Conversely, a replay of any trace against any world commits a prefix of that trace, entry by
   * entry, and one that completes has committed exactly the trace.
   */
  lemma {:induction false} ReplayCommitsTrace<N>(world: World<Replay, N>, r: Sim<Replay, N>, commands: seq<Command>)
    requires Inv(r.core) && world.policy == Schedulers.Replaying && !r.scheduler.awaiting
    ensures var (last, outcomes) := Run(world, r, commands);
            var expected := r.scheduler.entries[r.scheduler.cursor..];
            && Committed(outcomes) <= expected
            && (r.core.phase == Active && last.core.phase == Completed ==> Committed(outcomes) == expected)
    decreases |commands|
  {
    hide Inv, StepOnce, InjectAt, Follows, Idle;
    if commands != [] {
      var (next, outcome) := Apply(world, r, commands[0]);
      ApplyKeepsInv(world, r, commands[0]);
      var (last, rest) := Run(world, next, commands[1..]);
      var outcomes := Run(world, r, commands).1;
      assert outcomes == [outcome] + rest && outcomes[0] == outcome && outcomes[1..] == rest;
      if commands[0].Inject? {
        InjectKeepsInv(r.core, commands[0].target, commands[0].at, commands[0].event);
      }
      StepKeepsInv(world, r);
      ReplayStep(world, r);
      if next.core.phase == Active {
        ReplayCommitsTrace(world, next, commands[1..]);
        if outcome.Stepped? && outcome.step.Acted? {
          CommitsOneMore(r.scheduler.entries, r.scheduler.cursor, Committed(rest));
        }
      } else {
        InactiveRunIsStill(world, next, commands[1..]);
        NoActionsNoEntries(rest);
      }
    }
  }

  lemma CommitsOneMore(entries: seq<TraceEntry>, cursor: nat, rest: seq<TraceEntry>)
    requires cursor < |entries| && rest <= entries[cursor + 1..]
    ensures [entries[cursor]] + rest <= entries[cursor..]
    ensures rest == entries[cursor + 1..] ==> [entries[cursor]] + rest == entries[cursor..]
  {
    assert entries[cursor..] == [entries[cursor]] + entries[cursor + 1..];
  }

  lemma {:induction false} NoActionsNoEntries(outcomes: seq<Outcome>)
    requires ActionCount(outcomes) == 0
    ensures Committed(outcomes) == []
  {
    if outcomes != [] {
      NoActionsNoEntries(outcomes[1..]);
    }
  }
}
