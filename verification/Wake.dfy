/**
 * The coalesced wake handle as a protocol over one atomic location: any number of threads call
 * `wake` and `acknowledge`, one atomic access at a time.
 */
module WakeProtocol {
  import opened Base

  type Tid = nat

  datatype WakePhase = Idle | Waking | Requested | WakingAcknowledged

  /** Where a thread is inside `wake` or `acknowledge`. */
  datatype Pc =
    | Looping
    | SawIdle
    | Calling
    | Succeeded
    | Settling
    | FailedCall
    | Acking
    | AckSawRequested
    | AckSawWaking
    | Returned(ok: bool)
    | Panicked

  /** Externally visible events, in the order of the atomic accesses that decide them. */
  datatype Event =
    | BackendOk(t: Tid)
    | BackendErr(t: Tid)
    | Acknowledged(t: Tid, effective: bool)
    | WakeOk(t: Tid, own: bool)
    | WakeErr(t: Tid)

  datatype WakeState = WakeState(phase: WakePhase, pcs: map<Tid, Pc>, log: seq<Event>)

  const Start := WakeState(Idle, map[], [])

  datatype WakeStep =
    | StartWake
    | Load
    | CasWaking
    | Backend(ok: bool)
    | CasRequested
    | StoreIdle
    | SwapIdle
    | StartAck
    | AckLoad
    | AckCasRequested
    | AckCasWaking

  function At(s: WakeState, t: Tid): Pc {
    if t in s.pcs then s.pcs[t] else Returned(true)
  }

  function Move(s: WakeState, t: Tid, pc: Pc): WakeState {
    s.(pcs := s.pcs[t := pc])
  }

  function Log(s: WakeState, event: Event): WakeState {
    s.(log := s.log + [event])
  }

  /** One atomic access by thread `t`; a step its program counter does not allow changes nothing. */
  function Take(s: WakeState, t: Tid, step: WakeStep): (s': WakeState) {
    var pc := At(s, t);
    match step
    case StartWake => if pc.Returned? then Move(s, t, Looping) else s
    case Load =>
      if pc != Looping then s
      else if s.phase == Requested then Log(Move(s, t, Returned(true)), WakeOk(t, false))
      else if s.phase == Idle then Move(s, t, SawIdle)
      else s
    case CasWaking =>
      if pc != SawIdle then s
      else if s.phase == Idle then Move(s, t, Calling).(phase := Waking)
      else Move(s, t, Looping)
    case Backend(ok) =>
      if pc != Calling then s
      else if ok then Log(Move(s, t, Succeeded), BackendOk(t))
      else Log(Move(s, t, FailedCall), BackendErr(t))
    case CasRequested =>
      if pc != Succeeded then s
      else if s.phase == Waking then Log(Move(s, t, Returned(true)), WakeOk(t, true)).(phase := Requested)
      else if s.phase == WakingAcknowledged then Move(s, t, Settling)
      else Move(s, t, Panicked)
    case StoreIdle =>
      if pc != Settling then s
      else Log(Move(s, t, Returned(true)), WakeOk(t, true)).(phase := Idle)
    case SwapIdle =>
      if pc != FailedCall then s
      else if s.phase == Waking || s.phase == WakingAcknowledged then
        Log(Move(s, t, Returned(false)), WakeErr(t)).(phase := Idle)
      else Move(s, t, Panicked).(phase := Idle)
    case StartAck => if pc.Returned? then Move(s, t, Acking) else s
    case AckLoad =>
      if pc != Acking then s
      else if s.phase == Requested then Move(s, t, AckSawRequested)
      else if s.phase == Waking then Move(s, t, AckSawWaking)
      else Log(Move(s, t, Returned(true)), Acknowledged(t, false))
    case AckCasRequested =>
      if pc != AckSawRequested then s
      else if s.phase == Requested then Log(Move(s, t, Returned(true)), Acknowledged(t, true)).(phase := Idle)
      else Move(s, t, Acking)
    case AckCasWaking =>
      if pc != AckSawWaking then s
      else if s.phase == Waking then Log(Move(s, t, Returned(true)), Acknowledged(t, true)).(phase := WakingAcknowledged)
      else Move(s, t, Acking)
  }

  /** Any interleaving of any number of threads. */
  ghost function Exec(s: WakeState, steps: seq<(Tid, WakeStep)>): WakeState
    decreases |steps|
  {
    if steps == [] then s else Exec(Take(s, steps[0].0, steps[0].1), steps[1..])
  }

  // ----- What the event log must satisfy, whatever the implementation -----

  /** A backend call has succeeded since the last acknowledgement. */
  ghost predicate Fresh(log: seq<Event>) {
    if log == [] then false
    else
      var last := log[|log| - 1];
      last.BackendOk? || (!last.Acknowledged? && Fresh(log[..|log| - 1]))
  }

  /** The latest event of one thread. */
  ghost function LastOf(log: seq<Event>, t: Tid): Option<Event> {
    if log == [] then None
    else if log[|log| - 1].t == t then Some(log[|log| - 1])
    else LastOf(log[..|log| - 1], t)
  }

  /** What must have been logged before an event for it to be truthful. */
  ghost predicate Justified(before: seq<Event>, event: Event) {
    && (event.WakeOk? && event.own ==> LastOf(before, event.t) == Some(BackendOk(event.t)))
    && (event.WakeOk? && !event.own ==> Fresh(before))
    && (event.WakeErr? ==> LastOf(before, event.t) == Some(BackendErr(event.t)))
  }

  /**
   * Every returned wake is truthful: a success is the caller's own successful backend call or one
   * that succeeded since the last acknowledgement, a failure is the caller's own failed call.
   */
  ghost predicate Truthful(log: seq<Event>) {
    if log == [] then true
    else
      Truthful(log[..|log| - 1]) && Justified(log[..|log| - 1], log[|log| - 1])
  }

  ghost function Successes(log: seq<Event>): nat {
    if log == [] then 0 else (if log[|log| - 1].BackendOk? then 1 else 0) + Successes(log[..|log| - 1])
  }

  ghost function EffectiveAcks(log: seq<Event>): nat {
    if log == [] then 0
    else (if log[|log| - 1].Acknowledged? && log[|log| - 1].effective then 1 else 0) + EffectiveAcks(log[..|log| - 1])
  }

  // ----- Inductive invariant -----

  /** Threads between winning the backend call and settling the phase. */
  predicate Holds(pc: Pc) {
    pc == Calling || pc == Succeeded || pc == Settling || pc == FailedCall
  }

  predicate InFlight(phase: WakePhase) {
    phase == Waking || phase == WakingAcknowledged
  }

  ghost predicate Inv(s: WakeState) {
    PcsOk(s) && OneHolder(s) && LogOk(s)
  }

  ghost predicate PcsOk(s: WakeState) {
    forall t :: t in s.pcs ==> PcOk(s, t)
  }

  /** At most one thread is between winning the backend call and settling, and exactly then the phase is in flight. */
  ghost predicate OneHolder(s: WakeState) {
    && (forall t, u :: t in s.pcs && u in s.pcs && Holds(s.pcs[t]) && Holds(s.pcs[u]) ==> t == u)
    && (InFlight(s.phase) ==> exists t :: t in s.pcs && Holds(s.pcs[t]))
  }

  ghost predicate LogOk(s: WakeState) {
    && Truthful(s.log)
    && (s.phase == Requested ==> Fresh(s.log))
    && (!InFlight(s.phase) ==> Successes(s.log) <= EffectiveAcks(s.log) + (if s.phase == Requested then 1 else 0))
  }

  ghost predicate PcOk(s: WakeState, t: Tid)
    requires t in s.pcs
  {
    var n := EffectiveAcks(s.log) + (if s.phase == Waking then 1 else 0);
    match s.pcs[t]
    case Calling => InFlight(s.phase) && Successes(s.log) + 1 <= n
    case Succeeded => InFlight(s.phase) && Successes(s.log) <= n && LastOf(s.log, t) == Some(BackendOk(t))
                      && (s.phase == Waking ==> Fresh(s.log))
    case Settling => s.phase == WakingAcknowledged && Successes(s.log) <= n && LastOf(s.log, t) == Some(BackendOk(t))
    case FailedCall => InFlight(s.phase) && Successes(s.log) + 1 <= n && LastOf(s.log, t) == Some(BackendErr(t))
    case Panicked => false
    case _ => true
  }

  lemma Appended(log: seq<Event>, event: Event)
    ensures (log + [event])[..|log|] == log
    ensures Successes(log + [event]) == Successes(log) + (if event.BackendOk? then 1 else 0)
    ensures EffectiveAcks(log + [event]) == EffectiveAcks(log) + (if event.Acknowledged? && event.effective then 1 else 0)
    ensures Fresh(log + [event]) <==> event.BackendOk? || (!event.Acknowledged? && Fresh(log))
    ensures forall t :: LastOf(log + [event], t) == if event.t == t then Some(event) else LastOf(log, t)
  {
    assert (log + [event])[..|log|] == log;
  }

  lemma AppendedTruthful(log: seq<Event>, event: Event)
    requires Truthful(log) && Justified(log, event)
    ensures Truthful(log + [event])
  {
    assert (log + [event])[..|log|] == log;
  }

  /** A step logs at most one event, which is justified, and describes how the phase moves with it. */
  lemma TakeLogs(s: WakeState, t: Tid, step: WakeStep)
    requires Inv(s)
    ensures var s' := Take(s, t, step);
            s'.log == s.log || (|s'.log| == |s.log| + 1 && s'.log == s.log + [s'.log[|s.log|]]
                                && s'.log[|s.log|].t == t && Justified(s.log, s'.log[|s.log|]))
  {
    hide Fresh, LastOf, Truthful, Successes, EffectiveAcks;
    if t in s.pcs {
      assert PcOk(s, t);
    }
  }

  lemma TakeKeepsLog(s: WakeState, t: Tid, step: WakeStep)
    requires Inv(s)
    ensures LogOk(Take(s, t, step))
  {
    hide Fresh, LastOf, Truthful, Successes, EffectiveAcks, Justified;
    var s' := Take(s, t, step);
    TakeLogs(s, t, step);
    if t in s.pcs {
      assert PcOk(s, t);
    }
    if s'.log != s.log {
      Appended(s.log, s'.log[|s.log|]);
      AppendedTruthful(s.log, s'.log[|s.log|]);
    }
  }

  lemma HeldExcludes(s: WakeState, t: Tid, step: WakeStep, u: Tid)
    requires Inv(s) && u != t && u in s.pcs && Holds(s.pcs[u]) && t in Take(s, t, step).pcs
    ensures !Holds(Take(s, t, step).pcs[t])
  {
    hide Fresh, LastOf, LogOk, Successes, EffectiveAcks;
    assert PcOk(s, u);
  }

  /** While the phase is in flight somebody holds it. */
  lemma StaysHeld(s: WakeState, t: Tid, step: WakeStep)
    requires Inv(s) && InFlight(Take(s, t, step).phase)
    ensures var s' := Take(s, t, step); exists u :: u in s'.pcs && Holds(s'.pcs[u])
  {
    hide Fresh, LastOf, LogOk, Successes, EffectiveAcks;
    var s' := Take(s, t, step);
    if t in s'.pcs && Holds(s'.pcs[t]) {
      assert Holds(s'.pcs[t]);
    } else {
      assert InFlight(s.phase);
      var u :| u in s.pcs && Holds(s.pcs[u]);
      assert PcOk(s, u);
      assert u in s'.pcs && Holds(s'.pcs[u]);
    }
  }

  lemma TakeKeepsHolder(s: WakeState, t: Tid, step: WakeStep)
    requires Inv(s)
    ensures OneHolder(Take(s, t, step))
  {
    hide Take, PcOk, LogOk;
    var s' := Take(s, t, step);
    OthersStay(s, t, step);
    forall u | u in s'.pcs && u != t && Holds(s'.pcs[u]) && t in s'.pcs ensures !Holds(s'.pcs[t]) {
      HeldExcludes(s, t, step, u);
    }
    if InFlight(s'.phase) {
      StaysHeld(s, t, step);
    }
  }

  lemma OthersStay(s: WakeState, t: Tid, step: WakeStep)
    ensures forall u :: u != t ==> (u in Take(s, t, step).pcs <==> u in s.pcs)
                                   && (u in s.pcs ==> Take(s, t, step).pcs[u] == s.pcs[u])
  {
  }

  lemma TakeKeepsOwnPc(s: WakeState, t: Tid, step: WakeStep)
    requires Inv(s) && t in Take(s, t, step).pcs
    ensures PcOk(Take(s, t, step), t)
  {
    hide Fresh, LastOf, Truthful, Successes, EffectiveAcks, Justified;
    var s' := Take(s, t, step);
    TakeLogs(s, t, step);
    if t in s.pcs {
      assert PcOk(s, t);
    }
    if s'.log != s.log {
      Appended(s.log, s'.log[|s.log|]);
    }
  }

  lemma TakeKeepsOtherPc(s: WakeState, t: Tid, step: WakeStep, u: Tid)
    requires Inv(s) && u in s.pcs && u != t
    ensures PcOk(Take(s, t, step), u)
  {
    hide Fresh, LastOf, Truthful, Successes, EffectiveAcks, Justified;
    var s' := Take(s, t, step);
    TakeLogs(s, t, step);
    assert PcOk(s, u);
    if t in s.pcs {
      assert PcOk(s, t);
    }
    if s'.log != s.log {
      Appended(s.log, s'.log[|s.log|]);
    }
  }

  lemma TakeKeepsInv(s: WakeState, t: Tid, step: WakeStep)
    requires Inv(s)
    ensures Inv(Take(s, t, step))
  {
    hide PcOk, OneHolder, LogOk;
    var s' := Take(s, t, step);
    TakeKeepsLog(s, t, step);
    TakeKeepsHolder(s, t, step);
    forall u | u in s'.pcs ensures PcOk(s', u) {
      if u == t {
        TakeKeepsOwnPc(s, t, step);
      } else {
        TakeKeepsOtherPc(s, t, step, u);
      }
    }
  }

  lemma {:induction false} ExecKeepsInv(s: WakeState, steps: seq<(Tid, WakeStep)>)
    requires Inv(s)
    ensures Inv(Exec(s, steps))
    decreases |steps|
  {
    if steps != [] {
      TakeKeepsInv(s, steps[0].0, steps[0].1);
      ExecKeepsInv(Take(s, steps[0].0, steps[0].1), steps[1..]);
    }
  }

  /**
   * The wake protocol, for every interleaving of any number of wakers and acknowledgers: no phase
   * panic is reachable, at most one thread is in its backend call, backend successes never exceed
   * effective acknowledgements by more than one, every returned result is truthful, and callers that
   * wait for an in-flight phase always wait for a thread that will settle it.
   */
  lemma WakeIsSafe(steps: seq<(Tid, WakeStep)>)
    ensures var s := Exec(Start, steps);
            && (forall t :: t in s.pcs ==> s.pcs[t] != Panicked)
            && (forall t, u :: t in s.pcs && u in s.pcs && s.pcs[t] == Calling && s.pcs[u] == Calling ==> t == u)
            && Successes(s.log) <= EffectiveAcks(s.log) + 1
            && Truthful(s.log)
            && (InFlight(s.phase) ==> exists t :: t in s.pcs && Holds(s.pcs[t]))
  {
    ExecKeepsInv(Start, steps);
    var s := Exec(Start, steps);
    forall t | t in s.pcs ensures s.pcs[t] != Panicked {
      assert PcOk(s, t);
    }
    if InFlight(s.phase) {
      var t :| t in s.pcs && Holds(s.pcs[t]);
      assert PcOk(s, t);
    }
  }

  // ----- Callers get through -----

  /** A caller that finds the handle idle makes the backend call itself and returns exactly its result. */
  lemma IdleCallerCallsBackend(s: WakeState, t: Tid, ok: bool)
    requires s.phase == Idle && At(s, t) == Looping
    ensures Exec(s, [(t, Load), (t, CasWaking), (t, Backend(ok)), (t, if ok then CasRequested else SwapIdle)])
         == WakeState(if ok then Requested else Idle, s.pcs[t := Returned(ok)],
                      s.log + if ok then [BackendOk(t), WakeOk(t, true)] else [BackendErr(t), WakeErr(t)])
  {
    var settle := if ok then CasRequested else SwapIdle;
    var s1 := Take(s, t, Load);
    var s2 := Take(s1, t, CasWaking);
    var s3 := Take(s2, t, Backend(ok));
    var s4 := Take(s3, t, settle);
    ExecFour(s, (t, Load), (t, CasWaking), (t, Backend(ok)), (t, settle));
    assert s4.pcs == s.pcs[t := Returned(ok)];
    assert s4.log == s.log + if ok then [BackendOk(t), WakeOk(t, true)] else [BackendErr(t), WakeErr(t)];
  }

  lemma ExecFour(s: WakeState, a: (Tid, WakeStep), b: (Tid, WakeStep), c: (Tid, WakeStep), d: (Tid, WakeStep))
    ensures Exec(s, [a, b, c, d]) == Take(Take(Take(Take(s, a.0, a.1), b.0, b.1), c.0, c.1), d.0, d.1)
  {
    hide Take;
    var s2 := Take(Take(s, a.0, a.1), b.0, b.1);
    assert [a, b, c, d][1..] == [b, c, d] && [b, c, d][1..] == [c, d];
    ExecTwo(s2, c, d);
  }

  lemma ExecTwo(s: WakeState, a: (Tid, WakeStep), b: (Tid, WakeStep))
    ensures Exec(s, [a, b]) == Take(Take(s, a.0, a.1), b.0, b.1)
  {
    hide Take;
    assert [a, b][1..] == [b] && [b][1..] == [];
    assert Exec(Take(Take(s, a.0, a.1), b.0, b.1), []) == Take(Take(s, a.0, a.1), b.0, b.1);
  }

  /** A caller that finds a wake requested returns at once, without a backend call. */
  lemma RequestedCallerCoalesces(s: WakeState, t: Tid)
    requires s.phase == Requested && At(s, t) == Looping
    ensures Take(s, t, Load) == WakeState(Requested, s.pcs[t := Returned(true)], s.log + [WakeOk(t, false)])
  {
  }

  /** An acknowledgement takes back a requested or in-flight wake, and is otherwise without effect. */
  lemma AcknowledgementClears(s: WakeState, t: Tid)
    requires At(s, t) == Acking
    ensures s.phase == Requested ==>
              Exec(s, [(t, AckLoad), (t, AckCasRequested)]) == WakeState(Idle, s.pcs[t := Returned(true)], s.log + [Acknowledged(t, true)])
    ensures s.phase == Waking ==>
              Exec(s, [(t, AckLoad), (t, AckCasWaking)])
              == WakeState(WakingAcknowledged, s.pcs[t := Returned(true)], s.log + [Acknowledged(t, true)])
    ensures s.phase == Idle || s.phase == WakingAcknowledged ==>
              Take(s, t, AckLoad) == WakeState(s.phase, s.pcs[t := Returned(true)], s.log + [Acknowledged(t, false)])
  {
    ExecTwo(s, (t, AckLoad), (t, AckCasRequested));
    ExecTwo(s, (t, AckLoad), (t, AckCasWaking));
    var seen := Take(s, t, AckLoad);
    assert s.phase == Requested ==> Take(seen, t, AckCasRequested).pcs == s.pcs[t := Returned(true)];
    assert s.phase == Waking ==> Take(seen, t, AckCasWaking).pcs == s.pcs[t := Returned(true)];
  }

  /** A success that was acknowledged in flight leaves the handle idle. */
  lemma AcknowledgedSuccessSettles(s: WakeState, t: Tid)
    requires s.phase == WakingAcknowledged && At(s, t) == Succeeded
    ensures Exec(s, [(t, CasRequested), (t, StoreIdle)]) == WakeState(Idle, s.pcs[t := Returned(true)], s.log + [WakeOk(t, true)])
  {
    ExecTwo(s, (t, CasRequested), (t, StoreIdle));
    assert Take(Take(s, t, CasRequested), t, StoreIdle).pcs == s.pcs[t := Returned(true)];
  }

  /** In every reachable state a caller that has not returned can move, or waits for a thread that can. */
  lemma CallersCanMove(s: WakeState, t: Tid)
    requires Inv(s) && t in s.pcs && !s.pcs[t].Returned?
    ensures (exists step :: Take(s, t, step).pcs[t] != s.pcs[t])
            || (s.pcs[t] == Looping && exists u, step :: u in s.pcs && Holds(s.pcs[u]) && Take(s, u, step).pcs[u] != s.pcs[u])
  {
    hide LastOf, Fresh, LogOk, Successes, EffectiveAcks;
    assert PcOk(s, t);
    if s.pcs[t] == Looping && InFlight(s.phase) {
      var u :| u in s.pcs && Holds(s.pcs[u]);
      assert PcOk(s, u);
      HolderCanMove(s, u);
    } else {
      var step := match s.pcs[t]
        case Looping => Load
        case SawIdle => CasWaking
        case Calling => Backend(true)
        case Succeeded => CasRequested
        case Settling => StoreIdle
        case FailedCall => SwapIdle
        case Acking => AckLoad
        case AckSawRequested => AckCasRequested
        case _ => AckCasWaking;
      assert Take(s, t, step).pcs[t] != s.pcs[t];
    }
  }

  lemma HolderCanMove(s: WakeState, u: Tid)
    requires u in s.pcs && Holds(s.pcs[u])
    ensures exists step :: Take(s, u, step).pcs[u] != s.pcs[u]
  {
    var step := match s.pcs[u]
      case Calling => Backend(true)
      case Succeeded => CasRequested
      case Settling => StoreIdle
      case _ => SwapIdle;
    assert Take(s, u, step).pcs[u] != s.pcs[u];
  }
}
