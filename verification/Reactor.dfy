/**
 * Termination of one reactor: its run loop interleaved with any number of termination requesters,
 * one lock-protected access to the control phase, one duty turn or one wait at a time.
 */
module ReactorTermination {
  import opened Base

  type Tid = nat

  datatype Phase = Running | TerminationRequested | Exited

  datatype HostPhase = HostRunning | HostStopped | HostTerminated | HostFailed

  datatype Status = Requested | AlreadyRequested | AlreadyExited

  datatype Outcome = Terminated | Stopped | FailedInHost | FailedInWait

  /** Where the run loop is. `Cleared` has just seen no request and is about to step its host. */
  datatype Pc =
    | Top
    | Terminating
    | Cleared
    | InTurn
    | TurnFailed
    | Stopping
    | BeforeWait
    | InWait
    | WaitBroken
    | Ended(outcome: Outcome)

  datatype TurnResult = Continue | Stop | Wait | Error

  datatype Event =
    | Answered(t: Tid, status: Status)
    | TurnBegan
    | TurnEnded(result: TurnResult)
    | WaitBegan
    | WaitEnded(ok: bool)
    | Finished(outcome: Outcome)

  datatype Reactor = Reactor(phase: Phase, host: HostPhase, pc: Pc, log: seq<Event>)

  datatype Step =
    | Request(t: Tid)
    | CheckTermination
    | BeginTurn(clockOk: bool)
    | EndTurn(result: TurnResult)
    | Recheck
    | EndWait(ok: bool)
    | Finish

  function New(host: HostPhase): Reactor {
    Reactor(Running, host, Top, [])
  }

  function Log(r: Reactor, event: Event): Reactor {
    r.(log := r.log + [event])
  }

  /** The loop publishes its exit and returns with `outcome`. */
  function Exit(r: Reactor, outcome: Outcome): Reactor {
    Log(r.(phase := Exited, pc := Ended(outcome)), Finished(outcome))
  }

  /** One step of a requester or of the loop; a step its position does not allow changes nothing. */
  function Take(r: Reactor, step: Step): (r': Reactor) {
    match step
    case Request(t) =>
      (match r.phase
       case Running => Log(r, Answered(t, Requested)).(phase := TerminationRequested)
       case TerminationRequested => Log(r, Answered(t, AlreadyRequested))
       case Exited => Log(r, Answered(t, AlreadyExited)))
    case CheckTermination =>
      if !r.pc.Top? then r
      else if r.phase == TerminationRequested then r.(pc := Terminating)
      else r.(pc := Cleared)
    case BeginTurn(clockOk) =>
      if !r.pc.Cleared? then r
      else if r.host != HostRunning then r.(pc := TurnFailed)
      else if !clockOk then r.(host := HostFailed, pc := TurnFailed)
      else Log(r, TurnBegan).(pc := InTurn)
    case EndTurn(result) =>
      if !r.pc.InTurn? then r
      else
        var ended := Log(r, TurnEnded(result));
        (match result
         case Continue => ended.(pc := Top)
         case Stop => ended.(host := HostStopped, pc := Stopping)
         case Wait => ended.(pc := BeforeWait)
         case Error => ended.(host := HostFailed, pc := TurnFailed))
    case Recheck =>
      if !r.pc.BeforeWait? then r
      else if r.phase == TerminationRequested then r.(pc := Top)
      else Log(r, WaitBegan).(pc := InWait)
    case EndWait(ok) =>
      if !r.pc.InWait? then r
      else if ok then Log(r, WaitEnded(true)).(pc := Top)
      else Log(r, WaitEnded(false)).(host := HostFailed, pc := WaitBroken)
    case Finish =>
      (match r.pc
       case Terminating => Exit(r.(host := HostTerminated), Terminated)
       case TurnFailed => Exit(r, FailedInHost)
       case WaitBroken => Exit(r, FailedInWait)
       case Stopping =>
         if r.phase == TerminationRequested then Exit(r.(host := HostTerminated), Terminated) else Exit(r, Stopped)
       case _ => r)
  }

  /** Any interleaving of requesters with the run loop. */
  ghost function Exec(r: Reactor, steps: seq<Step>): Reactor
    decreases |steps|
  {
    if steps == [] then r else Exec(Take(r, steps[0]), steps[1..])
  }

  // ----- What the event log must satisfy -----

  /** How many requesters were told that theirs is the first request. */
  ghost function FirstRequests(log: seq<Event>): nat {
    if log == [] then 0
    else FirstRequests(log[..|log| - 1]) + if log[|log| - 1].Answered? && log[|log| - 1].status.Requested? then 1 else 0
  }

  ghost predicate HasFinished(log: seq<Event>) {
    log != [] && (log[|log| - 1].Finished? || HasFinished(log[..|log| - 1]))
  }

  /** How many duty turns began after a request was published. */
  ghost function TurnsAfterRequest(log: seq<Event>): nat {
    if log == [] then 0
    else
      TurnsAfterRequest(log[..|log| - 1])
      + if log[|log| - 1].TurnBegan? && FirstRequests(log[..|log| - 1]) > 0 then 1 else 0
  }

  /** The loop's own latest event. */
  ghost function LoopEvent(log: seq<Event>): Option<Event> {
    if log == [] then None
    else if log[|log| - 1].Answered? then LoopEvent(log[..|log| - 1])
    else Some(log[|log| - 1])
  }

  /** The loop may run a turn next: at its start, after a turn that continues, or after a wait. */
  ghost predicate TurnIsNext(last: Option<Event>) {
    last == None || last == Some(TurnEnded(Continue)) || last == Some(WaitEnded(true))
  }

  /**
   * When an event may follow a history: the first request before the exit is the only one answered
   * `Requested`, later ones are answered `AlreadyRequested` until the exit and `AlreadyExited` after
   * it. A turn follows the start, a turn that asked to continue, or a wait; a wait follows exactly a turn
   * that asked for one, while nothing is requested. The loop exits once: stopped only after a turn that
   * stopped, without a request; terminated only with one; failed only after a failed turn or wait, or a
   * host that could not begin its turn.
   */
  ghost predicate Justified(before: seq<Event>, event: Event) {
    match event
    case Answered(_, Requested) => FirstRequests(before) == 0 && !HasFinished(before)
    case Answered(_, AlreadyRequested) => FirstRequests(before) == 1 && !HasFinished(before)
    case Answered(_, AlreadyExited) => HasFinished(before)
    case TurnBegan => !HasFinished(before) && TurnIsNext(LoopEvent(before))
    case TurnEnded(_) => !HasFinished(before) && LoopEvent(before) == Some(TurnBegan)
    case WaitBegan => !HasFinished(before) && FirstRequests(before) == 0 && LoopEvent(before) == Some(TurnEnded(Wait))
    case WaitEnded(_) => !HasFinished(before) && LoopEvent(before) == Some(WaitBegan)
    case Finished(outcome) =>
      var last := LoopEvent(before);
      && !HasFinished(before)
      && (outcome.Terminated? ==>
            && FirstRequests(before) == 1
            && (TurnIsNext(last) || last == Some(TurnEnded(Wait)) || last == Some(TurnEnded(Stop))))
      && (outcome.Stopped? ==> FirstRequests(before) == 0 && last == Some(TurnEnded(Stop)))
      && (outcome.FailedInHost? ==> TurnIsNext(last) || last == Some(TurnEnded(Error)))
      && (outcome.FailedInWait? ==> last == Some(WaitEnded(false)))
  }

  ghost predicate Linear(log: seq<Event>) {
    log == [] || (Linear(log[..|log| - 1]) && Justified(log[..|log| - 1], log[|log| - 1]))
  }

  // ----- Inductive invariant -----

  ghost predicate Inv(r: Reactor) {
    && Linear(r.log)
    && (r.phase.Exited? <==> HasFinished(r.log))
    && (r.phase.Exited? <==> r.pc.Ended?)
    && (r.phase.Running? ==> FirstRequests(r.log) == 0)
    && (r.phase.TerminationRequested? ==> FirstRequests(r.log) == 1)
    && FirstRequests(r.log) <= 1
    && TurnsAfterRequest(r.log) <= FirstRequests(r.log)
    && (r.pc.Cleared? ==> TurnsAfterRequest(r.log) == 0)
    && (r.pc.Terminating? ==> r.phase.TerminationRequested?)
    && PlaceOk(r.phase, r.pc, LoopEvent(r.log))
    && (r.pc.InTurn? || r.pc.BeforeWait? || r.pc.InWait? ==> r.host.HostRunning?)
    && (r.pc.Stopping? ==> r.host.HostStopped?)
    && (r.pc.WaitBroken? ==> r.host.HostFailed?)
    && (r.pc.TurnFailed? ==> !r.host.HostRunning?)
    && (r.pc.Ended? ==> HostAgrees(r.host, r.pc.outcome))
    && (r.pc.Ended? && r.pc.outcome.Stopped? ==> FirstRequests(r.log) == 0)
    && (r.pc.Ended? && r.pc.outcome.Terminated? ==> FirstRequests(r.log) == 1)
  }

  /** Where the loop stands after its latest event. */
  ghost predicate PlaceOk(phase: Phase, pc: Pc, last: Option<Event>) {
    match pc
    case Top => TurnIsNext(last) || (last == Some(TurnEnded(Wait)) && phase.TerminationRequested?)
    case Terminating => TurnIsNext(last) || last == Some(TurnEnded(Wait))
    case Cleared => TurnIsNext(last)
    case InTurn => last == Some(TurnBegan)
    case TurnFailed => TurnIsNext(last) || last == Some(TurnEnded(Error))
    case Stopping => last == Some(TurnEnded(Stop))
    case BeforeWait => last == Some(TurnEnded(Wait))
    case InWait => last == Some(WaitBegan)
    case WaitBroken => last == Some(WaitEnded(false))
    case Ended(_) => true
  }

  predicate HostAgrees(host: HostPhase, outcome: Outcome) {
    match outcome
    case Terminated => host.HostTerminated?
    case Stopped => host.HostStopped?
    case FailedInHost => !host.HostRunning?
    case FailedInWait => host.HostFailed?
  }

  lemma Appended(log: seq<Event>, event: Event)
    ensures (log + [event])[..|log|] == log
    ensures HasFinished(log + [event]) <==> HasFinished(log) || event.Finished?
    ensures FirstRequests(log + [event]) == FirstRequests(log) + if event.Answered? && event.status.Requested? then 1 else 0
    ensures TurnsAfterRequest(log + [event]) == TurnsAfterRequest(log) + if event.TurnBegan? && FirstRequests(log) > 0 then 1 else 0
    ensures LoopEvent(log + [event]) == if event.Answered? then LoopEvent(log) else Some(event)
    ensures Linear(log + [event]) <==> Linear(log) && Justified(log, event)
  {
    assert (log + [event])[..|log|] == log;
  }

  lemma TakeKeepsInv(r: Reactor, step: Step)
    requires Inv(r)
    ensures Inv(Take(r, step))
  {
    hide Linear, HasFinished, FirstRequests, TurnsAfterRequest, LoopEvent;
    var r' := Take(r, step);
    if r'.log != r.log {
      Appended(r.log, r'.log[|r.log|]);
    }
  }

  lemma {:induction false} ExecKeepsInv(r: Reactor, steps: seq<Step>)
    requires Inv(r)
    ensures Inv(Exec(r, steps))
    decreases |steps|
  {
    hide Inv, Take;
    if steps != [] {
      TakeKeepsInv(r, steps[0]);
      ExecKeepsInv(Take(r, steps[0]), steps[1..]);
    }
  }

  /**
   * Termination is linearized, for every interleaving of requesters with the run loop: the answers
   * follow one first request, at most one duty turn begins after it, the loop then never ends as
   * `Stopped`, it ends as `Terminated` only after it, and the final host phase agrees. `Linear` also
   * says what may follow each turn: another turn after one that continues, a wait only after one that waits.
   */
  lemma TerminationIsLinear(host: HostPhase, steps: seq<Step>)
    ensures var r := Exec(New(host), steps);
            && Linear(r.log)
            && FirstRequests(r.log) <= 1
            && TurnsAfterRequest(r.log) <= 1
            && (r.pc.Ended? && FirstRequests(r.log) == 1 ==> !r.pc.outcome.Stopped?)
            && (r.pc.Ended? && FirstRequests(r.log) == 0 ==> !r.pc.outcome.Terminated?)
            && (r.pc.Ended? ==> HostAgrees(r.host, r.pc.outcome))
  {
    ExecKeepsInv(New(host), steps);
  }

  // ----- The loop ends soon after a request -----

  /** Steps the loop still takes before it ends, once a request is published. */
  function Remaining(pc: Pc): nat {
    match pc
    case Cleared => 5
    case InTurn => 4
    case BeforeWait => 3
    case InWait => 3
    case Top => 2
    case Terminating => 1
    case Stopping => 1
    case TurnFailed => 1
    case WaitBroken => 1
    case Ended(_) => 0
  }

  /** How many steps of a run the loop itself takes. */
  ghost function LoopSteps(r: Reactor, steps: seq<Step>): nat
    decreases |steps|
  {
    if steps == [] then 0
    else LoopSteps(Take(r, steps[0]), steps[1..]) + if !steps[0].Request? && Take(r, steps[0]) != r then 1 else 0
  }

  /**
   * Once a request is published, whatever the requesters do, the loop takes at most `Remaining`
   * further steps; `LoopCanStep` says that until it has ended it can take one.
   */
  lemma {:induction false} RequestedLoopEnds(r: Reactor, steps: seq<Step>)
    requires r.phase.TerminationRequested? || r.pc.Ended?
    ensures LoopSteps(r, steps) + Remaining(Exec(r, steps).pc) <= Remaining(r.pc) <= 5
    decreases |steps|
  {
    if steps != [] {
      var r' := Take(r, steps[0]);
      assert r'.phase.TerminationRequested? || r'.pc.Ended?;
      RequestedLoopEnds(r', steps[1..]);
    }
  }

  lemma LoopCanStep(r: Reactor)
    requires !r.pc.Ended?
    ensures exists step: Step :: !step.Request? && Take(r, step).pc != r.pc
  {
    var step :=
      if r.pc.Top? then CheckTermination
      else if r.pc.Cleared? then BeginTurn(true)
      else if r.pc.InTurn? then EndTurn(Continue)
      else if r.pc.BeforeWait? then Recheck
      else if r.pc.InWait? then EndWait(true)
      else Finish;
    assert Take(r, step).pc != r.pc;
  }
}
