/**
 * The shutdown barrier: any number of subscribers, the unique completer and the completion cells
 * between them, one lock-protected access or one request callback at a time.
 */
module ShutdownBarrier {

  /** One call of `subscribe`, which owns one completion cell. */
  type Sid = nat

  datatype Phase = Open | Requesting | Requested | Completed | Closed

  datatype Failure = Full | BarrierClosed | RequestFailed | Unwound

  datatype CallResult = CallOk | CallErr | CallPanics

  /** Where a subscription is; `Abandoned` has dropped the completion it was given. */
  datatype Pc =
    | Entering
    | Calling
    | Called(result: CallResult)
    | SelfCompleting
    | Subscribed
    | Abandoned
    | Failed(failure: Failure)
    | Panicked

  datatype Cell = Pending(alive: bool) | Ready(ok: bool) | Consumed

  /** The completer: `Delivering` is working through the subscribers it took when it settled. */
  datatype Owner = Active | Delivering(rest: seq<Sid>, ok: bool) | Settled

  datatype Event =
    | CallbackSucceeded(s: Sid)
    | Resolved(s: Sid, ok: bool)
    | Took(s: Sid, ok: bool)

  datatype Barrier = Barrier(
    capacity: nat, phase: Phase, subscribers: seq<Sid>, pcs: map<Sid, Pc>, cells: map<Sid, Cell>, owner: Owner, log: seq<Event>)

  datatype Step =
    | Subscribe(s: Sid)
    | Enter(s: Sid)
    | Callback(s: Sid, result: CallResult)
    | FinishCall(s: Sid)
    | CompleteSelf(s: Sid)
    | TryTake(s: Sid)
    | Abandon(s: Sid)
    | Settle(ok: bool)
    | Deliver

  function New(capacity: nat): Barrier {
    Barrier(capacity, Open, [], map[], map[], Active, [])
  }

  function Move(b: Barrier, s: Sid, pc: Pc): Barrier {
    b.(pcs := b.pcs[s := pc])
  }

  predicate Terminal(phase: Phase) {
    phase.Completed? || phase.Closed?
  }

  /** A producer settles one cell; only a pending cell with a live observer takes the result. */
  function Resolve(b: Barrier, s: Sid, ok: bool): (b': Barrier)
    requires s in b.cells
    ensures b' == b.(cells := b'.cells, log := b'.log) && b'.cells.Keys == b.cells.Keys
  {
    match b.cells[s]
    case Pending(true) => b.(cells := b.cells[s := Ready(ok)], log := b.log + [Resolved(s, ok)])
    case Pending(false) => b.(cells := b.cells[s := Consumed])
    case _ => b
  }

  function Admit(b: Barrier, s: Sid): Barrier {
    Move(b, s, Subscribed).(subscribers := b.subscribers + [s])
  }

  function TakeEnter(b: Barrier, s: Sid): Barrier {
    match b.phase
    case Open => Move(b, s, Calling).(phase := Requesting)
    case Requesting => b
    case Requested => if |b.subscribers| >= b.capacity then Move(b, s, Failed(Full)) else Admit(b, s)
    case Completed => Move(b, s, SelfCompleting)
    case Closed => Move(b, s, Failed(BarrierClosed))
  }

  function TakeFinishCall(b: Barrier, s: Sid, result: CallResult): Barrier {
    if result.CallPanics? then
      Move(b, s, Failed(Unwound)).(phase := if b.phase.Requesting? then Open else b.phase)
    else
      match b.phase
      case Requesting =>
        if result.CallOk? then Admit(b, s).(phase := Requested) else Move(b, s, Failed(RequestFailed)).(phase := Open)
      case Completed => Move(b, s, SelfCompleting)
      case Closed => Move(b, s, Failed(BarrierClosed))
      case _ => Move(b, s, Panicked)
  }

  function TakeSettle(b: Barrier, ok: bool): Barrier {
    if Terminal(b.phase) then b.(owner := Delivering([], ok))
    else b.(phase := if ok then Completed else Closed, subscribers := [], owner := Delivering(b.subscribers, ok))
  }

  function TakeTry(b: Barrier, s: Sid): Barrier
    requires s in b.cells
  {
    if b.cells[s].Ready? then b.(cells := b.cells[s := Consumed], log := b.log + [Took(s, b.cells[s].ok)]) else b
  }

  function TakeAbandon(b: Barrier, s: Sid): Barrier
    requires s in b.cells
  {
    Move(b, s, Abandoned).(cells := b.cells[s := if b.cells[s].Pending? then Pending(false) else Consumed])
  }

  function TakeDeliver(b: Barrier): Barrier
    requires b.owner.Delivering?
  {
    if b.owner.rest == [] then b.(owner := Settled)
    else
      var s := b.owner.rest[0];
      var rest := b.(owner := Delivering(b.owner.rest[1..], b.owner.ok));
      if s in b.cells then Resolve(rest, s, b.owner.ok) else rest
  }

  predicate Is(b: Barrier, s: Sid, pc: Pc) {
    s in b.pcs && b.pcs[s] == pc && s in b.cells
  }

  /** One access; a step the state does not allow changes nothing. */
  function Take(b: Barrier, step: Step): (b': Barrier) {
    match step
    case Subscribe(s) => if s in b.pcs then b else Move(b, s, Entering).(cells := b.cells[s := Pending(true)])
    case Enter(s) => if Is(b, s, Entering) then TakeEnter(b, s) else b
    case Callback(s, result) =>
      if !Is(b, s, Calling) then b
      else Move(b, s, Called(result)).(log := if result.CallOk? then b.log + [CallbackSucceeded(s)] else b.log)
    case FinishCall(s) => if s in b.pcs && b.pcs[s].Called? then TakeFinishCall(b, s, b.pcs[s].result) else b
    case CompleteSelf(s) => if Is(b, s, SelfCompleting) then Resolve(Move(b, s, Subscribed), s, true) else b
    case TryTake(s) => if Is(b, s, Subscribed) then TakeTry(b, s) else b
    case Abandon(s) => if Is(b, s, Subscribed) then TakeAbandon(b, s) else b
    case Settle(ok) => if b.owner.Active? then TakeSettle(b, ok) else b
    case Deliver => if b.owner.Delivering? then TakeDeliver(b) else b
  }

  ghost function Exec(b: Barrier, steps: seq<Step>): Barrier
    decreases |steps|
  {
    if steps == [] then b else Exec(Take(b, steps[0]), steps[1..])
  }

  // ----- Counting over the log -----

  ghost function Successes(log: seq<Event>): nat {
    if log == [] then 0 else Successes(log[..|log| - 1]) + if log[|log| - 1].CallbackSucceeded? then 1 else 0
  }

  /** How often one subscription's completion became ready. */
  ghost function Resolutions(log: seq<Event>, s: Sid): nat {
    if log == [] then 0
    else Resolutions(log[..|log| - 1], s) + if log[|log| - 1].Resolved? && log[|log| - 1].s == s then 1 else 0
  }

  /** How often one subscription's observer received a result. */
  ghost function Receipts(log: seq<Event>, s: Sid): nat {
    if log == [] then 0
    else Receipts(log[..|log| - 1], s) + if log[|log| - 1].Took? && log[|log| - 1].s == s then 1 else 0
  }

  // ----- Inductive invariant -----

  /** Subscriptions retained by the barrier or by the settling completer. */
  function Waiting(b: Barrier): seq<Sid> {
    if b.owner.Delivering? then b.owner.rest + b.subscribers else b.subscribers
  }

  predicate IsAttempt(pc: Pc) {
    pc.Calling? || pc.Called?
  }

  ghost predicate AttemptsOk(phase: Phase, pcs: map<Sid, Pc>) {
    && (forall s, u :: s in pcs && u in pcs && IsAttempt(pcs[s]) && IsAttempt(pcs[u]) ==> s == u)
    && (forall s :: s in pcs && IsAttempt(pcs[s]) ==> phase.Requesting? || Terminal(phase))
    && (forall s :: s in pcs ==> !pcs[s].Panicked?)
    && (forall s :: s in pcs && pcs[s].SelfCompleting? ==> phase.Completed?)
  }

  /** Waiting subscribers always wait for somebody's attempt. */
  ghost predicate RequestingOk(phase: Phase, pcs: map<Sid, Pc>) {
    phase.Requesting? ==> exists s :: s in pcs && IsAttempt(pcs[s])
  }

  ghost predicate SuccessesOk(phase: Phase, pcs: map<Sid, Pc>, successes: nat) {
    && successes <= 1
    && (phase.Open? ==> successes == 0)
    && (forall s :: s in pcs && IsAttempt(pcs[s]) ==> successes == if pcs[s] == Called(CallOk) then 1 else 0)
  }

  ghost predicate OwnerOk(b: Barrier) {
    && (b.owner.Active? <==> !Terminal(b.phase))
    && (b.owner.Delivering? ==> b.owner.ok == b.phase.Completed?)
    && (!b.phase.Requested? ==> b.subscribers == [])
    && |b.subscribers| <= b.capacity
  }

  /** Everyone retained is waiting for its result, once. */
  ghost predicate WaitingOk(waiting: seq<Sid>, pcs: map<Sid, Pc>, cells: map<Sid, Cell>) {
    && (forall i, j :: 0 <= i < j < |waiting| ==> waiting[i] != waiting[j])
    && (forall s :: s in waiting ==> s in pcs && (pcs[s].Subscribed? || pcs[s].Abandoned?) && s in cells && cells[s].Pending?)
  }

  ghost predicate CellsOk(b: Barrier) {
    b.cells.Keys == b.pcs.Keys
    && forall s :: s in b.pcs ==>
         CellOk(b.pcs[s], b.cells[s], s in Waiting(b), b.phase, Resolutions(b.log, s), Receipts(b.log, s))
  }

  ghost predicate FreshOk(pcs: map<Sid, Pc>, log: seq<Event>) {
    forall s :: s !in pcs ==> Resolutions(log, s) == 0 && Receipts(log, s) == 0
  }

  ghost predicate CellOk(pc: Pc, cell: Cell, waiting: bool, phase: Phase, resolutions: nat, receipts: nat) {
    && (!pc.Subscribed? && !pc.Abandoned? ==> cell == Pending(true) && resolutions == 0)
    && (pc.Subscribed? && cell.Pending? ==> cell.alive && waiting && resolutions == 0)
    && (pc.Subscribed? && !cell.Pending? ==> resolutions == 1)
    && (pc.Abandoned? ==> cell == Consumed || (cell == Pending(false) && resolutions == 0))
    && (cell.Ready? ==> receipts == 0 && Terminal(phase) && cell.ok == phase.Completed?)
    && receipts <= resolutions <= 1
  }

  /** Every result delivered or received is the barrier's terminal one. */
  ghost predicate ResultsOk(phase: Phase, log: seq<Event>) {
    forall i :: 0 <= i < |log| && !log[i].CallbackSucceeded? ==> Terminal(phase) && log[i].ok == phase.Completed?
  }

  ghost predicate Inv(b: Barrier) {
    && b.capacity >= 1
    && AttemptsOk(b.phase, b.pcs) && RequestingOk(b.phase, b.pcs) && SuccessesOk(b.phase, b.pcs, Successes(b.log))
    && OwnerOk(b) && WaitingOk(Waiting(b), b.pcs, b.cells) && CellsOk(b) && FreshOk(b.pcs, b.log) && ResultsOk(b.phase, b.log)
  }

  lemma Appended(log: seq<Event>, event: Event)
    ensures (log + [event])[..|log|] == log
    ensures Successes(log + [event]) == Successes(log) + if event.CallbackSucceeded? then 1 else 0
    ensures forall s :: Resolutions(log + [event], s) == Resolutions(log, s) + if event == Resolved(s, true) || event == Resolved(s, false) then 1 else 0
    ensures forall s :: Receipts(log + [event], s) == Receipts(log, s) + if event == Took(s, true) || event == Took(s, false) then 1 else 0
  {
    assert (log + [event])[..|log|] == log;
  }

  lemma KeepsAttemptsEntering(b: Barrier, step: Step)
    requires Inv(b) && step.Enter?
    ensures var b' := Take(b, step); AttemptsOk(b'.phase, b'.pcs)
  {
    hide RequestingOk, SuccessesOk, WaitingOk, CellsOk, ResultsOk, Resolve, Successes, FreshOk;
  }

  lemma KeepsAttemptsFinishing(b: Barrier, step: Step)
    requires Inv(b) && step.FinishCall?
    ensures var b' := Take(b, step); AttemptsOk(b'.phase, b'.pcs)
  {
    hide RequestingOk, SuccessesOk, WaitingOk, CellsOk, ResultsOk, Resolve, Successes, FreshOk;
  }

  lemma KeepsAttemptsElsewhere(b: Barrier, step: Step)
    requires Inv(b) && !step.Enter? && !step.FinishCall?
    ensures var b' := Take(b, step); AttemptsOk(b'.phase, b'.pcs)
  {
    hide RequestingOk, SuccessesOk, WaitingOk, CellsOk, ResultsOk, Resolve, Successes, FreshOk;
  }

  lemma KeepsAttempts(b: Barrier, step: Step)
    requires Inv(b)
    ensures var b' := Take(b, step); AttemptsOk(b'.phase, b'.pcs)
  {
    hide Inv, Take, AttemptsOk;
    if step.Enter? {
      KeepsAttemptsEntering(b, step);
    } else if step.FinishCall? {
      KeepsAttemptsFinishing(b, step);
    } else {
      KeepsAttemptsElsewhere(b, step);
    }
  }

  lemma KeepsRequesting(b: Barrier, step: Step)
    requires Inv(b)
    ensures var b' := Take(b, step); RequestingOk(b'.phase, b'.pcs)
  {
    hide SuccessesOk, WaitingOk, CellsOk, ResultsOk, Resolve, Successes, FreshOk;
    var b' := Take(b, step);
    if b'.phase.Requesting? {
      if b.phase.Requesting? {
        var s :| s in b.pcs && IsAttempt(b.pcs[s]);
        assert s in b'.pcs && IsAttempt(b'.pcs[s]);
      } else {
        assert step.Enter? && step.s in b'.pcs && IsAttempt(b'.pcs[step.s]);
      }
    }
  }

  lemma CountsSuccess(b: Barrier, step: Step)
    ensures Successes(Take(b, step).log)
         == Successes(b.log) + if step.Callback? && step.result.CallOk? && Is(b, step.s, Calling) then 1 else 0
  {
    hide Successes;
    var b' := Take(b, step);
    if b'.log != b.log {
      Appended(b.log, b'.log[|b.log|]);
    }
  }

  lemma KeepsSuccesses(b: Barrier, step: Step)
    requires Inv(b)
    ensures var b' := Take(b, step); SuccessesOk(b'.phase, b'.pcs, Successes(b'.log))
  {
    hide OwnerOk, WaitingOk, CellsOk, ResultsOk, Successes, RequestingOk, FreshOk, Resolve;
    CountsSuccess(b, step);
  }

  lemma KeepsOwner(b: Barrier, step: Step)
    requires Inv(b)
    ensures OwnerOk(Take(b, step)) && Take(b, step).capacity >= 1
  {
    hide WaitingOk, CellsOk, ResultsOk, Successes, SuccessesOk, RequestingOk, FreshOk;
  }

  /** The subscription whose position or cell a step may change. */
  function Focus(b: Barrier, step: Step): Sid {
    if step.Deliver? then (if b.owner.Delivering? && b.owner.rest != [] then b.owner.rest[0] else 0)
    else if step.Settle? then 0
    else step.s
  }

  /** Retained subscriptions change only by an admission at the back or a delivery at the front. */
  lemma WaitingMoves(b: Barrier, step: Step)
    requires Inv(b)
    ensures var b' := Take(b, step);
            var s := Focus(b, step);
            || Waiting(b') == Waiting(b)
            || (Waiting(b') == Waiting(b) + [s] && s in b.pcs && !b.pcs[s].Subscribed? && !b.pcs[s].Abandoned?
                && b'.pcs == b.pcs[s := Subscribed] && b'.cells == b.cells)
            || (step.Deliver? && Waiting(b) != [] && Waiting(b)[0] == s && Waiting(b') == Waiting(b)[1..])
  {
    hide AttemptsOk, SuccessesOk, WaitingOk, CellsOk, ResultsOk, RequestingOk, FreshOk;
    var b' := Take(b, step);
    if step.Settle? {
      assert b.subscribers + [] == b.subscribers;
    }
  }

  /** A step logs at most one event, about the subscription in focus. */
  lemma LogsFocus(b: Barrier, step: Step)
    ensures var b' := Take(b, step);
            || b'.log == b.log
            || (|b'.log| == |b.log| + 1 && b'.log == b.log + [b'.log[|b.log|]] && b'.log[|b.log|].s == Focus(b, step) && !step.Settle?)
  {
  }

  lemma OthersKeepPlace(b: Barrier, step: Step, u: Sid)
    requires u != Focus(b, step) || step.Settle?
    ensures var b' := Take(b, step);
            && (u in b'.pcs <==> u in b.pcs) && (u in b.pcs ==> b'.pcs[u] == b.pcs[u])
            && (u in b'.cells <==> u in b.cells) && (u in b.cells ==> b'.cells[u] == b.cells[u])
  {
  }

  lemma OthersUntouched(b: Barrier, step: Step, u: Sid)
    requires u != Focus(b, step) || step.Settle?
    ensures var b' := Take(b, step);
            && (u in b'.pcs <==> u in b.pcs) && (u in b.pcs ==> b'.pcs[u] == b.pcs[u])
            && (u in b'.cells <==> u in b.cells) && (u in b.cells ==> b'.cells[u] == b.cells[u])
            && Resolutions(b'.log, u) == Resolutions(b.log, u) && Receipts(b'.log, u) == Receipts(b.log, u)
  {
    hide Take, Focus, Resolutions, Receipts, Successes;
    var b' := Take(b, step);
    OthersKeepPlace(b, step, u);
    LogsFocus(b, step);
    if b'.log != b.log {
      Appended(b.log, b'.log[|b.log|]);
    }
  }

  lemma TerminalIsFinal(b: Barrier, step: Step)
    requires Inv(b) && Terminal(b.phase)
    ensures Take(b, step).phase == b.phase
  {
    hide SuccessesOk, WaitingOk, CellsOk, ResultsOk, RequestingOk, FreshOk;
  }

  lemma KeepsWaiting(b: Barrier, step: Step)
    requires Inv(b)
    ensures var b' := Take(b, step); WaitingOk(Waiting(b'), b'.pcs, b'.cells)
  {
    hide Take, Waiting, AttemptsOk, SuccessesOk, CellsOk, ResultsOk, OwnerOk, Resolutions, Receipts, RequestingOk, FreshOk;
    var b' := Take(b, step);
    WaitingMoves(b, step);
    forall u | u in Waiting(b')
      ensures u in b'.pcs && (b'.pcs[u].Subscribed? || b'.pcs[u].Abandoned?) && u in b'.cells && b'.cells[u].Pending?
    {
      if u != Focus(b, step) || step.Settle? {
        OthersUntouched(b, step, u);
      } else {
        FocusStaysPending(b, step);
      }
    }
  }

  lemma FocusStaysPending(b: Barrier, step: Step)
    requires Inv(b) && !step.Settle? && Focus(b, step) in Waiting(Take(b, step))
    ensures var b' := Take(b, step);
            var u := Focus(b, step);
            u in b'.pcs && (b'.pcs[u].Subscribed? || b'.pcs[u].Abandoned?) && u in b'.cells && b'.cells[u].Pending?
  {
    hide SuccessesOk, AttemptsOk, ResultsOk, Resolutions, Receipts, RequestingOk, FreshOk;
    WaitingMoves(b, step);
  }

  lemma KeepsSubscriberCell(b: Barrier, step: Step)
    requires Inv(b) && (step.Subscribe? || step.Enter? || step.Callback?)
    requires Focus(b, step) in b.pcs
    ensures var b' := Take(b, step);
            var u := Focus(b, step);
            && u in b'.pcs && u in b'.cells
            && CellOk(b'.pcs[u], b'.cells[u], u in Waiting(b'), b'.phase, Resolutions(b'.log, u), Receipts(b'.log, u))
  {
    hide SuccessesOk, ResultsOk, Successes, Resolutions, Receipts, RequestingOk, FreshOk;
    var b' := Take(b, step);
    if b'.log != b.log {
      Appended(b.log, b'.log[|b.log|]);
    }
  }

  lemma KeepsCallerCell(b: Barrier, step: Step)
    requires Inv(b) && (step.FinishCall?)
    requires Focus(b, step) in b.pcs
    ensures var b' := Take(b, step);
            var u := Focus(b, step);
            && u in b'.pcs && u in b'.cells
            && CellOk(b'.pcs[u], b'.cells[u], u in Waiting(b'), b'.phase, Resolutions(b'.log, u), Receipts(b'.log, u))
  {
    hide SuccessesOk, ResultsOk, Successes, Resolutions, Receipts, RequestingOk, FreshOk;
  }

  lemma KeepsObservedCell(b: Barrier, step: Step)
    requires Inv(b) && (step.CompleteSelf? || step.TryTake? || step.Abandon?)
    requires Focus(b, step) in b.pcs
    ensures var b' := Take(b, step);
            var u := Focus(b, step);
            && u in b'.pcs && u in b'.cells
            && CellOk(b'.pcs[u], b'.cells[u], u in Waiting(b'), b'.phase, Resolutions(b'.log, u), Receipts(b'.log, u))
  {
    hide SuccessesOk, ResultsOk, Successes, Resolutions, Receipts, RequestingOk, FreshOk;
    var b' := Take(b, step);
    if b'.log != b.log {
      Appended(b.log, b'.log[|b.log|]);
    }
  }

  lemma KeepsDeliveredCell(b: Barrier, step: Step)
    requires Inv(b) && (step.Deliver?)
    requires Focus(b, step) in b.pcs
    ensures var b' := Take(b, step);
            var u := Focus(b, step);
            && u in b'.pcs && u in b'.cells
            && CellOk(b'.pcs[u], b'.cells[u], u in Waiting(b'), b'.phase, Resolutions(b'.log, u), Receipts(b'.log, u))
  {
    hide SuccessesOk, ResultsOk, Successes, Resolutions, Receipts, RequestingOk, FreshOk;
    var b' := Take(b, step);
    WaitingMoves(b, step);
    if b'.log != b.log {
      Appended(b.log, b'.log[|b.log|]);
    }
  }

  lemma KeepsCells(b: Barrier, step: Step)
    requires Inv(b)
    ensures CellsOk(Take(b, step))
  {
    hide Take, Focus, Waiting, AttemptsOk, SuccessesOk, ResultsOk, OwnerOk, WaitingOk, Successes, Resolutions, Receipts, RequestingOk, FreshOk;
    var b' := Take(b, step);
    forall u
      ensures u in b'.pcs <==> u in b'.cells
      ensures u in b'.pcs ==>
                CellOk(b'.pcs[u], b'.cells[u], u in Waiting(b'), b'.phase, Resolutions(b'.log, u), Receipts(b'.log, u))
    {
      if u != Focus(b, step) || step.Settle? {
        KeepsOtherCell(b, step, u);
      } else if u !in b.pcs {
        KeepsFreshCell(b, step);
      } else if step.Deliver? {
        KeepsDeliveredCell(b, step);
      } else if step.CompleteSelf? || step.TryTake? || step.Abandon? {
        KeepsObservedCell(b, step);
      } else if step.FinishCall? {
        KeepsCallerCell(b, step);
      } else {
        KeepsSubscriberCell(b, step);
      }
    }
  }

  lemma KeepsFresh(b: Barrier, step: Step)
    requires Inv(b)
    ensures var b' := Take(b, step); FreshOk(b'.pcs, b'.log)
  {
    hide Take, AttemptsOk, RequestingOk, SuccessesOk, ResultsOk, OwnerOk, WaitingOk, CellsOk, Successes, Resolutions, Receipts;
    var b' := Take(b, step);
    LogsFocus(b, step);
    PlacesStay(b, step);
    if b'.log != b.log {
      Appended(b.log, b'.log[|b.log|]);
    }
  }

  /** Subscriptions never disappear, and only a present one is logged. */
  lemma PlacesStay(b: Barrier, step: Step)
    requires Inv(b)
    ensures var b' := Take(b, step);
            b.pcs.Keys <= b'.pcs.Keys && (b'.log != b.log ==> Focus(b, step) in b.pcs)
  {
    hide AttemptsOk, RequestingOk, SuccessesOk, ResultsOk, OwnerOk, FreshOk, Successes, Resolutions, Receipts;
  }

  lemma KeepsOtherCell(b: Barrier, step: Step, u: Sid)
    requires Inv(b) && (u != Focus(b, step) || step.Settle?)
    ensures var b' := Take(b, step);
            && (u in b'.pcs <==> u in b'.cells)
            && (u in b'.pcs ==>
                  CellOk(b'.pcs[u], b'.cells[u], u in Waiting(b'), b'.phase, Resolutions(b'.log, u), Receipts(b'.log, u)))
  {
    hide Take, Focus, Waiting, AttemptsOk, SuccessesOk, ResultsOk, OwnerOk, WaitingOk, Successes, Resolutions, Receipts, RequestingOk, FreshOk;
    OthersUntouched(b, step, u);
    if u in Waiting(b) {
      OthersKeepWaiting(b, step, u);
    }
    if Terminal(b.phase) {
      TerminalIsFinal(b, step);
    }
  }

  lemma OthersKeepWaiting(b: Barrier, step: Step, u: Sid)
    requires Inv(b) && (u != Focus(b, step) || step.Settle?) && u in Waiting(b)
    ensures u in Waiting(Take(b, step))
  {
    hide Take, AttemptsOk, SuccessesOk, ResultsOk, OwnerOk, WaitingOk, CellsOk, RequestingOk, FreshOk;
    WaitingMoves(b, step);
  }

  lemma KeepsFreshCell(b: Barrier, step: Step)
    requires Inv(b) && !step.Settle? && Focus(b, step) !in b.pcs
    ensures var b' := Take(b, step);
            var u := Focus(b, step);
            && (u in b'.pcs <==> u in b'.cells)
            && (u in b'.pcs ==>
                  CellOk(b'.pcs[u], b'.cells[u], u in Waiting(b'), b'.phase, Resolutions(b'.log, u), Receipts(b'.log, u)))
  {
    hide AttemptsOk, SuccessesOk, ResultsOk, OwnerOk, Successes, Resolutions, Receipts, RequestingOk;
  }

  lemma KeepsResults(b: Barrier, step: Step)
    requires Inv(b)
    ensures var b' := Take(b, step); ResultsOk(b'.phase, b'.log)
  {
    hide SuccessesOk, Successes, WaitingOk, RequestingOk, FreshOk;
  }

  lemma TakeKeepsInv(b: Barrier, step: Step)
    requires Inv(b)
    ensures Inv(Take(b, step))
  {
    hide Take, AttemptsOk, RequestingOk, SuccessesOk, OwnerOk, WaitingOk, CellsOk, FreshOk, ResultsOk;
    KeepsAttempts(b, step);
    KeepsRequesting(b, step);
    KeepsSuccesses(b, step);
    KeepsOwner(b, step);
    KeepsWaiting(b, step);
    KeepsCells(b, step);
    KeepsFresh(b, step);
    KeepsResults(b, step);
  }

  lemma {:induction false} ExecKeepsInv(b: Barrier, steps: seq<Step>)
    requires Inv(b)
    ensures Inv(Exec(b, steps))
    decreases |steps|
  {
    hide Inv, Take;
    if steps != [] {
      TakeKeepsInv(b, steps[0]);
      ExecKeepsInv(Take(b, steps[0]), steps[1..]);
    }
  }

  lemma NewIsOk(capacity: nat)
    requires capacity >= 1
    ensures Inv(New(capacity))
  {
  }

  /**
   * The barrier, for every interleaving of subscribers with the completer: at most one request
   * callback is in flight and at most one ever succeeds, no invariant panic is reached, retained
   * subscribers never exceed the capacity, no completion resolves or is received twice, and every
   * result is the barrier's terminal one.
   */
  lemma BarrierIsSafe(capacity: nat, steps: seq<Step>)
    requires capacity >= 1
    ensures var b := Exec(New(capacity), steps);
            && (forall s, u :: s in b.pcs && u in b.pcs && IsAttempt(b.pcs[s]) && IsAttempt(b.pcs[u]) ==> s == u)
            && Successes(b.log) <= 1
            && (forall s :: s in b.pcs ==> !b.pcs[s].Panicked?)
            && |b.subscribers| <= capacity
            && (forall s :: Resolutions(b.log, s) <= 1 && Receipts(b.log, s) <= Resolutions(b.log, s))
            && ResultsOk(b.phase, b.log)
  {
    hide Take, Resolutions, Receipts, Successes;
    NewIsOk(capacity);
    ExecKeepsInv(New(capacity), steps);
    ExecKeepsCapacity(New(capacity), steps);
  }

  /**
   * Once the completer has settled and delivered, every subscription that was told `Ok` and still
   * has its observer has resolved exactly once; one that was told an error never resolves.
   */
  lemma SettledResolvesEveryone(capacity: nat, steps: seq<Step>, s: Sid)
    requires capacity >= 1
    ensures var b := Exec(New(capacity), steps);
            && (b.owner.Settled? && s in b.pcs && b.pcs[s].Subscribed? ==> Resolutions(b.log, s) == 1)
            && (s in b.pcs && b.pcs[s].Failed? ==> Resolutions(b.log, s) == 0)
            && (b.phase.Requesting? ==> exists u :: u in b.pcs && IsAttempt(b.pcs[u]))
  {
    hide Take, Resolutions, Receipts, Successes;
    NewIsOk(capacity);
    ExecKeepsInv(New(capacity), steps);
  }

  lemma {:induction false} ExecKeepsCapacity(b: Barrier, steps: seq<Step>)
    ensures Exec(b, steps).capacity == b.capacity
    decreases |steps|
  {
    if steps != [] {
      TakeKeepsCapacity(b, steps[0]);
      ExecKeepsCapacity(Take(b, steps[0]), steps[1..]);
    }
  }

  lemma TakeKeepsCapacity(b: Barrier, step: Step)
    ensures Take(b, step).capacity == b.capacity
  {
  }

  // ----- What a subscriber is told -----

  /**
   * How a subscriber that gets the lock is answered: it runs the request when the barrier is open, waits
   * while another one does, is retained behind the others while there is room, resolves itself when
   * shutdown completed, and is refused exactly when the barrier is full or closed.
   */
  lemma EnterIsExact(b: Barrier, s: Sid)
    requires Inv(b) && s in b.pcs && b.pcs[s].Entering?
    ensures var b' := Take(b, Enter(s));
            && s in b'.pcs && b'.cells == b.cells && b'.log == b.log && b'.owner == b.owner
            && (b'.pcs[s].Calling? <==> b.phase.Open?)
            && (b'.pcs[s].Entering? <==> b.phase.Requesting?)
            && (b'.pcs[s].Subscribed? <==> b.phase.Requested? && |b.subscribers| < b.capacity)
            && (b'.pcs[s] == Failed(Full) <==> b.phase.Requested? && |b.subscribers| >= b.capacity)
            && (b'.pcs[s].SelfCompleting? <==> b.phase.Completed?)
            && (b'.pcs[s] == Failed(BarrierClosed) <==> b.phase.Closed?)
            && b'.subscribers == b.subscribers + (if b'.pcs[s].Subscribed? then [s] else [])
            && b'.phase == (if b.phase.Open? then Requesting else b.phase)
  {
    hide AttemptsOk, RequestingOk, SuccessesOk, WaitingOk, ResultsOk, FreshOk, CellOk;
    assert b.cells.Keys == b.pcs.Keys;
  }

  /**
   * How the subscriber that ran the request is answered: the first success retains it and publishes the
   * request, a failure or an unwinding callback reopens the barrier, unless it settled meanwhile, which
   * then decides.
   */
  lemma FinishCallIsExact(b: Barrier, s: Sid)
    requires Inv(b) && s in b.pcs && b.pcs[s].Called?
    ensures var b' := Take(b, FinishCall(s));
            var result := b.pcs[s].result;
            && s in b'.pcs && b'.cells == b.cells && b'.log == b.log && b'.owner == b.owner
            && (b'.pcs[s].Subscribed? <==> result.CallOk? && b.phase.Requesting?)
            && (b'.pcs[s] == Failed(RequestFailed) <==> result.CallErr? && b.phase.Requesting?)
            && (b'.pcs[s] == Failed(Unwound) <==> result.CallPanics?)
            && (b'.pcs[s].SelfCompleting? <==> !result.CallPanics? && b.phase.Completed?)
            && (b'.pcs[s] == Failed(BarrierClosed) <==> !result.CallPanics? && b.phase.Closed?)
            && b'.subscribers == b.subscribers + (if b'.pcs[s].Subscribed? then [s] else [])
            && b'.phase == (if !b.phase.Requesting? then b.phase else if result.CallOk? then Requested else Open)
  {
    hide RequestingOk, SuccessesOk, WaitingOk, CellsOk, ResultsOk, FreshOk;
    assert IsAttempt(b.pcs[s]);
  }

  /** Settling decides the terminal phase once and takes every retained subscriber for delivery, in order. */
  lemma SettleIsExact(b: Barrier, ok: bool)
    requires Inv(b)
    ensures var b' := Take(b, Settle(ok));
            && (b.owner.Active? ==>
                  b' == b.(phase := if ok then Completed else Closed, subscribers := [], owner := Delivering(b.subscribers, ok)))
            && (!b.owner.Active? ==> b' == b)
  {
    hide AttemptsOk, RequestingOk, SuccessesOk, WaitingOk, CellsOk, ResultsOk, FreshOk;
  }

  /** A delivery resolves the next retained subscriber with the settled result, unless its observer is gone; after the last the completer is done. */
  lemma DeliverIsExact(b: Barrier)
    requires Inv(b) && b.owner.Delivering?
    ensures var b' := Take(b, Deliver);
            var rest := b.owner.rest;
            && (rest == [] ==> b' == b.(owner := Settled))
            && (rest != [] ==>
                  && b'.owner == Delivering(rest[1..], b.owner.ok) && rest[0] in b.cells
                  && (b.cells[rest[0]] == Pending(true) ==>
                        b'.cells == b.cells[rest[0] := Ready(b.owner.ok)] && b'.log == b.log + [Resolved(rest[0], b.owner.ok)])
                  && (b.cells[rest[0]] == Pending(false) ==> b'.cells == b.cells[rest[0] := Consumed] && b'.log == b.log))
  {
    hide AttemptsOk, RequestingOk, SuccessesOk, CellsOk, ResultsOk, FreshOk, OwnerOk;
    if b.owner.rest != [] {
      assert b.owner.rest[0] in Waiting(b);
    }
  }

  /** An observer receives exactly the result its completion became ready with, and then nothing more. */
  lemma TryTakeIsExact(b: Barrier, s: Sid)
    requires Inv(b) && s in b.pcs && b.pcs[s].Subscribed? && s in b.cells
    ensures var b' := Take(b, TryTake(s));
            && (b.cells[s].Ready? ==> b' == b.(cells := b.cells[s := Consumed], log := b.log + [Took(s, b.cells[s].ok)]))
            && (!b.cells[s].Ready? ==> b' == b)
  {
    hide Inv;
  }

  /** A request callback's result is kept as it was, and only a success is logged; dropping a completion gives up its result. */
  lemma CallerAndObserverMoves(b: Barrier, s: Sid, result: CallResult)
    requires Inv(b) && s in b.pcs && s in b.cells
    ensures b.pcs[s].Calling? ==>
              Take(b, Callback(s, result))
              == b.(pcs := b.pcs[s := Called(result)], log := if result.CallOk? then b.log + [CallbackSucceeded(s)] else b.log)
    ensures b.pcs[s].Subscribed? ==>
              Take(b, Abandon(s))
              == b.(pcs := b.pcs[s := Abandoned], cells := b.cells[s := if b.cells[s].Pending? then Pending(false) else Consumed])
    ensures b.pcs[s].SelfCompleting? ==>
              Take(b, CompleteSelf(s))
              == b.(pcs := b.pcs[s := Subscribed], cells := b.cells[s := Ready(true)], log := b.log + [Resolved(s, true)])
  {
    hide AttemptsOk, RequestingOk, SuccessesOk, WaitingOk, ResultsOk, FreshOk, OwnerOk, Resolutions, Receipts;
  }
}
