/**
 * The bounded two-lane mailbox together with its wake handle, the thread parker behind it and the
 * owner's drain-and-park loop, as one protocol over lock-protected and atomic steps.
 */
module Mailboxes {
  import opened Base
  import W = WakeProtocol

  type Tid = nat

  /** The single thread that drains, acknowledges and parks. */
  const OWNER: Tid := 0

  /** Queued payloads. */
  type Item(!new)

  datatype LaneId = Control | Work

  datatype Entry = Entry(item: Item, bytes: U64)

  /** One lane; `accepted` and `drained` record its whole history. */
  datatype Lane = Lane(limit: nat, byteLimit: U64, queue: seq<Entry>, retained: nat, accepted: seq<Item>, drained: seq<Item>)

  datatype Rejection = Closed | MessageCapacity | ByteCapacity | WakeFailed

  datatype Outcome = Sent | Rejected(item: Item, reason: Rejection) | Dropped | WakeDone(ok: bool)

  /** A producer operation; publishing and dropping hold the mailbox lock while they wake the owner. */
  datatype Op =
    | Publishing(handle: nat, lane: LaneId, item: Item, bytes: U64)
    | Dropping(handle: nat)
    | External
    | Done(outcome: Outcome)

  datatype OwnerPc = Turning | Acking | Deciding | Parked | Closing | Stopped

  datatype Mail = Mail(
    wake: W.WakeState, notified: bool, fallible: bool,
    lock: Option<Tid>, receiverAlive: bool, senders: nat, handles: set<nat>,
    control: Lane, work: Lane, ops: map<Tid, Op>, owner: OwnerPc, dropWakeFailed: bool)

  datatype MailStep =
    | Enter(t: Tid, handle: nat, lane: LaneId, item: Item, bytes: U64)
    | EndPublish(t: Tid)
    | CloneSender(handle: nat, copy: nat)
    | EnterDrop(t: Tid, handle: nat)
    | EndDrop(t: Tid)
    | EnterExternal(t: Tid)
    | EndExternal(t: Tid)
    | Waking(t: Tid, step: W.WakeStep)
    | Drain(budget: nat)
    | Acknowledging(step: W.WakeStep)
    | EndDrain
    | TurnAgain
    | Park
    | Unpark
    | Timeout
    | Notify
    | Close
    | EndClose

  // ----- Lanes -----

  function Items(queue: seq<Entry>): (items: seq<Item>)
    ensures |items| == |queue|
  {
    if queue == [] then [] else Items(queue[..|queue| - 1]) + [queue[|queue| - 1].item]
  }

  function Bytes(queue: seq<Entry>): nat {
    if queue == [] then 0 else Bytes(queue[..|queue| - 1]) + queue[|queue| - 1].bytes
  }

  ghost predicate LaneOk(lane: Lane) {
    && lane.accepted == lane.drained + Items(lane.queue)
    && lane.retained == Bytes(lane.queue) <= lane.byteLimit
    && |lane.queue| <= lane.limit
  }

  /** Why a lane refuses an entry, if it does. */
  function Refusal(lane: Lane, bytes: U64): Option<Rejection> {
    if |lane.queue| >= lane.limit then Some(MessageCapacity)
    else if lane.retained + bytes > U64_MAX then Some(ByteCapacity)
    else if lane.retained + bytes > lane.byteLimit then Some(ByteCapacity)
    else None
  }

  function Admit(lane: Lane, item: Item, bytes: U64): Lane {
    lane.(queue := lane.queue + [Entry(item, bytes)], retained := lane.retained + bytes, accepted := lane.accepted + [item])
  }

  /** Pops `count` entries one by one; an underflowing subtraction would be a panic, excluded by `DrainConserves`. */
  function DrainLane(lane: Lane, count: nat): (lane': Lane)
    requires count <= |lane.queue|
    decreases count
  {
    if count == 0 then lane else DrainLane(DrainOne(lane), count - 1)
  }

  function DrainOne(lane: Lane): (lane': Lane)
    requires lane.queue != []
  {
    var entry := lane.queue[0];
    lane.(queue := lane.queue[1..],
          retained := if entry.bytes <= lane.retained then lane.retained - entry.bytes else 0,
          drained := lane.drained + [entry.item])
  }

  function Min(a: nat, b: nat): nat {
    if a <= b then a else b
  }

  predicate Empty(m: Mail) {
    m.control.queue == [] && m.work.queue == []
  }

  function LaneOf(m: Mail, lane: LaneId): Lane {
    if lane.Control? then m.control else m.work
  }

  function WithLane(m: Mail, id: LaneId, lane: Lane): Mail {
    if id.Control? then m.(control := lane) else m.(work := lane)
  }

  // ----- Steps -----

  predicate Free(m: Mail, t: Tid) {
    t != OWNER && (t in m.ops ==> m.ops[t].Done?)
  }

  predicate Critical(op: Op) {
    op.Publishing? || op.Dropping?
  }

  predicate IsAck(step: W.WakeStep) {
    step.StartAck? || step.AckLoad? || step.AckCasRequested? || step.AckCasWaking?
  }

  function Finish(m: Mail, t: Tid, outcome: Outcome): Mail {
    m.(ops := m.ops[t := Done(outcome)])
  }

  /** Starts waking the owner on behalf of an operation. */
  function Begin(m: Mail, t: Tid, op: Op): Mail {
    m.(ops := m.ops[t := op], wake := W.Take(m.wake, t, W.StartWake))
  }

  function DrainBoth(m: Mail, budget: nat): Mail {
    var controls := Min(budget, |m.control.queue|);
    var works := Min(budget - controls, |m.work.queue|);
    m.(control := DrainLane(m.control, controls), work := DrainLane(m.work, works))
  }

  function DrainAll(m: Mail): Mail {
    m.(control := DrainLane(m.control, |m.control.queue|), work := DrainLane(m.work, |m.work.queue|))
  }

  /** The send's wake has returned: it publishes its item or gives it back, and unlocks. */
  function FinishPublish(m: Mail, t: Tid): Mail {
    if t !in m.ops || !m.ops[t].Publishing? || !W.At(m.wake, t).Returned? then m
    else
      var op := m.ops[t];
      var unlocked := m.(lock := None);
      if W.At(m.wake, t).ok then Finish(WithLane(unlocked, op.lane, Admit(LaneOf(m, op.lane), op.item, op.bytes)), t, Sent)
      else Finish(unlocked, t, Rejected(op.item, WakeFailed))
  }

  /** One step; a step the state does not allow changes nothing. */
  function Take(m: Mail, step: MailStep): (m': Mail) {
    match step
    case Enter(t, handle, lane, item, bytes) =>
      if !Free(m, t) || m.lock.Some? || handle !in m.handles then m
      else if !m.receiverAlive then Finish(m, t, Rejected(item, Closed))
      else
        var refusal := Refusal(LaneOf(m, lane), bytes);
        if refusal.Some? then Finish(m, t, Rejected(item, refusal.value))
        else Begin(m, t, Publishing(handle, lane, item, bytes)).(lock := Some(t))
    case EndPublish(t) => FinishPublish(m, t)
    case CloneSender(handle, copy) =>
      if m.lock.Some? || handle !in m.handles || copy in m.handles then m
      else m.(senders := m.senders + 1, handles := m.handles + {copy})
    case EnterDrop(t, handle) =>
      if !Free(m, t) || m.lock.Some? || handle !in m.handles || m.senders == 0 then m
      else if m.senders == 1 && m.receiverAlive then Begin(m, t, Dropping(handle)).(lock := Some(t))
      else Finish(m.(senders := m.senders - 1, handles := m.handles - {handle}), t, Dropped)
    case EndDrop(t) =>
      if t !in m.ops || !m.ops[t].Dropping? || !W.At(m.wake, t).Returned? || m.senders == 0 then m
      else
        Finish(m.(lock := None, senders := m.senders - 1, handles := m.handles - {m.ops[t].handle},
                  dropWakeFailed := m.dropWakeFailed || !W.At(m.wake, t).ok), t, Dropped)
    case EnterExternal(t) => if !Free(m, t) then m else Begin(m, t, External)
    case EndExternal(t) =>
      if t !in m.ops || !m.ops[t].External? || !W.At(m.wake, t).Returned? then m
      else Finish(m, t, WakeDone(W.At(m.wake, t).ok))
    case Waking(t, wakeStep) =>
      if t == OWNER || t !in m.ops || m.ops[t].Done? || W.At(m.wake, t).Returned? || IsAck(wakeStep) || wakeStep.StartWake?
         || (wakeStep == W.Backend(false) && !m.fallible) then m
      else
        m.(wake := W.Take(m.wake, t, wakeStep),
           notified := m.notified || (wakeStep == W.Backend(true) && W.At(m.wake, t) == W.Calling))
    case Drain(budget) =>
      if budget == 0 || m.lock.Some? || !(m.owner.Turning? || m.owner.Stopped?) then m
      else
        var drained := DrainBoth(m, budget);
        if Empty(drained) then drained.(lock := Some(OWNER), owner := Acking, wake := W.Take(m.wake, OWNER, W.StartAck))
        else drained
    case Acknowledging(ackStep) =>
      if !(m.owner.Acking? || m.owner.Closing?) || !IsAck(ackStep) || ackStep.StartAck? then m
      else m.(wake := W.Take(m.wake, OWNER, ackStep))
    case EndDrain =>
      if !m.owner.Acking? || !W.At(m.wake, OWNER).Returned? then m
      else m.(lock := None, owner := if !m.receiverAlive || m.senders == 0 then Stopped else Deciding)
    case TurnAgain => if m.owner.Deciding? then m.(owner := Turning) else m
    case Park =>
      if !m.owner.Deciding? then m
      else if m.notified then m.(notified := false, owner := Turning)
      else m.(owner := Parked)
    case Unpark => if m.owner.Parked? && m.notified then m.(notified := false, owner := Turning) else m
    case Timeout => if m.owner.Parked? then m.(owner := Turning) else m
    case Notify => m.(notified := true)
    case Close =>
      if m.lock.Some? || !(m.owner.Turning? || m.owner.Deciding? || m.owner.Stopped?) then m
      else m.(receiverAlive := false, lock := Some(OWNER), owner := Closing, wake := W.Take(m.wake, OWNER, W.StartAck))
    case EndClose =>
      if !m.owner.Closing? || !W.At(m.wake, OWNER).Returned? then m
      else DrainAll(m).(lock := None, owner := Stopped)
  }

  /** Any interleaving of producers, external wakers and the owner. */
  ghost function Exec(m: Mail, steps: seq<MailStep>): Mail
    decreases |steps|
  {
    if steps == [] then m else Exec(Take(m, steps[0]), steps[1..])
  }

  datatype Limits = Limits(messages: nat, bytes: U64)

  function NewLane(limits: Limits): Lane {
    Lane(limits.messages, limits.bytes, [], 0, [], [])
  }

  /** A new mailbox with one sender handle; `fallible` says whether the wake source may fail. */
  function New(control: Limits, work: Limits, fallible: bool): Mail {
    Mail(W.Start, false, fallible, None, true, 1, {0}, NewLane(control), NewLane(work), map[], Turning, false)
  }

  // ----- Inductive invariant -----

  /** The owner will run a turn, and so drain, before it can stay parked. */
  ghost predicate Covered(m: Mail) {
    || m.notified || m.owner.Turning? || m.owner.Stopped?
    || ((m.owner.Acking? || m.owner.Closing?) && !W.At(m.wake, OWNER).Returned?)
  }

  ghost predicate LockOk(m: Mail) {
    && (forall t :: t in m.ops && Critical(m.ops[t]) ==> m.lock == Some(t))
    && (m.lock.Some? && m.lock.value != OWNER ==> m.lock.value in m.ops && Critical(m.ops[m.lock.value]))
    && (m.lock == Some(OWNER) <==> m.owner.Acking? || m.owner.Closing?)
    && OWNER !in m.ops
  }

  /** Who is inside which wake-handle call. */
  ghost predicate CallsOk(m: Mail) {
    && (forall t :: Free(m, t) ==> W.At(m.wake, t).Returned?)
    && (forall t :: t != OWNER ==> !InAck(W.At(m.wake, t)))
    && (W.At(m.wake, OWNER).Returned? || InAck(W.At(m.wake, OWNER)))
    && (!m.owner.Acking? && !m.owner.Closing? ==> W.At(m.wake, OWNER).Returned?)
  }

  predicate InAck(pc: W.Pc) {
    pc.Acking? || pc.AckSawRequested? || pc.AckSawWaking?
  }

  ghost predicate HandlesOk(m: Mail) {
    && m.senders == |m.handles|
    && (forall t :: t in m.ops && Critical(m.ops[t]) ==> Admissible(m, m.ops[t]))
  }

  /** What an operation checked under the lock still holds while it has the lock. */
  ghost predicate Admissible(m: Mail, op: Op)
    requires Critical(op)
  {
    && m.receiverAlive && op.handle in m.handles
    && (op.Publishing? ==> Refusal(LaneOf(m, op.lane), op.bytes).None?)
    && (op.Dropping? ==> m.senders == 1)
  }

  ghost predicate WakesOk(m: Mail) {
    && (!Empty(m) && !m.owner.Closing? ==> m.wake.phase == W.Requested)
    && (m.wake.phase == W.Requested ==> Covered(m))
    && (forall t :: W.At(m.wake, t) == W.Succeeded && m.wake.phase == W.Waking ==> Covered(m))
    && (m.owner.Acking? ==> Empty(m))
  }

  /** What a thread that holds the mailbox lock knows about its wake. */
  ghost predicate HolderOk(m: Mail) {
    m.lock.Some? && m.lock.value != OWNER ==>
      var pc := W.At(m.wake, m.lock.value);
      && (pc == W.Returned(true) ==> m.wake.phase == W.Requested)
      && (W.Holds(pc) ==> m.wake.phase == W.Waking && pc != W.Settling)
      && (pc == W.Returned(false) ==> Empty(m))
  }

  ghost predicate LastSenderOk(m: Mail) {
    && (m.senders == 0 && m.receiverAlive && !m.dropWakeFailed ==>
          m.wake.phase == W.Requested || m.owner.Acking? || m.owner.Stopped?)
    && (m.dropWakeFailed ==> m.senders == 0)
    && (m.owner.Closing? ==> !m.receiverAlive)
    && (!m.receiverAlive ==> m.owner.Closing? || m.owner.Acking? || m.owner.Stopped?)
    && (m.owner.Stopped? ==> Empty(m) && (!m.receiverAlive || m.senders == 0))
  }

  ghost predicate InfallibleOk(m: Mail) {
    !m.fallible ==>
      && !m.dropWakeFailed
      && forall t :: t != OWNER ==> W.At(m.wake, t) != W.FailedCall && W.At(m.wake, t) != W.Returned(false)
  }

  ghost predicate Inv(m: Mail) {
    W.Inv(m.wake) && LaneOk(m.control) && LaneOk(m.work) && Rules(m)
  }

  ghost predicate Rules(m: Mail) {
    LockingOk(m) && WakingOk(m)
  }

  ghost predicate LockingOk(m: Mail) {
    LockOk(m) && CallsOk(m) && HandlesOk(m)
  }

  ghost predicate WakingOk(m: Mail) {
    WakesOk(m) && HolderOk(m) && LastSenderOk(m) && InfallibleOk(m)
  }

  // ----- Lanes: order, conservation and accounting -----

  lemma {:induction false} HeadOfQueue(queue: seq<Entry>)
    requires queue != []
    ensures Items(queue) == [queue[0].item] + Items(queue[1..])
    ensures Bytes(queue) == queue[0].bytes + Bytes(queue[1..])
    decreases |queue|
  {
    var last := |queue| - 1;
    if last > 0 {
      HeadOfQueue(queue[..last]);
      assert queue[..last][1..] == queue[1..][..last - 1];
      assert queue[1..][last - 1] == queue[last];
    } else {
      assert queue[..last] == [] && queue[1..] == [];
    }
  }

  lemma DrainOneConserves(lane: Lane)
    requires LaneOk(lane) && lane.queue != []
    ensures LaneOk(DrainOne(lane))
    ensures lane.retained >= lane.queue[0].bytes
    ensures Items(lane.queue) == [lane.queue[0].item] + Items(lane.queue[1..])
  {
    HeadOfQueue(lane.queue);
    var lane' := DrainOne(lane);
    assert lane'.drained + Items(lane'.queue) == lane.drained + Items(lane.queue);
  }

  /** Draining moves exactly the oldest `count` items from the queue to the drained history, in order. */
  lemma {:induction false} DrainConserves(lane: Lane, count: nat)
    requires LaneOk(lane) && count <= |lane.queue|
    ensures var lane' := DrainLane(lane, count);
            && LaneOk(lane') && lane'.queue == lane.queue[count..]
            && lane'.accepted == lane.accepted && lane'.limit == lane.limit && lane'.byteLimit == lane.byteLimit
            && lane'.drained == lane.drained + Items(lane.queue)[..count]
    decreases count
  {
    hide LaneOk, Items;
    if count > 0 {
      DrainOneConserves(lane);
      var next := DrainOne(lane);
      DrainConserves(next, count - 1);
      assert Items(lane.queue)[..count] == [lane.queue[0].item] + Items(next.queue)[..count - 1];
      assert lane.queue[1..][count - 1..] == lane.queue[count..];
    } else {
      assert lane.drained + Items(lane.queue)[..0] == lane.drained;
    }
  }

  lemma AdmitConserves(lane: Lane, item: Item, bytes: U64)
    requires LaneOk(lane) && Refusal(lane, bytes).None?
    ensures LaneOk(Admit(lane, item, bytes))
  {
    var queue := lane.queue + [Entry(item, bytes)];
    assert queue[..|queue| - 1] == lane.queue;
    assert Items(queue) == Items(lane.queue) + [item];
  }

  // ----- How single wake-handle accesses move the phase -----

  /** What an access inside `wake` does to the phase. */
  lemma WakerMovesPhase(s: W.WakeState, t: Tid, step: W.WakeStep)
    requires W.Inv(s) && !IsAck(step) && !step.StartWake? && !InAck(W.At(s, t))
    ensures var s' := W.Take(s, t, step);
            && (s.phase == W.Requested ==> s'.phase == W.Requested)
            && (s'.phase != s.phase ==> W.Holds(W.At(s, t)) || W.Holds(W.At(s', t)))
            && (s'.phase == W.Requested && s.phase != W.Requested ==> W.At(s, t) == W.Succeeded && s.phase == W.Waking)
            && (s'.phase == W.Waking && s.phase != W.Waking ==> W.At(s', t) == W.Calling && s.phase == W.Idle)
            && (W.Holds(W.At(s', t)) && W.Holds(W.At(s, t)) ==> s'.phase == s.phase)
  {
    hide W.Fresh, W.LastOf, W.Truthful, W.Successes, W.EffectiveAcks;
    if t in s.pcs {
      assert W.PcOk(s, t);
    }
  }

  /** How an access inside `wake` moves the caller. */
  lemma WakerMovesPc(s: W.WakeState, t: Tid, step: W.WakeStep)
    requires W.Inv(s) && !IsAck(step) && !step.StartWake? && !InAck(W.At(s, t))
    ensures var s' := W.Take(s, t, step);
            && (forall u :: u != t ==> W.At(s', u) == W.At(s, u))
            && !InAck(W.At(s', t))
            && (W.At(s', t) == W.Succeeded ==>
                  s'.phase == s.phase && (W.At(s, t) == W.Succeeded || (W.At(s, t) == W.Calling && step == W.Backend(true))))
            && (W.At(s', t) == W.FailedCall && W.At(s, t) != W.FailedCall ==> step == W.Backend(false))
            && (W.At(s', t) == W.Returned(false) && W.At(s, t) != W.Returned(false) ==>
                  W.At(s, t) == W.FailedCall && W.InFlight(s.phase))
            && (W.At(s', t) == W.Returned(true) && W.At(s, t) != W.Returned(true) ==>
                  s'.phase == W.Requested || W.At(s, t) == W.Settling)
            && (W.Holds(W.At(s', t)) && !W.Holds(W.At(s, t)) ==> s'.phase == W.Waking && W.At(s', t) == W.Calling)
            && (W.At(s', t) == W.Settling && W.At(s, t) != W.Settling ==> s.phase == W.WakingAcknowledged)
  {
    hide W.Fresh, W.LastOf, W.Truthful, W.Successes, W.EffectiveAcks;
    if t in s.pcs {
      assert W.PcOk(s, t);
    }
  }

  /** While one thread holds the backend call, nobody else moves the phase. */
  lemma WakerRespectsHolder(s: W.WakeState, t: Tid, step: W.WakeStep, u: Tid)
    requires W.Inv(s) && !IsAck(step) && !step.StartWake? && !InAck(W.At(s, t))
    requires u != t && W.Holds(W.At(s, u))
    ensures W.Take(s, t, step).phase == s.phase && !W.Holds(W.At(W.Take(s, t, step), t))
  {
    hide W.Fresh, W.LastOf, W.Truthful, W.Successes, W.EffectiveAcks;
    assert W.PcOk(s, u);
  }

  lemma WakerYields(s: W.WakeState, t: Tid, step: W.WakeStep)
    requires W.Inv(s) && !IsAck(step) && !step.StartWake? && !InAck(W.At(s, t))
    ensures var s' := W.Take(s, t, step);
            forall u :: u != t && W.Holds(W.At(s, u)) ==> s'.phase == s.phase && !W.Holds(W.At(s', t))
  {
    forall u | u != t && W.Holds(W.At(s, u))
      ensures W.Take(s, t, step).phase == s.phase && !W.Holds(W.At(W.Take(s, t, step), t))
    {
      WakerRespectsHolder(s, t, step, u);
    }
  }

  lemma StartMoves(s: W.WakeState, t: Tid, step: W.WakeStep)
    requires W.Inv(s) && W.At(s, t).Returned? && (step == W.StartWake || step == W.StartAck)
    ensures var s' := W.Take(s, t, step);
            && W.Inv(s') && s'.phase == s.phase
            && (forall u :: u != t ==> W.At(s', u) == W.At(s, u))
            && W.At(s', t) == if step.StartWake? then W.Looping else W.Acking
  {
    hide W.Inv;
    W.TakeKeepsInv(s, t, step);
  }

  lemma OwnerMoves(s: W.WakeState, step: W.WakeStep)
    requires W.Inv(s) && IsAck(step) && !step.StartAck?
    requires W.At(s, OWNER).Returned? || InAck(W.At(s, OWNER))
    ensures var s' := W.Take(s, OWNER, step);
            && W.Inv(s')
            && (forall u :: u != OWNER ==> W.At(s', u) == W.At(s, u))
            && (W.At(s', OWNER).Returned? || InAck(W.At(s', OWNER)))
            && (W.At(s, OWNER).Returned? ==> s' == s)
            && (s'.phase == s.phase || (W.At(s', OWNER).Returned? && (s'.phase == W.Idle || s'.phase == W.WakingAcknowledged)))
            && (W.At(s', OWNER).Returned? && !W.At(s, OWNER).Returned? ==> s'.phase == W.Idle || s'.phase == W.WakingAcknowledged)
  {
    hide W.Inv, W.Fresh;
    W.TakeKeepsInv(s, OWNER, step);
  }

  // ----- Every step keeps the invariant, part by part -----

  ghost predicate SameHistory(lane: Lane, lane': Lane) {
    lane'.accepted == lane.accepted && lane'.limit == lane.limit && lane'.byteLimit == lane.byteLimit
  }

  lemma DrainsKeep(m: Mail, budget: nat)
    requires LaneOk(m.control) && LaneOk(m.work)
    ensures var d := DrainBoth(m, budget);
            && LaneOk(d.control) && LaneOk(d.work) && d == m.(control := d.control, work := d.work)
            && SameHistory(m.control, d.control) && SameHistory(m.work, d.work)
            && (Empty(m) ==> Empty(d))
    ensures var d := DrainAll(m);
            && LaneOk(d.control) && LaneOk(d.work) && d == m.(control := d.control, work := d.work) && Empty(d)
            && SameHistory(m.control, d.control) && SameHistory(m.work, d.work)
  {
    var controls := Min(budget, |m.control.queue|);
    DrainConserves(m.control, controls);
    DrainConserves(m.work, Min(budget - controls, |m.work.queue|));
    DrainConserves(m.control, |m.control.queue|);
    DrainConserves(m.work, |m.work.queue|);
  }

  lemma KeepsWakeInv(m: Mail, step: MailStep)
    requires Inv(m)
    ensures W.Inv(Take(m, step).wake)
  {
    hide W.Inv, LaneOk, DrainBoth, DrainAll;
    match step
    case Enter(t, _, _, _, _) => W.TakeKeepsInv(m.wake, t, W.StartWake);
    case EnterDrop(t, _) => W.TakeKeepsInv(m.wake, t, W.StartWake);
    case EnterExternal(t) => W.TakeKeepsInv(m.wake, t, W.StartWake);
    case Waking(t, wakeStep) => W.TakeKeepsInv(m.wake, t, wakeStep);
    case Drain(budget) => DrainsKeep(m, budget); W.TakeKeepsInv(m.wake, OWNER, W.StartAck);
    case Acknowledging(ackStep) => W.TakeKeepsInv(m.wake, OWNER, ackStep);
    case Close => W.TakeKeepsInv(m.wake, OWNER, W.StartAck);
    case EndClose => DrainsKeep(m, 0);
    case _ =>
  }

  /** Only an ending publication and a drain touch the lanes, and nothing touches the parameters. */
  lemma LanesUntouched(m: Mail, step: MailStep)
    requires !step.EndPublish? && !step.Drain? && !step.EndClose?
    ensures var m' := Take(m, step); m'.control == m.control && m'.work == m.work && m'.fallible == m.fallible
  {
    hide W.Take, W.At, Refusal, Empty, IsAck;
  }

  lemma PublicationLanes(m: Mail, t: Tid, lane: LaneId)
    ensures var m' := Take(m, EndPublish(t));
            && m'.fallible == m.fallible
            && LaneOf(m', lane) == if Sends(m, EndPublish(t), lane) then Admit(LaneOf(m, lane), m.ops[t].item, m.ops[t].bytes) else LaneOf(m, lane)
  {
    hide Take, W.Take, W.At, Admit;
    TakeIsFinishPublish(m, t);
  }

  lemma TakeIsFinishPublish(m: Mail, t: Tid)
    ensures Take(m, EndPublish(t)) == FinishPublish(m, t)
  {
    hide W.Take, FinishPublish;
  }

  lemma KeepsLanes(m: Mail, step: MailStep)
    requires Inv(m)
    ensures LaneOk(Take(m, step).control) && LaneOk(Take(m, step).work)
  {
    hide W.Inv, W.Take, W.At, LaneOk, DrainBoth, DrainAll, Refusal, Admit, LockOk, CallsOk, WakingOk;
    match step
    case EndPublish(t) =>
      if t in m.ops && m.ops[t].Publishing? {
        AdmitConserves(LaneOf(m, m.ops[t].lane), m.ops[t].item, m.ops[t].bytes);
      }
    case Drain(budget) => DrainsKeep(m, budget);
    case EndClose => DrainsKeep(m, 0);
    case _ => LanesUntouched(m, step);
  }

  lemma EnterKeepsCalls(m: Mail, t: Tid, handle: nat, lane: LaneId, item: Item, bytes: U64)
    requires Inv(m)
    ensures CallsOk(Take(m, Enter(t, handle, lane, item, bytes)))
  {
    hide HandlesOk, WakesOk, HolderOk, LastSenderOk, InfallibleOk, W.Inv, W.Take, W.At, LaneOk, DrainBoth, DrainAll, Refusal, Admit;
    if Free(m, t) { StartMoves(m.wake, t, W.StartWake); }
  }

  lemma EnterKeepsLock(m: Mail, t: Tid, handle: nat, lane: LaneId, item: Item, bytes: U64)
    requires Inv(m)
    ensures LockOk(Take(m, Enter(t, handle, lane, item, bytes)))
  {
    hide CallsOk, HandlesOk, WakesOk, HolderOk, LastSenderOk, InfallibleOk, W.Inv, W.Take, W.At, LaneOk, DrainBoth, DrainAll, Refusal, Admit;
  }

  lemma EnterKeepsHandles(m: Mail, t: Tid, handle: nat, lane: LaneId, item: Item, bytes: U64)
    requires Inv(m)
    ensures HandlesOk(Take(m, Enter(t, handle, lane, item, bytes)))
  {
    hide CallsOk, WakesOk, HolderOk, LastSenderOk, InfallibleOk, W.Inv, W.Take, W.At, LaneOk, DrainBoth, DrainAll, Refusal, Admit;
  }

  lemma EnterKeepsWaking(m: Mail, t: Tid, handle: nat, lane: LaneId, item: Item, bytes: U64)
    requires Inv(m)
    ensures WakingOk(Take(m, Enter(t, handle, lane, item, bytes)))
  {
    hide W.Inv, W.Take, W.At, LaneOk, DrainBoth, DrainAll, Refusal, Admit;
    if Free(m, t) { StartMoves(m.wake, t, W.StartWake); }
  }

  lemma EndPublishKeepsCalls(m: Mail, t: Tid)
    requires Inv(m)
    ensures CallsOk(Take(m, EndPublish(t)))
  {
    hide Take, HandlesOk, WakesOk, HolderOk, LastSenderOk, InfallibleOk, W.Inv, W.Take, W.At, LaneOk, DrainBoth, DrainAll, Refusal;
    TakeIsFinishPublish(m, t);
  }

  lemma EndPublishKeepsLock(m: Mail, t: Tid)
    requires Inv(m)
    ensures LockOk(Take(m, EndPublish(t)))
  {
    hide Take, CallsOk, HandlesOk, WakesOk, HolderOk, LastSenderOk, InfallibleOk, W.Inv, W.Take, W.At, LaneOk, DrainBoth, DrainAll, Refusal;
    TakeIsFinishPublish(m, t);
  }

  lemma EndPublishKeepsHandles(m: Mail, t: Tid)
    requires Inv(m)
    ensures HandlesOk(Take(m, EndPublish(t)))
  {
    hide Take, CallsOk, WakesOk, HolderOk, LastSenderOk, InfallibleOk, W.Inv, W.Take, W.At, LaneOk, DrainBoth, DrainAll, Refusal;
    TakeIsFinishPublish(m, t);
  }

  lemma EndPublishKeepsWaking(m: Mail, t: Tid)
    requires Inv(m)
    ensures WakingOk(Take(m, EndPublish(t)))
  {
    hide Take, W.Inv, W.Take, W.At, LaneOk, DrainBoth, DrainAll, Refusal;
    TakeIsFinishPublish(m, t);
  }

  lemma CloneSenderKeeps(m: Mail, handle: nat, copy: nat)
    requires Inv(m)
    ensures Rules(Take(m, CloneSender(handle, copy)))
  {
    hide W.Inv, W.Take, W.At, LaneOk, DrainBoth, DrainAll, Refusal, Admit;
  }

  lemma EnterDropKeepsCalls(m: Mail, t: Tid, handle: nat)
    requires Inv(m)
    ensures CallsOk(Take(m, EnterDrop(t, handle)))
  {
    hide HandlesOk, WakesOk, HolderOk, LastSenderOk, InfallibleOk, W.Inv, W.Take, W.At, LaneOk, DrainBoth, DrainAll, Refusal, Admit;
    if Free(m, t) { StartMoves(m.wake, t, W.StartWake); }
  }

  lemma EnterDropKeepsLock(m: Mail, t: Tid, handle: nat)
    requires Inv(m)
    ensures LockOk(Take(m, EnterDrop(t, handle)))
  {
    hide CallsOk, HandlesOk, WakesOk, HolderOk, LastSenderOk, InfallibleOk, W.Inv, W.Take, W.At, LaneOk, DrainBoth, DrainAll, Refusal, Admit;
  }

  lemma EnterDropKeepsHandles(m: Mail, t: Tid, handle: nat)
    requires Inv(m)
    ensures HandlesOk(Take(m, EnterDrop(t, handle)))
  {
    hide CallsOk, WakesOk, HolderOk, LastSenderOk, InfallibleOk, W.Inv, W.Take, W.At, LaneOk, DrainBoth, DrainAll, Refusal, Admit;
  }

  lemma EnterDropKeepsWaking(m: Mail, t: Tid, handle: nat)
    requires Inv(m)
    ensures WakingOk(Take(m, EnterDrop(t, handle)))
  {
    hide W.Inv, W.Take, W.At, LaneOk, DrainBoth, DrainAll, Refusal, Admit;
    if Free(m, t) { StartMoves(m.wake, t, W.StartWake); }
  }

  lemma EndDropKeeps(m: Mail, t: Tid)
    requires Inv(m)
    ensures Rules(Take(m, EndDrop(t)))
  {
    hide W.Inv, W.Take, W.At, LaneOk, DrainBoth, DrainAll, Refusal, Admit;
  }

  lemma EnterExternalKeeps(m: Mail, t: Tid)
    requires Inv(m)
    ensures Rules(Take(m, EnterExternal(t)))
  {
    hide W.Inv, W.Take, W.At, LaneOk, DrainBoth, DrainAll, Refusal, Admit;
    if Free(m, t) { StartMoves(m.wake, t, W.StartWake); }
  }

  lemma EndExternalKeeps(m: Mail, t: Tid)
    requires Inv(m)
    ensures Rules(Take(m, EndExternal(t)))
  {
    hide W.Inv, W.Take, W.At, LaneOk, DrainBoth, DrainAll, Refusal, Admit;
  }

  lemma WakingKeepsLocking(m: Mail, t: Tid, step: W.WakeStep)
    requires Inv(m)
    ensures LockingOk(Take(m, Waking(t, step)))
  {
    hide WakesOk, HolderOk, LastSenderOk, InfallibleOk, W.Inv, W.Take, W.At, LaneOk, DrainBoth, DrainAll, Refusal, Admit;
    if t != OWNER && !IsAck(step) && !step.StartWake? {
      WakerMovesPhase(m.wake, t, step);
      WakerMovesPc(m.wake, t, step);
      WakerYields(m.wake, t, step);
    }
  }

  lemma WakingKeepsWaking(m: Mail, t: Tid, step: W.WakeStep)
    requires Inv(m)
    ensures WakingOk(Take(m, Waking(t, step)))
  {
    hide HandlesOk, W.Inv, W.Take, W.At, LaneOk, DrainBoth, DrainAll, Refusal, Admit;
    if t != OWNER && !IsAck(step) && !step.StartWake? {
      WakerMovesPhase(m.wake, t, step);
      WakerMovesPc(m.wake, t, step);
      WakerYields(m.wake, t, step);
    }
  }

  lemma WakingKeeps(m: Mail, t: Tid, step: W.WakeStep)
    requires Inv(m)
    ensures Rules(Take(m, Waking(t, step)))
  {
    hide Inv, Take, LockingOk, WakingOk;
    WakingKeepsLocking(m, t, step);
    WakingKeepsWaking(m, t, step);
  }

  lemma DrainKeeps(m: Mail, budget: nat)
    requires Inv(m)
    ensures Rules(Take(m, Drain(budget)))
  {
    hide W.Inv, W.Take, W.At, LaneOk, DrainBoth, DrainAll, Refusal, Admit;
    DrainsKeep(m, budget);
    if W.At(m.wake, OWNER).Returned? { StartMoves(m.wake, OWNER, W.StartAck); }
  }

  lemma AcknowledgingKeeps(m: Mail, step: W.WakeStep)
    requires Inv(m)
    ensures Rules(Take(m, Acknowledging(step)))
  {
    hide W.Inv, W.Take, W.At, LaneOk, DrainBoth, DrainAll, Refusal, Admit;
    if IsAck(step) && !step.StartAck? { OwnerMoves(m.wake, step); }
  }

  lemma CloseKeeps(m: Mail)
    requires Inv(m)
    ensures Rules(Take(m, Close))
  {
    hide W.Inv, W.Take, W.At, LaneOk, DrainBoth, DrainAll, Refusal, Admit;
    if W.At(m.wake, OWNER).Returned? { StartMoves(m.wake, OWNER, W.StartAck); }
  }

  lemma EndCloseKeeps(m: Mail)
    requires Inv(m)
    ensures Rules(Take(m, EndClose))
  {
    hide W.Inv, W.Take, W.At, LaneOk, DrainBoth, DrainAll, Refusal, Admit;
    DrainsKeep(m, 0);
  }

  lemma EndDrainKeeps(m: Mail)
    requires Inv(m)
    ensures Rules(Take(m, EndDrain))
  {
    hide W.Inv, W.Take, W.At, LaneOk, DrainBoth, DrainAll, Refusal, Admit;
  }

  lemma TakeKeepsInv(m: Mail, step: MailStep)
    requires Inv(m)
    ensures Inv(Take(m, step))
  {
    KeepsWakeInv(m, step);
    KeepsLanes(m, step);
    TakeKeepsRules(m, step);
  }

  lemma TakeKeepsRules(m: Mail, step: MailStep)
    requires Inv(m)
    ensures Rules(Take(m, step))
  {
    hide W.Inv, LaneOk, LockOk, CallsOk, HandlesOk, WakesOk, HolderOk, LastSenderOk, InfallibleOk;
    match step
    case Enter(t, handle, lane, item, bytes) =>
      EnterKeepsCalls(m, t, handle, lane, item, bytes);
      EnterKeepsLock(m, t, handle, lane, item, bytes);
      EnterKeepsHandles(m, t, handle, lane, item, bytes);
      EnterKeepsWaking(m, t, handle, lane, item, bytes);
    case EndPublish(t) =>
      EndPublishKeepsCalls(m, t);
      EndPublishKeepsLock(m, t);
      EndPublishKeepsHandles(m, t);
      EndPublishKeepsWaking(m, t);
    case CloneSender(handle, copy) => CloneSenderKeeps(m, handle, copy);
    case EnterDrop(t, handle) =>
      EnterDropKeepsCalls(m, t, handle);
      EnterDropKeepsLock(m, t, handle);
      EnterDropKeepsHandles(m, t, handle);
      EnterDropKeepsWaking(m, t, handle);
    case EndDrop(t) => EndDropKeeps(m, t);
    case EnterExternal(t) => EnterExternalKeeps(m, t);
    case EndExternal(t) => EndExternalKeeps(m, t);
    case Waking(t, wakeStep) => WakingKeeps(m, t, wakeStep);
    case Drain(budget) => DrainKeeps(m, budget);
    case Acknowledging(ackStep) => AcknowledgingKeeps(m, ackStep);
    case EndDrain => EndDrainKeeps(m);
    case Close => CloseKeeps(m);
    case EndClose => EndCloseKeeps(m);
    case _ => ParkingKeeps(m, step);
  }

  lemma ParkingKeeps(m: Mail, step: MailStep)
    requires Inv(m) && (step.TurnAgain? || step.Park? || step.Unpark? || step.Timeout? || step.Notify?)
    ensures Rules(Take(m, step))
  {
    hide W.Inv, W.Take, W.At, LaneOk, DrainBoth, DrainAll, Refusal, Admit;
  }

  lemma {:induction false} ExecKeepsInv(m: Mail, steps: seq<MailStep>)
    requires Inv(m)
    ensures Inv(Exec(m, steps))
    decreases |steps|
  {
    hide Inv, Take;
    if steps != [] {
      TakeKeepsInv(m, steps[0]);
      ExecKeepsInv(Take(m, steps[0]), steps[1..]);
    }
  }

  lemma NewIsOk(control: Limits, work: Limits, fallible: bool)
    ensures Inv(New(control, work, fallible))
  {
  }

  // ----- What holds in every run -----

  /**
   * No lost wakeup. In every interleaving of producers, external wakers and the owner, an owner that
   * stays parked has nothing to drain, and a sender is still alive unless the last one was dropped
   * while its own wake failed. A source that never fails never strands the owner.
   */
  lemma NoLostWakeup(control: Limits, work: Limits, fallible: bool, steps: seq<MailStep>)
    ensures var m := Exec(New(control, work, fallible), steps);
            && (m.owner.Parked? && !m.notified ==> Empty(m) && m.receiverAlive && (m.senders == 0 <==> m.dropWakeFailed))
            && (m.dropWakeFailed ==> fallible)
  {
    NewIsOk(control, work, fallible);
    ExecKeepsInv(New(control, work, fallible), steps);
    ExecKeepsParameters(New(control, work, fallible), steps);
  }

  lemma StepKeepsParameters(m: Mail, step: MailStep)
    requires Inv(m)
    ensures SameParameters(m, Take(m, step))
  {
    hide W.Inv, W.Take, W.At, LaneOk, Rules, DrainBoth, DrainAll, Refusal, Sends;
    match step
    case EndPublish(t) =>
      PublicationLanes(m, t, Control);
      PublicationLanes(m, t, Work);
    case Drain(budget) => DrainsKeep(m, budget);
    case EndClose => DrainsKeep(m, 0);
    case _ => LanesUntouched(m, step);
  }

  predicate SameParameters(m: Mail, m': Mail) {
    && m'.fallible == m.fallible
    && m'.control.limit == m.control.limit && m'.control.byteLimit == m.control.byteLimit
    && m'.work.limit == m.work.limit && m'.work.byteLimit == m.work.byteLimit
  }

  lemma {:induction false} ExecKeepsParameters(m: Mail, steps: seq<MailStep>)
    requires Inv(m)
    ensures SameParameters(m, Exec(m, steps))
    decreases |steps|
  {
    hide Inv, Take;
    if steps != [] {
      StepKeepsParameters(m, steps[0]);
      TakeKeepsInv(m, steps[0]);
      ExecKeepsParameters(Take(m, steps[0]), steps[1..]);
    }
  }

  /** With a source that may fail, dropping the last sender can leave the owner parked with the mailbox closed. */
  lemma FailedDropStrandsOwner(control: Limits, work: Limits)
    ensures exists steps: seq<MailStep> ::
              var m := Exec(New(control, work, true), steps);
              m.owner.Parked? && !m.notified && m.senders == 0
  {
    hide Take, Exec;
    var m0 := New(control, work, true);
    var m1 := IdleAndParked(m0);
    ParksWhenIdle(m0);
    FailsToWake(m1);
    ExecSplit(m0, DrainAndPark, FailingDrop);
    var m := Exec(m0, DrainAndPark + FailingDrop);
    assert m.owner.Parked? && !m.notified && m.senders == 0;
  }

  const DrainAndPark: seq<MailStep> := [Drain(1), Acknowledging(W.AckLoad), EndDrain, Park]

  const FailingDrop: seq<MailStep> := [
    EnterDrop(1, 0), Waking(1, W.Load), Waking(1, W.CasWaking), Waking(1, W.Backend(false)), Waking(1, W.SwapIdle), EndDrop(1)]

  function IdleAndParked(m: Mail): Mail {
    m.(owner := Parked, wake := W.WakeState(W.Idle, map[OWNER := W.Returned(true)], [W.Acknowledged(OWNER, false)]))
  }

  lemma ParksWhenIdle(m: Mail)
    requires m == New(Limits(m.control.limit, m.control.byteLimit), Limits(m.work.limit, m.work.byteLimit), m.fallible)
    ensures Exec(m, DrainAndPark) == IdleAndParked(m)
  {
    hide Take;
    IdleDrain(m);
    Exec3(m, DrainAndPark[..3]);
    ExecSplit(m, DrainAndPark[..3], DrainAndPark[3..]);
    assert DrainAndPark == DrainAndPark[..3] + DrainAndPark[3..];
    assert DrainAndPark[3..] == [Park];
    var m3 := Take(Take(Take(m, Drain(1)), Acknowledging(W.AckLoad)), EndDrain);
    assert Exec(m3, [Park]) == Exec(Take(m3, Park), []);
  }

  lemma IdleDrain(m: Mail)
    requires m == New(Limits(m.control.limit, m.control.byteLimit), Limits(m.work.limit, m.work.byteLimit), m.fallible)
    ensures Take(Take(Take(Take(m, Drain(1)), Acknowledging(W.AckLoad)), EndDrain), Park) == IdleAndParked(m)
  {
    hide Exec, DrainBoth, DrainAll;
    DrainsNothing(m, 1);
    var m1 := m.(lock := Some(OWNER), owner := Acking, wake := W.WakeState(W.Idle, map[OWNER := W.Acking], []));
    assert Take(m, Drain(1)) == m1;
    var m2 := m1.(wake := IdleAndParked(m).wake);
    assert m2.wake.pcs == m1.wake.pcs[OWNER := W.Returned(true)];
    assert Take(m1, Acknowledging(W.AckLoad)) == m2;
    assert Take(m2, EndDrain) == m2.(lock := None, owner := Deciding);
  }

  /** While thread 1 is inside its wake, one more access only changes the wake handle, unless a backend call succeeds. */
  lemma WakingOnly(m: Mail, step: W.WakeStep)
    requires 1 in m.ops && !m.ops[1].Done? && !W.At(m.wake, 1).Returned? && m.fallible
    requires !IsAck(step) && !step.StartWake? && step != W.Backend(true)
    ensures Take(m, Waking(1, step)) == m.(wake := W.Take(m.wake, 1, step))
  {
    hide Exec, W.Take;
  }

  lemma FailsToWake(m: Mail)
    requires m.owner.Parked? && !m.notified && m.receiverAlive && m.lock.None? && m.fallible
    requires m.senders == 1 && m.handles == {0} && m.ops == map[] && m.wake.phase == W.Idle && 1 !in m.wake.pcs
    ensures var m' := Exec(m, FailingDrop);
            m'.owner.Parked? && !m'.notified && m'.senders == 0
  {
    hide Take, Exec;
    WinsTheCall(m);
    Exec3(m, FailingDrop[..3]);
    FailsTheCall(Exec(m, FailingDrop[..3]));
    Exec3(Exec(m, FailingDrop[..3]), FailingDrop[3..]);
    ExecSplit(m, FailingDrop[..3], FailingDrop[3..]);
    assert FailingDrop == FailingDrop[..3] + FailingDrop[3..];
  }

  lemma WinsTheCall(m: Mail)
    requires m.receiverAlive && m.lock.None? && m.fallible
    requires m.senders == 1 && m.handles == {0} && m.ops == map[] && m.wake.phase == W.Idle && 1 !in m.wake.pcs
    ensures Take(Take(Take(m, EnterDrop(1, 0)), Waking(1, W.Load)), Waking(1, W.CasWaking))
         == m.(lock := Some(1), ops := map[1 := Dropping(0)],
               wake := W.Move(W.Move(W.Move(m.wake, 1, W.Looping), 1, W.SawIdle), 1, W.Calling).(phase := W.Waking))
  {
    hide Take;
    StartsDrop(m);
    var m1 := Take(m, EnterDrop(1, 0));
    WakingOnly(m1, W.Load);
    WakingOnly(Take(m1, Waking(1, W.Load)), W.CasWaking);
  }

  lemma FailsTheCall(m: Mail)
    requires 1 in m.ops && m.ops[1] == Dropping(0) && m.senders == 1 && m.fallible
    requires W.At(m.wake, 1) == W.Calling && m.wake.phase == W.Waking
    ensures var m' := Take(Take(Take(m, Waking(1, W.Backend(false))), Waking(1, W.SwapIdle)), EndDrop(1));
            m'.owner == m.owner && m'.notified == m.notified && m'.senders == 0
  {
    hide Take;
    WakingOnly(m, W.Backend(false));
    var m1 := Take(m, Waking(1, W.Backend(false)));
    WakingOnly(m1, W.SwapIdle);
    EndsDrop(Take(m1, Waking(1, W.SwapIdle)));
  }

  lemma StartsDrop(m: Mail)
    requires m.receiverAlive && m.lock.None? && m.senders == 1 && m.handles == {0} && m.ops == map[] && 1 !in m.wake.pcs
    ensures Take(m, EnterDrop(1, 0)) == m.(lock := Some(1), ops := map[1 := Dropping(0)], wake := W.Move(m.wake, 1, W.Looping))
  {
    hide Exec;
  }

  lemma EndsDrop(m: Mail)
    requires 1 in m.ops && m.ops[1] == Dropping(0) && m.senders == 1 && W.At(m.wake, 1).Returned?
    ensures var m' := Take(m, EndDrop(1));
            m'.owner == m.owner && m'.notified == m.notified && m'.senders == 0
  {
    hide Exec;
  }

  lemma Exec3(m: Mail, steps: seq<MailStep>)
    requires |steps| == 3
    ensures Exec(m, steps) == Take(Take(Take(m, steps[0]), steps[1]), steps[2])
  {
    hide Take;
    var rest := steps[1..];
    var last := rest[1..];
    assert last[1..] == [];
    assert Exec(Take(Take(m, steps[0]), steps[1]), last) == Take(Take(Take(m, steps[0]), steps[1]), steps[2]);
  }

  lemma {:induction false} ExecSplit(m: Mail, first: seq<MailStep>, second: seq<MailStep>)
    ensures Exec(m, first + second) == Exec(Exec(m, first), second)
    decreases |first|
  {
    hide Take;
    if first == [] {
      assert first + second == second;
    } else {
      assert (first + second)[1..] == first[1..] + second;
      ExecSplit(Take(m, first[0]), first[1..], second);
    }
  }

  /** A step reports a successful send to the given lane. */
  ghost predicate Sends(m: Mail, step: MailStep, lane: LaneId) {
    && step.EndPublish? && step.t in m.ops && m.ops[step.t].Publishing? && m.ops[step.t].lane == lane
    && Take(m, step).ops[step.t] == Done(Sent)
  }

  /** The items whose senders were told `Ok`, in order. */
  ghost function SentItems(m: Mail, steps: seq<MailStep>, lane: LaneId): seq<Item>
    decreases |steps|
  {
    if steps == [] then []
    else (if Sends(m, steps[0], lane) then [m.ops[steps[0].t].item] else []) + SentItems(Take(m, steps[0]), steps[1..], lane)
  }

  lemma StepAccepts(m: Mail, step: MailStep, lane: LaneId)
    requires Inv(m)
    ensures LaneOf(Take(m, step), lane).accepted
         == LaneOf(m, lane).accepted + if Sends(m, step, lane) then [m.ops[step.t].item] else []
  {
    hide Take, W.Inv, LaneOk, Rules;
    match step
    case EndPublish(t) => PublicationLanes(m, t, lane);
    case Drain(budget) => DrainAccepts(m, budget);
    case EndClose => CloseAccepts(m);
    case _ => LanesUntouched(m, step);
  }

  lemma DrainAccepts(m: Mail, budget: nat)
    requires Inv(m)
    ensures var m' := Take(m, Drain(budget)); m'.control.accepted == m.control.accepted && m'.work.accepted == m.work.accepted
  {
    hide W.Inv, W.Take, LaneOk, Rules, DrainBoth;
    DrainsKeep(m, budget);
  }

  lemma CloseAccepts(m: Mail)
    requires Inv(m)
    ensures var m' := Take(m, EndClose); m'.control.accepted == m.control.accepted && m'.work.accepted == m.work.accepted
  {
    hide W.Inv, W.Take, LaneOk, Rules, DrainAll;
    DrainsKeep(m, 0);
  }

  lemma {:induction false} ExecAccepts(m: Mail, steps: seq<MailStep>, lane: LaneId)
    requires Inv(m)
    ensures LaneOf(Exec(m, steps), lane).accepted == LaneOf(m, lane).accepted + SentItems(m, steps, lane)
    decreases |steps|
  {
    hide Inv, Take, Sends;
    if steps != [] {
      StepAccepts(m, steps[0], lane);
      TakeKeepsInv(m, steps[0]);
      ExecAccepts(Take(m, steps[0]), steps[1..], lane);
    }
  }

  /**
   * Conservation per lane over any run: what was drained followed by what is still queued is exactly
   * the sequence of successful sends, the retained bytes are the sum over the queued entries, and
   * both stay within the lane's limits.
   */
  lemma MailboxConserves(control: Limits, work: Limits, fallible: bool, steps: seq<MailStep>, id: LaneId)
    ensures var start := New(control, work, fallible);
            var lane := LaneOf(Exec(start, steps), id);
            var limits := if id.Control? then control else work;
            && lane.drained + Items(lane.queue) == SentItems(start, steps, id)
            && lane.retained == Bytes(lane.queue) <= limits.bytes
            && |lane.queue| <= limits.messages
  {
    hide Rules, Take, Exec, SentItems, W.Inv;
    var start := New(control, work, fallible);
    NewIsOk(control, work, fallible);
    ExecKeepsInv(start, steps);
    ExecAccepts(start, steps, id);
    ExecKeepsParameters(start, steps);
  }

  /**
   * One drain takes control work first, as much as the budget allows, and appends the items in queue
   * order; it acknowledges exactly when it leaves both lanes empty.
   */
  lemma DrainTakesControlFirst(m: Mail, budget: nat)
    requires Inv(m) && m.owner.Turning? && m.lock.None? && budget > 0
    ensures var m' := Take(m, Drain(budget));
            var controls := |m.control.queue| - |m'.control.queue|;
            var works := |m.work.queue| - |m'.work.queue|;
            && controls >= 0 && works >= 0
            && m'.control.drained == m.control.drained + Items(m.control.queue)[..controls]
            && m'.work.drained == m.work.drained + Items(m.work.queue)[..works]
            && (works > 0 ==> m'.control.queue == [])
            && controls + works == Min(budget, |m.control.queue| + |m.work.queue|)
            && (m'.owner.Acking? <==> Empty(m'))
  {
    hide W.Inv, W.Take, W.At, LaneOk, Rules, DrainBoth;
    DrainBothTakes(m, budget);
  }

  lemma DrainBothTakes(m: Mail, budget: nat)
    requires LaneOk(m.control) && LaneOk(m.work)
    ensures var m' := DrainBoth(m, budget);
            var controls := |m.control.queue| - |m'.control.queue|;
            var works := |m.work.queue| - |m'.work.queue|;
            && m' == m.(control := m'.control, work := m'.work)
            && controls >= 0 && works >= 0
            && m'.control.drained == m.control.drained + Items(m.control.queue)[..controls]
            && m'.work.drained == m.work.drained + Items(m.work.queue)[..works]
            && (works > 0 ==> m'.control.queue == [])
            && controls + works == Min(budget, |m.control.queue| + |m.work.queue|)
  {
    hide LaneOk, Items, DrainLane;
    var controls := Min(budget, |m.control.queue|);
    DrainConserves(m.control, controls);
    DrainConserves(m.work, Min(budget - controls, |m.work.queue|));
  }

  /**
   * How a send is decided. Until it owns the lock nothing is admitted, and a refusal says why;
   * a failed wake is reported only when both lanes are empty. Every rejection returns the caller's
   * item and leaves both lanes as they were.
   */
  lemma SendOutcome(m: Mail, step: MailStep, t: Tid, outcome: Outcome)
    requires Inv(m)
    requires (step.Enter? && step.t == t && Free(m, t) && m.lock.None? && step.handle in m.handles)
          || (step.EndPublish? && step.t == t && t in m.ops && m.ops[t].Publishing? && W.At(m.wake, t).Returned?)
    requires t in Take(m, step).ops && Take(m, step).ops[t] == Done(outcome)
    ensures var m' := Take(m, step);
            var lane := LaneOf(m, if step.Enter? then step.lane else m.ops[t].lane);
            var item := if step.Enter? then step.item else m.ops[t].item;
            var bytes := if step.Enter? then step.bytes else m.ops[t].bytes;
            && (outcome.Sent? <==> step.EndPublish? && W.At(m.wake, t) == W.Returned(true))
            && (outcome.Sent? ==> |lane.queue| < lane.limit && lane.retained + bytes <= lane.byteLimit)
            && (!outcome.Sent? ==>
                  && outcome == Rejected(item, outcome.reason)
                  && m'.control == m.control && m'.work == m.work && m'.lock.None?
                  && (outcome.reason == Closed <==> !m.receiverAlive)
                  && (outcome.reason == MessageCapacity <==> m.receiverAlive && |lane.queue| >= lane.limit)
                  && (outcome.reason == ByteCapacity <==>
                        m.receiverAlive && |lane.queue| < lane.limit && lane.retained + bytes > lane.byteLimit)
                  && (outcome.reason == WakeFailed ==> Empty(m)))
  {
    hide W.Inv, W.Take, LaneOk, CallsOk, LastSenderOk, InfallibleOk;
  }

  /** A drain that reported `Closed`, or a closed receiver. */
  ghost predicate Finished(m: Mail) {
    && Empty(m) && (!m.receiverAlive || m.senders == 0)
    && (m.owner.Stopped? || m.owner.Acking? || m.owner.Closing?)
  }

  lemma DrainsNothing(m: Mail, budget: nat)
    requires Empty(m)
    ensures DrainBoth(m, budget) == m && DrainAll(m) == m
  {
  }

  lemma FinishedStep(m: Mail, step: MailStep)
    requires Inv(m) && Finished(m)
    ensures Finished(Take(m, step))
    ensures Take(m, step).control == m.control && Take(m, step).work == m.work
  {
    hide W.Inv, W.Take, LaneOk, CallsOk, InfallibleOk;
    match step
    case Drain(budget) => DrainsNothing(m, budget);
    case EndClose => DrainsNothing(m, 0);
    case _ =>
  }

  /** `Closed` is final: once the owner stopped, no continuation queues, accepts or drains anything. */
  lemma {:induction false} ClosedIsFinal(m: Mail, steps: seq<MailStep>)
    requires Inv(m) && Finished(m)
    ensures var m' := Exec(m, steps);
            Finished(m') && m'.control == m.control && m'.work == m.work
    decreases |steps|
  {
    hide Inv, Take, Finished;
    if steps != [] {
      FinishedStep(m, steps[0]);
      TakeKeepsInv(m, steps[0]);
      ClosedIsFinal(Take(m, steps[0]), steps[1..]);
    }
  }

  /** From a new mailbox, whatever follows the owner's stop changes no lane. */
  lemma StoppedRunIsFinal(control: Limits, work: Limits, fallible: bool, before: seq<MailStep>, after: seq<MailStep>)
    requires Exec(New(control, work, fallible), before).owner.Stopped?
    ensures var m := Exec(New(control, work, fallible), before);
            var m' := Exec(New(control, work, fallible), before + after);
            Empty(m') && m'.control == m.control && m'.work == m.work
  {
    hide Exec;
    NewIsOk(control, work, fallible);
    ExecKeepsInv(New(control, work, fallible), before);
    ExecSplit(New(control, work, fallible), before, after);
    ClosedIsFinal(Exec(New(control, work, fallible), before), after);
  }

  // ----- Work gets through -----

  /** A send the limits allow takes the lock and wakes the owner before it is decided. */
  lemma SendBegins(m: Mail, t: Tid, handle: nat, lane: LaneId, item: Item, bytes: U64)
    requires Inv(m) && Free(m, t) && m.lock.None? && handle in m.handles && m.receiverAlive
    requires var l := LaneOf(m, lane); |l.queue| < l.limit && l.retained + bytes <= l.byteLimit
    ensures var m' := Take(m, Enter(t, handle, lane, item, bytes));
            && t in m'.ops && m'.ops[t] == Publishing(handle, lane, item, bytes) && m'.lock == Some(t)
            && W.At(m'.wake, t) == W.Looping && m'.control == m.control && m'.work == m.work
  {
    hide LockOk, HandlesOk, WakingOk, LaneOk, W.Inv;
  }

  /** A wake that succeeded publishes the item behind everything queued, and one that failed does not. */
  lemma SendEnds(m: Mail, t: Tid)
    requires Inv(m) && t in m.ops && m.ops[t].Publishing? && W.At(m.wake, t).Returned?
    ensures var m' := Take(m, EndPublish(t));
            var op := m.ops[t];
            var lane, lane' := LaneOf(m, op.lane), LaneOf(m', op.lane);
            && m'.lock == None && t in m'.ops
            && (W.At(m.wake, t).ok ==>
                  && m'.ops[t] == Done(Sent) && lane'.queue == lane.queue + [Entry(op.item, op.bytes)]
                  && lane'.retained == lane.retained + op.bytes)
            && (!W.At(m.wake, t).ok ==> m'.ops[t] == Done(Rejected(op.item, WakeFailed)) && lane' == lane)
            && (if op.lane.Control? then m'.work == m.work else m'.control == m.control)
  {
    hide Take, LockOk, HandlesOk, CallsOk, WakingOk, LaneOk, W.Inv, W.At;
    TakeIsFinishPublish(m, t);
  }

  /** Closing the receiver hands out everything still queued, in order, and leaves the lanes empty. */
  lemma CloseReturnsEverything(m: Mail)
    requires Inv(m) && m.owner.Closing? && W.At(m.wake, OWNER).Returned?
    ensures var m' := Take(m, EndClose);
            && Empty(m') && !m'.receiverAlive && m'.owner.Stopped? && m'.lock == None
            && m'.control.drained == m.control.drained + Items(m.control.queue)
            && m'.work.drained == m.work.drained + Items(m.work.queue)
  {
    hide LockingOk, HolderOk, WakesOk, InfallibleOk, LaneOk, W.Inv, W.At, Items;
    DrainConserves(m.control, |m.control.queue|);
    DrainConserves(m.work, |m.work.queue|);
    assert Items(m.control.queue)[..|m.control.queue|] == Items(m.control.queue);
    assert Items(m.work.queue)[..|m.work.queue|] == Items(m.work.queue);
  }

  /**
   * In every run, an owner that is parked while work is queued has its notification: it wakes up, and
   * its next drain hands out as much of that work as the budget allows.
   */
  lemma PendingWorkIsDrained(control: Limits, work: Limits, fallible: bool, steps: seq<MailStep>, budget: nat)
    requires budget > 0
    ensures var m := Exec(New(control, work, fallible), steps);
            m.owner.Parked? && !Empty(m) ==>
              var woken := Take(m, Unpark);
              && woken == m.(notified := false, owner := Turning)
              && (m.lock.None? ==>
                    var m' := Take(woken, Drain(budget));
                    var handed := |m.control.queue| - |m'.control.queue| + |m.work.queue| - |m'.work.queue|;
                    handed == Min(budget, |m.control.queue| + |m.work.queue|) > 0)
  {
    hide Exec, Take;
    var start := New(control, work, fallible);
    NewIsOk(control, work, fallible);
    ExecKeepsInv(start, steps);
    NoLostWakeup(control, work, fallible, steps);
    var m := Exec(start, steps);
    if m.owner.Parked? && !Empty(m) {
      TakeUnpark(m);
      TakeKeepsInv(m, Unpark);
      if m.lock.None? {
        DrainTakesControlFirst(Take(m, Unpark), budget);
      }
    }
  }

  lemma TakeUnpark(m: Mail)
    requires m.owner.Parked? && m.notified
    ensures Take(m, Unpark) == m.(notified := false, owner := Turning)
  {
  }
}
