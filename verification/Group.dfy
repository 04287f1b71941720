/**
 * Group admission: any number of senders and concurrent closers over any number of shards, one
 * access to the shared flag or one shard lock at a time.
 */
module GroupFence {
  import opened Base

  type Tid = nat

  type Item(!new)

  datatype Failure = Closed | UnknownReactor | Mailbox

  /** Where a thread is inside `try_send_to` or `close`; `shard` is the lock it holds or wants. */
  datatype Pc =
    | Resting
    | Sending(reactor: nat, item: Item)
    | Locking(shard: nat, item: Item)
    | Rechecking(shard: nat, item: Item)
    | Publishing(shard: nat, item: Item)
    | Unlocking(shard: nat, item: Item, failure: Option<Failure>)
    | StoringClosed
    | Fencing(shard: nat)
    | FenceHeld(shard: nat)

  datatype Event =
    | Started(t: Tid, reactor: nat, item: Item)
    | Published(t: Tid, shard: nat, item: Item)
    | Refused(t: Tid, shard: nat, item: Item)
    | Sent(t: Tid, item: Item)
    | Returned(t: Tid, item: Item, failure: Failure)
    | GateClosed(t: Tid)
    | CloseReturned(t: Tid)

  datatype Group = Group(shards: nat, open: bool, locks: map<nat, Tid>, pcs: map<Tid, Pc>, log: seq<Event>)

  datatype Step =
    | StartSend(reactor: nat, item: Item)
    | Check
    | Lock
    | Recheck
    | Publish(accepted: bool)
    | Unlock
    | StartClose
    | Store
    | NoMoreShards

  function New(shards: nat): Group {
    Group(shards, true, map[], map[], [])
  }

  function At(g: Group, t: Tid): Pc {
    if t in g.pcs then g.pcs[t] else Resting
  }

  function Move(g: Group, t: Tid, pc: Pc): Group {
    g.(pcs := g.pcs[t := pc])
  }

  function Log(g: Group, event: Event): Group {
    g.(log := g.log + [event])
  }

  /** A send that never held a shard lock, or has just released it, returns. */
  function Return(g: Group, t: Tid, item: Item, failure: Option<Failure>): Group {
    Log(Move(g, t, Resting), if failure.None? then Sent(t, item) else Returned(t, item, failure.value))
  }

  function Release(g: Group, shard: nat): Group {
    g.(locks := map s | s in g.locks && s != shard :: g.locks[s])
  }

  /** One access by thread `t`; a step its program counter does not allow changes nothing. */
  function Take(g: Group, t: Tid, step: Step): (g': Group) {
    var pc := At(g, t);
    match step
    case StartSend(reactor, item) =>
      if pc.Resting? then Log(Move(g, t, Sending(reactor, item)), Started(t, reactor, item)) else g
    case Check =>
      if !pc.Sending? then g
      else if !g.open then Return(g, t, pc.item, Some(Closed))
      else if pc.reactor >= g.shards then Return(g, t, pc.item, Some(UnknownReactor))
      else Move(g, t, Locking(pc.reactor, pc.item))
    case Lock =>
      if pc.Locking? && pc.shard !in g.locks then Move(g, t, Rechecking(pc.shard, pc.item)).(locks := g.locks[pc.shard := t])
      else if pc.Fencing? && pc.shard < g.shards && pc.shard !in g.locks then Move(g, t, FenceHeld(pc.shard)).(locks := g.locks[pc.shard := t])
      else g
    case Recheck =>
      if !pc.Rechecking? then g
      else if !g.open then Move(g, t, Unlocking(pc.shard, pc.item, Some(Closed)))
      else Move(g, t, Publishing(pc.shard, pc.item))
    case Publish(accepted) =>
      if !pc.Publishing? then g
      else if accepted then Log(Move(g, t, Unlocking(pc.shard, pc.item, None)), Published(t, pc.shard, pc.item))
      else Log(Move(g, t, Unlocking(pc.shard, pc.item, Some(Mailbox))), Refused(t, pc.shard, pc.item))
    case Unlock =>
      if pc.Unlocking? then Return(Release(g, pc.shard), t, pc.item, pc.failure)
      else if pc.FenceHeld? then Move(Release(g, pc.shard), t, Fencing(pc.shard + 1))
      else g
    case StartClose => if pc.Resting? then Move(g, t, StoringClosed) else g
    case Store =>
      if pc.StoringClosed? then Log(Move(g, t, Fencing(0)), GateClosed(t)).(open := false) else g
    case NoMoreShards =>
      if pc.Fencing? && pc.shard >= g.shards then Log(Move(g, t, Resting), CloseReturned(t)) else g
  }

  ghost function Exec(g: Group, steps: seq<(Tid, Step)>): Group
    decreases |steps|
  {
    if steps == [] then g else Exec(Take(g, steps[0].0, steps[0].1), steps[1..])
  }

  // ----- What the event log must satisfy -----

  ghost predicate HasClosed(log: seq<Event>) {
    exists i :: 0 <= i < |log| && log[i].CloseReturned?
  }

  /** Nothing is published, on any shard, after any close has returned. */
  ghost predicate Fenced(log: seq<Event>) {
    forall i, j :: 0 <= i < j < |log| && log[i].CloseReturned? ==> !log[j].Published?
  }

  /** The latest event of one thread. */
  ghost function LastOf(log: seq<Event>, t: Tid): Option<Event> {
    if log == [] then None
    else if log[|log| - 1].t == t then Some(log[|log| - 1])
    else LastOf(log[..|log| - 1], t)
  }

  ghost predicate HasStored(log: seq<Event>) {
    log != [] && (log[|log| - 1].GateClosed? || HasStored(log[..|log| - 1]))
  }

  /** The thread's latest send began after some closer had closed the gate. */
  ghost predicate StartedLate(log: seq<Event>, t: Tid) {
    log != []
    && if log[|log| - 1].t == t && log[|log| - 1].Started? then HasStored(log[..|log| - 1])
       else StartedLate(log[..|log| - 1], t)
  }

  /**
   * When an event may follow a history. A send ends with `Ok` right after its own publication on the
   * shard it named, with `Mailbox` right after that shard's mailbox refused it, with `UnknownReactor`
   * only when it named no shard, and with `Closed` only once the gate is closed; one that began after
   * that ends with `Closed` and nothing else. Every error returns the send's own item.
   */
  ghost predicate Justified(shards: nat, before: seq<Event>, event: Event) {
    var last := LastOf(before, event.t);
    match event
    case Published(t, shard, item) => shard < shards && last == Some(Started(t, shard, item)) && !StartedLate(before, t)
    case Refused(t, shard, item) => shard < shards && last == Some(Started(t, shard, item)) && !StartedLate(before, t)
    case Sent(t, item) => last.Some? && last.value.Published? && last.value.item == item
    case Returned(t, item, failure) =>
      && last.Some?
      && (failure.Mailbox? ==> last.value.Refused? && last.value.item == item)
      && (failure.UnknownReactor? ==>
            && last.value.Started? && last.value.item == item
            && last.value.reactor >= shards && !StartedLate(before, t))
      && (failure.Closed? ==> last.value.Started? && last.value.item == item && HasStored(before))
    case CloseReturned(t) => last == Some(GateClosed(t))
    case Started(_, _, _) => true
    case GateClosed(_) => true
  }

  /** Every send and every close is accounted for. */
  ghost predicate Accounted(shards: nat, log: seq<Event>) {
    log == [] || (Accounted(shards, log[..|log| - 1]) && Justified(shards, log[..|log| - 1], log[|log| - 1]))
  }

  // ----- Inductive invariant -----

  predicate HoldsLock(pc: Pc) {
    pc.Rechecking? || pc.Publishing? || pc.Unlocking? || pc.FenceHeld?
  }

  predicate IsFencing(pc: Pc) {
    pc.Fencing? || pc.FenceHeld?
  }

  /** How many shards a closer has already passed. */
  function Passed(pc: Pc): nat
    requires IsFencing(pc)
  {
    if pc.Fencing? then pc.shard else pc.shard + 1
  }

  ghost predicate LocksOk(g: Group) {
    forall t :: t in g.pcs && HoldsLock(g.pcs[t]) ==> g.pcs[t].shard in g.locks && g.locks[g.pcs[t].shard] == t
  }

  /** No lock is held by a thread outside its critical section. */
  ghost predicate NoneLeaked(g: Group) {
    forall shard :: shard in g.locks ==>
      g.locks[shard] in g.pcs && HoldsLock(g.pcs[g.locks[shard]]) && g.pcs[g.locks[shard]].shard == shard
  }

  ghost predicate ShardsOk(g: Group) {
    forall t :: t in g.pcs && g.pcs[t].Publishing? ==> g.pcs[t].shard < g.shards
  }

  ghost predicate RecheckedOk(g: Group) {
    forall t :: t in g.pcs && (g.pcs[t].Locking? || g.pcs[t].Rechecking?) ==> g.pcs[t].shard < g.shards
  }

  /** Shards a closer has passed hold no sender that still may publish. */
  ghost predicate FencesOk(g: Group) {
    && (forall t :: t in g.pcs && IsFencing(g.pcs[t]) ==> !g.open)
    && (forall t, u :: t in g.pcs && u in g.pcs && IsFencing(g.pcs[t]) && g.pcs[u].Publishing? ==> Passed(g.pcs[t]) <= g.pcs[u].shard)
  }

  ghost predicate ClosedOk(g: Group) {
    HasClosed(g.log) ==> !g.open && NoPublisher(g.pcs)
  }

  /** The gate is closed exactly once some closer has closed it. */
  ghost predicate GateOk(g: Group) {
    g.open <==> !HasStored(g.log)
  }

  /** What each thread's latest event is. */
  ghost predicate LastsOk(g: Group) {
    forall t :: t in g.pcs ==> LastOk(g.shards, g.open, t, g.pcs[t], LastOf(g.log, t), StartedLate(g.log, t))
  }

  ghost predicate LastOk(shards: nat, open: bool, t: Tid, pc: Pc, last: Option<Event>, late: bool) {
    && (late ==> !open)
    && (pc.Sending? ==> last == Some(Started(t, pc.reactor, pc.item)))
    && (pc.Locking? || pc.Rechecking? || pc.Publishing? ==>
          last == Some(Started(t, pc.shard, pc.item)) && pc.shard < shards && !late)
    && (pc.Unlocking? && pc.failure == Some(Closed) ==> last == Some(Started(t, pc.shard, pc.item)) && !open)
    && (pc.Unlocking? && pc.failure == Some(Mailbox) ==> last.Some? && last.value.Refused? && last.value.item == pc.item)
    && (pc.Unlocking? ==> pc.failure != Some(UnknownReactor))
    && (pc.Unlocking? && pc.failure.None? ==> last.Some? && last.value.Published? && last.value.item == pc.item)
    && (IsFencing(pc) ==> last == Some(GateClosed(t)))
  }

  ghost predicate Inv(g: Group) {
    LocksOk(g) && NoneLeaked(g) && ShardsOk(g) && RecheckedOk(g) && FencesOk(g) && ClosedOk(g) && GateOk(g) && LastsOk(g) && Fenced(g.log) && Accounted(g.shards, g.log)
  }

  lemma Appended(shards: nat, log: seq<Event>, event: Event)
    ensures (log + [event])[..|log|] == log
    ensures HasClosed(log + [event]) <==> HasClosed(log) || event.CloseReturned?
    ensures Fenced(log) && (event.Published? ==> !HasClosed(log)) ==> Fenced(log + [event])
    ensures Accounted(shards, log) && Justified(shards, log, event) ==> Accounted(shards, log + [event])
  {
    assert (log + [event])[..|log|] == log;
    if HasClosed(log) {
      var i :| 0 <= i < |log| && log[i].CloseReturned?;
      assert (log + [event])[i] == log[i];
    }
    if event.CloseReturned? {
      assert (log + [event])[|log|] == event;
    }
  }

  lemma KeepsLocks(g: Group, t: Tid, step: Step)
    requires Inv(g)
    ensures LocksOk(Take(g, t, step))
  {
    hide NoneLeaked, ShardsOk, RecheckedOk, FencesOk, ClosedOk, GateOk, LastsOk, Fenced, Accounted, HasClosed;
  }

  lemma KeepsNoneLeaked(g: Group, t: Tid, step: Step)
    requires LocksOk(g) && NoneLeaked(g)
    ensures NoneLeaked(Take(g, t, step))
  {
  }

  lemma KeepsShards(g: Group, t: Tid, step: Step)
    requires Inv(g)
    ensures var g' := Take(g, t, step); ShardsOk(g') && RecheckedOk(g')
  {
    hide NoneLeaked, LocksOk, FencesOk, ClosedOk, GateOk, LastsOk, Fenced, Accounted, HasClosed;
  }

  /** Acquiring a shard's lock shows that no sender is between its recheck and its publication there. */
  lemma KeepsFences(g: Group, t: Tid, step: Step)
    requires Inv(g)
    ensures FencesOk(Take(g, t, step))
  {
    hide NoneLeaked, ClosedOk, GateOk, LastsOk, Fenced, Accounted, HasClosed;
  }

  ghost predicate NoPublisher(pcs: map<Tid, Pc>) {
    forall t :: t in pcs ==> !pcs[t].Publishing?
  }

  /** Once closed, no thread gets past its recheck. */
  lemma StaysClosed(g: Group, t: Tid, step: Step)
    requires !g.open && NoPublisher(g.pcs)
    ensures !Take(g, t, step).open && NoPublisher(Take(g, t, step).pcs)
  {
  }

  /** A close returns only after every shard was passed, so no thread can still publish. */
  lemma ClosesClean(g: Group, t: Tid, step: Step)
    requires FencesOk(g) && ShardsOk(g)
    requires var g' := Take(g, t, step); |g'.log| > |g.log| && g'.log[|g.log|].CloseReturned?
    ensures !Take(g, t, step).open
    ensures FencesOk(Take(g, t, step)) ==> NoPublisher(Take(g, t, step).pcs)
  {
    hide HasClosed;
  }

  lemma KeepsClosed(g: Group, t: Tid, step: Step)
    requires Inv(g)
    ensures ClosedOk(Take(g, t, step))
  {
    hide Take, NoneLeaked, LocksOk, RecheckedOk, ShardsOk, FencesOk, GateOk, LastsOk, Fenced, Accounted, HasClosed;
    var g' := Take(g, t, step);
    LogsOwnEvent(g, t, step);
    if HasClosed(g.log) {
      StaysClosed(g, t, step);
    } else if g'.log != g.log {
      Appended(g.shards, g.log, g'.log[|g.log|]);
      if g'.log[|g.log|].CloseReturned? {
        KeepsFences(g, t, step);
        ClosesClean(g, t, step);
      }
    }
  }

  lemma LogsOwnEvent(g: Group, t: Tid, step: Step)
    ensures var g' := Take(g, t, step);
            && (forall u :: u != t ==> (u in g'.pcs <==> u in g.pcs) && (u in g.pcs ==> g'.pcs[u] == g.pcs[u]))
            && (g'.log == g.log || (|g'.log| == |g.log| + 1 && g'.log == g.log + [g'.log[|g.log|]] && g'.log[|g.log|].t == t))
  {
  }

  lemma AppendedLast(log: seq<Event>, event: Event)
    ensures LastOf(log + [event], event.t) == Some(event)
    ensures StartedLate(log + [event], event.t) == if event.Started? then HasStored(log) else StartedLate(log, event.t)
    ensures HasStored(log + [event]) <==> HasStored(log) || event.GateClosed?
    ensures forall u :: u != event.t ==> LastOf(log + [event], u) == LastOf(log, u) && StartedLate(log + [event], u) == StartedLate(log, u)
  {
    assert (log + [event])[..|log|] == log;
  }

  lemma KeepsGate(g: Group, t: Tid, step: Step)
    requires GateOk(g)
    ensures GateOk(Take(g, t, step))
  {
    hide HasStored;
    var g' := Take(g, t, step);
    LogsOwnEvent(g, t, step);
    if g'.log != g.log {
      AppendedLast(g.log, g'.log[|g.log|]);
    }
  }

  /** What the invariant knows of one thread. */
  ghost predicate LastAt(g: Group, t: Tid) {
    t in g.pcs ==> LastOk(g.shards, g.open, t, g.pcs[t], LastOf(g.log, t), StartedLate(g.log, t))
  }

  lemma KeepsOwnLast(g: Group, t: Tid, step: Step)
    requires LastAt(g, t) && GateOk(g) && (StartedLate(g.log, t) ==> HasStored(g.log))
    ensures LastAt(Take(g, t, step), t)
  {
    hide LastOf, StartedLate, HasStored;
    var g' := Take(g, t, step);
    LogsOwnEvent(g, t, step);
    if g'.log != g.log {
      AppendedLast(g.log, g'.log[|g.log|]);
    }
  }

  /** The gate never opens again and the shards never change. */
  lemma GateStaysClosed(g: Group, t: Tid, step: Step)
    ensures var g' := Take(g, t, step); g'.shards == g.shards && (g'.open ==> g.open)
  {
  }

  lemma {:induction false} LateIsStored(log: seq<Event>, t: Tid)
    requires StartedLate(log, t)
    ensures HasStored(log)
  {
    if !(log[|log| - 1].t == t && log[|log| - 1].Started?) {
      LateIsStored(log[..|log| - 1], t);
    }
  }

  lemma KeepsLasts(g: Group, t: Tid, step: Step)
    requires Inv(g)
    ensures LastsOk(Take(g, t, step))
  {
    hide Take, NoneLeaked, LocksOk, ShardsOk, RecheckedOk, FencesOk, ClosedOk, Fenced, Accounted, HasClosed, LastOf, StartedLate, HasStored;
    var g' := Take(g, t, step);
    LogsOwnEvent(g, t, step);
    GateStaysClosed(g, t, step);
    if g'.log != g.log {
      AppendedLast(g.log, g'.log[|g.log|]);
    }
    forall u | u in g'.pcs
      ensures LastOk(g'.shards, g'.open, u, g'.pcs[u], LastOf(g'.log, u), StartedLate(g'.log, u))
    {
      if u == t {
        if StartedLate(g.log, t) {
          LateIsStored(g.log, t);
        }
        KeepsOwnLast(g, t, step);
      } else {
        assert LastOk(g.shards, g.open, u, g.pcs[u], LastOf(g.log, u), StartedLate(g.log, u));
      }
    }
  }

  lemma JustifiesOwn(g: Group, t: Tid, step: Step)
    requires LastAt(g, t) && GateOk(g)
    ensures var g' := Take(g, t, step);
            g'.log != g.log ==> Justified(g.shards, g.log, g'.log[|g.log|])
  {
    hide LastOf, StartedLate, HasStored;
    var g' := Take(g, t, step);
    if g'.log != g.log {
      var event := g'.log[|g.log|];
      assert event.t == t;
      assert event.Returned? && event.failure.Closed? ==> Justified(g.shards, g.log, event);
      assert event.Returned? && event.failure.UnknownReactor? ==> Justified(g.shards, g.log, event);
      assert event.Returned? && event.failure.Mailbox? ==> Justified(g.shards, g.log, event);
      assert event.Published? || event.Refused? || event.Sent? ==> Justified(g.shards, g.log, event);
    }
  }

  lemma PublishesBeforeClose(g: Group, t: Tid, step: Step)
    requires ClosedOk(g)
    ensures var g' := Take(g, t, step);
            g'.log != g.log && g'.log[|g.log|].Published? ==> !HasClosed(g.log)
  {
    hide HasClosed;
  }

  lemma KeepsLog(g: Group, t: Tid, step: Step)
    requires Inv(g)
    ensures Fenced(Take(g, t, step).log) && Accounted(g.shards, Take(g, t, step).log)
  {
    hide Take, NoneLeaked, LocksOk, RecheckedOk, FencesOk, ShardsOk, ClosedOk, Fenced, Accounted, Justified, HasClosed, LastOf, StartedLate, HasStored, LastOk;
    var g' := Take(g, t, step);
    LogsOwnEvent(g, t, step);
    if g'.log != g.log {
      JustifiesOwn(g, t, step);
      PublishesBeforeClose(g, t, step);
      Appended(g.shards, g.log, g'.log[|g.log|]);
    }
  }

  lemma TakeKeepsInv(g: Group, t: Tid, step: Step)
    requires Inv(g)
    ensures Inv(Take(g, t, step))
  {
    hide Take, NoneLeaked, LocksOk, ShardsOk, RecheckedOk, FencesOk, ClosedOk, GateOk, LastsOk, Fenced, Accounted;
    KeepsLocks(g, t, step);
    KeepsNoneLeaked(g, t, step);
    KeepsShards(g, t, step);
    KeepsFences(g, t, step);
    KeepsClosed(g, t, step);
    KeepsGate(g, t, step);
    GateStaysClosed(g, t, step);
    KeepsLasts(g, t, step);
    KeepsLog(g, t, step);
  }

  lemma {:induction false} ExecKeepsInv(g: Group, steps: seq<(Tid, Step)>)
    requires Inv(g)
    ensures Inv(Exec(g, steps))
    decreases |steps|
  {
    hide Inv, Take;
    if steps != [] {
      TakeKeepsInv(g, steps[0].0, steps[0].1);
      ExecKeepsInv(Take(g, steps[0].0, steps[0].1), steps[1..]);
    }
  }

  /**
   * Close is a fence, for any number of shards, senders and concurrent closers: once any close has
   * returned nothing is published on any shard, every send published its item exactly once before
   * returning `Ok` or returned the item unpublished for the cause it names, and a send that begins after
   * the gate closed returns `Closed`. A shard's lock is held by exactly the thread that is between its
   * acquisition and its release.
   */
  lemma CloseIsFence(shards: nat, steps: seq<(Tid, Step)>)
    ensures var g := Exec(New(shards), steps);
            Fenced(g.log) && Accounted(shards, g.log) && LocksOk(g) && NoneLeaked(g)
  {
    ExecKeepsInv(New(shards), steps);
    ExecKeepsShards(New(shards), steps);
  }

  lemma {:induction false} ExecKeepsShards(g: Group, steps: seq<(Tid, Step)>)
    ensures Exec(g, steps).shards == g.shards
    decreases |steps|
  {
    hide Take;
    if steps != [] {
      GateStaysClosed(g, steps[0].0, steps[0].1);
      ExecKeepsShards(Take(g, steps[0].0, steps[0].1), steps[1..]);
    }
  }
}
