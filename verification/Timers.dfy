/**
 * The stable timer queue: an unordered heap vector updated in place, proved against the sequence of
 * its timers in (deadline, identity) order.
 */
module TimerQueues {
  import opened Base

  type Value(!new)

  datatype TimerToken = TimerToken(owner: U64, id: U64, deadline: U64)

  datatype Timer = Timer(token: TimerToken, value: Value, bytes: U64)

  datatype Limits = Limits(timers: nat, bytes: U64)

  datatype ScheduleFailure = TimerCapacity | RetainedByteOverflow | RetainedByteCapacity | TimerIdsExhausted

  datatype ScheduleError = ScheduleError(deadline: U64, value: Value, failure: ScheduleFailure)

  // ----- Order -----

  datatype Ordering = Less | Equal | Greater

  function Compare(a: U64, b: U64): Ordering {
    if a < b then Less else if a == b then Equal else Greater
  }

  /** The heap's own comparison: reversed, so that the greatest heap entry is the first timer. */
  function HeapCompare(a: TimerToken, b: TimerToken): Ordering {
    var byDeadline := Compare(b.deadline, a.deadline);
    if byDeadline.Equal? then Compare(b.id, a.id) else byDeadline
  }

  /** Stable firing order: by deadline, then by admission identity. */
  predicate Before(a: TimerToken, b: TimerToken) {
    a.deadline < b.deadline || (a.deadline == b.deadline && a.id < b.id)
  }

  /** The heap's greatest entry is the timer that fires first. */
  lemma HeapOrderIsFiringOrder(a: TimerToken, b: TimerToken)
    ensures HeapCompare(a, b).Greater? <==> Before(a, b)
    ensures HeapCompare(a, b).Equal? <==> a.deadline == b.deadline && a.id == b.id
  {
  }

  ghost predicate Sorted(order: seq<Timer>) {
    forall i, j :: 0 <= i < j < |order| ==> Before(order[i].token, order[j].token)
  }

  /** The position of a greatest heap entry. */
  function Top(timers: seq<Timer>): (top: nat)
    requires timers != []
    ensures top < |timers|
    ensures forall i :: 0 <= i < |timers| ==> !HeapCompare(timers[i].token, timers[top].token).Greater?
  {
    if |timers| == 1 then 0
    else
      var rest := Top(timers[..|timers| - 1]);
      if HeapCompare(timers[|timers| - 1].token, timers[rest].token).Greater? then |timers| - 1 else rest
  }

  /** The position of the first entry with exactly this token. */
  function Position(timers: seq<Timer>, token: TimerToken, from: nat): (index: Option<nat>)
    requires from <= |timers|
    ensures index.Some? ==> from <= index.value < |timers| && timers[index.value].token == token
    ensures index.None? ==> forall i :: from <= i < |timers| ==> timers[i].token != token
    decreases |timers| - from
  {
    if from == |timers| then None
    else if timers[from].token == token then Some(from)
    else Position(timers, token, from + 1)
  }

  function Without<T>(s: seq<T>, index: nat): seq<T>
    requires index < |s|
  {
    s[..index] + s[index + 1..]
  }

  /** `swap_remove`: the last entry takes the removed one's place. */
  function SwapRemoved(timers: seq<Timer>, index: nat): seq<Timer>
    requires index < |timers|
  {
    var last := |timers| - 1;
    if index == last then timers[..last] else timers[..last][index := timers[last]]
  }

  lemma WithoutMultiset<T>(s: seq<T>, index: nat)
    requires index < |s|
    ensures multiset(Without(s, index)) == multiset(s) - multiset{s[index]}
  {
    assert s == s[..index] + [s[index]] + s[index + 1..];
  }

  lemma SwapRemovedMultiset(timers: seq<Timer>, index: nat)
    requires index < |timers|
    ensures multiset(SwapRemoved(timers, index)) == multiset(timers) - multiset{timers[index]}
  {
    var last := |timers| - 1;
    assert timers == timers[..last] + [timers[last]];
    if index != last {
      assert timers[..last] == timers[..index] + [timers[index]] + timers[index + 1..last];
      assert SwapRemoved(timers, index) == timers[..index] + [timers[last]] + timers[index + 1..last];
    }
  }

  ghost function Bytes(order: seq<Timer>): nat {
    if order == [] then 0 else order[0].bytes + Bytes(order[1..])
  }

  lemma {:induction false} BytesSplit(a: seq<Timer>, b: seq<Timer>)
    ensures Bytes(a + b) == Bytes(a) + Bytes(b)
  {
    if a == [] {
      assert a + b == b;
    } else {
      assert (a + b)[1..] == a[1..] + b;
      BytesSplit(a[1..], b);
    }
  }

  lemma BytesWithout(order: seq<Timer>, index: nat)
    requires index < |order|
    ensures Bytes(order) == order[index].bytes + Bytes(Without(order, index))
  {
    BytesSplit(order[..index], order[index..]);
    BytesSplit(order[..index], order[index + 1..]);
    assert order == order[..index] + order[index..];
  }

  // ----- The queue's value: its timers in firing order -----

  datatype Queue = Queue(owner: U64, limits: Limits, order: seq<Timer>, nextId: Option<U64>)

  ghost predicate QueueOk(q: Queue) {
    && Sorted(q.order) && OwnTimers(q.order, q.owner, q.nextId)
    && |q.order| <= q.limits.timers && Bytes(q.order) <= q.limits.bytes
  }

  /** Every timer was issued by this owner before the next identity. */
  ghost predicate OwnTimers(order: seq<Timer>, owner: U64, next: Option<U64>) {
    forall t :: t in order ==> t.token.owner == owner && IdBelow(t.token.id, next)
  }

  function NextId(id: U64): Option<U64> {
    if id < U64_MAX then Some(id + 1) else None
  }

  /** Where a new timer goes: after everything that fires before it. */
  function Slot(order: seq<Timer>, token: TimerToken): (at: nat)
    ensures at <= |order|
    ensures forall i :: 0 <= i < at ==> Before(order[i].token, token)
    ensures at < |order| ==> !Before(order[at].token, token)
  {
    if order == [] || !Before(order[0].token, token) then 0 else 1 + Slot(order[1..], token)
  }

  function Inserted(order: seq<Timer>, timer: Timer): seq<Timer> {
    var at := Slot(order, timer.token);
    order[..at] + [timer] + order[at..]
  }

  lemma InsertKeepsSorted(order: seq<Timer>, timer: Timer)
    requires Sorted(order)
    requires forall t :: t in order ==> t.token.id != timer.token.id
    ensures Sorted(Inserted(order, timer))
  {
    var at := Slot(order, timer.token);
    var inserted := Inserted(order, timer);
    forall i | at <= i < |order| ensures Before(timer.token, order[i].token) {
      assert order[i] in order && order[at] in order;
      if i > at {
        assert Before(order[at].token, order[i].token);
      }
    }
    forall i, j | 0 <= i < j < |inserted| ensures Before(inserted[i].token, inserted[j].token) {
      assert inserted[i] == if i < at then order[i] else if i == at then timer else order[i - 1];
      assert inserted[j] == if j < at then order[j] else if j == at then timer else order[j - 1];
    }
  }

  lemma InsertAccounts(order: seq<Timer>, timer: Timer)
    ensures multiset(Inserted(order, timer)) == multiset(order) + multiset{timer}
    ensures Bytes(Inserted(order, timer)) == Bytes(order) + timer.bytes
    ensures |Inserted(order, timer)| == |order| + 1
    ensures forall t :: t in Inserted(order, timer) <==> t in order || t == timer
  {
    hide Slot;
    var at := Slot(order, timer.token);
    assert order == order[..at] + order[at..];
    assert Inserted(order, timer) == order[..at] + ([timer] + order[at..]);
    BytesSplit(order[..at], order[at..]);
    BytesSplit(order[..at], [timer] + order[at..]);
    BytesSplit([timer], order[at..]);
    forall t ensures t in order <==> t in order[..at] || t in order[at..] {
      assert t in order[..at] + order[at..] <==> t in order[..at] || t in order[at..];
    }
  }

  function ScheduleOutcome(q: Queue, deadline: U64, value: Value, bytes: U64, retained: nat): (r: Result<TimerToken, ScheduleError>) {
    if |q.order| >= q.limits.timers then Err(ScheduleError(deadline, value, TimerCapacity))
    else if retained + bytes > U64_MAX then Err(ScheduleError(deadline, value, RetainedByteOverflow))
    else if retained + bytes > q.limits.bytes then Err(ScheduleError(deadline, value, RetainedByteCapacity))
    else if q.nextId.None? then Err(ScheduleError(deadline, value, TimerIdsExhausted))
    else Ok(TimerToken(q.owner, q.nextId.value, deadline))
  }

  ghost function AfterSchedule(q: Queue, deadline: U64, value: Value, bytes: U64): Queue {
    var token := ScheduleOutcome(q, deadline, value, bytes, Bytes(q.order));
    if token.Err? then q
    else q.(order := Inserted(q.order, Timer(token.value, value, bytes)), nextId := NextId(token.value.id))
  }

  /** Only the exact token of a pending timer cancels, and only that timer. */
  function AfterCancel(q: Queue, token: TimerToken): Queue {
    var index := Position(q.order, token, 0);
    if index.None? then q else q.(order := Without(q.order, index.value))
  }

  /** How many timers, from the front, are due. */
  function DueCount(order: seq<Timer>, now: U64): (n: nat)
    ensures n <= |order|
  {
    if order == [] || order[0].token.deadline > now then 0 else 1 + DueCount(order[1..], now)
  }

  lemma {:induction false} DuePrefix(order: seq<Timer>, now: U64)
    requires Sorted(order)
    ensures forall i :: 0 <= i < |order| ==> (order[i].token.deadline <= now <==> i < DueCount(order, now))
  {
    if order != [] {
      if order[0].token.deadline <= now {
        DuePrefix(order[1..], now);
        forall i | 0 <= i < |order| ensures order[i].token.deadline <= now <==> i < DueCount(order, now) {
          if i > 0 {
            assert order[i] == order[1..][i - 1];
          }
        }
      } else {
        forall i | 0 <= i < |order| ensures order[i].token.deadline > now {
          if i > 0 {
            assert Before(order[0].token, order[i].token);
          }
        }
      }
    }
  }

  function Min(a: nat, b: nat): nat {
    if a <= b then a else b
  }

  /** The timers a drain transfers, in order. */
  function Fired(q: Queue, now: U64, budget: nat): seq<Timer> {
    q.order[..Min(budget, DueCount(q.order, now))]
  }

  function AfterDrain(q: Queue, now: U64, budget: nat): Queue {
    q.(order := q.order[Min(budget, DueCount(q.order, now))..])
  }

  /** `more_due` after a drain. */
  function MoreDue(q: Queue, now: U64, budget: nat): bool {
    budget < DueCount(q.order, now)
  }

  /**
   * A drain fires due timers only, in strict (deadline, identity) order, each before everything it
   * leaves; it stops early only when nothing is due, and `more_due` says exactly whether something still is.
   */
  lemma DrainFiresInOrder(q: Queue, now: U64, budget: nat)
    requires QueueOk(q)
    ensures var fired := Fired(q, now, budget);
            var left := AfterDrain(q, now, budget).order;
            && Sorted(fired)
            && (forall i :: 0 <= i < |fired| ==> fired[i].token.deadline <= now)
            && (forall i, j :: 0 <= i < |fired| && 0 <= j < |left| ==> Before(fired[i].token, left[j].token))
            && (|fired| < budget ==> forall j :: 0 <= j < |left| ==> left[j].token.deadline > now)
            && |fired| <= budget
            && (MoreDue(q, now, budget) <==> exists j :: 0 <= j < |left| && left[j].token.deadline <= now)
  {
    DuePrefix(q.order, now);
    var left := AfterDrain(q, now, budget).order;
    if MoreDue(q, now, budget) {
      assert left[0].token.deadline <= now;
    }
  }

  lemma {:induction false} DueCountAfter(order: seq<Timer>, now: U64, k: nat)
    requires k <= DueCount(order, now)
    ensures DueCount(order[k..], now) == DueCount(order, now) - k
  {
    if k > 0 {
      DueCountAfter(order[1..], now, k - 1);
      assert order[1..][k - 1..] == order[k..];
    }
  }

  /** Draining with two budgets at one moment is draining with their sum. */
  lemma DrainBudgetsAdd(q: Queue, now: U64, first: nat, second: nat)
    ensures var middle := AfterDrain(q, now, first);
            && Fired(q, now, first + second) == Fired(q, now, first) + Fired(middle, now, second)
            && AfterDrain(q, now, first + second) == AfterDrain(middle, now, second)
            && MoreDue(q, now, first + second) == MoreDue(middle, now, second)
  {
    hide DueCount;
    var due := DueCount(q.order, now);
    var k := Min(first, due);
    DueCountAfter(q.order, now, k);
    var l := Min(second, due - k);
    assert Min(first + second, due) == k + l;
    assert q.order[k..][..l] == q.order[k..k + l] && q.order[k..][l..] == q.order[k + l..];
    assert q.order[..k + l] == q.order[..k] + q.order[k..k + l];
  }

  lemma WithoutKeepsSorted(order: seq<Timer>, index: nat)
    requires Sorted(order) && index < |order|
    ensures Sorted(Without(order, index))
  {
    var left := Without(order, index);
    forall i, j | 0 <= i < j < |left| ensures Before(left[i].token, left[j].token) {
      assert left[i] == order[if i < index then i else i + 1];
      assert left[j] == order[if j < index then j else j + 1];
    }
  }

  lemma WithoutMembers(order: seq<Timer>, index: nat, t: Timer)
    requires Sorted(order) && index < |order|
    ensures t in Without(order, index) <==> t in order && t.token != order[index].token
  {
    var left := Without(order, index);
    if t in left {
      var i :| 0 <= i < |left| && left[i] == t;
      var k := if i < index then i else i + 1;
      assert order[k] == t;
      assert k < index ==> Before(order[k].token, order[index].token);
      assert index < k ==> Before(order[index].token, order[k].token);
    }
    if t in order && t.token != order[index].token {
      var i :| 0 <= i < |order| && order[i] == t;
      assert left[if i < index then i else i - 1] == t;
    }
  }

  /** Cancelling removes exactly the named timer and keeps the others in order. */
  lemma CancelIsExact(q: Queue, token: TimerToken, t: Timer)
    requires QueueOk(q)
    ensures t in AfterCancel(q, token).order <==> t in q.order && t.token != token
  {
    var index := Position(q.order, token, 0);
    if index.Some? {
      WithoutMembers(q.order, index.value, t);
    }
  }

  // ----- Runs -----

  datatype Op = Schedule(deadline: U64, value: Value, bytes: U64) | Cancel(token: TimerToken) | Drain(now: U64, budget: nat)

  ghost function After(q: Queue, op: Op): Queue {
    match op
    case Schedule(deadline, value, bytes) => AfterSchedule(q, deadline, value, bytes)
    case Cancel(token) => AfterCancel(q, token)
    case Drain(now, budget) => AfterDrain(q, now, budget)
  }

  ghost function Run(q: Queue, ops: seq<Op>): Queue {
    if ops == [] then q else After(Run(q, ops[..|ops| - 1]), ops[|ops| - 1])
  }

  /** The timers one operation admits. */
  ghost function Admits(q: Queue, op: Op): seq<Timer> {
    if !op.Schedule? then []
    else
      var token := ScheduleOutcome(q, op.deadline, op.value, op.bytes, Bytes(q.order));
      if token.Err? then [] else [Timer(token.value, op.value, op.bytes)]
  }

  /** The timers one operation gives back to its caller. */
  ghost function Releases(q: Queue, op: Op): seq<Timer> {
    match op
    case Schedule(_, _, _) => []
    case Cancel(token) =>
      var index := Position(q.order, token, 0);
      if index.None? then [] else [q.order[index.value]]
    case Drain(now, budget) => Fired(q, now, budget)
  }

  ghost function Admitted(q: Queue, ops: seq<Op>): seq<Timer> {
    if ops == [] then []
    else Admitted(q, ops[..|ops| - 1]) + Admits(Run(q, ops[..|ops| - 1]), ops[|ops| - 1])
  }

  ghost function Released(q: Queue, ops: seq<Op>): seq<Timer> {
    if ops == [] then []
    else Released(q, ops[..|ops| - 1]) + Releases(Run(q, ops[..|ops| - 1]), ops[|ops| - 1])
  }

  lemma ScheduleKeepsQueue(q: Queue, deadline: U64, value: Value, bytes: U64)
    requires QueueOk(q)
    ensures QueueOk(AfterSchedule(q, deadline, value, bytes))
  {
    hide Bytes, Inserted, Sorted;
    var token := ScheduleOutcome(q, deadline, value, bytes, Bytes(q.order));
    if token.Ok? {
      var timer := Timer(token.value, value, bytes);
      InsertKeepsSorted(q.order, timer);
      InsertAccounts(q.order, timer);
    }
  }

  lemma CancelKeepsQueue(q: Queue, token: TimerToken)
    requires QueueOk(q)
    ensures QueueOk(AfterCancel(q, token))
  {
    var index := Position(q.order, token, 0);
    if index.Some? {
      WithoutKeepsSorted(q.order, index.value);
      BytesWithout(q.order, index.value);
      forall t | t in Without(q.order, index.value) ensures t in q.order {
        WithoutMembers(q.order, index.value, t);
      }
    }
  }

  lemma DrainKeepsQueue(q: Queue, now: U64, budget: nat)
    requires QueueOk(q)
    ensures QueueOk(AfterDrain(q, now, budget))
  {
    hide Bytes, DueCount;
    var k := Min(budget, DueCount(q.order, now));
    BytesSplit(q.order[..k], q.order[k..]);
    assert forall t :: t in q.order[k..] ==> t in q.order;
    assert q.order == q.order[..k] + q.order[k..];
  }

  lemma OpKeepsQueue(q: Queue, op: Op)
    requires QueueOk(q)
    ensures QueueOk(After(q, op))
  {
    hide QueueOk, AfterSchedule, AfterCancel, AfterDrain;
    match op
    case Schedule(deadline, value, bytes) => ScheduleKeepsQueue(q, deadline, value, bytes);
    case Cancel(token) => CancelKeepsQueue(q, token);
    case Drain(now, budget) => DrainKeepsQueue(q, now, budget);
  }

  lemma OpConserves(q: Queue, op: Op)
    ensures multiset(q.order) + multiset(Admits(q, op)) == multiset(After(q, op).order) + multiset(Releases(q, op))
  {
    hide Bytes, Inserted, DueCount, Slot, Position;
    match op
    case Schedule(deadline, value, bytes) =>
      var token := ScheduleOutcome(q, deadline, value, bytes, Bytes(q.order));
      if token.Ok? {
        InsertAccounts(q.order, Timer(token.value, value, bytes));
      }
    case Cancel(token) =>
      var index := Position(q.order, token, 0);
      if index.Some? {
        WithoutMultiset(q.order, index.value);
      }
    case Drain(now, budget) =>
      var k := Min(budget, DueCount(q.order, now));
      assert q.order == q.order[..k] + q.order[k..];
  }

  lemma OpIssues(q: Queue, op: Op)
    ensures |Admits(q, op)| <= 1
    ensures Admits(q, op) == [] ==> After(q, op).nextId == q.nextId
    ensures |Admits(q, op)| == 1 ==>
              var id := Admits(q, op)[0].token.id;
              q.nextId == Some(id) && After(q, op).nextId == NextId(id)
  {
  }

  ghost predicate IncreasingIds(timers: seq<Timer>) {
    forall i, j :: 0 <= i < j < |timers| ==> timers[i].token.id < timers[j].token.id
  }

  ghost predicate AllBelow(timers: seq<Timer>, next: Option<U64>) {
    forall i :: 0 <= i < |timers| ==> IdBelow(timers[i].token.id, next)
  }

  /**
   * Over any run, identities are issued in increasing order and never reused, and every admitted
   * timer is exactly once either still pending or given back, with its bytes accounted.
   */
  lemma {:induction false} RunConserves(q: Queue, ops: seq<Op>)
    requires QueueOk(q) && q.order == []
    ensures QueueOk(Run(q, ops))
    ensures multiset(Admitted(q, ops)) == multiset(Run(q, ops).order) + multiset(Released(q, ops))
    ensures IncreasingIds(Admitted(q, ops)) && AllBelow(Admitted(q, ops), Run(q, ops).nextId)
    decreases |ops|
  {
    hide QueueOk, After, Admits, Releases;
    if ops != [] {
      var before := ops[..|ops| - 1];
      var q' := Run(q, before);
      RunConserves(q, before);
      OpKeepsQueue(q', ops[|ops| - 1]);
      OpConserves(q', ops[|ops| - 1]);
      OpIssues(q', ops[|ops| - 1]);
      ConservesBoth(Admitted(q, before), q'.order, Released(q, before), Admits(q', ops[|ops| - 1]), Run(q, ops).order, Releases(q', ops[|ops| - 1]));
      IssuesBoth(Admitted(q, before), Admits(q', ops[|ops| - 1]), q'.nextId, Run(q, ops).nextId);
    }
  }

  lemma ConservesBoth(admitted: seq<Timer>, order: seq<Timer>, released: seq<Timer>, admits: seq<Timer>, order': seq<Timer>, releases: seq<Timer>)
    requires multiset(admitted) == multiset(order) + multiset(released)
    requires multiset(order) + multiset(admits) == multiset(order') + multiset(releases)
    ensures multiset(admitted + admits) == multiset(order') + multiset(released + releases)
  {
    assert multiset(admitted + admits) == multiset(admitted) + multiset(admits);
    assert multiset(released + releases) == multiset(released) + multiset(releases);
    assert multiset(admitted) + multiset(admits) == (multiset(order) + multiset(admits)) + multiset(released);
  }

  lemma IssuesBoth(admitted: seq<Timer>, admits: seq<Timer>, next: Option<U64>, next': Option<U64>)
    requires IncreasingIds(admitted) && AllBelow(admitted, next)
    requires |admits| <= 1
    requires admits == [] ==> next' == next
    requires |admits| == 1 ==> next == Some(admits[0].token.id) && next' == NextId(admits[0].token.id)
    ensures IncreasingIds(admitted + admits) && AllBelow(admitted + admits, next')
  {
  }

  // ----- What a schedule answers -----

  /**
   * Scheduling succeeds exactly within count, bytes and identities. The token then carries the next
   * identity and the requested deadline, exactly that timer joins the queue, and the next identity is one
   * more or exhausted. A refusal names exactly its own cause and gives deadline and value back.
   */
  lemma ScheduleIsExact(q: Queue, deadline: U64, value: Value, bytes: U64)
    requires QueueOk(q)
    ensures var outcome := ScheduleOutcome(q, deadline, value, bytes, Bytes(q.order));
            var q' := AfterSchedule(q, deadline, value, bytes);
            var held := Bytes(q.order);
            && (outcome.Ok? <==> |q.order| < q.limits.timers && held + bytes <= q.limits.bytes && q.nextId.Some?)
            && (outcome.Ok? ==>
                  && outcome.value == TimerToken(q.owner, q.nextId.value, deadline)
                  && (forall t :: t in q'.order <==> t in q.order || t == Timer(outcome.value, value, bytes))
                  && multiset(q'.order) == multiset(q.order) + multiset{Timer(outcome.value, value, bytes)}
                  && q'.nextId == (if q.nextId.value < U64_MAX then Some(q.nextId.value + 1) else None)
                  && q' == q.(order := q'.order, nextId := q'.nextId))
            && (outcome.Err? ==> q' == q && outcome.error.deadline == deadline && outcome.error.value == value)
            && (outcome.Err? && outcome.error.failure.TimerCapacity? <==> |q.order| >= q.limits.timers)
            && (outcome.Err? && outcome.error.failure.RetainedByteOverflow? <==>
                  |q.order| < q.limits.timers && held + bytes > U64_MAX)
            && (outcome.Err? && outcome.error.failure.RetainedByteCapacity? <==>
                  |q.order| < q.limits.timers && q.limits.bytes < held + bytes <= U64_MAX)
            && (outcome.Err? && outcome.error.failure.TimerIdsExhausted? <==>
                  |q.order| < q.limits.timers && held + bytes <= q.limits.bytes && q.nextId.None?)
  {
    hide Bytes, Inserted, Sorted, OwnTimers;
    var outcome := ScheduleOutcome(q, deadline, value, bytes, Bytes(q.order));
    if outcome.Ok? {
      InsertAccounts(q.order, Timer(outcome.value, value, bytes));
    }
  }

  /** One of the operations scheduled this timer: with its deadline, value and bytes. */
  ghost predicate WasScheduled(ops: seq<Op>, t: Timer) {
    exists i :: 0 <= i < |ops| && ops[i] == Schedule(t.token.deadline, t.value, t.bytes)
  }

  /** Every pending timer waits for the deadline its own schedule operation asked for. */
  lemma {:induction false} PendingWereScheduled(q: Queue, ops: seq<Op>, t: Timer)
    requires QueueOk(q) && q.order == [] && t in Run(q, ops).order
    ensures WasScheduled(ops, t)
    decreases |ops|
  {
    hide QueueOk, AfterCancel, AfterDrain, AfterSchedule;
    var before := ops[..|ops| - 1];
    var op := ops[|ops| - 1];
    RunConserves(q, before);
    OpAddsOnlyScheduled(Run(q, before), op, t);
    if t in Run(q, before).order {
      PendingWereScheduled(q, before, t);
      var i :| 0 <= i < |before| && before[i] == Schedule(t.token.deadline, t.value, t.bytes);
      assert ops[i] == before[i];
    } else {
      assert ops[|ops| - 1] == Schedule(t.token.deadline, t.value, t.bytes);
    }
  }

  lemma OpAddsOnlyScheduled(q: Queue, op: Op, t: Timer)
    requires QueueOk(q) && t in After(q, op).order
    ensures t in q.order || op == Schedule(t.token.deadline, t.value, t.bytes)
  {
    hide Inserted, Bytes;
    match op
    case Schedule(deadline, value, bytes) => ScheduleIsExact(q, deadline, value, bytes);
    case Cancel(token) => CancelIsExact(q, token, t);
    case Drain(_, _) =>
  }

  /** Over any run a drain releases only timers whose own schedule operation asked for a deadline no later than now. */
  lemma DrainReleasesDue(q: Queue, ops: seq<Op>, now: U64, budget: nat, t: Timer)
    requires QueueOk(q) && q.order == [] && t in Releases(Run(q, ops), Drain(now, budget))
    ensures exists i, deadline: U64 :: 0 <= i < |ops| && ops[i] == Schedule(deadline, t.value, t.bytes) && deadline <= now
  {
    RunConserves(q, ops);
    DrainFiresInOrder(Run(q, ops), now, budget);
    assert t in Run(q, ops).order;
    PendingWereScheduled(q, ops, t);
    var i :| 0 <= i < |ops| && ops[i] == Schedule(t.token.deadline, t.value, t.bytes);
    assert ops[i] == Schedule(t.token.deadline, t.value, t.bytes) && t.token.deadline <= now;
  }

  // ----- The queue itself -----

  class TimerQueue {
    const owner: U64
    const limits: Limits
    const measure: Value -> U64
    var timers: seq<Timer>
    var nextId: Option<U64>
    var retained: U64
    ghost var order: seq<Timer>

    ghost predicate Valid()
      reads this
    {
      && multiset(timers) == multiset(order) && |timers| == |order|
      && retained == Bytes(order)
      && QueueOk(State())
    }

    ghost function State(): Queue
      reads this
    {
      Queue(owner, limits, order, nextId)
    }

    constructor StartingAt(owner: U64, limits: Limits, firstId: U64, measure: Value -> U64)
      ensures Valid()
      ensures State() == Queue(owner, limits, [], Some(firstId))
      ensures this.measure == measure
    {
      this.owner, this.limits, this.measure := owner, limits, measure;
      timers, nextId, retained, order := [], Some(firstId), 0, [];
    }

    method Schedule(deadline: U64, value: Value) returns (r: Result<TimerToken, ScheduleError>)
      requires Valid()
      modifies this
      ensures Valid()
      ensures r == ScheduleOutcome(old(State()), deadline, value, measure(value), Bytes(old(order)))
      ensures State() == AfterSchedule(old(State()), deadline, value, measure(value))
      ensures r.Ok? ==> old(nextId).Some? && r.value == TimerToken(owner, old(nextId).value, deadline)
      ensures r.Ok? ==> multiset(timers) == old(multiset(timers)) + multiset{Timer(r.value, value, measure(value))}
    {
      hide QueueOk, Bytes, Inserted;
      if |timers| >= limits.timers {
        return Err(ScheduleError(deadline, value, TimerCapacity));
      }
      var bytes := measure(value);
      var total := CheckedAdd(retained, bytes);
      if total.None? {
        return Err(ScheduleError(deadline, value, RetainedByteOverflow));
      }
      if total.value > limits.bytes {
        return Err(ScheduleError(deadline, value, RetainedByteCapacity));
      }
      if nextId.None? {
        return Err(ScheduleError(deadline, value, TimerIdsExhausted));
      }
      var token := TimerToken(owner, nextId.value, deadline);
      ScheduleKeepsQueue(State(), deadline, value, bytes);
      InsertAccounts(order, Timer(token, value, bytes));
      nextId := NextId(token.id);
      timers := timers + [Timer(token, value, bytes)];
      order := Inserted(order, Timer(token, value, bytes));
      retained := total.value;
      return Ok(token);
    }

    method Cancel(token: TimerToken) returns (timer: Option<Timer>)
      requires Valid()
      modifies this
      ensures Valid()
      ensures State() == AfterCancel(old(State()), token)
      ensures timer.None? ==> forall t :: t in old(order) ==> t.token != token
      ensures timer.Some? ==> timer.value in old(order) && timer.value.token == token
    {
      hide QueueOk, Bytes, Sorted, Position, SwapRemoved, Without;
      CancelAccounts(State(), timers, token);
      CancelKeepsQueue(State(), token);
      if token.owner != owner {
        return None;
      }
      var index := Position(timers, token, 0);
      if index.None? {
        return None;
      }
      var cancelled := timers[index.value];
      order := AfterCancel(State(), token).order;
      timers := SwapRemoved(timers, index.value);
      retained := retained - cancelled.bytes;
      return Some(cancelled);
    }

    /** The earliest deadline, without changing ownership. */
    method NextDeadline() returns (deadline: Option<U64>)
      requires Valid()
      ensures deadline == if order == [] then None else Some(order[0].token.deadline)
    {
      if timers == [] {
        return None;
      }
      TopIsFirst(timers, order);
      return Some(timers[Top(timers)].token.deadline);
    }

    method PopDue(now: U64) returns (timer: Option<Timer>)
      requires Valid()
      modifies this
      ensures Valid()
      ensures State() == AfterDrain(old(State()), now, 1)
      ensures timer == if DueCount(old(order), now) > 0 then Some(old(order)[0]) else None
    {
      hide QueueOk, Bytes, Top, Without, DueCount, AfterDrain;
      var deadline := NextDeadline();
      PopAccounts(State(), timers, now);
      if deadline.None? || deadline.value > now {
        return None;
      }
      var top := Top(timers);
      var popped := timers[top];
      DrainKeepsQueue(State(), now, 1);
      order := AfterDrain(State(), now, 1).order;
      timers := Without(timers, top);
      retained := retained - popped.bytes;
      return Some(popped);
    }

    method DrainDueInto(now: U64, destination: seq<Timer>, budget: nat) returns (drained: seq<Timer>, fired: nat, moreDue: bool)
      requires Valid()
      modifies this
      ensures Valid()
      ensures drained == destination + Fired(old(State()), now, budget)
      ensures State() == AfterDrain(old(State()), now, budget)
      ensures fired == |Fired(old(State()), now, budget)|
      ensures moreDue == MoreDue(old(State()), now, budget)
    {
      hide QueueOk, Bytes, DueCount, Fired, AfterDrain, MoreDue;
      NothingFired(State(), now);
      drained, fired := destination, 0;
      while fired < budget
        invariant Valid() && fired <= budget
        invariant fired <= DueCount(old(order), now)
        invariant State() == AfterDrain(old(State()), now, fired)
        invariant drained == destination + Fired(old(State()), now, fired)
      {
        FiresOneMore(old(State()), now, fired);
        var timer := PopDue(now);
        if timer.None? {
          break;
        }
        drained := drained + [timer.value];
        fired := fired + 1;
      }
      FiredAll(old(State()), now, fired, budget);
      var deadline := NextDeadline();
      moreDue := deadline.Some? && deadline.value <= now;
    }
  }

  lemma NothingFired(q: Queue, now: U64)
    ensures AfterDrain(q, now, 0) == q && Fired(q, now, 0) == []
  {
  }

  /** One more pop after `fired` of them. */
  lemma FiresOneMore(q: Queue, now: U64, fired: nat)
    requires fired <= DueCount(q.order, now)
    ensures var middle := AfterDrain(q, now, fired);
            && AfterDrain(middle, now, 1) == AfterDrain(q, now, fired + 1)
            && DueCount(middle.order, now) == DueCount(q.order, now) - fired
            && (DueCount(middle.order, now) == 0 ==> AfterDrain(middle, now, 1) == middle)
            && (DueCount(middle.order, now) > 0 ==> Fired(q, now, fired + 1) == Fired(q, now, fired) + [middle.order[0]])
  {
    DrainBudgetsAdd(q, now, fired, 1);
    DueCountAfter(q.order, now, fired);
  }

  /** Where the pops stop. */
  lemma FiredAll(q: Queue, now: U64, fired: nat, budget: nat)
    requires fired <= DueCount(q.order, now) && fired <= budget
    requires fired < budget ==> fired == DueCount(q.order, now)
    ensures Fired(q, now, budget) == Fired(q, now, fired) && |Fired(q, now, budget)| == fired
    ensures AfterDrain(q, now, budget) == AfterDrain(q, now, fired)
    ensures var left := AfterDrain(q, now, fired).order;
            MoreDue(q, now, budget) <==> left != [] && left[0].token.deadline <= now
  {
    DueCountAfter(q.order, now, fired);
  }

  /** Cancelling by position in the heap vector is cancelling in firing order, with its bytes. */
  lemma CancelAccounts(q: Queue, timers: seq<Timer>, token: TimerToken)
    requires QueueOk(q) && multiset(timers) == multiset(q.order) && |timers| == |q.order|
    ensures var index := Position(timers, token, 0);
            var after := AfterCancel(q, token);
            && (token.owner != q.owner ==> index.None?)
            && (index.None? ==> after == q && forall t :: t in q.order ==> t.token != token)
            && (index.Some? ==>
                  && var t := timers[index.value];
                  && t in q.order && t.token == token
                  && multiset(SwapRemoved(timers, index.value)) == multiset(after.order)
                  && |SwapRemoved(timers, index.value)| == |after.order|
                  && Bytes(q.order) == t.bytes + Bytes(after.order))
  {
    hide Bytes, Sorted;
    SameMembers(timers, q.order);
    PositionsAgree(timers, q.order, token);
    var index := Position(timers, token, 0);
    if index.Some? {
      var place := Position(q.order, token, 0).value;
      SwapRemovedMultiset(timers, index.value);
      WithoutMultiset(q.order, place);
      BytesWithout(q.order, place);
    }
  }

  lemma SameMembers(timers: seq<Timer>, order: seq<Timer>)
    requires multiset(timers) == multiset(order)
    ensures forall t :: t in timers <==> t in order
  {
    forall t ensures t in timers <==> t in order {
      assert t in timers <==> t in multiset(timers);
      assert t in order <==> t in multiset(order);
    }
  }

  /** In firing order a token occurs once. */
  lemma SameTimer(order: seq<Timer>, i: nat, j: nat)
    requires Sorted(order) && i < |order| && j < |order| && order[i].token == order[j].token
    ensures i == j
  {
  }

  /** Looking a token up in the heap vector finds the same timer as in firing order. */
  lemma PositionsAgree(timers: seq<Timer>, order: seq<Timer>, token: TimerToken)
    requires multiset(timers) == multiset(order) && Sorted(order)
    ensures var index := Position(timers, token, 0);
            var place := Position(order, token, 0);
            && (index.Some? <==> place.Some?)
            && (index.Some? ==> timers[index.value] == order[place.value])
            && (index.None? ==> forall t :: t in order ==> t.token != token)
  {
    SameMembers(timers, order);
    var index := Position(timers, token, 0);
    var place := Position(order, token, 0);
    if index.Some? {
      assert timers[index.value] in order;
      var i :| 0 <= i < |order| && order[i] == timers[index.value];
      SameTimer(order, i, place.value);
    } else {
      forall t | t in order ensures t.token != token {
        assert t in timers;
      }
    }
  }

  /** Popping the greatest heap entry is taking the first timer in firing order, when it is due. */
  lemma PopAccounts(q: Queue, timers: seq<Timer>, now: U64)
    requires QueueOk(q) && multiset(timers) == multiset(q.order) && |timers| == |q.order|
    ensures var after := AfterDrain(q, now, 1);
            if timers == [] || q.order[0].token.deadline > now then DueCount(q.order, now) == 0 && after == q
            else
              && DueCount(q.order, now) > 0 && timers[Top(timers)] == q.order[0]
              && multiset(Without(timers, Top(timers))) == multiset(after.order)
              && |Without(timers, Top(timers))| == |after.order|
              && Bytes(q.order) == q.order[0].bytes + Bytes(after.order)
              && after == q.(order := after.order)
  {
    hide Bytes, Top;
    if timers != [] && q.order[0].token.deadline <= now {
      TopIsFirst(timers, q.order);
      WithoutMultiset(timers, Top(timers));
      WithoutMultiset(q.order, 0);
      BytesWithout(q.order, 0);
      assert Without(q.order, 0) == q.order[1..];
      assert Min(1, DueCount(q.order, now)) == 1;
    }
  }

  lemma FirstComesFirst(order: seq<Timer>, j: nat)
    requires Sorted(order) && j < |order|
    ensures j == 0 || Before(order[0].token, order[j].token)
  {
  }

  /** The greatest heap entry is the first timer in firing order. */
  lemma TopIsFirst(timers: seq<Timer>, order: seq<Timer>)
    requires timers != [] && multiset(timers) == multiset(order) && Sorted(order)
    ensures order != [] && timers[Top(timers)] == order[0]
  {
    SameMembers(timers, order);
    var top := timers[Top(timers)];
    assert top in order;
    assert order[0] in timers;
    var i :| 0 <= i < |timers| && timers[i] == order[0];
    var j :| 0 <= j < |order| && order[j] == top;
    HeapOrderIsFiringOrder(order[0].token, top.token);
    FirstComesFirst(order, j);
  }
}
