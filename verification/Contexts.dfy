/** The transactional context of one action callback: staged sends and cancels, and their rollback. */
module Contexts {
  import opened Base
  import opened Consumer
  import opened Timelines

  datatype ContextLimits = ContextLimits(
    effects: nat, effectBytes: U64, observations: nat, observationBytes: U64, maxTime: Moment,
    measureObservation: Observation -> U64)

  datatype SendFailure =
    | EffectCapacity(limit: nat)
    | UnknownTarget(target: DutyId)
    | TargetStopped(target: DutyId)
    | TimeOverflow(current: Moment, delay: U64)
    | BeyondTimeLimit(requested: Moment, ceiling: Moment)
    | EffectByteOverflow(held: U64, event: U64)
    | EffectByteCapacity(bytes: U64, held: U64, event: U64)
    | TimelineRejected(failure: ScheduleFailure)

  datatype CancelFailure =
    | CancelEffectCapacity(limit: nat)
    | ForeignTimeline(expected: U64, actual: U64)
    | NotPending(token: EventToken)
    | CancelByteOverflow(held: U64, event: U64)
    | CancelByteCapacity(bytes: U64, held: U64, event: U64)

  datatype ObservationFailure =
    | ObservationCapacity(limit: nat)
    | ObservationByteOverflow(held: U64, observation: U64)
    | ObservationByteCapacity(bytes: U64, held: U64, observation: U64)

  datatype ContextState = ContextState(
    timeline: TimelineState,
    topology: seq<DutyId>,
    stopped: set<DutyId>,
    action: ActionId,
    limits: ContextLimits,
    effects: nat,
    effectBytes: U64,
    observations: seq<Observation>,
    observationBytes: U64,
    inserted: map<EventToken, U64>,
    removed: seq<(EventToken, Routed)>)

  function Begin(t: TimelineState, topology: seq<DutyId>, stopped: set<DutyId>, action: ActionId, limits: ContextLimits): ContextState {
    ContextState(t, topology, stopped, action, limits, 0, 0, [], 0, map[], [])
  }

  function SendAt(c: ContextState, target: DutyId, at: Moment, event: Event): (r: (ContextState, Result<EventToken, SendFailure>))
  {
    if c.effects >= c.limits.effects then (c, Err(EffectCapacity(c.limits.effects)))
    else if target !in c.topology then (c, Err(UnknownTarget(target)))
    else if target in c.stopped then (c, Err(TargetStopped(target)))
    else if at > c.limits.maxTime then (c, Err(BeyondTimeLimit(at, c.limits.maxTime)))
    else
      var bytes := c.timeline.measure(event);
      var next := CheckedAdd(c.effectBytes, bytes);
      if next.None? then (c, Err(EffectByteOverflow(c.effectBytes, bytes)))
      else if next.value > c.limits.effectBytes then (c, Err(EffectByteCapacity(c.limits.effectBytes, c.effectBytes, bytes)))
      else
        var (t, r) := ScheduleAt(c.timeline, at, Routed(target, Some(c.action), event));
        match r
        case Err(failure) => (c, Err(TimelineRejected(failure)))
        case Ok(token) =>
          (c.(timeline := t, effects := c.effects + 1, effectBytes := next.value, inserted := c.inserted[token := bytes]), Ok(token))
  }

  function SendAfter(c: ContextState, target: DutyId, delay: U64, event: Event): (r: (ContextState, Result<EventToken, SendFailure>))
  {
    if c.timeline.now + delay > U64_MAX then (c, Err(TimeOverflow(c.timeline.now, delay)))
    else SendAt(c, target, c.timeline.now + delay, event)
  }

  /** Both byte subtractions of a cancellation stay non-negative. */
  predicate CanCancel(c: ContextState, token: EventToken) {
    Lookup(c.timeline, token).Some? ==>
      && c.timeline.events[KeyOf(token)].retained <= c.timeline.retained
      && (token in c.inserted ==> c.timeline.events[KeyOf(token)].retained <= c.effectBytes)
  }

  function CancelEvent(c: ContextState, token: EventToken): (r: (ContextState, Result<(), CancelFailure>))
    requires CanCancel(c, token)
  {
    if c.effects >= c.limits.effects then (c, Err(CancelEffectCapacity(c.limits.effects)))
    else if token.timeline != c.timeline.id then (c, Err(ForeignTimeline(c.timeline.id, token.timeline)))
    else
      match Lookup(c.timeline, token)
      case None => (c, Err(NotPending(token)))
      case Some(entry) =>
        var (t, removed) := Cancel(c.timeline, token);
        if token in c.inserted then
          (c.(timeline := t, effects := c.effects + 1, effectBytes := c.effectBytes - entry.retained,
              inserted := c.inserted - {token}), Ok(()))
        else
          var next := CheckedAdd(c.effectBytes, entry.retained);
          if next.None? then (c, Err(CancelByteOverflow(c.effectBytes, entry.retained)))
          else if next.value > c.limits.effectBytes then
            (c, Err(CancelByteCapacity(c.limits.effectBytes, c.effectBytes, entry.retained)))
          else
            (c.(timeline := t, effects := c.effects + 1, effectBytes := next.value,
                removed := c.removed + [(token, removed.value)]), Ok(()))
  }

  function Observe(c: ContextState, observation: Observation): (r: (ContextState, Result<(), ObservationFailure>))
  {
    if |c.observations| >= c.limits.observations then (c, Err(ObservationCapacity(c.limits.observations)))
    else
      var bytes := c.limits.measureObservation(observation);
      var next := CheckedAdd(c.observationBytes, bytes);
      if next.None? then (c, Err(ObservationByteOverflow(c.observationBytes, bytes)))
      else if next.value > c.limits.observationBytes then
        (c, Err(ObservationByteCapacity(c.limits.observationBytes, c.observationBytes, bytes)))
      else (c.(observations := c.observations + [observation], observationBytes := next.value), Ok(()))
  }

  /** Number of pending deliveries targeting one duty. */
  function PendingFor(t: TimelineState, duty: DutyId): (n: nat) {
    |set k | k in t.events && t.events[k].routed.target == duty|
  }

  // ----- What a context has staged over the timeline it was opened on -----

  function InsertedBytes(bytes: U64): nat {
    bytes
  }

  /** `events` is `base` with exactly the staged insertions added and the staged removals taken out. */
  ghost predicate Layered(
      id: U64, base: map<EventKey, Entry>, events: map<EventKey, Entry>,
      inserted: map<EventToken, U64>, removed: seq<(EventToken, Routed)>)
  {
    && LayeredInsertions(id, base, events, inserted)
    && LayeredRemovals(id, base, events, removed)
    && (forall k :: k in events && k !in base ==> EventToken(id, k.id, k.at) in inserted)
    && (forall k :: k in events && k in base ==> events[k] == base[k])
    && (forall k :: k in base && k !in events ==> RemovedKey(removed, k))
  }

  ghost predicate LayeredInsertions(
      id: U64, base: map<EventKey, Entry>, events: map<EventKey, Entry>, inserted: map<EventToken, U64>)
  {
    forall token :: token in inserted ==>
                      && token.timeline == id
                      && KeyOf(token) in events && KeyOf(token) !in base
                      && inserted[token] == events[KeyOf(token)].retained
  }

  ghost predicate LayeredRemovals(
      id: U64, base: map<EventKey, Entry>, events: map<EventKey, Entry>, removed: seq<(EventToken, Routed)>)
  {
    && (forall i :: 0 <= i < |removed| ==>
                      && removed[i].0.timeline == id
                      && KeyOf(removed[i].0) in base && KeyOf(removed[i].0) !in events
                      && base[KeyOf(removed[i].0)].routed == removed[i].1)
    && (forall i, j :: 0 <= i < j < |removed| ==> KeyOf(removed[i].0) != KeyOf(removed[j].0))
  }

  ghost predicate RemovedKey(removed: seq<(EventToken, Routed)>, key: EventKey) {
    exists i :: 0 <= i < |removed| && KeyOf(removed[i].0) == key
  }

  lemma LayeredInsert(
      id: U64, base: map<EventKey, Entry>, events: map<EventKey, Entry>,
      inserted: map<EventToken, U64>, removed: seq<(EventToken, Routed)>, token: EventToken, entry: Entry)
    requires Layered(id, base, events, inserted, removed)
    requires token.timeline == id && KeyOf(token) !in events && KeyOf(token) !in base
    ensures Layered(id, base, events[KeyOf(token) := entry], inserted[token := entry.retained], removed)
  {
  }

  lemma LayeredUninsert(
      id: U64, base: map<EventKey, Entry>, events: map<EventKey, Entry>,
      inserted: map<EventToken, U64>, removed: seq<(EventToken, Routed)>, token: EventToken)
    requires Layered(id, base, events, inserted, removed)
    requires token in inserted
    ensures Layered(id, base, events - {KeyOf(token)}, inserted - {token}, removed)
  {
  }

  lemma LayeredRemove(
      id: U64, base: map<EventKey, Entry>, events: map<EventKey, Entry>,
      inserted: map<EventToken, U64>, removed: seq<(EventToken, Routed)>, token: EventToken)
    requires Layered(id, base, events, inserted, removed)
    requires token.timeline == id && KeyOf(token) in events && token !in inserted
    ensures Layered(id, base, events - {KeyOf(token)}, inserted, removed + [(token, events[KeyOf(token)].routed)])
  {
    var key := KeyOf(token);
    var after := removed + [(token, events[key].routed)];
    assert EventToken(id, key.id, key.at) == token;
    forall k | k in base && k !in events - {key}
      ensures RemovedKey(after, k)
    {
      if k == key {
        assert KeyOf(after[|removed|].0) == k;
      } else {
        var i :| 0 <= i < |removed| && KeyOf(removed[i].0) == k;
        assert KeyOf(after[i].0) == k;
      }
    }
  }

  lemma LayeredRestore(
      id: U64, base: map<EventKey, Entry>, events: map<EventKey, Entry>, removed: seq<(EventToken, Routed)>)
    requires Layered(id, base, events, map[], removed) && removed != []
    ensures var key := KeyOf(removed[0].0); Layered(id, base, events[key := base[key]], map[], removed[1..])
  {
    var key := KeyOf(removed[0].0);
    forall k | k in base && k !in events[key := base[key]]
      ensures RemovedKey(removed[1..], k)
    {
      var i :| 0 <= i < |removed| && KeyOf(removed[i].0) == k;
      assert KeyOf(removed[1..][i - 1].0) == k;
    }
  }

  /** The staged state of a context opened on `origin`. */
  ghost predicate Staged(origin: TimelineState, c: ContextState) {
    && Valid(origin) && Valid(c.timeline) && SameFrame(origin, c.timeline)
    && IdAdvances(origin.nextId, c.timeline.nextId)
    && Layered(origin.id, origin.events, c.timeline.events, c.inserted, c.removed)
    && Total(c.inserted, InsertedBytes) <= c.effectBytes
  }

  lemma BeginStaged(t: TimelineState, topology: seq<DutyId>, stopped: set<DutyId>, action: ActionId, limits: ContextLimits)
    requires Valid(t)
    ensures Staged(t, Begin(t, topology, stopped, action, limits))
  {
  }

  /** A send that succeeds schedules for a live target within the ceiling; one that fails changes nothing. */
  lemma SendAtEffect(c: ContextState, target: DutyId, at: Moment, event: Event)
    requires Valid(c.timeline)
    ensures var (c', r) := SendAt(c, target, at, event);
            var (t, scheduled) := ScheduleAt(c.timeline, at, Routed(target, Some(c.action), event));
            && (r.Ok? <==>
                  && c.effects < c.limits.effects && target in c.topology && target !in c.stopped && at <= c.limits.maxTime
                  && c.effectBytes + c.timeline.measure(event) <= c.limits.effectBytes && scheduled.Ok?)
            && (r.Err? ==> c' == c)
            && (r.Ok? ==>
                  && target in c.topology && target !in c.stopped && at <= c.limits.maxTime
                  && scheduled == Ok(r.value)
                  && c' == c.(timeline := t, effects := c.effects + 1,
                              effectBytes := c.effectBytes + c.timeline.measure(event),
                              inserted := c.inserted[r.value := c.timeline.measure(event)]))
  {
  }

  /** The room an action has left for one more effect. */
  predicate EffectRoom(c: ContextState) {
    c.effects < c.limits.effects
  }

  /** The cause of each refused send, the first in the context's order of checks. */
  ghost predicate SendRefusedBecause(c: ContextState, target: DutyId, at: Moment, event: Event, failure: SendFailure) {
    var bytes := c.timeline.measure(event);
    var reachable := EffectRoom(c) && target in c.topology && target !in c.stopped && at <= c.limits.maxTime;
    match failure
    case EffectCapacity(limit) => !EffectRoom(c) && limit == c.limits.effects
    case UnknownTarget(duty) => EffectRoom(c) && duty == target && target !in c.topology
    case TargetStopped(duty) => EffectRoom(c) && duty == target && target in c.topology && target in c.stopped
    case TimeOverflow(_, _) => false
    case BeyondTimeLimit(requested, ceiling) =>
      && EffectRoom(c) && target in c.topology && target !in c.stopped
      && requested == at && ceiling == c.limits.maxTime && at > ceiling
    case EffectByteOverflow(held, weight) =>
      reachable && held == c.effectBytes && weight == bytes && held + weight > U64_MAX
    case EffectByteCapacity(capacity, held, weight) =>
      && reachable && held == c.effectBytes && weight == bytes && capacity == c.limits.effectBytes
      && capacity < held + weight <= U64_MAX
    case TimelineRejected(failure) =>
      && reachable && c.effectBytes + bytes <= c.limits.effectBytes
      && RefusedBecause(c.timeline, at, bytes, failure)
  }

  /** A refused send names exactly what it violates. */
  lemma SendRefusalIsTrue(c: ContextState, target: DutyId, at: Moment, event: Event, failure: SendFailure)
    requires Valid(c.timeline)
    ensures SendAt(c, target, at, event).1 == Err(failure) <==> SendRefusedBecause(c, target, at, event, failure)
  {
    hide Valid, ScheduleAt, RefusedBecause;
    var routed := Routed(target, Some(c.action), event);
    forall reason: ScheduleFailure
      ensures ScheduleAt(c.timeline, at, routed).1 == Err(reason) <==>
                RefusedBecause(c.timeline, at, c.timeline.measure(event), reason)
    {
      ScheduleRefusalIsTrue(c.timeline, at, routed, reason);
    }
  }

  /** A relative send overflows exactly beyond the last moment, and is otherwise the absolute one. */
  lemma SendAfterIsExact(c: ContextState, target: DutyId, delay: U64, event: Event)
    ensures var (c', r) := SendAfter(c, target, delay, event);
            if c.timeline.now + delay > U64_MAX then c' == c && r == Err(TimeOverflow(c.timeline.now, delay))
            else (c', r) == SendAt(c, target, c.timeline.now + delay, event)
  {
  }

  /** The cause of each refused cancellation, the first in the context's order of checks. */
  ghost predicate CancelRefusedBecause(c: ContextState, token: EventToken, failure: CancelFailure) {
    var found := EffectRoom(c) && token.timeline == c.timeline.id && KeyOf(token) in c.timeline.events;
    match failure
    case CancelEffectCapacity(limit) => !EffectRoom(c) && limit == c.limits.effects
    case ForeignTimeline(expected, actual) =>
      EffectRoom(c) && expected == c.timeline.id && actual == token.timeline && actual != expected
    case NotPending(missing) =>
      EffectRoom(c) && missing == token && token.timeline == c.timeline.id && KeyOf(token) !in c.timeline.events
    case CancelByteOverflow(held, weight) =>
      && found && token !in c.inserted && held == c.effectBytes
      && weight == c.timeline.events[KeyOf(token)].retained && held + weight > U64_MAX
    case CancelByteCapacity(capacity, held, weight) =>
      && found && token !in c.inserted && held == c.effectBytes
      && weight == c.timeline.events[KeyOf(token)].retained && capacity == c.limits.effectBytes
      && capacity < held + weight <= U64_MAX
  }

  /** A refused cancellation names exactly what it violates. */
  lemma CancelRefusalIsTrue(c: ContextState, token: EventToken, failure: CancelFailure)
    requires CanCancel(c, token)
    ensures CancelEvent(c, token).1 == Err(failure) <==> CancelRefusedBecause(c, token, failure)
  {
  }

  /** An observation is kept, after the earlier ones, exactly while count and bytes allow; a refusal names which did not. */
  lemma ObserveEffect(c: ContextState, observation: Observation)
    ensures var (c', r) := Observe(c, observation);
            var bytes := c.limits.measureObservation(observation);
            && (r.Ok? <==> |c.observations| < c.limits.observations && c.observationBytes + bytes <= c.limits.observationBytes)
            && (r.Ok? ==> c' == c.(observations := c.observations + [observation], observationBytes := c.observationBytes + bytes))
            && (r.Err? ==> c' == c)
            && (r == Err(ObservationCapacity(c.limits.observations)) <==> |c.observations| >= c.limits.observations)
            && (r == Err(ObservationByteOverflow(c.observationBytes, bytes)) <==>
                  |c.observations| < c.limits.observations && c.observationBytes + bytes > U64_MAX)
            && (r == Err(ObservationByteCapacity(c.limits.observationBytes, c.observationBytes, bytes)) <==>
                  && |c.observations| < c.limits.observations
                  && c.limits.observationBytes < c.observationBytes + bytes <= U64_MAX)
  {
  }

  lemma SendAtStaged(origin: TimelineState, c: ContextState, target: DutyId, at: Moment, event: Event)
    requires Staged(origin, c)
    ensures Staged(origin, SendAt(c, target, at, event).0)
  {
    SendAtEffect(c, target, at, event);
    var (c', r) := SendAt(c, target, at, event);
    if r.Ok? {
      var routed := Routed(target, Some(c.action), event);
      var bytes := c.timeline.measure(event);
      ScheduleAtEffect(c.timeline, at, routed);
      var token := r.value;
      assert token !in c.inserted;
      TotalInsert(c.inserted, InsertedBytes, token, bytes);
      assert forall k :: k in origin.events ==> IdBelow(k.id, origin.nextId);
      LayeredInsert(origin.id, origin.events, c.timeline.events, c.inserted, c.removed, token, Entry(routed, bytes));
    }
  }

  lemma SendAfterIsSendAt(c: ContextState, target: DutyId, delay: U64, event: Event, at: Moment)
    requires c.timeline.now + delay == at
    ensures SendAfter(c, target, delay, event) == SendAt(c, target, at, event)
  {
  }

  lemma SendAfterStaged(origin: TimelineState, c: ContextState, target: DutyId, delay: U64, event: Event, at: Moment)
    requires Staged(origin, c) && c.timeline.now + delay == at
    ensures Staged(origin, SendAfter(c, target, delay, event).0)
  {
    SendAfterIsSendAt(c, target, delay, event, at);
    SendAtStaged(origin, c, target, at, event);
  }

  /** No panic in a cancellation: the timeline and effect accounting both cover the event. */
  lemma CancelEventSafe(origin: TimelineState, c: ContextState, token: EventToken)
    requires Staged(origin, c)
    ensures CanCancel(c, token)
  {
    CancelEffect(c.timeline, token);
    if token in c.inserted {
      TotalRemove(c.inserted, InsertedBytes, token);
    }
  }

  /** A cancellation that succeeds takes out exactly the named event and stages how to undo that. */
  lemma CancelEventEffect(c: ContextState, token: EventToken)
    requires Valid(c.timeline) && CanCancel(c, token)
    ensures var (c', r) := CancelEvent(c, token);
            && (r.Ok? <==>
                  && c.effects < c.limits.effects && Lookup(c.timeline, token).Some?
                  && (token in c.inserted || c.effectBytes + c.timeline.events[KeyOf(token)].retained <= c.limits.effectBytes))
            && (r.Err? ==> c' == c)
            && (r.Ok? ==>
                  && Lookup(c.timeline, token).Some?
                  && c'.timeline == Cancel(c.timeline, token).0
                  && var entry := c.timeline.events[KeyOf(token)];
                  if token in c.inserted
                  then c' == c.(timeline := c'.timeline, effects := c.effects + 1,
                                effectBytes := c.effectBytes - entry.retained, inserted := c.inserted - {token})
                  else && c'.effectBytes == c.effectBytes + entry.retained
                       && c' == c.(timeline := c'.timeline, effects := c.effects + 1,
                                   effectBytes := c'.effectBytes, removed := c.removed + [(token, entry.routed)]))
  {
  }

  lemma CancelEventStaged(origin: TimelineState, c: ContextState, token: EventToken)
    requires Staged(origin, c) && CanCancel(c, token)
    ensures Staged(origin, CancelEvent(c, token).0)
  {
    CancelEventEffect(c, token);
    var (c', r) := CancelEvent(c, token);
    if r.Ok? {
      CancelEffect(c.timeline, token);
      if token in c.inserted {
        TotalRemove(c.inserted, InsertedBytes, token);
        LayeredUninsert(origin.id, origin.events, c.timeline.events, c.inserted, c.removed, token);
      } else {
        LayeredRemove(origin.id, origin.events, c.timeline.events, c.inserted, c.removed, token);
      }
    }
  }

  // ----- Rollback, operation by operation -----

  /** Cancels the staged insertions one by one; `None` is a panic. */
  ghost function CancelAll(t: TimelineState, tokens: seq<EventToken>): (r: Option<TimelineState>)
    decreases |tokens|
  {
    if tokens == [] then Some(t)
    else if Lookup(t, tokens[0]).None? || t.events[KeyOf(tokens[0])].retained > t.retained then None
    else CancelAll(Cancel(t, tokens[0]).0, tokens[1..])
  }

  /** Restores the staged removals in order; `None` is a panic. */
  ghost function RestoreAll(t: TimelineState, removed: seq<(EventToken, Routed)>): (r: Option<TimelineState>)
    decreases |removed|
  {
    if removed == [] then Some(t)
    else if !CanRestore(t, removed[0].0, removed[0].1) then None
    else RestoreAll(Restore(t, removed[0].0, removed[0].1), removed[1..])
  }

  /** Dropping an uncommitted context, visiting its insertions in the given order. */
  ghost function Rollback(c: ContextState, order: seq<EventToken>): (r: Option<TimelineState>) {
    match CancelAll(c.timeline, order)
    case None => None
    case Some(t) => RestoreAll(t, c.removed)
  }

  /** An enumeration of the staged insertions. */
  ghost predicate Enumerates(order: seq<EventToken>, tokens: set<EventToken>) {
    && (forall token :: token in order <==> token in tokens)
    && (forall i, j :: 0 <= i < j < |order| ==> order[i] != order[j])
  }

  lemma EnumeratesTail(order: seq<EventToken>, tokens: set<EventToken>)
    requires Enumerates(order, tokens) && order != []
    ensures order[0] in tokens && Enumerates(order[1..], tokens - {order[0]})
  {
    forall x ensures x in order[1..] <==> x in tokens - {order[0]} {
      if x in tokens - {order[0]} {
        var i :| 0 <= i < |order| && order[i] == x;
        assert order[1..][i - 1] == x;
      }
    }
  }

  /** The timeline as it was at context creation, with only the identity counter advanced. */
  function RolledBack(origin: TimelineState, c: ContextState): TimelineState {
    origin.(nextId := c.timeline.nextId)
  }

  lemma CancelInsertedStaged(origin: TimelineState, c: ContextState, token: EventToken)
    requires Staged(origin, c) && token in c.inserted
    ensures Lookup(c.timeline, token).Some? && c.timeline.events[KeyOf(token)].retained <= c.timeline.retained
    ensures var t := Cancel(c.timeline, token).0;
            t.nextId == c.timeline.nextId && Staged(origin, c.(timeline := t, inserted := c.inserted - {token}))
  {
    CancelEffect(c.timeline, token);
    TotalRemove(c.inserted, InsertedBytes, token);
    LayeredUninsert(origin.id, origin.events, c.timeline.events, c.inserted, c.removed, token);
  }

  /** `c` once its staged insertions are gone, its timeline being `t`. */
  function WithoutInsertions(c: ContextState, t: TimelineState): ContextState {
    c.(timeline := t, inserted := map[])
  }

  lemma {:induction false} CancelAllExact(origin: TimelineState, c: ContextState, order: seq<EventToken>)
    requires Staged(origin, c) && Enumerates(order, c.inserted.Keys)
    ensures var r := CancelAll(c.timeline, order);
            && r.Some?
            && Staged(origin, WithoutInsertions(c, r.value))
            && r.value.nextId == c.timeline.nextId
    decreases |order|
  {
    if order == [] {
      assert c.inserted == map[];
      assert c == WithoutInsertions(c, c.timeline);
    } else {
      var token := order[0];
      EnumeratesTail(order, c.inserted.Keys);
      CancelInsertedStaged(origin, c, token);
      var t := Cancel(c.timeline, token).0;
      var c' := c.(timeline := t, inserted := c.inserted - {token});
      assert c'.inserted.Keys == c.inserted.Keys - {token};
      CancelAllExact(origin, c', order[1..]);
      var r := CancelAll(t, order[1..]);
      assert CancelAll(c.timeline, order) == r;
      assert WithoutInsertions(c', r.value) == WithoutInsertions(c, r.value);
    }
  }

  lemma {:induction false} RestoreAllExact(origin: TimelineState, c: ContextState)
    requires Staged(origin, c) && c.inserted == map[]
    ensures RestoreAll(c.timeline, c.removed) == Some(RolledBack(origin, c))
    decreases |c.removed|
  {
    assert SubMap(c.timeline.events, origin.events);
    if c.removed == [] {
      assert c.timeline.events == origin.events;
    } else {
      var (token, routed) := c.removed[0];
      var key := KeyOf(token);
      var t := c.timeline;
      RestoreSafe(origin, c);
      assert IdBelow(token.id, origin.nextId) && IdBelow(token.id, t.nextId);
      RestoreEffect(t, token, routed);
      var c' := c.(timeline := Restore(t, token, routed), removed := c.removed[1..]);
      LayeredRestore(origin.id, origin.events, t.events, c.removed);
      RestoreAllExact(origin, c');
    }
  }

  /** None of the assertions in `restore` fires: the event fits where it was. */
  lemma RestoreSafe(origin: TimelineState, c: ContextState)
    requires Staged(origin, c) && c.inserted == map[] && c.removed != []
    ensures CanRestore(c.timeline, c.removed[0].0, c.removed[0].1)
  {
    var (token, routed) := c.removed[0];
    var key := KeyOf(token);
    assert SubMap(c.timeline.events, origin.events - {key});
    SubMapBounds(c.timeline.events, origin.events - {key}, EntryBytes);
    TotalRemove(origin.events, EntryBytes, key);
  }

  /**
   * Exact rollback: whatever was staged, and in whatever order the insertions are visited,
   * dropping the context restores the timeline of its creation and never panics.
   */
  lemma RollbackExact(origin: TimelineState, c: ContextState, order: seq<EventToken>)
    requires Staged(origin, c) && Enumerates(order, c.inserted.Keys)
    ensures Rollback(c, order) == Some(RolledBack(origin, c))
  {
    CancelAllExact(origin, c, order);
    var t := CancelAll(c.timeline, order).value;
    RestoreAllExact(origin, WithoutInsertions(c, t));
  }

  // ----- Callbacks: adaptive sequences of context operations -----

  datatype Turn = Turn(work: U64, next: Next)

  datatype Next = Now | Wake | WakeOr(deadline: Moment) | Stop

  datatype Request =
    | Send(target: DutyId, event: Event)
    | SendAtMoment(target: DutyId, at: Moment, event: Event)
    | SendLater(target: DutyId, delay: U64, event: Event)
    | CancelToken(token: EventToken)
    | Emit(observation: Observation)
    | Return(model: Model, outcome: Result<Turn, ModelError>)

  datatype Response =
    | Sent(send: Result<EventToken, SendFailure>)
    | Cancelled(cancel: Result<(), CancelFailure>)
    | Emitted(emit: Result<(), ObservationFailure>)

  /**
   * One consumer callback: the next request as a function of every response so far. It returns
   * after at most `bound` requests; `last` is what it returns then.
   */
  datatype Callback = Callback(
    next: seq<Response> -> Request,
    bound: nat,
    last: seq<Response> -> (Model, Result<Turn, ModelError>))

  function RequestOf(callback: Callback, seen: seq<Response>): Request {
    if |seen| < callback.bound then callback.next(seen)
    else var (model, outcome) := callback.last(seen); Return(model, outcome)
  }

  /** One context operation. */
  function Serve(c: ContextState, request: Request): (r: (ContextState, Response))
    requires !request.Return?
    requires request.CancelToken? ==> CanCancel(c, request.token)
  {
    match request
    case Send(target, event) => var (c', r) := SendAt(c, target, c.timeline.now, event); (c', Sent(r))
    case SendAtMoment(target, at, event) => var (c', r) := SendAt(c, target, at, event); (c', Sent(r))
    case SendLater(target, delay, event) => var (c', r) := SendAfter(c, target, delay, event); (c', Sent(r))
    case CancelToken(token) => var (c', r) := CancelEvent(c, token); (c', Cancelled(r))
    case Emit(observation) => var (c', r) := Observe(c, observation); (c', Emitted(r))
  }

  datatype Returned = Returned(context: ContextState, model: Model, outcome: Result<Turn, ModelError>)

  /** Runs a callback to its return. */
  ghost function RunCallback(origin: TimelineState, c: ContextState, callback: Callback, seen: seq<Response>): (r: Returned)
    requires Staged(origin, c)
    ensures Staged(origin, r.context)
    decreases callback.bound - |seen|
  {
    var request := RequestOf(callback, seen);
    if request.Return? then Returned(c, request.model, request.outcome)
    else
      ServeStaged(origin, c, request);
      var (c', response) := Serve(c, request);
      RunCallback(origin, c', callback, seen + [response])
  }

  lemma ServeStaged(origin: TimelineState, c: ContextState, request: Request)
    requires Staged(origin, c) && !request.Return?
    ensures request.CancelToken? ==> CanCancel(c, request.token)
    ensures Staged(origin, Serve(c, request).0)
  {
    match request
    case Send(target, event) => SendAtStaged(origin, c, target, c.timeline.now, event);
    case SendAtMoment(target, at, event) => SendAtStaged(origin, c, target, at, event);
    case SendLater(target, delay, event) =>
      if c.timeline.now + delay <= U64_MAX {
        SendAfterStaged(origin, c, target, delay, event, c.timeline.now + delay);
      }
    case CancelToken(token) =>
      CancelEventSafe(origin, c, token);
      CancelEventStaged(origin, c, token);
    case Emit(observation) =>
  }

  /** The i-th request depends on exactly the earlier responses, and its answer is the i-th response. */
  ghost predicate ServesAt(callback: Callback, before: ContextState, after: ContextState, responses: seq<Response>, i: nat)
    requires i < |responses|
  {
    var request := RequestOf(callback, responses[..i]);
    && !request.Return?
    && (request.CancelToken? ==> CanCancel(before, request.token))
    && Answered(before, request, after, responses[i])
  }

  /** What each request asks for: a send at the current, a given or a later moment, a cancellation, an observation. */
  ghost predicate Answered(before: ContextState, request: Request, after: ContextState, response: Response)
    requires !request.Return?
    requires request.CancelToken? ==> CanCancel(before, request.token)
  {
    match request
    case Send(target, event) => response.Sent? && (after, response.send) == SendAt(before, target, before.timeline.now, event)
    case SendAtMoment(target, at, event) => response.Sent? && (after, response.send) == SendAt(before, target, at, event)
    case SendLater(target, delay, event) => response.Sent? && (after, response.send) == SendAfter(before, target, delay, event)
    case CancelToken(token) => response.Cancelled? && (after, response.cancel) == CancelEvent(before, token)
    case Emit(observation) => response.Emitted? && (after, response.emit) == Observe(before, observation)
  }

  /** The responses a callback receives from here on, and the contexts between them. */
  ghost function Transcript(origin: TimelineState, c: ContextState, callback: Callback, seen: seq<Response>): (r: (seq<ContextState>, seq<Response>))
    requires Staged(origin, c)
    ensures |r.0| == |r.1| + 1 && r.0[0] == c
    decreases callback.bound - |seen|
  {
    var request := RequestOf(callback, seen);
    if request.Return? then ([c], [])
    else
      ServeStaged(origin, c, request);
      var (c', response) := Serve(c, request);
      var (contexts, responses) := Transcript(origin, c', callback, seen + [response]);
      ([c] + contexts, [response] + responses)
  }

  /**
   * A callback runs to its own return: every request it makes is served in turn, its next request sees
   * all earlier responses, and its result is what it returns then, over the context it then has.
   */
  lemma {:induction false} CallbackRunsItsRequests(origin: TimelineState, c: ContextState, callback: Callback, seen: seq<Response>)
    requires Staged(origin, c)
    ensures var r := RunCallback(origin, c, callback, seen);
            var (contexts, responses) := Transcript(origin, c, callback, seen);
            var returned := RequestOf(callback, seen + responses);
            && returned.Return? && r == Returned(contexts[|responses|], returned.model, returned.outcome)
            && forall i :: 0 <= i < |responses| ==>
                             ServesAt(callback, contexts[i], contexts[i + 1], seen + responses, |seen| + i)
    decreases callback.bound - |seen|
  {
    hide Staged, SendAt, SendAfter, CancelEvent, Observe, CanCancel;
    var request := RequestOf(callback, seen);
    var (contexts, responses) := Transcript(origin, c, callback, seen);
    if request.Return? {
      assert seen + responses == seen;
    } else {
      ServeStaged(origin, c, request);
      var (c', response) := Serve(c, request);
      var (rest, later) := Transcript(origin, c', callback, seen + [response]);
      CallbackRunsItsRequests(origin, c', callback, seen + [response]);
      assert seen + [response] + later == seen + responses;
      assert (seen + responses)[..|seen|] == seen;
      forall i | 0 <= i < |responses|
        ensures ServesAt(callback, contexts[i], contexts[i + 1], seen + responses, |seen| + i)
      {
        if i > 0 {
          assert ServesAt(callback, rest[i - 1], rest[i], seen + [response] + later, |seen| + 1 + (i - 1));
        }
      }
    }
  }

  /** What every callback keeps about the context it was given. */
  ghost predicate Continues(before: ContextState, after: ContextState) {
    && SameFrame(before.timeline, after.timeline)
    && IdAdvances(before.timeline.nextId, after.timeline.nextId)
    && (forall k :: k in after.timeline.events ==>
                      || (k in before.timeline.events && after.timeline.events[k] == before.timeline.events[k])
                      || Admitted(before, k, after.timeline.events[k].routed))
  }

  /** An event admitted by this context: live target, between now and the ceiling, caused by its action. */
  ghost predicate Admitted(c: ContextState, k: EventKey, routed: Routed) {
    && routed.target in c.topology && routed.target !in c.stopped
    && c.timeline.now <= k.at <= c.limits.maxTime
    && routed.cause == Some(c.action)
    && c.timeline.nextId.Some? && c.timeline.nextId.value <= k.id
  }

  ghost predicate SameGround(a: ContextState, b: ContextState) {
    && b.topology == a.topology && b.stopped == a.stopped && b.action == a.action && b.limits == a.limits
  }

  lemma ServeContinues(first: ContextState, c: ContextState, request: Request)
    requires Valid(c.timeline) && !request.Return? && SameGround(first, c) && Continues(first, c)
    requires request.CancelToken? ==> CanCancel(c, request.token)
    ensures SameGround(first, Serve(c, request).0) && Continues(first, Serve(c, request).0)
  {
    match request
    case Send(target, event) => SendContinues(first, c, target, c.timeline.now, event);
    case SendAtMoment(target, at, event) => SendContinues(first, c, target, at, event);
    case SendLater(target, delay, event) =>
      if c.timeline.now + delay <= U64_MAX {
        SendAfterContinues(first, c, target, delay, event, c.timeline.now + delay);
      }
    case CancelToken(token) =>
      CancelEventEffect(c, token);
      CancelEffect(c.timeline, token);
    case Emit(observation) =>
  }

  lemma SendAfterContinues(first: ContextState, c: ContextState, target: DutyId, delay: U64, event: Event, at: Moment)
    requires Valid(c.timeline) && SameGround(first, c) && Continues(first, c) && c.timeline.now + delay == at
    ensures var c' := SendAfter(c, target, delay, event).0; SameGround(first, c') && Continues(first, c')
  {
    SendAfterIsSendAt(c, target, delay, event, at);
    SendContinues(first, c, target, at, event);
  }

  lemma SendContinues(first: ContextState, c: ContextState, target: DutyId, at: Moment, event: Event)
    requires Valid(c.timeline) && SameGround(first, c) && Continues(first, c)
    ensures var c' := SendAt(c, target, at, event).0; SameGround(first, c') && Continues(first, c')
  {
    SendAtEffect(c, target, at, event);
    ScheduleAtEffect(c.timeline, at, Routed(target, Some(c.action), event));
  }

  lemma {:induction false} RunContinues(origin: TimelineState, first: ContextState, c: ContextState, callback: Callback, seen: seq<Response>)
    requires Staged(origin, c) && SameGround(first, c) && Continues(first, c)
    ensures var r := RunCallback(origin, c, callback, seen);
            SameGround(first, r.context) && Continues(first, r.context)
    decreases callback.bound - |seen|
  {
    var request := RequestOf(callback, seen);
    if !request.Return? {
      ServeStaged(origin, c, request);
      ServeContinues(first, c, request);
      var (c', response) := Serve(c, request);
      RunContinues(origin, first, c', callback, seen + [response]);
    }
  }

  // ----- Limits of one callback -----

  function ObservedBytes(observations: seq<Observation>, measure: Observation -> U64): nat {
    if observations == [] then 0
    else ObservedBytes(observations[..|observations| - 1], measure) + measure(observations[|observations| - 1])
  }

  /** Effects and observations, counted and weighed, are within the action's limits. */
  ghost predicate WithinLimits(c: ContextState) {
    && c.effects <= c.limits.effects && c.effectBytes <= c.limits.effectBytes
    && |c.observations| <= c.limits.observations
    && c.observationBytes == ObservedBytes(c.observations, c.limits.measureObservation) <= c.limits.observationBytes
  }

  lemma ServeWithinLimits(c: ContextState, request: Request)
    requires Valid(c.timeline) && WithinLimits(c) && !request.Return?
    requires request.CancelToken? ==> CanCancel(c, request.token)
    ensures WithinLimits(Serve(c, request).0)
  {
    hide Valid;
    match request
    case Send(target, event) => SendAtEffect(c, target, c.timeline.now, event);
    case SendAtMoment(target, at, event) => SendAtEffect(c, target, at, event);
    case SendLater(target, delay, event) =>
      if c.timeline.now + delay <= U64_MAX {
        SendAfterWithinLimits(c, target, delay, event, c.timeline.now + delay);
      }
    case CancelToken(token) => CancelEventEffect(c, token);
    case Emit(observation) =>
      assert (c.observations + [observation])[..|c.observations|] == c.observations;
  }

  lemma SendAfterWithinLimits(c: ContextState, target: DutyId, delay: U64, event: Event, at: Moment)
    requires Valid(c.timeline) && WithinLimits(c) && c.timeline.now + delay == at
    ensures WithinLimits(SendAfter(c, target, delay, event).0)
  {
    SendAfterIsSendAt(c, target, delay, event, at);
    SendAtEffect(c, target, at, event);
  }

  /** No callback, however long, exceeds its effect and observation limits or miscounts their bytes. */
  lemma {:induction false} RunWithinLimits(origin: TimelineState, c: ContextState, callback: Callback, seen: seq<Response>)
    requires Staged(origin, c) && WithinLimits(c)
    ensures WithinLimits(RunCallback(origin, c, callback, seen).context)
    decreases callback.bound - |seen|
  {
    hide WithinLimits, Layered, Total, Valid;
    var request := RequestOf(callback, seen);
    if !request.Return? {
      ServeStaged(origin, c, request);
      ServeWithinLimits(c, request);
      var (c', response) := Serve(c, request);
      RunWithinLimits(origin, c', callback, seen + [response]);
    }
  }

  /** Whatever a callback does and however it ends, dropping its context undoes exactly its effects. */
  lemma FailedCallbackLeavesNoTrace(
      t: TimelineState, topology: seq<DutyId>, stopped: set<DutyId>, action: ActionId, limits: ContextLimits,
      callback: Callback, order: seq<EventToken>)
    requires Valid(t)
    requires var c := Begin(t, topology, stopped, action, limits);
             Staged(t, c) && Enumerates(order, RunCallback(t, c, callback, []).context.inserted.Keys)
    ensures var c := Begin(t, topology, stopped, action, limits);
            var r := RunCallback(t, c, callback, []);
            Rollback(r.context, order) == Some(t.(nextId := r.context.timeline.nextId))
  {
    var c := Begin(t, topology, stopped, action, limits);
    RollbackExact(t, RunCallback(t, c, callback, []).context, order);
  }
}
