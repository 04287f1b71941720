/** The bounded ordered event timeline, as values: what every timeline operation does. */
module Timelines {
  import opened Base
  import opened Consumer

  /** Position of one pending event: the timeline map is ordered by moment, then identity. */
  datatype EventKey = EventKey(at: Moment, id: U64)

  datatype EventToken = EventToken(timeline: U64, id: U64, at: Moment)

  datatype Routed = Routed(target: DutyId, cause: Option<ActionId>, event: Event)

  datatype Entry = Entry(routed: Routed, retained: U64)

  datatype TimelineState = TimelineState(
    id: U64,
    now: Moment,
    maxEvents: nat,
    maxBytes: U64,
    measure: Event -> U64,
    nextId: Option<U64>,
    retained: U64,
    events: map<EventKey, Entry>)

  datatype ScheduleFailure =
    | ScheduledInPast(current: Moment, requested: Moment)
    | EventCapacity(limit: nat)
    | RetainedByteOverflow(held: U64, event: U64)
    | RetainedByteCapacity(bytes: U64, held: U64, event: U64)
    | EventIdsExhausted

  predicate KeyLess(a: EventKey, b: EventKey) {
    a.at < b.at || (a.at == b.at && a.id < b.id)
  }

  function KeyOf(token: EventToken): EventKey {
    EventKey(token.at, token.id)
  }

  function TokenOf(t: TimelineState, key: EventKey): EventToken {
    EventToken(t.id, key.id, key.at)
  }

  function EntryBytes(entry: Entry): nat {
    entry.retained
  }

  /** Accounting, capacity, time and identity invariant of one timeline. */
  ghost predicate Valid(t: TimelineState) {
    && t.retained == Total(t.events, EntryBytes) <= t.maxBytes
    && |t.events| <= t.maxEvents
    && forall k :: k in t.events ==>
                     && t.now <= k.at
                     && IdBelow(k.id, t.nextId)
                     && t.events[k].retained == t.measure(t.events[k].routed.event)
  }

  /** Identity, time, limits and measure, which no staged operation may touch. */
  ghost predicate SameFrame(a: TimelineState, b: TimelineState) {
    b == a.(nextId := b.nextId, retained := b.retained, events := b.events)
  }

  function Empty(id: U64, now: Moment, maxEvents: nat, maxBytes: U64, measure: Event -> U64): (t: TimelineState) {
    TimelineState(id, now, maxEvents, maxBytes, measure, Some(0), 0, map[])
  }

  function ScheduleAt(t: TimelineState, at: Moment, routed: Routed): (r: (TimelineState, Result<EventToken, ScheduleFailure>))
  {
    if at < t.now then (t, Err(ScheduledInPast(t.now, at)))
    else if |t.events| >= t.maxEvents then (t, Err(EventCapacity(t.maxEvents)))
    else
      var bytes := t.measure(routed.event);
      var next := CheckedAdd(t.retained, bytes);
      if next.None? then (t, Err(RetainedByteOverflow(t.retained, bytes)))
      else if next.value > t.maxBytes then (t, Err(RetainedByteCapacity(t.maxBytes, t.retained, bytes)))
      else if t.nextId.None? then (t, Err(EventIdsExhausted))
      else
        var key := EventKey(at, t.nextId.value);
        (t.(nextId := CheckedAdd(t.nextId.value, 1),
            retained := next.value,
            events := t.events[key := Entry(routed, bytes)]),
         Ok(TokenOf(t, key)))
  }

  /** The entry a token names, when it is still pending on this timeline. */
  function Lookup(t: TimelineState, token: EventToken): (r: Option<Entry>) {
    if token.timeline == t.id && KeyOf(token) in t.events then Some(t.events[KeyOf(token)]) else None
  }

  /** Removal of one pending event; `retained` never underflows on a valid timeline. */
  function Cancel(t: TimelineState, token: EventToken): (r: (TimelineState, Option<Routed>))
    requires Lookup(t, token).Some? ==> t.events[KeyOf(token)].retained <= t.retained
  {
    match Lookup(t, token)
    case None => (t, None)
    case Some(entry) =>
      (t.(events := t.events - {KeyOf(token)}, retained := t.retained - entry.retained), Some(entry.routed))
  }

  /** Whether every assertion of `restore` holds, so that it does not panic. */
  predicate CanRestore(t: TimelineState, token: EventToken, routed: Routed) {
    && token.timeline == t.id
    && token.at >= t.now
    && |t.events| < t.maxEvents
    && t.retained + t.measure(routed.event) <= t.maxBytes
    && KeyOf(token) !in t.events
  }

  function Restore(t: TimelineState, token: EventToken, routed: Routed): TimelineState
    requires CanRestore(t, token, routed)
  {
    var bytes := t.measure(routed.event);
    t.(events := t.events[KeyOf(token) := Entry(routed, bytes)], retained := t.retained + bytes)
  }

  /** Scheduling succeeds exactly within time, capacity, bytes and identities; the event is then new, and nothing else moves. */
  lemma ScheduleAtEffect(t: TimelineState, at: Moment, routed: Routed)
    requires Valid(t)
    ensures var (t', r) := ScheduleAt(t, at, routed);
            && Valid(t') && SameFrame(t, t') && IdAdvances(t.nextId, t'.nextId)
            && (r.Ok? <==> t.now <= at && |t.events| < t.maxEvents && t.retained + t.measure(routed.event) <= t.maxBytes && t.nextId.Some?)
            && (r.Err? ==> t' == t)
            && (r.Ok? ==>
                  && var key := KeyOf(r.value);
                  && r.value.timeline == t.id && key.at == at && t.now <= at && key !in t.events
                  && t.nextId == Some(key.id) && (forall k :: k in t.events ==> k.id < key.id)
                  && t'.events == t.events[key := Entry(routed, t.measure(routed.event))]
                  && t'.nextId == (if key.id < U64_MAX then Some(key.id + 1) else None))
  {
    var (t', r) := ScheduleAt(t, at, routed);
    if r.Ok? {
      var key := KeyOf(r.value);
      assert forall k :: k in t.events ==> IdBelow(k.id, t.nextId);
      TotalInsert(t.events, EntryBytes, key, t'.events[key]);
    }
  }

  /** The cause of each refusal, the first of the limits in the timeline's order that the request exceeds. */
  ghost predicate RefusedBecause(t: TimelineState, at: Moment, bytes: U64, failure: ScheduleFailure) {
    match failure
    case ScheduledInPast(current, requested) => requested == at && current == t.now && at < t.now
    case EventCapacity(limit) => at >= t.now && limit == t.maxEvents && |t.events| >= limit
    case RetainedByteOverflow(held, event) =>
      && at >= t.now && |t.events| < t.maxEvents
      && held == Total(t.events, EntryBytes) && event == bytes && held + event > U64_MAX
    case RetainedByteCapacity(capacity, held, event) =>
      && at >= t.now && |t.events| < t.maxEvents
      && held == Total(t.events, EntryBytes) && event == bytes && capacity == t.maxBytes
      && capacity < held + event <= U64_MAX
    case EventIdsExhausted =>
      && at >= t.now && |t.events| < t.maxEvents && Total(t.events, EntryBytes) + bytes <= t.maxBytes
      && t.nextId.None?
  }

  /** A refusal is given exactly for its own cause, with the values at that moment. */
  lemma ScheduleRefusalIsTrue(t: TimelineState, at: Moment, routed: Routed, failure: ScheduleFailure)
    requires Valid(t)
    ensures ScheduleAt(t, at, routed).1 == Err(failure) <==> RefusedBecause(t, at, t.measure(routed.event), failure)
  {
  }

  lemma CancelEffect(t: TimelineState, token: EventToken)
    requires Valid(t)
    ensures Lookup(t, token).Some? ==> t.events[KeyOf(token)].retained <= t.retained
    ensures var (t', r) := Cancel(t, token);
            && Valid(t') && SameFrame(t, t') && t'.nextId == t.nextId
            && (r.None? ==> t' == t && Lookup(t, token).None?)
            && (r.Some? ==> Lookup(t, token).Some? && t'.events == t.events - {KeyOf(token)}
                            && r.value == t.events[KeyOf(token)].routed)
  {
    if Lookup(t, token).Some? {
      TotalRemove(t.events, EntryBytes, KeyOf(token));
    }
  }

  lemma RestoreEffect(t: TimelineState, token: EventToken, routed: Routed)
    requires Valid(t) && CanRestore(t, token, routed) && IdBelow(token.id, t.nextId)
    ensures Valid(Restore(t, token, routed))
  {
    TotalInsert(t.events, EntryBytes, KeyOf(token), Entry(routed, t.measure(routed.event)));
  }

  // ----- Ordered enumeration of the event map -----

  lemma {:induction false} HasFirst(keys: set<EventKey>)
    requires keys != {}
    ensures exists k :: k in keys && forall x :: x in keys ==> x == k || KeyLess(k, x)
  {
    var k :| k in keys;
    var rest := keys - {k};
    if rest == {} {
      assert keys == {k};
    } else {
      HasFirst(rest);
      var m :| m in rest && forall x :: x in rest ==> x == m || KeyLess(m, x);
      var best := if KeyLess(m, k) then m else k;
      assert forall x :: x in keys ==> x == k || x in rest;
      assert best in keys && forall x :: x in keys ==> x == best || KeyLess(best, x);
    }
  }

  /** The first key of an ordered map. */
  function FirstKey(keys: set<EventKey>): (first: EventKey)
    requires keys != {}
    ensures first in keys
    ensures forall x :: x in keys ==> x == first || KeyLess(first, x)
  {
    HasFirst(keys);
    var first :| first in keys && forall x :: x in keys ==> x == first || KeyLess(first, x);
    first
  }

  /** Ordered-map iteration: every key once, ascending. */
  function SortedKeys(keys: set<EventKey>): (order: seq<EventKey>)
    ensures forall k :: k in order <==> k in keys
    ensures forall i, j :: 0 <= i < j < |order| ==> KeyLess(order[i], order[j])
    ensures |order| == |keys|
    decreases |keys|
  {
    if keys == {} then []
    else
      var first := FirstKey(keys);
      var rest := SortedKeys(keys - {first});
      assert forall k :: k in [first] + rest <==> k == first || k in rest;
      assert forall j :: 0 <= j < |rest| ==> rest[j] in rest;
      [first] + rest
  }

  /** Keys of the events due at one moment, in timeline order. */
  function KeysAt(t: TimelineState, at: Moment): (order: seq<EventKey>) {
    SortedKeys(set k | k in t.events && k.at == at)
  }

  function NextAt(t: TimelineState): (r: Option<Moment>) {
    if t.events == map[] then None
    else
      assert t.events.Keys != {};
      Some(FirstKey(t.events.Keys).at)
  }
}
