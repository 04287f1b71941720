/** The timeline updated in place, method by method, against its value-level specification. */
module TimelineOwner {
  import opened Base
  import opened Consumer
  import opened Timelines

  class Timeline {
    const id: U64
    const maxEvents: nat
    const maxBytes: U64
    const measure: Event -> U64
    var now: Moment
    var nextId: Option<U64>
    var retained: U64
    var events: map<EventKey, Entry>

    function State(): TimelineState
      reads this
    {
      TimelineState(id, now, maxEvents, maxBytes, measure, nextId, retained, events)
    }

    constructor At(id: U64, now: Moment, maxEvents: nat, maxBytes: U64, measure: Event -> U64)
      ensures State() == Empty(id, now, maxEvents, maxBytes, measure)
      ensures Valid(State())
    {
      this.id, this.now, this.maxEvents, this.maxBytes, this.measure := id, now, maxEvents, maxBytes, measure;
      nextId, retained, events := Some(0), 0, map[];
    }

    method ScheduleAt(at: Moment, routed: Routed) returns (r: Result<EventToken, ScheduleFailure>)
      requires Valid(State())
      modifies this
      ensures (State(), r) == Timelines.ScheduleAt(old(State()), at, routed)
      ensures Valid(State())
    {
      ScheduleAtEffect(State(), at, routed);
      if at < now {
        return Err(ScheduledInPast(now, at));
      }
      if |events| >= maxEvents {
        return Err(EventCapacity(maxEvents));
      }
      var bytes := measure(routed.event);
      var next := CheckedAdd(retained, bytes);
      if next.None? {
        return Err(RetainedByteOverflow(retained, bytes));
      }
      if next.value > maxBytes {
        return Err(RetainedByteCapacity(maxBytes, retained, bytes));
      }
      if nextId.None? {
        return Err(EventIdsExhausted);
      }
      var raw := nextId.value;
      nextId := CheckedAdd(raw, 1);
      var key := EventKey(at, raw);
      assert key !in events;
      events := events[key := Entry(routed, bytes)];
      retained := next.value;
      return Ok(EventToken(id, raw, at));
    }

    method Cancel(token: EventToken) returns (removed: Option<Routed>)
      requires Valid(State())
      modifies this
      ensures Lookup(old(State()), token).Some? ==>
                old(State()).events[KeyOf(token)].retained <= old(State()).retained
      ensures (State(), removed) == Timelines.Cancel(old(State()), token)
      ensures removed.Some? <==> Lookup(old(State()), token).Some?
      ensures Valid(State())
    {
      hide Timelines.Valid;
      CancelEffect(State(), token);
      if token.timeline != id || KeyOf(token) !in events {
        return None;
      }
      var entry := events[KeyOf(token)];
      events := events - {KeyOf(token)};
      retained := retained - entry.retained;
      return Some(entry.routed);
    }

    /** The source asserts `CanRestore`; rollback proves it of every event it puts back. */
    method Restore(token: EventToken, routed: Routed)
      requires Valid(State()) && CanRestore(State(), token, routed) && IdBelow(token.id, nextId)
      modifies this
      ensures State() == Timelines.Restore(old(State()), token, routed)
      ensures Valid(State())
    {
      RestoreEffect(State(), token, routed);
      var bytes := measure(routed.event);
      events := events[KeyOf(token) := Entry(routed, bytes)];
      retained := retained + bytes;
    }

    /** Moving backward would panic in the source. */
    method AdvanceTo(requested: Moment)
      requires now <= requested
      modifies this
      ensures State() == old(State()).(now := requested)
    {
      now := requested;
    }

    /** Advances to the first pending event, in (moment, identity) order, and removes exactly that one. */
    method PopNext() returns (next: Option<(EventToken, Routed)>)
      requires Valid(State())
      modifies this
      ensures next.None? <==> old(events) == map[]
      ensures next.None? ==> State() == old(State())
      ensures next.Some? ==>
                var key := KeyOf(next.value.0);
                && key in old(events) && next.value == (TokenOf(old(State()), key), old(events)[key].routed)
                && (forall k :: k in old(events) ==> k == key || KeyLess(key, k))
                && old(now) <= now == key.at
                && events == old(events) - {key} && nextId == old(nextId)
      ensures Valid(State())
    {
      if events == map[] {
        return None;
      }
      assert events.Keys != {};
      var key := FirstKey(events.Keys);
      var entry := events[key];
      CancelEffect(State(), EventToken(id, key.id, key.at));
      now := key.at;
      events := events - {key};
      retained := retained - entry.retained;
      return Some((EventToken(id, key.id, key.at), entry.routed));
    }
  }
}
