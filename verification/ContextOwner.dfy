/** The action context updated in place over its timeline: staged effects, commit and rollback. */
module ContextOwner {
  import opened Base
  import opened Consumer
  import opened Timelines
  import opened Contexts
  import opened TimelineOwner

  class ActionContext {
    const timeline: Timeline
    const topology: seq<DutyId>
    const stopped: set<DutyId>
    const action: ActionId
    const limits: ContextLimits
    var effects: nat
    var effectBytes: U64
    var observations: seq<Observation>
    var observationBytes: U64
    var inserted: map<EventToken, U64>
    var removed: seq<(EventToken, Routed)>
    var committed: bool
    /** The timeline as it was when the context was opened. */
    ghost const origin: TimelineState

    function State(): ContextState
      reads this, timeline
    {
      ContextState(timeline.State(), topology, stopped, action, limits, effects, effectBytes,
                   observations, observationBytes, inserted, removed)
    }

    ghost predicate Valid()
      reads this, timeline
    {
      Staged(origin, State())
    }

    constructor (timeline: Timeline, topology: seq<DutyId>, stopped: set<DutyId>, action: ActionId, limits: ContextLimits)
      requires Timelines.Valid(timeline.State())
      ensures Valid() && origin == timeline.State()
      ensures this.timeline == timeline && !committed
      ensures State() == Begin(timeline.State(), topology, stopped, action, limits)
    {
      this.timeline, this.topology, this.stopped, this.action, this.limits := timeline, topology, stopped, action, limits;
      effects, effectBytes, observations, observationBytes := 0, 0, [], 0;
      inserted, removed, committed := map[], [], false;
      origin := timeline.State();
      new;
      BeginStaged(timeline.State(), topology, stopped, action, limits);
    }

    method SendAt(target: DutyId, at: Moment, event: Event) returns (r: Result<EventToken, SendFailure>)
      requires Valid()
      modifies this, timeline
      ensures (State(), r) == Contexts.SendAt(old(State()), target, at, event)
      ensures Valid() && committed == old(committed)
    {
      hide Timelines.ScheduleAt, Timelines.Valid, Layered, Total;
      SendAtStaged(origin, State(), target, at, event);
      if effects >= limits.effects {
        return Err(EffectCapacity(limits.effects));
      }
      if target !in topology {
        return Err(UnknownTarget(target));
      }
      if target in stopped {
        return Err(TargetStopped(target));
      }
      if at > limits.maxTime {
        return Err(BeyondTimeLimit(at, limits.maxTime));
      }
      var bytes := timeline.measure(event);
      var next := CheckedAdd(effectBytes, bytes);
      if next.None? {
        return Err(EffectByteOverflow(effectBytes, bytes));
      }
      if next.value > limits.effectBytes {
        return Err(EffectByteCapacity(limits.effectBytes, effectBytes, bytes));
      }
      ScheduleAtEffect(timeline.State(), at, Routed(target, Some(action), event));
      var token := timeline.ScheduleAt(at, Routed(target, Some(action), event));
      if token.Err? {
        return Err(TimelineRejected(token.error));
      }
      effects := effects + 1;
      effectBytes := next.value;
      inserted := inserted[token.value := bytes];
      return Ok(token.value);
    }

    method SendAfter(target: DutyId, delay: U64, event: Event) returns (r: Result<EventToken, SendFailure>)
      requires Valid()
      modifies this, timeline
      ensures (State(), r) == Contexts.SendAfter(old(State()), target, delay, event)
      ensures Valid() && committed == old(committed)
    {
      var at := CheckedAdd(timeline.now, delay);
      if at.None? {
        return Err(TimeOverflow(timeline.now, delay));
      }
      SendAfterIsSendAt(State(), target, delay, event, at.value);
      r := SendAt(target, at.value, event);
    }

    method Cancel(token: EventToken) returns (r: Result<(), CancelFailure>)
      requires Valid()
      modifies this, timeline
      ensures CanCancel(old(State()), token)
      ensures (State(), r) == CancelEvent(old(State()), token)
      ensures Valid() && committed == old(committed)
    {
      hide Timelines.Valid, Layered, Total;
      CancelEventSafe(origin, State(), token);
      CancelEventStaged(origin, State(), token);
      if effects >= limits.effects {
        return Err(CancelEffectCapacity(limits.effects));
      }
      if token.timeline != timeline.id {
        return Err(ForeignTimeline(timeline.id, token.timeline));
      }
      var entry := Lookup(timeline.State(), token);
      if entry.None? {
        return Err(NotPending(token));
      }
      var bytes := entry.value.retained;
      if token in inserted {
        inserted := inserted - {token};
        var _ := timeline.Cancel(token);
        effectBytes := effectBytes - bytes;
        effects := effects + 1;
        return Ok(());
      }
      var next := CheckedAdd(effectBytes, bytes);
      if next.None? {
        return Err(CancelByteOverflow(effectBytes, bytes));
      }
      if next.value > limits.effectBytes {
        return Err(CancelByteCapacity(limits.effectBytes, effectBytes, bytes));
      }
      var routed := timeline.Cancel(token);
      removed := removed + [(token, routed.value)];
      effectBytes := next.value;
      effects := effects + 1;
      return Ok(());
    }

    method Observe(observation: Observation) returns (r: Result<(), ObservationFailure>)
      requires Valid()
      modifies this
      ensures (State(), r) == Contexts.Observe(old(State()), observation)
      ensures Valid() && committed == old(committed)
    {
      if |observations| >= limits.observations {
        return Err(ObservationCapacity(limits.observations));
      }
      var bytes := limits.measureObservation(observation);
      var next := CheckedAdd(observationBytes, bytes);
      if next.None? {
        return Err(ObservationByteOverflow(observationBytes, bytes));
      }
      if next.value > limits.observationBytes {
        return Err(ObservationByteCapacity(limits.observationBytes, observationBytes, bytes));
      }
      observations := observations + [observation];
      observationBytes := next.value;
      return Ok(());
    }

    /** Keeps the staged timeline and gives up the means to undo it. */
    method Commit() returns (taken: seq<Observation>)
      requires Valid()
      modifies this
      ensures committed && timeline.State() == old(timeline.State())
      ensures taken == old(observations) && inserted == map[] && removed == []
    {
      committed := true;
      inserted, removed := map[], [];
      taken := observations;
      observations := [];
    }

    /**
     * Dropping the context. Uncommitted, it cancels its insertions, in any order, then restores its
     * removals: the timeline is again the one it was opened on, with only the identity counter
     * advanced. Every call it makes meets its precondition, so no panic is reachable.
     */
    method Drop()
      requires !committed ==> Valid()
      modifies this, timeline
      ensures old(committed) ==> timeline.State() == old(timeline.State())
      ensures !old(committed) ==>
                && timeline.State() == RolledBack(origin, old(State()))
                && Timelines.Valid(timeline.State())
    {
      if committed {
        return;
      }
      ghost var before := State();
      var insertions := inserted;
      inserted := map[];
      CancelInsertions(insertions, before);
      var removals := removed;
      removed := [];
      RestoreRemovals(removals, before);
    }

    /** The first loop of the drop. */
    method CancelInsertions(taken: map<EventToken, U64>, ghost before: ContextState)
      requires Staged(origin, before) && taken == before.inserted && timeline.State() == before.timeline
      modifies timeline
      ensures timeline.nextId == before.timeline.nextId
      ensures Staged(origin, before.(timeline := timeline.State(), inserted := map[]))
    {
      hide Timelines.Valid, Timelines.Cancel, Layered, Total;
      var insertions := taken;
      while insertions != map[]
        invariant timeline.nextId == before.timeline.nextId
        invariant Staged(origin, before.(timeline := timeline.State(), inserted := insertions))
        decreases |insertions|
      {
        var token :| token in insertions;
        CancelInsertedStaged(origin, before.(timeline := timeline.State(), inserted := insertions), token);
        var cancelled := timeline.Cancel(token);
        assert cancelled.Some?;
        insertions := insertions - {token};
      }
    }

    /** The second loop of the drop. */
    method RestoreRemovals(removals: seq<(EventToken, Routed)>, ghost before: ContextState)
      requires removals == before.removed && timeline.nextId == before.timeline.nextId
      requires Staged(origin, before.(timeline := timeline.State(), inserted := map[]))
      modifies timeline
      ensures timeline.State() == RolledBack(origin, before)
      ensures Timelines.Valid(timeline.State())
    {
      hide Timelines.Valid, Timelines.Restore, Layered, Total, CanRestore;
      var next := 0;
      while next < |removals|
        invariant next <= |removals|
        invariant timeline.nextId == before.timeline.nextId
        invariant Staged(origin, before.(timeline := timeline.State(), inserted := map[], removed := removals[next..]))
      {
        ghost var c := before.(timeline := timeline.State(), inserted := map[], removed := removals[next..]);
        RestoreSafe(origin, c);
        RestoredStaged(origin, c);
        timeline.Restore(removals[next].0, removals[next].1);
        assert removals[next..][1..] == removals[next + 1..];
        next := next + 1;
      }
      assert removals[next..] == [];
      NothingStaged(origin, before.(timeline := timeline.State(), inserted := map[], removed := []));
    }
  }

  /** Putting the next removal back leaves the rest staged. */
  lemma RestoredStaged(origin: TimelineState, c: ContextState)
    requires Staged(origin, c) && c.inserted == map[] && c.removed != []
    requires CanRestore(c.timeline, c.removed[0].0, c.removed[0].1)
    ensures IdBelow(c.removed[0].0.id, c.timeline.nextId)
    ensures Restore(c.timeline, c.removed[0].0, c.removed[0].1).nextId == c.timeline.nextId
    ensures Staged(origin, c.(timeline := Restore(c.timeline, c.removed[0].0, c.removed[0].1), removed := c.removed[1..]))
  {
    var (token, routed) := c.removed[0];
    assert KeyOf(token) in origin.events;
    RestoreEffect(c.timeline, token, routed);
    LayeredRestore(origin.id, origin.events, c.timeline.events, c.removed);
  }

  /** A timeline with nothing staged over it is the origin, up to the identity counter. */
  lemma NothingStaged(origin: TimelineState, c: ContextState)
    requires Staged(origin, c) && c.inserted == map[] && c.removed == []
    ensures c.timeline == RolledBack(origin, c)
  {
    assert forall k :: k in origin.events <==> k in c.timeline.events;
    assert c.timeline.events == origin.events;
  }
}
