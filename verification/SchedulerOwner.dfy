/** Schedulers and the trace updated in place, against the policies the kernel is proved with. */
module SchedulerOwner {
  import opened Base
  import opened Consumer
  import opened Contexts
  import opened Actions
  import opened Schedulers
  import opened Kernel
  import opened Replays
  import opened Seeded

  class RoundRobinScheduler {
    var cursor: Option<DutyId>

    constructor ()
      ensures cursor == None
    {
      cursor := None;
    }

    /** The next ready owner after the last one, wrapping around, and its first ready action. */
    method Choose(now: Moment, ready: seq<ActionKey>) returns (action: ActionKey)
      requires ready != []
      modifies this
      ensures (cursor, Ok(action)) == RoundRobinChoose(old(cursor), now, ready)
      ensures action in ready && cursor == Some(action.duty)
    {
      var after: Option<DutyId> := None;
      if cursor.Some? {
        after := LeastDutyAfter(ready, cursor);
      }
      if after.None? {
        after := LeastDutyAfter(ready, None);
      }
      assert ready[0].duty == ready[0].duty;
      action := FirstOf(ready, after.value);
      cursor := after;
    }
  }

  class SeededScheduler {
    /** The entropy stream: its n-th draw. */
    const stream: U64 -> U64
    var selections: U64

    constructor (stream: U64 -> U64)
      ensures selections == 0 && this.stream == stream
    {
      this.stream := stream;
      selections := 0;
    }

    method Choose(now: Moment, ready: seq<ActionKey>) returns (r: Result<ActionKey, SchedulerError>)
      requires ready != []
      modifies this
      ensures (selections, r) == SeededPolicy(stream).choose(old(selections), now, ready)
      ensures r.Ok? ==> exists i :: 0 <= i < |ready| && InPart(stream(old(selections)), i, |ready|) && r.value == ready[i]
    {
      var next := CheckedAdd(selections, 1);
      if next.None? {
        return Err(SelectionsExhausted);
      }
      if |ready| > U64_MAX {
        return Err(ReadySetTooLarge(|ready|));
      }
      var draw := stream(selections);
      ScaledInRange(draw, |ready|);
      var index := Scaled(draw, |ready|);
      selections := next.value;
      return Ok(ready[index]);
    }
  }

  class ReplayScheduler {
    const entries: seq<TraceEntry>
    var cursor: nat
    var awaitingCommit: bool

    ghost predicate Valid()
      reads this
    {
      cursor + (if awaitingCommit then 1 else 0) <= |entries|
    }

    ghost function State(): Replay
      requires Valid()
      reads this
    {
      ReplayState(entries, cursor, awaitingCommit)
    }

    constructor FromEntries(entries: seq<TraceEntry>)
      ensures Valid() && State() == ReplayAt(entries, 0)
    {
      this.entries := entries;
      cursor := 0;
      awaitingCommit := false;
    }

    method Choose(now: Moment, ready: seq<ActionKey>) returns (r: Result<ActionKey, SchedulerError>)
      requires Valid()
      modifies this
      ensures Valid() && (State(), r) == ReplayChoose(old(State()), now, ready)
    {
      if awaitingCommit {
        return Err(Diverged(PendingCommit(cursor)));
      }
      if cursor >= |entries| {
        return Err(Diverged(TraceExhausted(cursor, now, |ready|)));
      }
      var expected := entries[cursor];
      if expected.meta.at != now {
        return Err(Diverged(MomentDiffers(cursor, expected, now)));
      }
      if expected.meta.key !in ready {
        return Err(Diverged(Unavailable(cursor, expected, |ready|)));
      }
      awaitingCommit := true;
      return Ok(expected.meta.key);
    }

    method Committed(meta: ActionMeta, turn: Turn) returns (refused: Option<SchedulerError>)
      requires Valid()
      modifies this
      ensures Valid() && (State(), refused) == ReplayCommitted(old(State()), meta, turn)
    {
      var actual := TraceEntry(meta, turn);
      if !awaitingCommit {
        return Some(Diverged(UnexpectedCommit(cursor, actual)));
      }
      var expected := entries[cursor];
      if actual != expected {
        return Some(Diverged(CommittedDiffers(cursor, expected, actual)));
      }
      cursor := cursor + 1;
      awaitingCommit := false;
      return None;
    }

    method Finished() returns (refused: Option<SchedulerError>)
      requires Valid()
      ensures refused == ReplayFinished(State()).1
      ensures refused == None <==> cursor == |entries| && !awaitingCommit
    {
      if awaitingCommit {
        return Some(Diverged(PendingCommit(cursor)));
      }
      if |entries| - cursor != 0 {
        return Some(Diverged(TraceRemaining(cursor, |entries| - cursor)));
      }
      return None;
    }
  }

  /** A bounded trace around an inner monitor. */
  class Trace<N(!new)> {
    const limit: nat
    const watch: (N, View, ActionRecord) -> (N, Option<MonitorError>)
    var entries: seq<TraceEntry>
    var monitor: N

    ghost function State(): TraceState<N>
      reads this
    {
      TraceState(limit, entries, monitor)
    }

    constructor WithMonitor(limit: nat, watch: (N, View, ActionRecord) -> (N, Option<MonitorError>), monitor: N)
      ensures State() == TraceState(limit, [], monitor) && this.watch == watch
    {
      this.limit, this.watch, this.entries, this.monitor := limit, watch, [], monitor;
    }

    method AfterAction(view: View, record: ActionRecord) returns (rejected: Option<MonitorError>)
      modifies this
      ensures (State(), rejected) == TraceAfter(watch, old(State()), view, record)
    {
      if |entries| >= limit {
        return Some(TraceCapacity(limit));
      }
      entries := entries + [TraceEntry(record.meta, record.turn)];
      var (judged, verdict) := watch(monitor, view, record);
      monitor := judged;
      return verdict;
    }

    /** A replay scheduler over the retained prefix. */
    method Replay() returns (replay: ReplayScheduler)
      ensures fresh(replay) && replay.Valid() && replay.State() == ReplayAt(entries, 0)
    {
      replay := new ReplayScheduler.FromEntries(entries);
    }
  }
}
