/** Selection policies over a ready set, as records of hooks. */
module Schedulers {
  import opened Base
  import opened Consumer
  import opened Timelines
  import opened Contexts
  import opened Actions

  datatype TraceEntry = TraceEntry(meta: ActionMeta, turn: Turn)

  datatype ReplayDivergence =
    | TraceExhausted(position: nat, at: Moment, ready: nat)
    | MomentDiffers(position: nat, expected: TraceEntry, reached: Moment)
    | Unavailable(position: nat, expected: TraceEntry, ready: nat)
    | CommittedDiffers(position: nat, expected: TraceEntry, actual: TraceEntry)
    | TraceRemaining(position: nat, remaining: nat)
    | PendingCommit(position: nat)
    | UnexpectedCommit(position: nat, actual: TraceEntry)

  datatype SchedulerError =
    | Diverged(divergence: ReplayDivergence)
    | SelectionsExhausted
    | ReadySetTooLarge(actions: nat)
    | Custom(code: nat)

  /** The three hooks of a scheduler with state `S`. */
  datatype Policy<!S> = Policy(
    choose: (S, Moment, seq<ActionKey>) -> (S, Result<ActionKey, SchedulerError>),
    committed: (S, ActionMeta, Turn) -> (S, Option<SchedulerError>),
    finished: S -> (S, Option<SchedulerError>))

  function NoCommit<S>(s: S, meta: ActionMeta, turn: Turn): (S, Option<SchedulerError>) {
    (s, None)
  }

  function NoFinish<S>(s: S): (S, Option<SchedulerError>) {
    (s, None)
  }

  // ----- Fifo -----

  function FifoChoose(s: (), now: Moment, ready: seq<ActionKey>): ((), Result<ActionKey, SchedulerError>) {
    (s, if ready == [] then Err(Custom(0)) else Ok(ready[0]))
  }

  const Fifo: Policy<()> := Policy(FifoChoose, NoCommit, NoFinish)

  // ----- Round robin -----

  /** Smallest duty strictly after `floor` among the ready actions. */
  function LeastDutyAfter(ready: seq<ActionKey>, floor: Option<DutyId>): (r: Option<DutyId>)
    ensures r.Some? ==> (exists i :: 0 <= i < |ready| && ready[i].duty == r.value)
                        && (floor.Some? ==> floor.value < r.value)
    ensures forall i :: 0 <= i < |ready| && (floor.Some? ==> floor.value < ready[i].duty) ==>
                          r.Some? && r.value <= ready[i].duty
  {
    if ready == [] then None
    else
      var rest := LeastDutyAfter(ready[1..], floor);
      assert forall i :: 1 <= i < |ready| ==> ready[i] == ready[1..][i - 1];
      if floor.Some? && ready[0].duty <= floor.value then
        assert rest.Some? ==> exists i :: 0 <= i < |ready[1..]| && ready[1..][i].duty == rest.value;
        assert forall i :: 0 <= i < |ready[1..]| ==> ready[1..][i] == ready[i + 1];
        rest
      else if rest.Some? && rest.value < ready[0].duty then
        assert forall i :: 0 <= i < |ready[1..]| ==> ready[1..][i] == ready[i + 1];
        rest
      else
        assert ready[0].duty == ready[0].duty;
        Some(ready[0].duty)
  }

  /** First ready action of one owner. */
  function FirstOf(ready: seq<ActionKey>, owner: DutyId): (key: ActionKey)
    requires exists i :: 0 <= i < |ready| && ready[i].duty == owner
    ensures key in ready && key.duty == owner
    ensures exists i :: 0 <= i < |ready| && ready[i] == key && forall j :: 0 <= j < i ==> ready[j].duty != owner
  {
    if ready[0].duty == owner then ready[0]
    else
      var i :| 0 <= i < |ready| && ready[i].duty == owner;
      assert ready[1..][i - 1].duty == owner;
      var key := FirstOf(ready[1..], owner);
      assert exists i :: 0 <= i < |ready| && ready[i] == key && forall j :: 0 <= j < i ==> ready[j].duty != owner by {
        var k :| 0 <= k < |ready[1..]| && ready[1..][k] == key && forall j :: 0 <= j < k ==> ready[1..][j].duty != owner;
        assert ready[k + 1] == key;
        forall j | 0 <= j < k + 1 ensures ready[j].duty != owner {
          assert j > 0 ==> ready[j] == ready[1..][j - 1];
        }
      }
      key
  }

  /** The owner a round-robin scheduler turns to. */
  function RoundRobinOwner(cursor: Option<DutyId>, ready: seq<ActionKey>): (r: Option<DutyId>) {
    var after := if cursor.None? then None else LeastDutyAfter(ready, cursor);
    if after.Some? then after else LeastDutyAfter(ready, None)
  }

  function RoundRobinChoose(cursor: Option<DutyId>, now: Moment, ready: seq<ActionKey>): (Option<DutyId>, Result<ActionKey, SchedulerError>) {
    match RoundRobinOwner(cursor, ready)
    case None => (cursor, Err(Custom(0)))
    case Some(owner) => (Some(owner), Ok(FirstOf(ready, owner)))
  }

  const RoundRobin: Policy<Option<DutyId>> := Policy(RoundRobinChoose, NoCommit, NoFinish)

  // ----- Replay -----

  datatype ReplayState = ReplayState(entries: seq<TraceEntry>, cursor: nat, awaiting: bool)

  /** A replay that awaits a commit has an entry to compare it with. */
  type Replay = r: ReplayState | r.cursor + (if r.awaiting then 1 else 0) <= |r.entries| witness ReplayState([], 0, false)

  function ReplayChoose(r: Replay, now: Moment, ready: seq<ActionKey>): (Replay, Result<ActionKey, SchedulerError>) {
    if r.awaiting then (r, Err(Diverged(PendingCommit(r.cursor))))
    else if r.cursor == |r.entries| then (r, Err(Diverged(TraceExhausted(r.cursor, now, |ready|))))
    else
      var expected := r.entries[r.cursor];
      if expected.meta.at != now then (r, Err(Diverged(MomentDiffers(r.cursor, expected, now))))
      else if expected.meta.key !in ready then (r, Err(Diverged(Unavailable(r.cursor, expected, |ready|))))
      else (r.(awaiting := true), Ok(expected.meta.key))
  }

  function ReplayCommitted(r: Replay, meta: ActionMeta, turn: Turn): (Replay, Option<SchedulerError>) {
    var actual := TraceEntry(meta, turn);
    if !r.awaiting then (r, Some(Diverged(UnexpectedCommit(r.cursor, actual))))
    else
      var expected := r.entries[r.cursor];
      if actual != expected then (r, Some(Diverged(CommittedDiffers(r.cursor, expected, actual))))
      else (r.(cursor := r.cursor + 1, awaiting := false), None)
  }

  function ReplayFinished(r: Replay): (Replay, Option<SchedulerError>) {
    if r.awaiting then (r, Some(Diverged(PendingCommit(r.cursor))))
    else if r.cursor != |r.entries| then (r, Some(Diverged(TraceRemaining(r.cursor, |r.entries| - r.cursor))))
    else (r, None)
  }

  const Replaying: Policy<Replay> := Policy(ReplayChoose, ReplayCommitted, ReplayFinished)

  // ----- What each policy chooses -----

  /** The owner a rotation turns to: the next ready one beyond the cursor, or else the least ready one. */
  ghost predicate IsNextOwner(cursor: Option<DutyId>, ready: seq<ActionKey>, owner: DutyId) {
    && (exists i :: 0 <= i < |ready| && ready[i].duty == owner)
    && if cursor.Some? && exists i :: 0 <= i < |ready| && ready[i].duty > cursor.value then
         owner > cursor.value && forall i :: 0 <= i < |ready| && ready[i].duty > cursor.value ==> owner <= ready[i].duty
       else forall i :: 0 <= i < |ready| ==> owner <= ready[i].duty
  }

  /** Round robin chooses the first ready action of the next owner and remembers that owner. */
  lemma RoundRobinChoosesNext(cursor: Option<DutyId>, now: Moment, ready: seq<ActionKey>)
    requires ready != []
    ensures var (after, choice) := RoundRobin.choose(cursor, now, ready);
            && choice.Ok? && after == Some(choice.value.duty)
            && IsNextOwner(cursor, ready, choice.value.duty)
            && exists i :: 0 <= i < |ready| && ready[i] == choice.value
                           && forall j :: 0 <= j < i ==> ready[j].duty != choice.value.duty
  {
    assert ready[0].duty == ready[0].duty;
    var owner := RoundRobinOwner(cursor, ready).value;
    assert FirstOf(ready, owner).duty == owner;
  }

  /** Why a replay refuses to choose, in the order of its checks. */
  ghost predicate ChoiceDiverges(r: Replay, now: Moment, ready: seq<ActionKey>, divergence: ReplayDivergence) {
    var open := !r.awaiting && r.cursor < |r.entries|;
    match divergence
    case PendingCommit(position) => r.awaiting && position == r.cursor
    case TraceExhausted(position, at, actions) =>
      !r.awaiting && position == r.cursor == |r.entries| && at == now && actions == |ready|
    case MomentDiffers(position, expected, reached) =>
      open && position == r.cursor && expected == r.entries[r.cursor] && reached == now && expected.meta.at != now
    case Unavailable(position, expected, actions) =>
      && open && position == r.cursor && expected == r.entries[r.cursor] && expected.meta.at == now
      && expected.meta.key !in ready && actions == |ready|
    case _ => false
  }

  /** A replay chooses the next recorded action exactly when its moment is reached and it is ready; otherwise it says what differs. */
  lemma ReplayChoiceIsExact(r: Replay, now: Moment, ready: seq<ActionKey>)
    ensures var (r', choice) := Replaying.choose(r, now, ready);
            && (choice.Ok? <==>
                  && !r.awaiting && r.cursor < |r.entries|
                  && r.entries[r.cursor].meta.at == now && r.entries[r.cursor].meta.key in ready)
            && (choice.Ok? ==> choice.value == r.entries[r.cursor].meta.key && r' == ReplayState(r.entries, r.cursor, true))
            && (choice.Err? ==> r' == r && choice.error.Diverged? && ChoiceDiverges(r, now, ready, choice.error.divergence))
  {
  }

  /** A replay accepts a commit exactly when it selected it and it is the recorded entry; otherwise it says what differs. */
  lemma ReplayCommitIsExact(r: Replay, meta: ActionMeta, turn: Turn)
    ensures var (r', refused) := Replaying.committed(r, meta, turn);
            var actual := TraceEntry(meta, turn);
            && (refused == None <==> r.awaiting && r.entries[r.cursor] == actual)
            && (refused == None ==> r' == ReplayState(r.entries, r.cursor + 1, false))
            && (refused != None ==> r' == r)
            && (refused == Some(Diverged(UnexpectedCommit(r.cursor, actual))) <==> !r.awaiting)
            && (r.awaiting && r.entries[r.cursor] != actual ==>
                  refused == Some(Diverged(CommittedDiffers(r.cursor, r.entries[r.cursor], actual))))
  {
  }

  /** A replay accepts the end exactly when every entry was committed; otherwise it says what is missing. */
  lemma ReplayFinishIsExact(r: Replay)
    ensures var (r', refused) := Replaying.finished(r);
            && r' == r
            && (refused == None <==> !r.awaiting && r.cursor == |r.entries|)
            && (r.awaiting ==> refused == Some(Diverged(PendingCommit(r.cursor))))
            && (!r.awaiting && r.cursor < |r.entries| ==> refused == Some(Diverged(TraceRemaining(r.cursor, |r.entries| - r.cursor))))
  {
  }
}
