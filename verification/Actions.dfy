/** Canonical action identity and order, and the records of committed actions. */
module Actions {
  import opened Base
  import opened Consumer
  import opened Timelines
  import opened Contexts

  datatype ActionKind = Delivery(token: EventToken) | OwnerTurn

  datatype ActionKey = ActionKey(duty: DutyId, kind: ActionKind)

  datatype ActionMeta = ActionMeta(id: ActionId, key: ActionKey, at: Moment, cause: Option<ActionId>)

  datatype ActionRecord = ActionRecord(meta: ActionMeta, turn: Turn, observations: seq<Observation>)

  /** The canonical order: due deliveries in timeline order, then owner turns by duty. */
  predicate ActionLess(a: ActionKey, b: ActionKey) {
    match (a.kind, b.kind)
    case (Delivery(left), Delivery(right)) =>
      || left.at < right.at
      || (left.at == right.at && left.timeline < right.timeline)
      || (left.at == right.at && left.timeline == right.timeline && left.id < right.id)
      || (left == right && a.duty < b.duty)
    case (Delivery(_), OwnerTurn) => true
    case (OwnerTurn, Delivery(_)) => false
    case (OwnerTurn, OwnerTurn) => a.duty < b.duty
  }

  ghost predicate Canonical(keys: seq<ActionKey>) {
    forall i, j :: 0 <= i < j < |keys| ==> ActionLess(keys[i], keys[j])
  }

  /** Sorted with repetitions allowed, as a sort leaves a slice. */
  ghost predicate Ascending(keys: seq<ActionKey>) {
    forall i, j :: 0 <= i < j < |keys| ==> keys[i] == keys[j] || ActionLess(keys[i], keys[j])
  }

  lemma ActionOrderIsTotal(a: ActionKey, b: ActionKey, c: ActionKey)
    ensures !ActionLess(a, a)
    ensures a == b || ActionLess(a, b) || ActionLess(b, a)
    ensures ActionLess(a, b) ==> !ActionLess(b, a)
    ensures ActionLess(a, b) && ActionLess(b, c) ==> ActionLess(a, c)
  {
  }

  lemma FirstsAgree(keys: seq<ActionKey>, sorted: seq<ActionKey>)
    requires Canonical(keys) && Ascending(sorted) && keys != [] && sorted != []
    requires keys[0] in sorted && sorted[0] in keys
    ensures sorted[0] == keys[0]
  {
    var i :| 0 <= i < |sorted| && sorted[i] == keys[0];
    var j :| 0 <= j < |keys| && keys[j] == sorted[0];
    ActionOrderIsTotal(keys[0], sorted[0], keys[0]);
  }

  lemma TailBag(keys: seq<ActionKey>)
    requires keys != []
    ensures multiset(keys[1..]) == multiset(keys) - multiset{keys[0]}
  {
    assert keys == [keys[0]] + keys[1..];
  }

  /**
   * A canonical sequence is already what sorting and deduplicating it yields: any sorted
   * permutation of it is the sequence itself.
   */
  lemma {:induction false} SortingIsIdle(keys: seq<ActionKey>, sorted: seq<ActionKey>)
    requires Canonical(keys) && Ascending(sorted) && multiset(sorted) == multiset(keys)
    ensures sorted == keys
    decreases |keys|
  {
    assert |sorted| == |multiset(sorted)| == |multiset(keys)| == |keys|;
    if keys != [] {
      assert keys[0] in multiset(sorted) && sorted[0] in multiset(keys);
      FirstsAgree(keys, sorted);
      TailBag(keys);
      TailBag(sorted);
      SortingIsIdle(keys[1..], sorted[1..]);
      assert keys == [keys[0]] + keys[1..] && sorted == [sorted[0]] + sorted[1..];
    }
  }
}
