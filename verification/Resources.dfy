/**
 * The generational resource table: fixed slots updated in place, and the proof that over any run of
 * operations it behaves like a map from tokens that are never issued twice.
 */
module Resources {
  import opened Base

  type Key(==, !new)

  type Resource(!new)

  datatype Token = Token(owner: U64, slot: nat, generation: U64)

  datatype Slot = Vacant(generation: U64) | Occupied(generation: U64, identity: Key, resource: Resource) | Exhausted

  datatype AdmissionFailure = IdentityInUse | CapacityReached | TokenSpaceExhausted

  datatype AdmissionError = AdmissionError(identity: Key, resource: Resource, failure: AdmissionFailure)

  datatype TokenFailure =
    | OwnerMismatch(expected: U64, actual: U64)
    | SlotOutOfBounds(slot: nat, capacity: nat)
    | SlotVacant(slot: nat, current: U64)
    | GenerationMismatch(slot: nat, current: U64, supplied: U64)
    | SlotExhausted(slot: nat)

  // ----- Scans over slots -----

  /** The first vacant slot at or after `from`. */
  function FirstVacant(slots: seq<Slot>, from: nat): (index: Option<nat>)
    requires from <= |slots|
    ensures index.Some? ==> from <= index.value < |slots| && slots[index.value].Vacant?
    ensures index.Some? ==> forall i :: from <= i < index.value ==> !slots[i].Vacant?
    ensures index.None? ==> forall i :: from <= i < |slots| ==> !slots[i].Vacant?
    decreases |slots| - from
  {
    if from == |slots| then None
    else if slots[from].Vacant? then Some(from)
    else FirstVacant(slots, from + 1)
  }

  /** The first slot at or after `from` whose live identity is `identity`. */
  function FirstOwnedBy(slots: seq<Slot>, identity: Key, from: nat): (index: Option<nat>)
    requires from <= |slots|
    ensures index.Some? ==> from <= index.value < |slots| && Owns(slots[index.value], identity)
    ensures index.None? ==> forall i :: from <= i < |slots| ==> !Owns(slots[i], identity)
    decreases |slots| - from
  {
    if from == |slots| then None
    else if Owns(slots[from], identity) then Some(from)
    else FirstOwnedBy(slots, identity, from + 1)
  }

  predicate Owns(slot: Slot, identity: Key) {
    slot.Occupied? && slot.identity == identity
  }

  /** How many slots are occupied, and how many are retired for good. */
  ghost function Counts(slots: seq<Slot>): (n: (nat, nat))
    ensures n.0 + n.1 <= |slots|
  {
    if slots == [] then (0, 0)
    else
      var rest := Counts(slots[1..]);
      (rest.0 + (if slots[0].Occupied? then 1 else 0), rest.1 + (if slots[0].Exhausted? then 1 else 0))
  }

  lemma {:induction false} CountsAfterUpdate(slots: seq<Slot>, i: nat, slot: Slot)
    requires i < |slots|
    ensures Counts(slots[i := slot]).0 == Counts(slots).0 - (if slots[i].Occupied? then 1 else 0) + (if slot.Occupied? then 1 else 0)
    ensures Counts(slots[i := slot]).1 == Counts(slots).1 - (if slots[i].Exhausted? then 1 else 0) + (if slot.Exhausted? then 1 else 0)
  {
    if i == 0 {
      assert slots[0 := slot][1..] == slots[1..];
    } else {
      assert slots[i := slot][1..] == slots[1..][i - 1 := slot];
      CountsAfterUpdate(slots[1..], i - 1, slot);
    }
  }

  lemma {:induction false} FullIffCounted(slots: seq<Slot>)
    ensures Counts(slots).0 == |slots| <==> forall i :: 0 <= i < |slots| ==> slots[i].Occupied?
    ensures (Counts(slots).0 + Counts(slots).1 < |slots|) <==> exists i :: 0 <= i < |slots| && slots[i].Vacant?
  {
    if slots != [] {
      FullIffCounted(slots[1..]);
      assert forall i :: 1 <= i < |slots| ==> slots[i] == slots[1..][i - 1];
      if i :| 0 <= i < |slots[1..]| && slots[1..][i].Vacant? {
        assert slots[i + 1].Vacant?;
      }
      if i :| 0 <= i < |slots[1..]| && !slots[1..][i].Occupied? {
        assert !slots[i + 1].Occupied?;
      }
    }
  }

  lemma {:induction false} CountsOfVacant(slots: seq<Slot>)
    requires forall i :: 0 <= i < |slots| ==> slots[i].Vacant?
    ensures Counts(slots) == (0, 0)
  {
    if slots != [] {
      CountsOfVacant(slots[1..]);
    }
  }

  // ----- Operations on the table's value -----

  datatype Table = Table(owner: U64, slots: seq<Slot>)

  function NewTable(owner: U64, capacity: nat, generation: U64): Table {
    Table(owner, seq(capacity, _ => Vacant(generation)))
  }

  /** Which occupied slot a token names, or why it names none. */
  function Validate(t: Table, token: Token): (r: Result<nat, TokenFailure>)
    ensures r.Ok? ==> r.value == token.slot < |t.slots| && t.slots[r.value].Occupied?
  {
    if token.owner != t.owner then Err(OwnerMismatch(t.owner, token.owner))
    else if token.slot >= |t.slots| then Err(SlotOutOfBounds(token.slot, |t.slots|))
    else
      match t.slots[token.slot]
      case Vacant(generation) => Err(SlotVacant(token.slot, generation))
      case Exhausted => Err(SlotExhausted(token.slot))
      case Occupied(generation, _, _) =>
        if generation == token.generation then Ok(token.slot)
        else Err(GenerationMismatch(token.slot, generation, token.generation))
  }

  /** The outcome of an admission, decided by the slots alone. */
  ghost function AdmitOutcome(t: Table, identity: Key, resource: Resource): (r: Result<Token, AdmissionError>)
    ensures r.Ok? ==>
              && r.value.owner == t.owner && r.value.slot < |t.slots|
              && t.slots[r.value.slot] == Vacant(r.value.generation)
    ensures r.Err? ==> r.error.identity == identity && r.error.resource == resource
  {
    if exists i :: 0 <= i < |t.slots| && Owns(t.slots[i], identity) then
      Err(AdmissionError(identity, resource, IdentityInUse))
    else if forall i :: 0 <= i < |t.slots| ==> t.slots[i].Occupied? then
      Err(AdmissionError(identity, resource, CapacityReached))
    else if forall i :: 0 <= i < |t.slots| ==> !t.slots[i].Vacant? then
      Err(AdmissionError(identity, resource, TokenSpaceExhausted))
    else
      var index := FirstVacant(t.slots, 0).value;
      Ok(Token(t.owner, index, t.slots[index].generation))
  }

  ghost function AfterAdmit(t: Table, identity: Key, resource: Resource): Table {
    var outcome := AdmitOutcome(t, identity, resource);
    if outcome.Err? then t
    else t.(slots := t.slots[outcome.value.slot := Occupied(outcome.value.generation, identity, resource)])
  }

  /** What a removed generation leaves behind: the next one, or a retired slot after the last. */
  function Successor(generation: U64): Slot {
    if generation < U64_MAX then Vacant(generation + 1) else Exhausted
  }

  function AfterRemove(t: Table, token: Token): Table {
    var index := Validate(t, token);
    if index.Err? then t else t.(slots := t.slots[index.value := Successor(token.generation)])
  }

  function AfterReplace(t: Table, token: Token, resource: Resource): Table {
    var index := Validate(t, token);
    if index.Err? then t
    else t.(slots := t.slots[index.value := t.slots[index.value].(resource := resource)])
  }

  /** Slots with preallocated storage, a live count and a retired count, all updated in place. */
  class ResourceTable {
    const owner: U64
    const slots: array<Slot>
    var active: nat
    var exhausted: nat

    ghost predicate Valid()
      reads this, slots
    {
      Counts(slots[..]) == (active, exhausted)
    }

    ghost function State(): Table
      reads this, slots
    {
      Table(owner, slots[..])
    }

    constructor StartingAt(owner: U64, capacity: nat, generation: U64)
      ensures Valid() && fresh(slots)
      ensures State() == NewTable(owner, capacity, generation)
    {
      this.owner := owner;
      slots := new Slot[capacity](_ => Vacant(generation));
      active := 0;
      exhausted := 0;
      new;
      assert slots[..] == NewTable(owner, capacity, generation).slots;
      CountsOfVacant(slots[..]);
    }

    method Admit(identity: Key, resource: Resource) returns (r: Result<Token, AdmissionError>)
      requires Valid()
      modifies this`active, slots
      ensures Valid()
      ensures r == AdmitOutcome(old(State()), identity, resource)
      ensures State() == AfterAdmit(old(State()), identity, resource)
    {
      if FirstOwnedBy(slots[..], identity, 0).Some? {
        return Err(AdmissionError(identity, resource, IdentityInUse));
      }
      FullIffCounted(slots[..]);
      if active == slots.Length {
        return Err(AdmissionError(identity, resource, CapacityReached));
      }
      var vacant := FirstVacant(slots[..], 0);
      if vacant.None? {
        return Err(AdmissionError(identity, resource, TokenSpaceExhausted));
      }
      var index := vacant.value;
      var generation := slots[index].generation;
      CountsAfterUpdate(slots[..], index, Occupied(generation, identity, resource));
      slots[index] := Occupied(generation, identity, resource);
      active := active + 1;
      assert slots[..] == old(slots[..])[index := Occupied(generation, identity, resource)];
      return Ok(Token(owner, index, generation));
    }

    method Remove(token: Token) returns (r: Result<(Key, Resource), TokenFailure>)
      requires Valid()
      modifies this`active, this`exhausted, slots
      ensures Valid()
      ensures State() == AfterRemove(old(State()), token)
      ensures match Validate(old(State()), token)
              case Err(failure) => r == Err(failure)
              case Ok(index) => r == Ok((old(slots[index].identity), old(slots[index].resource)))
    {
      var index := Validate(Table(owner, slots[..]), token);
      if index.Err? {
        return Err(index.error);
      }
      var current := slots[index.value];
      CountsAfterUpdate(slots[..], index.value, Successor(current.generation));
      slots[index.value] := Exhausted;
      active := active - 1;
      if current.generation < U64_MAX {
        slots[index.value] := Vacant(current.generation + 1);
      } else {
        exhausted := exhausted + 1;
      }
      assert slots[..] == old(slots[..])[index.value := Successor(token.generation)];
      return Ok((current.identity, current.resource));
    }

    method Get(token: Token) returns (r: Result<(Key, Resource), TokenFailure>)
      ensures match Validate(State(), token)
              case Err(failure) => r == Err(failure)
              case Ok(index) => r == Ok((slots[index].identity, slots[index].resource))
    {
      var index := Validate(Table(owner, slots[..]), token);
      if index.Err? {
        return Err(index.error);
      }
      return Ok((slots[index.value].identity, slots[index.value].resource));
    }

    /** Writing through the mutable access to one live resource. */
    method Replace(token: Token, resource: Resource) returns (r: Result<(), TokenFailure>)
      requires Valid()
      modifies slots
      ensures Valid()
      ensures State() == AfterReplace(old(State()), token, resource)
      ensures r.Ok? <==> Validate(old(State()), token).Ok?
    {
      var index := Validate(Table(owner, slots[..]), token);
      if index.Err? {
        return Err(index.error);
      }
      CountsAfterUpdate(slots[..], index.value, slots[index.value].(resource := resource));
      slots[index.value] := slots[index.value].(resource := resource);
      assert slots[..] == old(slots[..])[index.value := old(slots[index.value]).(resource := resource)];
      return Ok(());
    }

    method TokenFor(identity: Key) returns (token: Option<Token>)
      ensures token.Some? ==> exists r :: Live(State(), token.value) == Some((identity, r))
      ensures token.None? ==> forall other: Token, r :: Live(State(), other) != Some((identity, r))
    {
      var index := FirstOwnedBy(slots[..], identity, 0);
      if index.None? {
        return None;
      }
      token := Some(Token(owner, index.value, slots[index.value].generation));
      assert Live(State(), token.value) == Some((identity, slots[index.value].resource));
    }

    /** Live, vacant and retired slots add up to the capacity, so the subtraction never underflows. */
    method Snapshot() returns (live: nat, vacant: nat, retired: nat)
      requires Valid()
      ensures live + vacant + retired == slots.Length
      ensures (live, retired) == Counts(slots[..])
      ensures vacant > 0 <==> exists i :: 0 <= i < slots.Length && slots[i].Vacant?
    {
      FullIffCounted(slots[..]);
      live, retired := active, exhausted;
      vacant := slots.Length - (active + exhausted);
      assert forall i :: 0 <= i < slots.Length ==> slots[..][i] == slots[i];
    }
  }

  // ----- The table as a map -----

  /** What a token resolves to. */
  ghost function Live(t: Table, token: Token): Option<(Key, Resource)> {
    var index := Validate(t, token);
    if index.Err? then None else Some((t.slots[index.value].identity, t.slots[index.value].resource))
  }

  /** No slot will issue this token again. */
  ghost predicate Spent(t: Table, token: Token) {
    && token.owner == t.owner && token.slot < |t.slots|
    && match t.slots[token.slot]
       case Vacant(generation) => token.generation < generation
       case Occupied(generation, _, _) => token.generation <= generation
       case Exhausted => true
  }

  datatype Op = Admit(identity: Key, resource: Resource) | Remove(token: Token) | Replace(token: Token, resource: Resource)

  ghost function After(t: Table, op: Op): Table {
    match op
    case Admit(identity, resource) => AfterAdmit(t, identity, resource)
    case Remove(token) => AfterRemove(t, token)
    case Replace(token, resource) => AfterReplace(t, token, resource)
  }

  ghost function Run(t: Table, ops: seq<Op>): Table {
    if ops == [] then t else After(Run(t, ops[..|ops| - 1]), ops[|ops| - 1])
  }

  /** The tokens issued by a run, in order. */
  ghost function Issued(t: Table, ops: seq<Op>): seq<Token> {
    if ops == [] then []
    else
      var before := Run(t, ops[..|ops| - 1]);
      var op := ops[|ops| - 1];
      Issued(t, ops[..|ops| - 1])
      + if op.Admit? && AdmitOutcome(before, op.identity, op.resource).Ok? then [AdmitOutcome(before, op.identity, op.resource).value] else []
  }

  /** The reference: a map that admissions extend, removals shrink and writes update. */
  ghost function Reference(t: Table, ops: seq<Op>): map<Token, (Key, Resource)> {
    if ops == [] then map[]
    else
      var live := Reference(t, ops[..|ops| - 1]);
      match ops[|ops| - 1]
      case Admit(identity, resource) =>
        var outcome := AdmitOutcome(Run(t, ops[..|ops| - 1]), identity, resource);
        if outcome.Ok? then live[outcome.value := (identity, resource)] else live
      case Remove(token) => live - {token}
      case Replace(token, resource) => if token in live then live[token := (live[token].0, resource)] else live
  }

  /** One operation changes what tokens resolve to exactly as it changes the reference map. */
  lemma OpRefines(t: Table, op: Op, token: Token)
    ensures op.Admit? ==>
              var outcome := AdmitOutcome(t, op.identity, op.resource);
              Live(After(t, op), token)
              == if outcome == Ok(token) then Some((op.identity, op.resource)) else Live(t, token)
    ensures op.Remove? ==> Live(After(t, op), token) == if token == op.token then None else Live(t, token)
    ensures op.Replace? ==>
              Live(After(t, op), token)
              == if token == op.token && Live(t, token).Some? then Some((Live(t, token).value.0, op.resource)) else Live(t, token)
  {
  }

  lemma OpKeepsSpent(t: Table, op: Op, token: Token)
    requires Spent(t, token)
    ensures Spent(After(t, op), token)
  {
  }

  /** A retired token is refused as older than what its slot holds now. */
  lemma RetiredTokenIsOlder(t: Table, token: Token)
    requires Spent(t, token) && Live(t, token).None?
    ensures match Validate(t, token)
            case Ok(_) => false
            case Err(SlotVacant(slot, current)) => slot == token.slot && token.generation < current
            case Err(GenerationMismatch(slot, current, supplied)) => slot == token.slot && supplied == token.generation < current
            case Err(SlotExhausted(slot)) => slot == token.slot
            case Err(_) => false
  {
  }

  /** A new token was never spent before it is issued, and is from then on. */
  lemma AdmitIssuesFresh(t: Table, identity: Key, resource: Resource)
    requires AdmitOutcome(t, identity, resource).Ok?
    ensures var token := AdmitOutcome(t, identity, resource).value;
            !Spent(t, token) && Spent(AfterAdmit(t, identity, resource), token)
  {
  }

  lemma {:induction false} IssuedAreSpent(t: Table, ops: seq<Op>)
    ensures forall token :: token in Issued(t, ops) ==> Spent(Run(t, ops), token)
  {
    hide Spent, After, AdmitOutcome;
    if ops != [] {
      var before := ops[..|ops| - 1];
      var op := ops[|ops| - 1];
      IssuedAreSpent(t, before);
      forall token | token in Issued(t, ops) ensures Spent(Run(t, ops), token) {
        if token in Issued(t, before) {
          OpKeepsSpent(Run(t, before), op, token);
        } else {
          AdmitSpends(Run(t, before), op);
        }
      }
    }
  }

  lemma AdmitSpends(t: Table, op: Op)
    requires op.Admit? && AdmitOutcome(t, op.identity, op.resource).Ok?
    ensures var token := AdmitOutcome(t, op.identity, op.resource).value;
            !Spent(t, token) && Spent(After(t, op), token)
  {
    AdmitIssuesFresh(t, op.identity, op.resource);
  }

  ghost predicate Distinct(tokens: seq<Token>) {
    forall i, j :: 0 <= i < j < |tokens| ==> tokens[i] != tokens[j]
  }

  lemma NoneDistinct()
    ensures Distinct([])
  {
  }

  lemma DistinctAppend(tokens: seq<Token>, token: Token)
    requires Distinct(tokens) && token !in tokens
    ensures Distinct(tokens + [token])
  {
  }

  /** No (slot, generation) pair is issued twice, in any run from any generation floor. */
  lemma {:induction false} TokensNeverReissued(t: Table, ops: seq<Op>)
    ensures Distinct(Issued(t, ops))
  {
    hide Spent, After, AdmitOutcome, Distinct;
    if ops == [] {
      NoneDistinct();
    } else {
      var before := ops[..|ops| - 1];
      var op := ops[|ops| - 1];
      TokensNeverReissued(t, before);
      IssuedAreSpent(t, before);
      if op.Admit? && AdmitOutcome(Run(t, before), op.identity, op.resource).Ok? {
        AdmitSpends(Run(t, before), op);
        var token := AdmitOutcome(Run(t, before), op.identity, op.resource).value;
        assert Issued(t, ops) == Issued(t, before) + [token] && token !in Issued(t, before);
        DistinctAppend(Issued(t, before), token);
      } else {
        assert Issued(t, ops) == Issued(t, before);
      }
    }
  }

  /**
   * A token resolves exactly while its own admission is live, and then to that identity and the
   * resource last written: in every run from a new table, what tokens resolve to is the reference map.
   */
  lemma {:induction false} TableRefinesMap(owner: U64, capacity: nat, generation: U64, ops: seq<Op>, token: Token)
    ensures var start := NewTable(owner, capacity, generation);
            var live := Reference(start, ops);
            Live(Run(start, ops), token) == if token in live then Some(live[token]) else None
    decreases |ops|
  {
    hide After, AdmitOutcome, Live;
    var start := NewTable(owner, capacity, generation);
    if ops == [] {
      NewResolvesNothing(owner, capacity, generation, token);
    } else {
      var before := ops[..|ops| - 1];
      var op := ops[|ops| - 1];
      TableRefinesMap(owner, capacity, generation, before, token);
      OpRefines(Run(start, before), op, token);
    }
  }

  lemma NewResolvesNothing(owner: U64, capacity: nat, generation: U64, token: Token)
    ensures Live(NewTable(owner, capacity, generation), token).None?
  {
  }

  ghost predicate UniqueIdentities(slots: seq<Slot>) {
    forall i, j :: 0 <= i < j < |slots| && slots[i].Occupied? && slots[j].Occupied? ==> slots[i].identity != slots[j].identity
  }

  /** Live identities stay distinct in every run. */
  lemma {:induction false} IdentitiesStayUnique(owner: U64, capacity: nat, generation: U64, ops: seq<Op>)
    ensures UniqueIdentities(Run(NewTable(owner, capacity, generation), ops).slots)
    decreases |ops|
  {
    if ops != [] {
      IdentitiesStayUnique(owner, capacity, generation, ops[..|ops| - 1]);
      OpKeepsUnique(Run(NewTable(owner, capacity, generation), ops[..|ops| - 1]), ops[|ops| - 1]);
    }
  }

  lemma OpKeepsUnique(t: Table, op: Op)
    requires UniqueIdentities(t.slots)
    ensures UniqueIdentities(After(t, op).slots)
  {
  }

  /** Retired slots stay retired: a retired slot refuses every token for the rest of any run. */
  lemma {:induction false} RetiredForever(t: Table, ops: seq<Op>, slot: nat)
    requires slot < |t.slots| && t.slots[slot].Exhausted?
    ensures |Run(t, ops).slots| == |t.slots| && Run(t, ops).slots[slot].Exhausted?
    ensures forall token: Token :: token in Issued(t, ops) ==> token.slot != slot
  {
    if ops != [] {
      RetiredForever(t, ops[..|ops| - 1], slot);
    }
  }

  // ----- Exact answers -----

  /** A token names a live slot exactly by owner, slot and generation; every failure says which of them is wrong. */
  lemma ValidateIsExact(t: Table, token: Token)
    ensures var r := Validate(t, token);
            var found := token.owner == t.owner && token.slot < |t.slots|;
            && (r == Err(OwnerMismatch(t.owner, token.owner)) <==> token.owner != t.owner)
            && (r == Err(SlotOutOfBounds(token.slot, |t.slots|)) <==> token.owner == t.owner && token.slot >= |t.slots|)
            && (r.Err? && r.error.SlotVacant? <==> found && t.slots[token.slot].Vacant?)
            && (r.Err? && r.error.SlotExhausted? <==> found && t.slots[token.slot].Exhausted?)
            && (r.Err? && r.error.GenerationMismatch? <==>
                  found && t.slots[token.slot].Occupied? && t.slots[token.slot].generation != token.generation)
            && (r.Ok? <==> found && t.slots[token.slot].Occupied? && t.slots[token.slot].generation == token.generation)
            && (r.Err? && r.error.SlotVacant? ==> r.error == SlotVacant(token.slot, t.slots[token.slot].generation))
            && (r.Err? && r.error.GenerationMismatch? ==>
                  r.error == GenerationMismatch(token.slot, t.slots[token.slot].generation, token.generation))
  {
  }

  /**
   * An admission is refused exactly when its identity is live, every slot is occupied, or every free slot
   * is retired; otherwise it gets the first vacant slot at that slot's generation, and no other slot changes.
   */
  lemma AdmitIsExact(t: Table, identity: Key, resource: Resource)
    ensures var outcome := AdmitOutcome(t, identity, resource);
            var inUse := exists token: Token, r :: Live(t, token) == Some((identity, r));
            var full := forall i :: 0 <= i < |t.slots| ==> t.slots[i].Occupied?;
            var vacant := exists i :: 0 <= i < |t.slots| && t.slots[i].Vacant?;
            && (outcome == Err(AdmissionError(identity, resource, IdentityInUse)) <==> inUse)
            && (outcome == Err(AdmissionError(identity, resource, CapacityReached)) <==> !inUse && full)
            && (outcome == Err(AdmissionError(identity, resource, TokenSpaceExhausted)) <==> !inUse && !full && !vacant)
            && (outcome.Ok? <==> !inUse && vacant)
            && (outcome.Err? ==> AfterAdmit(t, identity, resource) == t)
            && (outcome.Ok? ==>
                  var i := outcome.value.slot;
                  && (forall j :: 0 <= j < i ==> !t.slots[j].Vacant?)
                  && AfterAdmit(t, identity, resource).slots == t.slots[i := Occupied(outcome.value.generation, identity, resource)])
  {
    InUseIsOwned(t, identity);
    if i :| 0 <= i < |t.slots| && t.slots[i].Vacant? {
      assert !t.slots[i].Occupied?;
    }
  }

  lemma InUseIsOwned(t: Table, identity: Key)
    ensures (exists token: Token, r :: Live(t, token) == Some((identity, r))) <==>
              exists i :: 0 <= i < |t.slots| && Owns(t.slots[i], identity)
  {
    if i :| 0 <= i < |t.slots| && Owns(t.slots[i], identity) {
      assert Live(t, Token(t.owner, i, t.slots[i].generation)) == Some((identity, t.slots[i].resource));
    }
  }

  /** A removal moves exactly its slot to the next generation, or retires it after the last one. */
  lemma RemoveIsExact(t: Table, token: Token)
    ensures var slots' := AfterRemove(t, token).slots;
            && (Live(t, token).None? ==> slots' == t.slots)
            && (Live(t, token).Some? ==>
                  && token.slot < |t.slots|
                  && slots' == t.slots[token.slot := if token.generation < U64_MAX then Vacant(token.generation + 1) else Exhausted])
  {
  }
}
