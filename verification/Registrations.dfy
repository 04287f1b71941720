/**
 * The selector's registration table: resources paired with backend tokens that are issued in
 * increasing order, kept sorted in place and looked up by binary search.
 */
module RegistrationTable {
  import opened Base

  type Resource(==, !new)

  datatype Registration = Registration(resource: Resource, backend: U64)

  datatype Failure = AlreadyRegistered | CapacityReached | TokenSpaceExhausted | NotRegistered | External

  /** The backend token reserved for the poller's own wake source. */
  const WAKE: U64 := 0

  // ----- Linear scans -----

  /** The position of the first entry for a resource, from `from` on. */
  function PositionOf(entries: seq<Registration>, resource: Resource, from: nat): (index: Option<nat>)
    requires from <= |entries|
    ensures index.Some? ==> from <= index.value < |entries| && entries[index.value].resource == resource
    ensures index.None? ==> forall i :: from <= i < |entries| ==> entries[i].resource != resource
    decreases |entries| - from
  {
    if from == |entries| then None
    else if entries[from].resource == resource then Some(from)
    else PositionOf(entries, resource, from + 1)
  }

  function BackendOf(entries: seq<Registration>, resource: Resource): Option<U64> {
    var index := PositionOf(entries, resource, 0);
    if index.None? then None else Some(entries[index.value].backend)
  }

  /** The reference lookup: the first entry for a backend token, scanning from the front. */
  function Lookup(entries: seq<Registration>, backend: U64): (resource: Option<Resource>)
    ensures resource.Some? ==> exists i :: 0 <= i < |entries| && entries[i] == Registration(resource.value, backend)
    ensures resource.None? ==> forall i :: 0 <= i < |entries| ==> entries[i].backend != backend
  {
    if entries == [] then None
    else if entries[0].backend == backend then
      assert entries[0] == Registration(entries[0].resource, backend);
      Some(entries[0].resource)
    else
      assert forall i :: 1 <= i < |entries| ==> entries[i] == entries[1..][i - 1];
      Lookup(entries[1..], backend)
  }

  // ----- Invariant -----

  ghost predicate Sorted(entries: seq<Registration>) {
    forall i, j :: 0 <= i < j < |entries| ==> entries[i].backend < entries[j].backend
  }

  ghost predicate DistinctResources(entries: seq<Registration>) {
    forall i, j :: 0 <= i < j < |entries| ==> entries[i].resource != entries[j].resource
  }

  datatype Table = Table(limit: nat, entries: seq<Registration>, next: Option<U64>)

  /** Every entry's token was issued, and the wake token never is. */
  ghost predicate TableOk(t: Table) {
    && |t.entries| <= t.limit
    && Sorted(t.entries) && DistinctResources(t.entries)
    && (forall e :: e in t.entries ==> WAKE < e.backend && IdBelow(e.backend, t.next))
    && (t.next.Some? ==> WAKE < t.next.value)
  }

  /** A backend token that `reserve` has issued. */
  predicate WasIssued(t: Table, backend: U64) {
    WAKE < backend && IdBelow(backend, t.next)
  }

  lemma LookupFinds(entries: seq<Registration>, index: nat)
    requires Sorted(entries) && index < |entries|
    ensures Lookup(entries, entries[index].backend) == Some(entries[index].resource)
  {
    var backend := entries[index].backend;
    assert Lookup(entries, backend).Some?;
    var i :| 0 <= i < |entries| && entries[i] == Registration(Lookup(entries, backend).value, backend);
    SameEntry(entries, i, index);
  }

  lemma SameEntry(entries: seq<Registration>, i: nat, j: nat)
    requires Sorted(entries) && i < |entries| && j < |entries| && entries[i].backend == entries[j].backend
    ensures i == j
  {
  }

  /** Looking up by backend token and by resource are inverse to each other. */
  lemma LookupInvertsBackend(t: Table, resource: Resource, backend: U64)
    requires TableOk(t)
    ensures Lookup(t.entries, backend) == Some(resource) <==> BackendOf(t.entries, resource) == Some(backend)
  {
    var index := PositionOf(t.entries, resource, 0);
    if index.Some? {
      LookupFinds(t.entries, index.value);
    }
    if Lookup(t.entries, backend) == Some(resource) {
      var i :| 0 <= i < |t.entries| && t.entries[i] == Registration(resource, backend);
      assert t.entries[i].resource == t.entries[index.value].resource;
    }
  }

  // ----- Operations -----

  function NextToken(raw: U64): Option<U64> {
    if raw < U64_MAX then Some(raw + 1) else None
  }

  function ReserveOutcome(t: Table, resource: Resource): Result<U64, Failure> {
    if PositionOf(t.entries, resource, 0).Some? then Err(AlreadyRegistered)
    else if |t.entries| >= t.limit then Err(CapacityReached)
    else if t.next.None? then Err(TokenSpaceExhausted)
    else Ok(t.next.value)
  }

  /** A token is consumed even when the selector then refuses the source. */
  function AfterRegister(t: Table, resource: Resource, accepted: bool): Table {
    var backend := ReserveOutcome(t, resource);
    if backend.Err? then t
    else
      var entries := if accepted then t.entries + [Registration(resource, backend.value)] else t.entries;
      t.(entries := entries, next := NextToken(backend.value))
  }

  function AfterDeregister(t: Table, resource: Resource, accepted: bool): Table {
    var index := PositionOf(t.entries, resource, 0);
    if index.None? || !accepted then t
    else t.(entries := t.entries[..index.value] + t.entries[index.value + 1..])
  }

  class Registrations {
    const limit: nat
    var entries: seq<Registration>
    var nextBackend: Option<U64>

    ghost predicate Valid()
      reads this
    {
      TableOk(State())
    }

    ghost function State(): Table
      reads this
    {
      Table(limit, entries, nextBackend)
    }

    constructor (limit: nat)
      ensures Valid()
      ensures State() == Table(limit, [], Some(1))
    {
      this.limit := limit;
      entries, nextBackend := [], Some(1);
    }

    method Reserve(resource: Resource) returns (r: Result<U64, Failure>)
      requires Valid()
      modifies this`nextBackend
      ensures Valid()
      ensures r == ReserveOutcome(old(State()), resource)
      ensures nextBackend == if r.Ok? then NextToken(r.value) else old(nextBackend)
      ensures r.Ok? ==> WasIssued(State(), r.value) && forall e :: e in entries ==> e.backend < r.value
    {
      if PositionOf(entries, resource, 0).Some? {
        return Err(AlreadyRegistered);
      }
      if |entries| >= limit {
        return Err(CapacityReached);
      }
      if nextBackend.None? {
        return Err(TokenSpaceExhausted);
      }
      var raw := nextBackend.value;
      nextBackend := NextToken(raw);
      return Ok(raw);
    }

    /** The source asserts these preconditions; `Register` meets them in every reachable state. */
    method Commit(resource: Resource, backend: U64)
      requires Valid()
      requires PositionOf(entries, resource, 0).None? && Lookup(entries, backend).None?
      requires |entries| < limit
      requires entries != [] ==> entries[|entries| - 1].backend < backend
      requires WasIssued(State(), backend)
      modifies this`entries
      ensures Valid()
      ensures entries == old(entries) + [Registration(resource, backend)]
    {
      CommitKeepsOrder(entries, Registration(resource, backend));
      entries := entries + [Registration(resource, backend)];
    }

    /** Reserves a token, asks the selector, and commits if it accepted. */
    method Register(resource: Resource, accepted: bool) returns (r: Result<U64, Failure>)
      requires Valid()
      modifies this
      ensures Valid()
      ensures State() == AfterRegister(old(State()), resource, accepted)
      ensures r == if ReserveOutcome(old(State()), resource).Ok? && !accepted then Err(External) else ReserveOutcome(old(State()), resource)
    {
      var backend := Reserve(resource);
      if backend.Err? {
        return backend;
      }
      if !accepted {
        return Err(External);
      }
      Commit(resource, backend.value);
      return backend;
    }

    /** Binary search over the sorted tokens agrees with a scan from the front. */
    method ResourceOf(backend: U64) returns (resource: Option<Resource>)
      requires Valid()
      ensures resource == Lookup(entries, backend)
    {
      var low, high := 0, |entries|;
      while low < high
        invariant low <= high <= |entries|
        invariant forall i :: 0 <= i < low ==> entries[i].backend < backend
        invariant forall i :: high <= i < |entries| ==> entries[i].backend > backend
      {
        var middle := low + (high - low) / 2;
        if entries[middle].backend == backend {
          LookupFinds(entries, middle);
          return Some(entries[middle].resource);
        }
        if entries[middle].backend < backend {
          low := middle + 1;
        } else {
          high := middle;
        }
      }
      return None;
    }

    method Deregister(resource: Resource, accepted: bool) returns (r: Result<(), Failure>)
      requires Valid()
      modifies this
      ensures Valid()
      ensures State() == AfterDeregister(old(State()), resource, accepted)
      ensures r.Ok? ==> forall e :: e in entries <==> e in old(entries) && e.resource != resource
      ensures r.Err? ==> entries == old(entries)
      ensures r == if BackendOf(old(entries), resource).None? then Err(NotRegistered) else if accepted then Ok(()) else Err(External)
    {
      var index := PositionOf(entries, resource, 0);
      if index.None? {
        return Err(NotRegistered);
      }
      if !accepted {
        return Err(External);
      }
      RemoveKeepsOrder(entries, index.value);
      OnlyEntry(State(), entries[index.value]);
      entries := entries[..index.value] + entries[index.value + 1..];
      return Ok(());
    }
  }

  lemma CommitKeepsOrder(entries: seq<Registration>, entry: Registration)
    requires Sorted(entries) && DistinctResources(entries) && PositionOf(entries, entry.resource, 0).None?
    requires entries != [] ==> entries[|entries| - 1].backend < entry.backend
    ensures Sorted(entries + [entry]) && DistinctResources(entries + [entry])
  {
  }

  lemma RemoveKeepsOrder(entries: seq<Registration>, index: nat)
    requires Sorted(entries) && DistinctResources(entries) && index < |entries|
    ensures var left := entries[..index] + entries[index + 1..];
            && Sorted(left) && DistinctResources(left)
            && forall e :: e in left <==> e in entries && e != entries[index]
  {
    var left := entries[..index] + entries[index + 1..];
    assert forall i :: 0 <= i < |left| ==> left[i] == entries[if i < index then i else i + 1];
    forall e | e in entries && e != entries[index] ensures e in left {
      var i :| 0 <= i < |entries| && entries[i] == e;
      assert left[if i < index then i else i - 1] == e;
    }
  }

  // ----- Runs -----

  datatype Op = Register(resource: Resource, accepted: bool) | Deregister(resource: Resource, accepted: bool)

  function After(t: Table, op: Op): Table {
    match op
    case Register(resource, accepted) => AfterRegister(t, resource, accepted)
    case Deregister(resource, accepted) => AfterDeregister(t, resource, accepted)
  }

  ghost function Run(t: Table, ops: seq<Op>): Table
    decreases |ops|
  {
    if ops == [] then t else Run(After(t, ops[0]), ops[1..])
  }

  lemma RegisterKeepsTable(t: Table, resource: Resource, accepted: bool)
    requires TableOk(t)
    ensures TableOk(AfterRegister(t, resource, accepted))
  {
    var backend := ReserveOutcome(t, resource);
    if backend.Ok? && accepted {
      CommitKeepsOrder(t.entries, Registration(resource, backend.value));
    }
  }

  lemma DeregisterKeepsTable(t: Table, resource: Resource, accepted: bool)
    requires TableOk(t)
    ensures TableOk(AfterDeregister(t, resource, accepted))
  {
    var index := PositionOf(t.entries, resource, 0);
    if index.Some? {
      RemoveKeepsOrder(t.entries, index.value);
    }
  }

  lemma OpKeepsTable(t: Table, op: Op)
    requires TableOk(t)
    ensures TableOk(After(t, op))
  {
    hide TableOk, AfterRegister, AfterDeregister;
    match op
    case Register(resource, accepted) => RegisterKeepsTable(t, resource, accepted);
    case Deregister(resource, accepted) => DeregisterKeepsTable(t, resource, accepted);
  }

  /** Issued tokens stay issued, and only a new token can get a new entry. */
  lemma OpKeepsIssued(t: Table, op: Op)
    requires TableOk(t)
    ensures forall backend :: WasIssued(t, backend) ==> WasIssued(After(t, op), backend)
    ensures forall e :: e in After(t, op).entries && WasIssued(t, e.backend) ==> e in t.entries
  {
    hide Sorted, DistinctResources;
  }

  /**
   * An accepted registration gives the resource the next token and disturbs nobody else. A refusal names
   * exactly its own cause; only a refusal by the selector still consumes the token.
   */
  lemma RegisterIsExact(t: Table, resource: Resource, accepted: bool, other: Resource, token: U64)
    requires TableOk(t) && other != resource
    ensures var outcome := ReserveOutcome(t, resource);
            var t' := AfterRegister(t, resource, accepted);
            && (outcome == Err(AlreadyRegistered) <==> exists e :: e in t.entries && e.resource == resource)
            && (outcome == Err(CapacityReached) <==> (forall e :: e in t.entries ==> e.resource != resource) && |t.entries| == t.limit)
            && (outcome == Err(TokenSpaceExhausted) <==>
                  (forall e :: e in t.entries ==> e.resource != resource) && |t.entries| < t.limit && t.next.None?)
            && (outcome.Ok? <==>
                  (forall e :: e in t.entries ==> e.resource != resource) && |t.entries| < t.limit && t.next.Some?)
            && (outcome.Ok? ==> outcome.value == t.next.value)
            && (outcome.Err? ==> t' == t)
            && (outcome.Ok? ==>
                  && t'.limit == t.limit
                  && t'.next == (if t.next.value < U64_MAX then Some(t.next.value + 1) else None)
                  && BackendOf(t'.entries, resource) == (if accepted then Some(t.next.value) else None)
                  && BackendOf(t'.entries, other) == BackendOf(t.entries, other)
                  && Lookup(t'.entries, t.next.value) == (if accepted then Some(resource) else None)
                  && (token != t.next.value ==> Lookup(t'.entries, token) == Lookup(t.entries, token)))
  {
    hide PositionOf, Lookup, Sorted, DistinctResources;
    var position := PositionOf(t.entries, resource, 0);
    assert position.Some? ==> t.entries[position.value] in t.entries;
    if ReserveOutcome(t, resource).Ok? {
      var entry := Registration(resource, t.next.value);
      RegisterKeepsTable(t, resource, accepted);
      if accepted {
        assert forall e :: e in t.entries + [entry] <==> e in t.entries || e == entry;
        SameAnswers(t, AfterRegister(t, resource, accepted), other, token, entry);
        EntryAnswers(AfterRegister(t, resource, accepted), entry);
      } else {
        NoAnswer(t, resource, t.next.value);
      }
    }
  }

  /** What a registered entry answers. */
  lemma EntryAnswers(t: Table, entry: Registration)
    requires TableOk(t) && entry in t.entries
    ensures BackendOf(t.entries, entry.resource) == Some(entry.backend)
    ensures Lookup(t.entries, entry.backend) == Some(entry.resource)
  {
    var i :| 0 <= i < |t.entries| && t.entries[i] == entry;
    LookupFinds(t.entries, i);
    LookupInvertsBackend(t, entry.resource, entry.backend);
  }

  lemma NoAnswer(t: Table, resource: Resource, token: U64)
    requires TableOk(t)
    ensures (forall e :: e in t.entries ==> e.resource != resource) ==> BackendOf(t.entries, resource) == None
    ensures (forall e :: e in t.entries ==> e.backend != token) ==> Lookup(t.entries, token) == None
  {
  }

  /** Tables that differ in one entry answer alike for every other resource and token. */
  lemma SameAnswers(t: Table, t': Table, other: Resource, token: U64, entry: Registration)
    requires TableOk(t) && TableOk(t')
    requires forall e: Registration :: e != entry ==> (e in t.entries <==> e in t'.entries)
    ensures other != entry.resource ==> BackendOf(t'.entries, other) == BackendOf(t.entries, other)
    ensures token != entry.backend ==> Lookup(t'.entries, token) == Lookup(t.entries, token)
  {
    if other != entry.resource {
      ResourceAgrees(t, t', other);
    }
    if token != entry.backend {
      TokenAgrees(t, t', token);
    }
  }

  lemma ResourceAgrees(t: Table, t': Table, resource: Resource)
    requires TableOk(t) && TableOk(t')
    requires forall e: Registration :: e.resource == resource ==> (e in t.entries <==> e in t'.entries)
    ensures BackendOf(t'.entries, resource) == BackendOf(t.entries, resource)
  {
    ResourceFound(t, t', resource);
    ResourceFound(t', t, resource);
  }

  lemma ResourceFound(t: Table, t': Table, resource: Resource)
    requires TableOk(t) && TableOk(t')
    requires forall e: Registration :: e.resource == resource && e in t.entries ==> e in t'.entries
    ensures BackendOf(t.entries, resource).Some? ==> BackendOf(t'.entries, resource) == BackendOf(t.entries, resource)
  {
    hide TableOk;
    var i := PositionOf(t.entries, resource, 0);
    if i.Some? {
      EntryAnswers(t', t.entries[i.value]);
    }
  }

  lemma TokenAgrees(t: Table, t': Table, token: U64)
    requires TableOk(t) && TableOk(t')
    requires forall e: Registration :: e.backend == token ==> (e in t.entries <==> e in t'.entries)
    ensures Lookup(t'.entries, token) == Lookup(t.entries, token)
  {
    TokenFound(t, t', token);
    TokenFound(t', t, token);
  }

  lemma TokenFound(t: Table, t': Table, token: U64)
    requires TableOk(t) && TableOk(t')
    requires forall e: Registration :: e.backend == token && e in t.entries ==> e in t'.entries
    ensures Lookup(t.entries, token).Some? ==> Lookup(t'.entries, token) == Lookup(t.entries, token)
  {
    hide TableOk;
    if Lookup(t.entries, token).Some? {
      EntryAnswers(t', Registration(Lookup(t.entries, token).value, token));
    }
  }

  /** An accepted deregistration takes out the named resource and its token, and disturbs nobody else. */
  lemma DeregisterIsExact(t: Table, resource: Resource, accepted: bool, other: Resource, token: U64)
    requires TableOk(t) && other != resource
    ensures var t' := AfterDeregister(t, resource, accepted);
            && t'.limit == t.limit && t'.next == t.next
            && (BackendOf(t.entries, resource) == None || !accepted ==> t' == t)
            && (accepted ==> BackendOf(t'.entries, resource) == None)
            && BackendOf(t'.entries, other) == BackendOf(t.entries, other)
            && Lookup(t'.entries, token)
               == if accepted && BackendOf(t.entries, resource) == Some(token) then None else Lookup(t.entries, token)
  {
    var index := PositionOf(t.entries, resource, 0);
    if index.Some? && accepted {
      var entry := t.entries[index.value];
      var t' := AfterDeregister(t, resource, accepted);
      DeregisterKeepsTable(t, resource, accepted);
      RemoveKeepsOrder(t.entries, index.value);
      SameAnswers(t, t', other, token, entry);
      OnlyEntry(t, entry);
      NoAnswer(t', resource, entry.backend);
    }
  }

  lemma OnlyEntry(t: Table, entry: Registration)
    requires TableOk(t) && entry in t.entries
    ensures forall e :: e in t.entries && (e.resource == entry.resource || e.backend == entry.backend) ==> e == entry
  {
    forall e | e in t.entries && (e.resource == entry.resource || e.backend == entry.backend) ensures e == entry {
      EntryAnswers(t, e);
      EntryAnswers(t, entry);
    }
  }

  /** Over any mix of registrations, refused ones and removals the table stays sorted and token 0 never resolves. */
  lemma {:induction false} RunKeepsTable(t: Table, ops: seq<Op>)
    requires TableOk(t)
    ensures TableOk(Run(t, ops)) && Lookup(Run(t, ops).entries, WAKE).None?
    decreases |ops|
  {
    hide TableOk, After;
    if ops != [] {
      OpKeepsTable(t, ops[0]);
      RunKeepsTable(After(t, ops[0]), ops[1..]);
    } else {
      WakeNeverResolves(t);
    }
  }

  lemma WakeNeverResolves(t: Table)
    requires TableOk(t)
    ensures Lookup(t.entries, WAKE).None?
  {
  }

  /**
   * An issued backend token is never given to another resource: for the rest of any run it resolves
   * to the resource it resolves to now or to nothing, and once retired it never resolves again.
   */
  lemma {:induction false} TokensNeverReused(t: Table, ops: seq<Op>, backend: U64)
    requires TableOk(t) && WasIssued(t, backend)
    ensures var later := Lookup(Run(t, ops).entries, backend);
            later.Some? ==> later == Lookup(t.entries, backend)
    decreases |ops|
  {
    hide TableOk, After, WasIssued, Lookup;
    if ops != [] {
      OpKeepsTable(t, ops[0]);
      OpKeepsIssued(t, ops[0]);
      OpNeverRebinds(t, ops[0], backend);
      TokensNeverReused(After(t, ops[0]), ops[1..], backend);
    }
  }

  lemma OpNeverRebinds(t: Table, op: Op, backend: U64)
    requires TableOk(t) && WasIssued(t, backend)
    ensures var later := Lookup(After(t, op).entries, backend);
            later.Some? ==> later == Lookup(t.entries, backend)
  {
    hide After;
    OpKeepsIssued(t, op);
    var later := Lookup(After(t, op).entries, backend);
    if later.Some? {
      assert Registration(later.value, backend) in t.entries;
      var i :| 0 <= i < |t.entries| && t.entries[i] == Registration(later.value, backend);
      LookupFinds(t.entries, i);
    }
  }
}
