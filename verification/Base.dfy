/** Fixed-width numbers, optional results and weighted sums shared by every model. */
module Base {

  const U64_MAX: int := 0xFFFF_FFFF_FFFF_FFFF

  /** A 64-bit unsigned value: moments, identities, generations and byte counts. */
  type U64 = x: int | 0 <= x <= U64_MAX

  datatype Option<+T> = None | Some(value: T)

  datatype Result<+T, +E> = Ok(value: T) | Err(error: E)

  /** `checked_add` on a 64-bit value. */
  function CheckedAdd(a: U64, b: U64): (r: Option<U64>)
    ensures r.Some? <==> a + b <= U64_MAX
    ensures r.Some? ==> r.value == a + b
  {
    if a + b <= U64_MAX then Some(a + b) else None
  }

  /** An identity lies below the next identity to issue; `None` means every identity was issued. */
  predicate IdBelow(id: U64, next: Option<U64>) {
    next.Some? ==> id < next.value
  }

  /** Identity counters only move forward; an exhausted counter stays exhausted. */
  predicate IdAdvances(before: Option<U64>, after: Option<U64>) {
    match (before, after)
    case (Some(a), Some(b)) => a <= b
    case (None, Some(_)) => false
    case (_, None) => true
  }

  /** Sum of the weights of every value retained by a map. */
  ghost function Total<K(!new), V(!new)>(m: map<K, V>, weight: V -> nat): nat
    decreases |m|
  {
    if m == map[] then 0
    else
      var k :| k in m;
      weight(m[k]) + Total(m - {k}, weight)
  }

  lemma {:induction false} TotalRemove<K(!new), V(!new)>(m: map<K, V>, weight: V -> nat, k: K)
    requires k in m
    ensures Total(m, weight) == weight(m[k]) + Total(m - {k}, weight)
    decreases |m|
  {
    var j :| j in m && Total(m, weight) == weight(m[j]) + Total(m - {j}, weight);
    if j != k {
      TotalRemove(m - {j}, weight, k);
      TotalRemove(m - {k}, weight, j);
      assert m - {j} - {k} == m - {k} - {j};
    }
  }

  lemma TotalInsert<K(!new), V(!new)>(m: map<K, V>, weight: V -> nat, k: K, v: V)
    requires k !in m
    ensures Total(m[k := v], weight) == weight(v) + Total(m, weight)
  {
    TotalRemove(m[k := v], weight, k);
    assert m[k := v] - {k} == m;
  }

  /** A map agrees with another on every key it has. */
  ghost predicate SubMap<K(!new), V(!new)>(part: map<K, V>, whole: map<K, V>) {
    forall k :: k in part ==> k in whole && whole[k] == part[k]
  }

  lemma {:induction false} SubMapBounds<K(!new), V(!new)>(part: map<K, V>, whole: map<K, V>, weight: V -> nat)
    requires SubMap(part, whole)
    ensures |part| <= |whole|
    ensures Total(part, weight) <= Total(whole, weight)
    decreases |part|
  {
    if part != map[] {
      var k :| k in part;
      SubMapBounds(part - {k}, whole - {k}, weight);
      TotalRemove(part, weight, k);
      TotalRemove(whole, weight, k);
    }
  }
}
