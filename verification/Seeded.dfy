/** Seeded selection: the scaling of one 64-bit draw to an index, and how evenly it spreads draws. */
module Seeded {
  import opened Base
  import opened Consumer
  import opened Actions
  import opened Schedulers

  const DRAWS: nat := 0x1_0000_0000_0000_0000

  /** `(draw * actions) >> 64` in 128-bit arithmetic. */
  function Scaled(draw: U64, actions: nat): nat {
    (draw * actions) / DRAWS
  }

  /** Seeded choice, the n-th selection consuming the n-th draw of the entropy stream. */
  function SeededChoose(stream: U64 -> U64, selections: U64, now: Moment, ready: seq<ActionKey>): (r: (U64, Result<ActionKey, SchedulerError>))
    ensures r.1.Ok? <==> selections < U64_MAX && 0 < |ready| <= U64_MAX
    ensures r.1.Ok? ==>
              && r.0 == selections + 1
              && exists i :: 0 <= i < |ready| && InPart(stream(selections), i, |ready|) && r.1.value == ready[i]
    ensures r.1.Err? ==> r.0 == selections
    ensures r.1 == Err(SelectionsExhausted) <==> selections == U64_MAX
    ensures r.1 == Err(ReadySetTooLarge(|ready|)) <==> selections < U64_MAX && |ready| > U64_MAX
  {
    if selections == U64_MAX then (selections, Err(SelectionsExhausted))
    else if |ready| > U64_MAX then (selections, Err(ReadySetTooLarge(|ready|)))
    else if ready == [] then (selections, Err(Custom(0)))
    else
      ScaledInRange(stream(selections), |ready|);
      PartIsScaled(stream(selections), Scaled(stream(selections), |ready|), |ready|);
      (selections + 1, Ok(ready[Scaled(stream(selections), |ready|)]))
  }

  function SeededPolicy(stream: U64 -> U64): Policy<U64> {
    Policy((selections: U64, now, ready) => SeededChoose(stream, selections, now, ready), NoCommit, NoFinish)
  }

  lemma ScaledInRange(draw: U64, actions: nat)
    requires 0 < actions
    ensures Scaled(draw, actions) < actions
  {
    assert draw * actions <= U64_MAX * actions < actions * DRAWS;
  }

  /** The first draw selecting index `i` or later: the ceiling of `i * 2^64 / actions`. */
  function FirstDraw(i: nat, actions: nat): nat
    requires 0 < actions
  {
    (i * DRAWS + actions - 1) / actions
  }

  lemma CeilingIsLeast(x: nat, n: nat, d: nat)
    requires 0 < n
    ensures (x + n - 1) / n <= d <==> x <= d * n
  {
    var c := (x + n - 1) / n;
    var rest := (x + n - 1) % n;
    assert x + n - 1 == c * n + rest;
    if c <= d {
      assert c * n <= d * n;
    } else {
      assert (d + 1) * n <= c * n;
      assert (d + 1) * n == d * n + n;
    }
  }

  /** The draws selecting an index are exactly one interval. */
  lemma DrawsOfIndex(draw: U64, i: nat, actions: nat)
    requires 0 < actions
    ensures Scaled(draw, actions) == i <==> FirstDraw(i, actions) <= draw < FirstDraw(i + 1, actions)
  {
    CeilingIsLeast(i * DRAWS, actions, draw);
    CeilingIsLeast((i + 1) * DRAWS, actions, draw);
  }

  /** Every interval has the floor of `2^64 / actions` draws or one more. */
  lemma IntervalWidth(i: nat, actions: nat)
    requires 0 < actions
    ensures DRAWS / actions <= FirstDraw(i + 1, actions) - FirstDraw(i, actions) <= DRAWS / actions + 1
  {
    hide FirstDraw;
    var a, b := FirstDraw(i, actions), FirstDraw(i + 1, actions);
    FirstDrawGap(i, actions);
    FirstDrawGap(i + 1, actions);
    WidthOf(a, b, i * DRAWS, actions, DRAWS);
  }

  lemma FirstDrawGap(i: nat, actions: nat)
    requires 0 < actions
    ensures i * DRAWS <= FirstDraw(i, actions) * actions < i * DRAWS + actions
  {
    CeilingGap(i * DRAWS, actions, FirstDraw(i, actions));
  }

  lemma CeilingGap(x: nat, n: nat, c: nat)
    requires 0 < n && c == (x + n - 1) / n
    ensures x <= c * n < x + n
  {
    var rest := (x + n - 1) % n;
    assert x + n - 1 == c * n + rest;
  }

  lemma WidthOf(a: nat, b: nat, x: nat, n: nat, d: nat)
    requires 0 < n && x <= a * n < x + n && x + d <= b * n < x + d + n
    ensures d / n <= b - a <= d / n + 1
  {
    Distributes(b, a, n);
    WidthBetween(b - a, n, d);
  }

  lemma Distributes(b: int, a: int, n: int)
    ensures (b - a) * n == b * n - a * n
  {
  }

  lemma WidthBetween(w: int, n: nat, d: nat)
    requires 0 < n && d - n < w * n < d + n
    ensures d / n <= w <= d / n + 1
  {
    var q := d / n;
    assert q * n <= d < q * n + n;
    assert w <= q - 1 ==> w * n <= (q - 1) * n;
    assert w >= q + 2 ==> w * n >= (q + 2) * n;
  }

  predicate Within(d: int, lo: nat, hi: nat) {
    lo <= d < hi
  }

  lemma {:induction false} IntervalSize(lo: nat, hi: nat, draws: set<int>)
    requires lo <= hi && forall d :: d in draws <==> Within(d, lo, hi)
    ensures |draws| == hi - lo
    decreases hi - lo
  {
    if lo < hi {
      assert Within(hi - 1, lo, hi);
      var fewer := draws - {hi - 1};
      forall d ensures d in fewer <==> Within(d, lo, hi - 1) {
        assert d in draws <==> Within(d, lo, hi);
      }
      IntervalSize(lo, hi - 1, fewer);
    } else {
      forall d ensures d !in draws {
        assert d in draws <==> Within(d, lo, hi);
      }
    }
  }

  /** How many of the 2^64 draws select index `i`. */
  ghost function Votes(i: nat, actions: nat): nat {
    |set d: int | 0 <= d < DRAWS && Scaled(d, actions) == i|
  }

  lemma VotesAreWidth(i: nat, actions: nat)
    requires i < actions <= DRAWS
    ensures Votes(i, actions) == FirstDraw(i + 1, actions) - FirstDraw(i, actions)
  {
    var lo, hi := FirstDraw(i, actions), FirstDraw(i + 1, actions);
    IntervalWidth(i, actions);
    CeilingIsLeast((i + 1) * DRAWS, actions, DRAWS);
    assert (i + 1) * DRAWS <= actions * DRAWS;
    var draws := set d: int | 0 <= d < DRAWS && Scaled(d, actions) == i;
    forall d: int ensures d in draws <==> Within(d, lo, hi) {
      if 0 <= d < DRAWS {
        DrawsOfIndex(d, i, actions);
      }
    }
    IntervalSize(lo, hi, draws);
  }

  /**
   * Fair scaling: for every nonempty ready set a 64-bit length can describe, each index is selected
   * by at least one draw, and any two indices by numbers of draws that differ by at most one.
   */
  lemma SelectionIsFair(i: nat, j: nat, actions: nat)
    requires i < actions && j < actions && actions <= U64_MAX
    ensures 0 < Votes(i, actions)
    ensures -1 <= Votes(i, actions) - Votes(j, actions) <= 1
  {
    hide Votes, FirstDraw;
    VotesAreWidth(i, actions);
    VotesAreWidth(j, actions);
    IntervalWidth(i, actions);
    IntervalWidth(j, actions);
    QuotientIsPositive(DRAWS, actions);
  }

  lemma QuotientIsPositive(d: nat, n: nat)
    requires 0 < n <= d
    ensures d / n >= 1
  {
  }

  // ----- The choice itself -----

  /**
   * A successful selection is exactly the action at the scaled index: the `i` for which the draw at this
   * selection count lies in the `i`-th of `|ready|` equal parts of the draw range.
   */
  lemma ChoiceIsScaled(stream: U64 -> U64, selections: U64, now: Moment, ready: seq<ActionKey>)
    requires selections < U64_MAX && 0 < |ready| <= U64_MAX
    ensures exists i :: 0 <= i < |ready| && InPart(stream(selections), i, |ready|)
    ensures forall i :: 0 <= i < |ready| && InPart(stream(selections), i, |ready|) ==>
                          SeededChoose(stream, selections, now, ready) == (selections + 1, Ok(ready[i]))
  {
    var n := |ready|;
    var draw := stream(selections);
    ScaledInRange(draw, n);
    forall i | 0 <= i < n ensures InPart(draw, i, n) <==> i == Scaled(draw, n) {
      QuotientIs(draw * n, DRAWS, i);
    }
    assert InPart(draw, Scaled(draw, n), n);
  }

  predicate InPart(draw: U64, i: nat, actions: nat) {
    i * DRAWS <= draw * actions < (i + 1) * DRAWS
  }

  lemma QuotientIs(x: nat, d: nat, q: nat)
    requires 0 < d
    ensures x / d == q <==> q * d <= x < (q + 1) * d
  {
    var r := x / d;
    assert r * d <= x < r * d + d;
    if q < r {
      assert (q + 1) * d <= r * d;
    } else if q > r {
      assert (r + 1) * d <= q * d;
    }
  }

  /** The entropy stream with another draw at one position. */
  function WithDraw(stream: U64 -> U64, at: U64, draw: U64): U64 -> U64 {
    (n: U64) => if n == at then draw else stream(n)
  }

  /** Whether the draw at this selection makes the scheduler choose one action. */
  ghost predicate Chooses(stream: U64 -> U64, selections: U64, now: Moment, ready: seq<ActionKey>, draw: int, key: ActionKey) {
    0 <= draw < DRAWS && SeededChoose(WithDraw(stream, selections, draw), selections, now, ready).1 == Ok(key)
  }

  /** How many of the 2^64 values of the draw at this selection choose one action. */
  ghost function Choosers(stream: U64 -> U64, selections: U64, now: Moment, ready: seq<ActionKey>, key: ActionKey): nat {
    |set d: int | 0 <= d < DRAWS && Chooses(stream, selections, now, ready, d, key)|
  }

  lemma ChoosersAreVotes(stream: U64 -> U64, selections: U64, now: Moment, ready: seq<ActionKey>, i: nat)
    requires selections < U64_MAX && i < |ready| <= U64_MAX
    requires forall x, y :: 0 <= x < y < |ready| ==> ready[x] != ready[y]
    ensures Choosers(stream, selections, now, ready, ready[i]) == Votes(i, |ready|)
  {
    hide SeededChoose, Scaled;
    forall d: int | 0 <= d < DRAWS
      ensures Chooses(stream, selections, now, ready, d, ready[i]) <==> Scaled(d, |ready|) == i
    {
      ChoiceIsScaled(WithDraw(stream, selections, d), selections, now, ready);
      PartIsScaled(d, i, |ready|);
      var j :| 0 <= j < |ready| && InPart(WithDraw(stream, selections, d)(selections), j, |ready|);
      PartIsScaled(d, j, |ready|);
    }
    assert (set d: int | 0 <= d < DRAWS && Chooses(stream, selections, now, ready, d, ready[i]))
        == (set d: int | 0 <= d < DRAWS && Scaled(d, |ready|) == i);
  }

  lemma PartIsScaled(draw: U64, i: nat, actions: nat)
    ensures InPart(draw, i, actions) <==> Scaled(draw, actions) == i
  {
    QuotientIs(draw * actions, DRAWS, i);
  }

  /**
   * Fair choice: at any selection over a duplicate-free ready set, every ready action is chosen by some
   * value of the draw, and any two by numbers of values that differ by at most one.
   */
  lemma ChoiceIsFair(stream: U64 -> U64, selections: U64, now: Moment, ready: seq<ActionKey>, i: nat, j: nat)
    requires selections < U64_MAX && i < |ready| && j < |ready| && |ready| <= U64_MAX
    requires forall x, y :: 0 <= x < y < |ready| ==> ready[x] != ready[y]
    ensures 0 < Choosers(stream, selections, now, ready, ready[i])
    ensures -1 <= Choosers(stream, selections, now, ready, ready[i]) - Choosers(stream, selections, now, ready, ready[j]) <= 1
  {
    ChoosersAreVotes(stream, selections, now, ready, i);
    ChoosersAreVotes(stream, selections, now, ready, j);
    SelectionIsFair(i, j, |ready|);
  }
}
