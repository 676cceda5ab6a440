/**
 A draw by weight as the router makes it: the draw is in [0, total), and the first
 weight that brings it to zero or below wins, which gives the first candidate one
 draw more than its weight and the last one draw less.
 */
module Drawing {
  import opened Words
  import opened DiffLogs

  function Sum(weights: seq<Word>): nat {
    if weights == [] then 0 else Sum(weights[..|weights| - 1]) + weights[|weights| - 1]
  }

  predicate Positive(weights: seq<Word>) {
    forall i :: 0 <= i < |weights| ==> weights[i] > 0
  }

  /** Whether a draw lands on index i. */
  predicate Picks(weights: seq<Word>, draw: int, i: nat) {
    && i < |weights|
    && (i > 0 ==> draw > Sum(weights[..i]))
    && draw <= Sum(weights[..i + 1])
  }

  lemma {:induction false} SumStep(weights: seq<Word>, i: nat)
    requires i < |weights|
    ensures Sum(weights[..i + 1]) == Sum(weights[..i]) + weights[i]
  {
    assert weights[..i + 1][..i] == weights[..i];
  }

  lemma {:induction false} SumGrows(weights: seq<Word>, i: nat, j: nat)
    requires i <= j <= |weights| && Positive(weights)
    ensures Sum(weights[..i]) + (j - i) <= Sum(weights[..j])
    decreases j
  {
    if i < j {
      SumGrows(weights, i, j - 1);
      SumStep(weights, j - 1);
    }
  }

  /** Draws an index. None stands for the panic of a total that is no positive int64, or of no winner. */
  method WeightedRandomInt(weights: seq<Word>) returns (r: Option<nat>, ghost draw: int)
    ensures r.Some? ==> r.value < |weights|
    ensures weights != [] && Positive(weights) && Sum(weights) <= MAX_INT64 ==>
              0 <= draw < Sum(weights) && r.Some? && Picks(weights, draw, r.value)
  {
    draw := 0;
    var total: Word := 0;
    for i := 0 to |weights|
      invariant total == UInt64(Sum(weights[..i]))
    {
      SumStep(weights, i);
      UInt64Absorbs(Sum(weights[..i]), weights[i]);
      total := UInt64(total + weights[i]);
    }
    assert weights[..|weights|] == weights;
    var n := Int64(total);
    if weights != [] && Positive(weights) && Sum(weights) <= MAX_INT64 { SumGrows(weights, 0, |weights|); }
    if n <= 0 { return None, draw; }
    var random: int :| 0 <= random < n;
    draw := random;
    r := Lands(weights, random);
  }

  /** The index a draw lands on. */
  method Lands(weights: seq<Word>, draw: int) returns (r: Option<nat>)
    ensures r.Some? ==> r.value < |weights|
    ensures Positive(weights) && 0 <= draw < Sum(weights) <= MAX_INT64 ==> r.Some? && Picks(weights, draw, r.value)
  {
    var random := draw;
    for i := 0 to |weights|
      invariant Positive(weights) && 0 <= draw < Sum(weights) <= MAX_INT64 ==>
                  random == draw - Sum(weights[..i]) && (i > 0 ==> random > 0)
    {
      SumStep(weights, i);
      if Positive(weights) && 0 <= draw < Sum(weights) <= MAX_INT64 {
        SumGrows(weights, i + 1, |weights|);
        assert weights[..|weights|] == weights;
      }
      random := Int64(random - Int64(weights[i]));
      if random <= 0 { return Some(i); }
    }
    assert weights[..|weights|] == weights;
    return None;
  }

  // ----- how often each index is drawn

  /** The draws that land on index i. */
  ghost function Draws(weights: seq<Word>, i: nat): set<int> {
    set draw: int | 0 <= draw < Sum(weights) && Picks(weights, draw, i)
  }

  /** No draw lands on two indices. */
  lemma {:induction false} PicksOne(weights: seq<Word>, draw: int, i: nat, j: nat)
    requires Positive(weights) && Picks(weights, draw, i) && Picks(weights, draw, j)
    ensures i == j
  {
    if i < j { SumGrows(weights, i + 1, j); } else if j < i { SumGrows(weights, j + 1, i); }
  }

  lemma {:induction false} PicksSome(weights: seq<Word>, draw: int, k: nat) returns (i: nat)
    requires 0 < k <= |weights| && 0 <= draw <= Sum(weights[..k])
    ensures Picks(weights, draw, i)
  {
    hide Sum;
    if k > 1 && draw <= Sum(weights[..k - 1]) { i := PicksSome(weights, draw, k - 1); } else { i := k - 1; }
  }

  /** Every draw lands on one index and no other. */
  lemma {:induction false} PicksOnce(weights: seq<Word>, draw: int) returns (i: nat)
    requires Positive(weights) && 0 <= draw < Sum(weights)
    ensures i < |weights| && draw in Draws(weights, i)
    ensures forall j :: 0 <= j < |weights| && draw in Draws(weights, j) ==> j == i
  {
    assert weights[..|weights|] == weights;
    i := PicksSome(weights, draw, |weights|);
    forall j | 0 <= j < |weights| && draw in Draws(weights, j) ensures j == i { PicksOne(weights, draw, i, j); }
  }

  predicate Within(x: int, lo: int, hi: int) {
    lo <= x < hi
  }

  ghost function Range(lo: int, hi: int): set<int> {
    set x: int | lo <= x < hi && Within(x, lo, hi)
  }

  lemma {:induction false} RangeSize(lo: int, hi: int)
    requires lo <= hi
    ensures |Range(lo, hi)| == hi - lo
    decreases hi - lo
  {
    if lo < hi {
      RangeSize(lo, hi - 1);
      assert Range(lo, hi) == Range(lo, hi - 1) + {hi - 1};
    } else {
      assert Range(lo, hi) == {};
    }
  }

  /**
   An index is drawn as often as its weight, except that of several the first is
   drawn once more and the last once less.
   */
  lemma {:induction false} DrawsOf(weights: seq<Word>, i: nat)
    requires Positive(weights) && i < |weights|
    ensures |Draws(weights, i)| ==
            weights[i] as int
              + (if i == 0 && |weights| > 1 then 1 else 0) - (if i == |weights| - 1 && |weights| > 1 then 1 else 0)
  {
    var below, above := Sum(weights[..i]), Sum(weights[..i + 1]);
    SumStep(weights, i);
    SumGrows(weights, i + 1, |weights|);
    assert weights[..|weights|] == weights && weights[..0] == [];
    var lo := if i == 0 then 0 else below + 1;
    var hi := if i == |weights| - 1 then above else above + 1;
    assert Draws(weights, i) == Range(lo, hi);
    RangeSize(lo, hi);
  }

  /** The draws landing on the first k indices. */
  ghost function DrawsBefore(weights: seq<Word>, k: nat): nat {
    if k == 0 then 0 else DrawsBefore(weights, k - 1) + |Draws(weights, k - 1)|
  }

  lemma {:induction false} DrawsSum(weights: seq<Word>, k: nat)
    requires Positive(weights) && k <= |weights|
    ensures DrawsBefore(weights, k) == Sum(weights[..k]) + if 0 < k < |weights| then 1 else 0
    decreases k
  {
    if k > 0 {
      DrawsSum(weights, k - 1);
      DrawsOf(weights, k - 1);
      SumStep(weights, k - 1);
    } else {
      assert weights[..0] == [];
    }
  }

  /** Together the indices take every draw. */
  lemma {:induction false} DrawsCover(weights: seq<Word>)
    requires Positive(weights)
    ensures DrawsBefore(weights, |weights|) == Sum(weights)
  {
    DrawsSum(weights, |weights|);
    assert weights[..|weights|] == weights;
  }

  /** An index is never drawn exactly when it is the last of several and weighs one. */
  lemma {:induction false} NeverDrawn(weights: seq<Word>, i: nat)
    requires Positive(weights) && i < |weights|
    ensures Draws(weights, i) == {} <==> |weights| > 1 && i == |weights| - 1 && weights[i] == 1
  {
    DrawsOf(weights, i);
  }
}
