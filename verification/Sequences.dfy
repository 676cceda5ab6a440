/** Places of a sequence, in order: what a loop that skips some elements keeps. */
module Sequences {
  ghost predicate Rising(idx: seq<nat>) {
    forall a, b :: 0 <= a < b < |idx| ==> idx[a] < idx[b]
  }

  /** Rising places, all of them of a sequence of n elements. */
  ghost predicate PlacesOf(idx: seq<nat>, n: nat) {
    Rising(idx) && forall a :: 0 <= a < |idx| ==> idx[a] < n
  }

  /** One more element, kept or not. */
  lemma {:induction false} PlacesSnoc(idx: seq<nat>, n: nat)
    requires PlacesOf(idx, n)
    ensures PlacesOf(idx, n + 1) && PlacesOf(idx + [n], n + 1)
    ensures n !in idx && forall i :: i in idx + [n] <==> i in idx || i == n
  {
  }

  // ----- runs of elements, the first `heads` of them without the element that heads it

  function Spares<T>(runs: seq<seq<T>>, heads: nat): seq<T> {
    if runs == [] then []
    else
      var init, last := Spares(runs[..|runs| - 1], heads), runs[|runs| - 1];
      init + if |runs| <= heads && last != [] then last[1..] else last
  }

  ghost predicate Spare<T>(runs: seq<seq<T>>, heads: nat, k: int, p: int) {
    0 <= k < |runs| && (if k < heads then 1 else 0) <= p < |runs[k]|
  }

  ghost predicate Holds<T>(runs: seq<seq<T>>, heads: nat, x: T) {
    exists k, p :: Spare(runs, heads, k, p) && runs[k][p] == x
  }

  /** No element is at two places beyond the heads. */
  ghost predicate Once<T>(runs: seq<seq<T>>, heads: nat) {
    forall k, p, l, q :: Spare(runs, heads, k, p) && Spare(runs, heads, l, q) && runs[k][p] == runs[l][q] ==>
      k == l && p == q
  }

  ghost predicate Unique<T>(s: seq<T>) {
    forall i, j :: 0 <= i < j < |s| ==> s[i] != s[j]
  }

  lemma {:induction false} SparesSnoc<T>(runs: seq<seq<T>>, run: seq<T>, heads: nat)
    ensures Spares(runs + [run], heads) == Spares(runs, heads) + if |runs| < heads && run != [] then run[1..] else run
  {
    assert (runs + [run])[..|runs|] == runs;
  }

  lemma {:induction false} SparesGrow<T>(runs: seq<seq<T>>, heads: nat, a: nat, b: nat)
    requires a <= b <= |runs|
    ensures |Spares(runs[..a], heads)| <= |Spares(runs[..b], heads)|
    decreases b
  {
    if a < b {
      SparesGrow(runs, heads, a, b - 1);
      assert runs[..b] == runs[..b - 1] + [runs[b - 1]];
      SparesSnoc(runs[..b - 1], runs[b - 1], heads);
    }
  }

  lemma {:induction false} SpareAt<T>(runs: seq<seq<T>>, heads: nat, k: nat, p: nat) returns (i: nat)
    requires Spare(runs, heads, k, p)
    ensures |Spares(runs[..k], heads)| <= i < |Spares(runs[..k + 1], heads)| <= |Spares(runs, heads)|
    ensures i == |Spares(runs[..k], heads)| + p - (if k < heads then 1 else 0)
    ensures Spares(runs, heads)[i] == runs[k][p]
  {
    var n := |runs| - 1;
    assert runs == runs[..n] + [runs[n]];
    SparesSnoc(runs[..n], runs[n], heads);
    if k < n {
      i := SpareAt(runs[..n], heads, k, p);
      assert runs[..n][..k] == runs[..k] && runs[..n][..k + 1] == runs[..k + 1];
    } else {
      i := |Spares(runs[..k], heads)| + p - (if k < heads then 1 else 0);
      assert runs[..k + 1] == runs;
    }
  }

  lemma {:induction false} SparePlace<T>(runs: seq<seq<T>>, heads: nat, x: T) returns (k: nat, p: nat)
    requires x in Spares(runs, heads)
    ensures Spare(runs, heads, k, p) && runs[k][p] == x
  {
    var n := |runs| - 1;
    if x in Spares(runs[..n], heads) {
      k, p := SparePlace(runs[..n], heads, x);
    } else {
      k := n;
      p :| Spare(runs, heads, n, p) && runs[n][p] == x;
    }
  }

  /** What lies beyond the heads of runs is what is at the places there, and is unique only if no two places agree. */
  lemma {:induction false} SparesAre<T>(runs: seq<seq<T>>, heads: nat)
    ensures forall x :: x in Spares(runs, heads) <==> Holds(runs, heads, x)
    ensures Unique(Spares(runs, heads)) ==> Once(runs, heads)
  {
    forall x ensures x in Spares(runs, heads) <==> Holds(runs, heads, x) {
      if x in Spares(runs, heads) { var k, p := SparePlace(runs, heads, x); }
      if Holds(runs, heads, x) {
        var k, p :| Spare(runs, heads, k, p) && runs[k][p] == x;
        var i := SpareAt(runs, heads, k, p);
      }
    }
    if Unique(Spares(runs, heads)) {
      forall k, p, l, q | Spare(runs, heads, k, p) && Spare(runs, heads, l, q) && runs[k][p] == runs[l][q]
        ensures k == l && p == q
      {
        var i := SpareAt(runs, heads, k, p);
        var j := SpareAt(runs, heads, l, q);
        if k < l { SparesGrow(runs, heads, k + 1, l); }
        if l < k { SparesGrow(runs, heads, l + 1, k); }
      }
    }
  }
}
