/**
 * The leader-selection roulette wheel of the particle swarm
 * (get_leader_roulette_wheel). Each archive member's neighbour count within
 * radius 0.05 of the normalised front is supplied as input. The module runs
 * under Python 2 without true division, so every share of the wheel is an
 * integer floor division of non-negative integers.
 */
module Roulette {

  /** The sum of the first k entries. */
  function SumTo(d: seq<nat>, k: nat): nat
    requires k <= |d|
  {
    if k == 0 then 0 else SumTo(d, k - 1) + d[k - 1]
  }

  /** sum(density). */
  function DensitySum(d: seq<nat>): nat
  {
    SumTo(d, |d|)
  }

  lemma {:induction false} EntryBound(d: seq<nat>, i: nat, k: nat)
    requires i < k <= |d|
    ensures d[i] <= SumTo(d, k)
  {
    if i < k - 1 {
      EntryBound(d, i, k - 1);
    }
  }

  /** inv_density[i]: 1 when no member has a neighbour, otherwise density_sum - density[i]. */
  function Weight(d: seq<nat>, i: nat): (w: nat)
    requires i < |d|
    ensures w <= DensitySum(d) || w == 1
  {
    var s := DensitySum(d);
    if s == 0 then 1 else EntryBound(d, i, |d|); s - d[i]
  }

  /** inv_density. */
  function InvDensity(d: seq<nat>): (w: seq<nat>)
    ensures |w| == |d|
    ensures forall i :: 0 <= i < |d| ==> w[i] == Weight(d, i)
  {
    seq(|d|, i requires 0 <= i < |d| => Weight(d, i))
  }

  /** sum(inv_density) is n when every density is 0 and (n - 1) * density_sum otherwise. */
  lemma WeightTotal(d: seq<nat>)
    ensures DensitySum(InvDensity(d)) == if DensitySum(d) == 0 then |d| else (|d| - 1) * DensitySum(d)
  {
    WeightPrefix(d, |d|);
  }

  lemma {:induction false} WeightPrefix(d: seq<nat>, k: nat)
    requires k <= |d|
    ensures SumTo(InvDensity(d), k) == if DensitySum(d) == 0 then k else k * DensitySum(d) - SumTo(d, k)
  {
    if k > 0 {
      WeightPrefix(d, k - 1);
      EntryBound(d, k - 1, k);
      if DensitySum(d) > 0 {
        PrefixBound(d, k);
        assert k * DensitySum(d) == (k - 1) * DensitySum(d) + DensitySum(d);
      }
    }
  }

  lemma {:induction false} PrefixBound(d: seq<nat>, k: nat)
    requires k <= |d|
    ensures SumTo(d, k) <= DensitySum(d)
    decreases |d| - k
  {
    if k < |d| {
      PrefixBound(d, k + 1);
    }
  }

  /** The total the shares are divided by is positive for every front of two or more members. */
  lemma WeightTotalPositive(d: seq<nat>)
    requires |d| >= 2
    ensures DensitySum(InvDensity(d)) > 0
  {
    WeightTotal(d);
    var s := DensitySum(d);
    if s > 0 {
      assert (|d| - 1) * s >= s;
    }
  }

  /** inv_density[i] / inv_density_size under Python 2 integer division. */
  function Share(x: nat, total: nat): (q: nat)
    requires total > 0
    ensures q * total <= x
    ensures x < total ==> q == 0
  {
    x / total
  }

  /** roulette_wheel[k - 1]: the sum of the first k floor-divided shares. */
  function Cumulative(w: seq<nat>, total: nat, k: nat): nat
    requires k <= |w| && total > 0
  {
    if k == 0 then 0 else Cumulative(w, total, k - 1) + Share(w[k - 1], total)
  }

  /** The wheel get_leader_roulette_wheel returns for the neighbour counts d. */
  function Wheel(d: seq<nat>): seq<nat>
  {
    if |d| < 2 then []
    else
      var w := InvDensity(d);
      WeightTotalPositive(d);
      seq(|d|, i requires 0 <= i < |d| => Cumulative(w, DensitySum(w), i + 1))
  }

  /**
   * get_leader_roulette_wheel: [] for a front of fewer than two members,
   * otherwise the running sums of the floor-divided weights.
   */
  method RouletteWheel(density: seq<nat>) returns (wheel: seq<nat>)
    ensures |density| < 2 ==> wheel == []
    ensures |density| >= 2 ==> |wheel| == |density|
    ensures wheel == Wheel(density)
  {
    if |density| < 2 {
      return [];
    }
    var invDensity := InvDensity(density);
    var invDensitySize := DensitySum(invDensity);
    WeightTotalPositive(density);
    wheel := [Share(invDensity[0], invDensitySize)];
    var i := 1;
    while i < |density|
      invariant 1 <= i <= |density|
      invariant |wheel| == i
      invariant forall k :: 0 <= k < i ==> wheel[k] == Cumulative(invDensity, invDensitySize, k + 1)
    {
      var cumulativeProb := wheel[i - 1] + Share(invDensity[i], invDensitySize);
      wheel := wheel + [cumulativeProb];
      i := i + 1;
    }
  }

  // ---------------------------------------------------------------------
  // What the wheel looks like

  /** Running sums of non-negative shares never decrease. */
  lemma {:induction false} CumulativeMonotone(w: seq<nat>, total: nat, j: nat, k: nat)
    requires j <= k <= |w| && total > 0
    ensures Cumulative(w, total, j) <= Cumulative(w, total, k)
    decreases k
  {
    if j < k {
      CumulativeMonotone(w, total, j, k - 1);
    }
  }

  /** The floor-divided shares never add up to more than the undivided ones. */
  lemma {:induction false} CumulativeBound(w: seq<nat>, total: nat, k: nat)
    requires k <= |w| && total > 0
    ensures Cumulative(w, total, k) * total <= SumTo(w, k)
  {
    if k > 0 {
      CumulativeBound(w, total, k - 1);
    }
  }

  /** The wheel is non-decreasing and its last entry is at most 1. */
  lemma WheelShape(d: seq<nat>)
    requires |d| >= 2
    ensures |Wheel(d)| == |d|
    ensures forall i, j :: 0 <= i <= j < |d| ==> Wheel(d)[i] <= Wheel(d)[j]
    ensures Wheel(d)[|d| - 1] <= 1
  {
    var w := InvDensity(d);
    var total := DensitySum(w);
    WeightTotalPositive(d);
    var wheel := Wheel(d);
    assert forall i :: 0 <= i < |d| ==> wheel[i] == Cumulative(w, total, i + 1);
    forall i, j | 0 <= i <= j < |d|
      ensures wheel[i] <= wheel[j]
    {
      CumulativeMonotone(w, total, i + 1, j + 1);
    }
    var last := Cumulative(w, total, |d|);
    CumulativeBound(w, total, |d|);
    AtMostOnce(last, total);
  }

  /** A count whose multiple of a positive total stays within the total is at most 1. */
  lemma AtMostOnce(c: nat, total: nat)
    requires total > 0 && c * total <= total
    ensures c <= 1
  {
    assert (c - 1) * total == c * total - total <= 0;
  }

  /** A share is zero when its weight is below the total. */
  lemma {:induction false} ZeroShares(w: seq<nat>, total: nat, k: nat)
    requires k <= |w| && total > 0
    requires forall i :: 0 <= i < |w| ==> w[i] < total
    ensures Cumulative(w, total, k) == 0
  {
    if k > 0 {
      ZeroShares(w, total, k - 1);
    }
  }

  /**
   * With three or more archive members every weight is below the weight
   * total, so every floor-divided share, and with it every wheel entry, is 0.
   */
  lemma WheelAllZero(d: seq<nat>)
    requires |d| >= 3
    ensures |Wheel(d)| == |d|
    ensures forall i :: 0 <= i < |d| ==> Wheel(d)[i] == 0
  {
    var w := InvDensity(d);
    WeightsBelowTotal(d);
    forall i | 0 <= i < |d|
      ensures Wheel(d)[i] == 0
    {
      ZeroShares(w, DensitySum(w), i + 1);
    }
  }

  lemma WeightsBelowTotal(d: seq<nat>)
    requires |d| >= 3
    ensures forall i :: 0 <= i < |d| ==> InvDensity(d)[i] < DensitySum(InvDensity(d))
  {
    var s := DensitySum(d);
    WeightTotal(d);
    if s > 0 {
      MoreThanOnce(|d| - 1, s);
    }
  }

  lemma MoreThanOnce(a: nat, s: nat)
    requires a >= 2 && s > 0
    ensures a * s > s
  {
  }

  /**
   * Two archive members: a member with no neighbour while the other has some
   * takes the whole weight; otherwise both shares are 0.
   */
  lemma WheelOfTwo(d: seq<nat>)
    requires |d| == 2
    ensures Wheel(d) == if d[0] == 0 && d[1] > 0 then [1, 1]
                        else if d[1] == 0 && d[0] > 0 then [0, 1]
                        else [0, 0]
  {
    var w := InvDensity(d);
    assert SumTo(d, 1) == d[0];
    assert SumTo(w, 1) == w[0];
    var total := DensitySum(w);
    assert total == w[0] + w[1];
    WeightTotalPositive(d);
    assert Cumulative(w, total, 1) == Share(w[0], total);
    assert Cumulative(w, total, 2) == Share(w[0], total) + Share(w[1], total);
    assert Wheel(d) == [Cumulative(w, total, 1), Cumulative(w, total, 2)];
  }
}
