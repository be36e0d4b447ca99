/**
 * One particle of the multi-objective swarm (class Particle): its position,
 * velocity, personal best and leader, and the per-dimension updates the
 * optimiser applies to it. Every random draw is supplied by the caller as a
 * real in [0, 1), the range of random.random().
 */
module Particles {
  import opened Wrappers
  import opened Pareto
  import Roulette

  predicate IsDraw(u: real)
  {
    0.0 <= u < 1.0
  }

  /** random.uniform(a, b) for the draw u: a + (b - a) * u. */
  function Uniform(a: real, b: real, u: real): (x: real)
    requires IsDraw(u)
    ensures a <= b ==> a <= x <= b
    ensures a < b ==> x < b
    ensures a == b ==> x == a
  {
    var width := b - a;
    var p := width * u;
    ScaledDraw(width, u);
    assert a <= b ==> 0.0 <= p <= width;
    assert a < b ==> p < width;
    a + p
  }

  /** A draw scales a non-negative width d to a part of it, strictly less when d is positive. */
  lemma ScaledDraw(d: real, u: real)
    requires IsDraw(u)
    ensures d >= 0.0 ==> 0.0 <= d * u <= d
    ensures d > 0.0 ==> d * u < d
    ensures d == 0.0 ==> d * u == 0.0
  {
    assert d * (1.0 - u) == d - d * u;
    if d >= 0.0 {
      ProductSigns(d, u);
      ProductSigns(d, 1.0 - u);
    }
  }

  lemma ProductSigns(x: real, y: real)
    requires x >= 0.0 && y >= 0.0
    ensures x * y >= 0.0
    ensures x > 0.0 && y > 0.0 ==> x * y > 0.0
  {
  }

  /** The position random.choice picks from n members for the draw u: floor(u * n). */
  function ChoiceIndex(n: nat, u: real): (k: nat)
    requires n > 0 && IsDraw(u)
    ensures k < n
    ensures k as real <= u * n as real < k as real + 1.0
  {
    var f := (u * n as real).Floor;
    assert 0.0 <= u * n as real < n as real by {
      assert n as real * (1.0 - u) > 0.0;
    }
    f as nat
  }

  /**
   * The particle-swarm velocity equation for one dimension: inertia times the
   * old velocity, plus the cognitive pull toward the personal best and the
   * social pull toward the leader, each scaled by its own draw.
   */
  function Pull(inertia: real, social: real, cog: real, v: real, best: real, pos: real, lead: real,
                r1: real, r2: real): real
  {
    inertia * v + cog * r1 * (best - pos) + social * r2 * (lead - pos)
  }

  /**
   * One coordinate of update_position: move by the old velocity; beyond the
   * upper bound clamp to it and reverse; then below the lower bound clamp to it
   * and reverse.
   */
  function Reflect(p: real, v: real, lo: real, hi: real): (pv: (real, real))
    ensures pv.1 == v || pv.1 == -v
    ensures lo <= hi ==> lo <= pv.0 <= hi
    ensures lo <= p + v <= hi ==> pv == (p + v, v)
    ensures lo <= hi < p + v ==> pv == (hi, -v)
    ensures p + v < lo <= hi ==> pv == (lo, -v)
  {
    var q := p + v;
    var (q1, v1) := if q > hi then (hi, -v) else (q, v);
    if q1 < lo then (lo, -v1) else (q1, v1)
  }

  /** The velocity update_velocity computes for the draws r1s and r2s. */
  function Accelerated(inertia: real, social: real, cog: real, velocity: seq<real>, best: seq<real>,
                       position: seq<real>, leader: seq<real>, r1s: seq<real>, r2s: seq<real>, n: nat): (nv: seq<real>)
    requires n <= |velocity| && n <= |best| && n <= |position| && n <= |leader| && n <= |r1s| && n <= |r2s|
    ensures |nv| == |velocity|
    ensures forall k :: n <= k < |velocity| ==> nv[k] == velocity[k]
  {
    seq(|velocity|, k requires 0 <= k < |velocity| =>
      if k < n then Pull(inertia, social, cog, velocity[k], best[k], position[k], leader[k], r1s[k], r2s[k])
      else velocity[k])
  }

  /** The position update_position computes. */
  function Moved(position: seq<real>, velocity: seq<real>, lower: seq<real>, upper: seq<real>): (np: seq<real>)
    requires |lower| <= |position| && |lower| <= |velocity| && |lower| <= |upper|
    ensures |np| == |position|
    ensures forall k :: |lower| <= k < |position| ==> np[k] == position[k]
    ensures forall k :: 0 <= k < |lower| && lower[k] <= upper[k] ==> lower[k] <= np[k] <= upper[k]
  {
    seq(|position|, k requires 0 <= k < |position| =>
      if k < |lower| then Reflect(position[k], velocity[k], lower[k], upper[k]).0 else position[k])
  }

  /** The velocity update_position leaves behind: reversed in every clamped dimension. */
  function Bounced(position: seq<real>, velocity: seq<real>, lower: seq<real>, upper: seq<real>): (nv: seq<real>)
    requires |lower| <= |position| && |lower| <= |velocity| && |lower| <= |upper|
    ensures |nv| == |velocity|
    ensures forall k :: 0 <= k < |velocity| ==> nv[k] == velocity[k] || nv[k] == -velocity[k]
  {
    seq(|velocity|, k requires 0 <= k < |velocity| =>
      if k < |lower| then Reflect(position[k], velocity[k], lower[k], upper[k]).1 else velocity[k])
  }

  /**
   * The leader select_leader settles on. A front shorter than the number of
   * objectives plus one yields the random pick. Otherwise the loop over the
   * front overwrites the leader at every index, so the last index decides:
   * the last member when r <= wheel[n - 1], else that iteration's random pick.
   */
  function SettledLeader(front: seq<Entry>, wheel: seq<nat>, r: real, draws: seq<real>): (lead: seq<real>)
    requires |front| > 0 && |draws| >= |front| && forall k :: 0 <= k < |draws| ==> IsDraw(draws[k])
    requires |front| >= |front[0].objectives| + 1 ==> |wheel| >= |front|
  {
    var n := |front|;
    if n < |front[0].objectives| + 1 then front[ChoiceIndex(n, draws[0])].position
    else if r <= wheel[n - 1] as real then front[n - 1].position
    else front[ChoiceIndex(n, draws[n - 1])].position
  }

  /** The mutable attributes of a particle at one moment. */
  datatype State = State(position: seq<real>, velocity: seq<real>, posBest: seq<real>, leader: seq<real>,
                         fit: seq<real>, fitBest: seq<real>, error: seq<real>, std: seq<real>,
                         standDiv: Option<seq<real>>)

  class Particle {
    var position: seq<real>
    var velocity: seq<real>
    var posBest: seq<real>
    var leader: seq<real>
    var fit: seq<real>
    var fitBest: seq<real>
    var error: seq<real>
    var std: seq<real>
    var standDiv: Option<seq<real>>
    const lower: seq<real>
    const upper: seq<real>

    function Snapshot(): State
      reads this
    {
      State(position, velocity, posBest, leader, fit, fitBest, error, std, standDiv)
    }

    /** Every coordinate lies within its bounds. */
    ghost predicate InBounds()
      reads this
    {
      |lower| <= |upper| && |lower| <= |position|
      && forall k :: 0 <= k < |lower| ==> lower[k] <= position[k] <= upper[k]
    }

    /**
     * Particle(num_parameter, par_min, par_max): position and velocity each
     * drawn uniformly between the bounds of every dimension; everything else
     * empty. The standard deviations (stand_div) are not set until the first
     * evaluation.
     */
    constructor (numParameter: nat, parMin: seq<real>, parMax: seq<real>, posDraws: seq<real>, velDraws: seq<real>)
      requires numParameter <= |parMin| && numParameter <= |parMax|
      requires |posDraws| == numParameter && |velDraws| == numParameter
      requires forall k :: 0 <= k < numParameter ==> IsDraw(posDraws[k]) && IsDraw(velDraws[k])
      ensures |position| == numParameter && |velocity| == numParameter
      ensures forall k :: 0 <= k < numParameter ==>
                position[k] == Uniform(parMin[k], parMax[k], posDraws[k])
                && velocity[k] == Uniform(parMin[k], parMax[k], velDraws[k])
      ensures posBest == [] && leader == [] && fit == [] && fitBest == [] && error == [] && std == []
      ensures standDiv == None
      ensures lower == parMin && upper == parMax
      ensures |parMin| == numParameter && (forall k :: 0 <= k < numParameter ==> parMin[k] <= parMax[k])
              ==> InBounds()
    {
      position := seq(numParameter, k requires 0 <= k < numParameter => Uniform(parMin[k], parMax[k], posDraws[k]));
      velocity := seq(numParameter, k requires 0 <= k < numParameter => Uniform(parMin[k], parMax[k], velDraws[k]));
      posBest := [];
      leader := [];
      fit := [];
      fitBest := [];
      lower := parMin;
      upper := parMax;
      error := [];
      std := [];
      standDiv := None;
    }

    /** update_velocity for the draws r1s[k], r2s[k] of dimension k. */
    method UpdateVelocity(inertia: real, social: real, cog: real, r1s: seq<real>, r2s: seq<real>)
      requires |lower| <= |velocity| && |lower| <= |posBest| && |lower| <= |position| && |lower| <= |leader|
      requires |r1s| == |lower| && |r2s| == |lower|
      modifies this
      ensures Snapshot() == old(Snapshot()).(velocity :=
                Accelerated(inertia, social, cog, old(velocity), old(posBest), old(position), old(leader), r1s, r2s, |lower|))
    {
      var newVelocity := velocity;
      var i := 0;
      while i < |lower|
        invariant 0 <= i <= |lower|
        invariant |newVelocity| == |velocity|
        invariant forall k :: 0 <= k < i ==>
                    newVelocity[k] == Pull(inertia, social, cog, velocity[k], posBest[k], position[k], leader[k], r1s[k], r2s[k])
        invariant forall k :: i <= k < |velocity| ==> newVelocity[k] == velocity[k]
      {
        var r1 := r1s[i];
        var r2 := r2s[i];
        var velocityCognitive := cog * r1 * (posBest[i] - position[i]);
        var velocitySocial := social * r2 * (leader[i] - position[i]);
        newVelocity := newVelocity[i := inertia * newVelocity[i] + velocityCognitive + velocitySocial];
        i := i + 1;
      }
      velocity := newVelocity;
    }

    /** update_position: move by the velocity, clamping and reversing at the bounds. */
    method UpdatePosition()
      requires |lower| <= |position| && |lower| <= |velocity| && |lower| <= |upper|
      modifies this
      ensures Snapshot() == old(Snapshot()).(position := Moved(old(position), old(velocity), lower, upper),
                                             velocity := Bounced(old(position), old(velocity), lower, upper))
      ensures (forall k :: 0 <= k < |lower| ==> lower[k] <= upper[k]) ==> InBounds()
    {
      var newPosition := position;
      var newVelocity := velocity;
      var i := 0;
      while i < |lower|
        invariant 0 <= i <= |lower|
        invariant |newPosition| == |position| && |newVelocity| == |velocity|
        invariant forall k :: 0 <= k < i ==>
                    (newPosition[k], newVelocity[k]) == Reflect(position[k], velocity[k], lower[k], upper[k])
        invariant forall k :: i <= k < |position| ==> newPosition[k] == position[k]
        invariant forall k :: i <= k < |velocity| ==> newVelocity[k] == velocity[k]
      {
        newPosition := newPosition[i := newPosition[i] + velocity[i]];
        if newPosition[i] > upper[i] {
          newPosition := newPosition[i := upper[i]];
          newVelocity := newVelocity[i := -1.0 * newVelocity[i]];
        }
        if newPosition[i] < lower[i] {
          newPosition := newPosition[i := lower[i]];
          newVelocity := newVelocity[i := -1.0 * newVelocity[i]];
        }
        i := i + 1;
      }
      velocity := newVelocity;
      position := newPosition;
    }

    /** choose_position: the particle is placed at x0. */
    method ChoosePosition(x0: seq<real>)
      modifies this
      ensures Snapshot() == old(Snapshot()).(position := x0)
    {
      position := x0;
    }

    /**
     * select_leader: r is the random() draw and draws[i] the random.choice
     * draw of loop index i (draws[0] in the short-front case).
     */
    method SelectLeader(front: seq<Entry>, wheel: seq<nat>, r: real, draws: seq<real>)
      requires |front| > 0 && |draws| >= |front| && forall k :: 0 <= k < |draws| ==> IsDraw(draws[k])
      requires |front| >= |front[0].objectives| + 1 ==> |wheel| >= |front|
      modifies this
      ensures Snapshot() == old(Snapshot()).(leader := SettledLeader(front, wheel, r, draws))
      ensures leader in PositionsOf(front)
    {
      if |front| < |front[0].objectives| + 1 {
        leader := front[ChoiceIndex(|front|, draws[0])].position;
        LeaderFromFront(front, wheel, r, draws);
        return;
      }
      var i := 0;
      while i < |front|
        invariant 0 <= i <= |front|
        invariant i > 0 ==> leader == (if r <= wheel[i - 1] as real then front[i - 1].position
                                       else front[ChoiceIndex(|front|, draws[i - 1])].position)
        invariant Snapshot() == old(Snapshot()).(leader := leader)
      {
        if r <= wheel[i] as real {
          leader := front[i].position;
        } else {
          leader := front[ChoiceIndex(|front|, draws[i])].position;
        }
        i := i + 1;
      }
      LeaderFromFront(front, wheel, r, draws);
    }
  }

  function PositionsOf(front: seq<Entry>): seq<seq<real>>
  {
    seq(|front|, k requires 0 <= k < |front| => front[k].position)
  }

  /** The settled leader is always the position of some front member. */
  lemma LeaderFromFront(front: seq<Entry>, wheel: seq<nat>, r: real, draws: seq<real>)
    requires |front| > 0 && |draws| >= |front| && forall k :: 0 <= k < |draws| ==> IsDraw(draws[k])
    requires |front| >= |front[0].objectives| + 1 ==> |wheel| >= |front|
    ensures SettledLeader(front, wheel, r, draws) in PositionsOf(front)
  {
    var n := |front|;
    var p := PositionsOf(front);
    if n < |front[0].objectives| + 1 {
      assert p[ChoiceIndex(n, draws[0])] == front[ChoiceIndex(n, draws[0])].position;
    } else if r <= wheel[n - 1] as real {
      assert p[n - 1] == front[n - 1].position;
    } else {
      assert p[ChoiceIndex(n, draws[n - 1])] == front[ChoiceIndex(n, draws[n - 1])].position;
    }
  }

  /**
   * A front of three or more members with at least as many members as
   * objectives plus one gets an all-zero wheel, so a positive random() draw
   * always leaves the leader to random.choice, and only a draw of exactly 0.0
   * picks the last member.
   */
  lemma LeaderWithZeroWheel(front: seq<Entry>, density: seq<nat>, r: real, draws: seq<real>)
    requires |front| >= 3 && |front| >= |front[0].objectives| + 1 && |density| == |front|
    requires |draws| >= |front| && forall k :: 0 <= k < |draws| ==> IsDraw(draws[k])
    requires IsDraw(r)
    ensures |Roulette.Wheel(density)| == |front|
    ensures SettledLeader(front, Roulette.Wheel(density), r, draws)
            == if r == 0.0 then front[|front| - 1].position
               else front[ChoiceIndex(|front|, draws[|front| - 1])].position
  {
    Roulette.WheelAllZero(density);
  }
}
