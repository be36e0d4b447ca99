/**
 * The control loop of the multi-objective particle swarm (class Optimiser of
 * dlsoo_mopso.py). The module globals pareto_front and completed_iteration
 * become fields of the optimiser; each dumped front is kept under its iteration number. The
 * machine, the user's cancel button, the neighbour counts of the archive and
 * every random draw are supplied as functions.
 */
module Optimisation {
  import opened Wrappers
  import opened Pareto
  import Roulette
  import Mapping
  import opened Particles

  /** What get_ar reports for one particle: per objective a mean, an error and a deviation. */
  datatype Reading = Reading(means: seq<real>, errs: seq<real>, devs: seq<real>)

  /** The Python exceptions a run can end in. */
  datatype PyError = ZeroDivisionError | AttributeError | IndexError

  datatype Outcome = Completed | Cancelled | Raised(error: PyError)

  /** The random.random() draws of one run, addressed by where they are used. */
  datatype Draws = Draws(
    start: (nat, nat) -> real,          // particle j, slot s: position (s < n), then velocity (n + s)
    wheel: (nat, nat) -> real,          // iteration t, particle j: the draw select_leader compares with the wheel
    choice: (nat, nat, nat) -> real,    // iteration t, particle j, loop index i: random.choice
    cognitive: (nat, nat, nat) -> real, // iteration t, particle j, dimension k: r1
    social: (nat, nat, nat) -> real)    // iteration t, particle j, dimension k: r2

  ghost predicate ValidDraws(d: Draws)
  {
    && (forall j, s :: IsDraw(d.start(j, s)))
    && (forall t, j :: IsDraw(d.wheel(t, j)))
    && (forall t, j, i :: IsDraw(d.choice(t, j, i)))
    && (forall t, j, k :: IsDraw(d.cognitive(t, j, k)))
    && (forall t, j, k :: IsDraw(d.social(t, j, k)))
  }

  /** n consecutive values of one two-argument draw function. */
  function Row(f: (nat, nat) -> real, j: nat, offset: nat, n: nat): (r: seq<real>)
    ensures |r| == n
    ensures forall k :: 0 <= k < n ==> r[k] == f(j, offset + k)
  {
    seq(n, k requires 0 <= k < n => f(j, offset + k))
  }

  /** n consecutive values of one three-argument draw function. */
  function Row3(f: (nat, nat, nat) -> real, t: nat, j: nat, n: nat): (r: seq<real>)
    ensures |r| == n
    ensures forall k :: 0 <= k < n ==> r[k] == f(t, j, k)
  {
    seq(n, k requires 0 <= k < n => f(t, j, k))
  }

  ghost predicate Distinct(swarm: seq<Particle>)
  {
    forall i, j :: 0 <= i < j < |swarm| ==> swarm[i] != swarm[j]
  }

  /** A particle of n dimensions with the optimiser's bounds. */
  ghost predicate Shaped(p: Particle, n: nat, lower: seq<real>, upper: seq<real>)
    reads p
  {
    p.lower == lower && p.upper == upper && |p.position| == n && |p.velocity| == n
  }

  /** A particle that has been through an evaluation with m objectives. */
  ghost predicate Evaluated(p: Particle, n: nat, m: nat)
    reads p
  {
    |p.posBest| == n && |p.fit| == m && |p.fitBest| == m && p.standDiv.Some?
  }

  /** The bounds are ordered in every dimension. */
  ghost predicate Ordered(lower: seq<real>, upper: seq<real>)
  {
    |lower| == |upper| && forall k :: 0 <= k < |lower| ==> lower[k] <= upper[k]
  }

  ghost predicate Within(x: seq<real>, lower: seq<real>, upper: seq<real>)
  {
    |lower| <= |x| && |lower| <= |upper| && forall k :: 0 <= k < |lower| ==> lower[k] <= x[k] <= upper[k]
  }

  /** Every archive entry has n coordinates, m objectives and lies within the bounds when they are ordered. */
  ghost predicate GoodFront(front: seq<Entry>, n: nat, m: nat, lower: seq<real>, upper: seq<real>, inside: bool)
  {
    && SameLength(front, m)
    && (forall x :: x in front ==> |x.position| == n)
    && (inside ==> forall x :: x in front ==> Within(x.position, lower, upper))
  }

  /** Objective j of every front member: front_x of normalised_front for j = 0, front_y for j = 1. */
  function Column(front: seq<Entry>, j: nat): (c: seq<real>)
    requires forall k :: 0 <= k < |front| ==> j < |front[k].objectives|
    ensures |c| == |front| && forall k :: 0 <= k < |front| ==> c[k] == front[k].objectives[j]
  {
    seq(|front|, k requires 0 <= k < |front| => front[k].objectives[j])
  }

  /** Every front member has the same objective j. */
  ghost predicate Flat(front: seq<Entry>, j: nat)
    requires |front| > 0 && forall k :: 0 <= k < |front| ==> j < |front[k].objectives|
  {
    forall k :: 0 <= k < |front| ==> front[k].objectives[j] == front[0].objectives[j]
  }

  /** max(xs) - min(xs) is 0 exactly when all the values are equal. */
  lemma NoRange(xs: seq<real>)
    requires |xs| > 0
    ensures Mapping.Largest(xs).value - Mapping.Smallest(xs).value == 0.0 <==> forall k :: 0 <= k < |xs| ==> xs[k] == xs[0]
  {
    Mapping.LargestIsMaximum(xs);
    Mapping.SmallestIsMinimum(xs);
  }

  /**
   * The exception get_leader_roulette_wheel raises in normalised_front, if
   * any. For a front of two or more members it reads objective 0 and then
   * objective 1 of every member, and divides each by its max - min.
   */
  function NormaliseFailure(front: seq<Entry>): (e: Option<PyError>)
    ensures |front| < 2 ==> e == None
    ensures |front| >= 2 ==> (e == Some(IndexError) <==> exists k :: 0 <= k < |front| && |front[k].objectives| < 2)
    ensures e == Some(ZeroDivisionError) <==>
              && |front| >= 2 && (forall k :: 0 <= k < |front| ==> |front[k].objectives| >= 2)
              && (Flat(front, 0) || Flat(front, 1))
    ensures e == None || e == Some(IndexError) || e == Some(ZeroDivisionError)
  {
    if |front| < 2 then None
    else if exists k :: 0 <= k < |front| && |front[k].objectives| < 2 then Some(IndexError)
    else
      var xs, ys := Column(front, 0), Column(front, 1);
      NoRange(xs);
      NoRange(ys);
      if Mapping.Largest(xs).value - Mapping.Smallest(xs).value == 0.0
         || Mapping.Largest(ys).value - Mapping.Smallest(ys).value == 0.0
      then Some(ZeroDivisionError)
      else None
  }

  /** With a single objective, every front of two or more members makes normalised_front raise IndexError. */
  lemma SingleObjectiveRaises(front: seq<Entry>)
    requires |front| >= 2 && SameLength(front, 1)
    ensures NormaliseFailure(front) == Some(IndexError)
  {
    assert front[0] in front;
  }

  /** Two members that agree on objective 0 make normalised_front divide by zero. */
  lemma TwinsRaise(front: seq<Entry>)
    requires |front| >= 2 && SameLength(front, 2) && front[1].objectives[0] == front[0].objectives[0]
    requires forall k :: 2 <= k < |front| ==> front[k].objectives == front[0].objectives
    ensures NormaliseFailure(front) == Some(ZeroDivisionError)
  {
    forall k | 0 <= k < |front|
      ensures |front[k].objectives| == 2
    {
      assert front[k] in front;
    }
  }

  /** One row of proposed_pareto: position, fit, error and stand_div of a particle. */
  function EntryOf(p: Particle): Entry
    reads p
    requires p.standDiv.Some?
  {
    Entry(p.position, p.fit, p.error, p.standDiv.value)
  }

  function SwarmEntries(swarm: seq<Particle>): (e: seq<Entry>)
    reads set p | p in swarm
    requires forall k :: 0 <= k < |swarm| ==> swarm[k].standDiv.Some?
    ensures |e| == |swarm|
    ensures forall k :: 0 <= k < |swarm| ==> e[k] == EntryOf(swarm[k])
  {
    seq(|swarm|, k requires 0 <= k < |swarm| && swarm[k].standDiv.Some? reads set p | p in swarm => EntryOf(swarm[k]))
  }

  /**
   * What evaluate makes of a particle's attributes for one reading: the new
   * fit, error and deviations, and the personal best replaced by the current
   * position and fit on the initial evaluation or when pareto_test accepts
   * the new fit against the old best.
   */
  function Assessed(s: State, reading: Reading, initial: bool): (n: State)
    ensures n.position == s.position && n.velocity == s.velocity && n.leader == s.leader && n.std == s.std
    ensures n.fit == reading.means && n.error == reading.errs && n.standDiv == Some(reading.devs)
    ensures initial ==> n.posBest == s.position && n.fitBest == reading.means
    ensures !initial && AllGreater(reading.means, s.fitBest) ==> n.posBest == s.posBest && n.fitBest == s.fitBest
    ensures !initial && !AllGreater(reading.means, s.fitBest) ==> n.posBest == s.position && n.fitBest == reading.means
  {
    var s1 := s.(fit := reading.means, error := reading.errs, standDiv := Some(reading.devs));
    if initial || ParetoTest(reading.means, s.fitBest) then s1.(posBest := s.position, fitBest := reading.means)
    else s1
  }

  /** The assignments evaluate makes to one particle. */
  method Record(p: Particle, fit: seq<real>, error: seq<real>, devs: seq<real>, initial: bool)
    modifies p
    ensures p.Snapshot() == Assessed(old(p.Snapshot()), Reading(fit, error, devs), initial)
  {
    p.fit := fit;
    p.error := error;
    p.standDiv := Some(devs);
    if !initial {
      if ParetoTest(p.fit, p.fitBest) {
        p.posBest := p.position;
        p.fitBest := p.fit;
      }
    }
    if initial {
      p.fitBest := p.fit;
      p.posBest := p.position;
    }
  }

  class Optimiser {
    const swarmSize: nat
    const maxIter: nat
    const paramCount: nat
    const resultCount: nat
    const minVar: seq<real>
    const maxVar: seq<real>
    const inertia: real
    const socialParam: real
    const cognitiveParam: real
    const addCurrent: bool
    var cancel: bool
    var paretoFront: seq<Entry>
    var completedIteration: nat
    var dumps: map<nat, seq<Entry>>
    /** The swarm's entries in the proposal of the last completed iteration. */
    ghost var lastEntries: seq<Entry>

    constructor (swarmSize: nat, maxIter: nat, paramCount: nat, resultCount: nat, minVar: seq<real>,
                 maxVar: seq<real>, inertia: real, socialParam: real, cognitiveParam: real, addCurrent: bool)
      ensures this.swarmSize == swarmSize && this.maxIter == maxIter && this.paramCount == paramCount
      ensures this.resultCount == resultCount && this.minVar == minVar && this.maxVar == maxVar
      ensures this.inertia == inertia && this.socialParam == socialParam && this.cognitiveParam == cognitiveParam
      ensures this.addCurrent == addCurrent
      ensures !cancel && paretoFront == [] && completedIteration == 0 && dumps == map[]
    {
      this.swarmSize := swarmSize;
      this.maxIter := maxIter;
      this.paramCount := paramCount;
      this.resultCount := resultCount;
      this.minVar := minVar;
      this.maxVar := maxVar;
      this.inertia := inertia;
      this.socialParam := socialParam;
      this.cognitiveParam := cognitiveParam;
      this.addCurrent := addCurrent;
      cancel := false;
      paretoFront := [];
      completedIteration := 0;
      dumps := map[];
      lastEntries := [];
    }

    /** Every particle has the optimiser's shape, has been evaluated, and lies within the bounds when inside holds. */
    ghost predicate Ready(swarm: seq<Particle>, inside: bool)
      reads set p | p in swarm
    {
      && |swarm| == swarmSize && Distinct(swarm)
      && (forall k :: 0 <= k < |swarm| ==>
            Shaped(swarm[k], paramCount, minVar, maxVar) && Evaluated(swarm[k], paramCount, resultCount))
      && (inside ==> forall k :: 0 <= k < |swarm| ==> swarm[k].InBounds())
    }

    /**
     * proposed_pareto of the last completed iteration: the swarm's entries,
     * followed by the archive before it after the first iteration.
     */
    ghost function Proposal(): seq<Entry>
      reads this`completedIteration, this`dumps, this`lastEntries
    {
      if completedIteration >= 2 && completedIteration - 2 in dumps then lastEntries + dumps[completedIteration - 2]
      else lastEntries
    }

    /** The archive is non-empty and well shaped, every completed iteration has its dump, and the last dump is the archive. */
    ghost predicate Archived(inside: bool)
      reads this`completedIteration, this`dumps, this`paretoFront
    {
      && 1 <= completedIteration && (forall t :: 0 <= t < completedIteration ==> t in dumps)
      && dumps[completedIteration - 1] == paretoFront
      && |paretoFront| >= 1 && GoodFront(paretoFront, paramCount, resultCount, minVar, maxVar, inside)
    }

    /** The archive is the front of the last proposal. */
    ghost predicate Filed()
      reads this`completedIteration, this`dumps, this`paretoFront, this`lastEntries
    {
      paretoFront == ParetoFront(Proposal())
    }

    /**
     * evaluate_swarm: measures the particles in order; after each measurement
     * a pending cancel stops the loop. The percentage interval divides by
     * max_iter and swarm_size, which raises when either is 0.
     */
    method EvaluateSwarm(swarm: seq<Particle>, t: nat, measure: (nat, nat, seq<real>) -> Reading,
                         pressed: (nat, nat) -> bool)
      returns (raised: bool, results: seq<seq<real>>, errors: seq<seq<real>>, standDiv: seq<seq<real>>)
      modifies this`cancel
      ensures raised <==> maxIter == 0 || swarmSize == 0
      ensures raised ==> cancel == old(cancel)
      ensures !raised ==> (cancel <==> old(cancel) || exists i :: 0 <= i < |swarm| && pressed(t, i))
      ensures |results| == |errors| == |standDiv| <= |swarm|
      ensures !raised && !cancel ==> |results| == |swarm|
      ensures forall i :: 0 <= i < |results| ==>
                var reading := measure(t, i, swarm[i].position);
                results[i] == reading.means && errors[i] == reading.errs && standDiv[i] == reading.devs
    {
      results, errors, standDiv := [], [], [];
      if maxIter == 0 || swarmSize == 0 {
        return true, results, errors, standDiv;
      }
      raised := false;
      ghost var wasCancelled := cancel;
      var i := 0;
      while i < |swarm|
        invariant 0 <= i <= |swarm|
        invariant |results| == |errors| == |standDiv| == i
        invariant forall k :: 0 <= k < i ==>
                    var reading := measure(t, k, swarm[k].position);
                    results[k] == reading.means && errors[k] == reading.errs && standDiv[k] == reading.devs
        invariant cancel <==> wasCancelled || exists k :: 0 <= k < i && pressed(t, k)
        invariant i > 0 ==> !cancel
      {
        var allData := measure(t, i, swarm[i].position);
        results := results + [allData.means];
        errors := errors + [allData.errs];
        standDiv := standDiv + [allData.devs];
        if pressed(t, i) {
          cancel := true;
        }
        if cancel {
          return;
        }
        i := i + 1;
      }
    }

    /**
     * evaluate: measure the swarm, then record every particle's reading. A
     * cancel seen before the first particle leaves every particle untouched.
     */
    method Evaluate(swarm: seq<Particle>, t: nat, initial: bool, measure: (nat, nat, seq<real>) -> Reading,
                    pressed: (nat, nat) -> bool)
      returns (raised: bool)
      requires Distinct(swarm)
      modifies this`cancel, set p | p in swarm
      ensures raised <==> maxIter == 0 || swarmSize == 0
      ensures !raised ==> (cancel <==> old(cancel) || exists i :: 0 <= i < |swarm| && pressed(t, i))
      ensures raised || cancel ==> forall k :: 0 <= k < |swarm| ==> swarm[k].Snapshot() == old(swarm[k].Snapshot())
      ensures !raised && !cancel ==> forall k :: 0 <= k < |swarm| ==>
                swarm[k].Snapshot() == Assessed(old(swarm[k].Snapshot()), measure(t, k, old(swarm[k].position)), initial)
    {
      var results, errors, standDiv;
      raised, results, errors, standDiv := EvaluateSwarm(swarm, t, measure, pressed);
      if raised {
        return;
      }
      RecordSwarm(swarm, t, initial, measure, results, errors, standDiv);
    }

    /** The loop of evaluate: a pending cancel stops it before the first particle, otherwise every particle records its reading. */
    method RecordSwarm(swarm: seq<Particle>, t: nat, initial: bool, measure: (nat, nat, seq<real>) -> Reading,
                       results: seq<seq<real>>, errors: seq<seq<real>>, standDiv: seq<seq<real>>)
      requires Distinct(swarm)
      requires |results| == |errors| == |standDiv| <= |swarm|
      requires !cancel ==> |results| == |swarm|
      requires forall i :: 0 <= i < |results| ==>
                 var reading := measure(t, i, swarm[i].position);
                 results[i] == reading.means && errors[i] == reading.errs && standDiv[i] == reading.devs
      modifies set p | p in swarm
      ensures cancel ==> forall k :: 0 <= k < |swarm| ==> swarm[k].Snapshot() == old(swarm[k].Snapshot())
      ensures !cancel ==> forall k :: 0 <= k < |swarm| ==>
                swarm[k].Snapshot() == Assessed(old(swarm[k].Snapshot()), measure(t, k, old(swarm[k].position)), initial)
    {
      var i := 0;
      while i < |swarm|
        invariant 0 <= i <= |swarm|
        invariant cancel ==> i == 0
        invariant forall k :: 0 <= k < i ==>
                    swarm[k].Snapshot() == Assessed(old(swarm[k].Snapshot()), measure(t, k, old(swarm[k].position)), initial)
        invariant forall k :: i <= k < |swarm| ==> swarm[k].Snapshot() == old(swarm[k].Snapshot())
      {
        if cancel {
          break;
        }
        assert swarm[i].position == old(swarm[i].position);
        assert Reading(results[i], errors[i], standDiv[i]) == measure(t, i, old(swarm[i].position));
        label Before:
        Record(swarm[i], results[i], errors[i], standDiv[i], initial);
        forall k | 0 <= k < |swarm| && k != i
          ensures swarm[k].Snapshot() == old@Before(swarm[k].Snapshot())
        {
          assert swarm[k] != swarm[i];
        }
        i := i + 1;
      }
    }

    /** find_pareto_front: the archive becomes the filtered candidate list. */
    method FindParetoFront(proposed: seq<Entry>)
      modifies this`paretoFront
      ensures paretoFront == ParetoFront(proposed)
    {
      paretoFront := FindFront(proposed);
    }

    /**
     * get_leader_roulette_wheel for the archive: [] under two members;
     * otherwise normalised_front (which may raise), then the wheel of the
     * neighbour counts density gives for the archive.
     */
    method GetLeaderRouletteWheel(density: seq<Entry> -> seq<nat>) returns (failure: Option<PyError>, wheel: seq<nat>)
      requires forall f :: |density(f)| == |f|
      ensures failure == NormaliseFailure(paretoFront)
      ensures failure == None ==> wheel == Roulette.Wheel(density(paretoFront))
      ensures failure == None && |paretoFront| < 2 ==> wheel == []
      ensures failure == None && |paretoFront| >= 2 ==> |wheel| == |paretoFront|
      ensures failure == None && |paretoFront| >= 3 ==> forall i :: 0 <= i < |wheel| ==> wheel[i] == 0
    {
      if |paretoFront| < 2 {
        return None, [];
      }
      failure := NormaliseFailure(paretoFront);
      if failure.Some? {
        return failure, [];
      }
      wheel := Roulette.RouletteWheel(density(paretoFront));
      if |paretoFront| >= 3 {
        Roulette.WheelAllZero(density(paretoFront));
      }
    }

    /** The attributes Particle(param_count, min_var, max_var) gives particle j for the draws d. */
    ghost function Drawn(d: Draws, j: nat): (s: State)
      requires ValidDraws(d) && |minVar| == paramCount && |maxVar| == paramCount
      ensures |s.position| == paramCount && |s.velocity| == paramCount && s.standDiv == None
      ensures Ordered(minVar, maxVar) ==> forall k :: 0 <= k < paramCount ==>
                minVar[k] <= s.position[k] <= maxVar[k] && minVar[k] <= s.velocity[k] <= maxVar[k]
    {
      State(seq(paramCount, k requires 0 <= k < paramCount => Uniform(minVar[k], maxVar[k], d.start(j, k))),
            seq(paramCount, k requires 0 <= k < paramCount => Uniform(minVar[k], maxVar[k], d.start(j, paramCount + k))),
            [], [], [], [], [], [], None)
    }

    /** Drawn, with the first particle placed at the current machine state when optimise is asked to. */
    ghost function Seeded(d: Draws, currentAp: seq<real>, j: nat): State
      requires ValidDraws(d) && |minVar| == paramCount && |maxVar| == paramCount
    {
      if addCurrent && j == 0 then Drawn(d, 0).(position := currentAp) else Drawn(d, j)
    }

    /** The particles start within the bounds: the bounds are ordered and so is the current state if it is used. */
    ghost predicate Inside(currentAp: seq<real>)
    {
      Ordered(minVar, maxVar) && (addCurrent ==> Within(currentAp, minVar, maxVar))
    }

    /** The Particle(...) constructions of optimise: swarm_size fresh particles. */
    method BuildSwarm(d: Draws) returns (swarm: seq<Particle>)
      requires ValidDraws(d)
      requires |minVar| == paramCount && |maxVar| == paramCount
      ensures |swarm| == swarmSize && Distinct(swarm)
      ensures forall k :: 0 <= k < |swarm| ==>
                fresh(swarm[k]) && Shaped(swarm[k], paramCount, minVar, maxVar) && swarm[k].Snapshot() == Drawn(d, k)
      ensures Ordered(minVar, maxVar) ==> forall k :: 0 <= k < |swarm| ==> swarm[k].InBounds()
    {
      swarm := [];
      var j := 0;
      while j < swarmSize
        invariant 0 <= j <= swarmSize
        invariant |swarm| == j && Distinct(swarm)
        invariant forall k :: 0 <= k < |swarm| ==>
                    fresh(swarm[k]) && Shaped(swarm[k], paramCount, minVar, maxVar) && swarm[k].Snapshot() == Drawn(d, k)
        invariant Ordered(minVar, maxVar) ==> forall k :: 0 <= k < |swarm| ==> swarm[k].InBounds()
      {
        var p := new Particle(paramCount, minVar, maxVar, Row(d.start, j, 0, paramCount),
                              Row(d.start, j, paramCount, paramCount));
        assert p.position == Drawn(d, j).position;
        assert p.velocity == Drawn(d, j).velocity;
        swarm := swarm + [p];
        j := j + 1;
      }
    }

    /** The attributes of particle j after select_leader, update_velocity and update_position in iteration t. */
    ghost function Moving(s: State, front: seq<Entry>, wheel: seq<nat>, t: nat, j: nat, d: Draws): (n: State)
      requires ValidDraws(d) && |minVar| == paramCount && |maxVar| == paramCount
      requires |front| > 0 && (|front| >= |front[0].objectives| + 1 ==> |wheel| >= |front|)
      requires forall x :: x in front ==> |x.position| == paramCount
      requires |s.position| == paramCount && |s.velocity| == paramCount && |s.posBest| == paramCount
      ensures n == s.(leader := n.leader, velocity := n.velocity, position := n.position)
      ensures n.leader in PositionsOf(front)
      ensures |n.position| == paramCount && |n.velocity| == paramCount
      ensures Ordered(minVar, maxVar) ==> forall k :: 0 <= k < paramCount ==> minVar[k] <= n.position[k] <= maxVar[k]
    {
      var lead := SettledLeader(front, wheel, d.wheel(t, j), Row3(d.choice, t, j, |front|));
      LeaderFromFront(front, wheel, d.wheel(t, j), Row3(d.choice, t, j, |front|));
      FrontPositionLength(front, lead, paramCount);
      var v := Accelerated(inertia, socialParam, cognitiveParam, s.velocity, s.posBest, s.position, lead,
                           Row3(d.cognitive, t, j, paramCount), Row3(d.social, t, j, paramCount), paramCount);
      s.(leader := lead, velocity := Bounced(s.position, v, minVar, maxVar), position := Moved(s.position, v, minVar, maxVar))
    }

    /** Moving, with the wheel get_leader_roulette_wheel builds from the archive's neighbour counts. */
    ghost function Led(s: State, front: seq<Entry>, density: seq<nat>, t: nat, j: nat, d: Draws): (n: State)
      requires ValidDraws(d) && |minVar| == paramCount && |maxVar| == paramCount && resultCount >= 1
      requires |front| > 0 && GoodFront(front, paramCount, resultCount, minVar, maxVar, false) && |density| == |front|
      requires |s.position| == paramCount && |s.velocity| == paramCount && |s.posBest| == paramCount
      ensures n == s.(leader := n.leader, velocity := n.velocity, position := n.position)
    {
      assert front[0] in front;
      if |front| >= 2 then
        Roulette.WheelShape(density);
        Moving(s, front, Roulette.Wheel(density), t, j, d)
      else
        Moving(s, front, Roulette.Wheel(density), t, j, d)
    }

    /** One particle of the inner loop: select_leader, update_velocity, update_position. */
    method MoveParticle(p: Particle, t: nat, j: nat, wheel: seq<nat>, d: Draws)
      requires ValidDraws(d)
      requires |paretoFront| > 0 && (|paretoFront| >= |paretoFront[0].objectives| + 1 ==> |wheel| >= |paretoFront|)
      requires forall x :: x in paretoFront ==> |x.position| == paramCount
      requires |minVar| == paramCount && |maxVar| == paramCount
      requires Shaped(p, paramCount, minVar, maxVar) && Evaluated(p, paramCount, resultCount)
      modifies p
      ensures p.Snapshot() == Moving(old(p.Snapshot()), paretoFront, wheel, t, j, d)
      ensures Shaped(p, paramCount, minVar, maxVar) && Evaluated(p, paramCount, resultCount)
      ensures Ordered(minVar, maxVar) ==> p.InBounds()
    {
      ghost var s := p.Snapshot();
      p.SelectLeader(paretoFront, wheel, d.wheel(t, j), Row3(d.choice, t, j, |paretoFront|));
      FrontPositionLength(paretoFront, p.leader, paramCount);
      p.UpdateVelocity(inertia, socialParam, cognitiveParam, Row3(d.cognitive, t, j, paramCount),
                       Row3(d.social, t, j, paramCount));
      p.UpdatePosition();
      assert p.Snapshot() == Moving(s, paretoFront, wheel, t, j, d);
    }

    /** The inner loop of an iteration: every particle picks a leader, then moves. */
    method MoveSwarm(swarm: seq<Particle>, t: nat, wheel: seq<nat>, d: Draws, ghost inside: bool)
      requires ValidDraws(d) && Ready(swarm, inside) && (inside ==> Ordered(minVar, maxVar))
      requires |paretoFront| > 0 && (|paretoFront| >= |paretoFront[0].objectives| + 1 ==> |wheel| >= |paretoFront|)
      requires forall x :: x in paretoFront ==> |x.position| == paramCount
      requires |minVar| == paramCount && |maxVar| == paramCount
      modifies set p | p in swarm
      ensures Ready(swarm, inside)
      ensures forall k :: 0 <= k < |swarm| ==>
                swarm[k].Snapshot() == Moving(old(swarm[k].Snapshot()), paretoFront, wheel, t, k, d)
    {
      var j := 0;
      while j < |swarm|
        invariant 0 <= j <= |swarm|
        invariant forall k :: 0 <= k < |swarm| ==>
                    Shaped(swarm[k], paramCount, minVar, maxVar) && Evaluated(swarm[k], paramCount, resultCount)
        invariant inside ==> forall k :: 0 <= k < |swarm| ==> swarm[k].InBounds()
        invariant forall k :: 0 <= k < j ==>
                    swarm[k].Snapshot() == Moving(old(swarm[k].Snapshot()), paretoFront, wheel, t, k, d)
        invariant forall k :: j <= k < |swarm| ==> swarm[k].Snapshot() == old(swarm[k].Snapshot())
      {
        label Before:
        MoveParticle(swarm[j], t, j, wheel, d);
        forall k | 0 <= k < |swarm| && k != j
          ensures swarm[k].Snapshot() == old@Before(swarm[k].Snapshot())
        {
          assert swarm[k] != swarm[j];
        }
        j := j + 1;
      }
    }

    /** proposed_pareto, find_pareto_front and dump_fronts of iteration t. */
    method Archive(proposed: seq<Entry>, t: nat)
      modifies this`paretoFront, this`dumps
      ensures paretoFront == ParetoFront(proposed)
      ensures dumps == old(dumps)[t := paretoFront]
    {
      FindParetoFront(proposed);
      dumps := dumps[t := paretoFront];
    }

    /** The swarm optimise builds, with the first particle moved to the current machine state when asked to. */
    method Seed(d: Draws, currentAp: seq<real>, ghost inside: bool) returns (failure: Option<PyError>, swarm: seq<Particle>)
      requires ValidDraws(d)
      requires |minVar| == paramCount && |maxVar| == paramCount
      requires addCurrent ==> |currentAp| == paramCount
      requires inside == Inside(currentAp)
      ensures failure == Some(IndexError) <==> addCurrent && swarmSize == 0
      ensures failure.None? || failure == Some(IndexError)
      ensures |swarm| == swarmSize && Distinct(swarm)
      ensures forall k :: 0 <= k < |swarm| ==> fresh(swarm[k]) && Shaped(swarm[k], paramCount, minVar, maxVar)
      ensures forall k {:trigger swarm[k].Snapshot()} :: 0 <= k < |swarm| ==> swarm[k].Snapshot() == Seeded(d, currentAp, k)
      ensures inside ==> forall k :: 0 <= k < |swarm| ==> swarm[k].InBounds()
    {
      swarm := BuildSwarm(d);
      failure := None;
      if addCurrent {
        if swarmSize == 0 {
          return Some(IndexError), swarm;
        }
        label Before:
        swarm[0].ChoosePosition(currentAp);
        forall k | 1 <= k < |swarm|
          ensures swarm[k].Snapshot() == old@Before(swarm[k].Snapshot())
        {
          assert swarm[k] != swarm[0];
        }
      }
    }

    /** The initial evaluation: every particle's personal best becomes its first reading. */
    method FirstEvaluation(swarm: seq<Particle>, measure: (nat, nat, seq<real>) -> Reading,
                           pressed: (nat, nat) -> bool, ghost inside: bool)
      returns (raised: bool)
      requires forall t, j, x :: |measure(t, j, x).means| == resultCount
      requires |swarm| == swarmSize && Distinct(swarm)
      requires forall k :: 0 <= k < |swarm| ==> Shaped(swarm[k], paramCount, minVar, maxVar)
      requires inside ==> forall k :: 0 <= k < |swarm| ==> swarm[k].InBounds()
      modifies this`cancel, set p | p in swarm
      ensures raised <==> maxIter == 0 || swarmSize == 0
      ensures !raised ==> (cancel <==> old(cancel) || exists i :: 0 <= i < swarmSize && pressed(0, i))
      ensures raised || cancel ==> forall k {:trigger swarm[k].Snapshot()} :: 0 <= k < |swarm| ==> swarm[k].Snapshot() == old(swarm[k].Snapshot())
      ensures !raised && !cancel ==> Ready(swarm, inside)
      ensures !raised && !cancel ==> forall k {:trigger swarm[k].Snapshot()} :: 0 <= k < |swarm| ==>
                swarm[k].Snapshot() == Assessed(old(swarm[k].Snapshot()), measure(0, k, old(swarm[k].position)), true)
      ensures !raised && !cancel ==> forall k :: 0 <= k < |swarm| ==>
                swarm[k].posBest == swarm[k].position && swarm[k].fitBest == swarm[k].fit
    {
      raised := Evaluate(swarm, 0, true, measure, pressed);
      if !raised && !cancel {
        forall k | 0 <= k < |swarm|
          ensures Shaped(swarm[k], paramCount, minVar, maxVar) && Evaluated(swarm[k], paramCount, resultCount)
          ensures inside ==> swarm[k].InBounds()
        {
          assert swarm[k].position == old(swarm[k].position);
          assert swarm[k].velocity == old(swarm[k].velocity);
        }
      }
    }

    /** The archive of iteration 0: the front of the freshly evaluated swarm. */
    method ArchiveFirst(swarm: seq<Particle>, ghost inside: bool)
      requires resultCount >= 1 && swarmSize >= 1 && (inside ==> Ordered(minVar, maxVar))
      requires Ready(swarm, inside)
      modifies this`paretoFront, this`dumps, this`completedIteration, this`lastEntries
      ensures paretoFront == ParetoFront(SwarmEntries(swarm)) && dumps == old(dumps)[0 := paretoFront]
      ensures Archived(inside) && Filed() && completedIteration == 1 && Latest(swarm)
    {
      var proposed := SwarmEntries(swarm);
      ProposedShape(swarm, [], paramCount, resultCount, minVar, maxVar, inside);
      Archive(proposed, 0);
      FrontNonEmpty(proposed, resultCount);
      KeptFrom(proposed);
      completedIteration := 1;
      lastEntries := proposed;
    }

    /** The exception the part of optimise before the iterations raises, if any, for the initial cancel flag. */
    ghost function StartFailure(cancelled: bool, pressed: (nat, nat) -> bool): Option<PyError>
    {
      if addCurrent && swarmSize == 0 then Some(IndexError)
      else if maxIter == 0 || swarmSize == 0 then Some(ZeroDivisionError)
      else if cancelled || exists i :: 0 <= i < swarmSize && pressed(0, i) then Some(AttributeError)
      else None
    }

    /**
     * The part of optimise before the iterations: build the swarm, seed the
     * first particle with the current machine state if asked to, evaluate,
     * and archive the front of the swarm as iteration 0.
     */
    method Start(d: Draws, currentAp: seq<real>, measure: (nat, nat, seq<real>) -> Reading,
                 pressed: (nat, nat) -> bool, ghost inside: bool)
      returns (failure: Option<PyError>, swarm: seq<Particle>)
      requires ValidDraws(d)
      requires |minVar| == paramCount && |maxVar| == paramCount && resultCount >= 1
      requires addCurrent ==> |currentAp| == paramCount
      requires inside == Inside(currentAp)
      requires forall t, j, x :: |measure(t, j, x).means| == resultCount
      modifies this`cancel, this`paretoFront, this`dumps, this`completedIteration, this`lastEntries
      ensures failure == Some(IndexError) <==> addCurrent && swarmSize == 0
      ensures failure == Some(ZeroDivisionError) <==> !(addCurrent && swarmSize == 0) && (maxIter == 0 || swarmSize == 0)
      ensures failure == Some(AttributeError) <==>
                swarmSize > 0 && maxIter > 0 && (old(cancel) || exists i :: 0 <= i < swarmSize && pressed(0, i))
      ensures failure == StartFailure(old(cancel), pressed)
      ensures forall k :: 0 <= k < |swarm| ==> fresh(swarm[k])
      ensures failure.None? ==> Ready(swarm, inside) && Archived(inside) && completedIteration == 1 && !cancel
      ensures failure.None? ==> paretoFront == ParetoFront(SwarmEntries(swarm)) && dumps == old(dumps)[0 := paretoFront]
      ensures failure.None? ==> Latest(swarm) && Filed()
      ensures failure.None? ==> forall k {:trigger swarm[k].Snapshot()} :: 0 <= k < |swarm| ==>
                swarm[k].Snapshot() == Assessed(Seeded(d, currentAp, k), measure(0, k, Seeded(d, currentAp, k).position), true)
    {
      failure, swarm := Seed(d, currentAp, inside);
      if failure.Some? {
        return;
      }
      var raised := FirstEvaluation(swarm, measure, pressed, inside);
      if raised {
        return Some(ZeroDivisionError), swarm;
      }
      if cancel {
        // proposed_pareto reads stand_div, which no particle has yet
        return Some(AttributeError), swarm;
      }
      ArchiveFirst(swarm, inside);
    }

    /** The evaluation of an iteration: every particle records its reading unless a cancel is pressed. */
    method Reevaluate(swarm: seq<Particle>, t: nat, measure: (nat, nat, seq<real>) -> Reading,
                      pressed: (nat, nat) -> bool, ghost inside: bool)
      requires 1 <= maxIter && 1 <= swarmSize && !cancel
      requires forall t, j, x :: |measure(t, j, x).means| == resultCount
      requires Ready(swarm, inside) && Archived(inside) && Filed()
      modifies this`cancel, set p | p in swarm
      ensures Ready(swarm, inside) && Archived(inside) && Filed()
      ensures cancel <==> exists i :: 0 <= i < swarmSize && pressed(t, i)
      ensures cancel ==> forall k :: 0 <= k < |swarm| ==> swarm[k].Snapshot() == old(swarm[k].Snapshot())
      ensures cancel && old(Scored(swarm)) ==> Scored(swarm)
      ensures !cancel ==> forall k :: 0 <= k < |swarm| ==>
                swarm[k].Snapshot() == Assessed(old(swarm[k].Snapshot()), measure(t, k, old(swarm[k].position)), false)
    {
      var raised := Evaluate(swarm, t, false, measure, pressed);
      forall k | 0 <= k < |swarm|
        ensures Shaped(swarm[k], paramCount, minVar, maxVar) && Evaluated(swarm[k], paramCount, resultCount)
        ensures inside ==> swarm[k].InBounds()
      {
        assert swarm[k].position == old(swarm[k].position);
        assert swarm[k].velocity == old(swarm[k].velocity);
      }
      if cancel && old(Scored(swarm)) {
        forall k | 0 <= k < |swarm|
          ensures && swarm[k].standDiv.Some? && lastEntries[k].objectives == swarm[k].fit
                  && lastEntries[k].errors == swarm[k].error && lastEntries[k].devs == swarm[k].standDiv.value
        {
          assert swarm[k].Snapshot() == old(swarm[k].Snapshot());
        }
      }
    }

    /** proposed_pareto, find_pareto_front, dump_fronts and the iteration count after a completed evaluation. */
    method Advance(swarm: seq<Particle>, ghost inside: bool)
      requires resultCount >= 1 && (inside ==> Ordered(minVar, maxVar))
      requires Ready(swarm, inside) && Archived(inside)
      modifies this`paretoFront, this`dumps, this`completedIteration, this`lastEntries
      ensures paretoFront == ParetoFront(SwarmEntries(swarm) + old(paretoFront))
      ensures dumps == old(dumps)[old(completedIteration) := paretoFront]
      ensures Archived(inside) && Filed() && completedIteration == old(completedIteration) + 1 && Latest(swarm)
    {
      var proposed := SwarmEntries(swarm) + paretoFront;
      ProposedShape(swarm, paretoFront, paramCount, resultCount, minVar, maxVar, inside);
      ghost var before := paretoFront;
      Archive(proposed, completedIteration);
      FrontNonEmpty(proposed, resultCount);
      KeptFrom(proposed);
      completedIteration := completedIteration + 1;
      lastEntries := SwarmEntries(swarm);
      assert dumps[completedIteration - 2] == before;
      assert Proposal() == proposed;
    }

    /**
     * get_leader_roulette_wheel on the archive, then every particle moves
     * towards a leader drawn from the archive; a raise in normalised_front
     * leaves every particle as it was.
     */
    method Lead(swarm: seq<Particle>, t: nat, d: Draws, density: seq<Entry> -> seq<nat>, ghost inside: bool)
      returns (failure: Option<PyError>)
      requires ValidDraws(d) && |minVar| == paramCount && |maxVar| == paramCount && resultCount >= 1
      requires inside ==> Ordered(minVar, maxVar)
      requires forall f :: |density(f)| == |f|
      requires Ready(swarm, inside) && Archived(inside) && Latest(swarm) && Filed()
      modifies set p | p in swarm
      ensures failure == NormaliseFailure(paretoFront)
      ensures Ready(swarm, inside) && Archived(inside) && Filed()
      ensures failure.Some? ==> unchanged(set p | p in swarm) && Latest(swarm)
      ensures failure.None? ==> Scored(swarm)
      ensures failure.None? ==> forall k :: 0 <= k < |swarm| ==>
                swarm[k].Snapshot() == Led(old(swarm[k].Snapshot()), paretoFront, density(paretoFront), t, k, d)
    {
      var wheel;
      failure, wheel := GetLeaderRouletteWheel(density);
      if failure.Some? {
        return;
      }
      assert paretoFront[0] in paretoFront;
      if |paretoFront| >= 2 {
        Roulette.WheelShape(density(paretoFront));
      }
      MoveScored(swarm, t, wheel, d, inside);
    }

    /**
     * MoveSwarm, keeping the last proposal's record of the scores: a move
     * changes leader, velocity and position and leaves fit, error and
     * stand_div alone.
     */
    method MoveScored(swarm: seq<Particle>, t: nat, wheel: seq<nat>, d: Draws, ghost inside: bool)
      requires ValidDraws(d) && Ready(swarm, inside) && (inside ==> Ordered(minVar, maxVar)) && Latest(swarm)
      requires Archived(inside) && Filed()
      requires |paretoFront| > 0 && (|paretoFront| >= |paretoFront[0].objectives| + 1 ==> |wheel| >= |paretoFront|)
      requires forall x :: x in paretoFront ==> |x.position| == paramCount
      requires |minVar| == paramCount && |maxVar| == paramCount
      modifies set p | p in swarm
      ensures Ready(swarm, inside) && Scored(swarm) && Archived(inside) && Filed()
      ensures forall k :: 0 <= k < |swarm| ==>
                swarm[k].Snapshot() == Moving(old(swarm[k].Snapshot()), paretoFront, wheel, t, k, d)
    {
      MoveSwarm(swarm, t, wheel, d, inside);
      forall k | 0 <= k < |swarm|
        ensures && swarm[k].standDiv.Some? && lastEntries[k].objectives == swarm[k].fit
                && lastEntries[k].errors == swarm[k].error && lastEntries[k].devs == swarm[k].standDiv.value
      {
        assert swarm[k].Snapshot() == Moving(old(swarm[k].Snapshot()), paretoFront, wheel, t, k, d);
        assert lastEntries[k] == old(EntryOf(swarm[k]));
      }
    }

    /**
     * The particle phase of iteration t: the wheel, the moves, and the
     * evaluation. cancelled reports a cancel pressed during the evaluation.
     */
    method Steer(swarm: seq<Particle>, t: nat, d: Draws, measure: (nat, nat, seq<real>) -> Reading,
                 pressed: (nat, nat) -> bool, density: seq<Entry> -> seq<nat>, ghost inside: bool)
      returns (failure: Option<PyError>, cancelled: bool)
      requires ValidDraws(d) && 1 <= maxIter && 1 <= swarmSize
      requires |minVar| == paramCount && |maxVar| == paramCount && resultCount >= 1
      requires inside ==> Ordered(minVar, maxVar)
      requires forall t, j, x :: |measure(t, j, x).means| == resultCount
      requires forall f :: |density(f)| == |f|
      requires Ready(swarm, inside) && Archived(inside) && !cancel && Latest(swarm) && Filed()
      modifies this`cancel, set p | p in swarm
      ensures Ready(swarm, inside) && Archived(inside) && Filed()
      ensures failure == NormaliseFailure(paretoFront)
      ensures cancelled == cancel && (cancelled ==> failure.None?)
      ensures cancelled <==> failure.None? && exists i :: 0 <= i < swarmSize && pressed(t, i)
      ensures failure.Some? ==> unchanged(set p | p in swarm) && Latest(swarm)
      ensures cancelled ==> Scored(swarm)
      ensures failure.None? ==> forall k {:trigger swarm[k].Snapshot()} :: 0 <= k < |swarm| ==>
                var moved := Led(old(swarm[k].Snapshot()), paretoFront, density(paretoFront), t, k, d);
                swarm[k].Snapshot() == if cancelled then moved else Assessed(moved, measure(t, k, moved.position), false)
    {
      failure := Lead(swarm, t, d, density, inside);
      if failure.Some? {
        return failure, false;
      }
      Reevaluate(swarm, t, measure, pressed, inside);
      cancelled := cancel;
    }

    /**
     * The last proposal holds the swarm's entries as they are now; with
     * Filed, the archive is the front of the swarm's entries, together with
     * the archive before the last iteration after the first.
     */
    ghost predicate Latest(swarm: seq<Particle>)
      reads this`lastEntries, set p | p in swarm
      requires forall k :: 0 <= k < |swarm| ==> swarm[k].standDiv.Some?
    {
      lastEntries == SwarmEntries(swarm)
    }

    /**
     * The last proposal holds the fit, error and stand_div the particles
     * still carry from the last completed evaluation (their positions may
     * have moved since).
     */
    ghost predicate Scored(swarm: seq<Particle>)
      reads this`lastEntries, set p | p in swarm
    {
      && |lastEntries| == |swarm|
      && forall k :: 0 <= k < |swarm| ==>
           && swarm[k].standDiv.Some? && lastEntries[k].objectives == swarm[k].fit
           && lastEntries[k].errors == swarm[k].error && lastEntries[k].devs == swarm[k].standDiv.value
    }

    /** Every archive dumped before iteration n was normalised without a raise. */
    ghost predicate Normalised(n: nat)
      reads this`dumps
    {
      Clean(dumps, n)
    }

    /**
     * One pass of the loop of optimise, iteration t: the particle phase,
     * then, unless it raised or was cancelled, the archive update.
     */
    method Round(swarm: seq<Particle>, t: nat, d: Draws, measure: (nat, nat, seq<real>) -> Reading,
                 pressed: (nat, nat) -> bool, density: seq<Entry> -> seq<nat>, ghost inside: bool)
      returns (failure: Option<PyError>, cancelled: bool)
      requires ValidDraws(d) && 1 <= swarmSize && 1 <= t == completedIteration < maxIter
      requires |minVar| == paramCount && |maxVar| == paramCount && resultCount >= 1
      requires inside ==> Ordered(minVar, maxVar)
      requires forall t, j, x :: |measure(t, j, x).means| == resultCount
      requires forall f :: |density(f)| == |f|
      requires Ready(swarm, inside) && Archived(inside) && !cancel && Normalised(t) && Latest(swarm) && Filed()
      modifies this`cancel, this`paretoFront, this`dumps, this`completedIteration, this`lastEntries, set p | p in swarm
      ensures Ready(swarm, inside) && Archived(inside) && Filed() && cancelled == cancel
      ensures failure.Some? || cancelled ==> completedIteration == t && Normalised(t) && unchanged(this`paretoFront, this`dumps, this`lastEntries)
      ensures failure.Some? ==> !cancelled && NormaliseFailure(paretoFront) == failure && Latest(swarm)
      ensures cancelled ==> failure.None? && NormaliseFailure(paretoFront).None? && exists i :: 0 <= i < swarmSize && pressed(t, i)
      ensures cancelled ==> Scored(swarm)
      ensures cancelled ==> forall k {:trigger swarm[k].Snapshot()} :: 0 <= k < |swarm| ==>
                swarm[k].Snapshot() == Led(old(swarm[k].Snapshot()), paretoFront, density(paretoFront), t, k, d)
      ensures failure.None? && !cancelled ==> completedIteration == t + 1 && Normalised(t + 1) && Latest(swarm)
    {
      failure, cancelled := Steer(swarm, t, d, measure, pressed, density, inside);
      if failure.Some? || cancelled {
        return;
      }
      Extend(swarm, inside);
    }

    /** Advance after iteration completedIteration, keeping the record that no dumped archive raised. */
    method Extend(swarm: seq<Particle>, ghost inside: bool)
      requires resultCount >= 1 && (inside ==> Ordered(minVar, maxVar)) && completedIteration >= 1
      requires Ready(swarm, inside) && Archived(inside) && Normalised(completedIteration)
      requires NormaliseFailure(paretoFront).None?
      modifies this`paretoFront, this`dumps, this`completedIteration, this`lastEntries
      ensures Ready(swarm, inside) && Archived(inside) && Filed() && Latest(swarm)
      ensures completedIteration == old(completedIteration) + 1 && Normalised(completedIteration)
    {
      ghost var before := dumps;
      ghost var front := paretoFront;
      ghost var t := completedIteration;
      Advance(swarm, inside);
      CleanGrows(before, t, paretoFront, front);
    }

    /**
     * The loop of optimise after the start: iterations completedIteration ..
     * max_iter - 1 until done, cancelled, or raised by normalised_front.
     */
    method Run(swarm: seq<Particle>, d: Draws, measure: (nat, nat, seq<real>) -> Reading,
               pressed: (nat, nat) -> bool, density: seq<Entry> -> seq<nat>, ghost inside: bool)
      returns (outcome: Outcome)
      requires ValidDraws(d) && 1 <= swarmSize && completedIteration == 1 <= maxIter
      requires |minVar| == paramCount && |maxVar| == paramCount && resultCount >= 1
      requires inside ==> Ordered(minVar, maxVar)
      requires forall t, j, x :: |measure(t, j, x).means| == resultCount
      requires forall f :: |density(f)| == |f|
      requires Ready(swarm, inside) && Archived(inside) && !cancel && Latest(swarm) && Filed()
      modifies this`cancel, this`paretoFront, this`dumps, this`completedIteration, this`lastEntries, set p | p in swarm
      ensures 1 <= completedIteration <= maxIter && Archived(inside) && Ready(swarm, inside)
      ensures paretoFront == ParetoFront(Proposal()) && Normalised(completedIteration)
      ensures outcome == Completed ==> completedIteration == maxIter && !cancel && Latest(swarm)
      ensures outcome == Cancelled ==>
                && completedIteration < maxIter && cancel && Scored(swarm)
                && NormaliseFailure(paretoFront).None? && exists i :: 0 <= i < swarmSize && pressed(completedIteration, i)
      ensures outcome.Raised? ==>
                && completedIteration < maxIter && !cancel && Latest(swarm)
                && NormaliseFailure(paretoFront) == Some(outcome.error)
    {
      var t := 1;
      while t < maxIter
        invariant 1 <= t <= maxIter && completedIteration == t
        invariant Ready(swarm, inside) && Archived(inside) && !cancel && Latest(swarm) && Filed() && Normalised(t)
      {
        var failure, cancelled := Round(swarm, t, d, measure, pressed, density, inside);
        if failure.Some? {
          return Raised(failure.value);
        }
        if cancelled {
          return Cancelled;
        }
        t := t + 1;
      }
      return Completed;
    }

    /**
     * optimise: the start, then the iterations. currentAp is what get_ap
     * returns when the current machine state seeds the first particle.
     */
    method Optimise(d: Draws, currentAp: seq<real>, measure: (nat, nat, seq<real>) -> Reading,
                    pressed: (nat, nat) -> bool, density: seq<Entry> -> seq<nat>)
      returns (outcome: Outcome, swarm: seq<Particle>)
      requires ValidDraws(d)
      requires |minVar| == paramCount && |maxVar| == paramCount && resultCount >= 1
      requires addCurrent ==> |currentAp| == paramCount
      requires forall t, j, x :: |measure(t, j, x).means| == resultCount
      requires forall f :: |density(f)| == |f|
      modifies this
      ensures StartFailure(old(cancel), pressed).Some? ==> outcome == Raised(StartFailure(old(cancel), pressed).value)
      ensures StartFailure(old(cancel), pressed).None? ==>
                && 1 <= completedIteration <= maxIter
                && Archived(Inside(currentAp)) && Ready(swarm, Inside(currentAp)) && Normalised(completedIteration)
                && paretoFront == ParetoFront(Proposal())
      ensures outcome == Completed ==>
                && StartFailure(old(cancel), pressed).None? && completedIteration == maxIter && !cancel && Latest(swarm)
      ensures outcome == Cancelled ==>
                && StartFailure(old(cancel), pressed).None? && completedIteration < maxIter && cancel && Scored(swarm)
                && NormaliseFailure(paretoFront).None? && exists i :: 0 <= i < swarmSize && pressed(completedIteration, i)
      ensures outcome.Raised? && StartFailure(old(cancel), pressed).None? ==>
                && completedIteration < maxIter && !cancel && Latest(swarm)
                && NormaliseFailure(paretoFront) == Some(outcome.error)
    {
      ghost var inside := Inside(currentAp);
      var failure;
      failure, swarm := Start(d, currentAp, measure, pressed, inside);
      if failure.Some? {
        return Raised(failure.value), swarm;
      }
      outcome := Run(swarm, d, measure, pressed, density, inside);
    }
  }

  /** Every dump before the n-th is present and normalises without a raise. */
  ghost predicate Clean(dumps: map<nat, seq<Entry>>, n: nat)
  {
    forall u :: 0 <= u && u + 1 < n ==> u in dumps && NormaliseFailure(dumps[u]).None?
  }

  /** Dumping under t keeps the earlier dumps, and the one under t - 1 was normalised without a raise. */
  lemma CleanGrows(dumps: map<nat, seq<Entry>>, t: nat, next: seq<Entry>, front: seq<Entry>)
    requires t >= 1 && Clean(dumps, t) && t - 1 in dumps && dumps[t - 1] == front
    requires NormaliseFailure(front).None?
    ensures Clean(dumps[t := next], t + 1)
  {
  }

  lemma FrontPositionLength(front: seq<Entry>, lead: seq<real>, n: nat)
    requires forall x :: x in front ==> |x.position| == n
    requires lead in PositionsOf(front)
    ensures |lead| == n
  {
    var k :| 0 <= k < |front| && PositionsOf(front)[k] == lead;
    assert front[k] in front;
  }

  /** Every archive member is one of the candidates it was filtered from. */
  lemma KeptFrom(e: seq<Entry>)
    ensures forall x :: x in ParetoFront(e) ==> x in e
  {
    forall x | x in ParetoFront(e)
      ensures x in e
    {
      KeepMembers(e, DeleteList(GetParetoObjectives(e)), 0, x);
    }
  }

  /** The candidate list of an iteration inherits the shape of the swarm and of the old archive. */
  lemma ProposedShape(swarm: seq<Particle>, front: seq<Entry>, n: nat, m: nat, lower: seq<real>, upper: seq<real>,
                      inside: bool)
    requires forall k :: 0 <= k < |swarm| ==> swarm[k].standDiv.Some?
    requires forall k :: 0 <= k < |swarm| ==> Shaped(swarm[k], n, lower, upper) && Evaluated(swarm[k], n, m)
    requires inside ==> Ordered(lower, upper) && forall k :: 0 <= k < |swarm| ==> swarm[k].InBounds()
    requires GoodFront(front, n, m, lower, upper, inside)
    ensures GoodFront(SwarmEntries(swarm) + front, n, m, lower, upper, inside)
  {
    var e := SwarmEntries(swarm);
    forall x | x in e + front
      ensures |x.objectives| == m && |x.position| == n
      ensures inside ==> Within(x.position, lower, upper)
    {
      if x !in front {
        var k :| 0 <= k < |e| && e[k] == x;
      }
    }
  }
}
