/**
 * The archive filter of the multi-objective particle swarm: the pairwise
 * dominance test (pareto_remover), the personal-best test (pareto_test) and
 * find_pareto_front, which collects the indices the dominance test names,
 * deletes them from the candidate list and keeps the rest in order.
 *
 * Objective tuples are compared component by component over the pairs that
 * zip() forms. The entry that is strictly LARGER in every component is the
 * one deleted, so the archive keeps the component-wise minimal candidates.
 */
module Pareto {
  import opened Wrappers

  type Objectives = seq<real>

  /** One archive candidate: position, objective means, their errors and standard deviations. */
  datatype Entry = Entry(position: seq<real>, objectives: Objectives, errors: seq<real>, devs: seq<real>)

  /** Number of component pairs zip(a, b) forms. */
  function Common(a: Objectives, b: Objectives): nat
  {
    if |a| <= |b| then |a| else |b|
  }

  predicate AllGreater(a: Objectives, b: Objectives)
  {
    forall i :: 0 <= i < Common(a, b) ==> a[i] > b[i]
  }

  predicate AllLess(a: Objectives, b: Objectives)
  {
    forall i :: 0 <= i < Common(a, b) ==> a[i] < b[i]
  }

  predicate AllEqual(a: Objectives, b: Objectives)
  {
    forall i :: 0 <= i < Common(a, b) ==> a[i] == b[i]
  }

  /** x is at least y in every zipped component. */
  predicate AtLeast(x: Objectives, y: Objectives)
  {
    forall i :: 0 <= i < Common(x, y) ==> x[i] >= y[i]
  }

  /**
   * pareto_remover: the tuple to delete, which is the component-wise larger
   * of the two; on component-wise equality the second one; None (Python's
   * False) when the two are not ordered.
   */
  function Remover(a: Objectives, b: Objectives): (r: Option<Objectives>)
    ensures r.Some? ==> (r.value == a && AtLeast(a, b)) || (r.value == b && AtLeast(b, a))
    ensures r.None? <==> !AllGreater(a, b) && !AllLess(a, b) && !AllEqual(a, b)
    ensures Common(a, b) > 0 && AllEqual(a, b) ==> r == Some(b)
  {
    if AllGreater(a, b) then
      assert Common(a, b) > 0 ==> a[0] > b[0];
      Some(a)
    else if AllLess(a, b) then Some(b)
    else if AllEqual(a, b) then Some(b)
    else None
  }

  /**
   * pareto_test: False exactly when a is strictly larger than b in every
   * component, which for non-empty tuples is exactly when pareto_remover would
   * delete a and the two are not equal.
   */
  function ParetoTest(a: Objectives, b: Objectives): (keep: bool)
    ensures !keep ==> Remover(a, b) == Some(a)
    ensures Common(a, b) > 0 ==> (!keep <==> Remover(a, b) == Some(a) && !AllEqual(a, b))
  {
    assert Common(a, b) > 0 ==> (a[0] > b[0] || !AllGreater(a, b)) && (AllLess(a, b) ==> a[0] < b[0]);
    !AllGreater(a, b)
  }

  /** get_pareto_objectives: the objective tuple of every candidate, in order. */
  function GetParetoObjectives(swarm: seq<Entry>): (objs: seq<Objectives>)
    ensures |objs| == |swarm|
    ensures forall k :: 0 <= k < |swarm| ==> objs[k] == swarm[k].objectives
  {
    seq(|swarm|, k requires 0 <= k < |swarm| => swarm[k].objectives)
  }

  /** list.index: the position of the first element equal to x. */
  function IndexOf(s: seq<Objectives>, x: Objectives): (k: nat)
    requires x in s
    ensures k < |s| && s[k] == x
    ensures forall m :: 0 <= m < k ==> s[m] != x
  {
    if s[0] == x then 0 else 1 + IndexOf(s[1..], x)
  }

  /** The tuple (if any) that comparing candidate i with candidate j names for deletion. */
  function PairTarget(o: seq<Objectives>, i: nat, j: nat): seq<Objectives>
    requires i < |o| && j < |o|
  {
    if i == j then []
    else match Remover(o[i], o[j])
      case None => []
      case Some(r) => [r]
  }

  /** The pair comparisons of the candidate list, as a function of the two loop indices. */
  function Pairs(o: seq<Objectives>): (nat, nat) -> seq<Objectives>
  {
    (i: nat, j: nat) => if i < |o| && j < |o| then PairTarget(o, i, j) else []
  }

  /** What a row of nested loops collects: pair(i, 0) + ... + pair(i, j - 1). */
  function RowOf<T>(pair: (nat, nat) -> seq<T>, i: nat, j: nat): seq<T>
  {
    if j == 0 then [] else RowOf(pair, i, j - 1) + pair(i, j - 1)
  }

  /** What rows 0 .. i-1 of nested loops over n columns collect, row after row. */
  function TableOf<T>(pair: (nat, nat) -> seq<T>, n: nat, i: nat): seq<T>
  {
    if i == 0 then [] else TableOf(pair, n, i - 1) + RowOf(pair, i - 1, n)
  }

  /** What the inner loop names for candidate i against candidates 0 .. j-1. */
  function RowTargets(o: seq<Objectives>, i: nat, j: nat): seq<Objectives>
    requires i < |o| && j <= |o|
  {
    RowOf(Pairs(o), i, j)
  }

  /** What the nested loops name for candidates 0 .. i-1. */
  function Targets(o: seq<Objectives>, i: nat): seq<Objectives>
    requires i <= |o|
  {
    TableOf(Pairs(o), |o|, i)
  }

  /**
   * current_swarm.index(r) for every named tuple r, in the order they are
   * named. Every named tuple is one of the candidates' own tuples, so the
   * fallback |o| (where list.index would raise) is never taken.
   */
  function Positions(o: seq<Objectives>, rs: seq<Objectives>): seq<nat>
  {
    seq(|rs|, t requires 0 <= t < |rs| => if rs[t] in o then IndexOf(o, rs[t]) else |o|)
  }

  /** indices_to_delete of find_pareto_front, before it is deduplicated. */
  function DeleteList(o: seq<Objectives>): seq<nat>
  {
    Positions(o, Targets(o, |o|))
  }

  /** Comparing candidates i != j names a tuple whose first position is k. */
  ghost predicate Targeted(o: seq<Objectives>, k: nat)
  {
    exists i, j :: 0 <= i < |o| && 0 <= j < |o| && i != j && Remover(o[i], o[j]).Some?
                   && Remover(o[i], o[j]).value in o && IndexOf(o, Remover(o[i], o[j]).value) == k
  }

  /** The candidates from position k on whose index is not doomed, in their original order. */
  function KeepFrom(e: seq<Entry>, doomed: seq<nat>, k: nat): seq<Entry>
    requires k <= |e|
    decreases |e| - k
  {
    if k == |e| then []
    else (if k in doomed then [] else [e[k]]) + KeepFrom(e, doomed, k + 1)
  }

  /** The archive find_pareto_front leaves behind for the candidate list e. */
  function ParetoFront(e: seq<Entry>): seq<Entry>
  {
    KeepFrom(e, DeleteList(GetParetoObjectives(e)), 0)
  }

  /**
   * find_pareto_front: nested loops over all ordered pairs collect the
   * indices to delete, which are then deleted from the highest down.
   */
  method FindFront(swarm: seq<Entry>) returns (front: seq<Entry>)
    ensures front == ParetoFront(swarm)
  {
    var current := GetParetoObjectives(swarm);
    var toDelete: seq<nat> := [];
    var i := 0;
    while i < |current|
      invariant 0 <= i <= |current|
      invariant toDelete == Positions(current, Targets(current, i))
    {
      toDelete := CollectRow(current, i, toDelete);
      i := i + 1;
    }
    front := DeleteDescending(swarm, toDelete);
  }

  /** The inner loop of find_pareto_front: candidate i against every other candidate. */
  method CollectRow(current: seq<Objectives>, i: nat, toDelete: seq<nat>) returns (extended: seq<nat>)
    requires i < |current| && toDelete == Positions(current, Targets(current, i))
    ensures extended == Positions(current, Targets(current, i + 1))
  {
    extended := toDelete;
    var j := 0;
    TargetsStep(current, i);
    while j < |current|
      invariant 0 <= j <= |current|
      invariant extended == Positions(current, Targets(current, i) + RowTargets(current, i, j))
    {
      CollectStep(current, i, j);
      extended := Compare(current, i, j, extended);
      assert extended == Positions(current, Targets(current, i) + RowTargets(current, i, j + 1));
      j := j + 1;
    }
  }

  /** One pass of the inner loop body: compare candidate i with candidate j. */
  method Compare(current: seq<Objectives>, i: nat, j: nat, toDelete: seq<nat>) returns (extended: seq<nat>)
    requires i < |current| && j < |current|
    ensures extended == toDelete + if i != j && Remover(current[i], current[j]).Some?
                                   then [IndexOf(current, Remover(current[i], current[j]).value)] else []
  {
    extended := toDelete;
    if i != j {
      var r := Remover(current[i], current[j]);
      if r.Some? {
        extended := extended + [IndexOf(current, r.value)];
      }
    }
  }

  /** The del statements of find_pareto_front: every doomed position goes, highest first. */
  method DeleteDescending(swarm: seq<Entry>, doomed: seq<nat>) returns (front: seq<Entry>)
    ensures front == KeepFrom(swarm, doomed, 0)
  {
    front := swarm;
    var k := |swarm|;
    while k > 0
      invariant 0 <= k <= |swarm|
      invariant front == swarm[..k] + KeepFrom(swarm, doomed, k)
    {
      k := k - 1;
      if k in doomed {
        front := front[..k] + front[k + 1..];
      } else {
        assert swarm[..k + 1] == swarm[..k] + [swarm[k]];
      }
    }
  }

  // ---------------------------------------------------------------------
  // What the delete list contains

  /** The outer loop: the rows of candidates 0 .. i, built from an empty row. */
  lemma TargetsStep(o: seq<Objectives>, i: nat)
    requires i < |o|
    ensures Targets(o, i) + RowTargets(o, i, 0) == Targets(o, i)
    ensures Targets(o, i + 1) == Targets(o, i) + RowTargets(o, i, |o|)
  {
    assert RowTargets(o, i, 0) == [];
  }

  /** One more step of the inner loop names what comparing i with j names. */
  lemma RowStep(o: seq<Objectives>, i: nat, j: nat)
    requires i < |o| && j < |o|
    ensures Targets(o, i) + RowTargets(o, i, j + 1) == (Targets(o, i) + RowTargets(o, i, j)) + PairTarget(o, i, j)
    ensures PairTarget(o, i, j) == if i != j && Remover(o[i], o[j]).Some? then [Remover(o[i], o[j]).value] else []
  {
    assert Pairs(o)(i, j) == PairTarget(o, i, j);
    assert RowTargets(o, i, j + 1) == RowTargets(o, i, j) + PairTarget(o, i, j);
  }

  /** Looking up the positions of two lists of tuples one after the other. */
  lemma PositionsAppend(o: seq<Objectives>, xs: seq<Objectives>, ys: seq<Objectives>)
    ensures Positions(o, xs + ys) == Positions(o, xs) + Positions(o, ys)
  {
  }

  /** What one comparison of the inner loop appends. */
  lemma CollectStep(o: seq<Objectives>, i: nat, j: nat)
    requires i < |o| && j < |o|
    ensures Positions(o, Targets(o, i) + RowTargets(o, i, j + 1))
         == Positions(o, Targets(o, i) + RowTargets(o, i, j))
            + (if i != j && Remover(o[i], o[j]).Some? then [IndexOf(o, Remover(o[i], o[j]).value)] else [])
  {
    var named := Targets(o, i) + RowTargets(o, i, j);
    RowStep(o, i, j);
    PositionsAppend(o, named, PairTarget(o, i, j));
    if i != j && Remover(o[i], o[j]).Some? {
      assert Positions(o, PairTarget(o, i, j)) == [IndexOf(o, Remover(o[i], o[j]).value)];
    } else {
      assert Positions(o, PairTarget(o, i, j)) == [];
    }
  }

  /** Whatever a row collects comes from one of its pairs. */
  lemma {:induction false} RowWitness<T>(pair: (nat, nat) -> seq<T>, i: nat, j: nat, r: T) returns (b: nat)
    requires r in RowOf(pair, i, j)
    ensures b < j && r in pair(i, b)
  {
    var earlier := RowOf(pair, i, j - 1);
    assert RowOf(pair, i, j) == earlier + pair(i, j - 1);
    if r in earlier {
      b := RowWitness(pair, i, j - 1, r);
    } else {
      b := j - 1;
    }
  }

  /** A row collects everything its pairs name. */
  lemma {:induction false} RowComplete<T>(pair: (nat, nat) -> seq<T>, i: nat, j: nat, b: nat, r: T)
    requires b < j && r in pair(i, b)
    ensures r in RowOf(pair, i, j)
  {
    var earlier := RowOf(pair, i, j - 1);
    assert RowOf(pair, i, j) == earlier + pair(i, j - 1);
    if b < j - 1 {
      RowComplete(pair, i, j - 1, b, r);
      assert r in earlier;
    }
  }

  /** Whatever the nested loops collect comes from one pair (a, b) they visit. */
  lemma {:induction false} TableWitness<T>(pair: (nat, nat) -> seq<T>, n: nat, i: nat, r: T) returns (a: nat, b: nat)
    requires r in TableOf(pair, n, i)
    ensures a < i && b < n && r in pair(a, b)
  {
    var earlier, row := TableOf(pair, n, i - 1), RowOf(pair, i - 1, n);
    assert TableOf(pair, n, i) == earlier + row;
    if r in earlier {
      a, b := TableWitness(pair, n, i - 1, r);
    } else {
      assert r in row;
      a := i - 1;
      b := RowWitness(pair, i - 1, n, r);
    }
  }

  /** The nested loops collect everything every visited pair names. */
  lemma {:induction false} TableComplete<T>(pair: (nat, nat) -> seq<T>, n: nat, i: nat, a: nat, b: nat, r: T)
    requires a < i && b < n && r in pair(a, b)
    ensures r in TableOf(pair, n, i)
  {
    var earlier, row := TableOf(pair, n, i - 1), RowOf(pair, i - 1, n);
    assert TableOf(pair, n, i) == earlier + row;
    if a < i - 1 {
      TableComplete(pair, n, i - 1, a, b, r);
      assert r in earlier;
    } else {
      RowComplete(pair, a, n, b, r);
      assert r in row;
    }
  }

  /** A comparison names nothing, or the tuple pareto_remover returns for two distinct candidates. */
  lemma PairTargetShape(o: seq<Objectives>, a: nat, b: nat)
    requires a < |o| && b < |o|
    ensures Pairs(o)(a, b) == PairTarget(o, a, b)
    ensures PairTarget(o, a, b) == if a != b && Remover(o[a], o[b]).Some? then [Remover(o[a], o[b]).value] else []
    ensures a != b && Remover(o[a], o[b]).Some? ==> Remover(o[a], o[b]).value in o
  {
  }

  /** Every deleted position is the first position of a tuple pareto_remover returned. */
  lemma DeletedIsTargeted(o: seq<Objectives>, k: nat)
    requires k in DeleteList(o)
    ensures Targeted(o, k)
  {
    var rs := Targets(o, |o|);
    var ps := Positions(o, rs);
    var t :| 0 <= t < |ps| && ps[t] == k;
    var a, b := TableWitness(Pairs(o), |o|, |o|, rs[t]);
    PairTargetShape(o, a, b);
    assert a != b && Remover(o[a], o[b]) == Some(rs[t]);
    assert IndexOf(o, Remover(o[a], o[b]).value) == k;
  }

  /** Every tuple pareto_remover returns has its first position deleted. */
  lemma TargetedIsDeleted(o: seq<Objectives>, k: nat)
    requires Targeted(o, k)
    ensures k in DeleteList(o)
  {
    var rs := Targets(o, |o|);
    var a, b :| 0 <= a < |o| && 0 <= b < |o| && a != b && Remover(o[a], o[b]).Some?
                && Remover(o[a], o[b]).value in o && IndexOf(o, Remover(o[a], o[b]).value) == k;
    var r := Remover(o[a], o[b]).value;
    PairTargetShape(o, a, b);
    TableComplete(Pairs(o), |o|, |o|, a, b, r);
    var t :| 0 <= t < |rs| && rs[t] == r;
    assert Positions(o, rs)[t] == k;
  }

  /** The delete list holds exactly the first positions of the tuples pareto_remover returns. */
  lemma DeleteListMembers(o: seq<Objectives>, k: nat)
    ensures k in DeleteList(o) <==> Targeted(o, k)
  {
    if k in DeleteList(o) {
      DeletedIsTargeted(o, k);
    }
    if Targeted(o, k) {
      TargetedIsDeleted(o, k);
    }
  }

  /** Only first occurrences are ever deleted: a later copy of any tuple survives the index lookup. */
  lemma TargetsAreFirstOccurrences(o: seq<Objectives>, k: nat)
    requires k in DeleteList(o)
    ensures k < |o| && forall m :: 0 <= m < k ==> o[m] != o[k]
  {
    DeleteListMembers(o, k);
  }

  lemma {:induction false} KeepMembers(e: seq<Entry>, doomed: seq<nat>, k: nat, x: Entry)
    requires k <= |e|
    ensures x in KeepFrom(e, doomed, k) <==> exists m :: k <= m < |e| && m !in doomed && e[m] == x
    decreases |e| - k
  {
    if k < |e| {
      var head := if k in doomed then [] else [e[k]];
      assert KeepFrom(e, doomed, k) == head + KeepFrom(e, doomed, k + 1);
      KeepMembers(e, doomed, k + 1, x);
      if exists m :: k <= m < |e| && m !in doomed && e[m] == x {
        var m :| k <= m < |e| && m !in doomed && e[m] == x;
        if m == k {
          assert x in head;
        } else {
          assert x in KeepFrom(e, doomed, k + 1);
        }
      }
    }
  }

  lemma {:induction false} KeepEverything(e: seq<Entry>, doomed: seq<nat>, k: nat)
    requires k <= |e|
    requires forall m :: k <= m < |e| ==> m !in doomed
    ensures KeepFrom(e, doomed, k) == e[k..]
    decreases |e| - k
  {
    if k < |e| {
      KeepEverything(e, doomed, k + 1);
      assert e[k..] == [e[k]] + e[k + 1..];
    }
  }

  ghost predicate DistinctObjectives(e: seq<Entry>)
  {
    forall i, j :: 0 <= i < j < |e| ==> e[i].objectives != e[j].objectives
  }

  ghost predicate SameLength(e: seq<Entry>, m: nat)
  {
    forall x :: x in e ==> |x.objectives| == m
  }

  lemma {:induction false} KeepDistinct(e: seq<Entry>, doomed: seq<nat>, k: nat)
    requires k <= |e| && DistinctObjectives(e)
    ensures DistinctObjectives(KeepFrom(e, doomed, k))
    decreases |e| - k
  {
    if k < |e| {
      KeepDistinct(e, doomed, k + 1);
      var rest := KeepFrom(e, doomed, k + 1);
      if k !in doomed {
        forall q | 0 <= q < |rest|
          ensures rest[q].objectives != e[k].objectives
        {
          KeepMembers(e, doomed, k + 1, rest[q]);
        }
        assert KeepFrom(e, doomed, k) == [e[k]] + rest;
      }
    }
  }

  // ---------------------------------------------------------------------
  // The archive when all objective tuples are distinct

  lemma IndexOfDistinct(o: seq<Objectives>, i: nat)
    requires i < |o|
    requires forall a, b :: 0 <= a < b < |o| ==> o[a] != o[b]
    ensures IndexOf(o, o[i]) == i
  {
  }

  /** The pair i, j of distinct tuples of one length names the larger of the two, at its own position. */
  lemma DistinctPair(o: seq<Objectives>, i: nat, j: nat)
    requires forall a, b :: 0 <= a < b < |o| ==> o[a] != o[b]
    requires forall a, b :: 0 <= a < |o| && 0 <= b < |o| ==> |o[a]| == |o[b]|
    requires i < |o| && j < |o| && i != j && Remover(o[i], o[j]).Some?
    ensures || (AllGreater(o[i], o[j]) && Remover(o[i], o[j]).value == o[i] && IndexOf(o, o[i]) == i)
            || (AllGreater(o[j], o[i]) && Remover(o[i], o[j]).value == o[j] && IndexOf(o, o[j]) == j)
  {
    if AllGreater(o[i], o[j]) {
      IndexOfDistinct(o, i);
    } else if AllLess(o[i], o[j]) {
      IndexOfDistinct(o, j);
    } else {
      assert false;
    }
  }

  /** With distinct tuples of one length, a position is deleted iff its tuple is larger than another's. */
  lemma DistinctTargets(o: seq<Objectives>, k: nat)
    requires forall a, b :: 0 <= a < b < |o| ==> o[a] != o[b]
    requires forall a, b :: 0 <= a < |o| && 0 <= b < |o| ==> |o[a]| == |o[b]|
    requires k < |o|
    ensures Targeted(o, k) <==> exists j :: 0 <= j < |o| && j != k && AllGreater(o[k], o[j])
  {
    if Targeted(o, k) {
      var i, j :| 0 <= i < |o| && 0 <= j < |o| && i != j && Remover(o[i], o[j]).Some?
                  && Remover(o[i], o[j]).value in o && IndexOf(o, Remover(o[i], o[j]).value) == k;
      DistinctPair(o, i, j);
    }
    if j :| 0 <= j < |o| && j != k && AllGreater(o[k], o[j]) {
      IndexOfDistinct(o, k);
      assert Remover(o[k], o[j]) == Some(o[k]);
    }
  }

  /**
   * With pairwise distinct objective tuples of one non-zero length, the archive
   * holds exactly the candidates that are not strictly larger, in every
   * component, than some candidate.
   */
  lemma FrontCharacterised(e: seq<Entry>, m: nat)
    requires DistinctObjectives(e) && SameLength(e, m) && m >= 1
    ensures forall x :: x in ParetoFront(e) <==>
              x in e && forall y :: y in e ==> !AllGreater(x.objectives, y.objectives)
  {
    forall x
      ensures x in ParetoFront(e) <==>
              x in e && forall y :: y in e ==> !AllGreater(x.objectives, y.objectives)
    {
      if x in ParetoFront(e) {
        KeptUndominated(e, m, x);
      }
      if x in e && forall y :: y in e ==> !AllGreater(x.objectives, y.objectives) {
        UndominatedKept(e, m, x);
      }
    }
  }

  /** An archive member is a candidate no candidate is below in every component. */
  lemma KeptUndominated(e: seq<Entry>, m: nat, x: Entry)
    requires DistinctObjectives(e) && SameLength(e, m) && m >= 1
    requires x in ParetoFront(e)
    ensures x in e && forall y :: y in e ==> !AllGreater(x.objectives, y.objectives)
  {
    var o := GetParetoObjectives(e);
    var d := DeleteList(o);
    KeepMembers(e, d, 0, x);
    var k :| 0 <= k < |e| && k !in d && e[k] == x;
    DeleteListMembers(o, k);
    DistinctTargets(o, k);
    forall y | y in e
      ensures !AllGreater(x.objectives, y.objectives)
    {
      var j :| 0 <= j < |e| && e[j] == y;
      if j == k {
        assert x.objectives[0] == y.objectives[0];
      }
    }
  }

  /** A candidate no candidate is below in every component stays in the archive. */
  lemma UndominatedKept(e: seq<Entry>, m: nat, x: Entry)
    requires DistinctObjectives(e) && SameLength(e, m) && m >= 1
    requires x in e && forall y :: y in e ==> !AllGreater(x.objectives, y.objectives)
    ensures x in ParetoFront(e)
  {
    var o := GetParetoObjectives(e);
    var d := DeleteList(o);
    var k :| 0 <= k < |e| && e[k] == x;
    DeleteListMembers(o, k);
    DistinctTargets(o, k);
    assert k !in d;
    KeepMembers(e, d, 0, x);
  }

  /** No archive member is strictly larger than another in every component. */
  lemma FrontNonDominated(e: seq<Entry>, m: nat)
    requires DistinctObjectives(e) && SameLength(e, m) && m >= 1
    ensures forall x, y :: x in ParetoFront(e) && y in ParetoFront(e) ==> !AllGreater(x.objectives, y.objectives)
  {
    FrontCharacterised(e, m);
  }

  /** Filtering an archive a second time changes nothing. */
  lemma FrontIdempotent(e: seq<Entry>, m: nat)
    requires DistinctObjectives(e) && SameLength(e, m) && m >= 1
    ensures ParetoFront(ParetoFront(e)) == ParetoFront(e)
  {
    var f := ParetoFront(e);
    FrontCharacterised(e, m);
    KeepDistinct(e, DeleteList(GetParetoObjectives(e)), 0);
    var o := GetParetoObjectives(f);
    forall k | 0 <= k < |f|
      ensures k !in DeleteList(o)
    {
      DeleteListMembers(o, k);
      DistinctTargets(o, k);
    }
    KeepEverything(f, DeleteList(o), 0);
  }

  // ---------------------------------------------------------------------
  // The archive is never empty

  function SumOf(a: seq<real>): real
  {
    if |a| == 0 then 0.0 else a[0] + SumOf(a[1..])
  }

  lemma {:induction false} GreaterSum(a: seq<real>, b: seq<real>)
    requires |a| == |b| >= 1
    requires forall i :: 0 <= i < |a| ==> a[i] > b[i]
    ensures SumOf(a) > SumOf(b)
  {
    if |a| > 1 {
      GreaterSum(a[1..], b[1..]);
    }
  }

  /** The last position among those whose tuple has the least component sum. */
  function LastMinSum(o: seq<Objectives>, n: nat): (p: nat)
    requires 1 <= n <= |o|
    ensures p < n
    ensures forall k :: 0 <= k < n ==> SumOf(o[p]) <= SumOf(o[k])
    ensures forall k :: p < k < n ==> SumOf(o[p]) < SumOf(o[k])
  {
    if n == 1 then 0
    else
      var a := LastMinSum(o, n - 1);
      if SumOf(o[n - 1]) <= SumOf(o[a]) then n - 1 else a
  }

  /**
   * A non-empty candidate list with objective tuples of one non-zero length
   * always leaves a non-empty archive: the last candidate of least component
   * sum is never deleted.
   */
  lemma FrontNonEmpty(e: seq<Entry>, m: nat)
    requires |e| >= 1 && SameLength(e, m) && m >= 1
    ensures |ParetoFront(e)| >= 1
  {
    var o := GetParetoObjectives(e);
    var p := LastMinSum(o, |o|);
    DeleteListMembers(o, p);
    if Targeted(o, p) {
      var i, j :| 0 <= i < |o| && 0 <= j < |o| && i != j && Remover(o[i], o[j]).Some?
                  && Remover(o[i], o[j]).value in o && IndexOf(o, Remover(o[i], o[j]).value) == p;
      assert e[i] in e && e[j] in e;
      MinSumSurvivesPair(o, m, p, i, j);
    }
    KeepMembers(e, DeleteList(o), 0, e[p]);
  }

  /** No comparison names the last tuple of least component sum. */
  lemma MinSumSurvivesPair(o: seq<Objectives>, m: nat, p: nat, i: nat, j: nat)
    requires |o| >= 1 && m >= 1 && p == LastMinSum(o, |o|)
    requires i < |o| && j < |o| && i != j && |o[i]| == m && |o[j]| == m
    requires Remover(o[i], o[j]).Some? && Remover(o[i], o[j]).value in o
    ensures IndexOf(o, Remover(o[i], o[j]).value) != p
  {
    var r := Remover(o[i], o[j]).value;
    if IndexOf(o, r) == p {
      if AllGreater(o[i], o[j]) {
        GreaterSum(o[i], o[j]);
        assert false;
      } else if AllLess(o[i], o[j]) {
        GreaterSum(o[j], o[i]);
        assert false;
      } else {
        assert false;
      }
    }
  }

  // ---------------------------------------------------------------------
  // Two consequences of deleting by first occurrence

  /** Deleting only position 0 keeps the rest. */
  lemma DropFirst(e: seq<Entry>, doomed: seq<nat>)
    requires |e| >= 1 && 0 in doomed
    requires forall m :: 1 <= m < |e| ==> m !in doomed
    ensures KeepFrom(e, doomed, 0) == e[1..]
  {
    KeepEverything(e, doomed, 1);
  }

  /** Three candidates with one tuple: only the first copy is deleted, two stay. */
  lemma TriplicateKeepsTwo()
    ensures var e := [Entry([1.0], [5.0], [], []), Entry([2.0], [5.0], [], []), Entry([3.0], [5.0], [], [])];
            ParetoFront(e) == e[1..]
  {
    var e := [Entry([1.0], [5.0], [], []), Entry([2.0], [5.0], [], []), Entry([3.0], [5.0], [], [])];
    var o := GetParetoObjectives(e);
    assert o == [[5.0], [5.0], [5.0]];
    OnlyFirstDeleted(o);
    DropFirst(e, DeleteList(o));
  }

  /**
   * A candidate larger in every component than another one survives when an
   * equal copy of it precedes it: objectives [2], [1], [2] leave [1], [2].
   */
  lemma DominatedCopySurvives()
    ensures var e := [Entry([1.0], [2.0], [], []), Entry([2.0], [1.0], [], []), Entry([3.0], [2.0], [], [])];
            ParetoFront(e) == e[1..] && AllGreater(e[2].objectives, e[1].objectives)
  {
    var e := [Entry([1.0], [2.0], [], []), Entry([2.0], [1.0], [], []), Entry([3.0], [2.0], [], [])];
    var o := GetParetoObjectives(e);
    assert o == [[2.0], [1.0], [2.0]];
    OnlyFirstDeleted(o);
    DropFirst(e, DeleteList(o));
  }

  /**
   * For three candidates whose comparisons all name a copy of the first
   * candidate's tuple, the delete list is position 0 alone.
   */
  lemma OnlyFirstDeleted(o: seq<Objectives>)
    requires o == [[5.0], [5.0], [5.0]] || o == [[2.0], [1.0], [2.0]]
    ensures 0 in DeleteList(o)
    ensures forall k :: 1 <= k < 3 ==> k !in DeleteList(o)
  {
    var top := o[0];
    assert IndexOf(o, top) == 0;
    CopiesOfFirst(o);
    forall k | k in DeleteList(o)
      ensures k == 0
    {
      DeletedIsTargeted(o, k);
    }
    assert Remover(o[0], o[1]) == Some(top) && top in o;
    TargetedIsDeleted(o, 0);
  }

  /** In both examples, every comparison of two candidates names the first candidate's tuple. */
  lemma CopiesOfFirst(o: seq<Objectives>)
    requires o == [[5.0], [5.0], [5.0]] || o == [[2.0], [1.0], [2.0]]
    ensures forall a, b :: 0 <= a < 3 && 0 <= b < 3 && a != b ==> Remover(o[a], o[b]) == Some(o[0])
  {
    if o == [[5.0], [5.0], [5.0]] {
      forall a, b | 0 <= a < 3 && 0 <= b < 3
        ensures Remover(o[a], o[b]) == Some(o[0])
      {
        assert o[a] == o[b] == o[0] && Common(o[a], o[b]) == 1;
      }
    } else {
      assert AllGreater(o[0], o[1]) && AllLess(o[1], o[0]) && AllEqual(o[0], o[2]);
      assert AllLess(o[1], o[2]) && AllGreater(o[2], o[1]) && AllEqual(o[2], o[0]);
    }
  }
}
