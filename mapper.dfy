/**
 * The parameter mapping of the machine interactor (class
 * dls_machine_interactor_bulk_base of dlsoo/util.py). The algorithm moves one
 * value per parameter group (an "ap"); the machine has one value per physical
 * parameter (an "mp"). A relative group adds its value to each parameter's
 * initial setting, an absolute group writes it to each parameter directly.
 * The initial settings, which the source reads from the machine, are
 * supplied to the constructor.
 */
module Mapping {
  import opened Wrappers

  /** dls_param_var: a process variable name and its settling delay. */
  datatype Param = Param(pv: string, delay: real)

  /** dls_measurement_var: a process variable, how many samples to take and the delay between them. */
  datatype MeasurementVar = MeasurementVar(pv: string, minCounts: nat, delay: real)

  datatype MapError = IndexError | AttributeError

  /** The number of parameters in groups 0 .. g - 1: where group g starts in the flat list. */
  function Offset(groups: seq<seq<Param>>, g: nat): nat
    requires g <= |groups|
  {
    if g == 0 then 0 else Offset(groups, g - 1) + |groups[g - 1]|
  }

  /** param_vars: the groups' parameters, group after group. */
  function Flatten(groups: seq<seq<Param>>, g: nat): (ps: seq<Param>)
    requires g <= |groups|
    ensures |ps| == Offset(groups, g)
  {
    if g == 0 then [] else Flatten(groups, g - 1) + groups[g - 1]
  }

  lemma {:induction false} OffsetMonotone(groups: seq<seq<Param>>, g: nat, h: nat)
    requires g <= h <= |groups|
    ensures Offset(groups, g) <= Offset(groups, h)
    decreases h
  {
    if g < h {
      OffsetMonotone(groups, g, h - 1);
    }
  }

  /** Parameter i of group g sits at position Offset(g) + i of the flat list. */
  lemma {:induction false} FlattenAt(groups: seq<seq<Param>>, n: nat, g: nat, i: nat)
    requires g < n <= |groups| && i < |groups[g]|
    ensures Offset(groups, g) + i < Offset(groups, n)
    ensures Flatten(groups, n)[Offset(groups, g) + i] == groups[g][i]
  {
    OffsetMonotone(groups, g + 1, n);
    if g < n - 1 {
      FlattenAt(groups, n - 1, g, i);
    }
  }

  /** Every position of the flat list belongs to exactly one group. */
  lemma {:induction false} EveryParameterInAGroup(groups: seq<seq<Param>>, n: nat, k: nat)
    requires n <= |groups| && k < Offset(groups, n)
    ensures exists g :: 0 <= g < n && Offset(groups, g) <= k < Offset(groups, g) + |groups[g]|
  {
    if k < Offset(groups, n - 1) {
      EveryParameterInAGroup(groups, n - 1, k);
    }
  }

  /** Group g lies inside any list as long as the flat parameter list. */
  lemma GroupWithin(groups: seq<seq<Param>>, g: nat, n: nat)
    requires g < |groups| && Offset(groups, |groups|) <= n
    ensures Offset(groups, g + 1) == Offset(groups, g) + |groups[g]| <= n
  {
    OffsetMonotone(groups, g + 1, |groups|);
  }

  /** The largest of the values, None for none (the running max of find_group_a_bounds). */
  function Largest(xs: seq<real>): (r: Option<real>)
    ensures r.None? <==> |xs| == 0
  {
    if |xs| == 0 then None
    else
      var rest := Largest(xs[..|xs| - 1]);
      var x := xs[|xs| - 1];
      if rest.Some? && !(x > rest.value) then rest else Some(x)
  }

  /** The smallest of the values, None for none (the running min of find_group_a_bounds). */
  function Smallest(xs: seq<real>): (r: Option<real>)
    ensures r.None? <==> |xs| == 0
  {
    if |xs| == 0 then None
    else
      var rest := Smallest(xs[..|xs| - 1]);
      var x := xs[|xs| - 1];
      if rest.Some? && !(x < rest.value) then rest else Some(x)
  }

  /** Largest is the maximum: one of the values, and no value exceeds it. */
  lemma {:induction false} LargestIsMaximum(xs: seq<real>)
    requires |xs| > 0
    ensures Largest(xs).value in xs
    ensures forall i :: 0 <= i < |xs| ==> xs[i] <= Largest(xs).value
  {
    var init := xs[..|xs| - 1];
    if |init| > 0 {
      LargestIsMaximum(init);
      assert forall i :: 0 <= i < |init| ==> xs[i] == init[i];
    }
  }

  /** Smallest is the minimum: one of the values, and no value is below it. */
  lemma {:induction false} SmallestIsMinimum(xs: seq<real>)
    requires |xs| > 0
    ensures Smallest(xs).value in xs
    ensures forall i :: 0 <= i < |xs| ==> Smallest(xs).value <= xs[i]
  {
    var init := xs[..|xs| - 1];
    if |init| > 0 {
      SmallestIsMinimum(init);
      assert forall i :: 0 <= i < |init| ==> xs[i] == init[i];
    }
  }

  lemma LargestAppend(xs: seq<real>, x: real)
    ensures Largest(xs + [x]) == if Largest(xs).Some? && !(x > Largest(xs).value) then Largest(xs) else Some(x)
  {
    assert (xs + [x])[..|xs|] == xs;
  }

  lemma SmallestAppend(xs: seq<real>, x: real)
    ensures Smallest(xs + [x]) == if Smallest(xs).Some? && !(x < Smallest(xs).value) then Smallest(xs) else Some(x)
  {
    assert (xs + [x])[..|xs|] == xs;
  }

  function Min(a: nat, b: nat): nat
  {
    if a <= b then a else b
  }

  /** A limit at position k, less the initial setting there for a relative group. */
  function Shift(xs: seq<real>, initial: seq<real>, relative: bool, k: nat): real
    requires k < |xs| && (relative ==> k < |initial|)
  {
    if relative then xs[k] - initial[k] else xs[k]
  }

  /** The first n limits, each less its initial setting for a relative group. */
  function Shifted(xs: seq<real>, initial: seq<real>, relative: bool, n: nat): (r: seq<real>)
    requires n <= |xs| && (relative ==> n <= |initial|)
    ensures |r| == n && forall k :: 0 <= k < n ==> r[k] == Shift(xs, initial, relative, k)
  {
    seq(n, k requires 0 <= k < n => Shift(xs, initial, relative, k))
  }

  lemma ShiftedStep(xs: seq<real>, initial: seq<real>, relative: bool, k: nat)
    requires k < |xs| && (relative ==> k < |initial|)
    ensures Shifted(xs, initial, relative, k + 1) == Shifted(xs, initial, relative, k) + [Shift(xs, initial, relative, k)]
  {
    var longer, shorter := Shifted(xs, initial, relative, k + 1), Shifted(xs, initial, relative, k);
    assert forall j :: 0 <= j < k ==> longer[j] == shorter[j];
  }

  /** How many parameters find_group_a_bounds visits: zip stops at the shortest list. */
  function Span(pmin: seq<real>, pmax: seq<real>, initial: seq<real>, relative: bool): (n: nat)
    ensures n <= |pmin| && n <= |pmax| && (relative ==> n <= |initial|)
  {
    if relative then Min(Min(|pmin|, |pmax|), |initial|) else Min(|pmin|, |pmax|)
  }

  /**
   * What find_group_a_bounds returns for one group: for a relative group the
   * tightest offsets from the initial settings (the largest pmin - initial and
   * the smallest pmax - initial), for an absolute group the largest pmin and
   * the smallest pmax.
   */
  function GroupBounds(pmin: seq<real>, pmax: seq<real>, initial: seq<real>, relative: bool): (Option<real>, Option<real>)
  {
    var n := Span(pmin, pmax, initial, relative);
    (Largest(Shifted(pmin, initial, relative, n)), Smallest(Shifted(pmax, initial, relative, n)))
  }

  /**
   * find_group_a_bounds: a running max of the lower limits and a running min
   * of the upper limits, each starting from None.
   */
  method FindGroupABounds(pmin: seq<real>, pmax: seq<real>, initial: seq<real>, relative: bool)
    returns (lo: Option<real>, hi: Option<real>)
    ensures (lo, hi) == GroupBounds(pmin, pmax, initial, relative)
    ensures lo.Some? <==> hi.Some?
  {
    lo, hi := None, None;
    var n := if relative then Min(Min(|pmin|, |pmax|), |initial|) else Min(|pmin|, |pmax|);
    ghost var lows: seq<real>, highs: seq<real> := [], [];
    var k := 0;
    while k < n
      invariant 0 <= k <= n
      invariant lows == Shifted(pmin, initial, relative, k) && highs == Shifted(pmax, initial, relative, k)
      invariant lo == Largest(lows) && hi == Smallest(highs)
    {
      var below, above;
      if relative {
        above := pmax[k] - initial[k];
        below := pmin[k] - initial[k];
      } else {
        below, above := pmin[k], pmax[k];
      }
      LargestAppend(lows, below);
      SmallestAppend(highs, above);
      ShiftedStep(pmin, initial, relative, k);
      ShiftedStep(pmax, initial, relative, k);
      lo, hi := Widen(lo, hi, below, above);
      lows, highs := lows + [below], highs + [above];
      k := k + 1;
    }
  }

  /** find_group_a_bounds over the positions start .. start + size - 1 of the lists. */
  function BoundsAt(pmin: seq<real>, pmax: seq<real>, initial: seq<real>, relative: bool,
                    start: nat, size: nat): (Option<real>, Option<real>)
    requires start + size <= |pmin| && start + size <= |pmax|
    requires relative ==> start + size <= |initial|
  {
    GroupBounds(pmin[start..start + size], pmax[start..start + size],
                if relative then initial[start..start + size] else [], relative)
  }

  /**
   * The body of find_a_bounds for one group, whose parameters sit at
   * positions start .. start + size - 1: the same running max and min as
   * find_group_a_bounds, over that group's limits and initial settings.
   */
  method GroupABounds(pmin: seq<real>, pmax: seq<real>, initial: seq<real>, relative: bool,
                      start: nat, size: nat) returns (lo: Option<real>, hi: Option<real>)
    requires start + size <= |pmin| && start + size <= |pmax|
    requires relative ==> start + size <= |initial|
    ensures (lo, hi) == BoundsAt(pmin, pmax, initial, relative, start, size)
  {
    var part := if relative then initial[start..start + size] else [];
    lo, hi := FindGroupABounds(pmin[start..start + size], pmax[start..start + size], part, relative);
  }

  /** One step of the running bounds: raise the lower bound to below, lower the upper bound to above. */
  method Widen(lo: Option<real>, hi: Option<real>, below: real, above: real) returns (lo': Option<real>, hi': Option<real>)
    ensures lo' == if lo.Some? && !(below > lo.value) then lo else Some(below)
    ensures hi' == if hi.Some? && !(above < hi.value) then hi else Some(above)
  {
    lo', hi' := lo, hi;
    if lo'.Some? {
      if below > lo'.value {
        lo' := Some(below);
      }
    } else {
      lo' := Some(below);
    }
    if hi'.Some? {
      if above < hi'.value {
        hi' := Some(above);
      }
    } else {
      hi' := Some(above);
    }
  }

  /** The machine value a parameter gets from the ap a: its initial setting plus a when relative, a itself otherwise. */
  function Setting(initial: seq<real>, relative: bool, a: real, k: nat): real
    requires relative ==> k < |initial|
  {
    if relative then initial[k] + a else a
  }

  /** The ap a puts each of the first n parameters within its limits. */
  predicate WithinLimits(pmin: seq<real>, pmax: seq<real>, initial: seq<real>, relative: bool, a: real, n: nat)
    requires n <= |pmin| && n <= |pmax| && (relative ==> n <= |initial|)
  {
    forall k :: 0 <= k < n ==> pmin[k] <= Setting(initial, relative, a, k) <= pmax[k]
  }

  /**
   * The purpose of find_group_a_bounds: an ap lies between the bounds it
   * returns exactly when it keeps every parameter of the group within its
   * limits; with no parameters both bounds are None.
   */
  lemma BoundsAreTight(pmin: seq<real>, pmax: seq<real>, initial: seq<real>, relative: bool, a: real)
    ensures var n := Span(pmin, pmax, initial, relative);
            var bounds := GroupBounds(pmin, pmax, initial, relative);
            && (n == 0 ==> bounds.0.None? && bounds.1.None?)
            && (n > 0 ==> bounds.0.Some? && bounds.1.Some?
                          && (bounds.0.value <= a <= bounds.1.value <==> WithinLimits(pmin, pmax, initial, relative, a, n)))
  {
    var n := Span(pmin, pmax, initial, relative);
    var lows, highs := Shifted(pmin, initial, relative, n), Shifted(pmax, initial, relative, n);
    if n > 0 {
      var lo, hi := Largest(lows).value, Smallest(highs).value;
      LargestIsMaximum(lows);
      SmallestIsMinimum(highs);
      if lo <= a <= hi {
        forall k | 0 <= k < n
          ensures pmin[k] <= Setting(initial, relative, a, k) <= pmax[k]
        {
          assert lows[k] <= lo && hi <= highs[k];
        }
      }
      if WithinLimits(pmin, pmax, initial, relative, a, n) {
        var i :| 0 <= i < n && lows[i] == lo;
        var j :| 0 <= j < n && highs[j] == hi;
        assert pmin[i] <= Setting(initial, relative, a, i);
        assert Setting(initial, relative, a, j) <= pmax[j];
      }
    }
  }

  /** WithinLimits over positions start .. start + size - 1 of the full lists. */
  lemma LimitsShift(pmin: seq<real>, pmax: seq<real>, mps: seq<real>, part: seq<real>, relative: bool, a: real,
                    start: nat, size: nat)
    requires start + size <= |pmin| && start + size <= |pmax| && start + size <= |mps|
    requires relative ==> size <= |part|
    requires forall i :: 0 <= i < size ==> mps[start + i] == Setting(part, relative, a, i)
    ensures WithinLimits(pmin[start..start + size], pmax[start..start + size], part, relative, a, size)
            <==> forall k :: start <= k < start + size ==> pmin[k] <= mps[k] <= pmax[k]
  {
    var lows, highs := pmin[start..start + size], pmax[start..start + size];
    if WithinLimits(lows, highs, part, relative, a, size) {
      forall k | start <= k < start + size
        ensures pmin[k] <= mps[k] <= pmax[k]
      {
        assert lows[k - start] == pmin[k] && highs[k - start] == pmax[k];
        assert mps[start + (k - start)] == Setting(part, relative, a, k - start);
      }
    }
    if forall k :: start <= k < start + size ==> pmin[k] <= mps[k] <= pmax[k] {
      forall i | 0 <= i < size
        ensures lows[i] <= Setting(part, relative, a, i) <= highs[i]
      {
        assert pmin[start + i] <= mps[start + i] <= pmax[start + i];
      }
    }
  }

  /** The first n pairs, split into the list of first components and the list of second components. */
  function Unzip<A, B>(pairs: seq<(A, B)>, n: nat): (seq<A>, seq<B>)
    requires n <= |pairs|
  {
    if n == 0 then ([], [])
    else
      var rest := Unzip(pairs, n - 1);
      (rest.0 + [pairs[n - 1].0], rest.1 + [pairs[n - 1].1])
  }

  lemma {:induction false} UnzipAt<A, B>(pairs: seq<(A, B)>, n: nat)
    requires n <= |pairs|
    ensures |Unzip(pairs, n).0| == n && |Unzip(pairs, n).1| == n
    ensures forall i :: 0 <= i < n ==> (Unzip(pairs, n).0[i], Unzip(pairs, n).1[i]) == pairs[i]
  {
    if n > 0 {
      UnzipAt(pairs, n - 1);
    }
  }

  class Interactor {
    const groups: seq<seq<Param>>
    const measurementVars: seq<MeasurementVar>
    const paramVars: seq<Param>
    const setRelative: seq<bool>
    const initialValues: Option<seq<real>>
    /** ap_to_mp_store: every ap list mapped so far, with the mp list it gave. */
    var store: map<seq<real>, seq<real>>

    /**
     * The interactor's shape: one relative flag per group, one initial
     * setting per parameter when there are any, and no relative group
     * without them.
     */
    ghost predicate Valid()
    {
      && |setRelative| == |groups|
      && |paramVars| == Offset(groups, |groups|)
      && (initialValues.Some? ==> |initialValues.value| == |paramVars|)
      && (initialValues.None? ==> forall g :: 0 <= g < |groups| ==> !setRelative[g])
    }

    /**
     * __init__: flattens the groups; without set_relative every group is
     * absolute and no initial settings are read; with it, the initial
     * settings are the machine's current values (currentMps).
     */
    constructor (groups: seq<seq<Param>>, measurementVars: seq<MeasurementVar>, setRelative: Option<seq<bool>>,
                 currentMps: seq<real>)
      requires setRelative.Some? ==> |setRelative.value| == |groups|
      requires setRelative.Some? ==> |currentMps| == Offset(groups, |groups|)
      ensures Valid()
      ensures this.groups == groups && this.measurementVars == measurementVars
      ensures paramVars == Flatten(groups, |groups|)
      ensures setRelative.None? ==> this.setRelative == seq(|groups|, g => false) && initialValues.None?
      ensures setRelative.Some? ==> this.setRelative == setRelative.value && initialValues == Some(currentMps)
      ensures store == map[]
    {
      this.groups := groups;
      this.measurementVars := measurementVars;
      var flat: seq<Param> := [];
      var g := 0;
      while g < |groups|
        invariant 0 <= g <= |groups|
        invariant flat == Flatten(groups, g)
      {
        flat := flat + groups[g];
        g := g + 1;
      }
      this.paramVars := flat;
      if setRelative.None? {
        this.setRelative := seq(|groups|, g => false);
        this.initialValues := None;
      } else {
        this.initialValues := Some(currentMps);
        this.setRelative := setRelative.value;
      }
      store := map[];
    }

    /** The initial settings, none for an interactor built without set_relative. */
    function Initial(): (initial: seq<real>)
      requires Valid()
      ensures initialValues.Some? ==> initial == initialValues.value
      ensures initialValues.None? ==> initial == []
    {
      if initialValues.Some? then initialValues.value else []
    }

    /** The machine value ap_to_mp gives parameter k of group g. */
    function MpOf(aps: seq<real>, g: nat, k: nat): real
      requires Valid() && g < |groups| && g < |aps| && k < |paramVars|
    {
      if setRelative[g] then initialValues.value[k] + aps[g] else aps[g]
    }

    /** Every group with a parameter has its ap. */
    predicate Reaches(aps: seq<real>)
    {
      ReachesUpTo(aps, |groups|)
    }

    /** Every group before n with a parameter has its ap. */
    predicate ReachesUpTo(aps: seq<real>, n: nat)
    {
      forall g :: 0 <= g < n && g < |groups| && |groups[g]| > 0 ==> g < |aps|
    }

    /** The mps for groups 0 .. n - 1. */
    function Expanded(aps: seq<real>, n: nat): (mps: seq<real>)
      requires Valid() && ReachesUpTo(aps, n) && n <= |groups|
      ensures |mps| == Offset(groups, n)
    {
      if n == 0 then []
      else
        var g := n - 1;
        Expanded(aps, g) + GroupPrefix(aps, g, |groups[g]|)
    }

    /**
     * ap_to_mp: one machine value per parameter, group after group, and the
     * mapping recorded in the store under the ap list. An ap list that misses
     * a group with parameters raises IndexError before anything is stored.
     */
    method ApToMp(aps: seq<real>) returns (r: Result<seq<real>, MapError>)
      requires Valid()
      modifies this`store
      ensures r.Ok? <==> Reaches(aps)
      ensures r.Ok? ==> r.value == Expanded(aps, |groups|) && store == old(store)[aps := r.value]
      ensures r.Err? ==> r.error == IndexError && store == old(store)
    {
      var mps: seq<real> := [];
      var mpsindex := 0;
      var ngroup := 0;
      while ngroup < |groups|
        invariant 0 <= ngroup <= |groups|
        invariant ReachesUpTo(aps, ngroup)
        invariant mpsindex == Offset(groups, ngroup)
        invariant mps == Expanded(aps, ngroup)
        invariant store == old(store)
      {
        OffsetMonotone(groups, ngroup + 1, |groups|);
        var nparam := 0;
        while nparam < |groups[ngroup]|
          invariant 0 <= nparam <= |groups[ngroup]|
          invariant nparam > 0 ==> ngroup < |aps|
          invariant mpsindex == Offset(groups, ngroup) + nparam
          invariant mps == Expanded(aps, ngroup) + GroupPrefix(aps, ngroup, nparam)
          invariant store == old(store)
        {
          if ngroup >= |aps| {
            return Err(IndexError);
          }
          if setRelative[ngroup] == true {
            mps := mps + [initialValues.value[mpsindex] + aps[ngroup]];
          } else {
            mps := mps + [aps[ngroup]];
          }
          assert GroupPrefix(aps, ngroup, nparam + 1) == GroupPrefix(aps, ngroup, nparam) + [MpOf(aps, ngroup, mpsindex)];
          mpsindex := mpsindex + 1;
          nparam := nparam + 1;
        }
        assert |groups[ngroup]| > 0 ==> ngroup < |aps|;
        ngroup := ngroup + 1;
      }
      store := store[aps := mps];
      return Ok(mps);
    }

    /** Parameter i of group g gets its group's ap, shifted by its initial setting when relative. */
    lemma {:induction false} ExpandedAt(aps: seq<real>, n: nat, g: nat, i: nat)
      requires Valid() && ReachesUpTo(aps, n) && n <= |groups| && g < n && i < |groups[g]|
      ensures g < |aps| && Offset(groups, g) + i < Offset(groups, n) <= |paramVars|
      ensures Expanded(aps, n)[Offset(groups, g) + i] == MpOf(aps, g, Offset(groups, g) + i)
    {
      OffsetMonotone(groups, n, |groups|);
      OffsetMonotone(groups, g + 1, n);
      var k := Offset(groups, g) + i;
      var before := Expanded(aps, n - 1);
      assert Expanded(aps, n) == before + GroupPrefix(aps, n - 1, |groups[n - 1]|);
      if g < n - 1 {
        OffsetMonotone(groups, g + 1, n - 1);
        ExpandedAt(aps, n - 1, g, i);
        assert Expanded(aps, n)[k] == before[k];
      } else {
        assert Expanded(aps, n)[k] == GroupPrefix(aps, g, |groups[g]|)[i];
      }
    }

    /** The mps of the first n parameters of group g. */
    function GroupPrefix(aps: seq<real>, g: nat, n: nat): (mps: seq<real>)
      requires Valid() && g < |groups| && n <= |groups[g]| && (n > 0 ==> g < |aps|)
      ensures |mps| == n
    {
      OffsetMonotone(groups, g + 1, |groups|);
      seq(n, i requires 0 <= i < n => MpOf(aps, g, Offset(groups, g) + i))
    }

    /**
     * Every group's first position lies inside the mp list, and inside the
     * initial settings for a relative group.
     */
    predicate Readable(mps: seq<real>)
      requires Valid()
    {
      ReadableUpTo(mps, |groups|)
    }

    /** Readable for groups 0 .. n - 1. */
    predicate ReadableUpTo(mps: seq<real>, n: nat)
      requires Valid() && n <= |groups|
    {
      forall g :: 0 <= g < n ==>
        Offset(groups, g) < |mps| && (setRelative[g] ==> Offset(groups, g) < |initialValues.value|)
    }

    /** The ap mp_to_ap reads back for group g: its first machine value, less its initial setting when relative. */
    function ApOf(mps: seq<real>, g: nat): real
      requires Valid() && g < |groups|
      requires Offset(groups, g) < |mps| && (setRelative[g] ==> Offset(groups, g) < |initialValues.value|)
    {
      var k := Offset(groups, g);
      if setRelative[g] then mps[k] - initialValues.value[k] else mps[k]
    }

    /** The aps of groups 0 .. n - 1. */
    function CollapsedUpTo(mps: seq<real>, n: nat): (aps: seq<real>)
      requires Valid() && n <= |groups| && ReadableUpTo(mps, n)
      ensures |aps| == n
    {
      seq(n, g requires 0 <= g < n => ApOf(mps, g))
    }

    /** The ap list mp_to_ap reads back. */
    function Collapsed(mps: seq<real>): (aps: seq<real>)
      requires Valid() && Readable(mps)
      ensures |aps| == |groups|
      ensures forall g :: 0 <= g < |groups| ==> aps[g] == ApOf(mps, g)
    {
      CollapsedUpTo(mps, |groups|)
    }

    /**
     * mp_to_ap: reads each group's first machine value (also for an empty
     * group, where that is the next group's first value or out of range).
     * Printing the initial settings afterwards raises AttributeError on an
     * interactor built without set_relative.
     */
    method MpToAp(mps: seq<real>) returns (r: Result<seq<real>, MapError>)
      requires Valid()
      ensures !Readable(mps) <==> r == Err(IndexError)
      ensures Readable(mps) && initialValues.None? <==> r == Err(AttributeError)
      ensures r.Ok? ==> initialValues.Some? && Readable(mps) && r.value == Collapsed(mps)
    {
      var aps: seq<real> := [];
      var mpsindex := 0;
      var ngroup := 0;
      while ngroup < |groups|
        invariant 0 <= ngroup <= |groups|
        invariant mpsindex == Offset(groups, ngroup)
        invariant ReadableUpTo(mps, ngroup)
        invariant aps == CollapsedUpTo(mps, ngroup)
      {
        if mpsindex >= |mps| {
          return Err(IndexError);
        }
        if setRelative[ngroup] {
          if mpsindex >= |initialValues.value| {
            return Err(IndexError);
          }
          aps := aps + [mps[mpsindex] - initialValues.value[mpsindex]];
        } else {
          aps := aps + [mps[mpsindex]];
        }
        assert ReadableUpTo(mps, ngroup + 1);
        assert aps == CollapsedUpTo(mps, ngroup + 1);
        mpsindex := mpsindex + |groups[ngroup]|;
        ngroup := ngroup + 1;
      }
      if initialValues.None? {
        return Err(AttributeError);
      }
      return Ok(aps);
    }

    /**
     * mp_to_ap undoes ap_to_mp: with initial settings and no empty group,
     * reading back the mps of an ap list gives the ap list.
     */
    lemma {:induction false} RoundTrip(aps: seq<real>)
      requires Valid() && initialValues.Some? && |aps| == |groups|
      requires forall g :: 0 <= g < |groups| ==> |groups[g]| > 0
      ensures Reaches(aps)
      ensures Readable(Expanded(aps, |groups|))
      ensures Collapsed(Expanded(aps, |groups|)) == aps
    {
      var mps := Expanded(aps, |groups|);
      forall g | 0 <= g < |groups|
        ensures Offset(groups, g) < |mps| && Offset(groups, g) < |initialValues.value|
        ensures mps[Offset(groups, g)] == MpOf(aps, g, Offset(groups, g))
      {
        ExpandedAt(aps, |groups|, g, 0);
      }
      assert Readable(mps);
      var back := Collapsed(mps);
      forall g | 0 <= g < |groups|
        ensures back[g] == aps[g]
      {
        assert back[g] == ApOf(mps, g);
      }
    }

    /** mr_to_ar: the algorithm's results are the machine's results, unchanged. */
    function MrToAr<T>(mrs: seq<T>): (ars: seq<T>)
      ensures |ars| == |mrs| && forall i :: 0 <= i < |mrs| ==> ars[i] == mrs[i]
    {
      mrs
    }

    /**
     * What find_a_bounds gives group g: find_group_a_bounds over the limits
     * and initial settings at the group's own positions.
     */
    function ABounds(pmin: seq<real>, pmax: seq<real>, g: nat): (Option<real>, Option<real>)
      requires Valid() && g < |groups| && |pmin| >= |paramVars| && |pmax| >= |paramVars|
    {
      GroupWithin(groups, g, |paramVars|);
      BoundsAt(pmin, pmax, Initial(), setRelative[g], Offset(groups, g), |groups[g]|)
    }

    /** Every group's ABounds, in group order. */
    function PerGroup(pmin: seq<real>, pmax: seq<real>): (bounds: seq<(Option<real>, Option<real>)>)
      requires Valid() && |pmin| >= |paramVars| && |pmax| >= |paramVars|
      ensures |bounds| == |groups|
    {
      seq(|groups|, g requires 0 <= g < |groups| => ABounds(pmin, pmax, g))
    }

    /**
     * find_a_bounds: per group, the same bounds find_group_a_bounds gives for
     * that group's limits and initial settings. Limits shorter than the
     * parameter list raise IndexError.
     */
    method FindABounds(pmin: seq<real>, pmax: seq<real>)
      returns (r: Result<(seq<Option<real>>, seq<Option<real>>), MapError>)
      requires Valid()
      ensures r.Err? <==> |pmin| < |paramVars| || |pmax| < |paramVars|
      ensures r.Err? ==> r.error == IndexError
      ensures r.Ok? ==> |r.value.0| == |groups| && |r.value.1| == |groups|
      ensures r.Ok? ==> forall g :: 0 <= g < |groups| ==> (r.value.0[g], r.value.1[g]) == ABounds(pmin, pmax, g)
    {
      if |pmin| < |paramVars| || |pmax| < |paramVars| {
        // the loop would index past the shorter list
        return Err(IndexError);
      }
      var bounds := CollectBounds(pmin, pmax);
      var perGroup := PerGroup(pmin, pmax);
      UnzipAt(perGroup, |groups|);
      forall g | 0 <= g < |groups|
        ensures (bounds.0[g], bounds.1[g]) == ABounds(pmin, pmax, g)
      {
        assert perGroup[g] == ABounds(pmin, pmax, g);
      }
      return Ok(bounds);
    }

    /**
     * The purpose of find_a_bounds: aps that lie within their groups' bounds
     * map, through ap_to_mp, to mps within the machine limits, and the
     * bounds are the widest that do so.
     */
    lemma {:induction false} BoundsKeepMachineInRange(pmin: seq<real>, pmax: seq<real>, aps: seq<real>, g: nat)
      requires Valid() && |pmin| >= |paramVars| && |pmax| >= |paramVars| && Reaches(aps)
      requires g < |groups| && |groups[g]| > 0
      ensures Offset(groups, g) + |groups[g]| <= |paramVars|
      ensures ABounds(pmin, pmax, g).0.Some? && ABounds(pmin, pmax, g).1.Some?
      ensures ABounds(pmin, pmax, g).0.value <= aps[g] <= ABounds(pmin, pmax, g).1.value
              <==> InRange(pmin, pmax, Expanded(aps, |groups|), g)
    {
      var start, size := Offset(groups, g), |groups[g]|;
      GroupWithin(groups, g, |paramVars|);
      var part := GroupInitial(g);
      GroupSettings(aps, g);
      BoundsAreTight(pmin[start..start + size], pmax[start..start + size], part, setRelative[g], aps[g]);
      LimitsShift(pmin, pmax, Expanded(aps, |groups|), part, setRelative[g], aps[g], start, size);
    }

    /** The initial settings of group g's parameters, for a relative group. */
    function GroupInitial(g: nat): (part: seq<real>)
      requires Valid() && g < |groups|
      ensures setRelative[g] ==> |part| == |groups[g]|
    {
      GroupWithin(groups, g, |paramVars|);
      if setRelative[g] then Initial()[Offset(groups, g)..Offset(groups, g) + |groups[g]|] else []
    }

    /** ap_to_mp gives each parameter of group g the Setting of its group's ap. */
    lemma GroupSettings(aps: seq<real>, g: nat)
      requires Valid() && Reaches(aps) && g < |groups| && |groups[g]| > 0
      ensures g < |aps| && Offset(groups, g) + |groups[g]| <= |paramVars|
      ensures forall i :: 0 <= i < |groups[g]| ==>
                Expanded(aps, |groups|)[Offset(groups, g) + i] == Setting(GroupInitial(g), setRelative[g], aps[g], i)
    {
      GroupWithin(groups, g, |paramVars|);
      forall i | 0 <= i < |groups[g]|
        ensures Expanded(aps, |groups|)[Offset(groups, g) + i] == Setting(GroupInitial(g), setRelative[g], aps[g], i)
      {
        GroupSettingAt(aps, g, i);
      }
    }

    /** GroupSettings for parameter i of group g. */
    lemma GroupSettingAt(aps: seq<real>, g: nat, i: nat)
      requires Valid() && Reaches(aps) && g < |groups| && i < |groups[g]|
      ensures g < |aps| && Offset(groups, g) + |groups[g]| <= |paramVars|
      ensures Expanded(aps, |groups|)[Offset(groups, g) + i] == Setting(GroupInitial(g), setRelative[g], aps[g], i)
    {
      GroupWithin(groups, g, |paramVars|);
      ExpandedAt(aps, |groups|, g, i);
      if setRelative[g] {
        assert GroupInitial(g)[i] == initialValues.value[Offset(groups, g) + i];
      }
    }

    /** Every parameter of group g has its machine value within its limits. */
    predicate InRange(pmin: seq<real>, pmax: seq<real>, mps: seq<real>, g: nat)
      requires g < |groups|
    {
      forall k :: Offset(groups, g) <= k < Offset(groups, g) + |groups[g]| ==>
        k < |pmin| && k < |pmax| && k < |mps| && pmin[k] <= mps[k] <= pmax[k]
    }

    /** find_a_bounds' loop over the groups. */
    method CollectBounds(pmin: seq<real>, pmax: seq<real>) returns (bounds: (seq<Option<real>>, seq<Option<real>>))
      requires Valid() && |pmin| >= |paramVars| && |pmax| >= |paramVars|
      ensures bounds == Unzip(PerGroup(pmin, pmax), |groups|)
    {
      ghost var perGroup := PerGroup(pmin, pmax);
      var minBounds: seq<Option<real>> := [];
      var maxBounds: seq<Option<real>> := [];
      var ngroup, mpsindex := 0, 0;
      while ngroup < |groups|
        invariant 0 <= ngroup <= |groups|
        invariant mpsindex == Offset(groups, ngroup)
        invariant (minBounds, maxBounds) == Unzip(perGroup, ngroup)
      {
        GroupWithin(groups, ngroup, |paramVars|);
        var lo, hi := GroupABounds(pmin, pmax, Initial(), setRelative[ngroup], mpsindex, |groups[ngroup]|);
        assert perGroup[ngroup] == (lo, hi);
        minBounds := minBounds + [lo];
        maxBounds := maxBounds + [hi];
        mpsindex := mpsindex + |groups[ngroup]|;
        ngroup := ngroup + 1;
      }
      return (minBounds, maxBounds);
    }
  }
}
