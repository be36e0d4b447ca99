# A verified model of the DLS multi-objective particle swarm optimiser

This project models the core of the Diamond Light Source online optimiser
(`dlsoo`): the multi-objective particle swarm optimiser (MOPSO) of
`dlsoo/dlsoo_mopso.py`, and the parts of `dlsoo/util.py` it depends on.
Those parts are the outlier-rejecting measurement of objectives, the
`measurement` value class, and the machine interactor. The interactor maps
the algorithm's parameters ("ap", one value per parameter group) to the
machine's parameters ("mp", one value per physical PV) and back, and it
turns machine limits into per-group algorithm bounds.

The model is split into these files:

- `wrappers.dfy` (module `Wrappers`): `Option` and `Result`.
- `pareto.dfy` (module `Pareto`): the dominance tests `pareto_remover` and
  `pareto_test`, and the archive filter `find_pareto_front`. The filter keeps
  the source's quirks, and each quirk is proved on a concrete input:
  - three equal entries keep two;
  - a dominated entry survives next to an equal copy of its dominator.

  For inputs with distinct, equally long objective vectors, the filter keeps
  exactly the non-dominated entries. On those inputs it is idempotent and
  never empty.
- `roulette.dfy` (module `Roulette`): `get_leader_roulette_wheel`, using
  Python 2 integer floor division, which is how the source divides there.
  It is proved that every wheel built from three or more entries is all
  zeros.
- `particle.dfy` (module `Particles`): the class `Particle`. Its methods
  update the fields in place: velocity, reflecting position update,
  leader selection.
- `optimiser.dfy` (module `Optimisation`): the class `Optimiser`, with
  `evaluate_swarm`, `evaluate`, the exceptions of `normalised_front`, and
  `optimise`, split into the start and the iteration loop. The module
  globals of the source (`pareto_front`, `completed_iteration`) and the
  dumped archives are fields of the optimiser. A ghost field keeps the
  swarm's entries of the last proposal, so that the archive is stated as
  the front of that proposal on every exit, a cancel included. On a cancel
  those entries still hold the fit, error and stand_div of every particle;
  only the positions have moved since. Each step's contract gives every particle's
  new attributes as a function of its old ones and of the draws.
- `statistics.dfy` (module `Statistics`): `measure_results`. This covers the
  mean and population variance, the 2-sigma outlier pass, with its list
  iterator that skips the element after each removal, and the recomputation.
- `measurement.dfy` (module `Measurements`): the class `measurement` with its
  arithmetic and its comparisons on the mean.
- `mapper.dfy` (module `Mapping`): `find_group_a_bounds` and the class
  `dls_machine_interactor_bulk_base` (`__init__`, `ap_to_mp`, `mp_to_ap`,
  `mr_to_ar`, `find_a_bounds`).

Random numbers are drawn from [0, 1) and supplied as parameters. As in
CPython 2.7:
- `random.uniform(a, b)` is `a + (b - a) * u`;
- `random.choice(s)` is `s[floor(u * len(s))]`.

Machine reads, the measured objectives, the "cancel" button and the
crowding density are also parameters.

Standard deviations are carried as variances. The outlier test
`|x - mean| > 2 sigma` is stated as `(x - mean)^2 > 4 variance`, which is
the same test for a non-negative variance. `dev` and `err` are stored
squared.

Where the code and its documentation differ, the model follows the code:
- the roulette wheel divides integers;
- `mp_to_ap` fails on an interactor built without `set_relative`;
- `find_pareto_front` does not remove every duplicate.

## Model

| member | source | states |
|---|---|---|
| Pareto.Remover | dlsoo/dlsoo_mopso.py:154-172 | None exactly when neither vector is all-greater, all-less or all-equal than the other; otherwise it names the dominated (worse-or-equal) vector; for equal non-empty vectors it names the second |
| Pareto.ParetoTest | dlsoo/dlsoo_mopso.py:188-204 | false only when the first vector is the one pareto_remover would discard, and for non-empty vectors exactly then (unless the vectors are equal) |
| Pareto.GetParetoObjectives | dlsoo/dlsoo_mopso.py:174-186 | one objective vector per entry, in order |
| Pareto.FindFront | dlsoo/dlsoo_mopso.py:206-236 | the pairwise scan plus descending deletion computes ParetoFront of the swarm |
| Pareto.DeleteListMembers | dlsoo/dlsoo_mopso.py:206-236 | a position is on the delete list exactly when some pair's loser is the first occurrence of that position's value |
| Pareto.TargetsAreFirstOccurrences | dlsoo/dlsoo_mopso.py:206-236 | deleted positions are first occurrences (list.index semantics) |
| Pareto.KeepMembers | dlsoo/dlsoo_mopso.py:206-236 | the deletion keeps exactly the entries at positions not on the delete list |
| Pareto.KeepEverything | dlsoo/dlsoo_mopso.py:206-236 | with nothing to delete, the swarm is returned unchanged |
| Pareto.DistinctTargets | dlsoo/dlsoo_mopso.py:154-236 | for distinct, equally long vectors, a position is deleted exactly when its vector is all-greater than another |
| Pareto.FrontCharacterised | dlsoo/dlsoo_mopso.py:206-236 | for distinct, equally long, non-empty vectors: an entry is on the front exactly when it is in the swarm and no swarm entry dominates it |
| Pareto.FrontNonDominated | dlsoo/dlsoo_mopso.py:206-236 | no front entry dominates another |
| Pareto.FrontIdempotent | dlsoo/dlsoo_mopso.py:206-236 | filtering a front again changes nothing |
| Pareto.FrontNonEmpty | dlsoo/dlsoo_mopso.py:206-236 | a non-empty swarm of equally long, non-empty vectors has a non-empty front, even with duplicates |
| Pareto.MinSumSurvivesPair | dlsoo/dlsoo_mopso.py:154-236 | the last entry of least objective sum is never a pair's loser |
| Pareto.TriplicateKeepsTwo | dlsoo/dlsoo_mopso.py:206-236 | three entries with equal objectives: the filter keeps the last two |
| Pareto.DominatedCopySurvives | dlsoo/dlsoo_mopso.py:206-236 | with objectives [2],[1],[2] the front keeps [1] and the second [2], which [1] dominates |
| Roulette.Weight | dlsoo/dlsoo_mopso.py:288-291 | an inverse density is 1, or at most the density sum |
| Roulette.InvDensity | dlsoo/dlsoo_mopso.py:288-291 | one weight per front entry: 1 each when all densities are 0, else density_sum - density |
| Roulette.WeightTotal | dlsoo/dlsoo_mopso.py:286-293 | the weight total is the front size when the densities sum to 0, else (size - 1) * density_sum |
| Roulette.WeightTotalPositive | dlsoo/dlsoo_mopso.py:286-295 | for two or more entries the total weight is positive, so the divisions cannot fail |
| Roulette.Share | dlsoo/dlsoo_mopso.py:295-297 | Python 2 integer division: share * total <= weight, and 0 when the weight is below the total |
| Roulette.RouletteWheel | dlsoo/dlsoo_mopso.py:266-299 | [] for fronts under two entries, else one cumulative entry per front entry, equal to Wheel(density) |
| Roulette.CumulativeMonotone | dlsoo/dlsoo_mopso.py:295-298 | cumulative shares never decrease |
| Roulette.CumulativeBound | dlsoo/dlsoo_mopso.py:295-298 | a cumulative share times the total is at most the weight prefix sum |
| Roulette.WheelShape | dlsoo/dlsoo_mopso.py:266-299 | the wheel is non-decreasing and its last entry is at most 1 |
| Roulette.ZeroShares | dlsoo/dlsoo_mopso.py:295-298 | weights each below the total give all-zero cumulative shares |
| Roulette.WeightsBelowTotal | dlsoo/dlsoo_mopso.py:286-293 | for three or more entries every weight is below the weight total |
| Roulette.WheelAllZero | dlsoo/dlsoo_mopso.py:266-299 | for three or more entries every wheel entry is 0 |
| Roulette.WheelOfTwo | dlsoo/dlsoo_mopso.py:266-299 | the two-entry wheels: [1,1] when only the second density is positive, [0,1] when only the first is, else [0,0] |
| Particles.Uniform | dlsoo/dlsoo_mopso.py:403-404 | random.uniform(a, b) lies in [a, b), and is a when a == b |
| Particles.ChoiceIndex | dlsoo/dlsoo_mopso.py:489-498 | random.choice picks index floor(u * n), which is below n |
| Particles.Reflect | dlsoo/dlsoo_mopso.py:440-464 | a step inside the limits is taken; a step past a limit lands on that limit and reverses the velocity; the result lies within ordered limits |
| Particles.Accelerated | dlsoo/dlsoo_mopso.py:413-437 | only the first len(lower) velocity components change |
| Particles.Moved | dlsoo/dlsoo_mopso.py:440-464 | each updated component lies within its ordered limits; the rest are unchanged |
| Particles.Bounced | dlsoo/dlsoo_mopso.py:440-464 | each velocity component keeps its magnitude |
| Particles.Particle.constructor | dlsoo/dlsoo_mopso.py:401-411 | position and velocity drawn uniformly per parameter within the limits; empty bests, fits and leader; the particle is in bounds when the limits are ordered |
| Particles.Particle.UpdateVelocity | dlsoo/dlsoo_mopso.py:413-437 | the velocity becomes Accelerated(...) of the old state; nothing else changes |
| Particles.Particle.UpdatePosition | dlsoo/dlsoo_mopso.py:440-464 | position and velocity become Moved/Bounced of the old ones; the particle stays in bounds |
| Particles.Particle.ChoosePosition | dlsoo/dlsoo_mopso.py:466-476 | only the position changes, to x0 |
| Particles.Particle.SelectLeader | dlsoo/dlsoo_mopso.py:478-498 | the leader becomes the position of some front entry, chosen by the wheel or at random; nothing else changes |
| Particles.LeaderFromFront | dlsoo/dlsoo_mopso.py:478-498 | a selected leader is always some front entry's position |
| Particles.LeaderWithZeroWheel | dlsoo/dlsoo_mopso.py:478-498 | on fronts of three or more entries with enough objectives the wheel is all zeros, so the leader is the last entry when r == 0, else a random.choice |
| Optimisation.Row | dlsoo/dlsoo_mopso.py:403-404 | the draws for one particle, one per parameter |
| Optimisation.SwarmEntries | dlsoo/dlsoo_mopso.py:366 | the proposed front: one (position, fit, error, deviation) entry per particle, in order |
| Optimisation.Assessed | dlsoo/dlsoo_mopso.py:302-331 | a measurement sets fit, error and deviation; the personal best is replaced unless the new fit is all-greater than the best, and always on the first evaluation |
| Optimisation.Record | dlsoo/dlsoo_mopso.py:320-331 | the particle's new state is Assessed of its old state |
| Optimisation.NoRange | dlsoo/dlsoo_mopso.py:253-260 | max - min of a column is 0 exactly when all its values are equal |
| Optimisation.NormaliseFailure | dlsoo/dlsoo_mopso.py:239-262 | no raise under two members; IndexError exactly when some member has fewer than two objectives; ZeroDivisionError exactly when all have two or more and objective 0 or objective 1 is the same for every member |
| Optimisation.SingleObjectiveRaises | dlsoo/dlsoo_mopso.py:250-251 | with one objective, every archive of two or more members makes normalised_front raise IndexError |
| Optimisation.TwinsRaise | dlsoo/dlsoo_mopso.py:253-260 | two members agreeing on objective 0 (with any further members copies of the first) make normalised_front raise ZeroDivisionError |
| Optimisation.Optimiser.constructor | dlsoo/dlsoo_mopso.py:23-63 | the settings are stored and cancel is cleared; the archive, the count and the dumps start at the module globals' import-time values: an empty front, zero completed iterations, no dumps |
| Optimisation.Optimiser.EvaluateSwarm | dlsoo/dlsoo_mopso.py:86-131 | ZeroDivisionError exactly when max_iter or swarm_size is 0; cancel is set exactly when pressed for some particle; the results are the measurements of the evaluated prefix, and of the whole swarm when not cancelled |
| Optimisation.Optimiser.Evaluate | dlsoo/dlsoo_mopso.py:302-331 | on success each particle's state is Assessed of its old state with its own measurement; on cancel or error no particle changes |
| Optimisation.Optimiser.RecordSwarm | dlsoo/dlsoo_mopso.py:315-331 | a cancel pending before the loop leaves every particle unchanged; otherwise every particle becomes Assessed with its own reading, the best position and fit replaced on the first evaluation and otherwise unless every new objective exceeds the best one |
| Optimisation.Optimiser.FindParetoFront | dlsoo/dlsoo_mopso.py:206-236 | the archive becomes ParetoFront of the proposed entries |
| Optimisation.Optimiser.GetLeaderRouletteWheel | dlsoo/dlsoo_mopso.py:239-299 | raises exactly what normalised_front raises on the archive (NormaliseFailure); otherwise the roulette wheel of the archive's densities: empty under two entries, one entry per archive member from two, all zeros from three |
| Optimisation.Optimiser.Drawn | dlsoo/dlsoo_mopso.py:401-411 | the state Particle(...) gives a particle: param_count position and velocity components, uniform within ordered limits; no stand_div |
| Optimisation.Optimiser.Moving | dlsoo/dlsoo_mopso.py:379-381 | select_leader, update_velocity and update_position change only leader, velocity and position; the leader is some archive member's position; the position stays within ordered limits |
| Optimisation.Optimiser.BuildSwarm | dlsoo/dlsoo_mopso.py:357-359 | swarm_size fresh, distinct particles; particle k holds exactly the state Drawn(d, k) that Particle(...) gives it; all in bounds when the limits are ordered |
| Optimisation.Optimiser.MoveParticle | dlsoo/dlsoo_mopso.py:379-381 | the particle's new state is Moving of its old state: the leader select_leader picks with the wheel, the update_velocity velocity, then the reflecting update_position; it stays shaped and in bounds |
| Optimisation.Optimiser.MoveSwarm | dlsoo/dlsoo_mopso.py:378-381 | every particle's new state is Moving of its old state, with its own draws for iteration t |
| Optimisation.Optimiser.Lead | dlsoo/dlsoo_mopso.py:376-381 | raises exactly NormaliseFailure of the archive, and then no particle changes; otherwise every particle's new state is Led: Moving with the roulette wheel of the archive's densities, and the last proposal still holds every particle's fit, error and stand_div |
| Optimisation.Optimiser.MoveScored | dlsoo/dlsoo_mopso.py:378-381 | every particle's new state is Moving of its old state; the moves leave fit, error and stand_div alone, so the last proposal, which held the swarm's entries, still holds them, and the archive is untouched |
| Optimisation.Optimiser.Archive | dlsoo/dlsoo_mopso.py:388-391 | the archive is the filtered proposal, dumped under the iteration number |
| Optimisation.Optimiser.Seed | dlsoo/dlsoo_mopso.py:357-363 | IndexError exactly when the current ap is requested for an empty swarm; otherwise particle k holds Seeded(k): Drawn(k), with particle 0 at the current ap when requested; in bounds when the limits and the current ap are |
| Optimisation.Optimiser.FirstEvaluation | dlsoo/dlsoo_mopso.py:365 | ZeroDivisionError exactly when max_iter or swarm_size is 0; on that raise or a cancel no particle changes; otherwise each particle's state is Assessed of its old state with its iteration-0 reading, its best being its first position and fit |
| Optimisation.Optimiser.ArchiveFirst | dlsoo/dlsoo_mopso.py:366-370 | the archive is ParetoFront of the swarm's entries and is dumped under 0; completed_iteration is 1 |
| Optimisation.Optimiser.Start | dlsoo/dlsoo_mopso.py:357-371 | the error the start raises (IndexError, ZeroDivisionError, or AttributeError from a cancel during the first evaluation), each case exactly characterised; otherwise particle k holds Assessed(Seeded(k)) with its reading and the archive is ParetoFront of the swarm's entries, dumped under 0 |
| Optimisation.Optimiser.Reevaluate | dlsoo/dlsoo_mopso.py:383-386 | cancel is set exactly when pressed for some particle in this iteration; then no particle changes; otherwise each particle's state is Assessed of its old state with its iteration-t reading; the archive and the last proposal are untouched, and after a cancel the last proposal still holds every particle's fit, error and stand_div if it did before |
| Optimisation.Optimiser.Advance | dlsoo/dlsoo_mopso.py:388-393 | the archive becomes ParetoFront of the swarm's entries plus the old archive, dumped under the old count; one more iteration completed |
| Optimisation.Optimiser.Steer | dlsoo/dlsoo_mopso.py:375-386 | the particle phase of iteration t: raises exactly NormaliseFailure of the archive, with no particle changed; otherwise particle k holds Led of its old state, then Assessed with its reading unless a cancel was pressed in this iteration; after a cancel the last proposal holds every particle's fit, error and stand_div |
| Optimisation.Optimiser.Extend | dlsoo/dlsoo_mopso.py:388-393 | after an iteration the count grows by one, the last proposal is the swarm's entries plus the previous archive and the archive is its front, and every archive dumped before this iteration normalised without a raise |
| Optimisation.Optimiser.Round | dlsoo/dlsoo_mopso.py:375-393 | one pass of the for loop: a raise or a cancel leaves the count, the archive, the dumps and the last proposal as they were; after a cancel every particle holds Led of its old state, and the last proposal holds every particle's fit, error and stand_div; otherwise the count grows by one and the archive is the front of the swarm's entries and the previous archive |
| Optimisation.Optimiser.Run | dlsoo/dlsoo_mopso.py:375-393 | the for loop: completes with completed_iteration == max_iter, stops on a cancel pressed in iteration completed_iteration, or raises NormaliseFailure of the current archive; on every exit the archive is the front of the last completed iteration's proposal (its swarm's entries and the archive before it), and on completion or a raise those entries are the swarm's current ones; on a cancel they hold the fit, error and stand_div every particle still carries |
| Optimisation.Optimiser.Optimise | dlsoo/dlsoo_mopso.py:335-395 | a start that raises returns that error (StartFailure); otherwise a completed run did max_iter iterations; a cancelled run stopped in the iteration where a cancel was pressed, before counting it; a raised run stopped on NormaliseFailure of the archive; every earlier archive normalised without a raise; on every exit the archive is the front of the last completed iteration's proposal, whose swarm entries are the current ones on completion or a raise, and hold the fit, error and stand_div every particle still carries on a cancel |
| Optimisation.KeptFrom | dlsoo/dlsoo_mopso.py:206-236 | the archive only holds entries that were proposed |
| Optimisation.ProposedShape | dlsoo/dlsoo_mopso.py:388 | swarm entries plus a well-shaped archive form a well-shaped proposal |
| Measurements.Measurement.constructor | dlsoo/util.py:1273-1278 | stores name, mean, dev, counts and err |
| Measurements.Measurement.Neg | dlsoo/util.py:1280-1284 | negates the mean in place and returns the same object |
| Measurements.Measurement.Pos | dlsoo/util.py:1286-1287 | returns the same object |
| Measurements.Measurement.Add | dlsoo/util.py:1289-1293 | a fresh measurement whose mean is the sum, with no other fields |
| Measurements.Measurement.Sub | dlsoo/util.py:1295-1299 | a fresh measurement whose mean plus the other mean is this mean |
| Measurements.Measurement.Mul | dlsoo/util.py:1301-1305 | a fresh measurement whose mean is the product |
| Measurements.Measurement.Div | dlsoo/util.py:1307-1311 | ZeroDivisionError exactly when the divisor's mean is 0; else the quotient times the divisor is this mean |
| Measurements.Measurement.Less | dlsoo/util.py:1333-1339 | __lt__ compares the means only: true exactly when this mean is below the other |
| Measurements.Measurement.AtMost | dlsoo/util.py:1341-1347 | __le__ compares the means only: true exactly when this mean is at most the other |
| Measurements.Measurement.Same | dlsoo/util.py:1349-1355 | __eq__ compares the means only: true exactly when the means are equal, whatever the other fields hold |
| Measurements.Measurement.Differs | dlsoo/util.py:1357-1363 | __ne__ compares the means only: true exactly when the means differ |
| Measurements.Measurement.AtLeast | dlsoo/util.py:1365-1371 | __ge__ compares the means only: true exactly when this mean is at least the other |
| Measurements.Measurement.Greater | dlsoo/util.py:1373-1379 | __gt__ compares the means only: true exactly when this mean is above the other |
| Statistics.Squares | dlsoo/util.py:95 | each sample's square |
| Statistics.Remove | dlsoo/util.py:114-116 | one element shorter |
| Statistics.FirstIndex | dlsoo/util.py:114 | list.index: the first position holding the value |
| Statistics.Collect | dlsoo/util.py:94-103 | the samples and their squares, in reading order |
| Statistics.Moments | dlsoo/util.py:105-107 | the mean and population variance of the samples |
| Statistics.DropOutliers | dlsoo/util.py:110-116 | the outlier pass as written (skipping after each removal); anomaly exactly when something was removed; nothing removed means the samples are unchanged |
| Statistics.PassStep | dlsoo/util.py:111-116 | one iterator step: an outlier's first copy is removed and the iterator moves on, an inlier is kept |
| Statistics.PassKeepsInliers | dlsoo/util.py:111-116 | the pass never removes an inlier and only removes samples |
| Statistics.PassWithoutOutliers | dlsoo/util.py:111-116 | with no outliers the pass changes nothing |
| Statistics.RemoveOutlier | dlsoo/util.py:114-116 | removing an outlier keeps the inliers and removes one copy |
| Statistics.SpreadIsVariance | dlsoo/util.py:105-107 | the sum of squared deviations from the mean is n times the population variance |
| Statistics.VarianceNonNegative | dlsoo/util.py:106-107 | sum(x^2)/n - mean^2 is never negative, so the square root is defined |
| Statistics.SpreadCoversOutliers | dlsoo/util.py:112 | each outlier contributes more than 4 variances to the spread |
| Statistics.MostAreInliers | dlsoo/util.py:112 | by Chebyshev's bound, more than three quarters of the samples are within 2 sigma |
| Statistics.KeptMostSamples | dlsoo/util.py:110-127 | the pass keeps more than three quarters of the samples (so at least one), only removes samples, and keeps every inlier |
| Statistics.Summarise | dlsoo/util.py:94-129 | the reported count is the number of kept samples, at least 1 |
| Statistics.MeasureOne | dlsoo/util.py:94-129 | ZeroDivisionError exactly when there are no samples; else the summary of the samples |
| Statistics.SummaryWithoutOutliers | dlsoo/util.py:110-124 | with no outliers the summary is the plain mean, variance and count |
| Statistics.MeasureResults | dlsoo/util.py:78-135 | an error exactly when some objective has no samples; else one fresh measurement per objective carrying its summary |
| Statistics.FiveTensAndThirty | dlsoo/util.py:110-124 | [10,10,10,10,10,30]: the 30 is dropped, mean 10, variance 0, count 5 |
| Statistics.SecondOutlierSkipped | dlsoo/util.py:111-116 | nine 0s and two 10s: both 10s are outliers, but the iterator skips the second, which stays |
| Mapping.FlattenAt | dlsoo/util.py:255-258 | parameter i of group g sits at the group's offset plus i in the flat list |
| Mapping.EveryParameterInAGroup | dlsoo/util.py:255-258 | every flat position belongs to some group |
| Mapping.LargestIsMaximum | dlsoo/util.py:156-186 | max(): the value occurs in the list and bounds every element |
| Mapping.SmallestIsMinimum | dlsoo/util.py:156-186 | min(): the value occurs in the list and is below every element |
| Mapping.Shifted | dlsoo/util.py:156-158 | each limit, shifted by minus the initial setting for a relative group |
| Mapping.FindGroupABounds | dlsoo/util.py:139-190 | (max of shifted minima, min of shifted maxima) over the zipped lists, both None when a list is empty |
| Mapping.GroupABounds | dlsoo/util.py:372-417 | the same bounds for one group's slice of the full limit lists |
| Mapping.BoundsAreTight | dlsoo/util.py:139-190 | a group value lies within the bounds exactly when every parameter it sets lies within its limits |
| Mapping.LimitsShift | dlsoo/util.py:378-394 | the limit test on a group's slice is the limit test on the full lists at its positions |
| Mapping.Interactor.constructor | dlsoo/util.py:250-273 | parameters flattened group by group; every group absolute and no initial values without set_relative, else the given flags and the current machine values |
| Mapping.Interactor.ApToMp | dlsoo/util.py:285-306 | IndexError exactly when a group with parameters has no ap; else each parameter gets its group's ap (plus its initial value when relative), and the pair is stored |
| Mapping.Interactor.ExpandedAt | dlsoo/util.py:285-306 | parameter i of group g gets ap[g], plus its initial value when relative |
| Mapping.Interactor.MpToAp | dlsoo/util.py:308-328 | IndexError exactly when a group's first position is missing; AttributeError exactly when there are no initial values; else each group's value is read from its first parameter |
| Mapping.Interactor.RoundTrip | dlsoo/util.py:285-328 | with initial values and no empty group, mp_to_ap(ap_to_mp(aps)) == aps |
| Mapping.Interactor.MrToAr | dlsoo/util.py:331-332 | results pass through unchanged |
| Mapping.Interactor.PerGroup | dlsoo/util.py:366-420 | one pair of bounds per group |
| Mapping.Interactor.FindABounds | dlsoo/util.py:366-420 | IndexError exactly when a limit list is shorter than the parameter list; else, for each group, find_group_a_bounds of its own limits and initial values |
| Mapping.Interactor.CollectBounds | dlsoo/util.py:366-420 | the per-group bounds, split into the list of minima and the list of maxima |
| Mapping.Interactor.BoundsKeepMachineInRange | dlsoo/util.py:366-420 | a group's ap lies within its bounds exactly when ap_to_mp puts all of that group's parameters within their machine limits |
| Mapping.Interactor.GroupSettings | dlsoo/util.py:290-300 | the group's mps are its settings of ap[g] |

## Left out

- The crowding density of `get_leader_roulette_wheel` is computed from the normalised front with a scipy KD-tree. It is a parameter here, since it is floating-point library code. The exceptions `normalised_front` raises before the KD-tree is built are modelled (NormaliseFailure).
- Optimise: the measurement of the objectives is a parameter that always returns a reading. An exception raised inside it is not passed up; `measure_results` with an objective that has no samples (its division at dlsoo/util.py:105) and an `ap_to_mp` IndexError are modelled only on their own, by Statistics.MeasureOne and Mapping.Interactor.ApToMp.
- Optimisation.Optimiser.constructor: `pareto_front`, `completed_iteration` and `completed_percentage` are module globals in the source (dlsoo/dlsoo_mopso.py:23-25). They are set once at import and shared by every optimiser in the process, and `__init__` does not reset them. Here they are fields of each optimiser, starting at their import-time values. The sharing across optimiser instances is not modelled: a second optimiser whose start raises keeps the previous run's archive in the source, but has the empty archive here.
- Optimise and Run: they do not give the particles' final attributes as one closed function of all the draws. Start states them after the first evaluation and Steer and Round state them for each iteration; Optimise and Run state the outcome, the count, the archive and the last proposal. On a cancel the proposal's positions are those before the cancelled iteration's moves, which Optimise and Run do not state as a function of the particles' current state.
- Optimise: it requires at least one objective. With none, the source raises IndexError in the first iteration: `normalised_front` reads objective 0 of an archive of two or more members, and `select_leader` indexes the empty wheel of a one-member archive. That run is not modelled.
- The Tkinter GUI classes, progress handler, pause handling, `save_details_file`, `dump_fronts`' pickle file format and the `time.sleep` delays are left out. They are I/O.
- Square roots are not modelled. Deviations and errors are carried as variances, so `dev` holds sigma squared and `err` holds sigma squared over the count.
- Floating point is modelled by real numbers. Rounding effects are not captured.
- The random draws are supplied per use (particle, parameter, iteration), not as one stream in call order.
- Measurements.Measurement.constructor: the mean is a real. The source's default `mean=None` is not modelled.
- The in-place operators `__iadd__`, `__isub__`, `__imul__` and `__idiv__` return the same values as `Add`, `Sub`, `Mul` and `Div` and are not modelled separately.
- Mapping.Interactor.constructor: it requires as many `set_relative` flags as groups. The current machine values (`get_mp`) are a parameter.
- Minimum counts are natural numbers; the source converts them with `int()`.
- `sim_machine_interactor_bulk_base`, `dls_machine_interactor_bulk_base_inj_control` and `sim_machine_interactor_bulk_base_inj_control` repeat the `ap_to_mp`, `mp_to_ap`, `mr_to_ar` and `find_a_bounds` of `dls_machine_interactor_bulk_base` word for word. Only the latter is modelled.
- `dls_machine_interactor_base` and `sim_machine_interactor_base` map aps to mps by the identity and results to results by the identity. They have no `mp_to_ap` or `find_a_bounds` and are not modelled.
- `set_mp`, `get_mp`, `get_mr`, `set_ap`, `get_ap`, `get_ar`, `get_pv`, `set_pv`, `set_params`, `abstract_caget`, `abstract_caput` and `string_ap_to_mp_store` are left out. They are machine (EPICS) I/O or text formatting.
- Pareto.FrontCharacterised, Pareto.FrontNonDominated and Pareto.FrontIdempotent: these are stated for distinct, equally long objective vectors. With duplicates the filter keeps some of them (see TriplicateKeepsTwo and DominatedCopySurvives), and the duplicate cases are characterised only by DeleteListMembers and KeepMembers.

