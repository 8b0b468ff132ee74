# Waterflood verification model

A Dafny model of the parts of a waterflood planner whose behaviour is decided by recursion, search or state
rather than by a single formula, with proofs of what those parts promise.

* **The capacitance-resistance model.** `Duals`, `Crm`, `Crmip` define the leaky recursion, its two variants and the same
  recursion over dual numbers `a + bE`, `E*E = 0`. `CrmForward` and `PairForward` hold the step loops that fill states and
  hand-written sensitivities, proved equal to the recursion and to its dual-number derivative. `Objective`, `LinearForm`,
  `PairLinear`, `GlobalMinimum` and `VarPro` treat the least-squares objective: exact expansion, the box minimum, the design
  matrix. `Redistribution`, `Field`, `Prediction` and `Bounds` build the field prediction from it, and `Continuation`
  with `Forecast` prove that the cached continuation is that prediction on history plus plan; `Unstarted` does the producers
  that had not produced before the plan, and `GridTerms` says what predictions and forecasts are in terms of the grid's own rows.
* **Graph and window algorithms.** `Components` (union-find with path halving on an array), `Sectors`, `Windows`, `Rolling`,
  `ChangeDetect`, `WellType`.
* **Planning.** `Allocation` (greedy start, plan expansion), `Planning` (caching evaluator, incumbent loop under an arbitrary
  optimiser), `FractionalFlow` (clamped log-linear fit, offset search), `Ramping`.
* **State machines.** `Lifecycle` and `RecommendationService` (recommendations with load-modify-save), `JobTable` and
  `JobQueue` (the job table and its interleaved workers).

Floating-point numbers are exact reals. The exponential is a parameter (`Exp`, a total map): the recursion, its
derivative, the expansion and the continuation hold for every such map, and where decay matters the hypothesis
`IsDecay` says that non-positive arguments give values in (0, 1]. Optimisers, least-squares solvers, rankings and
scalar minimisers are arbitrary values; what is used of them is stated in a `requires`.

## Where the code and its description differ

* `_design_crmp` ignores closed steps. With decay factors other than one it gives the columns of the forward model for
  every source exactly when no step after the first is closed (`VarPro.DesignAgreesIffOpen`).
* The forecast continuation is said to reproduce the field prediction exactly. For an open producer that started in
  history it does exactly when the plan rows leave q(0) unchanged or its primary gain is zero
  (`Continuation.ForecastMatchesIffPotential`); a late starter is a counterexample (`Forecast.LateStarterDiffers`).
  A producer that never started is let in by the continuation at the first plan step and by the field prediction after
  it: they agree exactly when what that step brings, carried on, adds up to the primary term of the q(0) the plan rows
  give it (`Unstarted.ForecastMatchesIff`). With q(0) zero and one state that means a first step without any source
  (`Unstarted.ForecastMatchesIffNoFirstSource`), so a producer that the first plan step drives is a counterexample
  (`Unstarted.NeverStartedDiffers`).
* `sectorize` is said to drop nothing. Exactly the wells described by `LeftOut` are in no sector; an injector can be left out
  although its nearest producer ends up in one (`Sectors.LeftOutNextToPlaced`).
* `claim_next` is said to return None when the queue is empty. It also does after a lost race, so a worker started with
  `--once` can stop while jobs wait (`JobQueue.LostRaceLooksEmpty`). A job queued for a thread pool can be claimed by a
  worker as well and then runs twice (`JobQueue.PoolJobRunsTwice`).
* `approve` sets its originator flag before a later refusal. `Lifecycle.RefusalLeavesTraceIff` says exactly when, and
  `Lifecycle.FlagOutlivesRefusal` what reusing the object would store.
* A ramp stops at numpy's default relative tolerance, not at the stated 1e-9. It stops when the last of its wells first comes
  close, and a well ends at its target exactly when it has arrived by then (`Ramping.RampArrivesIff`). An increase from
  above the floor is short at its first close week exactly when some power x (1 + frac)^n is just below the target
  (`Ramping.StopsShortIff`), which makes a whole family of ramps stop short (`Ramping.StopsShort`), some by more than
  1e-9 (`Ramping.ShortByMoreThanTiny`).
* Splitting rates into roles drops rows and streams. A total is kept on a date exactly when the dropped amounts cancel there
  (`WellType.SplitConservesIff`): always for non-negative oil, water and injection (`WellType.SplitConserves`), but a step that
  counts as idle loses whatever it carries, gas included (`WellType.IdleStepLoses`).
* The evaluation cache answers for a rounded vector. What `optimize_plan` reports is consistent with those answers
  (`Planning.OptimizePlan`); they are the plan's own values when evaluation looks at the rounded vector only.

## Model

| member | source | states |
|---|---|---|
| Crm.JacobianIsExact | waterflood_app/models/solver.py:114-183 | Every hand-written CRMP sensitivity (allocations, tau tied or free, gain, primary tau, J) is the E-coefficient of the same recursion run on dual numbers, at every step, open or closed |
| Crm.TauSlopeIsDual | waterflood_app/models/solver.py:152-157 | The tau column of the step loop is the derivative of the state when decays and pressure sources both move with tau |
| Crm.JacobianEntryTied | waterflood_app/models/solver.py:170-175 | With the primary term tied to tau, the tau column includes the primary term's own derivative |
| Crm.RealPartIsRate | waterflood_app/models/solver.py:114-183 | Whatever parameter is perturbed, the real part of the dual run is the model's own rate |
| CrmForward.StepLoop | waterflood_app/models/solver.py:134-160 | The loop over arrays fills states, allocation, tau and J columns with the filters that define them; a closed step copies the row |
| CrmForward.CrmpForward | waterflood_app/models/solver.py:114-183 | Rates are the recursion's rates, zero while shut in, and the Jacobian, when asked for, is exact row by row in the layout of theta |
| Crmip.PairJacobianIsExact | waterflood_app/models/solver.py:186-233 | The CRMIP sensitivities, one state per injector-producer pair, are exact derivatives for every parameter |
| Crmip.RealPartIsPairRate | waterflood_app/models/solver.py:186-233 | The same of the CRMIP dual run |
| PairForward.PairRows | waterflood_app/models/solver.py:202-216 | The CRMIP loop fills all four matrices row by row from the previous row |
| PairForward.CrmipForward | waterflood_app/models/solver.py:186-233 | CRMIP rates and Jacobian are those of the recursion and its dual-number derivative |
| LinearForm.StateIsLinear | waterflood_app/models/solver.py:129-150 | x equals sum f_i c_i + J dx_dJ at every step, closed steps included |
| LinearForm.RateMoves | waterflood_app/models/solver.py:114-183 | With the time constants fixed the rate moves exactly along the Jacobian row |
| PairLinear.PairRateMoves | waterflood_app/models/solver.py:186-233 | The same for CRMIP: with all pair time constants fixed the rate moves exactly along its Jacobian row |
| Objective.ExactExpansion | waterflood_app/models/solver.py:247-263 | val(theta + delta) = val(theta) + grad . delta + half the squared weighted move, penalties included, for any model that moves along its Jacobian |
| Objective.SignConditionsSuffice | waterflood_app/models/solver.py:247-263 | A box point that meets the sign conditions is no worse than any other point of the box |
| Objective.ValueInFull | waterflood_app/models/solver.py:247-263 | The objective is half the sum of (w (qhat - q))^2 over the first n_train rows, plus lam times the allocations, plus the allocations weighted by distance over the middle distance, each penalty only when its weight is positive |
| Objective.BlindRowsIgnored | waterflood_app/models/solver.py:252-255 | Neither value nor gradient depends on measurements or weights from step n_train on |
| GlobalMinimum.EvaluateObjective | waterflood_app/models/solver.py:247-263 | The objective as computed from the forward loop is the value and gradient the theorems speak of |
| GlobalMinimum.ObjectiveExpansion | waterflood_app/models/solver.py:247-263 | The exact expansion of the CRMP objective at fixed time constants |
| GlobalMinimum.SignConditionsIffMinimum | waterflood_app/models/solver.py:247-263 | At fixed time constants a box point is a global minimum of the CRMP objective if and only if it meets the sign conditions |
| PairLinear.PairObjectiveExpansion | waterflood_app/models/solver.py:186-263 | The exact expansion of the CRMIP objective at fixed time constants |
| PairLinear.EvaluatePairObjective | waterflood_app/models/solver.py:247-263 | The CRMIP objective as computed from its forward loop is the value and gradient the theorems speak of |
| PairLinear.PairSignConditionsIffMinimum | waterflood_app/models/solver.py:186-263 | At fixed time constants a box point is a global minimum of the CRMIP objective if and only if it meets the sign conditions |
| VarPro.DesignCrmp | waterflood_app/models/solver.py:335-345 | The design matrix holds the filters of every injector and of the pressure column as if no step were closed |
| VarPro.DesignAgreesIffOpen | waterflood_app/models/solver.py:335-345 | With decay factors other than one, those are the forward model's filters for every source if and only if no step after the first is closed |
| VarPro.VarproSolve | waterflood_app/models/solver.py:348-384 | For any coefficients the solver returns, on always-open histories the reported squared error is twice the unpenalised objective at the assembled theta, tied or free |
| VarPro.ThetaOfAllowed | waterflood_app/models/solver.py:355-383 | The fitted allocation of a disallowed pair is zero and that of an allowed one its own coefficient, in order |
| Redistribution.MultiplierBounds | waterflood_app/models/solver.py:493-506 | For non-negative allocations the multiplier lies in [1, max(1, cap)] |
| Redistribution.AllOpenMultiplier | waterflood_app/models/solver.py:493-506 | Nothing is redistributed while every producer is open |
| Redistribution.DeliveredAtMostTotal | waterflood_app/models/solver.py:493-506 | What the masked producers receive, summed over them, is at most the injector's total, and exactly that when their allocation exceeds the guard and the cap does not bind |
| Redistribution.MultiplierIs | waterflood_app/models/solver.py:503-506 | The multiplier is the total over the allocation to masked producers, the cap once that quotient exceeds it, and one when hardly anything is open |
| Redistribution.ClosedSharesIrrelevant | waterflood_app/models/solver.py:503-506 | It depends on how much the closed producers have together, not on how they share it |
| Redistribution.FilterBounds | waterflood_app/models/solver.py:138-150 | Driven by a non-negative source the state stays between zero and the running maximum of the source |
| Redistribution.FilterMonotone | waterflood_app/models/solver.py:138-150 | A larger source at any step never lowers a later state |
| Statistics.SortIsSorted | waterflood_app/models/solver.py:565-565 | The values behind the median are the same values in ascending order |
| Statistics.MedianIsMiddle | waterflood_app/models/solver.py:565-565 | The median is the mean of the two middle values, counted without sorting: at least half of the values are at most it and at least half at least it |
| Statistics.MiddleIsUnique | waterflood_app/models/solver.py:565-565 | No other number is in the middle |
| Field.FirstOnIsFirst | waterflood_app/models/solver.py:551-564 | The start of a producer is its first producing step |
| Field.RateIsPieces | waterflood_app/models/solver.py:602-616 | The prediction is the primary term plus the states, zero before the first producing step and while shut in, for CRMP and CRMIP |
| Prediction.FillColumn | waterflood_app/models/solver.py:614-615 | Writing out[start:, j] changes that part of that column and nothing else |
| Prediction.PredictField | waterflood_app/models/solver.py:602-616 | Column by column, the table holds every producer's rate under the redistributed injection |
| GridTerms.PotentialIsMiddle | waterflood_app/models/solver.py:559-565 | A producer that comes on later than the first step starts from the middle of its first three rates, or of those there are |
| GridTerms.FirstPrediction | waterflood_app/models/solver.py:563-564 | On stream from the first step, a producer's first predicted rate is its gain times its first measured rate |
| GridTerms.PredictionAtStart | waterflood_app/models/solver.py:559-565 | Nothing is predicted before a producer comes on, and its gain times q(0) at that step |
| GridTerms.PredictionFromFirstRate | waterflood_app/models/solver.py:602-616 | While open, such a prediction is the first measured rate declined since the first step, plus the states |
| GridTerms.FilterIsConvolution | waterflood_app/models/solver.py:138-150 | A state is the sum of every open step's source, decayed over the open steps since |
| GridTerms.HistoryWater | waterflood_app/models/solver.py:493-545 | With redistribution on, the producers open at a step together receive what the injector would have sent to all, unless cap or guard applies, and never more; without it nothing is scaled |
| Bounds.PredictionNonNegative | waterflood_app/models/solver.py:493-506 | Under constant pressure every predicted rate is non-negative, with or without redistribution |
| Bounds.PredictionMonotone | waterflood_app/models/solver.py:602-616 | More injection anywhere never lowers any predicted rate of any producer |
| Bounds.EffectiveStateBounds | waterflood_app/models/solver.py:138-163 | No state exceeds the running maximum of its effective support |
| Continuation.FilterContinues | waterflood_app/models/forecast.py:182-197 | Running the recursion over appended open steps is carrying its last state over them |
| Continuation.PotentialExtends | waterflood_app/models/solver.py:551-565 | With its window inside history, q(0) is the same on history and on history plus plan |
| Continuation.EffectiveExtends | waterflood_app/models/forecast.py:140-181 | Scaling history and plan by their multipliers separately is scaling them together |
| Continuation.ForecastMatchesPrediction | waterflood_app/models/forecast.py:116-200 | For every open producer started in history with its window in it, the continuation is the field prediction on history plus plan: both variants, with or without redistribution and pressures |
| Continuation.ForecastMatchesIffPotential | waterflood_app/models/forecast.py:116-200 | Without the window condition, for every open producer that started in history they agree if and only if the plan rows leave q(0) unchanged or its primary gain is zero |
| Unstarted.ForecastMatchesIff | waterflood_app/models/forecast.py:116-200 | For every open producer, started or not, continuation and field prediction agree at a plan step if and only if q(0) is unchanged or without weight, or, never started, the first plan step's carried shares equal the primary term of the new q(0) |
| Unstarted.ForecastMatchesIffNoShare | waterflood_app/models/forecast.py:182-200 | With q(0) still zero, a producer that never started agrees at step n if and only if its first plan step's shares cancel over the states |
| Unstarted.ForecastMatchesIffNoFirstSource | waterflood_app/models/forecast.py:192-197 | With one state and a first step that decays, if and only if nothing drives the producer in the first plan step |
| Unstarted.RateGap | waterflood_app/models/forecast.py:166-200 | Continued minus predicted rate of a producer that never started is exactly the first step's carried shares less the primary term of the new q(0) |
| Unstarted.NeverStartedDiffers | waterflood_app/models/solver.py:559-561 | A producer without a producing step, q(0) zero on both grids and injection in the plan: the two forms differ |
| Forecast.PieceStep | waterflood_app/models/forecast.py:143-161 | One step of the vectorised history loop, with its start offsets and frozen states, is one step of the sliced recursion |
| Forecast.RunHistory | waterflood_app/models/forecast.py:116-164 | The vectorised loop ends with every producer's state, q(0) and day zero |
| Forecast.ForecastModel.StateAtEnd | waterflood_app/models/forecast.py:116-164 | The cached state is that of the effective history, and a second call returns it unchanged |
| Forecast.Carried | waterflood_app/models/forecast.py:166-200 | The plan loop from the cached state gives the continued liquid of every producer and step |
| Forecast.ForecastModel.Continue | waterflood_app/models/forecast.py:166-200 | Every row of the continuation is the continued liquid under the effective plan |
| Forecast.ForecastModel.Simulate | waterflood_app/models/forecast.py:202-236 | Reported liquid is that, never negative, anchored and masked |
| Forecast.ReportedMatchesPrediction | waterflood_app/models/forecast.py:202-236 | For all producers, open or closed, the reported liquid is the anchored and masked field prediction |
| GridTerms.ForecastFromFirstRate | waterflood_app/models/forecast.py:171-200 | Over the plan the continuation starts from the same first measured rate |
| GridTerms.ForecastMatchesFromRows | waterflood_app/models/forecast.py:116-200 | Continuation and field prediction agree for every open producer on stream from the first step or with three rows of history since it came on, as read off the mask and the active flags |
| GridTerms.PlanWater | waterflood_app/models/forecast.py:180-183 | The same water law over a plan, with the producers the active flags leave open |
| GridTerms.MovesIffOpen | waterflood_app/models/forecast.py:180-197 | A producer the active flags close keeps its states over the plan, any other takes every step |
| GridTerms.ReportsIffOpen | waterflood_app/models/forecast.py:202-240 | Nothing is reported for it; for others the anchored continuation, never below zero |
| Forecast.LateStarterDiffers | waterflood_app/models/solver.py:565-565 | A producer starting in the last month of history, with zero plan rows appended, breaks the equality |
| Components.Find | waterflood_app/prep/sectors.py:35-39 | Terminates despite path halving and returns the root, leaving every root what it was |
| Components.JoinEnds | waterflood_app/prep/sectors.py:43-46 | Gives the ends of an edge one root and keeps the forest sound |
| Components.SameRootIffJoined | waterflood_app/prep/sectors.py:31-46 | After the loops two wells share a root exactly when a path of edges joins them |
| Components.ConnectedComponents | waterflood_app/prep/sectors.py:31-52 | Every well is in exactly one group, listed once in ascending order; two wells are in one group exactly when a path joins them; groups come in the order of their first wells |
| Sectors.SortInOrder | waterflood_app/prep/sectors.py:86-87 | Components are sorted by their first injector, then their first producer |
| Sectors.ArgminIsFirstSmallest | waterflood_app/prep/sectors.py:90-96 | The nearest well is the first of the nearest |
| Sectors.NearestIsNearest | waterflood_app/prep/sectors.py:88-96 | No opposite well is nearer than the one chosen, and none before it is as near |
| Sectors.JoinNearest | waterflood_app/prep/sectors.py:89-100 | A pass over isolated wells places exactly those whose nearest opposite well was in a sector, in that well's sector, and disturbs no component |
| Sectors.Sectorize | waterflood_app/prep/sectors.py:55-103 | Sectors are pairwise disjoint; wells with edges share one if and only if a path joins them; sectors come in the order of their first injectors; an isolated well is with its nearest opposite well, or in the first sector without coordinates; exactly the wells of LeftOut are in none |
| Sectors.ProducerLeftOutIff | waterflood_app/prep/sectors.py:95-100 | In every sectorization a producer is in no sector if and only if it is isolated and its nearest injector is in none |
| Sectors.AllPlacedIff | waterflood_app/prep/sectors.py:88-100 | With coordinates and an edge, every well is placed if and only if no isolated injector has an isolated nearest producer |
| Sectors.LeftOutNextToPlaced | waterflood_app/prep/sectors.py:89-100 | An injector is left out although its nearest producer is in a sector |
| Allocation.Greedy | waterflood_app/optimize/solvers.py:224-238 | The greedy start respects every bound, fills in ranking order, and its sum is the total clamped to [sum lo, sum hi] |
| Allocation.GreedyIsOptimal | waterflood_app/optimize/solvers.py:224-238 | No other split of the same water within the bounds has a larger marginal value |
| Allocation.ExpandPlan | waterflood_app/optimize/solvers.py:40-47 | The periods tile the horizon: step n gets the row of period ((n + 1) p - 1) / h |
| Allocation.PeriodIff | waterflood_app/optimize/solvers.py:43-46 | A step lies between the edges of that period and of no other |
| Planning.Evaluator.Forecasts | waterflood_app/optimize/solvers.py:118-130 | A hit returns the entry, a miss evaluates, counts and stores it after dropping a full cache; every entry is the evaluation of a vector with its key, and the right one when keys decide |
| Planning.StaleHit | waterflood_app/optimize/solvers.py:118-122 | Without that hypothesis a vector is answered with the evaluation of another one of the same key |
| Planning.FeasibleIff | waterflood_app/optimize/solvers.py:258-260 | A point is feasible exactly when it is in its bounds, every period's water is at most the total, and equal to it when it must be, within 1e-6 of the scale, and every limit and member keeps its value within the tolerance |
| Planning.Consider | waterflood_app/optimize/solvers.py:243-263 | Whatever was returned or raised: the next incumbent is the clipped result, with its reported value and success flag, when the reported outcome is feasible and better by more than the margin, and otherwise the old one |
| Planning.BestOf | waterflood_app/optimize/solvers.py:242-281 | After all starts and the polish the incumbent is reported no worse than hold-current; when keys decide, no feasible result beats it by more than the margins |
| Planning.OptimizePlan | waterflood_app/optimize/solvers.py:242-285 | For any answers of the cache: hold-current, or inside the bounds with every period's water within 1e-6 of the total or below it, reported at least at hold-current's value, and under a loss-rejecting posture no member reported more than 1e-9 below base; when keys decide, every forecast limit kept as well and no feasible attempt better |
| FractionalFlow.SseAround | waterflood_app/models/fractional_flow.py:55-70 | Around a least-squares solution the error of any line grows by exactly the spread of the move |
| FractionalFlow.ClampedIsBest | waterflood_app/models/fractional_flow.py:58-69 | The line, clamped and re-estimated or not, is the best of all lines with slope in [0, 50], and the only one with two distinct abscissae |
| FractionalFlow.LogLinearIsBest | waterflood_app/models/fractional_flow.py:55-76 | The reported squared error is minimal over all intercepts and admissible slopes at this offset |
| FractionalFlow.UsableStepsAre | waterflood_app/models/fractional_flow.py:92-100 | The steps the fit takes are exactly those on, with liquid, an oil cut inside the limits and a volume, in order |
| FractionalFlow.SearchOffset | waterflood_app/models/fractional_flow.py:101-122 | The earliest best offset, or the scalar minimiser's where that is positive and it is no worse; whatever the minimiser returns, no admissible offset tried has a smaller error |
| FractionalFlow.FitPowerLaw | waterflood_app/models/fractional_flow.py:79-124 | The fit is no worse than any line with an admissible slope at any admissible grid offset, its r2 lies in [0, 1] and is one exactly without error, and data that follow the law at a grid offset leave none; with few points it is the constant fit, and without any positive volume the line through nothing |
| FractionalFlow.ConstantReproduces | waterflood_app/models/fractional_flow.py:95-98 | The constant fit gives back the clipped mean oil cut, without slope or offset |
| Ramping.Ramp | waterflood_app/optimize/ramping.py:49-68 | Changes below the threshold are undone, weekly rates follow the capped step of each well, and the loop stops at the first week all wells are close, or after 520 |
| Ramping.CloseIff | waterflood_app/optimize/ramping.py:57-57 | Close means within 1e-9 plus 1e-5 of the target's size, above or below |
| Ramping.StepOfWell | waterflood_app/optimize/ramping.py:60-65 | Wells without a facility override move by the common step, the others by their own |
| Ramping.WeekBounds | waterflood_app/optimize/ramping.py:60-65 | A week moves towards the target, never past it, by the cap or to the target |
| Ramping.RampIsMonotone | waterflood_app/optimize/ramping.py:56-67 | From any week to any later one the rate moves towards its target without overshoot |
| Ramping.SuppressedStays | waterflood_app/optimize/ramping.py:52-53 | A suppressed well never moves |
| Ramping.IncreaseArrives | waterflood_app/optimize/ramping.py:56-67 | Without the early stop every increase would reach its target within n weeks once n frac min_frac is at least 1; RampArrivesIff says when the ramp does |
| Ramping.DecreaseDecays | waterflood_app/optimize/ramping.py:56-67 | A decrease is at most max(target, current (1 - frac)^n) after n weeks |
| Ramping.RampDelivers | waterflood_app/optimize/ramping.py:37-68 | What every well of a mixed ramp ends with, including increases inside the 520-week cap |
| Ramping.EndsAtTargetIff | waterflood_app/optimize/ramping.py:56-67 | Alone, a well that stops at its first close week is at its target if and only if it was never close without being there |
| Ramping.BreaksAtLastToClose | waterflood_app/optimize/ramping.py:56-67 | A ramp of several wells stops in the first close week of the well that comes close last |
| Ramping.RampArrivesIff | waterflood_app/optimize/ramping.py:56-67 | In the week the ramp stops a well is at its target if and only if it arrived no later than the last well came close |
| Ramping.GrowsAboveFloor | waterflood_app/optimize/ramping.py:60-65 | From above the floor an increase is the smaller of the target and x (1 + frac)^n |
| Ramping.StopsShortIff | waterflood_app/optimize/ramping.py:56-67 | From above the floor a well is short in its first close week if and only if some power x (1 + frac)^n is just below the target |
| Ramping.FirstCloseIff | waterflood_app/optimize/ramping.py:57-57 | That week is the first in which the power is within the tolerance below the target |
| Ramping.StopsShort | waterflood_app/optimize/ramping.py:56-67 | For all settings and rates: a ramp whose first step lands just below its target stops there, short |
| Ramping.ShortByMoreThanTiny | waterflood_app/optimize/ramping.py:57-57 | One of them misses its target by more than 1e-9 |
| ChangeDetect.OneSidedIsLargest | waterflood_app/models/change_detect.py:53-61 | Each CUSUM entry is the larger of zero and the largest sum over a window that ends there |
| ChangeDetect.Cusum | waterflood_app/models/change_detect.py:53-61 | Both sides hold those largest sums of the scaled deviations and their negatives |
| ChangeDetect.PersistsIff | waterflood_app/models/change_detect.py:83-86 | The persistence test holds if and only if each of the last n points, or every point when n is zero, ends a window above the threshold |
| ChangeDetect.FirstHit | waterflood_app/models/change_detect.py:87-87 | The onset is the first point above the threshold |
| ChangeDetect.Judge | waterflood_app/models/change_detect.py:80-98 | A shift is reported if and only if it persists and agrees in sign with the change of the series, dated at its first window |
| Lifecycle.Recommendation.Approve | waterflood_app/workflow/states.py:152-177 | Succeeds exactly when table, role, separation and override allow it; states the whole new object, also after a refusal |
| Lifecycle.Recommendation.Review | waterflood_app/workflow/states.py:149-150 | Moves DRAFT to REVIEWED with one event, or changes nothing |
| Lifecycle.Recommendation.Reject | waterflood_app/workflow/states.py:179-180 | Rejects from DRAFT or REVIEWED with one event, or changes nothing |
| Lifecycle.Recommendation.Implement | waterflood_app/workflow/states.py:182-192 | Stores actual rates and the deviations from the plan, or changes nothing |
| Lifecycle.Recommendation.Evaluate | waterflood_app/workflow/states.py:194-197 | Appends the evaluation and the event, or changes nothing |
| Lifecycle.Recommendation.Redraft | waterflood_app/workflow/states.py:199-218 | Edits start over as a draft of the editing user and leave the original alone |
| Lifecycle.CheckIff | waterflood_app/workflow/states.py:34-48 | Which action is allowed from which state to which role |
| Lifecycle.ApprovalIff | waterflood_app/workflow/states.py:152-164 | Approval needs REVIEWED, an approver, somebody other than the originator where that is enforced, and a reason for LOW |
| Lifecycle.HistoryIs | waterflood_app/workflow/states.py:34-48 | The events of a lawful record are determined by its state: which actions, in which order, by which roles |
| Lifecycle.PlanPlusDeviation | waterflood_app/workflow/states.py:182-192 | Plan and stored deviation add up to the actual rate; a deviation is stored exactly beyond 1e-9 |
| Lifecycle.ApproveIsLawful | waterflood_app/workflow/states.py:152-177 | Approval keeps the record lawful: path in the table, snapshot frozen, override for LOW, flag matching the approver; under enforcement the originator never approves |
| Lifecycle.EvaluateIsLawful | waterflood_app/workflow/states.py:194-197 | Evaluation keeps the record lawful |
| Lifecycle.RefusalLeavesTraceIff | waterflood_app/workflow/states.py:155-164 | Exactly when a refused approval has changed the object |
| Lifecycle.FlagOutlivesRefusal | waterflood_app/workflow/states.py:155-177 | Reusing the object after such a refusal stores a wrong approver flag; a fresh one does not |
| RecommendationService.Service.Move | waterflood_app/api/service.py:970-1000 | A transition is served exactly when nothing refuses, stores what the action yields, and otherwise leaves the table unchanged |
| RecommendationService.Service.AddEvaluation | waterflood_app/api/service.py:1026-1059 | The first evaluation moves the record on, later ones are appended without an event, a refusal changes nothing |
| RecommendationService.Service.Serve | waterflood_app/api/service.py:913-1059 | Every request yields exactly the table and reply of its outcome: all records stay lawful, events and snapshots are kept, and a refused one leaves the table unchanged |
| RecommendationService.Service.Run | waterflood_app/api/service.py:913-1059 | So does every run of requests, request by request, with every reply the one its outcome has |
| JobTable.Table.OldestQueued | waterflood_app/api/jobs.py:118-121 | The SELECT returns an oldest queued job of the kinds, or none exists |
| JobTable.Table.ClaimIfQueued | waterflood_app/api/jobs.py:124-129 | The conditional UPDATE changes the row exactly when it is still queued |
| JobTable.Table.ClaimNext | waterflood_app/api/jobs.py:114-130 | Without interference None means an empty queue, and otherwise the oldest job is running |
| JobQueue.StepKeeps | waterflood_app/api/jobs.py:114-151 | Every atomic step of any worker, submission or pool thread keeps the queue invariant |
| JobQueue.ExternalJobsRunOnce | waterflood_app/api/worker.py:43-56 | After any interleaving of any number of workers no job is held by two of them, and no external job has ever been started twice |
| JobQueue.PoolJobTwiceIff | waterflood_app/api/jobs.py:102-111 | Over every run a pool job starts at most twice, and twice if and only if the pool has begun it and a worker has as well |
| JobQueue.StatusNeverReturns | waterflood_app/api/jobs.py:140-151 | Over a run an external job only moves queued, running, then done or failed, and those are final |
| JobQueue.StatusSaysHowItEnded | waterflood_app/api/jobs.py:140-151 | After any run an external job is done if and only if a _run of it ended well, and failed if and only if one ended badly |
| JobQueue.ClaimOutcome | waterflood_app/api/jobs.py:118-130 | A claim succeeds exactly when the selected job is still queued, and, while rows come in the order of their times, it is then still the oldest of its kinds |
| JobQueue.ClaimsOldest | waterflood_app/api/jobs.py:118-130 | In every run whose rows are submitted in the order of their times, a successful claim takes an oldest job of the kinds |
| JobQueue.LostRaceLooksEmpty | waterflood_app/api/jobs.py:128-129 | For any two of any number of workers there is a run in which one is told there is nothing while a job is waiting |
| JobQueue.PoolJobRunsTwice | waterflood_app/api/jobs.py:102-111 | For every job, kind and worker there is a run in which a pool job is claimed by that worker, run twice and goes from done back to running |
| Windows.StepOf | waterflood_app/prep/events.py:36-41 | The first step at or after a date |
| Windows.Breaks | waterflood_app/prep/events.py:54-61 | Exactly the steps some break event falls on, inside the history, with the text of the first such event |
| Windows.Cut | waterflood_app/prep/events.py:62-66 | Windows tile the history between breaks and carry their break's text |
| Windows.Merge | waterflood_app/prep/events.py:67-81 | The merged windows tile the same span, are long enough unless there is only one, begin exactly at the surviving breaks and keep the reason of the window they begin with, the first one that of the long window it took in |
| Windows.BuildWindows | waterflood_app/prep/events.py:50-81 | The windows tile the history; a break is kept if and only if min_steps steps lie before it and before the next break; every window carries its break's text, and the first one is the full history unless it took in the window of an early break |
| Rolling.WindowBounds | waterflood_app/models/rolling.py:84-98 | The loops terminate and give the windows of every segment between cuts |
| Rolling.SpanBounds | waterflood_app/models/rolling.py:91-97 | Windows stay in their segment with lengths between min(min_len, length) and length |
| Rolling.SpansAreRegular | waterflood_app/models/rolling.py:91-97 | In a segment the starts are a step apart and only the last window can be shorter than the full length |
| Rolling.SpansNeverCross | waterflood_app/models/rolling.py:84-98 | No window crosses a break |
| Rolling.CoverageIff | waterflood_app/models/rolling.py:91-97 | Every long enough segment is covered without gaps if and only if step + min_len is at most length + 1 |
| Rolling.AllLongSegmentsCovered | waterflood_app/models/rolling.py:84-98 | With such settings every step of every long enough segment of the history is in a window |
| WellType.LoopRoleIsResolved | waterflood_app/ingest/welltype.py:104-118 | The loop's role of a step is its own, else that of the next single-role step, else of the previous one, else producer |
| WellType.DeriveWell | waterflood_app/ingest/welltype.py:91-130 | Conversions are exactly the changes of the resolved role, in order |
| WellType.KindIff | waterflood_app/ingest/welltype.py:98-102 | A well is PROD if and only if some row produces and none injects, INJ the other way round, MIXED if both occur, NONE if neither |
| WellType.ConversionsChain | waterflood_app/ingest/welltype.py:103-118 | Each conversion changes the role and starts from the role the previous one ended with |
| WellType.ConversionsIff | waterflood_app/ingest/welltype.py:98-118 | A well converts if and only if it has both a production-only and an injection-only step |
| WellType.OnlyMixedConverts | waterflood_app/ingest/welltype.py:102-118 | PROD and INJ wells have no conversions |
| WellType.SplitRoles | waterflood_app/ingest/welltype.py:149-179 | The split table is the concatenation of every well's entity rows |
| WellType.SplitFrom | waterflood_app/ingest/welltype.py:159-175 | With derived kinds every entity row is a table row in a role its well has, named @P or @I and without the other role's streams exactly when the well has both |
| WellType.SplitHas | waterflood_app/ingest/welltype.py:159-175 | Every table row is in the split in every role it is due in |
| WellType.SplitAccount | waterflood_app/ingest/welltype.py:149-179 | For any rates and kinds the split's total of a stream on a date is the table's less the dropped rows and streams |
| WellType.SplitConservesIff | waterflood_app/ingest/welltype.py:149-179 | So the total is kept if and only if the dropped amounts cancel on that date |
| WellType.SplitConserves | waterflood_app/ingest/welltype.py:149-179 | For non-negative rates and derived kinds the split keeps the total oil, water and injection of every date |
| WellType.NoneIsIdle | waterflood_app/ingest/welltype.py:98-102 | A well of no kind has only idle steps |
| WellType.IdleStepLoses | waterflood_app/ingest/welltype.py:77-87 | A single idle step keeps a stream if and only if it carries none of it, whatever its rates |

## Left out

- Optimisers, least-squares solvers, random starts and the tau search (`varpro_crmp`, `fit_producer`, `fit_field`): arbitrary results or hypotheses.
- Floating-point rounding, NaN and infinities, real logarithms and exponentials beyond the stated hypotheses.
- GlobalMinimum.SignConditionsIffMinimum: the box minimum is at fixed time constants; the objective is not convex in them.
- PairLinear.PairSignConditionsIffMinimum: likewise at fixed time constants of all pairs.
- The oil and water part of `_finish`, the ensemble fan and the level and oil-cut anchors' own computation.
- The aquifer, two-phase, crossflow and field-wide variants of the forward model.
- The rule that fills the sector adjacency (distance cutoff, blocks): any adjacency is allowed.
- The order in which equal marginal values are ranked in the greedy start: any ranking is allowed.
- Planning.OptimizePlan: the marginal values reported at the end, notes and gains in per cent are not modelled; that no feasible attempt beats the plan is stated for evaluations that depend on the rounded vector only, since the cache may otherwise answer for another vector.
- ChangeDetect.Judge: one series at a time; the loop over pairs, its filter for unconnected pairs and the spreads are single expressions around it.
- Lifecycle.Recommendation.Approve: timestamps and the digest of the snapshot are not modelled.
- RecommendationService.Service.Serve: project access is a flag of the request; webhooks and the action log are left out; requests are serialised.
- JobQueue.ClaimOutcome: that a claimed job is the oldest is stated while rows are inserted in the order of their times; separate processes read the clock before the INSERT, so a later row can carry an earlier time.
- Job progress, results and error texts; crash recovery; anything finer than one SQL statement.
- WellType.DeriveWell: takes the steps of one well in date order; sorting and grouping the table are left out.
- WellType.SplitRoles: the final sort by entity and date is left out.
- Windows.Breaks: event types arrive in upper case.
- Rolling.WindowBounds: positive length, step and minimum length; with a step of zero the source loops forever exactly when some segment holds at least min_len steps and is longer than the window, which the model does not cover.
