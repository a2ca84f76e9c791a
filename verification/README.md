# MOST-SPRITE: verified model of the reduction core and the control plane

This project models the parts of MOST-SPRITE that carry arithmetic, in-place state or a protocol, and proves what they
promise.

* **Resampling** (`Bins`, `Banded`, `Resample`, `Conservation`, `Noise`, `VarianceBudget`, `Fidelity`,
  `Orientation`): the forward-only sweep over source and target bins, the flux, variance, quality and lag-1 columns built from it, and what they conserve.
* **Grids and merge** (`LogGrid`, `MergePixel`, `MergeWeights`, `MergeCovariance`, `Merge`, `MergeOrders`, `MergedProduct`): the shared
  logarithmic grid, its slice for each order, and the weighted merge of overlapping orders with cross-covariances and quality words.
* **Demodulation** (`Demodulation`, `DemodulationGroup`, `ErrorPropagation`, `Sensitivity`, `DemodulatedProduct`): the ratio estimator, its
  null checks and its error matrix. The value `tanh(y / 2)`, for `y` the mean signed log ratio, is `(R - 1) / (R + 1)` for the positive `R`
  whose fourth power is the signed product of the beam ratios; that root is what the model speaks of.
* **From samples to merged pixels** (`Pipeline`): the three steps together.
* **Calibration frames and extraction** (`Combine`, `Clipping`, `Extraction`, `Cuts`), **grouping**
  (`Sorting`, `Grouping`, `GroupingRuns`, `GroupingOrder`), **wavelength surface** (`Surface`), **preview** (`Preview`).
* **Control plane** (`Lease`, `Device`, `Fencing`, `Instrument`, `Control`, `ControlSafety`, `ControlEvents`, `ControlRuns`,
  `ControlPasses`, `ControlSkips`, `ControlKeys`, `ControlScenarios`, `InstrumentSafety`, `Runner`): the lease with its
  fencing token, the fenced and memoising device, the instrument state machine, and the sequence runner as database transactions interleaved
  with user actions, L0 recovery and crashes.

Arrays of floats are sequences of `Num`: a finite real, or `Missing` for what `isfinite` rejects. Arithmetic is exact.
Code that updates objects or arrays in place is a class or a method over arrays, proved against a specification function;
the main results are lemmas about those functions, over every input or every run.

Results that differ from what one might expect of the code, each with its exact condition, and with an input or a run
that shows it:

* The lag-1 column uses source bins even when their samples are unusable: it is the covariance of the reported values plus
  the terms of those samples, so it is that covariance exactly when they cancel (`Fidelity.ReportedLag`); without an input
  column, exactly when the shared sample is usable or has zero variance (`Fidelity.LagWithoutColumn`; two samples:
  `Fidelity.LagOfUnusableSample`).
* Total variance is conserved exactly when no source bin of positive variance feeds more than two targets
  (`VarianceBudget.TotalVariance`; a sample shared by three targets: `Fidelity.VarianceIsLost`).
* An order stored in descending wavelength with a lag column is resampled with its pairs shifted by one: the output columns
  are those of the ascending order on every target grid exactly when all stored entries are equal
  (`Orientation.ReversedLagIff`; three samples: `Orientation.ShiftedLag`).
* The closeness test of the merge is wider than the grid step, so it accepts every wavelength from just below the grid to
  its end, and an order is placed exactly when the number of grid points in its range is its number of samples
  (`LogGrid.AcceptsIff`, `Merge.PlacedIff`; an order without any grid point: `Merge.MisalignedIsPlaced`).
* The polarization reaches the intensity unless throughputs, gains or the light are balanced
  (`DemodulationGroup.IntensityIsUnmodulatedIff`; four exposures: `DemodulationGroup.UnevenIsModulated`).
* One unusable order makes the merged cross-covariance of a pixel non-finite although its weight is zero
  (`MergeCovariance.CrossFiniteIff`, `MergeCovariance.UnusableOrderPoisons`).
* When the MAD and the read noise vanish, clipping falls back to a scale of 1, and the combined value can leave the
  interval of the majority by more than five expected scales (`Combine.ExpectedBoundIff`; frames at which it does:
  `Combine.ExpectedBoundFails`).
* After a cosmic-ray rejection the profile is renormalised over the remaining pixels, so the extracted flux lacks the share
  of the rejected pixel (`Extraction.RejectionLosesShare`; a cut of flux 4 reported as 3: `Extraction.HitLosesShare`).
* Unnumbered runs of four become groups exactly when no frame carries the number of a run itself
  (`GroupingRuns.RunIsRecoveredIff`, `GroupingRuns.GroupingSucceedsIff`; a refused list: `GroupingRuns.CollisionIsRefused`).
* A command with a current token is refused as stale exactly when its key was first sent under a superseded token
  (`Fencing.RightfulIsRefusedIff`; a run: `Fencing.RightfulIsRefused`), which cannot happen to keys that are not shared
  between tokens (`Fencing.KeysOfOneTokenAreSafe`).
* An event breaks the invariant of the control plane exactly when recovery registers an exposure that is being retaken
  (`ControlEvents.EventKeepsIff`). Then the exposure is counted twice and its committed row goes back to READING
  (`ControlRuns.CountKeptIff`, `ControlRuns.CommittedRevertsIff`), or it gets a second row; the sequence can succeed without
  its exposure or with two (`ControlScenarios.SuccessWithoutExposure`, `ControlScenarios.SuccessWithTwoRows`).
* A pass leaves an open ordinal behind exactly when its sequence has been queued again, by a pause inside the first exposure
  transaction and a resume before the next look (`ControlSkips.SkipsIff`, `ControlSkips.SkipIsPauseAndResume`). The rest of
  that pass exposes nothing and cannot succeed (`ControlSkips.SkippingPassGainsNothing`); left to itself it ends with the
  sequence queued when all later ordinals are committed, and otherwise with the sequence failed and SAFE_FAULT latched
  (`ControlSkips.SkippingPassEndsIff`; a run: `ControlScenarios.SkipIsReachable`).
* After a pause the optics are requested under the key of the first preparation and answered from its record, and only a
  retry of a failed sequence changes that (`ControlKeys.OpticsKeyRepeatsIff`; a run: `ControlScenarios.OpticsKeyIsRepeated`).
* An instrument recorded as READY on an initialized device cannot be prepared, since the table has no edge from READY to
  PREPARING; a runner killed between two exposures leaves it there, and the next sequence fails at its preparation
  (`Instrument.PreparesIff`; a run: `ControlScenarios.ReadyIsStranded`).

`dafny verify dfyconfig.toml` checks the whole project.

## Model

| member | source | states |
|---|---|---|
| Bins.EdgesIncrease | backend/src/most_sprite/pipeline/wavelength/service.py:66-76 | the bin edges of increasing centres strictly increase |
| Bins.EdgesAreMidway | backend/src/most_sprite/pipeline/wavelength/service.py:66-76 | every interior edge is equidistant from its two centres and both outer bins are symmetric about theirs; no other edges are |
| Bins.Sweep | backend/src/most_sprite/pipeline/wavelength/service.py:101-117 | the forward-only sweep gives every target bin exactly the source bins with positive overlap, each with overlap over source width |
| Bins.RowIsContiguous | backend/src/most_sprite/pipeline/wavelength/service.py:103-117 | the source bins of a target are contiguous |
| Bins.ConsecutiveRowsShareOne | backend/src/most_sprite/pipeline/wavelength/service.py:103-117 | consecutive targets share at most one source bin |
| Bins.ColumnSum | backend/src/most_sprite/pipeline/wavelength/service.py:110-116 | the weights of one source bin sum to the fraction of it that the targets cover |
| Bins.ColumnAtMostOne | backend/src/most_sprite/pipeline/wavelength/service.py:110-116 | that fraction is at most one, and one exactly for bins inside the target range |
| Orientation.AcceptedIff | backend/src/most_sprite/pipeline/wavelength/service.py:88-97 | the step accepts exactly wavelength lists of two entries or more that strictly increase or strictly decrease |
| Resample.FluxConservingResample | backend/src/most_sprite/pipeline/wavelength/service.py:79-168 | every output column is what the all-pairs overlap weights prescribe: weighted flux, quadratic form, quality union, lag; it fails exactly on coordinates that are not monotone or too few |
| Resample.Accumulate | backend/src/most_sprite/pipeline/wavelength/service.py:127-154 | flux, variance and quality of a target bin are the weighted sum, the quadratic form of the tridiagonal input covariance cut off at zero, and the union of the flags of the samples used |
| Resample.LagEntry | backend/src/most_sprite/pipeline/wavelength/service.py:155-167 | the shared-bin and neighbour loop computes the bilinear form of consecutive rows |
| Conservation.FluxConserved | backend/src/most_sprite/pipeline/wavelength/service.py:127-143 | with all samples valid and targets spanning the sources, total flux is conserved |
| Conservation.ConstantDensity | backend/src/most_sprite/pipeline/wavelength/service.py:127-143 | a constant flux density is reproduced on every interior target |
| Conservation.LagIsBilinear | backend/src/most_sprite/pipeline/wavelength/service.py:155-167 | with all samples valid the lag entry is the covariance of the two output values |
| Noise.VarianceIsPropagated | backend/src/most_sprite/pipeline/wavelength/service.py:144-154 | for samples that mix any number of independent noises, the reported variance is the sum of the squared responses of the reported flux to each noise, whatever samples are unusable |
| Noise.LagIsPropagated | backend/src/most_sprite/pipeline/wavelength/service.py:155-167 | the reported lag of two targets is the sum of the products of their responses |
| VarianceBudget.ShareOfBin | backend/src/most_sprite/pipeline/wavelength/service.py:144-167 | what the variances and lags keep of one source variance is at most all of it, and all of it exactly when the bin feeds at most two targets |
| VarianceBudget.TotalVariance | backend/src/most_sprite/pipeline/wavelength/service.py:127-167 | variances plus twice the lags never exceed the total input variance, and equal it exactly when no bin of positive variance feeds more than two targets |
| Fidelity.ReportedLag | backend/src/most_sprite/pipeline/wavelength/service.py:155-167 | whatever lag column comes in, the reported lag is finite exactly when no shared variance is missing, and is the covariance of the reported values plus the terms of samples not both usable, so it is that covariance exactly when these vanish |
| Fidelity.LagWithoutColumn | backend/src/most_sprite/pipeline/wavelength/service.py:155-167 | without an input lag column it is the covariance exactly when every shared sample is usable or has zero variance |
| Fidelity.LagOfUnusableSample | backend/src/most_sprite/pipeline/wavelength/service.py:155-167 | two samples, the shared one without a flux, at which the reported lag is not the covariance of the reported values |
| Fidelity.FlagsCarried | backend/src/most_sprite/pipeline/wavelength/service.py:128-154 | a target carries exactly the flags of the samples it used, or exactly RESAMPLE_EDGE |
| Fidelity.ReportedIff | backend/src/most_sprite/pipeline/wavelength/service.py:127-154 | a target has a flux and a variance exactly when a sample of it has a finite flux and a finite non-negative variance; a negative quadratic form is reported as zero |
| Fidelity.UnusableHasNoPart | backend/src/most_sprite/pipeline/wavelength/service.py:127-154 | what an unusable sample holds reaches neither flux nor variance nor quality of any target |
| Orientation.DirectionIrrelevant | backend/src/most_sprite/pipeline/wavelength/service.py:91-97 | without a lag column the stored direction does not matter |
| Orientation.ReversedLagIff | backend/src/most_sprite/pipeline/wavelength/service.py:91-167 | for an order stored in descending wavelength with a lag column, all output columns are those of the ascending order on every target grid, or on its own grid, exactly when all stored entries are equal |
| Orientation.DescendingLag | backend/src/most_sprite/pipeline/wavelength/service.py:91-97 | on its own grid every pair of such an order comes out with the covariance of the pair before it |
| Orientation.ShiftedLag | backend/src/most_sprite/pipeline/wavelength/service.py:91-97 | three samples correlated by 0.5 and 0.25 are resampled as if by 0 and 0.5 |
| Orientation.SameStepIff | backend/src/most_sprite/pipeline/wavelength/service.py:127-167 | sources on the same samples give the same columns on every target grid exactly when they agree on all pairs of the lag column |
| Fidelity.StepConserves | backend/src/most_sprite/pipeline/wavelength/service.py:79-168 | the output of the whole step conserves flux, and variance under the same exact condition |
| Fidelity.CallConserves | backend/src/most_sprite/pipeline/wavelength/service.py:79-168 | the same for a call with usable samples and no lag column, in either stored direction: total flux is conserved, total variance does not grow, and the last lag is zero |
| Fidelity.VarianceIsLost | backend/src/most_sprite/pipeline/wavelength/service.py:79-168 | a sample of which the outputs account for less than its variance, because three targets share it |
| LogGrid.SelectIsSlice | backend/src/most_sprite/pipeline/wavelength/service.py:280-283 | the grid points of a wavelength range are a contiguous slice |
| LogGrid.CommonRange | backend/src/most_sprite/pipeline/wavelength/service.py:259-274 | the widest range of an order that every channel covers, and it fails only when there is none |
| LogGrid.CommonLogGrids | backend/src/most_sprite/pipeline/wavelength/service.py:241-284 | one geometric grid from the lowest to the highest bound, and for every order the contiguous slice of exactly those grid points that every channel covers; it fails exactly for no order, an order without common range, or a range that is not positive |
| LogGrid.SliceIsPlaced | backend/src/most_sprite/pipeline/polarimetry/merge.py:154-163 | a slice of the grid is accepted by the merge and its samples land where they were cut |
| LogGrid.AcceptsIff | backend/src/most_sprite/pipeline/polarimetry/merge.py:154-161 | at the frozen step a wavelength is accepted exactly when it lies between just below the first grid point and the last one |
| Merge.PlacedIff | backend/src/most_sprite/pipeline/polarimetry/merge.py:153-163 | at the frozen step an order is placed exactly when all its wavelengths lie in that range and it has as many samples as there are grid points from its first to its last wavelength |
| Merge.CellwiseIsPlaced | backend/src/most_sprite/pipeline/polarimetry/merge.py:153-163 | one wavelength anywhere in each of consecutive grid cells is enough |
| Merge.MisalignedIsPlaced | backend/src/most_sprite/pipeline/polarimetry/merge.py:153-163 | an order on grid midpoints shares no point with the grid and is placed |
| MergePixel.SingleOrder | backend/src/most_sprite/pipeline/polarimetry/merge.py:98-129 | where one order has weight, the merge returns its value and variance |
| MergePixel.ConvexCombination | backend/src/most_sprite/pipeline/polarimetry/merge.py:106-119 | the merged value lies between the contributing values |
| MergePixel.VarianceBounds | backend/src/most_sprite/pipeline/polarimetry/merge.py:120-129 | the merged variance lies between the inverse of the summed precisions and the inverse of the summed weights |
| MergeWeights.MergedIs | backend/src/most_sprite/pipeline/polarimetry/merge.py:106-129 | a pixel has a value exactly when an order measures it with a positive blaze; then the value times the sum of blaze over variance is the sum of blaze times value over variance, and the variance is that of this mean |
| MergeWeights.MergedMinimisesChiSquare | backend/src/most_sprite/pipeline/polarimetry/merge.py:106-119 | the merged value is the one number with the smallest sum of blaze times squared deviation over variance |
| MergeWeights.BlazeScaleIrrelevant | backend/src/most_sprite/pipeline/polarimetry/merge.py:106-129 | scaling all blaze weights alike changes neither value nor variance |
| MergeWeights.NoBlazeNoPart | backend/src/most_sprite/pipeline/polarimetry/merge.py:109-114 | an order without a measurement or without a positive blaze has no part in the result |
| MergeWeights.EqualBlazesAreOptimal | backend/src/most_sprite/pipeline/polarimetry/merge.py:120-129 | equal blaze weights attain the inverse of the summed precisions |
| MergeCovariance.MergedForm | backend/src/most_sprite/pipeline/polarimetry/merge.py:193-211 | the quadratic form of the merged errors is the sum of the forms of the orders at their shares |
| MergeCovariance.MergeKeepsPsd | backend/src/most_sprite/pipeline/polarimetry/merge.py:193-211 | merging any number of orders, with different weights per quantity, keeps the 3x3 error matrix positive semidefinite |
| MergeCovariance.CrossFiniteIff | backend/src/most_sprite/pipeline/polarimetry/merge.py:197-211 | where both quantities have weight, a merged cross-covariance is finite exactly when that of every covering order is; elsewhere it is zero |
| MergeCovariance.UnusableOrderPoisons | backend/src/most_sprite/pipeline/polarimetry/merge.py:197-211 | an order of zero weight without a finite covariance loses the merged one |
| Merge.SliceIsAccepted | backend/src/most_sprite/pipeline/polarimetry/merge.py:153-163 | an order cut from the grid is placed at the offset it was cut from |
| Merge.WeightedMerge | backend/src/most_sprite/pipeline/polarimetry/merge.py:98-129 | the accumulation over orders gives, at every pixel, the merged value and variance of that pixel's cells, and every order's weights |
| MergeOrders.CrossCovariance | backend/src/most_sprite/pipeline/polarimetry/merge.py:193-211 | the accumulation gives the merged cross-covariance at every pixel |
| MergeOrders.MergeQuality | backend/src/most_sprite/pipeline/polarimetry/merge.py:185-191 | the quality loop gives the merged quality word at every pixel |
| MergeOrders.MergedQualityIff | backend/src/most_sprite/pipeline/polarimetry/merge.py:185-191 | a pixel carries a flag exactly when an order with finite intensity does, and ORDER_GAP also where there is none |
| MergeOrders.MergePolarimetricOrders | backend/src/most_sprite/pipeline/polarimetry/merge.py:132-211 | the whole merge: refused exactly for no order or one that is not placed; otherwise all values, variances, covariances and quality words are those of the placed orders |
| MergedProduct.CutOrdersAreAccepted | backend/src/most_sprite/pipeline/polarimetry/merge.py:153-177 | orders cut from the global grid are never refused and are scattered at their offsets |
| MergedProduct.MergedErrorsArePsd | backend/src/most_sprite/pipeline/polarimetry/merge.py:193-211 | for demodulated orders the reported errors of (P, N1, N2) are positive semidefinite wherever they are reported |
| MergedProduct.MeasuredFlagsSurvive | backend/src/most_sprite/pipeline/polarimetry/merge.py:185-191 | a flag of a sample with finite intensity is in its merged pixel |
| MergedProduct.GapIff | backend/src/most_sprite/pipeline/polarimetry/merge.py:186-191 | ORDER_GAP is set exactly where no order has finite intensity |
| MergedProduct.AloneIsKept | backend/src/most_sprite/pipeline/polarimetry/merge.py:148-211 | a pixel that one order covers is merged into exactly its sample: values, variances, covariances and flags |
| Demodulation.FourthRootUnique | backend/src/most_sprite/pipeline/polarimetry/demodulation.py:60-70 | the positive fourth root that stands for the mean log ratio is unique |
| Demodulation.CombinationIsBounded | backend/src/most_sprite/pipeline/polarimetry/demodulation.py:60-70 | every combination lies strictly between -1 and 1 |
| Demodulation.ObservedRatio | backend/src/most_sprite/pipeline/polarimetry/demodulation.py:91-95 | the beam ratio of an observed exposure is the gain ratio times the contrast to the modulation sign, free of throughput and intensity |
| Demodulation.GainAndContrast | backend/src/most_sprite/pipeline/polarimetry/demodulation.py:60-70 | the signed product separates into powers of the gain ratio and of the contrast |
| Demodulation.ConfiguredModelsAreOrthogonal | backend/src/most_sprite/pipeline/instruments/espadons.py:534-552 | the configured sign vectors are balanced and pairwise orthogonal |
| DemodulationGroup.DemodulationIsExact | backend/src/most_sprite/pipeline/polarimetry/demodulation.py:60-119 | noise-free beams give exactly the signed polarization and exactly zero nulls, for any gains and throughputs |
| DemodulationGroup.DemodulationRecovers | backend/src/most_sprite/pipeline/polarimetry/demodulation.py:60-119 | unconditionally: noise-free beams have the roots that stand for the mean log ratios, and any such roots recover the polarization and give zero nulls |
| DemodulationGroup.PolarizationIff | backend/src/most_sprite/pipeline/polarimetry/demodulation.py:92-128 | a polarization is reported exactly when all eight beams are finite and positive, and then an intensity is too |
| DemodulationGroup.IntensityIs | backend/src/most_sprite/pipeline/polarimetry/demodulation.py:120-127 | the intensity is the plain mean plus a term of throughput imbalance, gain difference and polarization |
| DemodulationGroup.IntensityIsUnmodulatedIff | backend/src/most_sprite/pipeline/polarimetry/demodulation.py:120-127 | the polarization does not reach the intensity exactly when the throughputs are balanced against the modulation, the gains are equal, or the light is unpolarized |
| DemodulationGroup.UnevenIsModulated | backend/src/most_sprite/pipeline/polarimetry/demodulation.py:120-127 | four exposures with balanced signs and one brighter exposure at which the polarization reaches the intensity |
| Sensitivity.EstimatesIff | backend/src/most_sprite/pipeline/polarimetry/demodulation.py:60-70 | for any beams, each of polarization and null values is the only solution p of (1 + p)^4 = S (1 - p)^4, with S the product of the beam ratios to its own signs |
| Sensitivity.SlopeIsExact | backend/src/most_sprite/pipeline/polarimetry/demodulation.py:67-68 | the slope gives the exact change of an estimate with its root |
| Sensitivity.ResultsRespond | backend/src/most_sprite/pipeline/polarimetry/demodulation.py:65-69 | the gains are the partial derivatives of the three results by each of the eight beams: multiplying a beam by any f changes a result by gain times change, up to a factor between 1 and 1 / f |
| Sensitivity.ErrorsArePropagated | backend/src/most_sprite/pipeline/polarimetry/demodulation.py:94-119 | the six errors are reported exactly when all eight beam variances are finite, and are these variances propagated through the gains |
| Sensitivity.IntensityResponds | backend/src/most_sprite/pipeline/polarimetry/demodulation.py:120-142 | the intensity needs eight finite beams and changes by a quarter of the change of a beam; its variance is the beam variances propagated through that gain |
| ErrorPropagation.ReportedErrorsArePsd | backend/src/most_sprite/pipeline/polarimetry/demodulation.py:196-209 | from usable beams with non-negative variances all six errors are reported and form a positive semidefinite matrix |
| ErrorPropagation.EqualVariancesDecorrelate | backend/src/most_sprite/pipeline/polarimetry/demodulation.py:196-209 | equal log variances give zero cross-covariances |
| DemodulatedProduct.MarkExcess | backend/src/most_sprite/pipeline/polarimetry/demodulation.py:147-153 | the guarded update raises the bit exactly where the null exceeds the threshold |
| DemodulatedProduct.Demodulate | backend/src/most_sprite/pipeline/polarimetry/demodulation.py:73-159 | the method computes the specified product or error, quality words included |
| DemodulatedProduct.AcceptedIff | backend/src/most_sprite/pipeline/polarimetry/demodulation.py:79-89 | it succeeds exactly on four exposures with sub-indices 1 to 4, all of one configuration and one grid, and otherwise fails for the first of these conditions that is not met |
| DemodulatedProduct.OrderIndependent | backend/src/most_sprite/pipeline/polarimetry/demodulation.py:79-89 | product and error do not depend on the order of the exposures |
| DemodulatedProduct.GroupIsExact | backend/src/most_sprite/pipeline/polarimetry/demodulation.py:73-119 | noise-free exposures listed in any order are demodulated exactly at every sample |
| DemodulatedProduct.QualityIsInherited | backend/src/most_sprite/pipeline/polarimetry/demodulation.py:145-146 | every flag of every exposure is kept, and a missing polarization is marked |
| DemodulatedProduct.QualityIff | backend/src/most_sprite/pipeline/polarimetry/demodulation.py:145-154 | a flag of a sample is one of some exposure, the failure mark of a sample without polarization, or the mark of the null whose own score is too high |
| DemodulatedProduct.ExcessIff | backend/src/most_sprite/pipeline/polarimetry/demodulation.py:149-154 | the test for an excess compares the score |value| / sigma, zero without a positive finite variance, with the threshold |
| Pipeline.NoFlagIsLost | backend/src/most_sprite/pipeline/polarimetry/merge.py:185-191 | a flag of a source sample that a target bin uses appears in every merged pixel to which that bin's polarization contributes |
| Pipeline.FlagReachesOrder | backend/src/most_sprite/pipeline/polarimetry/merge.py:45-73 | resampling and demodulation hand the flag on to the order |
| Pipeline.ReducedOrdersAreDemodulated | backend/src/most_sprite/pipeline/polarimetry/merge.py:34-74 | orders reduced from exposures with non-negative variances satisfy the hypothesis of the merged error theorem |
| Combine.MedianInMajority | backend/src/most_sprite/pipeline/echelle/imageproc.py:48-49 | the median lies in every interval that holds more than half of the values |
| Combine.HalfSurvives | backend/src/most_sprite/pipeline/echelle/imageproc.py:48-53 | clipping never drops more than half of the finite values |
| Combine.FiniteFramesAreGood | backend/src/most_sprite/pipeline/echelle/imageproc.py:48-61 | finite samples always give a finite value without the bad-pixel bit |
| Combine.BadOnlyIfMissing | backend/src/most_sprite/pipeline/echelle/imageproc.py:53-61 | a value exists exactly when a sample is finite, and the bit needs at least two missing samples or none finite |
| Combine.BreakdownBound | backend/src/most_sprite/pipeline/echelle/imageproc.py:45-61 | with more than half of all frames in [a, b] the pixel has a value within five scales of [a, b], whatever the other frames hold, missing values included |
| Combine.VarianceByPairs | backend/src/most_sprite/pipeline/echelle/imageproc.py:55-59 | the reported variance is the unbiased variance of the mean, as the sum over all pairs of kept values |
| Combine.ExpectedBoundIff | backend/src/most_sprite/pipeline/echelle/imageproc.py:45-61 | every pixel with a majority of its frames in the interval, missing frames included, has a value within five scales expected from the interval exactly under a condition on read noise, interval and number of frames |
| Combine.ExpectedBoundFails | backend/src/most_sprite/pipeline/echelle/imageproc.py:50-55 | frames that break the bound whenever the condition fails |
| Combine.CombineCalibration | backend/src/most_sprite/pipeline/echelle/imageproc.py:18-77 | for every working memory the tiled loop gives the per-pixel result everywhere; it fails exactly for no frames or differing shapes |
| Clipping.MedianIs | backend/src/most_sprite/pipeline/echelle/imageproc.py:48-49 | the median is the mean of the two middle values, characterised by how many values lie below and above them |
| Clipping.PixelIs | backend/src/most_sprite/pipeline/echelle/imageproc.py:39-61 | exactly the frames within 7.413 MAD or 5 read noises of the median (5 when both vanish) are kept; the pixel is their mean, the unbiased variance of that mean, and the bad-pixel bit for fewer than half of the frames |
| Clipping.AllAreKept | backend/src/most_sprite/pipeline/echelle/imageproc.py:48-55 | when no finite frame is further away, the value is the mean of all of them |
| Clipping.OutlierIsIgnored | backend/src/most_sprite/pipeline/echelle/imageproc.py:48-61 | the value of a frame beyond the limit has no influence on the pixel at all, as long as it stays on its side |
| Clipping.EmptyPixel | backend/src/most_sprite/pipeline/echelle/imageproc.py:53-61 | without a finite frame the pixel has no value and no variance and is bad |
| Extraction.EstimateIsExact | backend/src/most_sprite/pipeline/echelle/espadons.py:595-600 | values that follow the profile are recovered exactly |
| Extraction.VarianceIsMinimal | backend/src/most_sprite/pipeline/echelle/espadons.py:634-641 | no linear combination with unit response has a smaller variance than the reported one |
| Extraction.OptimumIsAttained | backend/src/most_sprite/pipeline/echelle/espadons.py:596-600 | the weights of the estimate attain that bound |
| Extraction.KeptSamples | backend/src/most_sprite/pipeline/echelle/espadons.py:620-634 | at most one pixel is dropped, at least three are used, and their profile sums to one |
| Extraction.KeptEstimate | backend/src/most_sprite/pipeline/echelle/espadons.py:595-641 | estimate and variance of the kept pixels are exact and minimal |
| Extraction.RejectionLosesShare | backend/src/most_sprite/pipeline/echelle/espadons.py:630-640 | after a rejection the flux lacks the share of the rejected pixel, unless it is zero |
| Extraction.HitLosesShare | backend/src/most_sprite/pipeline/echelle/espadons.py:555-640 | with the default thresholds a cut of flux 4 with one hit pixel is reported as 3 |
| Cuts.FlagsIff | backend/src/most_sprite/pipeline/echelle/espadons.py:587-642 | a cut has a flux exactly when three pixels are finite, of positive variance and profile, neither saturated nor bad; its flags are those of its pixels, the failure mark, and the mark of a rejection |
| Cuts.RejectsIff | backend/src/most_sprite/pipeline/echelle/espadons.py:614-633 | a pixel is rejected exactly when there are more than three and the one with the largest score stands out of the scatter of the scores and of the model |
| Cuts.StandsOutIff | backend/src/most_sprite/pipeline/echelle/espadons.py:615-628 | a score stands out exactly when it is above the median by more than the threshold and by more than the threshold times 1.4826 MAD |
| Cuts.ExceedsIff | backend/src/most_sprite/pipeline/echelle/espadons.py:629-631 | a residual stands out exactly when it exceeds the fraction and that fraction of the model |
| Cuts.UnusableHasNoPart | backend/src/most_sprite/pipeline/echelle/espadons.py:587-600 | a pixel that takes no part has no influence on flux and variance |
| Cuts.CleanCutIsExact | backend/src/most_sprite/pipeline/echelle/espadons.py:587-641 | from pixels that follow the profile nothing is rejected and the flux is the sum of their values |
| Cuts.CutIsOptimal | backend/src/most_sprite/pipeline/echelle/espadons.py:595-641 | flux and variance of a cut are those of a unit-response combination of the samples it keeps, and no other such combination has a smaller variance |
| Cuts.HitCutIsMarked | backend/src/most_sprite/pipeline/echelle/espadons.py:572-642 | a cut of flux 4 with one hit pixel is reported as 3 and marked |
| Extraction.ExtractOrder | backend/src/most_sprite/pipeline/echelle/espadons.py:572-642 | the column loop fills flux, variance and quality with the specified result of every cut |
| Grouping.GroupScience | backend/src/most_sprite/pipeline/instruments/espadons.py:237-285 | the dictionary loops compute the specified groups, or name the first frame without a sequence |
| Grouping.GroupingPartitions | backend/src/most_sprite/pipeline/instruments/espadons.py:258-285 | every science frame is in exactly one group, groups list sub-indices 1, 2, 3, 4 of one key, and keys are distinct and ordered |
| Grouping.InputOrderIrrelevant | backend/src/most_sprite/pipeline/instruments/espadons.py:238-241 | with distinct paths the result, groups or error, does not depend on the input order |
| GroupingOrder.RefusedIff | backend/src/most_sprite/pipeline/instruments/espadons.py:238-266 | frames are refused for a missing sequence exactly when a science frame has none, otherwise for the first key in order whose frames are not four with sub-indices 1 to 4, and grouped exactly when there is none |
| GroupingOrder.FrameLeIff | backend/src/most_sprite/pipeline/instruments/espadons.py:238-241 | frames are taken by time of observation and then by path, as strings |
| GroupingOrder.KeyLeIff | backend/src/most_sprite/pipeline/instruments/espadons.py:260-262 | groups come by night, target, Stokes parameter and sequence number |
| GroupingRuns.RunIsRecoveredIff | backend/src/most_sprite/pipeline/instruments/espadons.py:251-259 | the bucket of a full unnumbered run is exactly its four frames in order, and complete, exactly when no frame carries the number of the run itself |
| GroupingRuns.GroupingSucceedsIff | backend/src/most_sprite/pipeline/instruments/espadons.py:251-266 | when all unnumbered frames come in full runs, grouping succeeds exactly when no frame carries the number of a run and the numbered frames are complete among themselves |
| GroupingRuns.RunsBecomeGroups | backend/src/most_sprite/pipeline/instruments/espadons.py:251-284 | on success every run is one group, its frames in the order in which they were taken |
| GroupingRuns.UnnumberedRunsAreRecovered | backend/src/most_sprite/pipeline/instruments/espadons.py:251-284 | without numbered frames grouping always succeeds, with one group for each run and no other |
| GroupingRuns.CollisionIsRefused | backend/src/most_sprite/pipeline/instruments/espadons.py:251-266 | one unnumbered run and a frame that carries the number 1 are refused together |
| Surface.FeatureCount | backend/src/most_sprite/pipeline/wavelength/espadons.py:154-159 | degree d has (d + 1)(d + 2) / 2 features |
| Surface.PowerRowsMembers | backend/src/most_sprite/pipeline/wavelength/espadons.py:154-159 | the enumeration lists exactly the powers of total degree at most d |
| Surface.PowerRowsDistinct | backend/src/most_sprite/pipeline/wavelength/espadons.py:154-159 | each of them once |
| Surface.FeatureIs | backend/src/most_sprite/pipeline/wavelength/espadons.py:154-168 | feature q (2 d + 3 - q) / 2 + p is the p-th power of the pixel times the q-th power of the order coordinate |
| Surface.ExpansionKeepsPolynomial | backend/src/most_sprite/pipeline/wavelength/espadons.py:162-174 | raising the degree keeps the polynomial at every pixel and order |
| Preview.OutputFits | backend/src/most_sprite/products/preview.py:93-95 | the output is not empty, within the limits, and not larger than the image |
| Preview.SizeIsRounded | backend/src/most_sprite/products/preview.py:93-95 | each dimension is the scaled one to half a pixel, unless it is one |
| Preview.ScaleIsLargest | backend/src/most_sprite/products/preview.py:93 | the scale is the largest one up to 1 at which the image fits the limits |
| Preview.FittingIsKept | backend/src/most_sprite/products/preview.py:93-97 | an image that fits keeps its size |
| Preview.RoundIs | backend/src/most_sprite/products/preview.py:94-95 | rounding is to the nearest integer and to even |
| Preview.EdgesPartition | backend/src/most_sprite/products/preview.py:100-101 | block edges strictly increase from 0 to the size |
| Preview.BlocksAreEven | backend/src/most_sprite/products/preview.py:100-101 | the first k blocks hold k / n of the pixels, rounded down, and no two blocks differ by more than one pixel |
| Preview.OneBlock | backend/src/most_sprite/products/preview.py:100-105 | no pixel lies in two blocks |
| Preview.DownsampleImage | backend/src/most_sprite/products/preview.py:73-111 | every output pixel is the largest finite pixel of its block, missing exactly when the block has none |
| Preview.PixelSurvives | backend/src/most_sprite/products/preview.py:99-111 | every finite pixel is covered by an output pixel at least as bright |
| Preview.MaximumPreserved | backend/src/most_sprite/products/preview.py:99-111 | the largest finite value is preserved |
| Lease.LeaseTable.AcquireOrRenew | backend/src/most_sprite/control/lease.py:15-39 | the row and the granted token after one call |
| Lease.LeaseIsSafe | backend/src/most_sprite/control/lease.py:15-39 | over every run: tokens never decrease, one token has one owner, and validity intervals of different owners do not overlap |
| Lease.RefusedIff | backend/src/most_sprite/control/lease.py:15-39 | in every run a call is refused exactly while the last grant belongs to another owner and has not run out; otherwise it is granted for ttl from now, with token 1, the same token, or the next one |
| Device.DeviceSimulator.Execute | backend/src/most_sprite/devices/simulator.py:36-107 | the whole state and answer after one command, in every branch |
| Device.DeviceSimulator.Dispatch | backend/src/most_sprite/devices/simulator.py:109-186 | what every handler changes and reports |
| Device.DeviceSimulator.InjectFault | backend/src/most_sprite/devices/simulator.py:234-245 | which faults and flags an injection changes |
| Device.MovesArePrecise | backend/src/most_sprite/devices/simulator.py:128-139 | an effective move reports the angles the device holds, within 0.005 degrees of the commanded ones and with opposite errors |
| Device.RecordsAreFinal | backend/src/most_sprite/devices/simulator.py:36-50 | recorded answers never change and the highest token never decreases |
| Device.FreshCommandCounts | backend/src/most_sprite/devices/simulator.py:40-107 | a command under a fresh key raises the highest token also when it is refused, and exactly the answers that are given are recorded |
| Device.RepeatChangesNothing | backend/src/most_sprite/devices/simulator.py:37-39 | a repeated key is answered from the record without effect |
| Device.RefusedAsStaleIff | backend/src/most_sprite/devices/simulator.py:37-49 | the answer is the stale-token refusal exactly when that refusal is recorded under the key, or nothing is and the token is lower than the highest one; a stale command moves nothing |
| Device.OnlyAppliedMoves | backend/src/most_sprite/devices/simulator.py:40-103 | only a command that takes effect moves the device, the guider flag apart |
| Device.AppliedIff | backend/src/most_sprite/devices/simulator.py:50-107 | a fresh command with a current token succeeds exactly before its deadline, on a working network, with nothing its kind needs missing or faulty |
| Device.RefusedIff | backend/src/most_sprite/devices/simulator.py:50-117 | and each error code is given exactly for its own cause |
| Device.JitterIff | backend/src/most_sprite/devices/simulator.py:131-133 | the position errors are the multiples of 0.0001 degrees up to 0.005 |
| Fencing.EffectsAreFenced | backend/src/most_sprite/devices/simulator.py:36-107 | in every interleaving effects carry non-decreasing tokens and each key takes effect at most once |
| Fencing.MoveAndExposeAreAtomic | backend/src/most_sprite/control/runner.py:301-377 | between a move and a later exposure with the same token only that controller's commands took effect, and the frame records the angles of the last move |
| Fencing.RightfulIsRefusedIff | backend/src/most_sprite/devices/simulator.py:37-49 | in every run a command with a current token is refused as stale exactly when its key was first sent under a superseded token |
| Fencing.KeysOfOneTokenAreSafe | backend/src/most_sprite/devices/simulator.py:37-49 | a key only ever sent under one token is never refused wrongly |
| Fencing.DisjointKeysAreSafe | backend/src/most_sprite/devices/simulator.py:37-49 | nor is a key of an owner that shares it with nobody and never lost the lease |
| Fencing.RightfulIsRefused | backend/src/most_sprite/devices/simulator.py:37-49 | a run in which the holder of the lease is refused because the former holder sent the key first |
| Fencing.DeviceFollowsLog | backend/src/most_sprite/devices/simulator.py:109-186 | in every run device state follows from the commands that took effect: initialization, shutter, optics; guider and interlock fail only under their faults |
| Fencing.InterlockFollows | backend/src/most_sprite/devices/simulator.py:234-240 | in every run the interlock is reported as safe as the last injection, initialization or safing left it |
| Fencing.FramesAreTrue | backend/src/most_sprite/devices/simulator.py:141-175 | in every run an exposure takes effect only after an initialization, and its frame reports guider and storage faults exactly when they are active |
| Instrument.InstrumentRecord.Transition | backend/src/most_sprite/control/runner.py:496-510 | a transition is refused exactly when the table has no such edge |
| Instrument.InstrumentRecord.RecoverInstrument | backend/src/most_sprite/control/runner.py:630-638 | recovery is allowed exactly in SAFE_FAULT and leads to OFFLINE |
| Instrument.EnteredIff | backend/src/most_sprite/control/state_machine.py:6-43 | from which states each state can be entered: EXPOSING only from READY, READY only from PREPARING and READING, and so on |
| Instrument.PreparationIsLegal | backend/src/most_sprite/control/runner.py:227-277 | preparation walks legal edges and ends in READY |
| Instrument.PreparesIff | backend/src/most_sprite/control/runner.py:227-277 | preparation gets through exactly from STANDBY or PREPARING on an initialized device, or from where initialization is due and succeeds, with a recent state, a safe interlock and the optics set |
| ControlSafety.CounterMeaning | backend/src/most_sprite/control/runner.py:411-417 | the counter never exceeds the expected number and reaches it exactly when every ordinal is committed |
| ControlSafety.TransactionKeeps | backend/src/most_sprite/control/runner.py:131-225 | every runner transaction keeps the invariant and every committed row |
| ControlEvents.RecoveryCounts | backend/src/most_sprite/acquisition/service.py:196-225 | a recovered row was uncommitted and the counter below its limit |
| ControlEvents.EventKeepsIff | backend/src/most_sprite/api/routes.py:278-323 | an event, user actions, recovery and crashes included, keeps the invariant exactly when it does not register an exposure that is being retaken |
| ControlRuns.SuccessMeansComplete | backend/src/most_sprite/control/runner.py:203-217 | in every run a succeeded sequence has exactly one row for each ordinal, committed and counted |
| ControlRuns.CounterIsExact | backend/src/most_sprite/control/runner.py:411-412 | in every run the counter is the number of committed rows |
| ControlRuns.CommittedForEver | backend/src/most_sprite/acquisition/service.py:118-121 | in every run a committed row never changes again |
| ControlRuns.SuccessIsFinal | backend/src/most_sprite/control/runner.py:203-217 | no event changes a succeeded sequence |
| ControlPasses.PauseTakesEffect | backend/src/most_sprite/control/runner.py:522-535 | in every run a requested pause takes effect at the next look: the sequence is paused, the instrument parked in STANDBY, and no row changes |
| ControlPasses.AbortTakesEffect | backend/src/most_sprite/control/runner.py:537-551 | in every run a requested abort takes effect at the next look, always, and parks the instrument in STANDBY |
| ControlPasses.AbortDuringExposureIff | backend/src/most_sprite/control/runner.py:346-357 | during an exposure it takes effect exactly when the detector accepts it and the transaction commits, and otherwise the sequence fails |
| ControlPasses.ExposureFailsToBeginIff | backend/src/most_sprite/control/runner.py:301-343 | in every run the first exposure transaction fails the sequence exactly when the sequence was queued again, or still runs and the move or the commit fails |
| ControlPasses.ExposureBegins | backend/src/most_sprite/control/runner.py:301-343 | and when it does begin, exactly the row of the ordinal is put under exposure, reused or inserted |
| ControlPasses.ExposureFailsToEndIff | backend/src/most_sprite/control/runner.py:358-418 | in every run the second one, when not aborting, fails exactly when the detector does not expose, the guide lock is lost, the file cannot be stored or the commit fails; otherwise the row is committed and counted and the instrument is STANDBY exactly when all ordinals are committed, else READY |
| ControlPasses.PreparationFailsIff | backend/src/most_sprite/control/runner.py:131-137 | in every run a pass fails at its preparation exactly when the instrument cannot be prepared or the commit fails |
| ControlPasses.EndsIff | backend/src/most_sprite/control/runner.py:203-217 | in every run a sequence succeeds exactly by a final transaction that commits while it runs, and fails exactly by a failing transaction that commits, which gives up its uncommitted rows and latches SAFE_FAULT |
| ControlPasses.StopsIff | backend/src/most_sprite/control/runner.py:522-551 | in every run a sequence starts to run, is paused, or is aborted exactly by the poll, look, exposure or request that does so |
| ControlPasses.ActionIff | backend/src/most_sprite/api/routes.py:278-313 | in every run a user action is accepted exactly in the states that permit it, and changes nothing else |
| ControlRuns.RetryIff | backend/src/most_sprite/api/routes.py:300-309 | a failed sequence is queued again exactly out of SAFE_FAULT, with a new attempt number |
| ControlKeys.AttemptsRise | backend/src/most_sprite/api/routes.py:300-309 | in every run the attempt of a sequence never decreases, and stays exactly as long as the sequence is not retried after a failure |
| ControlKeys.AsksIff | backend/src/most_sprite/control/runner.py:301-377 | in every run the runner asks for a move, an exposure, giving it up, and safing exactly in the transactions that call for it |
| ControlKeys.PreparationAsksIff | backend/src/most_sprite/control/runner.py:246-276 | a preparation asks to initialize exactly where that is due, and to set the optics exactly when only the answer to that is left to decide |
| ControlKeys.RetriedKeysAreFresh | backend/src/most_sprite/control/runner.py:434-455 | in every run a retried sequence asks for no device key it asked for before |
| ControlKeys.OpticsKeyRepeatsIff | backend/src/most_sprite/control/runner.py:434-455 | two preparations of a sequence set the optics under one key exactly when it was not retried in between |
| ControlScenarios.OpticsKeyIsRepeated | backend/src/most_sprite/control/runner.py:434-455 | a run in which a pause and a resume lead to the same key |
| ControlSkips.SkipsIff | backend/src/most_sprite/control/runner.py:174-201 | in every run an open ordinal is passed over exactly by a committing look at a sequence that has been queued again |
| ControlSkips.SkipIsPauseAndResume | backend/src/most_sprite/control/runner.py:290-296 | that comes about only by a pause taken inside the first transaction of the exposure and a resume before the look |
| ControlSkips.SkippingPassGainsNothing | backend/src/most_sprite/control/runner.py:158-216 | for the rest of that pass nothing is exposed, the sequence neither runs nor succeeds, and the ordinal stays open unless recovered |
| ControlSkips.NextOpenOrdinalFails | backend/src/most_sprite/control/runner.py:301-343 | the next open ordinal of that pass fails the sequence and latches SAFE_FAULT |
| ControlSkips.SkippingPassEndsIff | backend/src/most_sprite/control/runner.py:158-216 | left to itself the pass ends with the sequence queued exactly when all later ordinals are committed, and otherwise failed with SAFE_FAULT latched |
| ControlScenarios.SkipIsReachable | backend/src/most_sprite/control/runner.py:186-201 | a run in which this happens |
| ControlScenarios.ReadyIsStranded | backend/src/most_sprite/control/runner.py:227-277 | a run in which a killed runner leaves the instrument READY and the next sequence fails at its preparation |
| ControlRuns.CountKeptIff | backend/src/most_sprite/control/runner.py:358-418 | the exposure transaction keeps the counter exact exactly when no raw file was registered before it |
| ControlRuns.CommittedRevertsIff | backend/src/most_sprite/acquisition/service.py:53-55 | a committed row goes back to READING exactly in that case |
| ControlScenarios.SuccessWithoutExposure | backend/src/most_sprite/cli.py:55-61 | with recovery polling during a retake, a run in which a sequence succeeds with its counter too high and no committed row |
| ControlScenarios.SuccessWithTwoRows | backend/src/most_sprite/cli.py:55-61 | with recovery polling before the first transaction of a retake, a run in which a sequence succeeds with two committed rows for one ordinal |
| InstrumentSafety.InstrumentIsSafe | backend/src/most_sprite/control/state_machine.py:6-43 | from any state: only allowed edges or edges into SAFE_FAULT, EXPOSING only from READY, and only recovery leaves SAFE_FAULT |
| Runner.ControlRunner.BeginExposure | backend/src/most_sprite/control/runner.py:301-343 | the first exposure transaction updates the database as specified or raises |
| Runner.ControlRunner.ExposeAndCommit | backend/src/most_sprite/control/runner.py:358-418 | the second one does, the L0 commit included |
| Runner.ControlRunner.PrepareInstrument | backend/src/most_sprite/control/runner.py:227-277 | preparation follows the specified track of instrument states |
| Runner.ControlRunner.FailTransaction | backend/src/most_sprite/control/runner.py:553-589 | failing marks the sequence and its unfinished rows and latches SAFE_FAULT |
| Runner.ControlRunner.RunGroup | backend/src/most_sprite/control/runner.py:158-201 | the inner loop takes the sub-exposures in order, skipping committed ones, with other processes acting in between |
| Runner.ControlRunner.RunSequence | backend/src/most_sprite/control/runner.py:131-225 | the nested loops only pass through states of the state machine, so every result about runs applies to them |
| Runner.ControlRunner.RunOnce | backend/src/most_sprite/control/runner.py:78-109 | one poll takes a queued sequence through a pass and ends idle, failing the sequence on an exception |

## Left out

- Floating-point rounding: arithmetic is over reals; `exp`, `log` and `tanh` are replaced by the positive fourth root, which is a parameter because reals in Dafny come without a root function.
- Infinities: one value, `Missing`, stands for NaN and both infinities; the NaN-aware median of the combiner would keep infinities as values.
- Unsigned 32-bit quality words: they are sets of bit positions; the null flags and extraction flags keep their own bits.
- Error columns: they are variances; the square root taken and squared again between demodulation and merge is the identity on non-negative numbers.
- NaN wavelengths: coordinates are real numbers.
- Blaze interpolation, the difference check, the lag columns of demodulation and merge, and quality summaries: linear bookkeeping beside the modelled quantities; the blaze weights of an order are an input.
- Repeated resampling guard, order and channel bookkeeping of `resample_common_grid`: single-branch checks and concatenation.
- Extraction.ExtractOrder: takes the background-subtracted cut of every column; trace geometry, background estimation and the unreachable non-positive denominator are not modelled.
- Group records: mean exposure time, mode and the joined key string are derived from the frames of the group and not modelled.
- Grouping.InputOrderIrrelevant: needs distinct paths; frames with equal time and path keep the input order.
- Fitting (`least_squares`, `polyfit`, RANSAC, peak finding), heliocentric correction, frame synthesis: library results.
- FITS files, SQL sessions, gRPC, web routing, authentication, events and audit records: the database is an atomic value, the L0 store a set of exposures, and only sequence actions of the web interface are modelled.
- The night directory of an L0 file: the store has one path for each exposure, also when a retake falls on another night.
- Device restart and the suspension inside the position-timeout branch: the device keeps its memory, and one command is one atomic step.
- Command rows in the database: an answer stored there short-circuits a device call; in the runner model a device call answers freely, which includes the stored answer.
- Modulation group rows and the completion of action commands: they do not influence the sequence status.
- Several runners at once: `Fencing` interleaves any number of controllers on the device; the sequence protocol has one runner, because a second one can pick up a resumed sequence while the first still holds it.
- ControlRuns.SuccessMeansComplete: it and the other results about runs exclude one event, recovery that registers an exposure while it is being retaken; `ControlEvents.EventKeepsIff`, `ControlScenarios.SuccessWithoutExposure` and `ControlScenarios.SuccessWithTwoRows` show that this is the event that breaks them, and how.
- Liveness: a pause or abort of a queued sequence is not picked up by the poll, and no progress is claimed.
- Publication gate, calibration matching, processing claims: mostly single-branch checks.
