# Verification model of the DCS testbed

The testbed runs an application in virtual machines, samples its performance, and lets a controller
set the machines' CPU and memory shares.  This project models five of its components and proves
what they keep, compute and promise.  `dafny verify dfyconfig.toml` checks it.

- **Incremental quantile estimators** (`Sorting`, `QuantileMerge`, `FirstBatch`,
  `MergeOrder`, `MergeRanks`, `StaleQuantiles`, `Chambers`, `ChambersRuns`, `ChambersReset`, `Quantiles`,
  `Estimators`, `ChenDensity`, `ChenSteps`).  The agent of Chambers et al. (2006) is a
  two-cursor merge of 251 stored quantiles with a sorted batch.  The others are Welsh's nearest
  rank with EWMA, Chen's EWMA, EWSA and SA over a sliding window, and the exact estimator.
- **Exponential smoothers** (`Smoothers`): Brown's single, Holt-Winters, and Brown's double.
- **Fuzzy controllers** (`Fuzzy`, `FcmsRules`, `FcmsShares`, `VirtualMachines`, `Fcms`,
  `FcmsLaws`, `Fc2q`, `Fc2qLaws`).
  FCMS decides the CPU and then the memory share of each machine; FC2Q decides CPU shares only,
  all or none.
- **Connection tracker** (`Connections`, `DataStores`, `ConnectionTracker`, `PacketPipeline`): a
  passive observer of TCP connections (sections 3.5 and 3.6 of RFC 9293), with its status automaton,
  its RAM and MySQL stores, and its sniffer and analyzer threads.
- **Experiment run** (`Experiment`): saving and restoring shares around the sampler and controller
  threads.

A class of the source that updates its fields is a class here, specified by functions on values:
`SingleRun`, `HoltRun` and `BrownRun`; `Prepared`, `Advance` and `Rewritten`; `CpuNext` and `MemNext`;
`RamSaved`, `SqlSaved` and `AnalyzeRun`; `Pushed`, `Popped` and `Tops`.  The lemmas are about these
functions and about runs of any length.  Threads are state machines over their steps.
`Reals` holds the arithmetic that the proofs share.  Numbers are exact: `1e-2` is 1/100 and `1.1` is
11/10.

## Where the code does not do what it says

- The merge re-declares its running ranks inside the loop over targets (`data_estimators.hpp`,
  lines 434-435), so every target counts from zero.  On a first batch of distinct positive data only
  the first stored quantile is the datum its rank stands for, unless the rank is the last
  (`QuantileRightIff`); every probability above 0.17 is answered with the maximum, which is right
  only for the last rank (`FirstEstimateRightIff`, `FirstMedianWrong`).  Other first batches are merged
  in the same way exactly if the initial zeros do not get in the way (`FirstBatchAsFirstIff`).
- The quantiles do not stay ordered when a batch is higher or lower than what is stored
  (`NarrowBatchBreaksOrder`, `LowerBatchBreaksOrder`).  For sorted quantiles and any batch, exactly
  when they do: `OrderedIff`, and over runs `RunKeepsOrderIff`.  The half of the condition about the bottom of the
  batch is on the inputs.  The half about its top says what the scan reads; on the inputs it holds
  if no stored quantile is above the batch (`NoneAbove`), and fails if the last target is out of reach
  (`TopOutOfReach`) or the data are few (`NarrowBatchAtTheTop`).
- `reset` of the same agent keeps its quantiles, since it resizes a vector to the size it has.  After
  one estimate of positive data and a reset, a batch with a lower maximum is not merged as a new
  agent merges it (`ResetRemembers`); exactly when a reset is harmless: `ResetHarmlessIff`.
- The two double smoothers are the same machine only on streams whose first two samples are equal,
  because Holt-Winters keeps the first sample as its level when it sets the trend (`SameMachineIff`).
- Holt-Winters built with two parameters is ready after one sample but forecasts with an
  uninitialised trend until the second (`GarbageShowsIff`).
- FC2Q has a gap in its terms at a gain of 0.30 (`OutputIff`), and may take the whole share of an
  unused machine, which its next control divides by (`UnusedMachineReachesZero`; never of a used
  one: `UsedStaysPositive`).
- `num_connections` subtracts departures from arrivals, but neither store books them so that the
  difference is the number of live connections (`Balances`; exactly when it is: `BalanceIsLiveIff`).
  In the MySQL store six packets of one client make the count query fail
  (`ReconnectingClientFailsSql`; exactly when: `SqlFailsIff`), and in the RAM store seven make the count
  wrap around (`ReconnectingClientWraps`; exactly when: `RamWrapsIff`).
- The second pass of the analyzer, meant to drain the queue, is never entered: what is queued when the
  sniffer ends stays there, but for one packet at most (`RestIsLeft`), and the analyzer can wait for
  ever (`AnalyzerCanHang`).

## Model

| member | source | states |
|---|---|---|
| `QuantileMerge.ReadNext` | inc/dcs/testbed/data_estimators.hpp:445-475 | one reading of the scan moves a cursor and never past an end; the quantile cursor reaches the end only once the data cursor has |
| `QuantileMerge.Advance` | inc/dcs/testbed/data_estimators.hpp:437-483 | the scan for one target ends, on every input, with both cursors inside their bounds; its measure is what is left to read |
| `MergeOrder.AdvanceOrdered` | inc/dcs/testbed/data_estimators.hpp:437-483 | from an ordered cursor, a scan that reads no stored quantile above the batch only moves right, and stops with the target rank strictly above the old rank and at most the new one, or with nothing left |
| `QuantileMerge.InterpolateBetween` | inc/dcs/testbed/data_estimators.hpp:484-492 | the interpolated quantile lies between the two abscissas that bracket the target |
| `MergeRanks.PortionWhole` | inc/dcs/testbed/data_estimators.hpp:461-463 | an interval between two stored quantiles holds nt*(p1-p0) old observations |
| `MergeRanks.PortionAdds` | inc/dcs/testbed/data_estimators.hpp:461-463 | its portions add up, and equal lengths hold equal portions |
| `MergeRanks.ScanRanked` | inc/dcs/testbed/data_estimators.hpp:437-483 | from any cursor and for stored quantiles in any order: once a stored quantile has been read, the rank of the scan is all data read so far and the old observations at or below the abscissa; until then, what the scan itself has come across; the value that answers is the first at which the rank reaches the target |
| `MergeRanks.TargetAnswered` | inc/dcs/testbed/data_estimators.hpp:431-495 | the target of probability p is rank (nt+n)*p: the new quantile divides the two values read around it as that rank divides theirs, told < (nt+n)*p <= tnew, or is the last value if none is left |
| `MergeOrder.CursorOrdered` | inc/dcs/testbed/data_estimators.hpp:431-495 | the quantile of each later target lies between the abscissas at which the previous and this target were answered |
| `MergeOrder.LowPhase` | inc/dcs/testbed/data_estimators.hpp:437-483 | with stored quantiles below the batch, the first target is answered at or above the batch minimum exactly if the old rank of that minimum does not exceed it |
| `MergeOrder.OrderedIff` | inc/dcs/testbed/data_estimators.hpp:407-497 | for every batch, higher, lower or wider than what is stored: with the stored quantiles in order, the rewritten ones are sorted and inside [batch min, batch max] if and only if the old observations ranked below the batch minimum do not exceed the first target and the scan reads no stored quantile above the batch maximum |
| `MergeOrder.SortedStaysSorted` | inc/dcs/testbed/data_estimators.hpp:407-497 | if the quantiles are sorted once the end points are set, the rewritten ones are sorted and inside the batch |
| `MergeOrder.AdvanceAtTop` | inc/dcs/testbed/data_estimators.hpp:437-483 | a scan that reads a stored quantile above the batch answers its target above the batch |
| `MergeOrder.AboveBreaksRange` | inc/dcs/testbed/data_estimators.hpp:431-495 | and so breaks the range |
| `MergeOrder.RankBounded` | inc/dcs/testbed/data_estimators.hpp:437-483 | as long as no stored quantile above the batch is read, no rank exceeds all data and the old observations at or below the batch maximum |
| `MergeOrder.LastTargetReachesAbove` | inc/dcs/testbed/data_estimators.hpp:431-495 | so if the last target exceeds that, for stored quantiles in any order, one is read |
| `MergeOrder.FewDataReachAbove` | inc/dcs/testbed/data_estimators.hpp:431-495 | a batch with fewer data than there are stored quantiles above it always reads one |
| `FirstBatch.CountFromRank` | inc/dcs/testbed/data_estimators.hpp:437-483 | with nothing observed before, a scan that starts with the number of data read as its rank is answered by the datum number ceil(target), whatever stored quantiles come in between |
| `FirstBatch.CountData` | inc/dcs/testbed/data_estimators.hpp:433-483 | because the rank starts again from zero for each target, a target t consumes ceil(t) data of its own, up to the first stored quantile in the way |
| `FirstBatch.QuantileRightIff` | inc/dcs/testbed/data_estimators.hpp:431-495 | on distinct data merged as a first batch of positive data is, the stored quantile of probability p is datum number ceil(n*p), its nearest rank, if and only if it is the first one or that number is n |
| `FirstBatch.FirstQuantiles` | inc/dcs/testbed/data_estimators.hpp:431-495 | every quantile that a first batch above all stored quantiles (positive data, above the initial zeros) produces, exactly: the datum whose number is the sum of ceil(n*p_i) over the probabilities so far, or the maximum once that exceeds the batch |
| `FirstBatch.FirstTwoQuantiles` | inc/dcs/testbed/data_estimators.hpp:431-495 | for instance the first is datum number ceil(n*p_1) and the second number ceil(n*p_1) + ceil(n*p_2), at most n |
| `FirstBatch.QuantilesCollapse` | inc/dcs/testbed/data_estimators.hpp:431-495 | of data merged as a first batch of positive data is, all quantiles from the index at which the probabilities add up to one are the batch maximum |
| `Chambers.GridLow` | inc/dcs/testbed/data_estimators.hpp:535-544 | the lower part of the grid is positive, at most 0.1, and strictly increasing |
| `Chambers.GridScale` | inc/dcs/testbed/data_estimators.hpp:535-544 | the grid starts at one millionth, to a thousandth of it, and runs in hundredths from 0.1 through 0.5 to 0.9 |
| `Chambers.InitialIsGrid` | inc/dcs/testbed/data_estimators.hpp:533-544 | initialisation gives a grid: 251 points, symmetric, with both end points inside (0, 1) |
| `Chambers.GridShape` | inc/dcs/testbed/data_estimators.hpp:535-544 | every grid, initial or adapted, is strictly increasing, inside (0, 1) and symmetric about one half |
| `Chambers.PreparedIsGrid` | inc/dcs/testbed/data_estimators.hpp:418-430 | setting the end points for a batch keeps the probabilities a grid |
| `Chambers.EndProbabilities` | inc/dcs/testbed/data_estimators.hpp:429-430 | of n observations the lowest probability p has n*p <= 1/2 and is at most half the next one, one of both exactly; the highest is as far from one |
| `Chambers.CellUnique` | inc/dcs/testbed/data_estimators.hpp:580-597 | a probability has one cell of the grid only |
| `Chambers.FindCell` | inc/dcs/testbed/data_estimators.hpp:580-597 | the binary search ends in the cell pval[j] < prob <= pval[j+1], or in the first or last one when prob is outside the grid |
| `Chambers.AnswerInBatch` | inc/dcs/testbed/data_estimators.hpp:599-601 | the returned value lies between the minimum and the maximum of the batch just merged, in order or not |
| `Chambers.AnswerInCell` | inc/dcs/testbed/data_estimators.hpp:394-397 | with sorted quantiles the answer to a probability inside the grid lies between the quantiles of its cell, so the clamp changes nothing |
| `Chambers.AnswerAtGrid` | inc/dcs/testbed/data_estimators.hpp:394-397 | the answer at a grid probability is the quantile stored for it, from either side, and half-way between two it is half-way between theirs |
| `Chambers.AnswerRises` | inc/dcs/testbed/data_estimators.hpp:580-601 | with sorted quantiles and rising probabilities, such as every grid has (`GridShape`), a higher probability never gets a lower answer, in one cell or across cells, inside the grid or not |
| `Chambers.ChambersEstimator.constructor` | inc/dcs/testbed/data_estimators.hpp:376-392 | a new agent holds 251 zero quantiles, no data, and no answer |
| `Chambers.ChambersEstimator.Collect` | inc/dcs/testbed/data_estimators.hpp:499-525 | appends the batch to the buffer and changes nothing else |
| `Chambers.ChambersEstimator.InitGrid` | inc/dcs/testbed/data_estimators.hpp:535-544 | the two loops, upwards and downwards from 85, write the specified grid into all 251 places |
| `Chambers.ChambersEstimator.SetEnds` | inc/dcs/testbed/data_estimators.hpp:418-430 | sorts the buffer and sets the four end points, leaving the rest |
| `Chambers.ChambersEstimator.RankAtDatum` | inc/dcs/testbed/data_estimators.hpp:457-463 | the rank reached at a datum: old observations spread evenly over the stored interval, none if the interval is empty |
| `Chambers.ChambersEstimator.Locate` | inc/dcs/testbed/data_estimators.hpp:439-482 | the loop with its four exits computes the specified scan from any cursor |
| `Chambers.ChambersEstimator.AnswerTarget` | inc/dcs/testbed/data_estimators.hpp:431-495 | one turn of the outer loop gives the quantile of `TargetAnswered` and leaves the cursors where the next target starts |
| `Chambers.ChambersEstimator.Update` | inc/dcs/testbed/data_estimators.hpp:407-497 | rewrites all quantiles in place as the specification function says, whose values `TargetAnswered` and `FirstQuantiles` describe, never reading past either sequence |
| `Chambers.ChambersEstimator.Query` | inc/dcs/testbed/data_estimators.hpp:580-601 | finds the cell that holds prob and answers with the clamped interpolation in it, as `AnswerAtGrid` and `AnswerRises` describe it |
| `Chambers.ChambersEstimator.Estimate` | inc/dcs/testbed/data_estimators.hpp:527-605 | no data: nothing changes. Otherwise grid on first use, merge, count, empty buffer, and the answer for prob |
| `Chambers.ChambersEstimator.Reset` | inc/dcs/testbed/data_estimators.hpp:607-618 | empties buffer, count and answer; the stored quantiles and probabilities stay |
| `ChambersRuns.RunKeepsGrid` | inc/dcs/testbed/data_estimators.hpp:407-497 | in every run of estimates the probabilities keep the shape of the grid |
| `ChambersRuns.RunCounts` | inc/dcs/testbed/data_estimators.hpp:407-605 | a run counts every observation once, and its first and last quantiles are the minimum and maximum of its last batch |
| `ChambersRuns.StepKeepsOrderIff` | inc/dcs/testbed/data_estimators.hpp:407-497 | one merge keeps sorted quantiles sorted and moves them inside the new batch if and only if the batch covers them |
| `ChambersRuns.RunKeepsOrderIff` | inc/dcs/testbed/data_estimators.hpp:407-497 | over a whole run the quantiles are sorted and inside the batch after every batch if and only if every batch covers what is stored |
| `ChambersRuns.ZeroUndisturbedIff` | inc/dcs/testbed/data_estimators.hpp:385-386 | the zeros of a new agent are undisturbing if and only if the first target is answered by a positive datum or the maximum is zero |
| `ChambersRuns.RegularAsFirst` | inc/dcs/testbed/data_estimators.hpp:407-497 | such a first batch gives every target the datum that positive data give it |
| `ChambersRuns.PositiveIsRegular` | inc/dcs/testbed/data_estimators.hpp:407-497 | every batch of positive data is one |
| `ChambersRuns.TopOutOfReach` | inc/dcs/testbed/data_estimators.hpp:407-497 | sorted quantiles are not kept in range by any batch for which the last target exceeds all its data and the old observations at or below its maximum |
| `ChambersRuns.FirstBatchCovered` | inc/dcs/testbed/data_estimators.hpp:385-386 | the first batch is covered exactly when its maximum is not negative: the quantiles start as zeros |
| `ChambersRuns.NarrowBatchBreaksOrder` | inc/dcs/testbed/data_estimators.hpp:407-497 | the order is not kept in general: any single positive observation followed by a higher one puts quantiles below the batch minimum |
| `ChambersRuns.LowerBatchBreaksOrder` | inc/dcs/testbed/data_estimators.hpp:407-497 | and any one followed by a lower positive one puts quantiles above the batch maximum, although the first target is met |
| `ChambersRuns.NarrowBatchAtTheTop` | inc/dcs/testbed/data_estimators.hpp:407-497 | in general a batch with fewer data than there are sorted quantiles above it breaks the range |
| `ChambersRuns.FirstEstimateRightIff` | inc/dcs/testbed/data_estimators.hpp:431-601 | of a regular first batch of distinct data, a probability above 0.17 is answered with its nearest-rank sample if and only if that rank is the last |
| `ChambersRuns.FirstMedianWrong` | inc/dcs/testbed/data_estimators.hpp:431-601 | a failing input: of any two positive data the median is answered with the higher one, its nearest-rank sample being the lower one |
| `ChambersRuns.FirstEstimateIsMaximum` | inc/dcs/testbed/data_estimators.hpp:431-497 | after a regular first batch of any size, positive data for example, every probability above 0.17, the median included, is answered with the batch maximum |
| `StaleQuantiles.Passed` | inc/dcs/testbed/data_estimators.hpp:437-483 | the stored quantiles that the first target passes: those below the datum that answers it |
| `StaleQuantiles.FlatPosition` | inc/dcs/testbed/data_estimators.hpp:431-495 | left-over quantiles that are passed or equal the batch maximum leave every cursor where a first batch has it, whatever comes after them |
| `StaleQuantiles.OffIsRead` | inc/dcs/testbed/data_estimators.hpp:431-495 | the first left-over quantile off the batch maximum that a target without a datum reads moves that target off the maximum, to its own side |
| `StaleQuantiles.InsideDisturbs` | inc/dcs/testbed/data_estimators.hpp:431-495 | if the first left-over quantile that the first target does not pass is below the batch maximum, some new quantile changes |
| `StaleQuantiles.AsFirstIff` | inc/dcs/testbed/data_estimators.hpp:431-495 | for left-over quantiles in any order: a merge with nothing observed before gives what a first batch of positive data gives if and only if the quantiles that targets without a datum are to read all equal the batch maximum |
| `ChambersReset.GridSpread` | inc/dcs/testbed/data_estimators.hpp:535-544 | the grid's probabilities are spread enough for that: no target from the third on asks for more than the two before it |
| `ChambersReset.ResetHarmlessIff` | inc/dcs/testbed/data_estimators.hpp:607-618 | after a reset, whatever the stored quantiles and their order, the agent merges a regular batch like a new one if and only if those quantiles equal the batch maximum that targets without a datum are to read, the first ones not below the datum that answers the first target |
| `ChambersReset.FirstBatchAsFirstIff` | inc/dcs/testbed/data_estimators.hpp:407-497 | a new agent on a first batch of any sign: its zeros make no difference if and only if the first target is answered by a positive datum or the maximum is zero |
| `ChambersReset.ResetAfterRunIff` | inc/dcs/testbed/data_estimators.hpp:607-618 | the same for an agent that has run, whatever its batches |
| `ChambersReset.ResetHarmless` | inc/dcs/testbed/data_estimators.hpp:607-618 | a reset is harmless for every batch above all stored quantiles, in whatever order these are |
| `ChambersReset.ResetHarmful` | inc/dcs/testbed/data_estimators.hpp:607-618 | and harmful whenever some quantile up to number 157 exceeds the batch |
| `ChambersReset.UnreadQuantileIsHarmless` | inc/dcs/testbed/data_estimators.hpp:607-618 | quantile 249 alone above the batch is not always read: the reset is then harmless |
| `ChambersReset.ResetRemembers` | inc/dcs/testbed/data_estimators.hpp:607-618 | one estimate of positive data, a reset, and a batch with a lower maximum: the agent differs from a new one, for distinct data or batches that are not huge |
| `ChambersReset.ResetForgets` | inc/dcs/testbed/data_estimators.hpp:607-618 | with a batch above the first one it never does |
| `ChambersReset.ResetLeavesQuantiles` | inc/dcs/testbed/data_estimators.hpp:607-618 | a failing input: one datum, a reset, and a lower one leave a quantile above all data seen since |
| `Sorting.SortedUnique` | inc/dcs/testbed/data_estimators.hpp:1806-1815 | a bag of samples can be sorted in one way only |
| `Quantiles.NearestRankMeaning` | inc/dcs/testbed/data_estimators.hpp:1911-1917 | for 0 < p <= 1 the plain batch quantile is the least value with at least p*n samples at or below it, is itself a sample, and has fewer than p*n samples below it |
| `Quantiles.CountMeaning` | inc/dcs/testbed/data_estimators.hpp:929-991 | the counts are those of the indices at which a sample is at or below, or below, a value |
| `Quantiles.CountNearMeaning` | inc/dcs/testbed/data_estimators.hpp:929-991 | the samples within c of x are those at or below x+c without those below x-c |
| `Quantiles.ValueBetween` | inc/dcs/testbed/detail/quantile.hpp:274-295 | type-7 interpolation stays between its two order statistics |
| `Quantiles.ValueInCell` | inc/dcs/testbed/detail/quantile.hpp:274-295 | and runs along a straight line from each to the next |
| `Quantiles.ValueMonotone` | inc/dcs/testbed/detail/quantile.hpp:274-295 | the interpolated value never falls as the position rises, across cells too |
| `Quantiles.Type7Monotone` | inc/dcs/testbed/detail/quantile.hpp:259-295 | a higher probability never gives a lower type-7 quantile |
| `Quantiles.Type7AtRank` | inc/dcs/testbed/detail/quantile.hpp:259-295 | the i-th of n sorted samples is the quantile at i/(n-1), and what lies between two samples is linear in the probability |
| `Quantiles.Type7Spans` | inc/dcs/testbed/detail/quantile.hpp:300-333 | the type-7 quantile of unsorted data lies between two of the samples |
| `Estimators.PositionUnique` | inc/dcs/testbed/data_estimators.hpp:1809-1814 | the linear scan has one stopping place, before the first element not below the value |
| `Estimators.TrueQuantileEstimator.constructor` | inc/dcs/testbed/data_estimators.hpp:1791-1796 | a new exact estimator has observed nothing |
| `Estimators.TrueQuantileEstimator.Collect` | inc/dcs/testbed/data_estimators.hpp:1798-1829 | the list is always the sorted permutation of all observations since reset |
| `Estimators.TrueQuantileEstimator.InsertInOrder` | inc/dcs/testbed/data_estimators.hpp:1809-1815 | puts a value before the first element that is not below it |
| `Estimators.TrueQuantileEstimator.Estimate` | inc/dcs/testbed/data_estimators.hpp:1831-1838 | the type-7 quantile of everything observed; not a number if nothing was |
| `Estimators.TrueQuantileEstimator.Reset` | inc/dcs/testbed/data_estimators.hpp:1840-1843 | forgets the observations |
| `Estimators.ExactIgnoresOrderAndBatching` | inc/dcs/testbed/data_estimators.hpp:78-93 | two histories with the same bag of observations, in any order and any batches, give the same list, which is sorted and holds exactly them |
| `Estimators.BatchQuantileSpans` | inc/dcs/testbed/data_estimators.hpp:1905-1917 | the batch quantile, plain or extended, lies between two samples of the batch |
| `Estimators.PlainQuantileMeaning` | inc/dcs/testbed/data_estimators.hpp:1911-1917 | the plain version has at least p*n samples of the batch at or below it and fewer below it |
| `Estimators.ExtendedQuantileMeaning` | inc/dcs/testbed/data_estimators.hpp:1905-1910 | the extended version is the point at (n-1)*p among the sorted data |
| `Estimators.WelshEstimator.constructor` | inc/dcs/testbed/data_estimators.hpp:1876-1884 | a new estimator has no data and no average |
| `Estimators.WelshEstimator.Collect` | inc/dcs/testbed/data_estimators.hpp:1886-1897 | appends the batch |
| `Estimators.WelshEstimator.Estimate` | inc/dcs/testbed/data_estimators.hpp:1899-1932 | first the batch quantile, then its average with weight alpha on the old value; over every run the average stays between two observations since reset |
| `Estimators.WelshEstimator.Reset` | inc/dcs/testbed/data_estimators.hpp:1934-1939 | forgets data and average |
| `Estimators.PushKeepsLast` | inc/dcs/testbed/data_estimators.hpp:688-689 | pushing on a bounded circular buffer keeps it the last samples of the stream |
| `Estimators.WindowIsSuffix` | inc/dcs/testbed/data_estimators.hpp:711-712 | the window is an end of the stream, misses no sample collected since the last estimate, and is as long as those or the filled part of the buffer, whichever is longer |
| `Estimators.WindowQuantile` | inc/dcs/testbed/data_estimators.hpp:711-712 | the window quantile lies between two samples of the stream |
| `Estimators.ChenEwmaEstimator.constructor` | inc/dcs/testbed/data_estimators.hpp:666-677 | a new estimator has made no estimate |
| `Estimators.ChenEwmaEstimator.Collect` | inc/dcs/testbed/data_estimators.hpp:679-703 | data, buffer and observed range are always those of the stream since reset |
| `Estimators.ChenEwmaEstimator.Estimate` | inc/dcs/testbed/data_estimators.hpp:705-737 | the window quantile until the buffer has filled, then its average with the old value; always within the observed range, so the optional clamp changes nothing |
| `Estimators.ChenEwmaEstimator.Reset` | inc/dcs/testbed/data_estimators.hpp:739-747 | forgets stream, range and average |
| `ChenDensity.StepBound` | inc/dcs/testbed/data_estimators.hpp:994-996 | a step before clamping moves the estimate by at most (w/f) * max(p, 1-p) |
| `ChenDensity.StepDirection` | inc/dcs/testbed/data_estimators.hpp:994-996 | a step goes up exactly when fewer than p*M samples are at or below the estimate, and down exactly when more are |
| `ChenDensity.EwsaStart` | inc/dcs/testbed/data_estimators.hpp:846-922 | the initial densities and width are positive, whatever the quartiles |
| `ChenSteps.EwsaStartIs` | inc/dcs/testbed/data_estimators.hpp:846-922 | the first width is (1 + sum of 1/sqrt(i)) * max(iqr, 0.01) / M, and each first density that of the samples in it, at least one |
| `ChenDensity.EwsaNext` | inc/dcs/testbed/data_estimators.hpp:923-1015 | a step keeps the three densities and the width positive for 0 <= w < 1, and its move is bounded; where it goes and what it leaves is the next three rows |
| `ChenSteps.EwsaDirection` | inc/dcs/testbed/data_estimators.hpp:994-996 | a step moves the estimate up exactly when fewer than prob*M samples of the window are at or below it, and down exactly when more are; so its quartiles with 0.25 and 0.75 |
| `ChenSteps.EwsaDistance` | inc/dcs/testbed/data_estimators.hpp:994-996 | how far: density times M times the move is w times what the count misses prob*M by, for the estimate and both quartiles |
| `ChenSteps.EwsaDensities` | inc/dcs/testbed/data_estimators.hpp:997-1014 | each density is averaged, with weight w, with that of the samples within the old width of its old estimate; the new width is that of the new quartiles, from the inverse roots of M+1 to 2M |
| `ChenSteps.InverseRootsAdd` | inc/dcs/testbed/data_estimators.hpp:1008-1012 | the sums of inverse roots add up, a single one being 1/sqrt(i) |
| `ChenDensity.EwsaRun` | inc/dcs/testbed/data_estimators.hpp:923-1020 | densities and width stay positive over any number of steps, whatever clamping does |
| `ChenDensity.ChenEwsaEstimator.constructor` | inc/dcs/testbed/data_estimators.hpp:798-812 | nothing is set yet |
| `ChenDensity.ChenEwsaEstimator.Collect` | inc/dcs/testbed/data_estimators.hpp:814-838 | appends to data; the buffer is the end of what it was with the batch |
| `ChenDensity.ChenEwsaEstimator.CountWindow` | inc/dcs/testbed/data_estimators.hpp:929-991 | the counting loop counts the samples at or below a value, and those within the width of it |
| `ChenDensity.ChenEwsaEstimator.Estimate` | inc/dcs/testbed/data_estimators.hpp:840-1026 | a start until the buffer has filled and a step afterwards; every divisor is positive in every run of collect, estimate and reset |
| `ChenDensity.ChenEwsaEstimator.Reset` | inc/dcs/testbed/data_estimators.hpp:1028-1043 | nothing is set again |
| `ChenDensity.SaStart` | inc/dcs/testbed/data_estimators.hpp:1146-1225 | the initial density is positive |
| `ChenSteps.SaStartIs` | inc/dcs/testbed/data_estimators.hpp:1146-1225 | the first density is that of EWSA and the running one begins with it |
| `ChenDensity.Divisor` | inc/dcs/testbed/data_estimators.hpp:1264-1265 | the divisor of an update is positive even when the running density has vanished |
| `ChenSteps.DivisorIs` | inc/dcs/testbed/data_estimators.hpp:1264-1265 | it is the larger of the running density and the first one over sqrt(n), or the first one before any update |
| `ChenDensity.SaNext` | inc/dcs/testbed/data_estimators.hpp:1226-1270 | an update keeps the first density, counts itself, keeps the running density non-negative, and moves by at most (w_n/e_n) * max(p, 1-p) |
| `ChenSteps.SaStep` | inc/dcs/testbed/data_estimators.hpp:1226-1267 | the n-th update moves the estimate up or down exactly as fewer or more than prob*M samples are at or below it, by 1/n over the divisor times the share missed |
| `ChenSteps.SaDensity` | inc/dcs/testbed/data_estimators.hpp:1268-1269 | its density is averaged, with weight 1/n, with that of the samples within sqrt(1/n) of the estimate before the update |
| `ChenDensity.SaRun` | inc/dcs/testbed/data_estimators.hpp:1226-1275 | the same over any number of updates |
| `ChenDensity.ChenSaEstimator.constructor` | inc/dcs/testbed/data_estimators.hpp:1099-1112 | nothing is set yet |
| `ChenDensity.ChenSaEstimator.Collect` | inc/dcs/testbed/data_estimators.hpp:1114-1138 | appends to data; the buffer is the end of what it was with the batch |
| `ChenDensity.ChenSaEstimator.Estimate` | inc/dcs/testbed/data_estimators.hpp:1140-1281 | a start until the buffer has filled and an update afterwards |
| `ChenDensity.ChenSaEstimator.Reset` | inc/dcs/testbed/data_estimators.hpp:1283-1294 | nothing is set again |
| `Smoothers.BrownSingleSmoother.constructor` | inc/dcs/testbed/data_smoothers.hpp:124-129 | a new smoother waits for its first sample |
| `Smoothers.BrownSingleSmoother.Smooth` | inc/dcs/testbed/data_smoothers.hpp:141-162 | folds the batch into the level |
| `Smoothers.BrownSingleSmoother.Forecast` | inc/dcs/testbed/data_smoothers.hpp:164-169 | the level, at every horizon |
| `Smoothers.BrownSingleSmoother.Reset` | inc/dcs/testbed/data_smoothers.hpp:171-175 | back to waiting for a first sample |
| `Smoothers.SingleStaysInRange` | inc/dcs/testbed/data_smoothers.hpp:141-162 | the level never leaves the range of the samples |
| `Smoothers.SingleClosedForm` | inc/dcs/testbed/data_smoothers.hpp:141-162 | the level is the geometrically weighted history: (1-alpha)^(n-1) for the first sample, alpha*(1-alpha)^(n-1-k) for the k-th after it |
| `Smoothers.HoltWintersSmoother.FromDelta` | inc/dcs/testbed/data_smoothers.hpp:196-204 | one parameter gives alpha = 1-(1-delta)^2 and beta = delta^2/alpha |
| `Smoothers.HoltWintersSmoother.constructor` | inc/dcs/testbed/data_smoothers.hpp:206-213 | two parameters leave the trend uninitialised |
| `Smoothers.HoltWintersSmoother.Smooth` | inc/dcs/testbed/data_smoothers.hpp:215-243 | folds the batch into level and trend, the first two samples initialising them |
| `Smoothers.HoltWintersSmoother.Forecast` | inc/dcs/testbed/data_smoothers.hpp:245-248 | level plus h times trend |
| `Smoothers.HoltWintersSmoother.Reset` | inc/dcs/testbed/data_smoothers.hpp:250-254 | back to the initial state |
| `Smoothers.ReadyWithGarbage` | inc/dcs/testbed/data_smoothers.hpp:206-259 | with two parameters the smoother reports itself ready after one sample and then forecasts with the uninitialised trend |
| `Smoothers.GarbageShowsIff` | inc/dcs/testbed/data_smoothers.hpp:206-248 | its forecasts are those of an initialised one if and only if two samples were seen or zero was left in the trend |
| `Smoothers.HoltForgetsGarbage` | inc/dcs/testbed/data_smoothers.hpp:206-234 | whatever the two-parameter constructor leaves in the trend, two samples erase it |
| `Smoothers.HoltErrorForm` | inc/dcs/testbed/data_smoothers.hpp:234-239 | with any alpha and beta a step adds alpha times the forecast error to the forecast level, and alpha*beta times it to the trend |
| `Smoothers.HoltCorrection` | inc/dcs/testbed/data_smoothers.hpp:234-239 | built from delta, a step leaves as level the sample less (1-delta)^2 of the one-step forecast error, and adds delta^2 of that error to the trend |
| `Smoothers.BrownDoubleSmoother.constructor` | inc/dcs/testbed/data_smoothers.hpp:278-286 | a new smoother waits for its first sample |
| `Smoothers.BrownDoubleSmoother.Smooth` | inc/dcs/testbed/data_smoothers.hpp:288-313 | folds the batch into the two smoothed series and publishes the level and trend they stand for; no number as trend if alpha is 1 |
| `Smoothers.BrownDoubleSmoother.Forecast` | inc/dcs/testbed/data_smoothers.hpp:315-318 | level plus h times trend |
| `Smoothers.BrownDoubleSmoother.Reset` | inc/dcs/testbed/data_smoothers.hpp:320-324 | back to the initial state |
| `Smoothers.BrownCorrection` | inc/dcs/testbed/data_smoothers.hpp:302-310 | a step of the two smoothed series makes the same correction of level and trend |
| `Smoothers.AgreementIsInvariant` | inc/dcs/testbed/data_smoothers.hpp:215-313 | one more sample neither creates nor removes a disagreement between the two double smoothers |
| `Smoothers.SameMachineIff` | inc/dcs/testbed/data_smoothers.hpp:196-313 | after two or more samples the two double smoothers hold the same level and trend if and only if the first two samples are equal |
| `Smoothers.SameForecastsIff` | inc/dcs/testbed/data_smoothers.hpp:245-318 | and exactly then they forecast the same at all horizons |
| `Smoothers.BrownOnLine` | inc/dcs/testbed/data_smoothers.hpp:288-313 | on x_t = a + b*t, for every t: level = x_t - b*t*(1-alpha)^(t+1) and trend = b - b*(1-alpha)^t*(1+alpha*t) |
| `Smoothers.BrownForecastError` | inc/dcs/testbed/data_smoothers.hpp:288-318 | hence the exact error of a forecast made at any time for any horizon |
| `Smoothers.HoltOnLine` | inc/dcs/testbed/data_smoothers.hpp:196-243 | Holt-Winters built from delta, on the same line with n = t - 1, for every t >= 1: level = x_t - b*(1-delta)^n*(1-delta*n) and trend = b + b*delta^2*n*(1-delta)^(n-1) |
| `Smoothers.HoltForecastError` | inc/dcs/testbed/data_smoothers.hpp:196-248 | hence the exact error of its forecasts, for every time and horizon |
| `Smoothers.HoltNextError` | inc/dcs/testbed/data_smoothers.hpp:196-248 | one step ahead it is b*(1-delta)^(n-1)*((1-delta) - delta*n), so it changes its sign |
| `Smoothers.BrownConvergesOnLine` | inc/dcs/testbed/data_smoothers.hpp:288-313 | hence level and trend converge to the line geometrically, with ratio 1-alpha^2 |
| `Fuzzy.RampRange` | inc/dcs/testbed/anglano2016_fcms_application_manager.hpp:150-161 | a ramp is a degree, positive exactly on its open side and one exactly from its end on |
| `Fuzzy.TriangleRange` | inc/dcs/testbed/anglano2016_fcms_application_manager.hpp:174-178 | a triangle is a degree, positive exactly inside its feet and one exactly at its peak |
| `Fuzzy.RampLine` | inc/dcs/testbed/anglano2016_fcms_application_manager.hpp:150-161 | between its ends a ramp is a straight line |
| `Fuzzy.RampComplement` | inc/dcs/testbed/anglano2016_fcms_application_manager.hpp:150-161 | a falling ramp is one less the rising one |
| `Fuzzy.TriangleIsLower` | inc/dcs/testbed/anglano2016_fcms_application_manager.hpp:174-178 | a triangle is the lower of its two flanks |
| `Fuzzy.ShapeRange` | inc/dcs/testbed/anglano2016_fcms_application_manager.hpp:174-178 | the five output terms are degrees, positive exactly on their supports and one exactly in the middle of them |
| `Fuzzy.AccumulatedRange` | inc/dcs/testbed/anglano2016_fcms_application_manager.hpp:169-185 | the algebraic sum of the weighed conclusions is a degree, positive exactly where some fired conclusion is |
| `Fuzzy.AccumulatedIs` | inc/dcs/testbed/anglano2016_fcms_application_manager.hpp:169-185 | what it leaves of one is the product of what each conclusion leaves |
| `Fuzzy.AccumulatedIgnoresOrder` | inc/dcs/testbed/anglano2016_fcms_application_manager.hpp:169-185 | so the order of the rules makes no difference |
| `Fuzzy.CentroidWithin` | inc/dcs/testbed/anglano2016_fcms_application_manager.hpp:169-172 | if a sample point falls under a fired conclusion, the centroid exists and lies strictly inside all fired conclusions |
| `Fuzzy.CentroidBalances` | inc/dcs/testbed/anglano2016_fcms_application_manager.hpp:169-172 | and it is the one point about which the accumulated conclusions balance |
| `Fuzzy.DefaultPointsAdequate` | inc/dcs/testbed/anglano2016_fcms_application_manager.hpp:167-178 | 200 midpoints of [-1, 1] see every output term |
| `FcmsRules.ResidualRange` | inc/dcs/testbed/anglano2016_fcms_application_manager.hpp:150-152 | the terms of a residual are degrees, with exactly these supports and these points of full degree |
| `FcmsRules.ErrorRange` | inc/dcs/testbed/anglano2016_fcms_application_manager.hpp:159-161 | so are the terms of the error |
| `FcmsRules.FarResidual` | inc/dcs/testbed/anglano2016_fcms_application_manager.hpp:150-152 | beyond 1 and -1 the terms of a residual no longer change, so an infinite quotient has the degrees of 1 or -1 |
| `FcmsRules.FarError` | inc/dcs/testbed/anglano2016_fcms_application_manager.hpp:159-161 | nor do those of the error |
| `FcmsRules.SomeCpuRuleFires` | inc/dcs/testbed/anglano2016_fcms_application_manager.hpp:150-195 | every real (Cres, E) fires a CPU rule with positive strength |
| `FcmsRules.SomeMemRuleFires` | inc/dcs/testbed/anglano2016_fcms_application_manager.hpp:204-276 | every real (Mres, E, Cres) fires a memory rule with positive strength |
| `FcmsRules.DeltaCTotal` | inc/dcs/testbed/anglano2016_fcms_application_manager.hpp:144-196 | for every input the CPU output is a number strictly between -1 and 1 |
| `FcmsRules.DeltaMTotal` | inc/dcs/testbed/anglano2016_fcms_application_manager.hpp:198-277 | for every input the memory output is a number strictly between -1 and 1 |
| `FcmsRules.StarvedGrows` | inc/dcs/testbed/anglano2016_fcms_application_manager.hpp:187-195 | with a relative CPU residual of at most 0.10 only UP and BUP fire: the output exceeds 0.05 |
| `FcmsRules.IdleShrinks` | inc/dcs/testbed/anglano2016_fcms_application_manager.hpp:187-195 | with a residual of at least 0.40 and an error of at least 0.30 only BDW fires: the output is below -0.10 |
| `FcmsRules.StarvedCpuHoldsMemory` | inc/dcs/testbed/anglano2016_fcms_application_manager.hpp:250-276 | while the CPU is starved only STY fires for memory, whatever its residual |
| `FcmsRules.StarvedMemoryGrows` | inc/dcs/testbed/anglano2016_fcms_application_manager.hpp:250-276 | with CPU to spare, memory nearly used up and performance missed, the memory output exceeds 0.05 |
| `FcmsRules.IdleMemoryShrinks` | inc/dcs/testbed/anglano2016_fcms_application_manager.hpp:250-276 | with both residuals high and performance met, the memory output is below -0.10 |
| `FcmsLaws.CpuConjunction` | inc/dcs/testbed/anglano2016_fcms_application_manager.hpp:187-195 | each of the nine CPU rules holds as much as the weaker of its two premises |
| `FcmsLaws.MemConjunction` | inc/dcs/testbed/anglano2016_fcms_application_manager.hpp:250-276 | each of the 27 memory rules as much as the weakest of its three |
| `FcmsLaws.CpuTable` | inc/dcs/testbed/anglano2016_fcms_application_manager.hpp:187-195 | all nine CPU rules where each fires alone: the output lies strictly inside the conclusion of that rule, in numbers |
| `FcmsLaws.MemTableCpuFine` | inc/dcs/testbed/anglano2016_fcms_application_manager.hpp:250-276 | the nine memory rules with CPU residual FINE, likewise |
| `FcmsLaws.MemTableCpuHigh` | inc/dcs/testbed/anglano2016_fcms_application_manager.hpp:250-276 | and the nine with CPU residual HIGH |
| `FcmsRules.CpuTableAntitone` | inc/dcs/testbed/anglano2016_fcms_application_manager.hpp:187-195 | in the CPU table a larger residual or a better performance never asks for more |
| `FcmsRules.MemTableAntitoneIff` | inc/dcs/testbed/anglano2016_fcms_application_manager.hpp:250-276 | in the memory table a larger residual never asks for more; a better performance does in exactly one place, memory LOW and CPU FINE from OK to POS |
| `FcmsShares.BoundsOrdered` | inc/dcs/testbed/anglano2016_fcms_application_manager.hpp:621-624 | at each clamp the lower bound is at most the upper one |
| `FcmsShares.UnroundedIsClamp` | inc/dcs/testbed/anglano2016_fcms_application_manager.hpp:621-631 | clamping the relative change is clamping the share between 1.1 times the utilisation, at most 1, and 1 |
| `FcmsShares.ComputedShare` | inc/dcs/testbed/anglano2016_fcms_application_manager.hpp:621-634 | a computed share is a multiple of 0.01 in (0, 1], at least min(1, 1.1*utilisation), and less than 0.01 above the unrounded share |
| `FcmsShares.ComputedMonotone` | inc/dcs/testbed/anglano2016_fcms_application_manager.hpp:621-634 | it never falls when the fuzzy output or the utilisation rises |
| `FcmsShares.NextShare` | inc/dcs/testbed/anglano2016_fcms_application_manager.hpp:638-650 | whether set or kept, the share stays in (0, 1], is within 1% of the computed one, and 1.01 times it covers min(1, 1.1*utilisation); it is kept if and only if the computed one is within 1% of it |
| `FcmsShares.FullIff` | inc/dcs/testbed/anglano2016_fcms_application_manager.hpp:638-650 | a share counts as the whole machine exactly from 100/101 on |
| `FcmsShares.GrowthStep` | inc/dcs/testbed/anglano2016_fcms_application_manager.hpp:621-650 | an output above 0.05 moves the share at least one 1% cell up, or finds it equal to 1 up to the tolerance, and it stays so |
| `Fcms.CpuNextShare` | inc/dcs/testbed/anglano2016_fcms_application_manager.hpp:613-650 | a CPU decision keeps a share in (0, 1] that covers its load up to the tolerance, so no later division is by zero |
| `Fcms.MemNextShare` | inc/dcs/testbed/anglano2016_fcms_application_manager.hpp:652-693 | so does a memory decision, made with regard to the new CPU share |
| `Fcms.VmNextValid` | inc/dcs/testbed/anglano2016_fcms_application_manager.hpp:601-713 | also when the engine throws before or between the two decisions |
| `Fcms.FcmsManager.constructor` | inc/dcs/testbed/anglano2016_fcms_application_manager.hpp:104-113 | a new manager has made no control |
| `Fcms.FcmsManager.Reset` | inc/dcs/testbed/anglano2016_fcms_application_manager.hpp:317-320 | the counters start again |
| `Fcms.FcmsManager.ReadTargets` | inc/dcs/testbed/anglano2016_fcms_application_manager.hpp:548-585 | control is skipped if and only if some target has no observations; otherwise the error is that of the last target, whose sign and size `TargetErrorMeaning` gives, and not a number if there is none |
| `Fcms.FcmsManager.DecideCpu` | inc/dcs/testbed/anglano2016_fcms_application_manager.hpp:613-650 | sets the CPU share of one machine to the specified one and changes nothing else |
| `Fcms.FcmsManager.DecideMem` | inc/dcs/testbed/anglano2016_fcms_application_manager.hpp:652-693 | sets the memory share of one machine, reading the CPU share just set |
| `Fcms.FcmsManager.DecideMachine` | inc/dcs/testbed/anglano2016_fcms_application_manager.hpp:601-694 | both decisions of one machine, as far as the engine gets |
| `Fcms.FcmsManager.DecideAll` | inc/dcs/testbed/anglano2016_fcms_application_manager.hpp:598-713 | machine by machine; what precedes a failure stays applied and what follows is untouched |
| `Fcms.FcmsManager.Control` | inc/dcs/testbed/anglano2016_fcms_application_manager.hpp:484-732 | skips in the first five calls or without observations, changing no share, nor does it without any target; counts every call as skipped, failed or applied; all shares stay in (0, 1]; what it decides for a missed or a beaten target is below |
| `Fcms.FleetRun` | inc/dcs/testbed/anglano2016_fcms_application_manager.hpp:595-732 | over every run of controls, skipped, applied or cut short, all shares stay in (0, 1] |
| `Fcms.AppliedCoversLoad` | inc/dcs/testbed/anglano2016_fcms_application_manager.hpp:601-694 | an applied control gives every machine what its load calls for, up to the tolerance |
| `Fcms.StarvedStep` | inc/dcs/testbed/anglano2016_fcms_application_manager.hpp:613-650 | a machine that uses nine tenths of its CPU share climbs at least one 1% cell, or is full |
| `Fcms.StarvedClimbs` | inc/dcs/testbed/anglano2016_fcms_application_manager.hpp:601-650 | k starved controls in a row climb at least k cells unless the share is full by then |
| `Fcms.HundredControlsSuffice` | inc/dcs/testbed/anglano2016_fcms_application_manager.hpp:601-650 | a hundred starved controls in a row give a machine the whole CPU up to the tolerance, whatever the errors |
| `Fcms.MemoryStep` | inc/dcs/testbed/anglano2016_fcms_application_manager.hpp:652-693 | the memory decision depends on the new CPU share: with a quarter of it to spare, memory nearly used up and performance missed, memory climbs a cell |
| `FcmsLaws.TargetErrorMeaning` | inc/dcs/testbed/anglano2016_fcms_application_manager.hpp:556-575 | the error times the reference is the reference less the response time, or the throughput less the reference; it is negative exactly when the target is missed, and at least 0.30 exactly when it is beaten by 30% |
| `FcmsLaws.ZeroReference` | inc/dcs/testbed/anglano2016_fcms_application_manager.hpp:556-575 | with a reference of zero it is infinite with the sign of the difference, or not a number |
| `FcmsLaws.MissedTargetGivesMemory` | inc/dcs/testbed/anglano2016_fcms_application_manager.hpp:548-694 | if the last target is missed, on a machine that uses at most 60% of its CPU share and 90% of its memory share, memory climbs a cell or is full |
| `FcmsLaws.MissedTargetGivesCpu` | inc/dcs/testbed/anglano2016_fcms_application_manager.hpp:548-650 | if it is missed with exactly three quarters of the CPU share in use, that share climbs a cell or is full |
| `FcmsLaws.BeatenTargetTakesCpu` | inc/dcs/testbed/anglano2016_fcms_application_manager.hpp:548-650 | if it is beaten by 30% with at most 60% of a CPU share of 0.12 or more in use, that share falls below 0.9 of it plus the rounding |
| `FcmsLaws.FaultCutsOff` | inc/dcs/testbed/anglano2016_fcms_application_manager.hpp:601-713 | an engine that throws at a given call leaves each share as a whole control would have left it, or as it was, as the call for it comes before or not |
| `Fc2q.SomeRuleFires` | inc/dcs/testbed/anglano2014_fc2q_application_manager.hpp:136-180 | every gain but 0.30 fires a rule, whatever the residual |
| `Fc2q.OutputIff` | inc/dcs/testbed/anglano2014_fc2q_application_manager.hpp:136-181 | the output is a number if and only if the gain is not exactly 0.30, the gap between FINE and HIGH; then it lies strictly between -1 and 1 |
| `Fc2q.IdleLoses` | inc/dcs/testbed/anglano2014_fc2q_application_manager.hpp:172-180 | an idle machine of an application that does well is to lose more than a tenth of the host |
| `Fc2qLaws.Conjunction` | inc/dcs/testbed/anglano2014_fc2q_application_manager.hpp:136-180 | each of the nine rules holds as much as the weaker of its two premises |
| `Fc2qLaws.RuleTable` | inc/dcs/testbed/anglano2014_fc2q_application_manager.hpp:136-180 | all nine rules where each fires alone: the output lies strictly inside the conclusion of that rule, in numbers |
| `Fc2q.ApplyIsClamp` | inc/dcs/testbed/anglano2014_fc2q_application_manager.hpp:482-545 | the new share is the old one plus the output, between 1.1 times the utilisation and 1 |
| `Fc2q.FarInputs` | inc/dcs/testbed/anglano2014_fc2q_application_manager.hpp:136-147 | infinite inputs have the degrees of 1 or -1 |
| `Fc2q.StaysPositiveIff` | inc/dcs/testbed/anglano2014_fc2q_application_manager.hpp:482-545 | for any output, the share can be divided by at the next control if and only if the machine is used or the output does not take all it has |
| `Fc2q.FarOutput` | inc/dcs/testbed/anglano2014_fc2q_application_manager.hpp:136-181 | from a residual of 1 on, the output depends on the gain alone |
| `Fc2q.UnusedStaysPositiveIff` | inc/dcs/testbed/anglano2014_fc2q_application_manager.hpp:477-545 | the share of an unused machine stays in (0, 1] if and only if the share and the output for the gain at residual 1, if there is one, are together positive |
| `Fc2q.NextInUnit` | inc/dcs/testbed/anglano2014_fc2q_application_manager.hpp:477-545 | a share never leaves [0, 1], whatever the inputs |
| `Fc2q.UsedStaysPositive` | inc/dcs/testbed/anglano2014_fc2q_application_manager.hpp:477-545 | the share of a machine in use stays in (0, 1] at every gain |
| `Fc2q.UnusedMachineReachesZero` | inc/dcs/testbed/anglano2014_fc2q_application_manager.hpp:477-545 | that of an unused machine with a tenth of the host or less becomes zero whenever the gain exceeds 0.30 |
| `Fc2q.ZeroIsLeftIff` | inc/dcs/testbed/anglano2014_fc2q_application_manager.hpp:477-545 | a zero share is left again if and only if the machine is in use and the gain is not 0.30 |
| `Fc2qLaws.MissedTargetGivesShare` | inc/dcs/testbed/anglano2014_fc2q_application_manager.hpp:417-545 | a missed target gives a machine that uses 90% of its share, of at most 0.9, at least a tenth of the host more |
| `Fc2qLaws.BeatenTargetTakesShare` | inc/dcs/testbed/anglano2014_fc2q_application_manager.hpp:417-545 | a target beaten by more than 30% takes from a machine that uses at most 60% of its share a tenth of the host, or a third of the share |
| `Fc2q.RunKeepsShares` | inc/dcs/testbed/anglano2014_fc2q_application_manager.hpp:464-547 | over every run all shares stay in [0, 1]; with all machines in use they stay in (0, 1], so no control divides by zero |
| `Fc2q.Fc2qManager.constructor` | inc/dcs/testbed/anglano2014_fc2q_application_manager.hpp:100-108 | a new manager has made no control |
| `Fc2q.Fc2qManager.Reset` | inc/dcs/testbed/anglano2014_fc2q_application_manager.hpp:213-216 | the counters start again |
| `Fc2q.Fc2qManager.ReadGains` | inc/dcs/testbed/anglano2014_fc2q_application_manager.hpp:417-454 | skip if and only if some target has no observations; otherwise one gain per target, with the sign and size of `TargetErrorMeaning` |
| `Fc2q.Fc2qManager.ComputeDeltas` | inc/dcs/testbed/anglano2014_fc2q_application_manager.hpp:474-518 | computes all changes and sets no share; fails as soon as the engine throws |
| `Fc2q.Fc2qManager.ApplyDeltas` | inc/dcs/testbed/anglano2014_fc2q_application_manager.hpp:521-546 | applies every change to its own machine |
| `Fc2q.Fc2qManager.Control` | inc/dcs/testbed/anglano2014_fc2q_application_manager.hpp:364-560 | all or nothing: skipped, failed or left by an exception, no share changes; no share changes in the first five calls; every call is counted once, and with one target none is left by an exception; with every machine in use all shares stay in (0, 1] |
| `Connections.RunKnown` | src/netsnif.cpp:1469-1640 | no stored connection is ever of unknown status |
| `Connections.StoredAfterCall` | src/netsnif.cpp:1469-1640 | what each of the four manager calls leaves of the record it names, and that it leaves all others alone |
| `Connections.CountsAddUp` | src/netsnif.cpp:1358-1389 | after every sequence of manager calls the three per-status counts of a server add up to its stored clients |
| `Connections.ClosingsConserved` | src/netsnif.cpp:1585-1640 | every connection ever closed is stored closed now, was opened again, or was erased |
| `DataStores.RamDataStore.constructor` | src/netsnif.cpp:1224-1226 | a new store is empty |
| `DataStores.RamDataStore.Clear` | src/netsnif.cpp:1238-1245 | empties records and counters |
| `DataStores.RamDataStore.Load` | src/netsnif.cpp:1247-1274 | the stored status, or unknown |
| `DataStores.RamDataStore.Save` | src/netsnif.cpp:1276-1303 | stores the record; a new client is an arrival, and overwriting a closed record books a departure |
| `DataStores.RamDataStore.Erase` | src/netsnif.cpp:1305-1323 | removes the record and books nothing |
| `DataStores.RamDataStore.NumConnectionsWith` | src/netsnif.cpp:1358-1389 | the loop counts the clients of a server with that status |
| `DataStores.RamDataStore.NumConnections` | src/netsnif.cpp:1391-1410 | arrivals minus departures, modulo 2^64 |
| `DataStores.MysqlDataStore.constructor` | src/netsnif.cpp:672-674 | the tables are those the server already has |
| `DataStores.MysqlDataStore.Clear` | src/netsnif.cpp:760-794 | empties both tables |
| `DataStores.MysqlDataStore.Load` | src/netsnif.cpp:796-862 | the status in the matching row, or unknown without one |
| `DataStores.MysqlDataStore.Save` | src/netsnif.cpp:864-943 | replaces the row; saving a closed status books a departure, otherwise a new row books an arrival |
| `DataStores.MysqlDataStore.Erase` | src/netsnif.cpp:945-1003 | deletes the row and books nothing |
| `DataStores.MysqlDataStore.NumConnectionsWith` | src/netsnif.cpp:1068-1123 | the number of rows of a server with that status is the number of its clients with that status |
| `DataStores.MysqlDataStore.NumConnections` | src/netsnif.cpp:1125-1160 | the difference of the two counters, or a failed query when it is negative |
| `DataStores.StoresRefineEntries` | src/netsnif.cpp:796-1323 | on every sequence of manager calls the nested RAM map and the flat table both hold the abstract status map |
| `DataStores.StoresAgree` | src/netsnif.cpp:1068-1389 | hence both load the same status and give the same per-status counts |
| `DataStores.RamConservation` | src/netsnif.cpp:1276-1323 | RAM store, every run since clear: arrivals = clients stored now + stored clients ever erased; departures = closed records opened again |
| `DataStores.SqlConservation` | src/netsnif.cpp:864-1003 | MySQL store: arrivals likewise, but departures = connections closed |
| `DataStores.Balances` | src/netsnif.cpp:1125-1410 | by how much arrivals minus departures misses the number of live connections, for each store, and by how much the two stores differ |
| `DataStores.RamLifetime` | src/netsnif.cpp:1276-1303 | one lifetime (SYN, data, FIN-ACK) of a new or closed client, on the two RAM counters |
| `DataStores.BalanceIsLiveIff` | src/netsnif.cpp:1125-1410 | exactly when arrivals minus departures is the number of live connections: RAM, if as many closed records were opened again as are stored closed or were erased; MySQL, as were erased unclosed |
| `DataStores.SqlFailsIff` | src/netsnif.cpp:864-1160 | the MySQL count fails if and only if more closed records were opened again than are live or were erased unclosed |
| `DataStores.SqlFailsFirst` | src/netsnif.cpp:864-1410 | it fails whenever the RAM count wraps around |
| `DataStores.SqlLifetime` | src/netsnif.cpp:864-943 | one lifetime of a new or closed client, on the two MySQL counters |
| `DataStores.ReconnectingOnceFailsSql` | src/netsnif.cpp:864-1160 | a failing input: one client that reconnects once from the same port and is closed again |
| `ConnectionTracker.ReconnectingClientFailsSql` | src/netsnif.cpp:2002-2107 | the same as six packets |
| `DataStores.RamWrapsIff` | src/netsnif.cpp:1276-1410 | the RAM count wraps around if and only if more closed records were opened again than there are records stored or ever erased |
| `DataStores.ReconnectingTwice` | src/netsnif.cpp:1276-1410 | as happens to a client that reconnects twice from the same port: 2^64-1 connections are reported |
| `DataStores.RamBalanceCanGoNegative` | src/netsnif.cpp:1391-1410 | so for every server and client some run of manager calls wraps the count |
| `ConnectionTracker.NetworkConnectionManager.constructor` | src/netsnif.cpp:1460-1467 | the manager works on the given store |
| `ConnectionTracker.NetworkConnectionManager.Load` | src/netsnif.cpp:1482-1485 | the record in the store |
| `ConnectionTracker.NetworkConnectionManager.Save` | src/netsnif.cpp:1490-1490 | the store with the record saved |
| `ConnectionTracker.NetworkConnectionManager.Erase` | src/netsnif.cpp:1546-1546 | the store with the record erased |
| `ConnectionTracker.NetworkConnectionManager.BeginConnectionEstablishment` | src/netsnif.cpp:1469-1512 | the client waits, whatever it did before |
| `ConnectionTracker.NetworkConnectionManager.EndConnectionEstablishment` | src/netsnif.cpp:1514-1569 | a waiting client becomes active; any other is erased as garbage |
| `ConnectionTracker.NetworkConnectionManager.BeginConnectionTermination` | src/netsnif.cpp:1571-1583 | changes nothing |
| `ConnectionTracker.NetworkConnectionManager.EndConnectionTermination` | src/netsnif.cpp:1585-1640 | an active client becomes closed; any other is erased as garbage |
| `ConnectionTracker.NetworkConnectionManager.ConnectionStatus` | src/netsnif.cpp:1642-1653 | the status in the store |
| `ConnectionTracker.PacketAnalyzer.constructor` | src/netsnif.cpp:1916-1927 | the analyzer watches one server |
| `ConnectionTracker.PacketAnalyzer.Process` | src/netsnif.cpp:1978-2109 | one packet leads to the specified manager call, if any, with the effect that `StoredStep` states; it throws exactly if it is not IPv4 |
| `ConnectionTracker.PacketAnalyzer.ProcessAll` | src/netsnif.cpp:1943-2110 | the packets of the queue, one after the other |
| `ConnectionTracker.EstablishmentIsAwaited` | src/netsnif.cpp:2016-2024 | on every trace, whenever the analyzer ends an establishment the stored record waits: the garbage branch of establishment is never reached |
| `ConnectionTracker.StoredStep` | src/netsnif.cpp:2002-2107 | on every trace and from any store, in packet fields: a SYN of the client to the server makes its record wait; data from the server make a waiting one active; a FIN-ACK without payload from the server closes an active one and erases any other; every other packet leaves it alone |
| `ConnectionTracker.ErasedIff` | src/netsnif.cpp:2032-2058 | on every trace and in either store, a packet erases a stored record if and only if it is a FIN-ACK without payload to that client, whose own packets so far leave it waiting or closed |
| `ConnectionTracker.ReconnectingClientWraps` | src/netsnif.cpp:2002-2107 | seven packets of one client drive the RAM store to report 2^64-1 connections |
| `ConnectionTracker.VerdictStep` | src/netsnif.cpp:1469-1640 | the verdict on a history of signals moves as the automaton does |
| `ConnectionTracker.StatusIsOwnVerdict` | src/netsnif.cpp:2002-2107 | for every trace over any number of clients, a client's status is determined by its own packets since its last SYN: wait if nothing followed, active if data and no FIN-ACK, closed if data came first and exactly one FIN-ACK followed, not stored otherwise |
| `ConnectionTracker.StatusIgnoresOthers` | src/netsnif.cpp:2002-2107 | packets of other clients, and the choice of store, make no difference |
| `ConnectionTracker.OnlyOwnServer` | src/netsnif.cpp:2002-2107 | no record of another server is ever created |
| `ConnectionTracker.TraceIsRun` | src/netsnif.cpp:2002-2107 | a trace drives both stores through the same manager calls, so all laws of manager runs hold of traces |
| `PacketPipeline.AcceptOnlyAccepted` | src/netsnif.cpp:1778-1817 | exactly the IPv4/TCP packets reach the queue, each as often as it was captured |
| `PacketPipeline.AcceptConcat` | src/netsnif.cpp:1778-1817 | and in the order of capture |
| `PacketPipeline.CaptureKeepsInv` | src/netsnif.cpp:1767-1821 | a capture keeps processed, held and queued packets equal to the accepted ones, in order |
| `PacketPipeline.AnalyzerKeepsInv` | src/netsnif.cpp:1941-2114 | so does every step of the analyzer; the drain pass and the IPv6 exception are never reached |
| `PacketPipeline.StepKeepsInv` | src/netsnif.cpp:1767-2115 | so does every step of either thread |
| `PacketPipeline.RunKeepsInv` | src/netsnif.cpp:1767-2115 | in every interleaving, at every moment: processed packets, then the one in hand, then the queue, are the accepted captures in order; the exception is unreachable |
| `PacketPipeline.StatusReflectsPrefix` | src/netsnif.cpp:1929-2115 | at every moment a client's status is the verdict on its own packets within a prefix of the accepted captures |
| `PacketPipeline.RunAfterDone` | src/netsnif.cpp:1941-2114 | once the sniffer has ended, what will be left unprocessed is settled, and the analyzer takes at most five more steps |
| `PacketPipeline.RestIsLeft` | src/netsnif.cpp:1941-2114 | the moment the sniffer ends decides: an analyzer waiting in the queue takes one more packet and any other none, so all accepted packets are processed if and only if nothing more is queued then |
| `PacketPipeline.WaitsForGood` | src/netsnif.cpp:1943-1948 | if it waits on an empty queue then, neither thread ever takes another step |
| `PacketPipeline.PacketsCanBeLeft` | src/netsnif.cpp:1941-2114 | some run does end with an accepted packet in the queue |
| `PacketPipeline.StuckIff` | src/netsnif.cpp:1941-2114 | a run can go no further if and only if the sniffer has ended and the analyzer has exited or waits on an empty queue |
| `PacketPipeline.AnalyzerCanHang` | src/netsnif.cpp:1943-1948 | such a wait is reachable |
| `Experiment.RestoreUndoesSave` | inc/dcs/testbed/application_experiment.hpp:459-519 | restoring undoes saving: shares and stacks as before, whatever was on the stacks and whatever became of the shares in between |
| `Experiment.PushedAt` | inc/dcs/testbed/application_experiment.hpp:459-488 | every machine gets its CPU share and then its memory share on its own stack; no other stack changes |
| `Experiment.TopIs` | inc/dcs/testbed/application_experiment.hpp:501-518 | restoring takes the top as memory share and the one below as CPU share |
| `Experiment.AppState.constructor` | inc/dcs/testbed/application_experiment.hpp:219-240 | a new experiment has saved nothing |
| `Experiment.AppState.Save` | inc/dcs/testbed/application_experiment.hpp:459-488 | pushes the CPU and then the memory share of every machine, if restoring is on during a run; touches no other stack |
| `Experiment.AppState.PushShares` | inc/dcs/testbed/application_experiment.hpp:485-486 | two pushes on one stack |
| `Experiment.AppState.Restore` | inc/dcs/testbed/application_experiment.hpp:490-519 | pops the memory and then the CPU share of every machine that has a stack, if restoring is on during a run |
| `Experiment.AppState.RestoreAll` | inc/dcs/testbed/application_experiment.hpp:501-518 | machine by machine; no machine's stack is disturbed by another's |
| `Experiment.AppState.RestoreMachine` | inc/dcs/testbed/application_experiment.hpp:511-517 | two pops from one stack |
| `Experiment.AppState.Conclude` | inc/dcs/testbed/application_experiment.hpp:417-426 | restores what the run saved, whatever the machines became, or leaves all as it is |
| `Experiment.AppState.Run` | inc/dcs/testbed/application_experiment.hpp:352-427 | with restoring on, shares and stacks end as they began, whatever the controls did; with it off, the last control stays |
| `Experiment.StepKeepsInv` | inc/dcs/testbed/application_experiment.hpp:64-128 | every step of the three threads keeps mutual exclusion, the saved pairs on the stacks, and no manager thread after the join |
| `Experiment.ExecutionKeepsInv` | inc/dcs/testbed/application_experiment.hpp:352-427 | so does every interleaving |
| `Experiment.FinishedIsRestored` | inc/dcs/testbed/application_experiment.hpp:393-427 | in every interleaving a finished run has every share and every stack as at entry, and no thread that could change them afterwards |
| `Experiment.WithoutRestoring` | inc/dcs/testbed/application_experiment.hpp:461-464 | with restoring off the stacks are never touched |
| `Experiment.RestoreNeverBlocks` | inc/dcs/testbed/application_experiment.hpp:417-422 | when restoring begins, its saved pair is on every stack |

## Left out

Numbers and libraries:
- Floating-point rounding, infinities and overflow, and the overflow of counters.  "Not a number" is the value `NaN` where a branch depends on it; a quotient by zero that reaches a fuzzy engine is `Ratio`.
- fuzzylite is not part of this model: ramps, triangles, minimum, product, algebraic sum and centroid are modelled by their usual definitions, and an input that is not a number fires no rule.  The centroid is a weighted average over sample points of which only `Adequate` is assumed, namely that every output term has one strictly inside; the default 200 midpoints satisfy it.
- `dcs::math::clamp` and `essentially_equal` are not part of this model: the first is taken to give the nearest point of the interval and to pass on what is not a number, the second to compare with the tolerance relative to the smaller magnitude.  Its default tolerance, used by FC2Q, is a parameter in [0, 1).

Estimators:
- Chambers.ChambersEstimator.constructor: only the default size of 251, since `do_estimate` writes at fixed indices up to 250; the running minimum and maximum, which `update` overwrites before they are read, are not kept.
- ChambersReset.ResetHarmlessIff: for batches with ties, only as long as the second target asks for no more data than the first, which bounds the size of the batch by the inverse of the grid's second probability; and for batches that a new agent's own zeros do not disturb (`FirstBatchAsFirstIff` says which, within the same limit on ties).
- ChambersReset.ResetRemembers: agents with one estimate before the reset; for any others, `ResetAfterRunIff` gives the condition.
- MergeOrder.OrderedIff: for stored quantiles that are in order; the half of its condition about the top of the batch is decided on the inputs in the cases named above only; rank accuracy is not claimed.
- Estimators.WelshEstimator.constructor: probability 0 in the plain version, which reads before the first sample.
- ChenDensity.EwsaStart: the quartiles that start it are arbitrary, because the multi-probability `detail::quantile` can read outside its vector.
- ChenDensity.SaStart: the same.
- ChenDensity.ChenEwsaEstimator.Estimate: the same, and the optional clamp is an arbitrary function of the estimate, because its bounds start as not a number; of the square root only positivity is assumed; rank accuracy is not claimed.
- ChenDensity.ChenSaEstimator.Estimate: the same.
- The recursive, Bakshi LORA, P-square, t-digest and Boost estimators.

Smoothers:
- Smoothers.HoltWintersSmoother.FromDelta: delta 0 and 2, with which beta is not a number or infinite.

Controllers:
- Fcms.FcmsManager.Control: reading sensors and smoothing utilisations, which are arguments here; data files.
- Fc2q.Fc2qManager.Control: the same.
- VirtualMachines.VirtualMachine: a share that takes effect later or differently from what was set.
- The other controllers: the same step with other constants and rule tables.

Connection tracker:
- DataStores.MysqlDataStore.Save: the server itself.  A REPLACE is taken to report one row when it inserts and two when it replaces, and a negative difference of unsigned columns to fail the query; connections, transactions, escaping, errors and time stamps are not modelled.
- DataStores.SqlConservation: runs begin with empty tables, as after `clear`.
- DataStores.RamDataStore.Save: identifiers are MD5 digests in the source; they are taken to be injective, so endpoints are the keys.  Each operation is atomic, as under its mutex.
- PacketPipeline.RunKeepsInv: the blocking queues only, not the lock-free ones.
- The SQLite store, packet decoding, host-name lookup, and the capture device's own filter.

Experiment:
- Experiment.AppState.Manage: what samplers and controllers do to the machines is arbitrary; what they do to their own state is not modelled.
- Experiment.AppState.Run: exceptions thrown by the driver or a manager thread, the driver's own start and stop, the start and stop signals, machines with equal identifiers, and the restoring that the destructor attempts; `running_`, which the source leaves uninitialised, starts false.  The interleaving of its threads is the subject of `FinishedIsRestored`.

Everything else: CSV export, logging, the command line, libvirt, RAIN and YCSB, the workload generator, and the Python tools.
