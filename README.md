# TEDA anomaly detectors of the telelogger firmware, in Dafny

This project models the two online anomaly detectors of the telelogger
firmware and proves properties of them.

- **TEDA** (`firmware_v5/telelogger/teda.h`) is a scalar streaming detector.
  It keeps a count `k`, a running `mean` and `variance`, the last value and a
  step counter `tempo`. Each `run(x)` folds `x` in and answers 1 (outlier) or
  0 (inlier). It takes one of three branches: the first value since
  construction or reset, a repeat on a zero-variance stream, or the active
  eccentricity test against `(m^2 + 1) / (2k)`.
- **TEDACloud** (`figures/firmware_v5/telelogger/k_fix.h`) is a multivariate
  detector over a small list of data clouds. Each `DataCloud` keeps a count,
  the indices of its observations, a mean vector and a scalar variance. The
  first three calls of `runOnline` each create one cloud. Every later call
  tests the first `numCloud` clouds with the eccentricity membership test and
  commits every cloud that passes. If none passes and the caller flags the
  observation as an outlier, the cloud with the largest normalised
  typicality is reinitialised on the observation.

Every `float`/`double` is a Dafny `real`. Integers are unbounded.

Files:

- `real_arith.dfy` (module `RealArith`): squares and absolute value.
- `teda.dfy` (module `Teda`): the statistics of `teda.h` as functions of the
  fields they read, and class `TEDA` with `ResetWindow` and `Run`.
- `index_lists.dfy` (module `IndexLists`): the sorted, duplicate-free index
  lists that `addPoints` leaves behind.
- `cloud_math.dfy` (modules `CloudMath`, `CloudFacts`): the clouds as values.
  It holds the candidate statistics, the test of one cloud, the running
  choice of the `runOnline` loop, and `SteadyStep`, which is one steady-state
  call on all clouds. `CloudFacts` holds the lemmas about a steady-state
  call.
- `data_cloud.dfy` (module `DataClouds`): class `DataCloud`, with methods that
  update its fields in place.
- `teda_cloud.dfy` (module `TedaClouds`): class `TEDACloud` and the loop of
  `runOnline` over the cloud objects. `RunOnline`, `SteadyState`,
  `UpdateClouds` and `ScanClouds` are proved against `SteadyStep`. The
  other methods are proved against these specifications:
  - `CreateCloud` against `NewCloud`, and `DeleteCloud` against `IndexOfPoints`.
  - `Evaluate` against `VerdictOf` and `VerdictFrom`.
  - `TestCloud` against `VerdictOf`, `ScanStep` and `Commit`.
  - `ForceOutlier` against `Reinitialise`.
  - `GetCloud` returns the stored reference.

### How a steady-state call behaves

- Every cloud that passes the membership test is committed, not only the
  first one (k_fix.h:215-222). The call returns the highest passing index.
- When no cloud passes, the running choice moves on `>=` (k_fix.h:223), so
  among equal typicalities the later index is chosen.
- A rejected observation that is not flagged as an outlier changes no
  cloud, because the block at k_fix.h:232-253 is commented out. The call
  still returns the index of the most typical cloud.
- In the forced-outlier case, the code reinitialises the FIRST index that
  maximises `alfa` (`std::max_element`, k_fix.h:257). It still returns the
  loop's choice, which is the LAST such index. On ties the returned index
  names a cloud that did not change (`ForcedOutlierOnTiesReturnsAnotherCloud`).
- The membership test at k_fix.h:213 is equivalent to
  `||x - testMean||^2 <= m^2 * testVar`; the count `test_n` cancels out
  (`MembershipChebyshev`). The bound `(m^2+1)/(2 test_n)` shrinks as a cloud
  grows, but the eccentricity shrinks by the same factor.
- A one-member cloud with zero variance sees an eccentricity of exactly 3/2
  for any observation off its mean. With `m = 3` it therefore accepts every
  such observation. So after the observations `[0]`, `[100]`, `[200]`, the
  observation `[1]` joins all three clouds and the call returns 2
  (`SeparatedCloudsAllAccept`).

### Preconditions the code leaves to its callers

- A steady-state call of `runOnline` requires `1 <= numCloud <= |clouds|`.
  `getCloud(i)` indexes the list unchecked.
- It also requires each tested cloud's mean to have the dimension of the
  observation. The loops index the observation by the mean's length.
- It also requires each tested cloud's candidate variance to be positive.
  k_fix.h:204 divides by it. That divisor is zero, for example, when a
  one-member cloud receives exactly its own mean.

The branch at k_fix.h:269 is dead on every input. It is reached only with
`isOutlier` set and `nothingCloud` false, so some cloud passed, and then
`chosenCloud` is that cloud's index, not -1. The branch at k_fix.h:281 needs
`chosenCloud == -1` after the loop. That happens when `numCloud <= 0`, or
over floats when every typicality is NaN. Under the preconditions above,
neither branch is reached. The model has a single `assert false` for
them.

## Model

| member | source | states |
|---|---|---|
| `Teda.TEDA.constructor` | firmware_v5/telelogger/teda.h:10-23 | a new detector has `k = 1`, mean and variance 0, `tempo = 0` and the given threshold |
| `Teda.TEDA.ResetWindow` | firmware_v5/telelogger/teda.h:25-32 | sets `k = 1`, variance 0, mean 0, window count 0 and last value `x`; `tempo`, `m` and the eccentricity fields are untouched |
| `Teda.CalcMean` | firmware_v5/telelogger/teda.h:33-39 | the new mean is the Welford step `mean + (x - mean)/k`; for `k > 1` it equals `x` exactly when the old mean did |
| `Teda.MeanTracksAverage` | firmware_v5/telelogger/teda.h:33-39 | folding `x` into the average of `s` with count `|s|+1` gives the average of `s + [x]` |
| `Teda.CalcVariance` | firmware_v5/telelogger/teda.h:40-47 | for `k > 1` and a non-negative variance the result is non-negative, and zero exactly when the old variance was zero and `x` equals the (already updated) mean |
| `Teda.CalcEccentricity` | firmware_v5/telelogger/teda.h:48-63 | zero when `x` sits on the mean; above `1/k` for a positive variance otherwise |
| `Teda.AverageOfConstant` | firmware_v5/telelogger/teda.h:81-89 | the running average of a constant stream is that constant |
| `Teda.OutlierThreshold` | firmware_v5/telelogger/teda.h:98 | the outlier threshold `(m^2+1)/(2k)` is positive for a positive count |
| `Teda.TEDA.Run` | firmware_v5/telelogger/teda.h:64-113 | every branch advances `tempo` and `k` by one and records `x`; the result is 0 or 1; the mean is the average of the values since construction or reset; the first branch answers 1 exactly when no `run` came before (`tempo` was 0), even after a reset; the repeat branch answers 0 and keeps mean `x`, variance 0; the active branch keeps a positive variance off the mean and answers 1 iff `ecc/2 > (m^2+1)/(2k)` with the old `k` |
| `Teda.ConstantStream` | firmware_v5/telelogger/teda.h:70-89 | on a fresh detector a constant stream is flagged on the first value and not on the next two |
| `Teda.ResetThenRun` | firmware_v5/telelogger/teda.h:25-32 | after at least one `run`, the first value after a reset is not flagged, because the reset leaves `tempo` non-zero |
| `Teda.ResetBeforeFirstRun` | firmware_v5/telelogger/teda.h:25-32 | a reset before the first `run` leaves `tempo` at 0, so the next value is still flagged |
| `CloudMath.NewCloud` | figures/firmware_v5/telelogger/k_fix.h:9-15 | a fresh cloud value keeps `n == |points|` with one member |
| `DataClouds.DataCloud.constructor` | figures/firmware_v5/telelogger/k_fix.h:9-15 | a fresh cloud has `n = 1`, `points = [key]`, `mean = x`, variance 0, and keeps `n == |points|` |
| `DataClouds.DataCloud.GetUpdatedMean` | figures/firmware_v5/telelogger/k_fix.h:18-25 | reads only; returns one component per component of the mean, component `i` being `(n mean[i] + x[i])/(n+1)` |
| `CloudMath.UpdatedMean` | figures/firmware_v5/telelogger/k_fix.h:18-25 | the candidate mean has the mean's dimension, component `i` being `(n mean[i] + x[i])/(n+1)`; its meaning is stated by `UpdatedMeanFixedPoint` and `UpdatedMeanBetween` |
| `CloudMath.UpdatedMeanFixedPoint` | figures/firmware_v5/telelogger/k_fix.h:18-25 | a cloud's own mean is a fixed point of the candidate mean |
| `CloudMath.UpdatedMeanBetween` | figures/firmware_v5/telelogger/k_fix.h:18-25 | each candidate component lies between the old component and the observation's |
| `DataClouds.DataCloud.GetUpdatedVarianceK3` | figures/firmware_v5/telelogger/k_fix.h:37-45 | reads only; returns `(n var + ||x - testMean||^2)/(n+1)`, non-negative for a non-negative variance |
| `CloudMath.UpdatedVariance` | figures/firmware_v5/telelogger/k_fix.h:37-45 | the candidate variance of a cloud with a non-negative count and variance is non-negative |
| `CloudMath.UpdatedVarianceZero` | figures/firmware_v5/telelogger/k_fix.h:37-45 | the candidate variance is zero exactly when the variance is zero and `x` equals the candidate mean |
| `CloudMath.SqDistZero` | figures/firmware_v5/telelogger/k_fix.h:39-43 | the squared distance is zero exactly when the vectors are equal |
| `DataClouds.DataCloud.UpdateStats` | figures/firmware_v5/telelogger/k_fix.h:47-50 | takes over the new mean and variance; count and indices stay |
| `DataClouds.DataCloud.AddPoint` | figures/firmware_v5/telelogger/k_fix.h:52-55 | appends exactly the index and increments `n`, preserving `n == |points|` |
| `DataClouds.DataCloud.AddPoints` | figures/firmware_v5/telelogger/k_fix.h:57-65 | afterwards `points` is strictly sorted, holds exactly the old and new indices, and `n == |points|` |
| `IndexLists.SortedUnique` | figures/firmware_v5/telelogger/k_fix.h:58-61 | sort then unique gives a strictly sorted list with exactly the members of its input |
| `IndexLists.StrictlySortedUnique` | figures/firmware_v5/telelogger/k_fix.h:58-61 | two strictly sorted lists with the same members are equal, so the result of sort-and-unique is determined by the member set |
| `IndexLists.SortedUniqueIdempotent` | figures/firmware_v5/telelogger/k_fix.h:58-61 | sorting and de-duplicating twice is the same as once |
| `CloudMath.Force` | figures/firmware_v5/telelogger/k_fix.h:69-71 | the force `1/(1+|p-c|)` lies in (0, 1] and is 1 exactly when `p == c` |
| `DataClouds.DataCloud.CalculateForce` | figures/firmware_v5/telelogger/k_fix.h:67-73 | the force lies in (0, 1] and is 1 exactly at the mean's first component |
| `CloudMath.TotalForce` | figures/firmware_v5/telelogger/k_fix.h:75-80 | the total force is 0 for no component, otherwise in (0, number of components] |
| `DataClouds.DataCloud.AdjustVarianceWithForce` | figures/firmware_v5/telelogger/k_fix.h:75-84 | the variance grows by the total force, strictly and by at most `|data|` when `data` is non-empty; mean, count and indices are untouched |
| `DataClouds.DataCloud.Equals` | figures/firmware_v5/telelogger/k_fix.h:94-96 | clouds are equal iff their index lists are equal; equal bookkept clouds have equal counts |
| `TedaClouds.TEDACloud.constructor` | figures/firmware_v5/telelogger/k_fix.h:108-113 | no clouds, counter 0, two typicality slots |
| `TedaClouds.TEDACloud.CreateCloud` | figures/firmware_v5/telelogger/k_fix.h:115-118 | appends one fresh one-member cloud; the other clouds and the counter stay |
| `TedaClouds.TEDACloud.DeleteCloud` | figures/firmware_v5/telelogger/k_fix.h:120-127 | removes the first cloud whose index list equals the argument's, and nothing if there is none |
| `CloudMath.IndexOfPoints` | figures/firmware_v5/telelogger/k_fix.h:121-126 | finds the first cloud with the given index list, or the list length when there is none |
| `TedaClouds.TEDACloud.GetCloud` | figures/firmware_v5/telelogger/k_fix.h:129-131 | returns the cloud stored at the index, which is a member of the list |
| `TedaClouds.TEDACloud.RunOnline` | figures/firmware_v5/telelogger/k_fix.h:163-307 | increments `index_point` by one; calls 1-3 keep the existing cloud objects, append one fresh cloud on the observation and return 0, 1, 2; later calls leave the clouds, `alfa` and the result that `SteadyStep` describes |
| `TedaClouds.TEDACloud.SteadyState` | figures/firmware_v5/telelogger/k_fix.h:182-305 | a steady-state call keeps every cloud's `n == |points|` and matches `SteadyStep` |
| `TedaClouds.UpdateClouds` | figures/firmware_v5/telelogger/k_fix.h:182-305 | the loop, the outlier reinitialisation and the unreachable -1 branches together produce exactly `SteadyStep` |
| `TedaClouds.ScanClouds` | figures/firmware_v5/telelogger/k_fix.h:182-230 | each passing cloud is committed and the rest are untouched; `alfa[i]` is cloud `i`'s normalised typicality; the running variables end as `ScanAll` of the verdicts |
| `TedaClouds.TestCloud` | figures/firmware_v5/telelogger/k_fix.h:187-229 | one iteration commits cloud `i` iff it passes, advances the running choice as in lines 215-227, and changes no other cloud |
| `TedaClouds.Evaluate` | figures/firmware_v5/telelogger/k_fix.h:191-213 | the loop body's candidate statistics, eccentricity, typicality and membership test are the cloud's verdict |
| `TedaClouds.SumDiffSquared` | figures/firmware_v5/telelogger/k_fix.h:195-202 | the loop computes the squared distance between the candidate mean and the observation |
| `CloudMath.VerdictOf` | figures/firmware_v5/telelogger/k_fix.h:191-213 | the test of one cloud carries the candidate mean and variance, passes iff the observation's squared distance to the candidate mean is at most `m^2` times the candidate variance, and has eccentricity at least `1/(n+1)` |
| `CloudMath.VerdictFrom` | figures/firmware_v5/telelogger/k_fix.h:204-213 | the verdict keeps the candidate mean and variance; it passes iff the squared distance is at most `m^2` times the variance, which is the same for every count; for a non-negative squared distance the eccentricity is at least `1/testN` |
| `CloudMath.MembershipChebyshev` | figures/firmware_v5/telelogger/k_fix.h:204-213 | `ecc/2 <= (m^2+1)/(2 testN)` holds iff `sumDiffSquared <= m^2 testVar`, for every positive count and variance |
| `CloudMath.MembershipIgnoresCount` | figures/firmware_v5/telelogger/k_fix.h:204-213 | at a fixed squared distance and variance, the membership verdict is the same for every count |
| `CloudMath.Eccentricity` | figures/firmware_v5/telelogger/k_fix.h:204 | the formula of line 204; it has no contract of its own, and `EccentricitySplit` and `VerdictFrom` state what it means |
| `CloudMath.EccentricitySplit` | figures/firmware_v5/telelogger/k_fix.h:204 | for positive count and variance the eccentricity is `1/testN` plus a non-negative part that vanishes with the squared distance |
| `CloudMath.EccentricityAtLeastInverseCount` | figures/firmware_v5/telelogger/k_fix.h:191-206 | a test's eccentricity is above `1/testN`, or equal to it and the observation sits on the candidate mean |
| `CloudMath.MembershipThreshold` | figures/firmware_v5/telelogger/k_fix.h:213 | the membership bound `(m^2+1)/(2 testN)` is positive |
| `CloudMath.ThresholdDecreasing` | figures/firmware_v5/telelogger/k_fix.h:213 | the membership bound `(m^2+1)/(2 testN)` strictly decreases as the cloud grows |
| `CloudMath.ScanStep` | figures/firmware_v5/telelogger/k_fix.h:215-227 | one iteration clears "nothing passed" iff the cloud passes, and the choice either stays or becomes the current index, which it always does on a pass |
| `CloudMath.ScanAll` | figures/firmware_v5/telelogger/k_fix.h:182-230 | the loop's choice is -1 or the index of a visited cloud |
| `CloudMath.ScanAllChoice` | figures/firmware_v5/telelogger/k_fix.h:182-230 | after the loop, "nothing passed" holds iff no cloud passed; otherwise the choice is the highest passing index; if none passed it is the last index with maximal typicality, whose value is the running maximum |
| `CloudMath.FirstArgMax` | figures/firmware_v5/telelogger/k_fix.h:257 | `max_element` gives an index of a maximal value with every earlier value strictly smaller |
| `CloudMath.Commit` | figures/firmware_v5/telelogger/k_fix.h:217-219 | committing a bookkept cloud keeps `n == |points|` |
| `CloudMath.CommitPassing` | figures/firmware_v5/telelogger/k_fix.h:215-222 | exactly the clouds whose verdict passes are committed; the others, and the length of the list, are unchanged |
| `CloudMath.Reinitialise` | figures/firmware_v5/telelogger/k_fix.h:262-268 | the mean becomes the observation, the index is appended keeping `n == |points|`, and the variance grows strictly, by at most the dimension |
| `CloudMath.SteadyStep` | figures/firmware_v5/telelogger/k_fix.h:182-305 | one steady-state call keeps the number of clouds, leaves `numCloud` typicalities, and never touches a cloud at index `numCloud` or beyond |
| `TedaClouds.ForceOutlier` | figures/firmware_v5/telelogger/k_fix.h:260-268 | the chosen cloud's mean becomes the observation, its variance grows by the total force, and it records the index; no other cloud changes |
| `TedaClouds.CommittedStep` | figures/firmware_v5/telelogger/k_fix.h:215-226 | the clouds the loop leaves and its choice are `SteadyStep` when something passed or the observation is not flagged |
| `TedaClouds.OutlierStep` | figures/firmware_v5/telelogger/k_fix.h:255-268 | the clouds after reinitialising the first maximiser of `alfa` are `SteadyStep` of a flagged, rejected observation |
| `CloudFacts.SteadyKeepsBookkeeping` | figures/firmware_v5/telelogger/k_fix.h:215-268 | after a steady-state call every cloud still has `n == |points|`, and `alfa` has `numCloud` entries |
| `CloudFacts.SteadyChoiceInRange` | figures/firmware_v5/telelogger/k_fix.h:269-305 | the returned index is always a tested cloud, so the -1 branches are unreachable |
| `CloudFacts.SteadyWhenSomeCloudPasses` | figures/firmware_v5/telelogger/k_fix.h:213-222 | every passing cloud takes the candidate mean and variance and the index; the others are unchanged; the highest passing index is returned |
| `CloudFacts.SteadyWhenNoCloudPasses` | figures/firmware_v5/telelogger/k_fix.h:223-226 | with no pass and no flag no cloud changes, and the returned index is the last one with maximal typicality |
| `CloudFacts.SteadyForcedOutlier` | figures/firmware_v5/telelogger/k_fix.h:255-268 | with no pass and the flag set, only the first maximiser of `alfa` changes: its mean becomes the observation, its variance strictly grows by at most the dimension, and `n` and `points` grow by one; the return value is the non-flagged choice |
| `CloudFacts.SteadyKeepsVarianceNonNegative` | figures/firmware_v5/telelogger/k_fix.h:193-264 | a non-negative variance stays non-negative through a steady-state call |
| `CloudMath.SingletonEccentricity` | figures/firmware_v5/telelogger/k_fix.h:9-15 | a one-member cloud sees eccentricity 3/2 for any observation off its mean, and accepts it iff `m^2 >= 2` |
| `CloudFacts.SingletonVerdicts` | figures/firmware_v5/telelogger/k_fix.h:191-213 | against one-member clouds all tests pass or all fail together, with equal typicalities |
| `CloudFacts.SingletonsAllAccept` | figures/firmware_v5/telelogger/k_fix.h:213-222 | with `m^2 >= 2` every one-member cloud accepts and the last is returned |
| `CloudFacts.TiedVerdicts` | figures/firmware_v5/telelogger/k_fix.h:223-257 | on a full tie the loop picks the last index while `max_element` picks the first |
| `CloudFacts.SingletonsTieOnOutlier` | figures/firmware_v5/telelogger/k_fix.h:255-268 | with `m^2 < 2` a flagged observation reinitialises cloud 0 while the call returns the last index |
| `CloudFacts.SeparatedCloudsAllAccept` | figures/firmware_v5/telelogger/k_fix.h:163-230 | clouds at 0, 100, 200 with `m = 3`: the observation 1 joins all three and the call returns 2 |
| `CloudFacts.ForcedOutlierOnTiesReturnsAnotherCloud` | figures/firmware_v5/telelogger/k_fix.h:255-305 | the same clouds with `m = 1` and a flagged 1000: cloud 0 is reinitialised and the call returns 2 |
| `TedaClouds.SeparatedObservations` | figures/firmware_v5/telelogger/k_fix.h:163-230 | four `runOnline` calls on a fresh detector with `m = 3` and the observations `[0]`, `[100]`, `[200]`, `[1]` return 0, 1, 2, 2, and the three clouds end with the index lists `[1, 4]`, `[2, 4]`, `[3, 4]` |

## Left out

- `print_cloud_points`, `print_cloud_index_points` and `metrics` (k_fix.h:138-161) only write to standard output.
- `getUpdatedVarianceK2` (k_fix.h:27-35) takes a square root and nothing calls it.
- `getPoints` and `getN` are plain field reads; the model reads the fields directly.
- Floating-point rounding, NaN and infinity are not modelled. The `-infinity` starting value of `maxTipycality` is "no maximum yet". The source keeps that maximum in a `float` while typicalities are `double`; the model compares them as reals.
- The bodies of the branches at k_fix.h:269-303 are not modelled. The branch at line 269 is dead on every input. The branch at line 281 is reached only when `numCloud <= 0`, where the code then indexes the list at -1, or when every typicality is NaN. The model requires `numCloud >= 1`, and under that precondition `SteadyChoiceInRange` proves the choice is a tested cloud.
- The commented-out block at k_fix.h:232-253 and the commented serial prints are not modelled.
- The unused fields `pertinency`, `classIndex`, `argMax` and `relevanceList`, and `getNumClouds` (which always returns 3), are not kept. In `teda.h`, `window_threshold` and `M_PI` are unused, and `window_count` is only reset.
- `TEDACloud` holds its clouds by value. The model holds references to distinct `DataCloud` objects, and no other code holds them.
- The constructor of `TEDA` leaves `norm_eccentricity`, `outlier_threshold` and `last_value` uninitialised. The model starts them at 0.
- `TedaClouds.TEDACloud.RunOnline`: the steady state is proved only under the three preconditions above; the code's behaviour outside them (out-of-range reads, a zero divisor) is not modelled.
- `CloudMath.SteadyStep` / `TedaClouds.TEDACloud.RunOnline`: `alfa` is declared with two entries (k_fix.h:111, k_fix.h:314), but k_fix.h:229 writes `alfa[i]` for every `i < numCloud`, and `numCloud` defaults to 3. With three clouds that write goes out of bounds, and `std::max_element` at k_fix.h:257 still scans only `alfa[0]` and `alfa[1]`. The model gives `alfa` one entry per tested cloud and takes the maximum over all of them. So in the forced-outlier case the model can reinitialise a different cloud than the code: whenever the only maximum is at index 2 or beyond, the code reinitialises the larger of clouds 0 and 1. For example, take the observations `[0]`, `[100]`, `[200]`, then `[1]` with `m = 3`, then a flagged `[300]` with `m = 1`: the code reinitialises cloud 1 and the model cloud 2, and both return 2. With `numCloud = 1`, the code also compares `alfa[1]` as an earlier call left it, which can select a cloud that was not tested.
