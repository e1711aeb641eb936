# dataFusion core, modelled in Dafny

dataFusion is a pedestrian dead-reckoning toolkit for a Raspberry Pi with a
Sense HAT. A walker's position is integrated stride by stride from the IMU
heading ("naive" dead reckoning). It is then corrected in one of three ways:

- a non-recursive Bayesian filter that weighs a floor-plan probability grid;
- a particle filter;
- a linear constant-velocity Kalman filter.

Around these estimators sit:

- an offline comparison script;
- a Flask dashboard that records strides, ground truth and errors;
- an MQTT location publisher;
- an MQTT malfunction detector with two "sustained threshold" alarms;
- two MQTT subscribers that keep time-windowed statistics, one of them
  behind Bernoulli sampling.

This project models the deterministic logic of those pieces as immutable
Dafny datatypes and pure transitions, and proves their contracts:

| file | module | models |
|---|---|---|
| `floor_plan.dfy` | `FloorPlan` | the rasterised room: truncating cell indices, the clamped interior, `get_probability` |
| `bayesian_filter.dfy` | `BayesianFilter` | the wall pre-check that chooses the optimiser's start, the optimiser through its bounds, the 10-entry history, reset |
| `particle_filter.dfy` | `ParticleFilter` | noisy prediction, floor-plan reweighting with its uniform fallback, the effective-sample-size gate, the systematic-resampling walk, the weighted mean |
| `kalman_filter.dfy`, `matrices.dfy` | `KalmanFilter`, `Matrices` | the constant-velocity predict and the position-only update over explicit 4x4 / 2x2 matrices, with the closed-form 2x2 inverse |
| `comparison.dfy` | `Comparison` | the simulated walk, the naive and Bayesian trajectory builders, the per-step errors |
| `stride_detection.dfy` | `StrideDetection` | the debounced accelerometer stride detector shared by the dashboard and the publisher |
| `dashboard.dfy` | `Dashboard` | the dashboard's globals and routes as state transitions, including the scalar heading smoother |
| `location_publisher.dfy` | `LocationPublisher` | stride detection, position updates and the message counter of the publisher |
| `malfunction_detection.dfy` | `MalfunctionDetection` | the two alarm state machines and their dispatch |
| `stream_window.dfy` | `StreamWindow` | the window eviction, the window statistics and the ingestion of a message into the four buffers |
| `windowed_subscriber.dfy`, `bernoulli_subscriber.dfy` | `WindowedSubscriber`, `BernoulliSubscriber` | the two subscribers' message handlers, counters and sampling rate |
| `geometry.dfy`, `buffers.dfy`, `arith.dfy`, `wrappers.dfy` | `Geometry`, `Buffers`, `RealArith`, `Wrappers` | positions and the stride step, bounded appends and sums, products kept opaque to the solver, `Option`/`Result` |

Modelling conventions:

- Floating point is idealised as `real`.
- `sin` and `cos` are a caller-supplied `Trig` record.
- `sqrt` is a function parameter constrained by `Geometry.IsSqrt`.
- Every random draw (particle noise, the resampling offset `u`, the
  simulated drift and noise, `random.random()` of the Bernoulli sampler) is
  an explicit input.
- Every clock reading (`time.time()`, `datetime.utcnow()`) is an explicit input.
- `scipy.optimize.minimize` is a function `Query -> Pos`. The only property
  assumed of it (`BayesianFilter.RespectsBounds`) is that its answer lies in
  the box it is given.
- Where Python raises, the model returns `None` or `Failure`, or sets an
  `ok` flag. This covers a zero resolution, a negative grid shape, a
  singular innovation covariance, the resampling walk running off the end,
  an unknown algorithm name, a zero heading-gain denominator, and a message
  missing a field.

Where the code and its documentation disagree, the model follows the code:

- The Bayesian history keeps the last 10 estimates whatever `n_history` is;
  the parameter is stored and never read.
- `get_probability` reads the single cell that `int()` truncates into. It
  does not interpolate. Truncation is toward zero, so points just left of or
  below the origin read cell 0 (`FloorPlan.NegativeSliverReadsCellZero`).
- The naive dead-reckoning positions are never clamped to the room.
- After the dashboard's reset, the displayed Bayesian position is `(0, 0)`
  but the filter restarts at `(2, 4)`. The model keeps this mismatch
  (`Dashboard.ResetDisplayMismatch`).
- The malfunction detector counts a message before parsing it, so
  unparsable payloads are counted too.
- The windowed subscriber, on a message whose `system` object is missing,
  raises only after the CPU, memory and temperature points were appended.
  Those appends stay, and the cleanup and the counter are skipped
  (`StreamWindow.Ingest`).

## Model

| member | source | states |
|---|---|---|
| FloorPlan.Trunc | src/bayesian_filter.py:120-121 | Python `int()` of a float truncates toward zero: for `r >= 0` the result `n` satisfies `n <= r < n+1`, and for `r < 0` it satisfies `n-1 < r <= n` |
| FloorPlan.TruncNearZero | src/bayesian_filter.py:120-121 | every value in the open interval (-1, 1) truncates to cell 0 |
| FloorPlan.ClampSpan | src/bayesian_filter.py:92-95 | after the clamps, start is at least 0 and end at least start+1. With at least one cell, start <= n-1 and end <= n. A span already inside the grid passes through unchanged |
| FloorPlan.InteriorOf | src/bayesian_filter.py:82-95 | the walkable rectangle computed from the 0.3 m wall thickness is non-empty on both axes, and lies inside the grid on every axis that has at least one cell |
| FloorPlan.Create | src/bayesian_filter.py:34-106 | construction succeeds exactly when the resolution is non-zero and both truncated grid dimensions are non-negative. A constructed plan keeps its dimensions and satisfies the grid invariant `Valid` |
| FloorPlan.CellValues | src/bayesian_filter.py:79-99 | every cell is exactly 0.01 or 1.0, and it is 1.0 exactly when it lies in the clamped interior rectangle |
| FloorPlan.WalkableNonEmpty | src/bayesian_filter.py:92-99 | a grid with at least one cell always has a walkable cell: the interior's first cell is inside the grid and holds 1.0 |
| FloorPlan.Probability | src/bayesian_filter.py:108-128 | defined for every real point. Returns 0.01 or 1.0, always positive, and returns 1.0 exactly when the truncated indices are in the grid and inside the interior |
| FloorPlan.NegativeSliverReadsCellZero | src/bayesian_filter.py:119-126 | a point less than one cell left of the origin, in the first row, reads cell (0, 0) instead of falling outside the grid |
| BayesianFilter.Init | src/bayesian_filter.py:153-182 | a new filter has an empty history, the estimate (2, 4), covariance 0.5 I, and the given plan, stride length and `n_history` |
| BayesianFilter.LastSampleIsPrediction | src/bayesian_filter.py:349-354 | the tenth path sample (t = 10/10) is the IMU prediction itself |
| BayesianFilter.BlockedIsWall | src/bayesian_filter.py:355-358 | a sample is below the 0.1 wall threshold exactly when it reads the wall value 0.01 |
| BayesianFilter.ScanPath | src/bayesian_filter.py:349-360 | the sampling loop with its early `break` answers true exactly when some sample i..10 on the path is blocked, so the break does not change the outcome |
| BayesianFilter.BlockedPredictionCrosses | src/bayesian_filter.py:349-360 | a prediction that itself lies in a wall always makes the path count as crossing one |
| BayesianFilter.StartPoint | src/bayesian_filter.py:343-367 | the optimiser starts from the previous estimate when the path to `prev + stride·(sin h, cos h)` crosses a wall, and from that prediction otherwise. This only records the choice; what a crossing means is stated by ScanPath and BlockedPredictionCrosses |
| BayesianFilter.Update | src/bayesian_filter.py:329-395 | the new estimate is the optimiser's answer to the chosen start and the `[0,width]x[0,height]` bounds, so it is in the room whenever the optimiser respects its bounds. The history ends with the new estimate, is a suffix of the old history plus it, and stays within 10 entries. The covariance becomes 0.3 I and nothing else changes |
| BayesianFilter.Reset | src/bayesian_filter.py:397-401 | reset empties the history, sets the estimate to (x, y) and the covariance to 0.5 I, and changes nothing else |
| BayesianFilter.ResetForgetsState | src/bayesian_filter.py:397-401 | two filters that differ only in history, estimate and covariance are equal after resetting to the same point |
| BayesianFilter.ResetToStartIsInit | src/bayesian_filter.py:397-401 | resetting a fresh filter to its default start (2, 4) gives back the freshly constructed filter |
| Buffers.AppendBounded | src/bayesian_filter.py:389-393 | "append, then drop the oldest past the cap", as also done by `deque(maxlen)`: the new value is last, the result is a suffix of the old sequence plus the value, the length never exceeds the cap once within it, and it equals the plain append below the cap |
| ParticleFilter.Uniform | src/particle_filter.py:38 | `np.ones(n) / n` has n positive entries summing to 1 |
| ParticleFilter.Init | src/particle_filter.py:29-42 | particle i is the initial point plus its two spread draws, and the weights are uniform |
| ParticleFilter.InitWeightsNormalised | src/particle_filter.py:38 | right after construction the weights sum to 1 |
| ParticleFilter.Predict | src/particle_filter.py:44-66 | particle i moves by `stride·(sin, cos)` of the heading plus its heading draw, plus its two position draws. Weights, plan and count are unchanged |
| ParticleFilter.NoiselessPredictIsStride | src/particle_filter.py:52-66 | with all draws zero every particle takes exactly the dead-reckoning stride |
| ParticleFilter.Normalise | src/particle_filter.py:82-84 | dividing by a positive total keeps positive entries positive, and gives weights summing to 1 when the total is their sum |
| ParticleFilter.Reweight | src/particle_filter.py:68-87 | with a positive total, every new weight is `w·p_fp` divided by the total and the weights sum to 1. With a non-positive total the weights become uniform. Positive weights stay positive, and particles are untouched |
| ParticleFilter.LikelihoodsPositive | src/particle_filter.py:72-79 | the floor-plan value is positive everywhere, so positive weights give positive products `w·p_fp` |
| ParticleFilter.PositiveWeightsNeverFallBack | src/particle_filter.py:82-87 | when the weights are positive (as after construction) the total is positive, so the uniform fallback never applies |
| ParticleFilter.NeedsResample | src/particle_filter.py:94-97 | the gate `1/Σw² < n/2` holds exactly when `n·Σw² > 2`; a zero sum of squares never resamples |
| ParticleFilter.UniformNeverResamples | src/particle_filter.py:94-97 | uniform weights have effective sample size n and never trigger resampling |
| ParticleFilter.SamplePositionsIncrease | src/particle_filter.py:99 | the systematic positions `(i+u)/n` strictly increase with i |
| ParticleFilter.SamplePositionBelowOne | src/particle_filter.py:99 | for `i < n` and `u < 1` every position is below 1 |
| ParticleFilter.WalkStaysInside | src/particle_filter.py:104-109 | with weights summing to 1, the walk never advances j past the last index while a position is pending |
| ParticleFilter.PickedNotOverrun | src/particle_filter.py:104-109 | a position the walk finds an index for does not lie at or above every cumulative weight |
| ParticleFilter.SystematicIndices | src/particle_filter.py:99-109 | the walk picks, for each position i, the first index whose cumulative weight exceeds it. It yields n indices in non-decreasing order. It fails (the IndexError of reading past `cumsum`) exactly when some position lies at or above every cumulative weight, so it always completes when `0 <= u < 1` and the weights sum to 1 |
| ParticleFilter.Resample | src/particle_filter.py:89-112 | below the gate the filter is unchanged. Otherwise the result has n particles, each a copy of an old one, with weights exactly 1/n. It is defined whenever `0 <= u < 1` and the weights sum to 1 |
| ParticleFilter.Gather | src/particle_filter.py:102-112 | copying the chosen particles gives particle i = old particle `chosen[i]` with uniform weights, a resampling of the old filter |
| ParticleFilter.UpdateStride | src/particle_filter.py:134-144 | a stride update is predict, then reweight, then resample, in that order, with the resampling guarantees above applied to the reweighted filter |
| ParticleFilter.WeightedSumBounds | src/particle_filter.py:121-122 | with non-negative weights, `Σ w_i v_i` of values in `[lo, hi]` lies between `lo·Σw` and `hi·Σw` |
| ParticleFilter.PositionWithinParticles | src/particle_filter.py:114-123 | with non-negative weights summing to 1, the weighted-mean estimate lies in every axis-aligned box that holds all particles |
| ParticleFilter.CollapsedCloudPosition | src/particle_filter.py:114-123 | if every particle is at the same point, the estimate is that point |
| Matrices.Inverse2 | src/kalman_filter.py:93 | the closed-form 2x2 inverse exists exactly when the determinant is non-zero, and it is then a right inverse |
| Matrices.InverseIsRightInverse | src/kalman_filter.py:93 | `m @ adj(m)/det(m)` is the identity |
| KalmanFilter.Transition | src/kalman_filter.py:54-59 | the constant-velocity transition is a 4x4 matrix |
| KalmanFilter.Measurement | src/kalman_filter.py:62-65 | the measurement matrix is 2x4 |
| KalmanFilter.ProcessCovariance | src/kalman_filter.py:41-47 | Q is a symmetric 4x4 matrix that does not couple the x and y axes |
| KalmanFilter.Init | src/kalman_filter.py:23-65 | a new filter has state `[x0, y0, 0, 0]`, P = I, R = 0.25 I and a symmetric Q, and is well formed |
| KalmanFilter.Predict | src/kalman_filter.py:67-75 | prediction keeps the filter well formed and its time step unchanged |
| KalmanFilter.PredictState | src/kalman_filter.py:72 | prediction maps `(x, y, vx, vy)` to `(x + dt·vx, y + dt·vy, vx, vy)` |
| KalmanFilter.SandwichSymmetric | src/kalman_filter.py:75 | `F P Fᵀ` is symmetric whenever P is |
| KalmanFilter.PredictKeepsSymmetry | src/kalman_filter.py:75 | `P := F P Fᵀ + Q` keeps the covariance symmetric |
| KalmanFilter.Innovation | src/kalman_filter.py:87 | the innovation `z - H x` is a 2-vector |
| KalmanFilter.InnovationCovariance | src/kalman_filter.py:90 | S is a 2x2 matrix |
| KalmanFilter.InnovationCovarianceIsBlock | src/kalman_filter.py:90 | S is the top-left position block of P plus 0.25 I |
| KalmanFilter.Update | src/kalman_filter.py:77-100 | the update is defined exactly when S is invertible (numpy otherwise raises), and it keeps the filter well formed |
| KalmanFilter.UpdateDefinedWhenPsd | src/kalman_filter.py:90-93 | when P's position block is positive semidefinite, det S >= 1/16, so the update is always defined |
| KalmanFilter.ZeroInnovationKeepsState | src/kalman_filter.py:87-96 | a measurement equal to the predicted position leaves the state vector unchanged |
| KalmanFilter.GetState | src/kalman_filter.py:120-127 | the state is a 4-vector whose halves are what `get_position` and `get_velocity` return; it is a value, so a caller holding it cannot change the filter |
| KalmanFilter.GetCovariance | src/kalman_filter.py:129-136 | the covariance returned is the filter's 4x4 P, as a value |
| KalmanFilter.InitPositionAndVelocity | src/kalman_filter.py:102-118 | a new filter reports its initial position and zero velocity |
| KalmanFilter.PredictAdvancesPosition | src/kalman_filter.py:67-118 | seen through the getters, prediction advances the position by dt times the velocity and keeps the velocity |
| Geometry.Distance | examples/compare_algorithms.py:184-185 | the Euclidean distance is non-negative, squares to the squared distance, and is zero exactly at coincident points |
| Comparison.SimulateWalkWithDrift | examples/compare_algorithms.py:16-57 | the simulated walk has 11 ground-truth points starting at (2, 4) and 10 IMU headings. Point k+1 is point k plus a stride along the true heading (north ×5, then east ×5). Heading k is the true heading plus the accumulated drift plus its noise |
| Comparison.RunNaive | examples/compare_algorithms.py:60-82 | the naive trajectory has one more point than there are headings, starts at the start position, and each point is the previous plus `stride·(sin h_k, cos h_k)` |
| Comparison.NaiveEndPoint | examples/compare_algorithms.py:74-80 | the naive end point is the start plus the summed stride vectors; dead reckoning never corrects an earlier step |
| Comparison.RunBayesian | examples/compare_algorithms.py:85-107 | the Bayesian trajectory has one more point than there are headings and starts at the start position. Every later point is in the room whenever the optimiser respects its bounds |
| Comparison.CalculateErrors | examples/compare_algorithms.py:180-187 | as with `zip`, there are `min(len(trajectory), len(ground_truth))` errors. Each is non-negative, squares to the squared distance, and is zero exactly when the two positions coincide |
| Comparison.SelfErrorIsZero | examples/compare_algorithms.py:180-187 | a trajectory compared with itself has zero error at every step |
| StrideDetection.Magnitude | mqtt/mqtt_location_publisher.py:188-192 | the acceleration magnitude is non-negative and squares to `x²+y²+z²` |
| StrideDetection.Detect | mqtt/mqtt_location_publisher.py:196-202 | a stride is detected only when the magnitude exceeds the threshold and more than the minimum interval has elapsed. The last-stride time changes only on a detection, and then becomes the clock reading |
| StrideDetection.ExceedsIffSquaredExceeds | mqtt/mqtt_location_publisher.py:188-196 | for a non-negative threshold, the magnitude exceeds it exactly when the squared magnitude exceeds its square |
| StrideDetection.DetectExactly | src/web_dashboard_advanced.py:108-123 | a detection happens exactly when both gates pass, and otherwise the last-stride time is unchanged |
| StrideDetection.DetectRun | src/web_dashboard_advanced.py:117-123 | over a stream of readings, the final last-stride time is the last detection time (or the initial one), and there are at most as many detections as readings |
| StrideDetection.DetectionsAreSpaced | src/web_dashboard_advanced.py:117-123 | consecutive detected strides, and the first one after the initial last-stride time, are more than the minimum interval apart |
| Dashboard.SmoothHeading | src/web_dashboard_advanced.py:79-94 | the heading smoother is undefined (ZeroDivisionError) exactly when `P + Q + R = 0`. Otherwise the stored yaw equals the returned estimate and Q and R are kept |
| Dashboard.GainInUnitInterval | src/web_dashboard_advanced.py:83-86 | with P, Q >= 0 and R > 0 the gain K lies in [0, 1) |
| Dashboard.SmoothHeadingBounds | src/web_dashboard_advanced.py:83-94 | under the same conditions the smoothed yaw lies between the previous yaw and the measurement, and the new P lies in `[0, P + Q]` |
| Dashboard.SmoothHeadingFixpoint | src/web_dashboard_advanced.py:87 | a measurement equal to the current yaw leaves the yaw unchanged |
| Dashboard.Init | src/web_dashboard_advanced.py:33-77 | the dashboard starts with no strides, empty trajectories and ground truth, naive and particle positions (0, 0), and the Bayesian position equal to the filter's start (2, 4). The smoother starts at yaw 0, P 1, Q 0.01, R 0.1; the stride length is 0.7, the last-stride time 0, the threshold 1.2 g, auto-walk off, and the filter is the one built for 0.7 m strides |
| Dashboard.DashboardPlanExists | src/web_dashboard_advanced.py:75-76 | the 20 m x 10 m room at 0.1 m resolution is a valid floor plan |
| Dashboard.DetectStride | src/web_dashboard_advanced.py:96-123 | `detect_stride` changes only the last-stride time, and changes it exactly when it reports a stride, to the clock reading. It reports a stride exactly when the magnitude exceeds the current threshold and more than 0.3 s have passed |
| Dashboard.ProcessStrideAll | src/web_dashboard_advanced.py:125-174 | each of the three trajectories gets exactly one new entry, tagged with the old stride count, and the count goes up by one. Naive and particle move by one stride. The Bayesian filter takes one update step with the current stride length, and the Bayesian position is its new estimate. Ground truth, smoother, settings and the auto-walk state are untouched |
| Dashboard.ParticleFollowsNaive | src/web_dashboard_advanced.py:160-163 | the particle placeholder moves exactly like the naive position, so the two stay equal once equal |
| Dashboard.ParseAlgorithm | src/web_dashboard_advanced.py:298-345 | an algorithm name is recognised exactly when it is "naive", "bayesian" or "particle" |
| Dashboard.NameOf | src/web_dashboard_advanced.py:298-345 | each algorithm's URL segment parses back to that algorithm |
| Dashboard.StrideOne | src/web_dashboard_advanced.py:298-349 | one manual stride for a recognised algorithm moves only that algorithm's position and trajectory (the Bayesian one through one filter update, displayed as its estimate) and raises the count; everything else is kept |
| Dashboard.RecordStride | src/web_dashboard_advanced.py:283-360 | the stride count always goes up by one, even for an unknown algorithm, which then fails. Only the named algorithm's trajectory and position change, by one entry under the old count, using the smoothed or the sensor yaw. The Bayesian filter is updated only for "bayesian", and then the displayed position and the reply are its new estimate. Settings, last-stride time and the auto-walk state are untouched |
| Dashboard.SetGroundTruth | src/web_dashboard_advanced.py:374-384 | exactly one ground-truth entry is appended, tagged with the current stride count, at the given coordinates with a missing one read as 0, and with the note or the empty string. Nothing else changes |
| Dashboard.ReportFor | src/web_dashboard_advanced.py:393-404 | an algorithm with a non-empty trajectory gets a report of the distance and the absolute x and y errors of its latest point against the ground truth |
| Dashboard.GetErrors | src/web_dashboard_advanced.py:387-406 | errors fail exactly when there is no ground truth. Otherwise each algorithm's report is the report of its trajectory against the latest ground truth, present exactly for non-empty trajectories, with non-negative distance and axis errors |
| Dashboard.ErrorReportPythagoras | src/web_dashboard_advanced.py:393-404 | each report's distance is the hypotenuse of its axis errors, and it is zero exactly when the latest point is the latest ground truth |
| Dashboard.Reset | src/web_dashboard_advanced.py:409-433 | reset zeroes the stride count, empties all four lists and sets the three displayed positions to (0, 0). The filter is reset to (2, 4). Smoother, stride length, last-stride time, threshold and auto-walk state survive |
| Dashboard.ResetDisplayMismatch | src/web_dashboard_advanced.py:413-430 | after a reset the displayed Bayesian position (0, 0) differs from the filter's estimate (2, 4) |
| Dashboard.ResetIdempotent | src/web_dashboard_advanced.py:409-433 | resetting twice is the same as resetting once |
| Dashboard.UpdateParameters | src/web_dashboard_advanced.py:459-480 | each field present replaces its setting, and a new stride length also goes to the Bayesian filter. Absent fields keep their values, and nothing else changes |
| Dashboard.EmptyParametersChangeNothing | src/web_dashboard_advanced.py:459-480 | an empty parameter request leaves the state unchanged |
| Dashboard.FilterHeading | src/web_dashboard_advanced.py:243-252 | the filtered-sensor route advances the smoother on the yaw reading and changes nothing else; it fails exactly where the smoother divides by zero |
| Dashboard.FilteredStrideUsesSmoothedYaw | src/web_dashboard_advanced.py:291-292 | after a filtered reading, a manual stride with `use_filtered` heads along a yaw between the previous yaw and the reading |
| Dashboard.StartAutoWalk | src/web_dashboard_advanced.py:494-510 | the start is refused exactly when auto-walk already runs and then changes nothing; otherwise a given threshold replaces the current one and auto-walk is on |
| Dashboard.StopAutoWalk | src/web_dashboard_advanced.py:520-528 | the stop is refused exactly when auto-walk is off; afterwards it is off |
| Dashboard.StartStopKeepsThreshold | src/web_dashboard_advanced.py:503-528 | starting with a threshold and then stopping changes only the threshold, which later detections keep using |
| Dashboard.AutoWalkStep | src/web_dashboard_advanced.py:186-200 | a stopped monitor or an undetected stride changes nothing. A detected stride smooths the read yaw and processes it for all three algorithms: one entry per trajectory under the smoothed yaw, naive and particle stride, one filter update shown as the Bayesian position, with settings kept and the monitor still on. If smoothing divides by zero only the last-stride time moves |
| Dashboard.RecordStrideAgreesWithAll | src/web_dashboard_advanced.py:298-349 | a manual stride for one algorithm with the sensor yaw moves that trajectory, that position and the count exactly as the all-algorithms stride does, and updates the Bayesian filter the same way |
| Dashboard.AutoWalkIsFilterThenStride | src/web_dashboard_advanced.py:186-200 | a detected auto-walk pass equals the filtered-sensor smoothing followed by the all-algorithms stride on the smoothed yaw |
| LocationPublisher.Init | mqtt/mqtt_location_publisher.py:41-91 | a new publisher has naive position (0, 0), no strides, no messages, the last-stride time set to the construction time, and a fresh Bayesian filter |
| LocationPublisher.DetectStride | mqtt/mqtt_location_publisher.py:176-202 | detection changes only the last-stride time, and changes it exactly on a detection, to the clock reading |
| LocationPublisher.UpdatePositions | mqtt/mqtt_location_publisher.py:204-248 | the stride count goes up by one exactly on a stride. A stride moves the naive position by `stride·(sin h, cos h)` and updates the Bayesian filter. Without a stride the publisher is unchanged and the report carries the filter's current estimate |
| LocationPublisher.PublishData | mqtt/mqtt_location_publisher.py:196-282 | each tick increments the message count by exactly one, and the report carries the old count as its id. A stride is reported exactly when the detector (threshold 1.2, interval 0.3 s) fires on the reading, and then the last stride time becomes the clock, the naive position takes one stride along the yaw and the Bayesian filter takes one update step; otherwise positions and filter are unchanged. The report carries the filter's estimate, the naive position, the new stride count and the yaw |
| LocationPublisher.RunCounters | mqtt/mqtt_location_publisher.py:326-333 | over any run of ticks the message count grows by the number of ticks, and the stride count by at most that many |
| MalfunctionDetection.Check | mqtt/malfunction_detection.py:104-136 | a reading at or below the threshold clears the start time and the alarm and returns false. Above it, the start time is set on the first reading and then kept. The alarm fires exactly when the reading is above the threshold, at least 10 s have passed since the start, and it was not already active. The trigger counter grows exactly when it fires |
| MalfunctionDetection.AtMostOncePerExcursion | mqtt/malfunction_detection.py:116-127 | within one continuous excursion above the threshold the alarm fires at most once, and never if it was already active |
| MalfunctionDetection.StartIsFirstReading | mqtt/malfunction_detection.py:116-118 | the excursion's start time is the time of its first reading |
| MalfunctionDetection.StartKept | mqtt/malfunction_detection.py:116-118 | once set, the start time is kept by every later high reading |
| MalfunctionDetection.SustainedExcursionFires | mqtt/malfunction_detection.py:116-127 | from a quiet rule, a high reading and a second high reading 10 s later raise the alarm at the second |
| MalfunctionDetection.OnMessage | mqtt/malfunction_detection.py:197-249 | every message is counted, even one that fails to parse. Each rule runs only when its metric is present. The alerts of a parsed message are exactly the temperature alert, if its rule fires, followed by the memory alert, if its rule fires, each carrying the reading and the CPU percentage. The context buffers stay within 60 entries |
| MalfunctionDetection.RulesIndependent | mqtt/malfunction_detection.py:217-238 | a message without a memory reading leaves the memory rule alone, and the other way round |
| StreamWindow.CleanupOldData | mqtt/mqtt_subscriber_windowed.py:95-106 | cleanup only pops from the front (the result is a suffix). Every dropped point is older than the cutoff, and the new front is at or after it (together: `Cleaned`). On a time-sorted buffer every remaining point is within the window |
| StreamWindow.CleanedIsUnique | mqtt/mqtt_subscriber_windowed.py:103-106 | two results that are both the buffer cleaned at the same time are equal, so `Cleaned` determines the cleanup exactly |
| StreamWindow.CleanedKeepsInWindow | mqtt/mqtt_subscriber_windowed.py:105 | cleanup never drops a point inside the window, and keeps the newest point when that one is inside |
| StreamWindow.SuffixSorted | mqtt/mqtt_subscriber_windowed.py:103-106 | cleanup of a time-sorted buffer leaves it time-sorted |
| StreamWindow.MinOf | mqtt/mqtt_subscriber_windowed.py:127 | `np.min` is at most every value and is one of them |
| StreamWindow.MaxOf | mqtt/mqtt_subscriber_windowed.py:128 | `np.max` is at least every value and is one of them |
| StreamWindow.ComputeStatistics | mqtt/mqtt_subscriber_windowed.py:108-129 | no statistics for an empty buffer. Otherwise the count is the buffer length, the std is non-negative, `min <= mean <= max`, every value lies in `[min, max]`, min and max are attained, and the std is zero exactly when min equals max. The mean is `Mean` of the buffer's values (sum over count) and the std is the population standard deviation `StdDev` about that mean, whose square is the mean squared deviation |
| StreamWindow.Mean | mqtt/mqtt_subscriber_windowed.py:125 | the mean lies between the minimum and the maximum |
| StreamWindow.StdDev | mqtt/mqtt_subscriber_windowed.py:126 | the population standard deviation is non-negative and its square is the mean squared deviation from the mean |
| StreamWindow.Deviations | mqtt/mqtt_subscriber_windowed.py:126 | the squared deviations are one non-negative term per value |
| StreamWindow.StdDevZeroIffConstant | mqtt/mqtt_subscriber_windowed.py:126 | the standard deviation is zero exactly when every value equals the mean |
| StreamWindow.Ingest | mqtt/mqtt_subscriber_windowed.py:136-161 | a message without timestamp, CPU or memory changes nothing. One without `system` keeps its CPU, memory and temperature appends and skips cleanup. Otherwise each buffer is exactly the old one plus its point (temperature and load only when present) cleaned at the current time: in-window points are kept |
| StreamWindow.WithPoints | mqtt/mqtt_subscriber_windowed.py:136-155 | CPU and memory always gain the message's point at the end, and the old points are kept in front; temperature and load gain one only when present |
| WindowedSubscriber.Init | mqtt/mqtt_subscriber_windowed.py:38-73 | a new subscriber has empty buffers, no messages and the last report time set to the construction time |
| WindowedSubscriber.StatisticsOf | mqtt/mqtt_subscriber_windowed.py:174-179 | each buffer's statistics are present exactly when the buffer is non-empty |
| WindowedSubscriber.OnMessage | mqtt/mqtt_subscriber_windowed.py:131-172 | the counter grows by one exactly for a processed message. A report is produced exactly when such a message arrives at least a second after the last report, and it holds the statistics of the cleaned buffers. A processed message leaves each buffer as the old one plus its point, cleaned; one without `system` leaves the appends uncleaned; one without the required fields changes nothing |
| BernoulliSubscriber.Init | mqtt/mqtt_subscriber_bernoulli.py:35-74 | a new subscriber has no messages, consistent counters and empty buffers |
| BernoulliSubscriber.Start | mqtt/mqtt_subscriber_bernoulli.py:308-311 | a subscriber is built exactly for `0 < p <= 1` |
| BernoulliSubscriber.BernoulliSample | mqtt/mqtt_subscriber_bernoulli.py:97-104 | a draw in [0, 1) is always kept with p >= 1 and never kept with p <= 0 |
| BernoulliSubscriber.SampleMonotone | mqtt/mqtt_subscriber_bernoulli.py:104 | a larger probability keeps every draw a smaller one keeps, so p = 1 keeps every message |
| BernoulliSubscriber.OnMessage | mqtt/mqtt_subscriber_bernoulli.py:142-190 | every message increments the total and keeps `total = sampled + rejected`. A rejected message changes nothing else and produces no report. A kept one is processed like the windowed subscriber's message: buffers unchanged when required fields are missing, appends kept without `system`, otherwise appended and cleaned |
| BernoulliSubscriber.Run | mqtt/mqtt_subscriber_bernoulli.py:142-152 | over any stream the counters stay consistent, the total grows by the number of messages, and the sampled count by exactly the number of kept draws |
| BernoulliSubscriber.SamplingRate | mqtt/mqtt_subscriber_bernoulli.py:200 | the guarded sampling rate is 0 with no messages and lies in [0, 100]. It is 100 when nothing was rejected and 0 when nothing was sampled |
| BernoulliSubscriber.FinalRateAsWritten | mqtt/mqtt_subscriber_bernoulli.py:266 | the shutdown rate as written fails exactly when no message arrived, and otherwise equals the guarded rate |
| BernoulliSubscriber.ShutdownWithoutMessagesFails | mqtt/mqtt_subscriber_bernoulli.py:263-266 | stopping a subscriber that never received a message reaches the division by zero |
| BernoulliSubscriber.FinalRate | mqtt/mqtt_subscriber_bernoulli.py:266 | the intended shutdown rate is defined in every state, lies in [0, 100], and agrees with the as-written rate wherever that is defined |

## Left out

- Sensor reads (Sense HAT), the MQTT client (connect, publish, subscribe,
  loop), Flask routing and JSON encoding, printing and the LED display:
  these are I/O. Their inputs become parameters, and their outputs become
  returned values or are dropped.
- Every random draw and every clock reading: these are inputs, not modelled
  generators.
- The Bayesian posterior (`p_stride_circle`, `p_sensor_likelihood`,
  `p_previous_posterior`, `posterior_probability`, `negative_posterior`) and
  the L-BFGS-B optimiser: these are floating-point exp/log and a numerical
  library. The optimiser is an abstract function whose answer is assumed in
  bounds only where a contract says so.
- The dashboard's `round(…, 3)` of positions. It is not display only: the
  rounded positions are stored and the next stride starts from them, and
  the Bayesian position shown is rounded too. The model keeps unrounded
  positions, so the program's positions can drift from the model's by up
  to 0.0005 m per coordinate per stride. The subscribers' statistics are
  rounded the same way and the model keeps them exact.
- The location publisher's rounding. Its yaw and accelerometer inputs are
  already rounded to 4 places in the IMU message it reads, and its report
  rounds positions to 3 places and the heading to 4. The model takes the
  yaw and reading as given and reports unrounded positions and heading.
- The heading stored in trajectory entries. The dashboard stores
  `round(np.degrees(yaw), 2)`; the model stores the yaw in radians.
- IEEE-754 rounding: the
  float behaviour of `int(0.3 / 0.1)`, which is 2 in doubles but 3 over the
  reals. Reals are exact, so the interior of a plan whose wall thickness is
  not a float-exact multiple of the resolution can differ by one cell from
  the running program.
- Timestamps and `isoformat()` strings in trajectory entries, alerts and
  reports. Points are stamped with a real number of seconds.
- `FloorPlanPDF.visualize`, the comparison plots, the dashboard's CSV
  download and floor-plan routes, the raw sensor and comparison routes,
  the display fields of the filtered-sensor route and the `sensor_buffer`
  clears: these are display only. The filtered-sensor route's effect on
  the smoother is modelled (`Dashboard.FilterHeading`).
- The scheduling of the auto-walk thread against the routes, its 50 ms
  sleep and the 2 s join on stop. One pass of its loop is modelled
  (`Dashboard.AutoWalkStep`), and so are the start and stop routes.
- The malfunction detector's `publish_alert` transport, and its status
  print every 100 messages, which can itself raise when a metric is absent.
  Both come after the state changes that are modelled.
- The subscribers' `print_statistics` text. Its content is modelled as the
  returned `Report`.
- A load average present without its `'1min'` key (a KeyError). `system`
  is modelled as absent, present without a load average, or present with
  one.
- JSON `null` field values, which the payload model does not distinguish
  from absent fields.
- `KalmanFilter.GetPosition`, `KalmanFilter.GetVelocity` and
  `ParticleFilter.GetPosition` carry no contract of their own. Their
  properties are stated by `KalmanFilter.InitPositionAndVelocity`,
  `KalmanFilter.PredictAdvancesPosition`, `KalmanFilter.GetState` and
  `ParticleFilter.PositionWithinParticles`.
- The copies made by `get_state`, `get_covariance`, `get_particles` and
  `start_pos.copy()`. Dafny sequences and datatypes are values, so aliasing
  cannot arise in the model.
- KalmanFilter.Update: states definedness and well-formedness of the
  result, not the covariance algebra of `(I - K H) P`. Its state effect is
  stated only for a zero innovation (`KalmanFilter.ZeroInnovationKeepsState`).
- ParticleFilter.Resample: states that each new particle is a copy of an
  old one. The exact choice of index is stated by
  `ParticleFilter.SystematicIndices`, and `Resample` does not restate it.
- LocationPublisher.RunCounters: counts messages and strides only. Where
  each position ends up over a run is left to the per-tick contracts of
  `LocationPublisher.PublishData`.

## Findings

| source | as written | input that shows it | evidently intended | confidence | as-written member | corrected member |
|---|---|---|---|---|---|---|
| mqtt/mqtt_subscriber_bernoulli.py:266 | the shutdown summary divides `sampled_messages` by `total_messages` without the `total_messages > 0` guard that the periodic rate on line 200 has | stop the subscriber (Ctrl+C) before any message has arrived: `total_messages == 0`, so the f-string raises ZeroDivisionError and the disconnect and its message are skipped (the final statistics would be skipped anyway, since nothing was sampled) | report 0% when no message arrived, as line 200 does | high, not executed | BernoulliSubscriber.FinalRateAsWritten, BernoulliSubscriber.ShutdownWithoutMessagesFails | BernoulliSubscriber.FinalRate |
