# netdebug bench: verified model

`netdebug bench` is a gRPC load generator. N workers call an echo service under
one deadline, over one of three connection models, and the recorded results are
aggregated into a summary. This project models that program from the text of the
`--payload` flag to the final summary, and proves what a user of the summary
relies on. `dafny verify dfyconfig.toml` (Dafny 4.11) checks the whole project.

## How it is laid out

| file | what it models |
|---|---|
| `Payload.dfy`, `Text.dfy` | the `--payload` flag: parser, grammar, printer, the flag object |
| `Sampler.dfy` | the weighted shape picker and the request builder |
| `Protocol.dfy` | one worker, and N workers over a pool, a context and a clock, as a step system |
| `Invariants.dfy`, `Runs.dfy` | what every step keeps, and what holds of every schedule |
| `Traces.dfy` | what each worker did, read off its events, and its results as an account of that |
| `Workers.dfy` | the program's objects: pool, source, worker and its run loop |
| `Refinement.dfy` | workers in any schedule are lives of the run loop |
| `Records.dfy`, `Latency.dfy`, `Backends.dfy`, `Skew.dfy`, `StatusCodes.dfy`, `Aggregator.dfy` | results, statistics, groupings, the summary |
| `Figures.dfy` | what every figure of a summary means, by counting results |
| `Bench.dfy` | validation, merging, and the guarantees of a whole run's summary |
| `Int64.dfy`, `Folds.dfy`, `Sorting.dfy`, `Wrappers.dfy` | int64 arithmetic, sums and permutations, sorting, options |

## How the program's features appear

- Loops over maps of buckets are loops over a Dafny `map` that is reassigned; map
  iteration is a loop that picks any remaining key. The contracts (`IsBackends`,
  `IsStatusCodes`, `IsTopMessages`, `IsSummary`) determine the result uniquely, so
  neither iteration order nor the (unstable) sort algorithm shows.
- `sort.Slice` is a method with the library's contract: ordered by the comparator,
  same elements.
- int64 sums, differences and products wrap explicitly (`Int64.Wrap`); `time.Sub`
  saturates; division truncates toward zero. A promise that holds only without
  overflow comes with a concrete input that breaks it. Where the exact condition is
  simpler than the promise it is proved, by the lemmas named `...Iff`; the promises
  that keep a one-way condition are named under "Left out".
- A call for which the random source has no draw, or whose request needs a length
  that is negative or above what the platform allocates at once, panics in the
  program. Here the worker's call step cannot be taken: the worker is stuck. The
  platform's limit is a parameter.
- The context, the clock, the dialer, the server's reply and the random draw are
  carried by the events of the step system; a schedule is any sequence of steps
  that can be taken. The clock is a monotonic int64 reading.
- An error is its status code, its text, its message, whether it wraps a context
  error, and the stage (opening a source, acquiring, calling) that its wrapping
  prefix tells.
- Ratios, percentages and throughput are exact reals; the standard deviation is the
  floor of the exact root; the percentile rank is the integer `(p*n + 99) / 100`.

## Where code and comments differ

- The latency skew is documented over backends with at least one successful sample;
  the code keeps backends whose P99 is not zero. The model follows the code;
  `Skew.SuccessfulButLeftOutIff` says exactly when a successful backend is left out,
  and `Skew.InstantBackends` gives two.
- `Validate` is documented to check every field the workers rely on; it bounds neither
  the weights nor the sizes from above. `Bench.ValidateAdmitsOverflow`
  gives a configuration that passes and leaves workers without a draw,
  `Bench.ValidateAdmitsHugeDimension` one that asks for a slice of negative length,
  `Bench.ValidateAdmitsHugeSize` one that asks for a slice too long to allocate, and
  `Bench.NeverStuckIff` says exactly which validated configurations are free of all
  three.
- `embedding-bytes` is documented to match `embedding-float` in wire size at any
  dimension; `Sampler.EmbeddingSizesMatchIff` gives the exact condition and
  `Sampler.HugeDimension` a dimension that fails it.

## Model

| member | source | states |
|---|---|---|
| Bench.LittlesLaw | pkg/bench/config.go:218-271 | over every schedule of every connection model, successful durations sum to at most workers times elapsed, and so does the reported mean times its count, even if the accumulator wraps |
| Runs.ResourceSafety | pkg/bench/conn.go:61-156 | in every reachable state calls hold open connections, at most one per worker (one when shared) is open, none is closed twice; after the run each was closed exactly once |
| Runs.CallAccounting | pkg/bench/worker.go:37-74 | attempts minus recorded results is between 0 and the number of workers; each worker misses at most one, its last |
| Traces.ResultsTold | pkg/bench/worker.go:37-130 | on every schedule a worker's results are, one for one and in order, its kept attempts: start and end are the clocks at its call and its answer, the total their difference, server time, names and upstream time those of the reply, and errors the cause, with the prefix of their stage |
| Traces.LifeFollowsLoop | pkg/bench/worker.go:37-74 | a worker's events follow the loop branch by branch: what comes next depends only on what was dialed, on whether the context was done, and on whether the call was kept |
| Traces.AttemptsCounted | pkg/bench/worker.go:37-100 | a worker's history counts its attempts, the calls it made and the calls that succeeded |
| Traces.CallsOnGivenConn | pkg/bench/conn.go:82-154 | each call runs on the connection dialed for it, on the one its source was given, or on the pool's |
| Runs.LostIsFinal | pkg/bench/worker.go:57-72 | a worker that lost an attempt never makes or records another, on any schedule |
| Runs.MergedInOrder | pkg/bench/config.go:222-225 | the merged results are those of worker after worker, each in its own order |
| Runs.DialsMatchCalls | pkg/bench/conn.go:148-154 | under per-request, as many connections were dialed as calls issued once the run is over |
| Runs.CancellationsFiltered | pkg/bench/worker.go:98-143 | no recorded call failure is a cancellation, and every judged success is recorded even after the context is done |
| Runs.Progress | pkg/bench/worker.go:54-73 | until the run is over some step of a worker, the answer to its call included, or of the pool can be taken, when every draw gives a request that can be built |
| Runs.ShutdownBound | pkg/bench/config.go:184-216 | once the context is done at most seven more steps per worker, answers to calls included, and one more are taken, whatever the outside does |
| Runs.CanFinish | pkg/bench/config.go:184-216 | from every reachable state the end of the run can be reached, in at most seven steps per worker and two more, when every draw gives a request that can be built |
| Runs.RequestsInFlight | pkg/bench/worker.go:80-82 | every request in flight on any schedule was built from a draw the random source can return, without a panic |
| Runs.WorkersMove | pkg/bench/worker.go:37-74 | when every draw gives a request that can be built, each worker of each reachable state goes on with whatever it is given |
| Runs.NoWorkerStuckIff | pkg/bench/worker.go:37-82 | that condition is exact: otherwise some reachable state has a worker that a draw, or the lack of one, leaves stuck |
| Runs.NothingToDraw | pkg/bench/payload.go:207-214 | with nothing to draw from, three steps lead to a worker that holds a connection and can take no step at all |
| Runs.DrawFails | pkg/bench/payload.go:207-255 | so does a draw whose request cannot be built, for that draw |
| Invariants.StepKept | pkg/bench/worker.go:37-143 | every step keeps the source, fate, outcome, time and ownership invariants |
| Invariants.OwnershipFollowsEffect | pkg/bench/conn.go:82-156 | a step gains exactly the connection it opens and gives up exactly the one it closes |
| Invariants.TimeKept | pkg/bench/worker.go:90-128 | recorded intervals of a worker stay disjoint, in time order and before the current call |
| Protocol.UpstreamExactIff | pkg/bench/worker.go:121-126 | the upstream header's milliseconds are recorded exactly iff their nanoseconds fit an int64 |
| Protocol.HugeUpstream | pkg/bench/worker.go:121-126 | a header of MaxInt64 milliseconds is recorded as minus one millisecond |
| Refinement.ScheduleProjects | pkg/bench/config.go:208-216 | interleaving does not show in a worker: its state is that of its own events |
| Refinement.FinishedWorkersRanTheLoop | pkg/bench/worker.go:37-74 | every worker of every finished schedule is what the run loop computes on some answers of the outside, and those answers meet all that `Worker.Run` asks for |
| Workers.Worker.Run | pkg/bench/worker.go:37-74 | the run loop follows the worker machine step for step, leaves its results in the field, and closes exactly what it dialed; it asks only that the turns that reach the call can build a request |
| Workers.Worker.Loop | pkg/bench/worker.go:54-73 | the loop's turns compose to the machine's turns and close per-request connections in dial order |
| Workers.Worker.TakeTurn | pkg/bench/worker.go:55-72 | one acquire, call, release turn is the machine's turn; says when it leaves the loop |
| Workers.Worker.DoCall | pkg/bench/worker.go:80-130 | drops exactly cancelled failures and failures after the deadline, else appends the record that `Traces.ResultsTold` describes |
| Workers.ConnSource.Acquire | pkg/bench/conn.go:96-154 | per-request dials, the others hand out what they hold |
| Workers.ConnSource.ReleaseConn | pkg/bench/conn.go:49-54 | the release function closes exactly what the release step of the system closes, for each model |
| Workers.ConnSource.Close | pkg/bench/conn.go:100-107 | closes what the system's source-closing step closes; a per-worker source forgets its connection |
| Workers.ConnPool.NewSource | pkg/bench/conn.go:82-140 | only the per-worker pool dials, and only it can fail |
| Workers.ConnPool.Close | pkg/bench/conn.go:90-142 | what it closes turns the close counts of a run whose workers are done into those of the finished run |
| Workers.NewConnPool | pkg/bench/conn.go:61-76 | unknown models are refused; the shared connection is dialed at once and its failure returned |
| Workers.ModelNames | pkg/bench/conn.go:61-76 | which name is which model |
| Bench.Validate | pkg/bench/config.go:93-145 | reports the first failing check in order, or none |
| Bench.FirstProblemIff | pkg/bench/config.go:93-145 | a configuration passes iff it has none of thirteen problems, and the problem reported is the first it has in the order of the checks |
| Bench.HasPositive | pkg/bench/config.go:106-115 | finds whether some entry has positive weight |
| Bench.NeverStuckIff | pkg/bench/config.go:93-145 | a validated configuration never leaves a worker stuck, whatever is drawn, iff there is a draw and every shape a draw picks has room: lengths within the platform's limit, and an embedding-bytes length that does not wrap below zero |
| Bench.ValidatedNeverStuck | pkg/bench/config.go:167-206 | with a weight total in int64 range no worker is ever stuck iff there is room for every shape of positive weight, and then every unfinished state has a next step |
| Bench.ValidatedCanFinish | pkg/bench/config.go:147-206 | and then every reachable state can be brought to the end of the run within seven steps per worker and two |
| Bench.SentRequests | pkg/bench/payload.go:225-255 | every request in flight has a shape that the mix sends with positive weight, and by that shape the configured string length, bytes size or dimension in its place; its lengths can be allocated, even when the weights overflow |
| Bench.ValidateAdmitsOverflow | pkg/bench/config.go:106-115 | two MaxInt weights pass validation and leave nothing to draw |
| Bench.ValidateAdmitsHugeDimension | pkg/bench/config.go:116-118 | an embedding-bytes dimension of 2^61 passes validation and gets a worker stuck on every platform; 2^62 wraps to an empty slice and does not |
| Bench.ValidateAdmitsHugeSize | pkg/bench/config.go:119-121 | a bytes size one above the platform's limit passes validation and gets a worker stuck |
| Bench.Merge | pkg/bench/config.go:218-225 | the workers' results, concatenated in worker order |
| Bench.Summarise | pkg/bench/config.go:218-227 | merges, measures elapsed and aggregates |
| Bench.SummariesAgree | pkg/bench/config.go:218-227 | the summary computed from worker objects is one of the state whose results they hold, so what is proved of every run's summary holds of it |
| Bench.SummaryAccounting | pkg/bench/config.go:218-227 | the summary counts every recorded attempt, misses at most one per worker, and counts every success once the run is over |
| Bench.SummaryTellsRun | pkg/bench/config.go:218-227 | the summary of any schedule counts the kept attempts and the failures among them; its totals sum to the times from call to answer of the successes, its server times to those in the replies |
| Bench.RunFigures | pkg/bench/aggregator.go:286-315 | with server times in 0..MaxInt64 a run's network min, percentiles and max stay at or below its total ones; when workers times elapsed fits an int64 the mean is exact and the network mean at most the total mean |
| Bench.CancellationLines | pkg/bench/aggregator.go:92-136 | the summary lists Canceled or DeadlineExceeded iff opening or acquiring failed with that code and was recorded |
| Bench.RunDurations | pkg/bench/worker.go:90-105 | every recorded successful duration is a non-negative int64 |
| Bench.MergeOrderIrrelevant | pkg/bench/config.go:222-225 | reordering the workers does not change the summary of the run when keys have one source |
| Aggregator.Aggregate | pkg/bench/aggregator.go:25-83 | computes the summary that IsSummary determines |
| Figures.SummaryFigures | pkg/bench/aggregator.go:25-83 | for int64 durations every figure is what its name says, by counting results: counts, throughput, and for each of the four series the extremes, the three percentiles and the mean when the sum fits |
| Figures.SummaryBreakdowns | pkg/bench/aggregator.go:77-80 | shares are of all results; the skew is that of the summary's own list: ends for the counts, extremes of the nonzero P99s |
| Figures.BackendFigures | pkg/bench/aggregator.go:234-284 | a backend's line counts its results and failures, ranks its successes at 50 and 99 percent or has zeros, gives its share, and the source of its first result |
| Figures.CodeFigures | pkg/bench/aggregator.go:92-182 | a code's line counts its failures and at most three messages, each as shown, in order of count and then text; a message is left out only behind three others |
| Figures.TruncateShows | pkg/bench/aggregator.go:153-159 | a message is shown whole up to eighty characters, else its first eighty and three dots |
| Aggregator.CollectSeries | pkg/bench/aggregator.go:47-67 | collects the four series of the successful results |
| Aggregator.Elapsed | pkg/bench/config.go:256-271 | latest end minus earliest start, saturating; zero without results |
| Figures.ElapsedFigure | pkg/bench/config.go:256-271 | the elapsed time is between the earliest start and the latest end of two results, saturated at the int64 ends |
| Int64.SaturateIsNearest | pkg/bench/config.go:270 | subtracting instants gives the int64 nearest to the difference |
| Aggregator.WithinElapsed | pkg/bench/config.go:256-271 | every result lies between the earliest start and the latest end |
| Aggregator.Conservation | pkg/bench/aggregator.go:32-80 | successes plus failures are all results; backend counts, backend errors and code counts add up to the totals |
| Aggregator.ScheduleIndependence | pkg/bench/aggregator.go:25-83 | permuted results give the same summary, elapsed included, when each key has one source |
| Aggregator.SourceDependsOnOrder | pkg/bench/aggregator.go:247-252 | otherwise two orders of the same results give different summaries |
| Aggregator.SummaryUnique | pkg/bench/aggregator.go:25-83 | for results in one order the summary is unique, whatever map order or sort algorithm |
| Aggregator.TotalBracketedByBackends | pkg/bench/aggregator.go:45-80 | Total.P50 and Total.P99 lie between the smallest and largest of that percentile over backends with a success |
| Aggregator.NetworkDominatedByTotal | pkg/bench/aggregator.go:50-75 | sorted network times are pointwise at most sorted totals, hence min, percentiles and max too, and the mean when the totals do not overflow |
| Aggregator.OverflowedTotals | pkg/bench/aggregator.go:50-75 | two calls of 2^62 nanoseconds give a network mean of zero above a negative total mean |
| Aggregator.NetworkAtMostTotalIff | pkg/bench/aggregator.go:54-58 | exactly which int64 results have a network time of at most the total |
| Figures.NetworkValue | pkg/bench/aggregator.go:54-58 | the network time of int64 durations is the difference, or zero when it is negative or wraps below zero |
| Aggregator.NegativeServerTime | pkg/bench/aggregator.go:54-58 | a server time of minus one makes a network time exceed its total |
| Aggregator.PartsCoverTotalIff | pkg/bench/aggregator.go:54-58 | exactly which int64 results have a total of at most server plus network: those whose difference does not wrap below zero |
| Aggregator.TotalsAgainstParts | pkg/bench/aggregator.go:50-65 | totals sum to at most server plus network, with equality iff no server time exceeds its total, which for non-negative totals is iff the clamp never fires |
| Aggregator.PartsFallShort | pkg/bench/aggregator.go:50-65 | a total of MaxInt64 with a server time of minus one exceeds server plus network, in the means too |
| Aggregator.MeanTotalAgainstParts | pkg/bench/aggregator.go:286-296 | mean total is at most mean server plus mean network plus one |
| Aggregator.MeanTimesCount | pkg/bench/aggregator.go:292-296 | for a non-negative sum, mean times count never exceeds it |
| Backends.ComputeBackends | pkg/bench/aggregator.go:234-284 | one line per distinct key, each about exactly that key's results, strictly by count descending then key ascending |
| Backends.FillBuckets | pkg/bench/aggregator.go:239-261 | the bucket map equals filtering by key |
| Backends.BackendsUnique | pkg/bench/aggregator.go:263-283 | the list is determined by the results |
| Backends.BackendTotals | pkg/bench/aggregator.go:246-261 | backend counts sum to all results and backend errors to all failures |
| Backends.PercentileBracketed | pkg/bench/aggregator.go:263-273 | for any split by key, some group's percentile is at most and some at least the overall one |
| Backends.NamelessLineIff | pkg/bench/aggregator.go:246-335 | a backend line has no key iff its results carry no name at all, and iff its source is unknown |
| Skew.ComputeBackendSkew | pkg/bench/aggregator.go:190-227 | the scans compute the two ratios that the next rows describe |
| Skew.CountRatioIsEnds | pkg/bench/aggregator.go:193-206 | on the sorted list the extremes are the ends, the guard never acts, the ratio is at least one and one iff counts are equal |
| Skew.FewBackends | pkg/bench/aggregator.go:193 | fewer than two backends have no count ratio |
| Skew.P99RatioIsExtremes | pkg/bench/aggregator.go:208-224 | for non-negative durations the latency ratio is the greatest nonzero P99 over the least when two lines have one, is one iff they are all equal, and is zero otherwise |
| Skew.P99RatioReported | pkg/bench/aggregator.go:208-224 | for non-negative durations reported iff two backends have a nonzero P99, and then at least one |
| Skew.SuccessfulButLeftOutIff | pkg/bench/aggregator.go:210-213 | a successful backend is left out iff 99 percent of its successes took no time |
| Skew.InstantBackends | pkg/bench/aggregator.go:208-224 | two backends with a success each that took no time are both listed, and no latency ratio is reported |
| StatusCodes.ComputeStatusCodes | pkg/bench/aggregator.go:92-136 | one line per failing code with its count and top messages, strictly ordered |
| StatusCodes.StatusCodesUnique | pkg/bench/aggregator.go:120-135 | the list is determined by the results |
| StatusCodes.StatusCodeTotals | pkg/bench/aggregator.go:102-115 | code counts sum to all failures |
| StatusCodes.CodeListedIff | pkg/bench/aggregator.go:102-128 | a code is listed iff some result failed with it |
| StatusCodes.HistogramCounts | pkg/bench/aggregator.go:113-114 | the message map counts the group's results by truncated message |
| StatusCodes.TopMessages | pkg/bench/aggregator.go:164-182 | keeps min(3, distinct) messages in strict order; everything left out ranks later |
| StatusCodes.TopMessagesUnique | pkg/bench/aggregator.go:168-181 | the kept messages are determined by the histogram |
| StatusCodes.TopCountsIff | pkg/bench/aggregator.go:164-182 | kept counts sum to at most the bucket's count, with equality iff at most three distinct messages |
| StatusCodes.TruncateIdempotent | pkg/bench/aggregator.go:153-159 | truncating twice is truncating once, at most 83 characters |
| Latency.ComputeLatencyStats | pkg/bench/aggregator.go:286-315 | the running sums compute the statistics that `Latency.ReportedFigures` and the mean and deviation rows describe |
| Latency.ReportedFigures | pkg/bench/aggregator.go:305-314 | the count is that of the samples, Min and Max the least and the greatest of them, P50, P90 and P99 those percentiles; all are zero without samples |
| Latency.NearestRank | pkg/bench/aggregator.go:337-355 | the value reported is the least sample at least p percent of the samples do not exceed, and nothing else is; the clamps never act |
| Latency.PercentileMonotone | pkg/bench/aggregator.go:337-355 | percentiles grow with p |
| Latency.PercentilesOrdered | pkg/bench/aggregator.go:305-314 | Min <= P50 <= P90 <= P99 <= Max |
| Latency.MeanExactIffSumFits | pkg/bench/aggregator.go:292-296 | the mean is the exact truncated mean iff the sum fits an int64 |
| Latency.OverflowedMean | pkg/bench/aggregator.go:292-296 | two samples of 2^62 average to a negative number |
| Int64.WrapIs | pkg/bench/aggregator.go:292-295 | an int64 accumulator holds the int64 congruent to the sum modulo 2^64 |
| Latency.OverflowedSpread | pkg/bench/aggregator.go:292-303 | for samples 2^62 and 2^62 + 2^20 the deviation is 2^63 - 2^19, an int64 far above Max - Min, and the squared differences exceed the exact n^2 variance by n^2 or more |
| Latency.MeanBetweenExtremes | pkg/bench/aggregator.go:292-308 | Min <= Mean <= Max, negative samples included |
| Latency.TruncatedMeanVariance | pkg/bench/aggregator.go:296-303 | the squared differences exceed the exact n^2 variance by (sum - n mean)^2, less than n^2 |
| Latency.StddevIsRootMeanSquare | pkg/bench/aggregator.go:298-303 | the deviation is the floor of the root of the mean squared difference, and an int64 iff some difference from the mean does not wrap to MinInt64 |
| Latency.StddevAtMostRange | pkg/bench/aggregator.go:298-303 | Stddev <= Max - Min |
| Payload.ParsePayloadMix | pkg/bench/payload.go:66-126 | the parsing loop computes the parser function the grammar lemmas are about |
| Payload.ParseOkIff | pkg/bench/payload.go:66-126 | parsing returns a mix iff the trimmed text spells it: known distinct shapes, all weighted or none |
| Payload.ParseErrIff | pkg/bench/payload.go:67-123 | otherwise the error is the empty mix, the leftmost failing token's, or mixed weighting checked last |
| Payload.TokenFailsIff | pkg/bench/payload.go:77-116 | which error a token gives, by its text: two colons or no name, else an unlisted name, else a repeated shape, else a weight that is missing, not a number or negative |
| Payload.RoundTripIff | pkg/bench/payload.go:132-144 | printing then parsing returns the mix iff it is non-empty with distinct known shapes and weights in 0..MaxInt |
| Payload.ReparsePrinted | pkg/bench/payload.go:132-144 | whatever the spelling, the printed form parses to the same mix, of at most five entries |
| Payload.MixFlag.String | pkg/bench/payload.go:132-144 | the building loop prints the text that `Payload.PrintedForm` describes |
| Payload.PrintedForm | pkg/bench/payload.go:132-144 | nothing for the empty mix; for a well-formed one no colon iff it is one entry of weight one, printed as its bare name; else per entry, between commas and in order, the name, a colon and the weight in digits without leading zeros |
| Payload.FlagNames | pkg/bench/payload.go:27-43 | which name is which shape, both ways |
| Payload.MixFlag.Set | pkg/bench/payload.go:149-156 | overwrites the mix on success only |
| Text.DecimalRoundTrip | pkg/bench/payload.go:108-111 | reading what %d prints gives the number iff it is an int64 |
| Text.AtoiVariants | pkg/bench/payload.go:108-111 | a plus sign and leading zeros are accepted and change nothing; minus zero is zero |
| Text.AtoiIff | pkg/bench/payload.go:108-111 | a number is read iff the text is an optional sign and decimal digits whose positional value is that number, an int64 |
| Text.StringLessIff | pkg/bench/aggregator.go:281 | keys and messages compare lexicographically: a proper extension, or greater at the first difference |
| Text.SplitJoin | pkg/bench/payload.go:72-82 | splitting a join gives the parts back |
| Text.TrimmedParts | pkg/bench/payload.go:67-70 | trimming takes off white space at the ends, all of it and nothing else |
| Text.SpaceTable | pkg/bench/payload.go:67 | which characters are white space |
| Sampler.NewPayloadSelector | pkg/bench/payload.go:186-203 | accumulates the positive weights, or reports that there are none |
| Sampler.SelectorIff | pkg/bench/payload.go:199-202 | there is a selector iff some entry has a positive weight |
| Sampler.SearchInts | pkg/bench/payload.go:212 | the binary search loop computes the search function |
| Sampler.SearchFindsFirst | pkg/bench/payload.go:212 | on an ascending series it finds the first position that is large enough |
| Sampler.PickIsScan | pkg/bench/payload.go:207-214 | for every draw below the total the pick is that of a linear scan, on the fast path too |
| Sampler.DrawPicks | pkg/bench/payload.go:207-214 | a draw below the total picks some shape even when the total has wrapped |
| Sampler.ExactSamplingIff | pkg/bench/payload.go:186-214 | each shape is reached by exactly its weight in draws iff the total weight fits an int64 |
| Sampler.ZeroWeightNeverPicked | pkg/bench/payload.go:191-194 | only shapes with a positive weight are picked, by any draw, even when the total has wrapped |
| Sampler.SentShapeIsDrawn | pkg/bench/payload.go:207-214 | without overflow each shape with a positive weight is picked by some draw |
| Sampler.OverflowedTotal | pkg/bench/payload.go:195 | two MaxInt weights total -2 |
| Sampler.WrappedPick | pkg/bench/payload.go:207-214 | three weights whose total wraps to one: every draw picks the lightest entry |
| Sampler.EmbeddingSizesMatchIff | pkg/bench/payload.go:236-245 | embedding-bytes is four times embedding-float iff four times the dimension fits an int64 |
| Sampler.RequestCarries | pkg/bench/payload.go:225-255 | what a request of each shape carries |
| Sampler.HugeDimension | pkg/bench/payload.go:236-245 | at dimension 2^61 embedding-bytes has length -2^63, which no platform allocates |
| Sampler.RequestsAllocatableIff | pkg/bench/payload.go:225-255 | with validated sizes a request can be allocated iff the sizes its shape uses are within the limit, where only the embedding-bytes length is computed and can wrap below zero |
| Sampler.QuadrupleWrapsIff | pkg/bench/payload.go:244 | it does for the dimensions that are at least 2^61 modulo 2^62 |

## Left out

- gRPC, TLS, metadata and context internals: a connection is open or closed, a call is its reply.
- Byte counters and `compression.go`: plain commuting adds that the summary never reads.
- `report.go` and `report_json.go`: formatting of the summary. `StatusCodeStats.CodeName` is left out with them.
- Floating-point rounding in ratios, percentages, throughput, square root and percentile rank.
- The random generator's distribution: results hold for every draw.
- Request contents: only the shape and the lengths are modelled.
- Header metadata and labels beyond validation.
- Slices as shared memory: series and buckets are values held in variables that loops reassign, so capacity and aliasing of Go slices are not captured.
- Panics other than an impossible draw or length, process signals and log output, including the logged errors of `Close`.
- Strings are sequences of characters: message and key order is by character, which for valid UTF-8 is Go's byte order; invalid UTF-8 is not modelled.
- `pkg/echo`, `pkg/dns`, `pkg/listen`, `pkg/send`, `pkg/app` and `cmd/netdebug`.
- Running out of memory: a length within the platform's limit for one allocation is taken to be allocated.
- Latency.StddevIsRootMeanSquare: the conversion of the root to int64 is unspecified in Go when the root is 2^63; the model then states the root itself. The lemma says exactly when that happens: every difference from the mean wraps to MinInt64.
- Latency.MeanBetweenExtremes: asks that the sum of the samples fit an int64; `Latency.OverflowedMean` shows a mean below every sample otherwise. A wrapped mean can also fall between the extremes by accident, so the condition is exact for the mean itself (`Latency.MeanExactIffSumFits`) and only sufficient here.
- Latency.StddevAtMostRange: asks that the sum and the range of the samples fit an int64, which is only sufficient; `Latency.OverflowedSpread` breaks it otherwise.
- Latency.TruncatedMeanVariance: asks the same, only sufficient for the same reason; `Latency.OverflowedSpread` breaks it otherwise.
- Aggregator.NetworkDominatedByTotal: for the mean alone, asks that the totals sum to an int64, which is only sufficient; `Aggregator.OverflowedTotals` breaks it otherwise.
- Aggregator.TotalsAgainstParts: asks of each result the condition that is exact for one (`Aggregator.PartsCoverTotalIff`); among several, one shortfall can be made up by the others.
- Aggregator.MeanTotalAgainstParts: asks the same and that none of the three sums overflow, which is only sufficient; `Aggregator.PartsFallShort` breaks it otherwise.
- Bench.RunFigures: for the mean alone, asks that workers times elapsed fit an int64, which a reader of the summary can check; it bounds the sum that has to fit.
- Bench.MergeOrderIrrelevant: asks that no key string has two sources, because the first result seen decides the source; `Aggregator.SourceDependsOnOrder` shows the condition is needed.
