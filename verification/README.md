# Vegeta: a verified model of the load generator's core

Vegeta attacks HTTP targets at a paced rate and reports on the results. This project models the
parts of it whose correctness is subtle and proves what they promise, for every input, every
interleaving and every run.

- **Attack** (`Attack.dfy`, `AttackRuns.dfy`, `AttackTraces.dfy`, `AttackPacing.dfy`): one dispatcher paces ticks over an
  unbuffered channel to a growing pool of workers; each worker stamps and numbers its hit under a
  mutex. It is a state machine whose actions are the single steps of the goroutines, of callers of
  `Stop` and of the clock. Go's run-time panics (send on or close of a closed channel, negative wait
  group, division by zero) are outcomes of the model, and are shown not to happen. The critical
  section is four steps (lock, read the clock, copy the number, increment and unlock), so the
  ordering of timestamps is a consequence of the mutex and not of the model. The clock never goes
  back and a sleep lasts at least as long as asked; a select may take a tick after `Stop`. A call
  of `Stop` is four steps (enter, look, commit, leave), whether the user, the dispatcher or a
  worker makes it.
- **Pacers** (`Pacer.dfy`, `GoInt.dfy`): `ConstantPacer` with Go's 64-bit arithmetic written out,
  wrap-around included; `LinearPacer` over exact reals. Integer durations are nanoseconds.
- **Plot** (`Plot.dfy`, `Lttb.dfy`): the reorder buffer and its monotone series as objects that share
  references as in the source, and streaming Largest-Triangle-Three-Buckets against a whole-array
  definition. Reals stand for `float64`, so bucket bounds are exact floors.
- **End to end** (`EndToEnd.dfy`): what the attack's ordering means for the plot.
- **Readers** (`Targets.dfy`, `RoundRobin.dfy`, `Detect.dfy`): the HTTP target format with its
  one-line lookahead, the round-robin merge of result streams and format detection.
- **Summaries** (`Metrics.dfy`, `Histogram.dfy`): streaming statistics against their definitions.

Where the code keeps state in objects, the model has classes whose methods are proved equal to
functions on values; the properties are proved about those functions.

Findings, each proved exactly:

- The overflow guard of `ConstantPacer.Pace` lets one value of `hits` too many through. The wait is
  right if and only if the remaining time fits an int64 (`Pacer.RefinesSchedule`,
  `Pacer.GuardIsOffByOne`). An attack that has kept to its schedule never gets there
  (`Pacer.OnScheduleStaysExact`), so `AttackPacing.NeverEarly` needs no bound on the duration.
- Above one hit per nanosecond `Pace` divides by zero (`Pacer.FaultsExactlyAboveOnePerNano`,
  `Pacer.TwoPerNanoFaults`).
- The doc comment of `Stop` says that only the first call returns true. Two racing calls can both
  (`AttackRuns.TwoStopsBothTrue`). At most one does if and only if no two calls are between the
  check of the channel and its close at once (`AttackRuns.AtMostOneTrueIffOnePending`). The comment
  is right for callers that take turns (`AttackRuns.TakingTurnsFirstIsTold`); the dispatcher and
  the workers are callers too.
- With `maxWorkers == 0` an attack blocks until `Stop` (`AttackRuns.BlocksWithoutWorkers`);
  otherwise it never does (`AttackRuns.AttackNeverStuck`).
- `Latencies.Min` and `Earliest` use 0 for "not set", so a zero is forgotten when another value
  follows (`Metrics.RunningMinExact`).
- A latency below the first bound of a histogram is counted in the last bucket
  (`Histogram.TallyCountsMembers`, `Histogram.BelowGoesLast`).
- `Duration + Wait` can exceed an int64 although each of them is clamped to one; then the
  throughput is negative (`Metrics.ThroughputCanBeNegative`). `Metrics.ReportMakesSense` says
  exactly when it is not.

## Model

| member | source | states |
|---|---|---|
| Pacer.ExpectedHitsWereDue | lib/pacer.go:59 | at a rate of at most one hit per nanosecond `expectedHits` does not overflow and counts only hits that were due |
| Pacer.IntervalIsFloor | lib/pacer.go:64 | the interval is the largest number of nanoseconds of which Freq fit into Per |
| Pacer.WithoutARate | lib/pacer.go:52-57 | a zero rate is unlimited and a negative one stops at once |
| Pacer.StopsExactlyAtOverflow | lib/pacer.go:60-68 | Pace stops exactly when it is not behind and hits times the interval exceeds MaxInt64 |
| Pacer.WaitingBranch | lib/pacer.go:69-71 | the waiting branch returns the remaining time modulo 2^64: the two wraps cancel |
| Pacer.RefinesSchedule | lib/pacer.go:51-72 | on both branches the effective sleep is max(0, (hits+1)*(Per/Freq) - elapsed), if and only if that remaining time fits an int64 |
| Pacer.OnScheduleStaysExact | lib/pacer.go:51-72 | once the hits so far were sent on schedule, Pace waits exactly until the next one is due, whatever the elapsed time |
| Pacer.GuardIsOffByOne | lib/pacer.go:64-68 | a concrete call in which the guard lets an overflow through and Pace asks for no wait |
| Pacer.FaultsExactlyAboveOnePerNano | lib/pacer.go:64-65 | the division by a zero interval happens exactly for 0 < Per < Freq when not running behind |
| Pacer.TwoPerNanoFaults | lib/pacer.go:64-65 | two hits per nanosecond fault on the first call |
| Pacer.HitsIntegrateRate | lib/pacer.go:287-309 | LinearPacer's hits is the integral of its Rate |
| Pacer.RateIsLinear | lib/pacer.go:289-294 | LinearPacer's rate starts with that of StartAt and grows by Slope every second |
| Pacer.LinearFirstHit | lib/pacer.go:259-271 | LinearPacer sends the first hit at once; a zero rate is unlimited and a negative one stops |
| Pacer.RampGains | lib/pacer.go:289-309 | on a rising ramp, waiting w gains at least rate times w hits of the integral |
| Pacer.LinearCatchesUp | lib/pacer.go:267-271 | when LinearPacer is behind it does not wait and the next hit was already due |
| Pacer.LinearNeverEarly | lib/pacer.go:273-284 | otherwise the ramp integral at elapsed + wait is at least hits + 1 less the rounding of interval and wait |
| Pacer.LinearNotLate | lib/pacer.go:273-284 | nor does it wait longer than the hits still missing take at the present rate, plus the rounding of interval |
| Pacer.LinearGivesUpOnlyAtOverflow | lib/pacer.go:274-282 | a rising ramp stops, or leaves the conversion to the platform, only when interval times hits + 1 exceeds MaxInt64 |
| Attack.InvStep | lib/attack.go:446-557 | every step of dispatcher, worker, Stop caller or clock keeps the invariant over channels, wait group, counters, critical section and results |
| Attack.WorkKeepsExclusion | lib/attack.go:553-557 | one worker at a time is between Lock and Unlock, and the number it has copied is still current |
| Attack.WorkKeepsOrder | lib/attack.go:544-557 | a timestamp taken in the critical section is no earlier than those of all smaller numbers |
| Attack.WorkKeepsFaith | lib/attack.go:536-569 | a result keeps the number, timestamp and attack name it was given |
| Attack.WorkKeepsDistinct | lib/attack.go:529-557 | no sequence number is held or delivered twice |
| AttackRuns.Conservation | lib/attack.go:474-508 | at every moment ticks sent = numbers taken + unnumbered ticks, and numbers taken = results delivered + unsent results |
| AttackRuns.ConcurrencyCap | lib/attack.go:449-464 | hits in flight never outnumber live workers, the wait group counts exactly those, and no more than maxWorkers are ever started |
| AttackRuns.ShutdownIsSafe | lib/attack.go:466-472 | ticks, results and stopch are each closed at most once and nothing is sent on a closed channel, in any interleaving |
| AttackRuns.ExactlyOnce | lib/attack.go:442-472 | when results is closed the delivered sequence numbers are exactly 0..count-1, each once |
| AttackRuns.TimestampsFollowNumbers | lib/attack.go:544-552 | over all delivered results timestamps order like sequence numbers |
| AttackRuns.NoSpawnAfterStop | lib/attack.go:488-501 | after stopch is closed no select takes the spawn branch; only a worker already decided on is started |
| AttackRuns.SlowHitsDoNotBlock | lib/attack.go:488-508 | while the pool may grow, a dispatcher waiting to send a tick has a worker about to take it, however many hits are slow |
| AttackRuns.AtMostOneTrueIffOnePending | lib/attack.go:519-527 | at most one Stop call is or will be told true if and only if no two calls are between the check and the close at once |
| AttackRuns.TakingTurnsFirstIsTold | lib/attack.go:515-527 | if every Stop call returns before the next begins, the dispatcher's and the workers' own included, the first is told true and all others false |
| AttackRuns.TwoStopsBothTrue | lib/attack.go:519-527 | two racing Stop calls can both return true, and the channel is still closed once |
| AttackRuns.ShutdownStep | lib/attack.go:529-534 | after ticks is closed every step of the dispatcher or a worker lowers a natural-number measure |
| AttackRuns.ShutdownNeverStuck | lib/attack.go:467-472 | until results is closed some step of the dispatcher or a worker is enabled |
| AttackRuns.ShutdownTerminates | lib/attack.go:467-472 | no run contains more shutdown steps than the measure |
| AttackRuns.ShutdownCompletes | lib/attack.go:467-472 | a shutdown that can go no further has closed results and delivered every tick |
| AttackRuns.ShutdownCanFinish | lib/attack.go:467-472 | from every moment of the shutdown some continuation reaches the end with every tick delivered exactly once |
| AttackRuns.StopCanFinish | lib/attack.go:486-508 | once Stop was called the attack can reach its end without another tick, with every tick sent delivered exactly once |
| AttackRuns.AttackNeverStuck | lib/attack.go:475-509 | outside a sleep some step is enabled, except exactly when no worker may be started and Stop was not called |
| AttackRuns.BlocksWithoutWorkers | lib/attack.go:475-508 | an attack that may start no worker gets to a moment at which nothing but a call of Stop can bring it on |
| AttackRuns.NextTick | lib/attack.go:486-508 | a dispatcher that has decided on a tick can send it the moment it is due to wake, whatever the workers were doing |
| AttackTraces.SelectIs | lib/attack.go:488-508 | a select hands a tick to one waiting worker, starts a worker only when none waits and the attack is not stopped, and ends the attack only once it is stopped |
| AttackTraces.PoolNeverShrinks | lib/attack.go:449-464 | the pool starts with min(workers, maxWorkers) workers and never shrinks |
| AttackTraces.ResultsAreAnswers | lib/attack.go:536-590 | every delivered result reports a hit that returned in the run: code, byte counts and error are the hit's, and timestamp plus latency is the moment it returned |
| AttackTraces.TimestampsAreTaken | lib/attack.go:553-557 | the timestamp of every delivered result is the clock as read by the worker that held the mutex |
| AttackTraces.EndsForAReason | lib/attack.go:475-484 | with any pacer, an attack that nobody stopped leaves its loop only because the duration has passed or the pacer said so |
| AttackTraces.FinishedHasStopped | lib/attack.go:467-472 | a finished attack has called Stop itself |
| AttackPacing.CheckIsExact | lib/attack.go:475-486 | after one decision of the pacer the dispatcher ends the attack or sleeps until the next hit is due, neither less nor more |
| AttackPacing.CheckPaces | lib/attack.go:476-486 | after one decision of the pacer the dispatcher does not wake before the next hit is due and is still within the duration |
| AttackPacing.NeverEarly | lib/attack.go:474-557 | in every interleaving the result with number n carries a timestamp no earlier than began + (n+1)*(Per/Freq), as far as an int64 offset can show |
| AttackPacing.BoundedTotal | lib/attack.go:474-509 | an attack of duration du > 0 dispatches at most du/(Per/Freq) + 1 hits, whatever delays occur |
| AttackPacing.EndsOnlyWhenDue | lib/attack.go:475-484 | an attack that nobody stopped ends only after its duration, or once hits times the interval exceed MaxInt64 |
| AttackPacing.AttackGoesOn | lib/attack.go:474-508 | within its bounds and with a worker allowed, an attack can send its next hit at the very moment it is due, or at once if it is late |
| AttackPacing.BoundIsReached | lib/attack.go:474-509 | the bound is tight: some run sends all du/(Per/Freq) + 1 hits, each when it is due |
| AttackPacing.NeverPanics | lib/attack.go:446-534 | with such a pacer no reachable state has panicked |
| AttackPacing.AttackTerminates | lib/attack.go:474-513 | no run of an attack of duration du > 0 has more steps of dispatcher and workers than 12 (du/(Per/Freq) + 1) + 2 maxWorkers + 8 |
| AttackPacing.AttackCanFinish | lib/attack.go:446-513 | from every moment of such an attack some continuation reaches the end with every tick delivered exactly once, if a worker may be started or Stop was called |
| Lttb.BoundIsQuotient | lib/lttb/lttb.go:31-46 | the floor of the real bucket bound is the integer quotient |
| Lttb.Buckets | lib/lttb/lttb.go:30-46 | the buckets are non-empty and contiguous, start at index 1 and end before the last point |
| Lttb.BucketHolds | lib/lttb/lttb.go:31-66 | bucket i is points i(n-2)/(t-2)+1 up to (i+1)(n-2)/(t-2)+1, and the one after the last is the final point alone |
| Lttb.AreaIsShoelace | lib/lttb/lttb.go:87-91 | the compared area is the square of twice the triangle's area by the shoelace formula, 0 exactly for points in a line |
| Lttb.MeanIsWeighted | lib/lttb/lttb.go:72-79 | the mean of one point is that point, and means combine by their weights |
| Lttb.Pick | lib/lttb/lttb.go:81-95 | the first point of the bucket whose triangle is largest |
| Lttb.Chosen | lib/lttb/lttb.go:39-66 | the index of each sample in the input: the ends, and one point inside each bucket |
| Lttb.ChosenIncreases | lib/lttb/lttb.go:39-66 | the first and last points are kept and the chosen indices strictly increase |
| Lttb.LttbIsUnique | lib/lttb/lttb.go:12-19 | the defining property of the algorithm has exactly one solution, the recursive definition |
| Lttb.Iter.Next | lib/plot/timeseries.go:43-56 | the next points, as many as asked for or left, and an error once a damaged series has run out |
| Lttb.Sample | lib/lttb/lttb.go:71-96 | the streaming loops compute the pick against the mean of the next bucket |
| Lttb.Downsample | lib/lttb/lttb.go:20-69 | streaming equals the whole-array definition; exactly the damaged series and the thresholds 1, 2 and below 0 are refused |
| Plot.TimeSeries.Add | lib/plot/timeseries.go:31-41 | appends unless the timestamp is before the previous one |
| Plot.LabeledSeries.Add | lib/plot/plot.go:71-110 | the object with its shared series references does what the function on values does, error included |
| Plot.ReorderBuffer | lib/plot/plot.go:71-110 | for any arrival order no add fails, seq is the least number not received, the buffer holds exactly the larger ones, and each series is its results in sequence order relative to result 0 |
| Plot.OrderDoesNotMatter | lib/plot/plot.go:44-46 | two arrival orders of the same results lead to the same plot |
| Plot.CompleteMeansDrained | lib/plot/plot.go:93-107 | once results 0..n-1 have arrived the buffer is empty |
| Plot.RefusesIff | lib/plot/timeseries.go:31-34 | for distinct numbers in any order of arrival, an add fails if and only if two results of one label are out of order in milliseconds |
| Plot.SeriesShowsResults | lib/plot/plot.go:79-105 | a series holds exactly the results of its label in sequence order, each with its latency in milliseconds and whole milliseconds since result 0 |
| Plot.PointShows | lib/plot/timeseries.go:43-56 | an entry is drawn at its time in seconds with its value |
| Plot.InOrderMonotone | lib/plot/timeseries.go:31-34 | every series is non-decreasing in milliseconds |
| Plot.DrawnInOrder | lib/plot/plot.go:298-304 | what is drawn for a series has the asked number of points, keeps its ends and is ordered in time |
| Plot.Downsampled | lib/plot/plot.go:298-301 | downsampling a series through its iterator draws exactly those points |
| EndToEnd.PlotNeverRefuses | lib/plot/timeseries.go:29-34 | whichever results of one attack are fed to a plot, in whatever order, the monotonicity error never occurs |
| EndToEnd.PlotShowsWholeAttack | lib/plot/plot.go:93-107 | after a whole attack fed in any order nothing is buffered and every series holds its results in sequence order |
| EndToEnd.PlotShowsLatencies | lib/plot/plot.go:79-105 | after a whole attack entry j of a series shows the latency of the j-th result of its label at the whole milliseconds between its timestamp and that of result 0 |
| Targets.StartsWithMethodIs | lib/targets.go:339-345 | a line looks like a request if and only if it begins with capital letters and one of five white-space characters |
| Targets.SpacesOfLatin1 | lib/targets.go:278 | of the Latin-1 characters exactly eight count as white space when trimming |
| Targets.TrimIs | lib/targets.go:278 | trimming removes exactly the white space at both ends |
| Targets.RequestLineIs | lib/targets.go:291-302 | a request line is accepted if and only if it has a space, begins with a word in capitals and has a URL after the first space; otherwise the first that fails is the error |
| Targets.HeaderLinesAre | lib/targets.go:307-336 | header lines are accepted if and only if the first line that is neither comment nor header ends the block well; otherwise that line is the error, and nothing after it is consumed |
| Targets.CallSucceedsIff | lib/targets.go:265-336 | exactly when a call succeeds, in terms of the lines |
| Targets.ReadAllIs | lib/targets.go:231-247 | reading all targets returns those up to the end, in order; any other error, and an input without targets, discards everything |
| Targets.ParseTarget | lib/targets.go:265-336 | a call reports the end exactly when only blank and comment lines are left, and otherwise consumes at least one line |
| Targets.PeekingScanner.Peek | lib/targets.go:358-364 | a peeked line stays to be scanned, unless it is empty |
| Targets.PeekingScanner.Scan | lib/targets.go:366-371 | scanning takes the peeked line before the source |
| Targets.PeekingScanner.Text | lib/targets.go:373-380 | the scanned line, after which nothing is peeked |
| Targets.HTTPTargeter.Next | lib/targets.go:265-336 | one call of the targeter consumes and returns what the parser on lines says |
| Targets.ReadAllTargets | lib/targets.go:231-247 | reads to the end; any other error discards everything; no targets is an error |
| Targets.BlockParses | lib/targets.go:273-336 | one printed target parses back and leaves the following ones, whichever way it ends |
| Targets.PlainKeyIsNoRequest | lib/targets.go:303-306 | a header key without white space right after a request line is never taken for the next request |
| Targets.RoundTrip | lib/targets.go:249-261 | any well-formed targets printed in any allowed layout are read back in order with default body and headers merged |
| Targets.PrintedReadsBack | lib/targets.go:249-261 | the printed document itself is read back |
| Targets.HeadersMerge | lib/targets.go:286-330 | every key has its default values followed by the target's own in order |
| RoundRobin.FailsIffExhausted | lib/results.go:131-141 | a call fails exactly when every decoder is exhausted, after a full pass |
| RoundRobin.MergeLosesNothing | lib/results.go:122-142 | after any number of calls the deliveries interleave the streams' first results, each once and in order; exactly the first total calls succeed |
| RoundRobin.MergeDeliversAll | lib/results.go:122-142 | read to the end every stream has been delivered completely |
| RoundRobin.MergesInTurn | lib/results.go:131-139 | consultation j asks decoder j % n, and the deliveries are exactly what the decoders have for their turns, in that order |
| RoundRobin.AlternatesWhileNoneIsExhausted | lib/results.go:131-139 | while no decoder asked was exhausted, delivery k is result k / n of decoder k % n |
| RoundRobin.ConsultsAreFair | lib/results.go:132-134 | the numbers of times any two decoders were asked never differ by more than one |
| RoundRobin.Decoder.Decode | lib/results.go:124-142 | the closure, with its shortcut for one decoder, does what the function on values does |
| Detect.Attempt | lib/results.go:114-115 | an attempt sees the original stream from byte 0 and what it reads stays in buffer plus source |
| Detect.AcceptsIff | lib/results.go:114-115 | a decoder accepts a stream if and only if, read from byte 0 and given what it asks for, it settles with success |
| Detect.DecoderFor | lib/results.go:104-120 | the first decoder that accepts the original stream is chosen and is given that stream from byte 0; none exactly if none accepts |
| Metrics.SummaryIsDefinition | lib/metrics.go:50-74 | every streamed total, extreme and counter is the plain fold over the result set, the total latency modulo 2^64 |
| Metrics.CodesAreCounted | lib/metrics.go:54 | the status codes are those of the results, each with its count |
| Metrics.CodesSumToRequests | lib/metrics.go:53-54 | the values of the map of status codes sum to the number of requests |
| Metrics.ErrorsAreDistinct | lib/metrics.go:76-81 | the error list holds exactly the non-empty errors, each once |
| Metrics.ErrorsKeepTheirPlace | lib/metrics.go:76-81 | the error list is in the order in which the errors first occurred |
| Metrics.OrderDoesNotMatter | lib/metrics.go:50-74 | the streamed figures depend on the multiset of results only, the minima if no value is zero |
| Metrics.CodesOrderDoesNotMatter | lib/metrics.go:54-81 | so do the status codes and the set of errors |
| Metrics.RunningMinExact | lib/metrics.go:154-163 | the streamed minimum is the minimum if and only if a value is negative, or none is zero, or the last one is |
| Metrics.RunningMinForgetsZero | lib/metrics.go:159-161 | latencies 0 and 5 give a minimum that is not their minimum |
| Metrics.RunningMaxIs | lib/metrics.go:156-158 | the streamed maximum is the maximum if and only if some value is not negative |
| Metrics.ReportMakesSense | lib/metrics.go:93-114 | with no negative latency, 0 <= Success <= 1, Duration and Wait are not negative, and 0 <= Throughput <= Rate if and only if Duration + Wait fits an int64, or Duration is 0, or nothing succeeded |
| Metrics.ThroughputCanBeNegative | lib/metrics.go:99-102 | two results without a negative latency whose throughput is negative |
| Metrics.ReportMeans | lib/metrics.go:97-110 | for the earliest, latest and last instants of the results, Duration and Wait are the times between them, and Rate, Throughput, Success and the means the ratios of the folds over the results; without a duration the rates are counts |
| Metrics.ReportOfOne | lib/metrics.go:90-110 | the whole report of a single result |
| Metrics.Metrics.Add | lib/metrics.go:50-86 | adding a result extends the summarised results by it and leaves the report alone |
| Metrics.Metrics.Close | lib/metrics.go:90-115 | Close at any time leaves the streamed figures alone and sets the report to that of the results so far |
| Histogram.SlotIs | lib/histogram.go:28-33 | with increasing bounds a latency goes to the bucket that encloses it, one below all bounds to the last |
| Histogram.BelowGoesLast | lib/histogram.go:28-36 | with bounds 10 and 20 a latency of 5 is counted in the last bucket |
| Histogram.TallyCountsMembers | lib/histogram.go:20-37 | each bucket counts exactly the latencies in its bounds, the last also those below the first bound, so it is exact if and only if there are none |
| Histogram.TalliesSumToTotal | lib/histogram.go:35-36 | whatever the bounds, the counts sum to the total |
| Histogram.Histogram.Add | lib/histogram.go:23-37 | the loop over the bounds and the array of counts keep the tallies |

## Left out

- The HTTP client, dialer, TLS, DNS caching and request building of lib/attack.go: a hit is a step that returns an arbitrary outcome.
- The consumer of results is any process that keeps receiving; a hit in flight eventually returns.
- Counters of ticks, numbers, requests, successes, bytes and round-robin turns are unbounded; their uint64 wrap is not modelled.
- SinePacer: trigonometry and a numeric iteration without a stated guarantee.
- Pacer.LinearNeverEarly: over exact reals; the rounding of float64 itself is not modelled.
- Lttb.Downsample: over exact reals; with float64 the bounds may differ by one point from the exact floors.
- Lttb.Downsample: the count passed must be the number of points in the series, as its only caller ensures.
- The compression of go-tsz: a series is a plain sequence, and its iterator's error is a flag on the series.
- Choosing the reorder buffer by attack name in lib/plot/plot.go, and sorting and merging the drawn points of several series.
- Targets.HTTPTargeter.Next: default header slices are values; the source shares them and appends, which is the same only if they have no spare capacity.
- Targets.HTTPTargeter.Next: errors of the underlying scanner, the nil target and the fields set before an error are not modelled.
- Reading body files and validating URLs: a given map of file contents and an arbitrary predicate.
- The JSON and static targeters, and the gob, CSV and JSON codecs.
- RoundRobin.Decoder.Decode: an empty list of decoders, and decoders that fail and later succeed.
- Detect.Attempt: a decoder is an arbitrary program over the bytes it has read, which collects what it asks for however short the reads are.
- Quantiles: the t-digest is a foreign library. The histogram inside Metrics is modelled on its own.
- Histogram.Histogram.Add: an empty list of buckets, on which the source panics.
- Metrics.Metrics.Close: a throughput over zero seconds, possible only with negative latencies, is left undivided.
- Reporters, HTML output, Prometheus, the resolver, flags and commands.
