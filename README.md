# cg-runner in Dafny

cg-runner plays a two-player game many times by launching a referee program
(`java -jar <referee> -p1 <p1> -p2 <p2> [-l <output file>]`) C times, at
most P at a time. It waits on each batch's stdout pipes with `poll`, reads
the line `<p1 score> <p2 score> <seed token>` each referee prints, and
tallies wins, draws and errors. This project models the decision logic of
that program and proves what it promises:

- `Wrappers`: `Option` and `Outcome` (a value, or `exit(status)`).
- `IntegerResult`: `integer_result<T, Enum>`, which packs an error code into
  the sign bit of an int or a long. It is modelled as signed arithmetic on
  the stored T, with the bit facts checked on `bv32`.
- `Posix`: `pollfd::invalidate` (`fd = ~fd`). Also the `poll` wrapper, with
  the system call as an oracle answer (POSIX gives a negative descriptor
  `revents == 0`), and the dispatch loop of the `poll(fds, event, func)`
  overload.
- `Delivery`: `poll_one_each` of src/main.cpp, as the method `PollOneEach`
  over an array of descriptors. It is proved equal to the recursive
  function `Deliveries`, and the lemmas about `Deliveries` give the
  properties: at-most-once delivery, ascending order within a round,
  retry on EINTR/EAGAIN, and success exactly when every process was handed
  over.
- `Statistics`: `run_result` classification (`get_error`, `has_error`,
  `winner`) and the integer counters of `statistics_t`, a class updated in
  place by `draw`, `p1_wins`, `p2_wins` and `aggregate`.
- `Decimal`, `Cli`: decimal text, `std::to_string`, and `parse_unsigned_int`
  (a digit accumulator with explicit 32-bit wrap-around).
- `ProgramOptions`: the `option_t` defaults, `unwrap`, and `parse_options`
  as a two-state token machine (expect option / expect value) with
  clustered short flags. Each `exit(1)` is an `Exit(1)` outcome.
- `Runner`: the 12-slot `cmd_args` array, `make_runner` and `operator()`.
- `ResultLine`: the output file name
  `output-<timestamp>-<n>.json`, the `>> p1_score >> p2_score >> seed`
  extraction, and the cut of the seed after the first `=`.
- `Scheduler`: `main`'s validation and its batch loop. `min(left_to_run,
  parallel)` runs are launched per batch, `poll_one_each` waits on them, and
  the callback writes `results[offset + idx]` and aggregates it. The loop is
  proved to end with the results, command lines and counters that the
  specification functions `FinalResults`, `AllLaunched` and `FinalCounts`
  describe.
- `Program`: `main` from argv to the summary.
- `StreamBuf`: `fd_streambuf`, a class over one array shared by the get area
  and the put area, proved against pure step functions on a `Stream` value.
- `Presentation`: `digitnum`, `header_size`, `count_to_row` and
  `count_to_col`.

The outside world is a parameter, a `World`:

- the clock reading;
- the stdout descriptor of every launched run;
- the text each run writes there;
- the answers `poll` gives in each batch.

`read` and `write` of the stream buffer are answered by `IoAnswer` values.

A both-error result (both scores negative) adds one error to each player.
It therefore counts as two games played in `run_games()`, so after all C runs
`left_to_run()` is minus the number of both-errors (`AggregateRunGames`,
`CountsWhenAllDelivered`).

`main` ignores the status `poll_one_each` returns (src/main.cpp:107). A
batch whose poll fails keeps the entries it has not read, and the loop goes
on with the next batch.

## Model

| member | source | states |
|---|---|---|
| IntegerResult.IntegerResult.Value | src/posix.hpp:34-37 | `value()` may only be called on a value (its assert is the precondition); the value is non-negative |
| IntegerResult.IntegerResult.Error | src/posix.hpp:39-42 | `error()` may only be called on an error; it gives the stored bits without the sign bit, a code in [0, max of T] |
| IntegerResult.FromErrno | src/posix.hpp:44-46 | `from_errno()` is an error whose `error()` is errno |
| IntegerResult.FromUnknown | src/posix.hpp:48-50 | `from_unknown(v)` is a value exactly when v >= 0, then `value() == v`; a negative v gives the errno error |
| IntegerResult.FromError | src/posix.hpp:52-54 | `from_error(e)` is an error whose `error()` is e |
| IntegerResult.ErrorIffNotValue | src/posix.hpp:28-32 | `is_error()` and `is_value()` are exact complements; an error is a negative T |
| IntegerResult.FromErrorRoundTrip | src/posix.hpp:39-54 | for every code below the sign bit, `from_error(e)` is an error, not a value, stored negative, and `error()` gives e back |
| IntegerResult.TopBitIsSign | src/posix.hpp:28-30 | on 32 bits, `error_bit & x != 0` is the unsigned test x >= 2^31, i.e. x is negative |
| IntegerResult.OrThenXor | src/posix.hpp:41-53 | on 32 bits, `(e \| error_bit) ^ error_bit == e` for e < 2^31, and the or sets the error bit |
| Posix.Invalidate | src/posix.hpp:258 | `~fd` is -fd - 1 and stays an int |
| Posix.InvalidateHidesOpen | src/posix.hpp:258 | invalidating an open (non-negative) descriptor makes it negative |
| Posix.InvalidateTwice | src/posix.hpp:258 | invalidating twice gives the descriptor back |
| Posix.ComplementBits | src/posix.hpp:258 | on the bits: `~` is an involution and sets the sign bit of a non-negative int |
| Posix.Poll | src/posix.hpp:261-269 | the return goes through `from_unknown`: a value exactly when the call returned >= 0, else errno; negative descriptors get `revents == 0`, the others the kernel's |
| Posix.DispatchReady | src/posix.hpp:281-294 | after a successful poll `func` is called for exactly the entries with non-zero `revents` and a non-negative descriptor, in ascending order; after an error for none |
| Delivery.Deliveries | src/main.cpp:23-48 | the `while (n < s)` loop only hands indices of the poll set to the callback |
| Delivery.ReadyBelow | src/main.cpp:35-45 | a round's callbacks below k are indices below k |
| Delivery.ReadyBelowIsAscending | src/main.cpp:35-45 | within one round the callbacks come in strictly ascending index order, for exactly the entries with non-zero `revents` |
| Delivery.RoundCount | src/main.cpp:35-39 | when poll reports only watched entries, a round lowers the number of watched entries by the number it reports |
| Delivery.RoundFacts | src/main.cpp:26-45 | a successful round reports only watched entries, ascending, invalidates exactly those, and leaves every other entry unchanged |
| Delivery.DeliveredOnce | src/main.cpp:25-46 | every index handed to the callback was watched, and no index is handed over twice |
| Delivery.SuccessWhenAllCounted | src/main.cpp:23-48 | the loop returns success exactly when `n` (the invalidated count) reaches `ps.size()`; a returned failure is never EINTR or EAGAIN |
| Delivery.SuccessDeliversAll | src/main.cpp:25-48 | on success every watched entry has been handed to the callback |
| Delivery.RetryKeepsProgress | src/main.cpp:27-31 | an interrupted or would-block poll is retried with `n` and the poll set unchanged |
| Delivery.FailureStops | src/main.cpp:27-33 | any other poll error is returned at once, with no further callback |
| Delivery.RoundStep | src/main.cpp:25-46 | one successful pass of the body: this round's callbacks come before those of the later rounds |
| Delivery.DeliverRound | src/main.cpp:35-45 | the inner `for` loop counts, invalidates and hands over each ready entry in order; `n` plus the watched count is preserved |
| Delivery.BuildPollSet | src/main.cpp:18-22 | the poll set is built once, one entry per process in order |
| Delivery.PollRound | src/main.cpp:26-45 | one pass of the `while` body retries, returns the error, or runs the inner loop, keeping `n` plus the watched count equal to the set size |
| Delivery.PollOneEach | src/main.cpp:11-49 | `poll_one_each` returns the status and makes the callbacks that `Deliveries` describes |
| Delivery.OneEachCorrect | src/main.cpp:11-49 | for open descriptors: no index twice, success exactly when every process was handed over (and then each was), failure never EINTR or EAGAIN |
| Statistics.GetErrorCases | src/statistics.hpp:110-120 | both scores negative is `both_error`, only p1 negative `p1_error`, only p2 negative `p2_error`, otherwise `none` (each an if-and-only-if) |
| Statistics.HasErrorFlagMeaning | src/statistics.hpp:96-123 | `has_error(e)` is the bit-subset test: `has_error(none)` always holds, the player flags mean that score is negative, `both_error` means both are |
| Statistics.HasErrorIff | src/statistics.hpp:124 | `has_error()` holds exactly when some score is negative |
| Statistics.WinnerCases | src/statistics.hpp:126-136 | `winner` is p1 exactly when p1 > p2, p2 exactly when p2 > p1, draw exactly on equal scores; the error branch is unreachable |
| Statistics.ClassificationExamples | src/statistics.hpp:110-136 | sample score pairs classify as win, loss, draw, p1 error and both error |
| Statistics.InitialCounts | src/main.cpp:75 | `statistics_t{.total_games = n}` has run no game and has n left to run |
| Statistics.AggregateError | src/statistics.cpp:4-12 | an error result changes no victory, draw or total counter and adds one error to each player with a negative score |
| Statistics.AggregateGame | src/statistics.cpp:14-20 | a result without error adds one victory to the higher score, or one draw on equal scores, and keeps the error counters |
| Statistics.AggregateRunGames | src/statistics.cpp:3-21 | `run_games()` goes up by 2 for a both-error and by 1 for any other result; `left_to_run()` goes down by the same |
| Statistics.AggregateMonotone | src/statistics.cpp:3-21 | `aggregate` never decreases an integer counter and keeps `total_games` |
| Statistics.AggregateAllRunGames | src/statistics.hpp:37-46 | aggregating n results adds n games to `run_games()` plus one per both-error, and keeps `total_games` |
| Statistics.StatisticsT.constructor | src/main.cpp:75 | the counters start at zero with the given `total_games` |
| Statistics.StatisticsT.LeftToRun | src/statistics.hpp:37 | `left_to_run()` is `total_games - run_games()` with `run_games()` = victories + draws + errors |
| Statistics.StatisticsT.AddPlayerVictory | src/statistics.hpp:71 | `player_victory[x]++` and nothing else |
| Statistics.StatisticsT.Draw | src/statistics.hpp:56-59 | `draw` increments `draws` only, so `run_games()` goes up by 1 |
| Statistics.StatisticsT.P1Wins | src/statistics.hpp:61-64 | `p1_wins` increments `player1_victory` only, so `run_games()` goes up by 1 |
| Statistics.StatisticsT.P2Wins | src/statistics.hpp:65-68 | `p2_wins` increments `player2_victory` only, so `run_games()` goes up by 1 |
| Statistics.Aggregate | src/statistics.cpp:3-21 | `aggregate(result, stats)` leaves the counters `Aggregated` describes (whose meaning the lemmas above state) |
| Decimal.NatToStringDigits | src/main.cpp:81-83 | `std::to_string` of a non-negative number writes digits only, with no leading zero |
| Decimal.NatToStringRoundTrip | src/main.cpp:81-83 | reading back the digits `to_string` wrote gives the number |
| Decimal.NatToStringInjective | src/main.cpp:81-83 | different numbers are written differently |
| Decimal.LeadingZero | src/cli.hpp:22-23 | a leading '0' does not change the accumulated value |
| Cli.Wrap32 | src/cli.hpp:22-23 | the wrapped accumulator is an int |
| Cli.ParseUnsignedInt | src/cli.hpp:13-26 | the loop returns the `ParsedUnsignedInt` outcome: `empty_string` for "", `invalid_character` at a non-digit, else the value accumulated with 32-bit wrap-around |
| Cli.EmptyIsError | src/cli.hpp:14-16 | the empty string is an `empty_string` error |
| Cli.NonDigitIsInvalid | src/cli.hpp:18-21 | any non-digit character, a sign included, gives `invalid_character` |
| Cli.DigitsGiveValue | src/cli.hpp:17-25 | an all-digit string whose value is below 2^31 gives that value |
| Cli.TooLargeReadsAsError | src/cli.hpp:22-25 | an all-digit string with a value in [2^31, 2^32) wraps to a negative int, which reads as an error |
| Cli.LeadingZerosAccepted | src/cli.hpp:17-24 | a leading zero gives the same result |
| Cli.ParsesToString | src/cli.hpp:17-25 | the text `to_string` writes for a number below 2^31 parses back to it |
| Cli.ParseExamples | src/cli.hpp:13-26 | "007" gives 7; "-5" and "+5" are errors |
| ProgramOptions.DefaultValues | src/options.hpp:11-17 | the defaults are 20 runs, 4 in parallel, output generated, no debug, empty p1, p2 and referee |
| ProgramOptions.Unwrap | src/options.hpp:21-30 | `unwrap` exits with status 1 exactly on an error, and otherwise returns `r.value()` |
| ProgramOptions.ParseOptions | src/options.cpp:3-140 | the loop over argv and its inner loop over a token's characters return what the token machine `ParsedOptions` describes |
| ProgramOptions.ProgramNameIgnored | src/options.cpp:21 | argv[0] does not affect the result |
| ProgramOptions.NotAnOptionExits | src/options.cpp:26-29 | where an option is expected, a token shorter than 2 or not starting with '-' exits with 1 |
| ProgramOptions.UnknownFlagExits | src/options.cpp:91-94 | an unknown flag character exits with 1 |
| ProgramOptions.ClusteredFlags | src/options.cpp:31-98 | `-Gd` sets generate_output false and debug true; `-dGr ref` also takes "ref" as the referee |
| ProgramOptions.AttachedValue | src/options.cpp:34-86 | c/p/1/2/r with characters after it takes the rest of the token as its value, and the scan ends there |
| ProgramOptions.SeparateValue | src/options.cpp:31-132 | any of c/p/1/2/r as the last character of a token, after any run of `G` and `d`, sets those flags and takes the next token verbatim as its value, even one starting with '-'; the machine then expects an option again |
| ProgramOptions.NonNumericValueExits | src/options.cpp:102-112 | a count or parallelism value that is empty or not all digits exits with 1 through `unwrap` |
| ProgramOptions.NumericCount | src/options.cpp:102-106 | a count value of digits below 2^31 sets `process_count` to its value |
| ProgramOptions.LaterValueOverwrites | src/options.cpp:31-139 | for every argv that leaves the machine expecting an option, a further option with its value, attached or in the next token, sets that option to the value whatever it held before, changes only that option and the `G`/`d` flags before it, and exits exactly for a count that does not parse |
| ProgramOptions.TrailingOption | src/options.cpp:31-139 | for every argv that leaves the machine expecting an option, a last token ending in an option that takes a value leaves that option as it was; only the token's `G`/`d` flags apply |
| ProgramOptions.TrailingAndRepeatedOptions | src/options.cpp:136-139 | two sample command lines: "-1a -1" keeps p1 "a", and "-1a -1b" gives p1 "b" |
| ProgramOptions.ScanKeepsConsistent | src/options.cpp:31-98 | after scanning a token the machine expects a value exactly when an option is waiting for one |
| ProgramOptions.RunKeepsConsistent | src/options.cpp:21-134 | every state the argv loop reaches expects a value exactly when an option is waiting for one |
| Runner.PositionsDistinct | src/runner.hpp:9-15 | the five positions are distinct slots below 9, so slots 9-11 always end the vector with a null |
| Runner.InitialLayout | src/runner.hpp:17-30 | slots 0, 1, 3, 5 hold "java", "-jar", "-p1", "-p2"; slots 2, 4, 6-11 are null |
| Runner.MakeRunnerLayout | src/runner.cpp:3-13 | referee at 2, p1 at 4, p2 at 6, "-l" at 7 exactly when output is generated, every other slot as initialised |
| Runner.LaunchWritesOnlyOutputName | src/runner.cpp:16-18 | `operator()` writes slot 8 only when slot 7 is set, and changes no other slot |
| Runner.LaunchOverwrites | src/runner.cpp:16-18 | each launch replaces the previous output name |
| Runner.LaunchedCommandLine | src/runner.cpp:8-19 | the vector up to the first null is `java -jar <ref> -p1 <p1> -p2 <p2>`, followed by `-l <output file>` exactly when output is generated |
| Runner.Runner.constructor | src/runner.hpp:17-30 | a fresh 12-slot array with the initial layout |
| Runner.Runner.Launch | src/runner.cpp:15-20 | writes the output name into the array when slot 7 is set and launches "java" with the array |
| Runner.MakeRunner | src/runner.cpp:3-13 | a fresh runner whose array is the initial layout with the three commands and the flag filled in |
| Presentation.DigitCount | src/presentation.hpp:6-17 | `digitnum(x)` is the length of `std::to_string(x)`: the digits of \|x\| plus the minus sign (for x > INT_MIN) |
| Presentation.NumDigits | src/presentation.hpp:12-15 | the do-while loop counts the decimal digits of a non-negative number |
| Presentation.DigitNum | src/presentation.hpp:6-17 | the do-while loop of `digitnum` returns `DigitCount(x)` |
| Presentation.DigitNumAsserted | src/presentation.hpp:18-23 | the six `static_assert` values |
| Presentation.HeaderSize | src/presentation.hpp:49-51 | `header_size(n)` is the length of "Run " + to_string(n) + ": ", hence 6 + digitnum(n) >= 7 |
| Presentation.RowInRange | src/presentation.hpp:55-57 | `count_to_row(n)` is in [1, 20] for n >= 0 |
| Presentation.ColIsCellStart | src/presentation.hpp:52-54 | `count_to_col(n)` is 1, 41 or 81 for n >= 0 |
| Presentation.CellOf | src/presentation.hpp:52-57 | run n's cell is row n % 20 + 1 of column (n / 20) % 3 |
| Presentation.SameCellIff | src/presentation.hpp:52-57 | two non-negative runs share a cell exactly when they agree modulo 60 |
| ResultLine.IntToStringInjective | src/main.cpp:81-83 | `std::to_string` writes different ints differently |
| ResultLine.OutputFileInjective | src/main.cpp:82-84 | within one timestamp, different runs get different output file names |
| ResultLine.OutputFileShape | src/main.cpp:82-84 | every name starts with "output-" and ends with ".json" |
| ResultLine.FindChar | src/main.cpp:119 | `find('=')` stored in an int is the first position of '=', or -1 exactly when there is none |
| ResultLine.SeedCases | src/main.cpp:119-120 | the seed is what follows the first '='; without one (`int(npos) + 1 == 0`) it is the whole token |
| ResultLine.SeedExamples | src/main.cpp:119-120 | "seed=42" gives "42", and "42" gives "42" |
| ResultLine.SkipSpace | src/main.cpp:117 | extraction skips exactly the white space ahead |
| ResultLine.DigitsEnd | src/main.cpp:117 | the digit run read for an int ends at the first non-digit |
| ResultLine.TokenEnd | src/main.cpp:117 | a string token ends at the first white space |
| ResultLine.ReadInt | src/main.cpp:117 | `>> int` leaves an int in range and moves forward; at the end of input the variable keeps what it held |
| ResultLine.ReadIntAtEnd | src/main.cpp:117 | when only white space is left, the sentry fails: the variable keeps its value and the stream is no longer good |
| ResultLine.ReadNatAt | src/main.cpp:117 | a non-negative int written by `to_string` and followed by a non-digit is read back, and reading stops after it |
| ResultLine.ReadNegativeAt | src/main.cpp:117 | the same for a negative int down to INT_MIN |
| ResultLine.ReadIntAt | src/main.cpp:117 | every int written by `to_string` is read back, and reading stops right after it |
| ResultLine.ReadIntSkipsSpace | src/main.cpp:117 | `>> int` skips leading white space |
| ResultLine.ScoresOfLine | src/main.cpp:117 | the two scores of "<a> <b> ..." are read back, each stopping after its digits |
| ResultLine.ReadsWhatRefereeWrites | src/main.cpp:117 | a line "<a> <b> <token>" followed by white space or the end gives scores a and b and that token, whatever the scores held before |
| ResultLine.ShortLineExample | src/main.cpp:117 | a line with one score leaves the second score as it was (0 as pushed, or 9) and the token empty |
| ResultLine.MalformedLineExample | src/main.cpp:117 | a non-numeric first score stores 0, and the second score keeps what it held |
| Scheduler.Validate | src/main.cpp:56-73 | `main` goes on exactly when 1 <= process_count <= 999, parallel_processes >= 1 and p1, p2 and referee are non-empty; anything else exits with 1 |
| Scheduler.NumBatchesBounds | src/main.cpp:95-128 | the loop runs ceil(C/P) >= 1 times: (batches - 1) * P < C <= batches * P |
| Scheduler.BatchIndex | src/main.cpp:95-127 | batch k starts before C exactly when it is one of the batches |
| Scheduler.BatchSize | src/main.cpp:96 | `min(left_to_run, parallel)` in batch b is between 1 and P, and the batch ends by C |
| Scheduler.BatchSizes | src/main.cpp:96-127 | every batch but the last holds P runs, and the last one ends at C |
| Scheduler.InBatch | src/main.cpp:110 | index j of batch k is run k * P + j |
| Scheduler.NextOffset | src/main.cpp:126-127 | `current_offset` after batch b is the start of batch b + 1, or C after the last |
| Scheduler.BatchFds | src/main.cpp:98-101 | batch b polls `min(left_to_run, parallel)` processes |
| Scheduler.BatchDelivery | src/main.cpp:107 | `poll_one_each` for batch b only hands over indices of the batch |
| Scheduler.Reported | src/main.cpp:113-120 | reading a run's output into its entry keeps the entry's output file name |
| Scheduler.ReadIntoEntry | src/main.cpp:110-120 | reading run i's output into the entry that names run i's file and still holds the zero scores it was pushed with gives run i's report, whatever seed it held |
| Scheduler.ReadEntry | src/main.cpp:113-120 | the extraction and seed cut give run i's report |
| Scheduler.BatchRuns | src/main.cpp:110 | the run numbers `idx + current_offset` of batch k lie inside batch k and below C |
| Scheduler.DeliveredRuns | src/main.cpp:107-124 | every run handed to a callback is below C, so `results[run_count]` is in bounds |
| Scheduler.LaunchOne | src/main.cpp:99-102 | one launch: run `run_count` is started on its output file, and its entry is pushed naming that file |
| Scheduler.LaunchBatch | src/main.cpp:98-104 | the batch's runs are launched in order, their stdouts collected, and one entry each pushed; earlier entries stay |
| Scheduler.ApplyDeliveries | src/main.cpp:107-124 | the callbacks replace exactly the delivered entries by their reports and aggregate those reports in callback order |
| Scheduler.CollectBatch | src/main.cpp:107-124 | after polling batch k each of its entries is its report if handed over (else what was pushed), earlier entries stay, and the counters have aggregated the batch's reports |
| Scheduler.ExecuteBatch | src/main.cpp:98-124 | one batch launched and collected: entries and command lines of its runs appended, the counters advanced by the batch, the runner left on its last output name |
| Scheduler.CountsAfterAll | src/main.cpp:95-129 | aggregating batch by batch is aggregating every delivered run in callback order |
| Scheduler.BatchTallies | src/main.cpp:95-129 | the counters batch by batch, from the constructor's to the final ones |
| Scheduler.BatchStartIs | src/main.cpp:126-127 | `current_offset` after k passes is k * P, or C once all runs are launched |
| Scheduler.TurnArithmetic | src/main.cpp:95-127 | at the top of a pass the batch starts at k * P, holds `min(left_to_run, P)` runs, and the next offset advances by that |
| Scheduler.LoopEnd | src/main.cpp:95 | the loop stops after the last batch |
| Scheduler.ProgressStart | src/main.cpp:86-92 | before the loop nothing is launched, no entry exists, and the counters are the constructor's |
| Scheduler.ProgressStep | src/main.cpp:95-128 | one pass adds its batch's entries, command lines and counters and moves `current_offset` to the next batch |
| Scheduler.ProgressDone | src/main.cpp:95-129 | when `current_offset` reaches C, ceil(C/P) passes have run and the entries, command lines and counters are the final ones |
| Scheduler.RunBatch | src/main.cpp:95-128 | one pass of the loop body keeps the loop invariant for one more batch, strictly increases `current_offset` and keeps `left_to_run == C - current_offset` |
| Scheduler.RunBatches | src/main.cpp:75-129 | the loop runs ceil(C/P) batches, and `results`, the command lines and the counters end as `FinalResults`, `AllLaunched` and `FinalCounts` |
| Scheduler.BatchDeliveryFacts | src/main.cpp:107-124 | in each batch no index is handed over twice, and success holds exactly when every index of the batch was handed over, and then each was |
| Scheduler.ExpectedResultMeaning | src/main.cpp:102-124 | run b * P + j ends with its report when batch b handed index j to the callback, and with the pushed entry otherwise |
| Scheduler.ResultNamesItsOutput | src/main.cpp:100-102 | the final entry of run i names run i's output file, read or not |
| Scheduler.SuccessfulBatchReportsAll | src/main.cpp:107-124 | when a batch's poll succeeds, every run of it ends with the report read from its output |
| Scheduler.DeliveredRunsDistinct | src/main.cpp:107-124 | no run is handed to a callback twice across all batches |
| Scheduler.DeliveredRunsCount | src/main.cpp:95-129 | when every batch hands over all its runs, k batches hand over k * P runs (C for all of them) |
| Scheduler.DeliveredRunsCover | src/main.cpp:95-129 | when every batch hands over all its indices, every run before the current batch was handed over |
| Scheduler.EachRunAggregatedOnce | src/main.cpp:107-124 | every run is aggregated at most once; when every batch's poll succeeds, every run is aggregated exactly once |
| Scheduler.FinalCountsTotals | src/main.cpp:107-124 | at the end `total_games` is C, and `run_games()` counts each delivered run once plus once more per both-error |
| Scheduler.RunInBatch | src/main.cpp:110 | run i is index i % P of batch i / P, one of the batches |
| Scheduler.SuccessfulRunReported | src/main.cpp:110-124 | run i ends with its report when its batch's poll succeeded |
| Scheduler.AllBatchesSucceeded | src/main.cpp:95-129 | when every batch's poll succeeds, every run ends with the report read from its output |
| Scheduler.CountsWhenAllDelivered | src/statistics.hpp:37-46 | when every run is handed over, `left_to_run()` ends at minus the number of both-errors |
| Program.RunProgram | src/main.cpp:51-131 | `main` ends with the exit status or the summary that `ProgramOutcome` describes |
| Program.ExitStatuses | src/main.cpp:54-73 | a command line that does not parse ends with the parser's status, a rejected configuration with 1, and only a valid one runs the batches |
| Program.SummaryOutputFiles | src/main.cpp:82-102 | the summary has one entry per run, each naming its own output file, and no two runs share one |
| Program.SummaryLaunch | src/main.cpp:99-101 | run i is launched as `java -jar <ref> -p1 <p1> -p2 <p2>`, plus `-l <its output file>` when output is generated |
| StreamBuf.Initial | src/posix.hpp:218-221 | after construction the get area is empty and the put area is [0, size - 1), keeping the last byte in reserve; nothing is read or emitted yet |
| StreamBuf.AfterUnderflow | src/posix.hpp:188-197 | reads only when gptr == egptr; a failed or empty read gives EOF and changes nothing; otherwise the get area becomes [0, n) with 1 <= n <= size; the current byte is returned, not consumed; the put area is untouched |
| StreamBuf.Take | src/posix.hpp:188-197 | consuming a byte through `underflow` takes the next byte the descriptor will deliver, or gives EOF and changes nothing |
| StreamBuf.SyncMeaning | src/posix.hpp:209-215 | corrected `sync`: 0 or -1, -1 exactly when the write failed or wrote nothing of something; on success the written bytes reach the descriptor, none is lost, and a whole write empties the put area; the get area is untouched |
| StreamBuf.PutByte | src/posix.hpp:201-202 | storing at pptr and `pbump(1)` adds one byte to what is owed |
| StreamBuf.AfterOverflow | src/posix.hpp:199-207 | on the corrected `sync`: `overflow(c)` stores a real c in the reserved byte, then syncs; it returns EOF when sync fails (and always for EOF) and c otherwise, with c emitted |
| StreamBuf.Put | src/posix.hpp:199-207 | on the corrected `sync`: putting a byte either emits it or returns EOF with nothing written |
| StreamBuf.SharedBuffer | src/posix.hpp:188-220 | the get and put areas share `_buffer`: a put lands on an unread byte, which the reader then sees |
| StreamBuf.AreasKeepTheirCursors | src/posix.hpp:188-215 | `underflow` leaves the put cursor and what was written; a put leaves the get cursors and the unread input |
| StreamBuf.PutAll | src/posix.hpp:199-215 | on the corrected `sync`: with every write accepted whole, the bytes put are emitted exactly, in order |
| StreamBuf.SyncAsWritten | src/posix.hpp:209-215 | `sync` as written: one write of pptr - pbase bytes; after an error or empty write the put end is size + 1; `value()` is called on an error; pptr is kept after a success |
| StreamBuf.SyncErrorOverrunsBuffer | src/posix.hpp:212 | as written, a failed write leaves the put end one past the array; the corrected sync keeps size - 1 |
| StreamBuf.SyncErrorReadsValue | src/posix.hpp:211-214 | as written, a failed write reads `value()` of an error; the corrected sync returns -1 and `overflow` EOF |
| StreamBuf.SyncKeepsWrittenBytes | src/posix.hpp:209-215 | as written, two syncs of "ab" write "abab" and a full buffer keeps pptr at its end; the corrected sync writes "ab" once and resets pptr |
| StreamBuf.FdStreamBuf.constructor | src/posix.hpp:218-221 | the object starts in the `Initial` state |
| StreamBuf.FdStreamBuf.Underflow | src/posix.hpp:188-197 | the in-place `underflow` (copying the bytes read into the array) reaches the `AfterUnderflow` state and return |
| StreamBuf.FdStreamBuf.Shift | src/posix.hpp:209-210 | the k written bytes go to the log and the unwritten tail moves to the front of the array |
| StreamBuf.FdStreamBuf.Sync | src/posix.hpp:209-215 | the in-place corrected `sync` reaches the `AfterSync` state and return |
| StreamBuf.FdStreamBuf.Overflow | src/posix.hpp:199-207 | the in-place `overflow`, calling the corrected `sync`, reaches the `AfterOverflow` state and return |

## Left out

- Process creation (`run_external`, `fork`, `pipe`, `dup2`, `execvp`, `waitpid`, `wait_status`, src/posix.hpp:73-179) is not modelled. These are OS calls. A launch returns the program name and argument vector, and the launched process is its stdout descriptor taken from the `World`.
- The system calls `poll`, `read` and `write`, with their timeouts and `std::span` plumbing, are oracle answers the caller supplies (`PollAnswer`, `IoAnswer`, `World.polls`).
- The wall-clock timestamp (src/main.cpp:78-81) is the parameter `World.now`.
- Floating-point fields are not modelled: `player_point_avg`, `_add_player_points`, `win_ratio`, `p1_win_ratio` and `p2_win_ratio`. The scores passed to `draw`, `p1_wins` and `p2_wins` feed only these.
- Not modelled: the `presenter` (terminal drawing, `update_header`, `update_statistics`, `update_result`, `print_summary`), src/presentations.cpp, and all `std::cerr`, `perror` and `exit` side effects beyond the exit status. The summary `print_summary` receives is returned instead.
- `dpsg::posix::poll_error` is not among the files modelled. Its `interrupted` and `again` values are taken to be Linux's EINTR (4) and EAGAIN (11), and every other error is kept as its errno.
- Delivery.Deliveries: the `Exhausted` status exists only in the model. It marks an oracle with no answers left while the loop still waits, where the program would go on polling.
- Delivery.PollOneEach: the callbacks are returned as the sequence of indices they receive. Scheduler.ApplyDeliveries then applies them in that order, after the poll loop rather than interleaved with it. Nothing else runs in between, so the effect on `results` and the counters is the same.
- `std::istream` extraction is a simplified reader of `<int> <int> <token>`. ResultLine.ReadInt follows the C++11 rules: a sentry that fails at the end of input leaves the variable untouched, no digit stores 0, and an out-of-range value stores INT_MAX or INT_MIN. Locales and the other stream state bits are not modelled, and nor is the `fd_streambuf` behind `out`: each run's output is given as text.
- The version of `poll_one_each` in src/posix.hpp:326-341 is not modelled. Its inner `poll` rebuilds the poll set on every call, so invalidation is lost between rounds. `main` uses the src/main.cpp version, which is modelled.
- `process_streams` and the `never` type are not modelled. They carry no behaviour.
- Presentation.DigitCount: `digitnum(INT_MIN)` overflows in the negation and is excluded by its precondition.
- Cli.ParseUnsignedInt: signed overflow is undefined in C++. The model takes the two's complement wrap-around that common compilers produce, so a value of 2^31 or more wraps and may read as an error (Cli.TooLargeReadsAsError).
- StreamBuf.AfterSync: besides the three findings, the corrected `sync` differs from the code in its return value. The code returns `written.value()`: k after a write of k bytes, and 0 after a write of nothing when bytes were pending, so `overflow` then returns c. The corrected `sync` returns 0 after a success and -1 after a write of nothing with bytes pending, so `overflow` then returns EOF. StreamBuf.AfterOverflow, StreamBuf.Put, StreamBuf.PutAll and StreamBuf.FdStreamBuf.Overflow are all stated on the corrected `sync`.
- Scheduler.RunBatch: its contract does not name the output file the pass launched last, and returns it as a ghost value instead. The name is stated by Scheduler.ExecuteBatch and Scheduler.LaunchBatch, which RunBatch calls.
- Scheduler.RunBatches: `processes.clear()` is implicit, because each batch's process list is a fresh value. `results` is never cleared and ends with C entries, as in the program.

## Findings

| source | as written | input that shows it | evidently intended | confidence | as-written member | corrected member |
|---|---|---|---|---|---|---|
| src/posix.hpp:212 | after a failed or empty write, `setp(_buffer, _buffer + _buffer_size + 1)` puts the put end one byte past the array | a 4-byte buffer whose `write` returns -1: epptr becomes 5 > 4, so a following put may store outside `_buffer` | restore the constructor's put area [0, size - 1); the corrected `sync` also returns -1 after a write of nothing with bytes pending, where the code returns 0 (see "## Left out") | not executed | StreamBuf.SyncErrorOverrunsBuffer | StreamBuf.SyncMeaning |
| src/posix.hpp:214 | `return written.value()` also runs when `written` is an error, so `value()`'s assert fails; without asserts the `long` holding errno with bit 63 set is converted to `sync`'s `int`, which keeps errno, a positive number, and `overflow` returns c as if the write had worked | any `write` that returns -1 | return -1, so that `overflow` returns EOF; on success the corrected `sync` returns 0 where the code returns the byte count | not executed | StreamBuf.SyncErrorReadsValue | StreamBuf.SyncMeaning |
| src/posix.hpp:209-215 | a successful `sync` never moves pptr back, so the next `sync` writes the same bytes again, and a full buffer stays full | put "ab", then `sync` twice with each write accepted whole: the descriptor receives "abab" | written bytes leave the put area and pptr returns to the front | not executed | StreamBuf.SyncKeepsWrittenBytes | StreamBuf.SyncMeaning |
