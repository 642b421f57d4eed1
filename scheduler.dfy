// The driver in src/main.cpp: validation of the options, then the batch
// loop that launches at most `parallel_processes` referee runs at a time,
// waits for each of them with `poll_one_each` and reads its result line.
// The processes, their descriptors, what they write and what `poll` answers
// are given as a `World`; the clock reading is a parameter of it.

module Scheduler {
  import opened Wrappers
  import opened IntegerResult
  import opened Posix
  import opened Delivery
  import opened Statistics
  import opened ProgramOptions
  import opened Runner
  import opened ResultLine

  /** The exit status of every rejected configuration. */
  const Rejected: int := 1

  /** The checks `main` makes before it runs anything. */
  function Validate(opts: Options): (r: Outcome<Options>)
    ensures r.Ok? <==> && 1 <= opts.processCount < 1000 && opts.parallelProcesses >= 1
                       && opts.p1 != [] && opts.p2 != [] && opts.referee != []
    ensures r.Ok? ==> r.value == opts
    ensures r.Exit? ==> r.status == Rejected
  {
    if opts.processCount <= 0 then Exit(Rejected)
    else if opts.processCount >= 1000 then Exit(Rejected)
    else if opts.parallelProcesses <= 0 then Exit(Rejected)
    else if opts.p1 == [] || opts.p2 == [] || opts.referee == [] then Exit(Rejected)
    else Ok(opts)
  }

  // ---------------------------------------------------------------------
  // Batch arithmetic: c runs, at most p at a time.

  /** How many times the `while (left_to_run > 0)` loop runs: ceil(c / p). */
  function NumBatches(c: int, p: int): int
    requires c >= 1 && p >= 1
  {
    (c + p - 1) / p
  }

  lemma MulMonotone(a: int, b: int, p: int)
    requires a <= b && p >= 0
    ensures a * p <= b * p
  {
    assert b * p == a * p + (b - a) * p;
  }

  lemma NumBatchesBounds(c: int, p: int)
    requires c >= 1 && p >= 1
    ensures NumBatches(c, p) >= 1
    ensures (NumBatches(c, p) - 1) * p < c <= NumBatches(c, p) * p
  {
    var q := (c + p - 1) / p;
    var r := (c + p - 1) % p;
    assert c + p - 1 == q * p + r && 0 <= r < p;
    assert (q - 1) * p == q * p - p;
    if q <= 0 {
      MulMonotone(q, 0, p);
    }
  }

  /** Batch k starts before the end exactly when it is one of the batches. */
  lemma BatchIndex(c: int, p: int, k: nat)
    requires c >= 1 && p >= 1
    ensures k * p < c <==> k < NumBatches(c, p)
  {
    var nb := NumBatches(c, p);
    NumBatchesBounds(c, p);
    if k < nb {
      MulMonotone(k, nb - 1, p);
    } else {
      MulMonotone(nb, k, p);
    }
  }

  /** `std::min(left_to_run, parallel_processes)` in batch b, since
      `left_to_run` is c - b * p there. */
  function BatchSize(c: int, p: int, b: nat): (n: int)
    requires c >= 1 && p >= 1 && b < NumBatches(c, p)
    ensures 1 <= n <= p && b * p + n <= c
  {
    BatchIndex(c, p, b);
    if c - b * p < p then c - b * p else p
  }

  /** Every batch but the last is full, and the last one ends at c. */
  lemma BatchSizes(c: int, p: int, b: nat)
    requires c >= 1 && p >= 1 && b < NumBatches(c, p)
    ensures b + 1 < NumBatches(c, p) ==> BatchSize(c, p, b) == p
    ensures b + 1 == NumBatches(c, p) ==> b * p + BatchSize(c, p, b) == c
  {
    BatchIndex(c, p, b + 1);
    assert (b + 1) * p == b * p + p;
  }

  /** The only multiple of p strictly between -p and p is 0. */
  lemma SmallMultiple(x: int, p: int)
    requires p >= 1 && -p < x * p < p
    ensures x == 0
  {
    if x >= 1 {
      MulMonotone(1, x, p);
    } else if x <= -1 {
      MulMonotone(x, -1, p);
    }
  }

  /** Run number i is entry i % p of batch i / p. */
  lemma InBatch(p: int, k: nat, j: nat)
    requires p >= 1 && j < p
    ensures (k * p + j) / p == k && (k * p + j) % p == j
  {
    var i := k * p + j;
    var q := i / p;
    var r := i % p;
    assert i == q * p + r && 0 <= r < p;
    assert (k - q) * p == r - j;
    SmallMultiple(k - q, p);
  }

  // ---------------------------------------------------------------------
  // What the runs do.

  /** What happens outside the program: the clock reading, the stdout
      descriptor of each launched run, the text each run writes there and
      the answers `poll` gives in each batch. */
  datatype World = World(now: int, stdouts: seq<int>, outputs: seq<string>, polls: seq<seq<PollAnswer>>)

  /** The world has an entry for each of the c runs and each batch, every
      descriptor is an open one, and every poll answer concerns the batch's
      processes. */
  predicate Fits(c: int, p: int, w: World) {
    && c >= 1 && p >= 1
    && |w.stdouts| >= c && |w.outputs| >= c && |w.polls| >= NumBatches(c, p)
    && (forall i :: 0 <= i < c ==> 0 <= w.stdouts[i] <= Int32.Max())
    && (forall b: nat :: b < NumBatches(c, p) ==> AnswersFit(w.polls[b], BatchSize(c, p, b)))
  }

  /** The stdout descriptors of the processes of batch b. */
  function BatchFds(c: int, p: int, w: World, b: nat): (fds: seq<int>)
    requires Fits(c, p, w) && b < NumBatches(c, p)
    ensures |fds| == BatchSize(c, p, b)
  {
    var start := b * p;
    var n := BatchSize(c, p, b);
    MulMonotone(0, b, p);
    w.stdouts[start..start + n]
  }

  /** What `poll_one_each` does in batch b; `delivered` are batch indices. */
  function BatchDelivery(c: int, p: int, w: World, b: nat): (d: Delivery)
    requires Fits(c, p, w) && b < NumBatches(c, p)
    ensures forall j :: 0 <= j < |d.delivered| ==> d.delivered[j] < BatchSize(c, p, b)
  {
    Deliveries(BatchFds(c, p, w, b), w.polls[b], 0)
  }

  /** `run_result{.output_file = of}` as it is pushed before the batch runs. */
  function Unfilled(now: int, i: int): RunResult {
    RunResult(OutputFile(now, i), 0, 0, "")
  }

  /** The result after the callback read `out >> p1_score >> p2_score >>
      seed` from the process output into entry r and kept what follows '='
      in the seed. */
  function Reported(r: RunResult, out: string): (q: RunResult)
    requires Int32.InRange(r.p1Score) && Int32.InRange(r.p2Score)
    ensures q.outputFile == r.outputFile
  {
    var line := ReadScoreLine(out, r.p1Score, r.p2Score);
    r.(p1Score := line.p1, p2Score := line.p2, seed := SeedOf(line.token))
  }

  /** The result of run i once its output has been read. */
  function ReportedRun(w: World, i: nat): RunResult
    requires i < |w.outputs|
  {
    Reported(Unfilled(w.now, i), w.outputs[i])
  }

  /** `reports[i]` is the result of run i as read.  The facts are only
      drawn for a run whose `ReportedRun` is mentioned, which keeps the
      parser out of the proofs that do not look at it. */
  ghost predicate ReportsOf(w: World, reports: seq<RunResult>) {
    && |reports| <= |w.outputs|
    && (forall i :: 0 <= i < |reports| ==> reports[i].outputFile == OutputFile(w.now, i))
    && forall i {:trigger ReportedRun(w, i)} :: 0 <= i < |reports| ==> reports[i] == ReportedRun(w, i)
  }

  /** The results of runs 0 .. n - 1 as read. */
  function AllReported(w: World, n: nat): (rs: seq<RunResult>)
    requires n <= |w.outputs|
    ensures |rs| == n
  {
    seq(n, i requires 0 <= i < n => ReportedRun(w, i))
  }

  lemma AllReportedFits(w: World, n: nat)
    requires n <= |w.outputs|
    ensures ReportsOf(w, AllReported(w, n))
  {
  }

  /** Reading the output of run i into an entry that names run i's output
      file and still holds the zero scores it was pushed with gives run i's
      report, whatever seed it held. */
  lemma ReadIntoEntry(w: World, reports: seq<RunResult>, r: RunResult, i: nat)
    requires ReportsOf(w, reports) && i < |reports| && r.outputFile == OutputFile(w.now, i)
    requires r.p1Score == 0 && r.p2Score == 0
    ensures Reported(r, w.outputs[i]) == reports[i]
  {
    assert reports[i] == ReportedRun(w, i);
  }

  /** Each of the p-sized batches of c runs lists batch indices only:
      `ds[b]` are the indices batch b hands to the callback. */
  predicate Bounded(c: int, p: int, ds: seq<seq<nat>>)
    requires c >= 1 && p >= 1
  {
    && |ds| == NumBatches(c, p)
    && forall b, j :: 0 <= b < |ds| && 0 <= j < |ds[b]| ==> ds[b][j] < BatchSize(c, p, b)
  }

  /** The indices each batch hands to the callback, in order. */
  function AllDeliveries(c: int, p: int, w: World): (ds: seq<seq<nat>>)
    requires Fits(c, p, w)
    ensures Bounded(c, p, ds)
  {
    seq(NumBatches(c, p), b requires 0 <= b < NumBatches(c, p) => BatchDelivery(c, p, w, b).delivered)
  }

  /** `ds[b]` is what batch b delivers.  As with `ReportsOf`, the link is
      only drawn for a batch whose `BatchDelivery` is mentioned. */
  ghost predicate DeliveriesOf(c: int, p: int, w: World, ds: seq<seq<nat>>) {
    && Fits(c, p, w) && Bounded(c, p, ds)
    && forall b {:trigger BatchDelivery(c, p, w, b)} :: 0 <= b < |ds| ==> ds[b] == BatchDelivery(c, p, w, b).delivered
  }

  lemma AllDeliveriesFits(c: int, p: int, w: World)
    requires Fits(c, p, w)
    ensures DeliveriesOf(c, p, w, AllDeliveries(c, p, w))
  {
  }

  /** Lines 113-120: read `p1_score`, `p2_score` and the seed token from
      run i's output into its entry, then keep what follows '='. */
  method ReadEntry(w: World, r: RunResult, i: nat, ghost reports: seq<RunResult>) returns (q: RunResult)
    requires ReportsOf(w, reports) && i < |reports| && r.outputFile == OutputFile(w.now, i)
    requires r.p1Score == 0 && r.p2Score == 0
    ensures q == reports[i]
  {
    q := Reported(r, w.outputs[i]);
    ReadIntoEntry(w, reports, r, i);
  }

  /** The final value of an entry: the report when the callback ran for
      its index j in the batch, the pushed result otherwise. */
  function ResultOf(delivered: seq<nat>, j: nat, reports: seq<RunResult>, now: int, i: nat): RunResult
    requires i < |reports|
  {
    if j in delivered then reports[i] else Unfilled(now, i)
  }

  /** `results[i]` when the loop is over: run i is entry i % p of batch
      i / p. */
  function ExpectedResult(c: int, p: int, ds: seq<seq<nat>>, reports: seq<RunResult>, now: int, i: nat): RunResult
    requires c >= 1 && p >= 1 && |ds| == NumBatches(c, p) && i < c <= |reports|
  {
    var b := i / p;
    BatchIndex(c, p, b);
    assert b * p <= i;
    ResultOf(ds[b], i % p, reports, now, i)
  }

  /** The run numbers of delivered indices of a batch starting at run off. */
  function Shifted(d: seq<nat>, off: nat): (s: seq<nat>)
    ensures |s| == |d|
  {
    seq(|d|, k requires 0 <= k < |d| => d[k] + off)
  }

  /** The run numbers batch k hands to the callback, in order. */
  function BatchRuns(c: int, p: int, ds: seq<seq<nat>>, k: nat): (runs: seq<nat>)
    requires c >= 1 && p >= 1 && Bounded(c, p, ds) && k < |ds|
    ensures forall j :: 0 <= j < |runs| ==> k * p <= runs[j] < k * p + BatchSize(c, p, k) <= c
  {
    assert forall j :: 0 <= j < |ds[k]| ==> ds[k][j] < BatchSize(c, p, k);
    Shifted(ds[k], k * p)
  }

  /** The run numbers handed to the callback in the first k batches, in
      the order the callbacks ran. */
  function DeliveredRuns(c: int, p: int, ds: seq<seq<nat>>, k: nat): (runs: seq<nat>)
    requires c >= 1 && p >= 1 && Bounded(c, p, ds) && k <= |ds|
    ensures forall j :: 0 <= j < |runs| ==> runs[j] < c
  {
    if k == 0 then [] else DeliveredRuns(c, p, ds, k - 1) + BatchRuns(c, p, ds, k - 1)
  }

  /** The entries of `reports` for the given runs, in that order. */
  function Picked(reports: seq<RunResult>, runs: seq<nat>): (rs: seq<RunResult>)
    requires forall k :: 0 <= k < |runs| ==> runs[k] < |reports|
    ensures |rs| == |runs|
  {
    seq(|runs|, k requires 0 <= k < |runs| => reports[runs[k]])
  }

  /** The counters at the end: every report the callbacks passed to
      `aggregate`, in the order the callbacks ran. */
  function FinalCounts(c: int, p: int, ds: seq<seq<nat>>, reports: seq<RunResult>): Counts
    requires c >= 1 && p >= 1 && Bounded(c, p, ds) && c <= |reports|
  {
    AggregateAll(InitialCounts(c), Picked(reports, DeliveredRuns(c, p, ds, |ds|)))
  }

  /** The argument vector run i is launched with. */
  function Launched(opts: Options, now: int, i: int): seq<string> {
    ArgvUntilNull(LaunchArgs(RunnerArgs(opts), OutputFile(now, i)))
  }

  /** `results` when the loop is over. */
  function FinalResults(c: int, p: int, ds: seq<seq<nat>>, reports: seq<RunResult>, now: int): seq<RunResult>
    requires c >= 1 && p >= 1 && |ds| == NumBatches(c, p) && c <= |reports|
  {
    seq(c, i requires 0 <= i < c => ExpectedResult(c, p, ds, reports, now, i))
  }

  /** The command line of every run, in launch order. */
  function AllLaunched(opts: Options, now: int): seq<seq<string>>
    requires opts.processCount >= 0
  {
    seq(opts.processCount, i requires 0 <= i < opts.processCount => Launched(opts, now, i))
  }

  /** The runner's `cmd_args` after the launch of `last`, if any. */
  function ArgsAfter(opts: Options, last: Option<string>): seq<Option<string>> {
    if last.None? then RunnerArgs(opts) else LaunchArgs(RunnerArgs(opts), last.value)
  }

  // ---------------------------------------------------------------------
  // Facts the batch loop's proof is built from.

  lemma InBatchOf(c: int, p: int, k: nat, offset: nat, i: nat)
    requires c >= 1 && p >= 1 && offset == k * p && offset <= i < offset + p
    ensures i / p == k && i % p == i - offset
  {
    InBatch(p, k, i - offset);
  }

  /** Run i, entry j of batch b, has the final value of that entry. */
  lemma ExpectedAt(c: int, p: int, ds: seq<seq<nat>>, reports: seq<RunResult>, now: int, b: nat, j: nat, i: nat)
    requires c >= 1 && p >= 1 && |ds| == NumBatches(c, p) && b < |ds| && i < c <= |reports|
    requires i / p == b && i % p == j
    ensures ExpectedResult(c, p, ds, reports, now, i) == ResultOf(ds[b], j, reports, now, i)
  {
  }

  lemma ShiftedAppend(d: seq<nat>, k: nat, off: nat)
    requires k < |d|
    ensures Shifted(d[..k + 1], off) == Shifted(d[..k], off) + [d[k] + off]
  {
  }

  lemma PickedConcat(reports: seq<RunResult>, xs: seq<nat>, ys: seq<nat>)
    requires forall k :: 0 <= k < |xs| ==> xs[k] < |reports|
    requires forall k :: 0 <= k < |ys| ==> ys[k] < |reports|
    ensures Picked(reports, xs + ys) == Picked(reports, xs) + Picked(reports, ys)
  {
    var l, r := Picked(reports, xs + ys), Picked(reports, xs) + Picked(reports, ys);
    forall k | 0 <= k < |l|
      ensures l[k] == r[k]
    {
      if k < |xs| {
        assert (xs + ys)[k] == xs[k];
      } else {
        assert (xs + ys)[k] == ys[k - |xs|];
      }
    }
  }

  /** `results` is `results0` with the entries of the batch starting at
      `offset` whose indices are in `ds` replaced by those of `reports`. */
  ghost predicate Applied(offset: nat, ds: seq<nat>, reports: seq<RunResult>, results0: seq<RunResult>, results: seq<RunResult>) {
    && |results| == |results0| && |results0| <= |reports|
    && forall i :: 0 <= i < |results0| ==>
      results[i] == if offset <= i && i - offset in ds then reports[i] else results0[i]
  }

  lemma ApplyOne(offset: nat, d: seq<nat>, k: nat, reports: seq<RunResult>, results0: seq<RunResult>, results: seq<RunResult>)
    requires k < |d| && offset + d[k] < |results0|
    requires Applied(offset, d[..k], reports, results0, results)
    ensures Applied(offset, d[..k + 1], reports, results0, results[offset + d[k] := reports[offset + d[k]]])
  {
    var x := d[k];
    assert d[..k + 1] == d[..k] + [x];
    var next := results[offset + x := reports[offset + x]];
    forall i | 0 <= i < |results0|
      ensures next[i] == if offset <= i && i - offset in d[..k + 1] then reports[i] else results0[i]
    {
      if i != offset + x {
        assert next[i] == results[i];
        assert offset <= i ==> (i - offset in d[..k] + [x] <==> i - offset in d[..k]);
      }
    }
  }

  /** Aggregating the report of one more delivered run. */
  lemma TallyOne(c0: Counts, reports: seq<RunResult>, d: seq<nat>, k: nat, off: nat)
    requires k < |d| && forall j :: 0 <= j < |d| ==> d[j] + off < |reports|
    ensures AggregateAll(c0, Picked(reports, Shifted(d[..k + 1], off)))
         == Aggregated(AggregateAll(c0, Picked(reports, Shifted(d[..k], off))), reports[d[k] + off])
  {
    var before := Picked(reports, Shifted(d[..k], off));
    ShiftedAppend(d, k, off);
    PickedConcat(reports, Shifted(d[..k], off), [d[k] + off]);
    assert Picked(reports, [d[k] + off]) == [reports[d[k] + off]];
    AggregateAllAppend(c0, before, reports[d[k] + off]);
  }

  /** Where the next batch starts. */
  lemma NextOffset(c: int, p: int, b: nat)
    requires c >= 1 && p >= 1 && b < NumBatches(c, p)
    ensures b * p + BatchSize(c, p, b) == if b + 1 < NumBatches(c, p) then (b + 1) * p else c
  {
    BatchSizes(c, p, b);
    assert (b + 1) * p == b * p + p;
  }

  /** Aggregating the reports of two lists of runs one after the other. */
  lemma TallyConcat(c0: Counts, reports: seq<RunResult>, xs: seq<nat>, ys: seq<nat>)
    requires forall k :: 0 <= k < |xs| ==> xs[k] < |reports|
    requires forall k :: 0 <= k < |ys| ==> ys[k] < |reports|
    ensures AggregateAll(c0, Picked(reports, xs + ys)) == AggregateAll(AggregateAll(c0, Picked(reports, xs)), Picked(reports, ys))
  {
    PickedConcat(reports, xs, ys);
    AggregateAllConcat(c0, Picked(reports, xs), Picked(reports, ys));
  }

  /** The counters after the callbacks of the first k batches, batch by
      batch. */
  function CountsAfter(c: int, p: int, ds: seq<seq<nat>>, reports: seq<RunResult>, k: nat): Counts
    requires c >= 1 && p >= 1 && Bounded(c, p, ds) && k <= |ds| && c <= |reports|
  {
    if k == 0 then InitialCounts(c)
    else AggregateAll(CountsAfter(c, p, ds, reports, k - 1), Picked(reports, BatchRuns(c, p, ds, k - 1)))
  }

  /** Aggregating batch by batch is aggregating every delivered run at once. */
  lemma {:induction false} CountsAfterAll(c: int, p: int, ds: seq<seq<nat>>, reports: seq<RunResult>, k: nat)
    requires c >= 1 && p >= 1 && Bounded(c, p, ds) && k <= |ds| && c <= |reports|
    ensures CountsAfter(c, p, ds, reports, k) == AggregateAll(InitialCounts(c), Picked(reports, DeliveredRuns(c, p, ds, k)))
  {
    if k > 0 {
      CountsAfterAll(c, p, ds, reports, k - 1);
      TallyConcat(InitialCounts(c), reports, DeliveredRuns(c, p, ds, k - 1), BatchRuns(c, p, ds, k - 1));
    }
  }

  // ---------------------------------------------------------------------
  // The batch loop.

  lemma SliceExtend<T>(s: seq<T>, a: nat, b: nat)
    requires a <= b < |s|
    ensures s[a..b] + [s[b]] == s[a..b + 1]
  {
  }

  /** Pushing the entry of the next run keeps every entry from `results0`
      on the one pushed at its launch. */
  lemma PushUnfilled(rs: seq<RunResult>, rs0: seq<RunResult>, now: int)
    requires |rs0| <= |rs| && rs[..|rs0|] == rs0
    requires forall j :: |rs0| <= j < |rs| ==> rs[j] == Unfilled(now, j)
    ensures var rs' := rs + [Unfilled(now, |rs|)];
      rs'[..|rs0|] == rs0 && forall j :: |rs0| <= j < |rs'| ==> rs'[j] == Unfilled(now, j)
  {
    var rs' := rs + [Unfilled(now, |rs|)];
    assert rs'[..|rs0|] == rs[..|rs0|];
  }

  /** The same for the command lines of the launches. */
  lemma PushLaunched(ls: seq<seq<string>>, ls0: seq<seq<string>>, opts: Options, now: int)
    requires |ls0| <= |ls| && ls[..|ls0|] == ls0
    requires forall j :: |ls0| <= j < |ls| ==> ls[j] == Launched(opts, now, j)
    ensures var ls' := ls + [Launched(opts, now, |ls|)];
      ls'[..|ls0|] == ls0 && forall j :: |ls0| <= j < |ls'| ==> ls'[j] == Launched(opts, now, j)
  {
    var ls' := ls + [Launched(opts, now, |ls|)];
    assert ls'[..|ls0|] == ls[..|ls0|];
  }

  /** One turn of the launch loop: launch run `runCount` on its output file
      and give back its stdout, the fresh result pushed for it and the
      command line it ran. */
  method LaunchOne(runner: Runner, opts: Options, w: World, runCount: nat, ghost cur: Option<string>)
    returns (process: int, result: RunResult, launch: seq<string>)
    requires runner.Valid() && runner.cmdArgs[..] == ArgsAfter(opts, cur) && runCount < |w.stdouts|
    modifies runner.cmdArgs
    ensures runner.Valid() && runner.cmdArgs[..] == ArgsAfter(opts, Some(OutputFile(w.now, runCount)))
    ensures process == w.stdouts[runCount] && result == Unfilled(w.now, runCount)
    ensures launch == Launched(opts, w.now, runCount)
  {
    var of := OutputFile(w.now, runCount);
    if cur.Some? {
      LaunchOverwrites(RunnerArgs(opts), cur.value, of);
    }
    var program, argv := runner.Launch(of);
    process := w.stdouts[runCount];
    result := RunResult(of, 0, 0, "");
    launch := ArgvUntilNull(argv);
  }

  /** Lines 98-104: launch runs offset .. offset + size - 1, keep their
      stdout descriptors and push a fresh result for each. */
  method LaunchBatch(runner: Runner, opts: Options, w: World, offset: nat, size: nat,
                     results0: seq<RunResult>, launches0: seq<seq<string>>, ghost last: Option<string>)
    returns (processes: seq<int>, results: seq<RunResult>, launches: seq<seq<string>>)
    requires runner.Valid() && runner.cmdArgs[..] == ArgsAfter(opts, last)
    requires size >= 1 && offset + size <= |w.stdouts|
    requires |results0| == offset && |launches0| == offset
    modifies runner.cmdArgs
    ensures runner.cmdArgs[..] == ArgsAfter(opts, Some(OutputFile(w.now, offset + size - 1)))
    ensures processes == w.stdouts[offset..offset + size]
    ensures |results| == offset + size && results[..offset] == results0
    ensures forall i :: offset <= i < offset + size ==> results[i] == Unfilled(w.now, i)
    ensures |launches| == offset + size && launches[..offset] == launches0
    ensures forall i :: offset <= i < offset + size ==> launches[i] == Launched(opts, w.now, i)
  {
    processes, results, launches := [], results0, launches0;
    ghost var cur := last;
    for i := 0 to size
      invariant runner.cmdArgs[..] == ArgsAfter(opts, cur)
      invariant i > 0 ==> cur == Some(OutputFile(w.now, offset + i - 1))
      invariant processes == w.stdouts[offset..offset + i]
      invariant |results| == offset + i && results[..offset] == results0
      invariant forall j :: offset <= j < offset + i ==> results[j] == Unfilled(w.now, j)
      invariant |launches| == offset + i && launches[..offset] == launches0
      invariant forall j :: offset <= j < offset + i ==> launches[j] == Launched(opts, w.now, j)
    {
      var process, result, launch := LaunchOne(runner, opts, w, offset + i, cur);
      PushUnfilled(results, results0, w.now);
      PushLaunched(launches, launches0, opts, w.now);
      SliceExtend(w.stdouts, offset, offset + i);
      processes := processes + [process];
      results := results + [result];
      launches := launches + [launch];
      cur := Some(OutputFile(w.now, offset + i));
    }
  }

  /** The callback of lines 108-124 for each index `poll_one_each` hands
      over, in that order: read the run's result line into its entry and
      aggregate it. */
  method ApplyDeliveries(delivered: seq<nat>, offset: nat, w: World, results0: seq<RunResult>,
                         stats: StatisticsT, ghost reports: seq<RunResult>)
    returns (results: seq<RunResult>)
    requires forall k :: 0 <= k < |delivered| ==> offset + delivered[k] < |results0|
    requires NoDuplicates(delivered)
    requires |results0| <= |reports| && ReportsOf(w, reports)
    requires forall i :: offset <= i < |results0| ==> results0[i] == Unfilled(w.now, i)
    modifies stats
    ensures Applied(offset, delivered, reports, results0, results)
    ensures stats.Snapshot() == AggregateAll(old(stats.Snapshot()), Picked(reports, Shifted(delivered, offset)))
  {
    results := results0;
    ghost var c0 := stats.Snapshot();
    for k := 0 to |delivered|
      invariant Applied(offset, delivered[..k], reports, results0, results)
      invariant stats.Snapshot() == AggregateAll(c0, Picked(reports, Shifted(delivered[..k], offset)))
    {
      var runCount := delivered[k] + offset;
      assert delivered[k] !in delivered[..k];
      assert results[runCount] == results0[runCount];
      var result := ReadEntry(w, results[runCount], runCount, reports);
      ApplyOne(offset, delivered, k, reports, results0, results);
      TallyOne(c0, reports, delivered, k, offset);
      results := results[runCount := result];
      Aggregate(result, stats);
    }
    assert delivered[..|delivered|] == delivered;
  }

  /** Lines 107-124 for batch k, whose processes are `processes`: poll
      them and read the report of each run the poll hands over. */
  method CollectBatch(ghost c: int, ghost p: int, w: World, k: nat, offset: nat, processes: seq<int>,
                      results0: seq<RunResult>, stats: StatisticsT,
                      ghost reports: seq<RunResult>, ghost ds: seq<seq<nat>>)
    returns (results: seq<RunResult>)
    requires DeliveriesOf(c, p, w, ds) && k < |ds| && offset == k * p
    requires processes == BatchFds(c, p, w, k) && |results0| == offset + |processes|
    requires |reports| == c && ReportsOf(w, reports)
    requires forall i :: offset <= i < |results0| ==> results0[i] == Unfilled(w.now, i)
    modifies stats
    ensures |results| == |results0| && results[..offset] == results0[..offset]
    ensures forall i :: offset <= i < |results| ==> results[i] == ResultOf(ds[k], i - offset, reports, w.now, i)
    ensures stats.Snapshot() == AggregateAll(old(stats.Snapshot()), Picked(reports, BatchRuns(c, p, ds, k)))
  {
    // The status `poll_one_each` returns is not looked at.
    var d := PollOneEach(processes, w.polls[k]);
    assert d == BatchDelivery(c, p, w, k);
    BatchDeliveryFacts(c, p, w, k);
    assert BatchRuns(c, p, ds, k) == Shifted(d.delivered, offset);
    results := ApplyDeliveries(d.delivered, offset, w, results0, stats, reports);
    forall i | offset <= i < |results|
      ensures results[i] == ResultOf(d.delivered, i - offset, reports, w.now, i)
    {
      assert results0[i] == Unfilled(w.now, i);
    }
  }

  /** Lines 98-124 for batch k: launch its runs, poll them, and read the
      report of each run the poll hands over. */
  method ExecuteBatch(runner: Runner, opts: Options, w: World, k: nat, offset: nat, batchSize: int,
                      results0: seq<RunResult>, launches0: seq<seq<string>>, stats: StatisticsT,
                      ghost last: Option<string>, ghost reports: seq<RunResult>, ghost ds: seq<seq<nat>>)
    returns (results: seq<RunResult>, launches: seq<seq<string>>)
    requires DeliveriesOf(opts.processCount, opts.parallelProcesses, w, ds) && k < |ds|
    requires offset == k * opts.parallelProcesses && batchSize == BatchSize(opts.processCount, opts.parallelProcesses, k)
    requires |results0| == offset && |launches0| == offset
    requires runner.Valid() && runner.cmdArgs[..] == ArgsAfter(opts, last)
    requires |reports| == opts.processCount && ReportsOf(w, reports)
    modifies runner.cmdArgs, stats
    ensures runner.cmdArgs[..] == ArgsAfter(opts, Some(OutputFile(w.now, offset + batchSize - 1)))
    ensures |results| == offset + batchSize && results[..offset] == results0
    ensures forall i :: offset <= i < offset + batchSize ==> results[i] == ResultOf(ds[k], i - offset, reports, w.now, i)
    ensures |launches| == offset + batchSize && launches[..offset] == launches0
    ensures forall i :: offset <= i < offset + batchSize ==> launches[i] == Launched(opts, w.now, i)
    ensures stats.Snapshot() == AggregateAll(old(stats.Snapshot()), Picked(reports, BatchRuns(opts.processCount, opts.parallelProcesses, ds, k)))
  {
    var processes;
    processes, results, launches := LaunchBatch(runner, opts, w, offset, batchSize, results0, launches0, last);
    results := CollectBatch(opts.processCount, opts.parallelProcesses, w, k, offset, processes, results, stats, reports, ds);
  }

  /** The entries of the runs launched so far are final. */
  ghost predicate ResultsFinal(opts: Options, w: World, ds: seq<seq<nat>>, reports: seq<RunResult>, results: seq<RunResult>) {
    && opts.processCount >= 1 && opts.parallelProcesses >= 1
    && |ds| == NumBatches(opts.processCount, opts.parallelProcesses)
    && |results| <= opts.processCount <= |reports|
    && forall i :: 0 <= i < |results| ==>
      results[i] == ExpectedResult(opts.processCount, opts.parallelProcesses, ds, reports, w.now, i)
  }

  /** The command lines of the runs launched so far. */
  ghost predicate LaunchesSoFar(opts: Options, w: World, launches: seq<seq<string>>) {
    forall i :: 0 <= i < |launches| ==> launches[i] == Launched(opts, w.now, i)
  }

  /** `tallies[k]` is the counters after the first k batches. */
  ghost predicate Tallies(c: int, p: int, ds: seq<seq<nat>>, reports: seq<RunResult>, tallies: seq<Counts>)
    requires c >= 1 && p >= 1 && Bounded(c, p, ds) && c <= |reports|
  {
    && |tallies| == |ds| + 1
    && forall k {:trigger CountsAfter(c, p, ds, reports, k)} :: 0 <= k <= |ds| ==> tallies[k] == CountsAfter(c, p, ds, reports, k)
  }

  /** The counters batch by batch, from the initial ones to those at the
      end of the loop. */
  lemma BatchTallies(c: int, p: int, ds: seq<seq<nat>>, reports: seq<RunResult>) returns (tallies: seq<Counts>)
    requires c >= 1 && p >= 1 && Bounded(c, p, ds) && c <= |reports|
    ensures Tallies(c, p, ds, reports, tallies)
    ensures tallies[0] == InitialCounts(c) && tallies[|ds|] == FinalCounts(c, p, ds, reports)
  {
    tallies := seq(|ds| + 1, k requires 0 <= k <= |ds| => CountsAfter(c, p, ds, reports, k));
    assert tallies[0] == CountsAfter(c, p, ds, reports, 0);
    assert tallies[|ds|] == CountsAfter(c, p, ds, reports, |ds|);
    CountsAfterAll(c, p, ds, reports, |ds|);
  }

  lemma ResultsAllFinal(opts: Options, w: World, ds: seq<seq<nat>>, reports: seq<RunResult>, results: seq<RunResult>)
    requires ResultsFinal(opts, w, ds, reports, results) && |results| == opts.processCount
    ensures results == FinalResults(opts.processCount, opts.parallelProcesses, ds, reports, w.now)
  {
  }

  lemma LaunchesAll(opts: Options, w: World, launches: seq<seq<string>>)
    requires LaunchesSoFar(opts, w, launches) && |launches| == opts.processCount
    ensures launches == AllLaunched(opts, w.now)
  {
  }

  /** After batch k, which covers runs offset .. offset + size - 1, the
      entries of all runs so far are final. */
  lemma ResultsAfterBatch(opts: Options, w: World, ds: seq<seq<nat>>, reports: seq<RunResult>, k: nat,
                          offset: nat, size: nat, results0: seq<RunResult>, results: seq<RunResult>)
    requires ResultsFinal(opts, w, ds, reports, results0) && k < |ds|
    requires Bounded(opts.processCount, opts.parallelProcesses, ds)
    requires offset == k * opts.parallelProcesses && size == BatchSize(opts.processCount, opts.parallelProcesses, k)
    requires |results0| == offset && |results| == offset + size && results[..offset] == results0
    requires forall i :: offset <= i < offset + size ==> results[i] == ResultOf(ds[k], i - offset, reports, w.now, i)
    ensures ResultsFinal(opts, w, ds, reports, results)
  {
    var c, p := opts.processCount, opts.parallelProcesses;
    forall i | 0 <= i < offset
      ensures results[i] == ExpectedResult(c, p, ds, reports, w.now, i)
    {
      assert results[i] == results[..offset][i];
    }
    forall i | offset <= i < |results|
      ensures results[i] == ExpectedResult(c, p, ds, reports, w.now, i)
    {
      InBatchOf(c, p, k, offset, i);
      ExpectedAt(c, p, ds, reports, w.now, k, i - offset, i);
    }
  }

  /** The command lines launched so far, extended by those of one batch. */
  lemma LaunchesAfterBatch(opts: Options, w: World, offset: nat, size: nat, launches0: seq<seq<string>>, launches: seq<seq<string>>)
    requires LaunchesSoFar(opts, w, launches0)
    requires |launches0| == offset && |launches| == offset + size && launches[..offset] == launches0
    requires forall i :: offset <= i < offset + size ==> launches[i] == Launched(opts, w.now, i)
    ensures LaunchesSoFar(opts, w, launches)
  {
    forall i | 0 <= i < offset
      ensures launches[i] == Launched(opts, w.now, i)
    {
      assert launches[i] == launches[..offset][i];
    }
  }

  /** The state of the loop after k passes: `current_offset` is where
      batch k starts, the entries and command lines of the runs launched so
      far are final, and the counters hold the first k batches. */
  ghost predicate Progress(opts: Options, w: World, ds: seq<seq<nat>>, reports: seq<RunResult>, tallies: seq<Counts>,
                           k: nat, offset: int, results: seq<RunResult>, launches: seq<seq<string>>, snapshot: Counts)
  {
    && opts.processCount >= 1 && opts.parallelProcesses >= 1
    && Bounded(opts.processCount, opts.parallelProcesses, ds) && opts.processCount <= |reports|
    && k <= |ds| && offset == BatchStart(opts.processCount, opts.parallelProcesses, k)
    && offset <= opts.processCount && |results| == offset && |launches| == offset
    && ResultsFinal(opts, w, ds, reports, results) && LaunchesSoFar(opts, w, launches)
    && Tallies(opts.processCount, opts.parallelProcesses, ds, reports, tallies) && snapshot == tallies[k]
  }

  /** What batch k adds to `Progress`: its entries, its command lines and
      its counters, and `current_offset` moves to the next batch. */
  lemma ProgressStep(opts: Options, w: World, ds: seq<seq<nat>>, reports: seq<RunResult>, tallies: seq<Counts>,
                     k: nat, offset: int, size: int, results0: seq<RunResult>, launches0: seq<seq<string>>, snapshot0: Counts,
                     results: seq<RunResult>, launches: seq<seq<string>>, snapshot: Counts)
    requires Progress(opts, w, ds, reports, tallies, k, offset, results0, launches0, snapshot0)
    requires offset < opts.processCount
    requires size == if opts.processCount - offset < opts.parallelProcesses then opts.processCount - offset else opts.parallelProcesses
    requires |results| == offset + size && results[..offset] == results0
    requires k < |ds| && forall i :: offset <= i < offset + size ==> results[i] == ResultOf(ds[k], i - offset, reports, w.now, i)
    requires |launches| == offset + size && launches[..offset] == launches0
    requires forall i :: offset <= i < offset + size ==> launches[i] == Launched(opts, w.now, i)
    requires snapshot == AggregateAll(snapshot0, Picked(reports, BatchRuns(opts.processCount, opts.parallelProcesses, ds, k)))
    ensures Progress(opts, w, ds, reports, tallies, k + 1, offset + size, results, launches, snapshot)
  {
    var c, p := opts.processCount, opts.parallelProcesses;
    TurnArithmetic(c, p, k, offset, c - offset);
    assert tallies[k] == CountsAfter(c, p, ds, reports, k);
    assert tallies[k + 1] == CountsAfter(c, p, ds, reports, k + 1);
    ResultsAfterBatch(opts, w, ds, reports, k, offset, size, results0, results);
    LaunchesAfterBatch(opts, w, offset, size, launches0, launches);
  }

  /** One pass of the `while (left_to_run > 0)` body, batch k: run
      `min(left_to_run, parallel_processes)` processes from
      `current_offset` and advance both counters, which keeps `Progress`
      for k + 1 batches. */
  method RunBatch(runner: Runner, opts: Options, w: World, k: nat, offset: int, leftToRun: int,
                  results0: seq<RunResult>, launches0: seq<seq<string>>, stats: StatisticsT,
                  ghost last: Option<string>, ghost reports: seq<RunResult>, ghost ds: seq<seq<nat>>,
                  ghost tallies: seq<Counts>)
    returns (results: seq<RunResult>, launches: seq<seq<string>>, nextOffset: int, nextLeft: int, ghost next: Option<string>)
    requires DeliveriesOf(opts.processCount, opts.parallelProcesses, w, ds)
    requires |reports| == opts.processCount && ReportsOf(w, reports)
    requires Progress(opts, w, ds, reports, tallies, k, offset, results0, launches0, stats.Snapshot())
    requires leftToRun == opts.processCount - offset && leftToRun > 0
    requires runner.Valid() && runner.cmdArgs[..] == ArgsAfter(opts, last)
    modifies runner.cmdArgs, stats
    ensures Progress(opts, w, ds, reports, tallies, k + 1, nextOffset, results, launches, stats.Snapshot())
    ensures offset < nextOffset && nextLeft == opts.processCount - nextOffset
    ensures runner.Valid() && runner.cmdArgs[..] == ArgsAfter(opts, next)
  {
    TurnArithmetic(opts.processCount, opts.parallelProcesses, k, offset, leftToRun);
    var batchSize := if leftToRun < opts.parallelProcesses then leftToRun else opts.parallelProcesses;
    ghost var snapshot0 := stats.Snapshot();
    results, launches := ExecuteBatch(runner, opts, w, k, offset, batchSize, results0, launches0, stats, last, reports, ds);
    ProgressStep(opts, w, ds, reports, tallies, k, offset, batchSize, results0, launches0, snapshot0,
                 results, launches, stats.Snapshot());
    nextOffset, nextLeft := offset + batchSize, leftToRun - batchSize;
    next := Some(OutputFile(w.now, nextOffset - 1));
  }

  /** Before the first pass nothing has run and the counters are the
      constructor's. */
  lemma ProgressStart(opts: Options, w: World, ds: seq<seq<nat>>, reports: seq<RunResult>) returns (tallies: seq<Counts>)
    requires opts.processCount >= 1 && opts.parallelProcesses >= 1
    requires Bounded(opts.processCount, opts.parallelProcesses, ds) && opts.processCount <= |reports|
    ensures Progress(opts, w, ds, reports, tallies, 0, 0, [], [], InitialCounts(opts.processCount))
    ensures tallies[|ds|] == FinalCounts(opts.processCount, opts.parallelProcesses, ds, reports)
  {
    tallies := BatchTallies(opts.processCount, opts.parallelProcesses, ds, reports);
  }

  /** When `current_offset` reaches the run count every batch has run: the
      entries, the command lines and the counters are the final ones. */
  lemma ProgressDone(opts: Options, w: World, ds: seq<seq<nat>>, reports: seq<RunResult>, tallies: seq<Counts>,
                     k: nat, results: seq<RunResult>, launches: seq<seq<string>>, snapshot: Counts)
    requires Progress(opts, w, ds, reports, tallies, k, opts.processCount, results, launches, snapshot)
    requires tallies[|ds|] == FinalCounts(opts.processCount, opts.parallelProcesses, ds, reports)
    ensures k == NumBatches(opts.processCount, opts.parallelProcesses)
    ensures results == FinalResults(opts.processCount, opts.parallelProcesses, ds, reports, w.now)
    ensures launches == AllLaunched(opts, w.now)
    ensures snapshot == FinalCounts(opts.processCount, opts.parallelProcesses, ds, reports)
  {
    LoopEnd(opts.processCount, opts.parallelProcesses, k);
    ResultsAllFinal(opts, w, ds, reports, results);
    LaunchesAll(opts, w, launches);
  }

  /** `current_offset` after k passes of the loop: each pass adds
      `min(left_to_run, parallel_processes)`. */
  function BatchStart(c: int, p: int, k: nat): int {
    if k == 0 then 0
    else if BatchStart(c, p, k - 1) + p < c then BatchStart(c, p, k - 1) + p
    else c
  }

  /** Batch k starts at k * p; once all are launched the offset is c. */
  lemma {:induction false} BatchStartIs(c: int, p: int, k: nat)
    requires c >= 1 && p >= 1
    ensures BatchStart(c, p, k) == if k < NumBatches(c, p) then k * p else c
  {
    if k > 0 {
      BatchStartIs(c, p, k - 1);
      BatchIndex(c, p, k - 1);
      BatchIndex(c, p, k);
      assert k * p == (k - 1) * p + p;
    }
  }

  /** Where the batch loop stands at the top of a pass: batch k of the
      batches starts at its offset and holds min(left_to_run, p) runs, and
      the next offset is the start of batch k + 1 (c after the last one). */
  lemma TurnArithmetic(c: int, p: int, k: nat, offset: int, left: int)
    requires c >= 1 && p >= 1
    requires offset == BatchStart(c, p, k) && left == c - offset && left > 0
    ensures k < NumBatches(c, p) && offset == k * p
    ensures BatchSize(c, p, k) == if left < p then left else p
    ensures BatchStart(c, p, k + 1) == offset + BatchSize(c, p, k)
  {
    BatchStartIs(c, p, k);
    BatchSizes(c, p, k);
  }

  /** The loop stops after the last batch. */
  lemma LoopEnd(c: int, p: int, k: nat)
    requires c >= 1 && p >= 1 && k <= NumBatches(c, p) && BatchStart(c, p, k) == c
    ensures k == NumBatches(c, p)
  {
    BatchStartIs(c, p, k);
    BatchIndex(c, p, k);
  }

  /** Lines 75-129 once the options are valid: the statistics, the runner
      and the batch loop.  `batches` counts the passes of the loop; `ds`
      and `reports` stand for what the batches deliver and what the runs
      write. */
  method RunBatches(opts: Options, w: World, ghost ds: seq<seq<nat>>, ghost reports: seq<RunResult>)
    returns (results: seq<RunResult>, stats: StatisticsT, launches: seq<seq<string>>, batches: nat)
    requires Validate(opts).Ok? && DeliveriesOf(opts.processCount, opts.parallelProcesses, w, ds)
    requires |reports| == opts.processCount && ReportsOf(w, reports)
    ensures fresh(stats)
    ensures batches == NumBatches(opts.processCount, opts.parallelProcesses)
    ensures results == FinalResults(opts.processCount, opts.parallelProcesses, ds, reports, w.now)
    ensures launches == AllLaunched(opts, w.now)
    ensures stats.Snapshot() == FinalCounts(opts.processCount, opts.parallelProcesses, ds, reports)
  {
    var c, p := opts.processCount, opts.parallelProcesses;
    stats := new StatisticsT(c);
    var runner := MakeRunner(opts);
    var leftToRun := c;
    var currentOffset := 0;
    results, launches, batches := [], [], 0;
    ghost var last: Option<string> := None;
    ghost var tallies := ProgressStart(opts, w, ds, reports);
    while leftToRun > 0
      invariant fresh(stats) && fresh(runner.cmdArgs)
      invariant Progress(opts, w, ds, reports, tallies, batches, currentOffset, results, launches, stats.Snapshot())
      invariant leftToRun == c - currentOffset
      invariant runner.Valid() && runner.cmdArgs[..] == ArgsAfter(opts, last)
      decreases leftToRun
    {
      results, launches, currentOffset, leftToRun, last :=
        RunBatch(runner, opts, w, batches, currentOffset, leftToRun, results, launches, stats, last, reports, ds, tallies);
      batches := batches + 1;
    }
    ProgressDone(opts, w, ds, reports, tallies, batches, results, launches, stats.Snapshot());
  }

  // ---------------------------------------------------------------------
  // What the outcome of the loop means.

  /** `poll_one_each` for batch b: no index twice, success exactly when
      every index of the batch was handed over, and then each was. */
  lemma BatchDeliveryFacts(c: int, p: int, w: World, b: nat)
    requires Fits(c, p, w) && b < NumBatches(c, p)
    ensures var d := BatchDelivery(c, p, w, b);
      && NoDuplicates(d.delivered)
      && (d.status == Success <==> |d.delivered| == BatchSize(c, p, b))
      && (d.status == Success ==> forall j :: 0 <= j < BatchSize(c, p, b) ==> j in d.delivered)
  {
    var fds := BatchFds(c, p, w, b);
    assert AnswersFit(w.polls[b], |fds|);
    OneEachCorrect(fds, w.polls[b]);
  }

  /** Run b * p + j, entry j of batch b, ends with its report when the
      batch handed index j to the callback, and with the result pushed at
      its launch otherwise. */
  lemma ExpectedResultMeaning(c: int, p: int, w: World, ds: seq<seq<nat>>, reports: seq<RunResult>, b: nat, j: nat)
    requires DeliveriesOf(c, p, w, ds) && ReportsOf(w, reports) && |reports| == c
    requires b < |ds| && j < BatchSize(c, p, b)
    ensures b * p + j < c
    ensures ExpectedResult(c, p, ds, reports, w.now, b * p + j)
         == if j in BatchDelivery(c, p, w, b).delivered then ReportedRun(w, b * p + j) else Unfilled(w.now, b * p + j)
  {
    var i := b * p + j;
    assert i < c by {
      NextOffset(c, p, b);
      BatchIndex(c, p, b + 1);
    }
    InBatch(p, b, j);
    assert ds[b] == BatchDelivery(c, p, w, b).delivered;
    assert reports[i] == ReportedRun(w, i);
  }

  /** The entry of run i names run i's output file, read or not. */
  lemma ResultNamesItsOutput(c: int, p: int, ds: seq<seq<nat>>, w: World, reports: seq<RunResult>, i: nat)
    requires c >= 1 && p >= 1 && Bounded(c, p, ds) && ReportsOf(w, reports) && i < c == |reports|
    ensures ExpectedResult(c, p, ds, reports, w.now, i).outputFile == OutputFile(w.now, i)
  {
  }

  /** When `poll_one_each` succeeds for a batch, every run of the batch
      ends with the report read from its output. */
  lemma SuccessfulBatchReportsAll(c: int, p: int, w: World, ds: seq<seq<nat>>, reports: seq<RunResult>, b: nat, j: nat)
    requires DeliveriesOf(c, p, w, ds) && ReportsOf(w, reports) && |reports| == c
    requires b < |ds| && j < BatchSize(c, p, b)
    requires BatchDelivery(c, p, w, b).status == Success
    ensures b * p + j < c
    ensures ExpectedResult(c, p, ds, reports, w.now, b * p + j) == ReportedRun(w, b * p + j)
  {
    ExpectedResultMeaning(c, p, w, ds, reports, b, j);
    BatchDeliveryFacts(c, p, w, b);
  }

  /** Shifting keeps the indices of a batch distinct. */
  lemma ShiftedDistinct(d: seq<nat>, off: nat)
    requires NoDuplicates(d)
    ensures NoDuplicates(Shifted(d, off))
  {
  }

  /** The runs of the first k batches come before batch k. */
  lemma {:induction false} DeliveredRunsBelow(c: int, p: int, ds: seq<seq<nat>>, k: nat)
    requires c >= 1 && p >= 1 && Bounded(c, p, ds) && k <= |ds|
    ensures forall j :: 0 <= j < |DeliveredRuns(c, p, ds, k)| ==> DeliveredRuns(c, p, ds, k)[j] < k * p
  {
    if k > 0 {
      DeliveredRunsBelow(c, p, ds, k - 1);
      MulMonotone(k - 1, k, p);
      assert (k - 1) * p + p == k * p;
      var runs := DeliveredRuns(c, p, ds, k);
      var before, batch := DeliveredRuns(c, p, ds, k - 1), BatchRuns(c, p, ds, k - 1);
      assert runs == before + batch;
      forall j | 0 <= j < |runs|
        ensures runs[j] < k * p
      {
        if j < |before| {
          assert runs[j] == before[j];
        } else {
          assert runs[j] == batch[j - |before|];
        }
      }
    }
  }

  /** No run is handed to the callback twice, in any batch. */
  lemma {:induction false} DeliveredRunsDistinct(c: int, p: int, ds: seq<seq<nat>>, k: nat)
    requires c >= 1 && p >= 1 && Bounded(c, p, ds) && k <= |ds|
    requires forall b :: 0 <= b < |ds| ==> NoDuplicates(ds[b])
    ensures NoDuplicates(DeliveredRuns(c, p, ds, k))
  {
    if k > 0 {
      DeliveredRunsDistinct(c, p, ds, k - 1);
      DeliveredRunsBelow(c, p, ds, k - 1);
      ShiftedDistinct(ds[k - 1], (k - 1) * p);
      var before, batch := DeliveredRuns(c, p, ds, k - 1), BatchRuns(c, p, ds, k - 1);
      var runs := before + batch;
      forall x, y | 0 <= x < y < |runs|
        ensures runs[x] != runs[y]
      {
        if y < |before| {
          assert runs[x] == before[x] && runs[y] == before[y];
        } else if x >= |before| {
          assert runs[x] == batch[x - |before|] && runs[y] == batch[y - |before|];
        } else {
          assert runs[x] == before[x] && runs[y] == batch[y - |before|];
        }
      }
    }
  }

  /** How many runs the first k batches hand over when each of them hands
      over all of its runs. */
  lemma {:induction false} DeliveredRunsCount(c: int, p: int, ds: seq<seq<nat>>, k: nat)
    requires c >= 1 && p >= 1 && Bounded(c, p, ds) && k <= |ds|
    requires forall b :: 0 <= b < |ds| ==> |ds[b]| == BatchSize(c, p, b)
    ensures |DeliveredRuns(c, p, ds, k)| == if k < |ds| then k * p else c
  {
    if k > 0 {
      DeliveredRunsCount(c, p, ds, k - 1);
      NextOffset(c, p, k - 1);
      assert (k - 1) * p + p == k * p;
    }
  }

  /** When every batch hands over all of its indices, the first k batches
      hand over every run before the start of batch k (every run, for the
      last one). */
  lemma {:induction false} DeliveredRunsCover(c: int, p: int, ds: seq<seq<nat>>, k: nat)
    requires c >= 1 && p >= 1 && Bounded(c, p, ds) && k <= |ds|
    requires forall b, j :: 0 <= b < |ds| && 0 <= j < BatchSize(c, p, b) ==> j in ds[b]
    ensures forall i :: 0 <= i < (if k < |ds| then k * p else c) ==> i in DeliveredRuns(c, p, ds, k)
  {
    if k > 0 {
      DeliveredRunsCover(c, p, ds, k - 1);
      NextOffset(c, p, k - 1);
      var off := (k - 1) * p;
      var before, batch := DeliveredRuns(c, p, ds, k - 1), BatchRuns(c, p, ds, k - 1);
      assert DeliveredRuns(c, p, ds, k) == before + batch;
      forall i | 0 <= i < (if k < |ds| then k * p else c)
        ensures i in before + batch
      {
        if i >= off {
          var j := i - off;
          assert j in ds[k - 1];
          var m :| 0 <= m < |ds[k - 1]| && ds[k - 1][m] == j;
          assert batch[m] == i;
        }
      }
    }
  }

  /** Every run is aggregated at most once; and when every batch's
      `poll_one_each` succeeded, every run is aggregated exactly once. */
  lemma EachRunAggregatedOnce(c: int, p: int, w: World, ds: seq<seq<nat>>)
    requires DeliveriesOf(c, p, w, ds)
    ensures var runs := DeliveredRuns(c, p, ds, |ds|);
      && NoDuplicates(runs)
      && ((forall b :: 0 <= b < |ds| ==> BatchDelivery(c, p, w, b).status == Success) ==>
          |runs| == c && forall i :: 0 <= i < c ==> i in runs)
  {
    forall b | 0 <= b < |ds|
      ensures NoDuplicates(ds[b])
      ensures BatchDelivery(c, p, w, b).status == Success ==> |ds[b]| == BatchSize(c, p, b)
      ensures BatchDelivery(c, p, w, b).status == Success ==> forall j :: 0 <= j < BatchSize(c, p, b) ==> j in ds[b]
    {
      BatchDeliveryFacts(c, p, w, b);
      assert ds[b] == BatchDelivery(c, p, w, b).delivered;
    }
    DeliveredRunsDistinct(c, p, ds, |ds|);
    if forall b :: 0 <= b < |ds| ==> BatchDelivery(c, p, w, b).status == Success {
      DeliveredRunsCount(c, p, ds, |ds|);
      DeliveredRunsCover(c, p, ds, |ds|);
    }
  }

  /** The counters at the end: `total_games` is c, and every run handed to
      the callback counts as one game run, a both-error as two, which is
      what `left_to_run()` subtracts from c. */
  lemma FinalCountsTotals(c: int, p: int, ds: seq<seq<nat>>, reports: seq<RunResult>)
    requires c >= 1 && p >= 1 && Bounded(c, p, ds) && c <= |reports|
    ensures var picked := Picked(reports, DeliveredRuns(c, p, ds, |ds|));
      && FinalCounts(c, p, ds, reports).totalGames == c
      && FinalCounts(c, p, ds, reports).RunGames() == |picked| + CountBothErrors(picked)
  {
    AggregateAllRunGames(InitialCounts(c), Picked(reports, DeliveredRuns(c, p, ds, |ds|)));
  }

  /** Run i is entry i % p of batch i / p. */
  lemma RunInBatch(c: int, p: int, i: nat)
    requires c >= 1 && p >= 1 && i < c
    ensures 0 <= i / p < NumBatches(c, p) && i % p < BatchSize(c, p, i / p)
    ensures (i / p) * p + i % p == i
  {
    var b := i / p;
    BatchIndex(c, p, b);
    assert b * p <= i;
    NextOffset(c, p, b);
    if b + 1 < NumBatches(c, p) {
      BatchSizes(c, p, b);
    }
  }

  /** Run i ends with its report when its batch's `poll_one_each` succeeded. */
  lemma SuccessfulRunReported(c: int, p: int, w: World, ds: seq<seq<nat>>, reports: seq<RunResult>, i: nat)
    requires DeliveriesOf(c, p, w, ds) && ReportsOf(w, reports) && |reports| == c && i < c
    requires i / p < |ds| && BatchDelivery(c, p, w, i / p).status == Success
    ensures ExpectedResult(c, p, ds, reports, w.now, i) == ReportedRun(w, i)
  {
    RunInBatch(c, p, i);
    var b, j := i / p, i % p;
    BatchDeliveryFacts(c, p, w, b);
    assert ds[b] == BatchDelivery(c, p, w, b).delivered;
    assert j in ds[b];
    assert reports[i] == ReportedRun(w, i);
  }

  /** When every batch's `poll_one_each` succeeded, every run ends with the
      report read from its output. */
  lemma AllBatchesSucceeded(c: int, p: int, w: World, ds: seq<seq<nat>>, reports: seq<RunResult>)
    requires DeliveriesOf(c, p, w, ds) && ReportsOf(w, reports) && |reports| == c
    requires forall b :: 0 <= b < |ds| ==> BatchDelivery(c, p, w, b).status == Success
    ensures forall i :: 0 <= i < c ==> ExpectedResult(c, p, ds, reports, w.now, i) == ReportedRun(w, i)
  {
    forall i | 0 <= i < c
      ensures ExpectedResult(c, p, ds, reports, w.now, i) == ReportedRun(w, i)
    {
      RunInBatch(c, p, i);
      SuccessfulRunReported(c, p, w, ds, reports, i);
    }
  }

  /** When every batch hands over all of its runs (which is what a
      successful `poll_one_each` does), `left_to_run()` ends at minus the
      number of both-errors: zero exactly when no run had both players
      fail. */
  lemma CountsWhenAllDelivered(c: int, p: int, ds: seq<seq<nat>>, reports: seq<RunResult>)
    requires c >= 1 && p >= 1 && Bounded(c, p, ds) && c <= |reports|
    requires forall b :: 0 <= b < |ds| ==> |ds[b]| == BatchSize(c, p, b)
    ensures FinalCounts(c, p, ds, reports).LeftToRun() == -(CountBothErrors(Picked(reports, DeliveredRuns(c, p, ds, |ds|))) as int)
  {
    FinalCountsTotals(c, p, ds, reports);
    DeliveredRunsCount(c, p, ds, |ds|);
  }
}
