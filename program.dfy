// `main` of src/main.cpp from the command line to the end of the batch
// loop: parse the options, reject a bad configuration, then run the
// batches.  The summary `print_summary` shows is returned instead.

module Program {
  import opened Wrappers
  import opened ProgramOptions
  import opened Statistics
  import opened ResultLine
  import opened Delivery
  import opened Runner
  import opened Scheduler

  /** What `print_summary` is given: the results, the counters and, for
      the model, the argument vector of each launch. */
  datatype Summary = Summary(results: seq<RunResult>, counts: Counts, launches: seq<seq<string>>)

  /** The world has an entry for every run and batch the options ask for. */
  predicate Covers(argv: seq<string>, w: World) {
    var parsed := ParsedOptions(argv);
    parsed.Ok? && Validate(parsed.value).Ok? ==> Fits(parsed.value.processCount, parsed.value.parallelProcesses, w)
  }

  /** The summary of the batch loop for what the batches deliver (`ds`)
      and what the runs write (`reports`). */
  function SummaryOf(opts: Options, now: int, ds: seq<seq<nat>>, reports: seq<RunResult>): Summary
    requires opts.processCount >= 1 && opts.parallelProcesses >= 1
    requires Bounded(opts.processCount, opts.parallelProcesses, ds) && |reports| == opts.processCount
  {
    var c, p := opts.processCount, opts.parallelProcesses;
    Summary(FinalResults(c, p, ds, reports, now), FinalCounts(c, p, ds, reports), AllLaunched(opts, now))
  }

  /** What `main` ends with: an exit status from option parsing or
      validation, or the summary of all runs. */
  function ProgramOutcome(argv: seq<string>, w: World): Outcome<Summary>
    requires Covers(argv, w)
  {
    match ParsedOptions(argv)
    case Exit(s) => Exit(s)
    case Ok(opts) =>
      match Validate(opts)
      case Exit(s) => Exit(s)
      case Ok(_) =>
        var c, p := opts.processCount, opts.parallelProcesses;
        Ok(SummaryOf(opts, w.now, AllDeliveries(c, p, w), AllReported(w, c)))
  }

  method RunProgram(argv: seq<string>, w: World) returns (r: Outcome<Summary>)
    requires Covers(argv, w)
    ensures r == ProgramOutcome(argv, w)
  {
    var parsed := ParseOptions(argv);
    if parsed.Exit? {
      return Exit(parsed.status);
    }
    var opts := parsed.value;
    var valid := Validate(opts);
    if valid.Exit? {
      return Exit(valid.status);
    }
    var c, p := opts.processCount, opts.parallelProcesses;
    ghost var ds, reports := AllDeliveries(c, p, w), AllReported(w, c);
    AllDeliveriesFits(c, p, w);
    AllReportedFits(w, c);
    var results, stats, launches, batches := RunBatches(opts, w, ds, reports);
    r := Ok(Summary(results, stats.Snapshot(), launches));
    assert r.value == SummaryOf(opts, w.now, ds, reports);
  }

  // ---------------------------------------------------------------------
  // What the program ends with.

  /** A command line that does not parse ends with the parser's exit
      status, and a configuration `main` rejects ends with status 1;
      everything else runs the batches. */
  lemma ExitStatuses(argv: seq<string>, w: World)
    requires Covers(argv, w)
    ensures ParsedOptions(argv).Exit? ==> ProgramOutcome(argv, w) == Exit(ParsedOptions(argv).status)
    ensures ParsedOptions(argv).Ok? && Validate(ParsedOptions(argv).value).Exit? ==> ProgramOutcome(argv, w) == Exit(Rejected)
    ensures ProgramOutcome(argv, w).Ok? <==> ParsedOptions(argv).Ok? && Validate(ParsedOptions(argv).value).Ok?
  {
  }

  /** `ds` and `reports` are what the batches of a valid configuration
      deliver and what its runs write; `AllDeliveries` and `AllReported`
      are such, and the only such. */
  ghost predicate Describes(opts: Options, w: World, ds: seq<seq<nat>>, reports: seq<RunResult>) {
    && Validate(opts).Ok?
    && DeliveriesOf(opts.processCount, opts.parallelProcesses, w, ds)
    && |reports| == opts.processCount && ReportsOf(w, reports)
  }

  lemma AllDescribe(opts: Options, w: World)
    requires Validate(opts).Ok? && Fits(opts.processCount, opts.parallelProcesses, w)
    ensures Describes(opts, w, AllDeliveries(opts.processCount, opts.parallelProcesses, w), AllReported(w, opts.processCount))
  {
    AllDeliveriesFits(opts.processCount, opts.parallelProcesses, w);
    AllReportedFits(w, opts.processCount);
  }

  /** Every run's entry names its own output file, and no two runs share
      one. */
  lemma SummaryOutputFiles(opts: Options, w: World, ds: seq<seq<nat>>, reports: seq<RunResult>)
    requires Describes(opts, w, ds, reports)
    ensures var s := SummaryOf(opts, w.now, ds, reports);
      && |s.results| == opts.processCount
      && (forall i :: 0 <= i < opts.processCount ==> s.results[i].outputFile == OutputFile(w.now, i))
      && (forall i, k :: 0 <= i < k < opts.processCount ==> s.results[i].outputFile != s.results[k].outputFile)
  {
    var c, p := opts.processCount, opts.parallelProcesses;
    var s := SummaryOf(opts, w.now, ds, reports);
    forall i | 0 <= i < c
      ensures s.results[i].outputFile == OutputFile(w.now, i)
    {
      ResultNamesItsOutput(c, p, ds, w, reports, i);
    }
    forall i, k | 0 <= i < k < c
      ensures s.results[i].outputFile != s.results[k].outputFile
    {
      if s.results[i].outputFile == s.results[k].outputFile {
        OutputFileInjective(w.now, i, k);
      }
    }
  }

  /** Run i is launched as `java -jar <referee> -p1 <p1> -p2 <p2>`, with
      `-l <its output file>` when output generation is on. */
  lemma SummaryLaunch(opts: Options, w: World, ds: seq<seq<nat>>, reports: seq<RunResult>, i: nat)
    requires Describes(opts, w, ds, reports) && i < opts.processCount
    ensures SummaryOf(opts, w.now, ds, reports).launches[i]
      == ["java", "-jar", opts.referee, "-p1", opts.p1, "-p2", opts.p2] +
         (if opts.generateOutput then ["-l", OutputFile(w.now, i)] else [])
  {
    LaunchedCommandLine(opts, OutputFile(w.now, i));
  }
}
