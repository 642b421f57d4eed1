/** `runner` of src/runner.hpp and src/runner.cpp: the argument vector handed
    to `execvp`, a fixed array of 12 `const char*` slots of which a null one
    ends the vector.  Starting the process is not part of this model: the
    launch returns the program name and the vector instead. */
module Runner {
  import opened Wrappers
  import opened ProgramOptions

  /** `runner::POSITIONS`. */
  const Referee: nat := 2
  const Player1: nat := 4
  const Player2: nat := 6
  const GenerateFlag: nat := 7
  const OutputName: nat := 8
  const SlotCount: nat := 12

  /** The default member initialiser of `cmd_args`. */
  function InitialArgs(): (a: seq<Option<string>>)
    ensures |a| == SlotCount
  {
    [Some("java"), Some("-jar"), None, Some("-p1"), None, Some("-p2"),
     None, None, None, None, None, None]
  }

  /** `cmd_args` after `make_runner(opts)`. */
  function RunnerArgs(opts: Options): (a: seq<Option<string>>)
    ensures |a| == SlotCount
  {
    var a := InitialArgs()[Player1 := Some(opts.p1)][Player2 := Some(opts.p2)][Referee := Some(opts.referee)];
    if opts.generateOutput then a[GenerateFlag := Some("-l")] else a
  }

  /** `cmd_args` after `operator()(output_file)`. */
  function LaunchArgs(a: seq<Option<string>>, outputFile: string): (b: seq<Option<string>>)
    requires |a| == SlotCount
    ensures |b| == SlotCount
  {
    if a[GenerateFlag].Some? then a[OutputName := Some(outputFile)] else a
  }

  /** The argument vector `execvp` sees: the slots before the first null. */
  function ArgvUntilNull(a: seq<Option<string>>): seq<string> {
    if a == [] || a[0].None? then [] else [a[0].value] + ArgvUntilNull(a[1..])
  }

  /** The named positions are distinct slots of the array, and slots 9-11
      are none of them, so the vector is always null-terminated. */
  lemma PositionsDistinct()
    ensures |{Referee, Player1, Player2, GenerateFlag, OutputName}| == 5
    ensures Referee < 9 && Player1 < 9 && Player2 < 9 && GenerateFlag < 9 && OutputName < 9 && 9 < SlotCount
  {
  }

  lemma InitialLayout()
    ensures InitialArgs()[0] == Some("java") && InitialArgs()[1] == Some("-jar")
    ensures InitialArgs()[3] == Some("-p1") && InitialArgs()[5] == Some("-p2")
    ensures forall i :: i in {2, 4, 6, 7, 8, 9, 10, 11} ==> InitialArgs()[i].None?
  {
  }

  /** make_runner puts the three commands at their positions, sets the log
      flag exactly when output generation is on, and leaves the fixed slots
      alone. */
  lemma MakeRunnerLayout(opts: Options)
    ensures RunnerArgs(opts)[Referee] == Some(opts.referee)
    ensures RunnerArgs(opts)[Player1] == Some(opts.p1)
    ensures RunnerArgs(opts)[Player2] == Some(opts.p2)
    ensures RunnerArgs(opts)[GenerateFlag] == if opts.generateOutput then Some("-l") else None
    ensures forall i :: i in {0, 1, 3, 5, 8, 9, 10, 11} ==> RunnerArgs(opts)[i] == InitialArgs()[i]
  {
  }

  /** operator() writes the output name only when slot 7 holds the flag,
      and changes nothing else. */
  lemma LaunchWritesOnlyOutputName(a: seq<Option<string>>, outputFile: string)
    requires |a| == SlotCount
    ensures forall i :: 0 <= i < SlotCount && i != OutputName ==> LaunchArgs(a, outputFile)[i] == a[i]
    ensures LaunchArgs(a, outputFile)[OutputName] == if a[GenerateFlag].Some? then Some(outputFile) else a[OutputName]
  {
  }

  /** Each launch overwrites the previous output name: the runner object is
      reused across batches and only the last name is seen. */
  lemma LaunchOverwrites(a: seq<Option<string>>, x: string, y: string)
    requires |a| == SlotCount
    ensures LaunchArgs(LaunchArgs(a, x), y) == LaunchArgs(a, y)
  {
  }

  /** The vector ends at the first null slot. */
  lemma {:induction false} ArgvUpTo(a: seq<Option<string>>, k: nat)
    requires k < |a| && a[k].None?
    requires forall i :: 0 <= i < k ==> a[i].Some?
    ensures ArgvUntilNull(a) == seq(k, i requires 0 <= i < k => a[i].value)
  {
    if k > 0 {
      ArgvUpTo(a[1..], k - 1);
      assert ArgvUntilNull(a) == [a[0].value] + seq(k - 1, i requires 0 <= i < k - 1 => a[1..][i].value);
    }
  }

  /** The command line of one referee run: `java -jar <referee> -p1 <p1>
      -p2 <p2>`, followed by `-l <output file>` when output generation is
      on. */
  lemma LaunchedCommandLine(opts: Options, outputFile: string)
    ensures ArgvUntilNull(LaunchArgs(RunnerArgs(opts), outputFile)) ==
      ["java", "-jar", opts.referee, "-p1", opts.p1, "-p2", opts.p2] +
      (if opts.generateOutput then ["-l", outputFile] else [])
  {
    var a := LaunchArgs(RunnerArgs(opts), outputFile);
    var expected := ["java", "-jar", opts.referee, "-p1", opts.p1, "-p2", opts.p2] +
      (if opts.generateOutput then ["-l", outputFile] else []);
    var k := |expected|;
    assert forall i :: 0 <= i < k ==> a[i] == Some(expected[i]);
    ArgvUpTo(a, k);
    assert seq(k, i requires 0 <= i < k => a[i].value) == expected;
  }

  /** A `runner` object: its `cmd_args` array is written in place. */
  class Runner {
    var cmdArgs: array<Option<string>>

    ghost predicate Valid()
      reads this
    {
      cmdArgs.Length == SlotCount
    }

    constructor ()
      ensures Valid() && fresh(cmdArgs)
      ensures cmdArgs[..] == InitialArgs()
    {
      var a := new Option<string>[SlotCount](_ => None);
      a[0], a[1], a[3], a[5] := Some("java"), Some("-jar"), Some("-p1"), Some("-p2");
      cmdArgs := a;
    }

    /** `operator()(output_file)`: fills in the output name when the log flag
        is set and launches "java" with the vector, which is returned here. */
    method Launch(outputFile: string) returns (program: string, argv: seq<Option<string>>)
      requires Valid()
      modifies cmdArgs
      ensures Valid()
      ensures cmdArgs[..] == LaunchArgs(old(cmdArgs[..]), outputFile)
      ensures program == "java" && argv == cmdArgs[..]
    {
      if cmdArgs[GenerateFlag] != None {
        cmdArgs[OutputName] := Some(outputFile);
      }
      program := "java";
      argv := cmdArgs[..];
    }
  }

  /** `make_runner(opts)`. */
  method MakeRunner(opts: Options) returns (r: Runner)
    ensures fresh(r) && fresh(r.cmdArgs) && r.Valid()
    ensures r.cmdArgs[..] == RunnerArgs(opts)
  {
    r := new Runner();
    r.cmdArgs[Player1] := Some(opts.p1);
    r.cmdArgs[Player2] := Some(opts.p2);
    r.cmdArgs[Referee] := Some(opts.referee);
    if opts.generateOutput {
      r.cmdArgs[GenerateFlag] := Some("-l");
    }
  }
}
