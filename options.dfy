/** `option_t` and `unwrap` of src/options.hpp and `parse_options` of
    src/options.cpp: the command line as a two-state token machine.  Each
    `exit(1)` of the source is an `Exit(1)` outcome; the diagnostics it prints
    are not modelled. */
module ProgramOptions {
  import opened Wrappers
  import opened IntegerResult
  import opened Cli

  datatype Options = Options(
    processCount: int,
    parallelProcesses: int,
    generateOutput: bool,
    p1: string,
    p2: string,
    referee: string,
    debug: bool)

  /** The default member initialisers of `option_t`. */
  function Defaults(): Options {
    Options(20, 4, true, "", "", "", false)
  }

  lemma DefaultValues()
    ensures Defaults().processCount == 20 && Defaults().parallelProcesses == 4
    ensures Defaults().generateOutput && !Defaults().debug
    ensures Defaults().p1 == "" && Defaults().p2 == "" && Defaults().referee == ""
  {
  }

  /** `unwrap(r, msg...)`: the value, or `exit(1)` on an error. */
  function Unwrap(r: IntegerResult): (o: Outcome<int>)
    ensures o.Exit? <==> r.IsError()
    ensures o.Exit? ==> o.status == 1
    ensures o.Ok? ==> r.IsValue() && o.value == r.Value()
  {
    if r.IsError() then Exit(1) else Ok(r.Value())
  }

  datatype Expectation = ExpectOption | ExpectValue

  /** `curopt` for the options that take a value (the boolean flags `G` and
      `d` never become the current option). */
  datatype CurrentOption = NoOption | Count | Parallel | Player1 | Player2 | Referee

  datatype ParseState = ParseState(expectation: Expectation, current: CurrentOption, options: Options) {
    /** The machine expects a value exactly when it has an option waiting
        for one. */
    predicate Consistent() { expectation == ExpectValue <==> current != NoOption }
  }

  function InitialState(): ParseState {
    ParseState(ExpectOption, NoOption, Defaults())
  }

  /** Stores the value `arg` for option `opt`, parsing it for `c` and `p`. */
  function StoreValue(o: Options, opt: CurrentOption, arg: string): Outcome<Options>
    requires opt != NoOption
  {
    match opt
    case Count =>
      (match Unwrap(ParsedUnsignedInt(arg))
       case Ok(v) => Ok(o.(processCount := v))
       case Exit(s) => Exit(s))
    case Parallel =>
      (match Unwrap(ParsedUnsignedInt(arg))
       case Ok(v) => Ok(o.(parallelProcesses := v))
       case Exit(s) => Exit(s))
    case Player1 => Ok(o.(p1 := arg))
    case Player2 => Ok(o.(p2 := arg))
    case Referee => Ok(o.(referee := arg))
  }

  /** `st` with its options replaced by a stored value, or the exit. */
  function WithOptions(st: ParseState, r: Outcome<Options>): Outcome<ParseState> {
    match r
    case Ok(o) => Ok(st.(options := o))
    case Exit(s) => Exit(s)
  }

  /** The option that a flag character takes a value for. */
  function ValueOption(f: char): CurrentOption {
    match f
    case 'c' => Count
    case 'p' => Parallel
    case '1' => Player1
    case '2' => Player2
    case 'r' => Referee
    case _ => NoOption
  }

  /** The inner loop over the characters of an option token, from index c:
      `G` and `d` set their flag and go on; an option taking a value takes
      the rest of the token, or waits for the next token when it is the last
      character, and ends the scan (the `goto`); anything else exits. */
  function ScanFlags(st: ParseState, arg: string, c: nat): Outcome<ParseState>
    requires 1 <= c <= |arg|
    decreases |arg| - c
  {
    if c == |arg| then Ok(st)
    else if arg[c] == 'G' then ScanFlags(st.(options := st.options.(generateOutput := false)), arg, c + 1)
    else if arg[c] == 'd' then ScanFlags(st.(options := st.options.(debug := true)), arg, c + 1)
    else if ValueOption(arg[c]) != NoOption then
      if c < |arg| - 1 then WithOptions(st, StoreValue(st.options, ValueOption(arg[c]), arg[c + 1..]))
      else Ok(st.(current := ValueOption(arg[c]), expectation := ExpectValue))
    else Exit(1)
  }

  /** One iteration of the loop over argv. */
  function Step(st: ParseState, arg: string): Outcome<ParseState> {
    match st.expectation
    case ExpectOption =>
      if |arg| < 2 || arg[0] != '-' then Exit(1) else ScanFlags(st, arg, 1)
    case ExpectValue =>
      if st.current == NoOption then Exit(1)
      else WithOptions(ParseState(ExpectOption, NoOption, st.options), StoreValue(st.options, st.current, arg))
  }

  function Run(st: ParseState, args: seq<string>): Outcome<ParseState>
    decreases |args|, 0
  {
    if args == [] then Ok(st) else Continue(Step(st, args[0]), args[1..])
  }

  function Continue(o: Outcome<ParseState>, rest: seq<string>): Outcome<ParseState>
    decreases |rest|, 1
  {
    match o
    case Ok(st) => Run(st, rest)
    case Exit(s) => Exit(s)
  }

  /** What `parse_options(argc, argv)` returns: argv[0] is the program
      name; an option still waiting for its value at the end only prints a
      diagnostic. */
  function ParsedOptions(argv: seq<string>): Outcome<Options> {
    if |argv| == 0 then Ok(Defaults())
    else
      match Run(InitialState(), argv[1..])
      case Ok(st) => Ok(st.options)
      case Exit(s) => Exit(s)
  }

  function Finish(o: Outcome<ParseState>): Outcome<Options> {
    match o
    case Ok(st) => Ok(st.options)
    case Exit(s) => Exit(s)
  }

  lemma RunStep(st: ParseState, args: seq<string>, i: nat)
    requires i < |args|
    ensures Run(st, args[i..]) == Continue(Step(st, args[i]), args[i + 1..])
  {
    assert args[i..][0] == args[i];
    assert args[i..][1..] == args[i + 1..];
  }

  /** `parse_options`: the loop over argv with the inner loop over the
      characters of an option token. */
  method ParseOptions(argv: seq<string>) returns (r: Outcome<Options>)
    ensures r == ParsedOptions(argv)
  {
    if |argv| == 0 {
      return Ok(Defaults());
    }
    var expectation := ExpectOption;
    var current := NoOption;
    var options := Defaults();
    var i := 1;
    while i < |argv|
      invariant 1 <= i <= |argv|
      invariant ParsedOptions(argv) == Finish(Run(ParseState(expectation, current, options), argv[i..]))
    {
      var arg := argv[i];
      ghost var st0 := ParseState(expectation, current, options);
      RunStep(st0, argv, i);
      if expectation == ExpectOption {
        if |arg| < 2 || arg[0] != '-' {
          return Exit(1);
        }
        var c := 1;
        var done := false;
        while c < |arg| && !done
          invariant 1 <= c <= |arg|
          invariant !done ==> ScanFlags(st0, arg, 1) == ScanFlags(ParseState(expectation, current, options), arg, c)
          invariant done ==> ScanFlags(st0, arg, 1) == Ok(ParseState(expectation, current, options))
          decreases |arg| - c, !done
        {
          var cur := arg[c];
          if cur == 'G' {
            options := options.(generateOutput := false);
            c := c + 1;
          } else if cur == 'd' {
            options := options.(debug := true);
            c := c + 1;
          } else if cur == 'c' || cur == 'p' {
            if c < |arg| - 1 {
              var parsed := ParseUnsignedInt(arg[c + 1..]);
              var u := Unwrap(parsed);
              if u.Exit? {
                return Exit(1);
              }
              if cur == 'c' {
                options := options.(processCount := u.value);
              } else {
                options := options.(parallelProcesses := u.value);
              }
            } else {
              current := ValueOption(cur);
              expectation := ExpectValue;
            }
            done := true;
          } else if cur == '1' || cur == '2' || cur == 'r' {
            if c < |arg| - 1 {
              if cur == '1' {
                options := options.(p1 := arg[c + 1..]);
              } else if cur == '2' {
                options := options.(p2 := arg[c + 1..]);
              } else {
                options := options.(referee := arg[c + 1..]);
              }
            } else {
              current := ValueOption(cur);
              expectation := ExpectValue;
            }
            done := true;
          } else {
            return Exit(1);
          }
        }
      } else {
        if current == NoOption {
          return Exit(1);
        }
        if current == Count || current == Parallel {
          var parsed := ParseUnsignedInt(arg);
          var u := Unwrap(parsed);
          if u.Exit? {
            return Exit(1);
          }
          if current == Count {
            options := options.(processCount := u.value);
          } else {
            options := options.(parallelProcesses := u.value);
          }
        } else if current == Player1 {
          options := options.(p1 := arg);
        } else if current == Player2 {
          options := options.(p2 := arg);
        } else {
          options := options.(referee := arg);
        }
        current := NoOption;
        expectation := ExpectOption;
      }
      i := i + 1;
    }
    assert argv[i..] == [];
    return Ok(options);
  }

  // Properties of the token machine.

  /** Only argv[1..] is read. */
  lemma ProgramNameIgnored(a: string, b: string, rest: seq<string>)
    ensures ParsedOptions([a] + rest) == ParsedOptions([b] + rest)
  {
    assert ([a] + rest)[1..] == rest == ([b] + rest)[1..];
  }

  /** Where an option is expected, a token shorter than 2 characters or not
      starting with '-' ends the program. */
  lemma NotAnOptionExits(st: ParseState, arg: string)
    requires st.expectation == ExpectOption && (|arg| < 2 || arg[0] != '-')
    ensures Step(st, arg) == Exit(1)
  {
  }

  /** An unknown flag character ends the program, whatever was scanned before. */
  lemma UnknownFlagExits(st: ParseState, arg: string, c: nat)
    requires 1 <= c < |arg|
    requires arg[c] !in "Gdcp12r"
    ensures ScanFlags(st, arg, c) == Exit(1)
  {
  }

  /** `G` and `d` can be clustered with each other and with one value
      option. */
  lemma ClusteredFlags()
    ensures ParsedOptions(["runner", "-Gd"]) == Ok(Defaults().(generateOutput := false, debug := true))
    ensures ParsedOptions(["runner", "-dGr", "ref"]) == Ok(Defaults().(generateOutput := false, debug := true, referee := "ref"))
  {
    assert ["runner", "-Gd"][1..] == ["-Gd"];
    assert ["runner", "-dGr", "ref"][1..] == ["-dGr", "ref"];
    assert ["-dGr", "ref"][1..] == ["ref"];
    assert "-dGr"[4..] == "";
  }

  /** An option taking a value with characters after it takes the rest of
      the token, and the scan of that token stops there. */
  lemma AttachedValue(st: ParseState, arg: string, c: nat)
    requires 1 <= c < |arg| - 1
    requires ValueOption(arg[c]) != NoOption
    ensures ScanFlags(st, arg, c) == WithOptions(st, StoreValue(st.options, ValueOption(arg[c]), arg[c + 1..]))
  {
  }

  /** The flags a cluster of `G` and `d` characters sets: `G` turns
      output off and `d` turns debugging on, wherever they stand. */
  function ClusterFlags(o: Options, cluster: string): Options {
    o.(generateOutput := o.generateOutput && 'G' !in cluster, debug := o.debug || 'd' in cluster)
  }

  /** A token whose characters 1 .. k - 1 are `G` or `d` and whose
      character k is an option taking a value. */
  predicate ValueCluster(arg: string, k: nat) {
    && 1 <= k < |arg| && arg[0] == '-'
    && (forall j :: 1 <= j < k ==> arg[j] in "Gd")
    && ValueOption(arg[k]) != NoOption
  }

  /** Scanning a run of `G` and `d` sets their flags and nothing else. */
  lemma {:induction false} ScanOverFlags(st: ParseState, arg: string, c: nat, k: nat)
    requires 1 <= c <= k <= |arg|
    requires forall j :: c <= j < k ==> arg[j] in "Gd"
    ensures ScanFlags(st, arg, c) == ScanFlags(st.(options := ClusterFlags(st.options, arg[c..k])), arg, k)
    decreases k - c
  {
    if c == k {
      assert st.(options := ClusterFlags(st.options, arg[c..k])) == st;
    } else {
      var st1 := if arg[c] == 'G' then st.(options := st.options.(generateOutput := false))
                 else st.(options := st.options.(debug := true));
      ScanOverFlags(st1, arg, c + 1, k);
      assert arg[c..k] == [arg[c]] + arg[c + 1..k];
      assert ClusterFlags(st1.options, arg[c + 1..k]) == ClusterFlags(st.options, arg[c..k]);
    }
  }

  /** The state after such a token: the value is stored when characters
      follow the option, otherwise the machine waits for it. */
  lemma ScanValueCluster(st: ParseState, arg: string, k: nat)
    requires st.expectation == ExpectOption && ValueCluster(arg, k)
    ensures var o := ClusterFlags(st.options, arg[1..k]);
      Step(st, arg) ==
        if k < |arg| - 1 then WithOptions(st.(options := o), StoreValue(o, ValueOption(arg[k]), arg[k + 1..]))
        else Ok(ParseState(ExpectValue, ValueOption(arg[k]), o))
  {
    ScanOverFlags(st, arg, 1, k);
  }

  /** An option taking a value as the last character of a token, after any
      `G` and `d`, makes the next token its value, verbatim even when it
      starts with '-', and the machine expects an option again. */
  lemma SeparateValue(st: ParseState, arg: string, v: string, rest: seq<string>)
    requires st.expectation == ExpectOption && |arg| >= 2 && ValueCluster(arg, |arg| - 1)
    ensures var o := ClusterFlags(st.options, arg[1..|arg| - 1]);
      Run(st, [arg, v] + rest) ==
        Continue(WithOptions(ParseState(ExpectOption, NoOption, o), StoreValue(o, ValueOption(arg[|arg| - 1]), v)), rest)
  {
    var args := [arg, v] + rest;
    assert args[0] == arg && args[1..] == [v] + rest;
    assert ([v] + rest)[0] == v && ([v] + rest)[1..] == rest;
    ScanValueCluster(st, arg, |arg| - 1);
    var waiting := ParseState(ExpectValue, ValueOption(arg[|arg| - 1]), ClusterFlags(st.options, arg[1..|arg| - 1]));
    assert Step(st, arg) == Ok(waiting);
    assert Run(st, args) == Run(waiting, [v] + rest);
  }

  lemma FinishStored(st: ParseState, r: Outcome<Options>)
    ensures Finish(Continue(WithOptions(st, r), [])) == r
  {
  }

  /** `opt` holds the value given as `v`. */
  predicate Holds(o: Options, opt: CurrentOption, v: string)
    requires opt != NoOption
  {
    match opt
    case Count => ParsedUnsignedInt(v).IsValue() && o.processCount == ParsedUnsignedInt(v).Value()
    case Parallel => ParsedUnsignedInt(v).IsValue() && o.parallelProcesses == ParsedUnsignedInt(v).Value()
    case Player1 => o.p1 == v
    case Player2 => o.p2 == v
    case Referee => o.referee == v
  }

  /** Storing a value sets its option to it whatever it held, and exits
      exactly for a count that does not parse. */
  lemma StoreValueMeaning(o: Options, opt: CurrentOption, v: string)
    requires opt != NoOption
    ensures StoreValue(o, opt, v).Exit? <==> opt in {Count, Parallel} && ParsedUnsignedInt(v).IsError()
    ensures StoreValue(o, opt, v).Ok? ==> Holds(StoreValue(o, opt, v).value, opt, v)
  {
  }

  lemma {:induction false} RunAppend(st: ParseState, a: seq<string>, b: seq<string>)
    ensures Run(st, a + b) == Continue(Run(st, a), b)
    decreases |a|
  {
    if a == [] {
      assert a + b == b;
    } else {
      assert (a + b)[0] == a[0] && (a + b)[1..] == a[1..] + b;
      var o := Step(st, a[0]);
      if o.Ok? {
        RunAppend(o.value, a[1..], b);
      }
    }
  }

  lemma AfterPrefix(argv: seq<string>, tail: seq<string>)
    requires |argv| >= 1
    ensures ParsedOptions(argv + tail) == Finish(Continue(Run(InitialState(), argv[1..]), tail))
  {
    assert (argv + tail)[1..] == argv[1..] + tail;
    RunAppend(InitialState(), argv[1..], tail);
    var o := Run(InitialState(), argv[1..]);
  }

  /** The value token(s) `arg` and, when the option is its last character,
      `v`, and the value they give. */
  function ValueTokens(arg: string, k: nat, v: string): seq<string> {
    if k < |arg| - 1 then [arg] else [arg, v]
  }

  function GivenValue(arg: string, k: nat, v: string): string
    requires k < |arg|
  {
    if k < |arg| - 1 then arg[k + 1..] else v
  }

  /** For every command line whose tokens so far leave the machine
      expecting an option, a further occurrence of an option with its value,
      attached or separate, sets that option to the value whatever was given
      before, and only the `G`/`d` flags before it change besides. */
  lemma LaterValueOverwrites(argv: seq<string>, arg: string, k: nat, v: string)
    requires |argv| >= 1 && Run(InitialState(), argv[1..]).Ok?
    requires Run(InitialState(), argv[1..]).value.expectation == ExpectOption
    requires ValueCluster(arg, k)
    ensures var st := Run(InitialState(), argv[1..]).value;
      var o := ClusterFlags(st.options, arg[1..k]);
      var r := ParsedOptions(argv + ValueTokens(arg, k, v));
      && r == StoreValue(o, ValueOption(arg[k]), GivenValue(arg, k, v))
      && (r.Ok? ==> Holds(r.value, ValueOption(arg[k]), GivenValue(arg, k, v)))
      && (r.Exit? <==> ValueOption(arg[k]) in {Count, Parallel} && ParsedUnsignedInt(GivenValue(arg, k, v)).IsError())
  {
    var st := Run(InitialState(), argv[1..]).value;
    var o := ClusterFlags(st.options, arg[1..k]);
    var opt := ValueOption(arg[k]);
    AfterPrefix(argv, ValueTokens(arg, k, v));
    StoreValueMeaning(o, opt, GivenValue(arg, k, v));
    var r := StoreValue(o, opt, GivenValue(arg, k, v));
    if k < |arg| - 1 {
      assert [arg][0] == arg && [arg][1..] == [];
      ScanValueCluster(st, arg, k);
      FinishStored(st.(options := o), r);
    } else {
      SeparateValue(st, arg, v, []);
      assert [arg, v] + [] == [arg, v];
      FinishStored(ParseState(ExpectOption, NoOption, o), r);
    }
  }

  /** For every command line whose tokens so far leave the machine
      expecting an option, a last token ending in an option that takes a
      value leaves that option as it was: only its `G`/`d` flags apply. */
  lemma TrailingOption(argv: seq<string>, arg: string)
    requires |argv| >= 1 && Run(InitialState(), argv[1..]).Ok?
    requires Run(InitialState(), argv[1..]).value.expectation == ExpectOption
    requires |arg| >= 2 && ValueCluster(arg, |arg| - 1)
    ensures ParsedOptions(argv + [arg]) == Ok(ClusterFlags(Run(InitialState(), argv[1..]).value.options, arg[1..|arg| - 1]))
  {
    var st := Run(InitialState(), argv[1..]).value;
    AfterPrefix(argv, [arg]);
    assert [arg][0] == arg && [arg][1..] == [];
    ScanValueCluster(st, arg, |arg| - 1);
    var o := ClusterFlags(st.options, arg[1..|arg| - 1]);
    assert Run(st, [arg]) == Continue(Step(st, arg), []);
    assert Continue(Step(st, arg), []) == Ok(ParseState(ExpectValue, ValueOption(arg[|arg| - 1]), o));
  }

  /** A count or parallelism value that is not a digit string ends the
      program through unwrap. */
  lemma NonNumericValueExits(st: ParseState, arg: string)
    requires st.expectation == ExpectValue && st.current in {Count, Parallel}
    requires |arg| == 0 || !Decimal.AllDigits(arg)
    ensures Step(st, arg) == Exit(1)
  {
  }

  /** With a digit string below 2^31 the count is set to its value. */
  lemma NumericCount(st: ParseState, arg: string)
    requires st.expectation == ExpectValue && st.current == Count
    requires |arg| > 0 && Decimal.AllDigits(arg) && Decimal.DecimalValue(arg) < TwoTo31
    ensures Step(st, arg) == Ok(ParseState(ExpectOption, NoOption, st.options.(processCount := Decimal.DecimalValue(arg))))
  {
    DigitsGiveValue(arg);
  }

  /** Two command lines on which the general facts `TrailingOption` and
      `LaterValueOverwrites` can be seen. */
  lemma TrailingAndRepeatedOptions()
    ensures ParsedOptions(["runner", "-1a", "-1"]) == Ok(Defaults().(p1 := "a"))
    ensures ParsedOptions(["runner", "-1a", "-1b"]) == Ok(Defaults().(p1 := "b"))
  {
    assert ["runner", "-1a", "-1"][1..] == ["-1a", "-1"];
    assert ["-1a", "-1"][1..] == ["-1"];
    assert ["runner", "-1a", "-1b"][1..] == ["-1a", "-1b"];
    assert ["-1a", "-1b"][1..] == ["-1b"];
    assert "-1a"[2..] == "a" && "-1b"[2..] == "b";
  }

  lemma {:induction false} ScanKeepsConsistent(st: ParseState, arg: string, c: nat)
    requires 1 <= c <= |arg|
    requires st.expectation == ExpectOption && st.current == NoOption
    ensures ScanFlags(st, arg, c).Ok? ==> ScanFlags(st, arg, c).value.Consistent()
    decreases |arg| - c
  {
    if c < |arg| {
      if arg[c] == 'G' {
        ScanKeepsConsistent(st.(options := st.options.(generateOutput := false)), arg, c + 1);
      } else if arg[c] == 'd' {
        ScanKeepsConsistent(st.(options := st.options.(debug := true)), arg, c + 1);
      }
    }
  }

  /** Every state the machine reaches expects a value exactly when an option
      waits for one, so the `default` branch of the value switch is never
      taken. */
  lemma {:induction false} RunKeepsConsistent(st: ParseState, args: seq<string>)
    requires st.Consistent()
    ensures Run(st, args).Ok? ==> Run(st, args).value.Consistent()
    decreases |args|
  {
    if args != [] {
      if st.expectation == ExpectOption && |args[0]| >= 2 && args[0][0] == '-' {
        ScanKeepsConsistent(st, args[0], 1);
      }
      var o := Step(st, args[0]);
      if o.Ok? {
        RunKeepsConsistent(o.value, args[1..]);
      }
    }
  }
}
