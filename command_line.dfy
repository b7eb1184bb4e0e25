/**
 * `CommandLine` (openmalaria-647, model/util/Options.cpp): the simulator's
 * command-line parser and the lookup of input resources.
 */
module CommandLine {
  import opened Wrappers
  import opened Decimal

  /** The command-line flags `parse` sets. */
  datatype CliOption =
    | COMPRESS_CHECKPOINTS | PRINT_MODEL_OPTIONS | PRINT_ANNUAL_EIR | SET_ANNUAL_EIR
    | SKIP_SIMULATION | TEST_CHECKPOINTING | TEST_DUPLICATE_CHECKPOINTS

  /** A C++ double as far as `parse` looks at it: NaN, or a number. */
  datatype CDouble = NaN | Num(value: real)

  /** What `parse` throws. */
  datatype ParseError =
    | RuntimeError(msg: string)
    | BadLexicalCast           // `lexical_cast<double>` of a value that is no number
    | InvalidArgument          // an unrecognised or malformed option, after the usage text
    | CmdExit                  // help asked for, after the usage text

  const NO_NEXT_ARG := "Expected an argument following the last option"
  const RESOURCE_PATH_TWICE := "--resource-path (or -p) may only be given once"
  const SCENARIO_TWICE := "--scenario argument may only be given once"
  const SET_EIR_TWICE := "--set-EIR already given"
  const P_NOT_LAST := "a path must be given as next argument after -p"

  /** `parseNextArg`: the argument after position i and its position, or the error when none is left. */
  function ParseNextArg(args: seq<string>, i: nat): (r: Result<(string, nat)>)
    ensures r.Ok? <==> i + 1 < |args|
    ensures r.Ok? ==> r.value == (args[i + 1], i + 1)
    ensures r.Err? ==> r.msg == NO_NEXT_ARG
  {
    if i + 1 < |args| then Ok((args[i + 1], i + 1)) else Err(NO_NEXT_ARG)
  }

  // ----- reading numbers with a stringstream -----

  /**
   * `stream >> int`: leading white space, an optional sign, then the longest
   * run of digits; anything after it is left unread. Without digits, or
   * outside 32 bits, the read fails.
   */
  function StreamInt(s: string): (r: Option<int>)
    ensures r.Some? ==> InInt32(r.value)
  {
    SignedInt(SkipSpace(s))
  }

  /** The read after the white space: an optional sign, then the digits. */
  function SignedInt(t: string): (r: Option<int>)
    ensures r.Some? ==> InInt32(r.value)
  {
    var neg := t != [] && t[0] == '-';
    var rest := if t != [] && (t[0] == '-' || t[0] == '+') then t[1..] else t;
    var digits := LeadingDigits(rest);
    if digits == [] then None
    else
      var v: int := if neg then -(DigitsValue(digits) as int) else DigitsValue(digits);
      if InInt32(v) then Some(v) else None
  }

  /** A plain number is read whole. */
  lemma StreamIntReadsNumber()
    ensures StreamInt("12") == Some(12)
  {
    assert SkipSpace("12") == "12";
    assert LeadingDigits("12") == "12" by { assert LeadingDigits("2") == "2"; }
    assert DigitsValue("12") == 12 by { assert "12"[..1] == "1"; }
  }

  /** The digits of `d` are the leading digits of `d + t` when `t` does not go on with a digit. */
  lemma {:induction false} LeadingDigitsStop(d: string, t: string)
    requires AllDigits(d) && (t == [] || !IsDigit(t[0]))
    ensures LeadingDigits(d + t) == d
  {
    if d == [] {
      assert d + t == t;
    } else {
      assert (d + t)[1..] == d[1..] + t;
      LeadingDigitsStop(d[1..], t);
    }
  }

  /** White space in front of a text is skipped whatever the text. */
  lemma {:induction false} SkipSpacePrefix(ws: string, s: string)
    requires forall k :: 0 <= k < |ws| ==> IsSpace(ws[k])
    ensures SkipSpace(ws + s) == SkipSpace(s)
  {
    if ws == [] {
      assert ws + s == s;
    } else {
      assert (ws + s)[1..] == ws[1..] + s;
      SkipSpacePrefix(ws[1..], s);
    }
  }

  /** `stream >> int` skips white space in front of the text. */
  lemma StreamIntSkipsSpace(ws: string, s: string)
    requires forall k :: 0 <= k < |ws| ==> IsSpace(ws[k])
    ensures StreamInt(ws + s) == StreamInt(s)
  {
    SkipSpacePrefix(ws, s);
  }

  /** Once the leading digits are known, the signed read is their value. */
  lemma SignedIntOfDigits(d: string, t: string)
    requires d != [] && AllDigits(d) && LeadingDigits(d + t) == d
    ensures SignedInt(d + t) == if InInt32(DigitsValue(d)) then Some(DigitsValue(d) as int) else None
  {
    assert (d + t)[0] == d[0];
  }

  lemma SignedIntOfNegated(d: string, t: string)
    requires d != [] && AllDigits(d) && LeadingDigits(d + t) == d
    ensures SignedInt("-" + d + t) == if InInt32(-(DigitsValue(d) as int)) then Some(-(DigitsValue(d) as int)) else None
  {
    assert ("-" + d + t)[1..] == d + t;
  }

  /** A run of digits reads as its value whatever text follows, when it fits 32 bits. */
  lemma StreamIntReadsDigits(d: string, t: string)
    requires d != [] && AllDigits(d) && (t == [] || !IsDigit(t[0]))
    ensures StreamInt(d + t) == if InInt32(DigitsValue(d)) then Some(DigitsValue(d) as int) else None
  {
    assert SkipSpace(d + t) == d + t by { assert (d + t)[0] == d[0]; }
    LeadingDigitsStop(d, t);
    SignedIntOfDigits(d, t);
  }

  /** So does a run of digits after a minus sign, negated. */
  lemma StreamIntReadsNegated(d: string, t: string)
    requires d != [] && AllDigits(d) && (t == [] || !IsDigit(t[0]))
    ensures StreamInt("-" + d + t) == if InInt32(-(DigitsValue(d) as int)) then Some(-(DigitsValue(d) as int)) else None
  {
    assert SkipSpace("-" + d + t) == "-" + d + t by { assert ("-" + d + t)[0] == '-'; }
    LeadingDigitsStop(d, t);
    SignedIntOfNegated(d, t);
  }

  /** Leading white space is skipped and trailing text after the number is ignored. */
  lemma StreamIntIgnoresTrailingText()
    ensures StreamInt(" 5x") == Some(5)
  {
    assert SkipSpace(" 5x") == "5x" by { assert " 5x"[1..] == "5x"; }
    assert LeadingDigits("5x") == "5" by { assert "5x"[1..] == "x"; }
    assert DigitsValue("5") == 5;
  }

  /** A minus sign negates the number. */
  lemma StreamIntReadsSign()
    ensures StreamInt("-3") == Some(-3)
  {
    assert SkipSpace("-3") == "-3";
    assert "-3"[1..] == "3";
    assert LeadingDigits("3") == "3" by { assert "3"[1..] == []; }
    assert DigitsValue("3") == 3 by { assert "3"[..0] == []; }
  }

  /** Without a digit after the optional sign the read fails. */
  lemma StreamIntNeedsDigit()
    ensures StreamInt("") == None
    ensures StreamInt("x1") == None
  {
    assert !IsSpace('x') && !IsDigit('x');
    assert SkipSpace("x1") == "x1";
    assert LeadingDigits("x1") == [];
  }

  /** `stream >> bool` without `boolalpha`: a number that must be 0 or 1. */
  function StreamBool(s: string): (r: Option<bool>)
    ensures r.Some? <==> StreamInt(s) == Some(0) || StreamInt(s) == Some(1)
    ensures r.Some? ==> StreamInt(s) == Some(if r.value then 1 else 0)
  {
    match StreamInt(s)
    case Some(n) => if n == 0 then Some(false) else if n == 1 then Some(true) else None
    case None => None
  }

  // ----- the parse loop -----

  /**
   * The static fields `parse` changes, with its locals: whether help was
   * asked for, whether an error was seen, and the scenario file.
   */
  datatype CliState = CliState(
    options: set<CliOption>, resourcePath: string, newEIR: CDouble, checkpointTimes: set<int>,
    help: bool, error: bool, fileGiven: bool, scenarioFile: string)

  /** One argument read: go on at `next`, leave the loop (`break`), or throw. */
  datatype ArgStep = Next(st: CliState, next: nat) | Break(st: CliState) | Throw(st: CliState, e: ParseError)

  predicate StartsWith(s: string, prefix: string)
  {
    |prefix| <= |s| && s[..|prefix|] == prefix
  }

  /**
   * What a step can change: flags other than compression are only added,
   * and a resource path, a scenario file, checkpoint times, help and an
   * error, once there, stay.
   */
  predicate Grows(st: CliState, st': CliState)
  {
    && st.options - {COMPRESS_CHECKPOINTS} <= st'.options
    && (|st.resourcePath| > 0 ==> st'.resourcePath == st.resourcePath)
    && (st.fileGiven ==> st'.fileGiven && st'.scenarioFile == st.scenarioFile)
    && st.checkpointTimes <= st'.checkpointTimes
    && (st.help ==> st'.help)
    && (st.error ==> st'.error)
  }

  /** The resource path from the next argument, with a trailing "/"; it may be given once. */
  function SetResourcePath(st: CliState, args: seq<string>, i: nat): (r: ArgStep)
    ensures r.Next? ==> i + 1 < |args| && r.next == i + 2 && |st.resourcePath| == 0
                        && r.st == st.(resourcePath := args[i + 1] + "/")
    ensures |st.resourcePath| > 0 ==> r == Throw(st, RuntimeError(RESOURCE_PATH_TWICE))
    ensures Grows(st, r.st)
  {
    if |st.resourcePath| > 0 then Throw(st, RuntimeError(RESOURCE_PATH_TWICE))
    else match ParseNextArg(args, i)
      case Err(m) => Throw(st, RuntimeError(m))
      case Ok((v, j)) => Next(st.(resourcePath := v + "/"), j + 1)
  }

  /** `--set-EIR`: only while the level is still NaN; the value goes through `lexical_cast`. */
  function SetEIR(st: CliState, args: seq<string>, i: nat, toDouble: string -> Option<CDouble>): (r: ArgStep)
    ensures r.Next? ==> r.next > i
    ensures Grows(st, r.st)
  {
    if st.newEIR.Num? then Throw(st, RuntimeError(SET_EIR_TWICE))
    else match ParseNextArg(args, i)
      case Err(m) => Throw(st, RuntimeError(m))
      case Ok((v, j)) =>
        match toDouble(v)
        case None => Throw(st, BadLexicalCast)
        case Some(d) =>
          Next(st.(newEIR := d, options := st.options + {SET_ANNUAL_EIR, SKIP_SIMULATION}), j + 1)
  }

  /** The "--" options without a value after "=". */
  const EXACT_NAMES: set<string> := {"resource-path", "scenario", "print-model", "print-EIR", "set-EIR",
                                     "validate-only", "checkpoint", "checkpoint-duplicates", "help"}

  /** The "--" options named exactly. */
  function ExactOption(st: CliState, name: string, args: seq<string>, i: nat,
                       toDouble: string -> Option<CDouble>): (r: ArgStep)
    requires name in EXACT_NAMES
    ensures r.Next? ==> r.next > i
    ensures Grows(st, r.st)
  {
    if name == "resource-path" then SetResourcePath(st, args, i)
    else if name == "scenario" then
      if st.fileGiven then Throw(st, RuntimeError(SCENARIO_TWICE))
      else match ParseNextArg(args, i)
        case Err(m) => Throw(st, RuntimeError(m))
        case Ok((v, j)) => Next(st.(scenarioFile := v, fileGiven := true), j + 1)
    else if name == "print-model" then Next(st.(options := st.options + {PRINT_MODEL_OPTIONS, SKIP_SIMULATION}), i + 1)
    else if name == "print-EIR" then Next(st.(options := st.options + {PRINT_ANNUAL_EIR, SKIP_SIMULATION}), i + 1)
    else if name == "set-EIR" then SetEIR(st, args, i, toDouble)
    else if name == "validate-only" then Next(st.(options := st.options + {SKIP_SIMULATION}), i + 1)
    else if name == "checkpoint" then Next(st.(options := st.options + {TEST_CHECKPOINTING}), i + 1)
    else if name == "checkpoint-duplicates" then Next(st.(options := st.options + {TEST_DUPLICATE_CHECKPOINTS}), i + 1)
    else Next(st.(help := true), i + 1)
  }

  /** `--checkpoint=t`: a positive t is added to the checkpoint times, anything else ends the loop with an error. */
  function CheckpointAt(st: CliState, t: string, i: nat): (r: ArgStep)
    ensures r.Next? ==> r.next > i
    ensures Grows(st, r.st)
  {
    match StreamInt(t)
    case Some(n) =>
      if n <= 0 then Break(st.(error := true))
      else Next(st.(checkpointTimes := st.checkpointTimes + {n}), i + 1)
    case None => Break(st.(error := true))
  }

  /** `--compress-checkpoints=x`: x must read as 0 or 1. */
  function CompressAt(st: CliState, x: string, i: nat): (r: ArgStep)
    ensures r.Next? ==> r.next > i
    ensures Grows(st, r.st)
  {
    match StreamBool(x)
    case Some(b) =>
      Next(st.(options := if b then st.options + {COMPRESS_CHECKPOINTS} else st.options - {COMPRESS_CHECKPOINTS}), i + 1)
    case None => Break(st.(error := true))
  }

  /**
   * The options spelled out after "--"; `name` is what follows the dashes.
   * No exactly named option contains '=', so testing those first keeps the
   * order of the tests in effect.
   */
  function LongOption(st: CliState, name: string, args: seq<string>, i: nat,
                      toDouble: string -> Option<CDouble>): (r: ArgStep)
    ensures r.Next? ==> r.next > i
    ensures Grows(st, r.st)
  {
    if name in EXACT_NAMES then ExactOption(st, name, args, i, toDouble)
    else if StartsWith(name, "checkpoint=") then CheckpointAt(st, name[11..], i)
    else if StartsWith(name, "compress-checkpoints=") then CompressAt(st, name[21..], i)
    else Next(st.(error := true), i + 1)
  }

  /** A group of one-letter options after a single "-", from its j-th character on. */
  function ShortGroup(st: CliState, group: string, j: nat, args: seq<string>, i: nat): (r: ArgStep)
    requires 1 <= j <= |group|
    ensures r.Next? ==> r.next > i
    ensures Grows(st, r.st)
    decreases |group| - j
  {
    if j == |group| then Next(st, i + 1)
    else
      var c := group[j];
      if c == 'p' then
        if j + 1 != |group| then Throw(st, RuntimeError(P_NOT_LAST))
        else SetResourcePath(st, args, i)
      else if c == 'm' then ShortGroup(st.(options := st.options + {PRINT_MODEL_OPTIONS, SKIP_SIMULATION}), group, j + 1, args, i)
      else if c == 'c' then ShortGroup(st.(options := st.options + {TEST_CHECKPOINTING}), group, j + 1, args, i)
      else if c == 'd' then ShortGroup(st.(options := st.options + {TEST_DUPLICATE_CHECKPOINTS}), group, j + 1, args, i)
      else if c == 'h' then ShortGroup(st.(help := true), group, j + 1, args, i)
      else ShortGroup(st.(error := true), group, j + 1, args, i)
  }

  /** The body of the loop for the argument at i: "--name", "-letters", or a stray parameter. */
  function ArgAt(st: CliState, args: seq<string>, i: nat, toDouble: string -> Option<CDouble>): (r: ArgStep)
    requires i < |args|
    ensures r.Next? ==> r.next > i
    ensures Grows(st, r.st)
  {
    var clo := args[i];
    if |clo| >= 2 && clo[0] == '-' && clo[1] == '-' then LongOption(st, clo[2..], args, i, toDouble)
    else if |clo| >= 1 && clo[0] == '-' then ShortGroup(st, clo, 1, args, i)
    else Next(st.(error := true), i + 1)
  }

  /** How the loop ends: normally or by `break`, or with an exception. */
  datatype LoopEnd = Ended(st: CliState) | Thrown(st: CliState, e: ParseError)

  /** The loop from position i on. */
  function ParseLoop(st: CliState, args: seq<string>, i: nat, toDouble: string -> Option<CDouble>): LoopEnd
    decreases |args| - i
  {
    if i >= |args| then Ended(st)
    else match ArgAt(st, args, i, toDouble)
      case Next(st', next) => ParseLoop(st', args, next, toDouble)
      case Break(st') => Ended(st')
      case Throw(st', e) => Thrown(st', e)
  }

  /** What `parse` returns: the scenario file, or what it throws. */
  datatype Outcome = Scenario(file: string) | Failed(e: ParseError)

  /**
   * After the loop: help or an error print the usage text and throw;
   * otherwise timed checkpoints turn the per-period checkpoint flag off.
   */
  function Finish(end: LoopEnd): (CliState, Outcome)
  {
    match end
    case Thrown(st, e) => (st, Failed(e))
    case Ended(st) =>
      if st.error then (st, Failed(InvalidArgument))
      else if st.help then (st, Failed(CmdExit))
      else if |st.checkpointTimes| > 0 then (st.(options := st.options - {TEST_CHECKPOINTING}), Scenario(st.scenarioFile))
      else (st, Scenario(st.scenarioFile))
  }

  /** The state `parse` starts from: compression turned on, the EIR level NaN, scenario.xml. */
  function Start(options: set<CliOption>, resourcePath: string, checkpointTimes: set<int>): CliState
  {
    CliState(options + {COMPRESS_CHECKPOINTS}, resourcePath, NaN, checkpointTimes, false, false, false, "scenario.xml")
  }

  /** `parse` as a function of the static fields before it and of `argv` (whose first entry is the program). */
  function ParseResult(options: set<CliOption>, resourcePath: string, checkpointTimes: set<int>,
                 args: seq<string>, toDouble: string -> Option<CDouble>): (CliState, Outcome)
  {
    Finish(ParseLoop(Start(options, resourcePath, checkpointTimes), args, 1, toDouble))
  }

  // ----- properties of the parser -----

  lemma GrowsTrans(a: CliState, b: CliState, c: CliState)
    requires Grows(a, b) && Grows(b, c)
    ensures Grows(a, c)
  {
  }

  lemma {:induction false} ParseLoopGrows(st: CliState, args: seq<string>, i: nat, toDouble: string -> Option<CDouble>)
    ensures Grows(st, ParseLoop(st, args, i, toDouble).st)
    decreases |args| - i
  {
    if i < |args| {
      match ArgAt(st, args, i, toDouble)
      case Next(st', next) =>
        ParseLoopGrows(st', args, next, toDouble);
        GrowsTrans(st, st', ParseLoop(st', args, next, toDouble).st);
      case Break(_) =>
      case Throw(_, _) =>
    }
  }

  /** With no option at all, the scenario is scenario.xml, compression is on and the EIR level is NaN. */
  lemma NoArguments(options: set<CliOption>, resourcePath: string, program: string, toDouble: string -> Option<CDouble>)
    ensures var (st, out) := ParseResult(options, resourcePath, {}, [program], toDouble);
            && out == Scenario("scenario.xml") && COMPRESS_CHECKPOINTS in st.options && st.newEIR == NaN
  {
  }

  /** `--resource-path`/`-p`, `--scenario` and `--set-EIR` are each rejected once they have been given. */
  lemma GivenOnlyOnce(st: CliState, args: seq<string>, i: nat, toDouble: string -> Option<CDouble>)
    requires i < |args|
    ensures (args[i] == "--resource-path" || args[i] == "-p") && |st.resourcePath| > 0 ==>
              ArgAt(st, args, i, toDouble) == Throw(st, RuntimeError(RESOURCE_PATH_TWICE))
    ensures args[i] == "--scenario" && st.fileGiven ==>
              ArgAt(st, args, i, toDouble) == Throw(st, RuntimeError(SCENARIO_TWICE))
    ensures args[i] == "--set-EIR" && st.newEIR.Num? ==>
              ArgAt(st, args, i, toDouble) == Throw(st, RuntimeError(SET_EIR_TWICE))
  {
    if args[i] == "--resource-path" { assert args[i][2..] == "resource-path"; }
    if args[i] == "--scenario" { assert args[i][2..] == "scenario"; }
    if args[i] == "--set-EIR" { assert args[i][2..] == "set-EIR"; }
  }

  /** A resource path from the command line always ends in "/" and is then kept to the end of the loop. */
  lemma ResourcePathKept(st: CliState, args: seq<string>, i: nat, toDouble: string -> Option<CDouble>)
    requires i + 1 < |args| && (args[i] == "--resource-path" || args[i] == "-p") && |st.resourcePath| == 0
    ensures ArgAt(st, args, i, toDouble) == Next(st.(resourcePath := args[i + 1] + "/"), i + 2)
    ensures ParseLoop(st, args, i, toDouble).st.resourcePath == args[i + 1] + "/"
  {
    if args[i] == "--resource-path" { assert args[i][2..] == "resource-path"; }
    var st' := st.(resourcePath := args[i + 1] + "/");
    ParseLoopGrows(st', args, i + 2, toDouble);
  }

  /** `--set-EIR nan` leaves the level NaN, so a second `--set-EIR` is then accepted. */
  lemma SetEIRNaNNotRemembered(st: CliState, args: seq<string>, i: nat, toDouble: string -> Option<CDouble>)
    requires i + 3 < |args| && args[i] == "--set-EIR" && args[i + 2] == "--set-EIR" && st.newEIR == NaN
    requires toDouble(args[i + 1]) == Some(NaN) && toDouble(args[i + 3]).Some?
    ensures ArgAt(st, args, i, toDouble).Next?
    ensures var s := ArgAt(st, args, i, toDouble);
            ArgAt(s.st, args, s.next, toDouble).Next?
  {
    SetEIRArg(st, args, i, toDouble);
    var s := ArgAt(st, args, i, toDouble);
    SetEIRArg(s.st, args, i + 2, toDouble);
  }

  /** "--set-EIR v" with a level not yet set and v readable as a double sets the level and skips two arguments. */
  lemma SetEIRArg(st: CliState, args: seq<string>, i: nat, toDouble: string -> Option<CDouble>)
    requires i + 1 < |args| && args[i] == "--set-EIR" && st.newEIR == NaN && toDouble(args[i + 1]).Some?
    ensures ArgAt(st, args, i, toDouble) ==
            Next(st.(newEIR := toDouble(args[i + 1]).value, options := st.options + {SET_ANNUAL_EIR, SKIP_SIMULATION}), i + 2)
  {
    var name := args[i][2..];
    assert name == "set-EIR";
    assert LongOption(st, name, args, i, toDouble) == SetEIR(st, args, i, toDouble);
  }

  /** These four options all mean the simulation is skipped, whatever follows. */
  lemma SkipSimulationSticks(st: CliState, args: seq<string>, i: nat, toDouble: string -> Option<CDouble>)
    requires i < |args|
    requires args[i] in {"--print-model", "--print-EIR", "--validate-only", "-m"}
             || (args[i] == "--set-EIR" && ArgAt(st, args, i, toDouble).Next?)
    ensures SKIP_SIMULATION in ParseLoop(st, args, i, toDouble).st.options
    ensures SKIP_SIMULATION in Finish(ParseLoop(st, args, i, toDouble)).0.options
  {
    SkipSimulationArg(st, args, i, toDouble);
    var s := ArgAt(st, args, i, toDouble);
    ParseLoopGrows(s.st, args, s.next, toDouble);
  }

  /** Each of these options moves on with the simulation skipped. */
  lemma SkipSimulationArg(st: CliState, args: seq<string>, i: nat, toDouble: string -> Option<CDouble>)
    requires i < |args|
    requires args[i] in {"--print-model", "--print-EIR", "--validate-only", "-m"}
             || (args[i] == "--set-EIR" && ArgAt(st, args, i, toDouble).Next?)
    ensures ArgAt(st, args, i, toDouble).Next? && SKIP_SIMULATION in ArgAt(st, args, i, toDouble).st.options
  {
    var clo := args[i];
    if clo == "--print-model" { assert clo[2..] == "print-model"; }
    if clo == "--print-EIR" { assert clo[2..] == "print-EIR"; }
    if clo == "--validate-only" { assert clo[2..] == "validate-only"; }
    if clo == "--set-EIR" { assert clo[2..] == "set-EIR"; }
  }

  /** `--checkpoint=t` adds t when it is a positive number, and otherwise ends the loop with an error. */
  lemma CheckpointTime(st: CliState, args: seq<string>, i: nat, t: string, toDouble: string -> Option<CDouble>)
    requires i < |args| && args[i] == "--checkpoint=" + t
    ensures StreamInt(t).Some? && StreamInt(t).value > 0 ==>
              ArgAt(st, args, i, toDouble) == Next(st.(checkpointTimes := st.checkpointTimes + {StreamInt(t).value}), i + 1)
    ensures StreamInt(t).None? || StreamInt(t).value <= 0 ==>
              ParseLoop(st, args, i, toDouble) == Ended(st.(error := true))
              && Finish(ParseLoop(st, args, i, toDouble)).1 == Failed(InvalidArgument)
  {
    CheckpointArg(st, args, i, t, toDouble);
  }

  /** "--checkpoint=t" is handled by CheckpointAt on t. */
  lemma CheckpointArg(st: CliState, args: seq<string>, i: nat, t: string, toDouble: string -> Option<CDouble>)
    requires i < |args| && args[i] == "--checkpoint=" + t
    ensures ArgAt(st, args, i, toDouble) == CheckpointAt(st, t, i)
  {
    var clo := args[i];
    assert clo[0] == '-' && clo[1] == '-';
    CheckpointName(clo[2..], t);
    LongArg(st, args, i, toDouble);
  }

  /** An argument starting with "--" is handled as a long option. */
  lemma LongArg(st: CliState, args: seq<string>, i: nat, toDouble: string -> Option<CDouble>)
    requires i < |args| && |args[i]| >= 2 && args[i][0] == '-' && args[i][1] == '-'
    ensures ArgAt(st, args, i, toDouble) == LongOption(st, args[i][2..], args, i, toDouble)
  {
  }

  /** "checkpoint=" followed by t is no exact name, and names a timed checkpoint at t. */
  lemma CheckpointName(name: string, t: string)
    requires name == "checkpoint=" + t
    ensures name !in EXACT_NAMES && StartsWith(name, "checkpoint=") && name[11..] == t
  {
    assert name[..11] == "checkpoint=";
    ExactNamesHaveNoEquals(name, 10);
  }

  /** No exactly named option contains '='. */
  lemma ExactNamesHaveNoEquals(name: string, k: nat)
    requires k < |name| && name[k] == '='
    ensures name !in EXACT_NAMES
  {
  }

  /** A timed checkpoint turns the per-period checkpoint flag off, and leaves every other flag. */
  lemma TimedCheckpointOverrides(st: CliState)
    requires !st.help && !st.error && |st.checkpointTimes| > 0
    ensures Finish(Ended(st)) == (st.(options := st.options - {TEST_CHECKPOINTING}), Scenario(st.scenarioFile))
    ensures TEST_CHECKPOINTING !in Finish(Ended(st)).0.options
  {
  }

  /**
   * After the loop, an error gives `invalid_argument` and help alone gives
   * `cmd_exit`; with neither the parse succeeds.
   */
  lemma FinishOutcome(st: CliState)
    ensures st.error ==> Finish(Ended(st)).1 == Failed(InvalidArgument)
    ensures st.help && !st.error ==> Finish(Ended(st)).1 == Failed(CmdExit)
    ensures Finish(Ended(st)).1.Scenario? <==> !st.help && !st.error
  {
  }

  /** An unrecognised "--" option is never fatal at once, but the parse then fails. */
  lemma UnknownOptionFails(st: CliState, args: seq<string>, i: nat, name: string, toDouble: string -> Option<CDouble>)
    requires i < |args| && args[i] == "--" + name
    requires name !in EXACT_NAMES
    requires !StartsWith(name, "checkpoint=") && !StartsWith(name, "compress-checkpoints=")
    ensures ArgAt(st, args, i, toDouble) == Next(st.(error := true), i + 1)
    ensures Finish(ParseLoop(st, args, i, toDouble)).1.Failed?
  {
    assert args[i][2..] == name;
    ParseLoopGrows(st.(error := true), args, i + 1, toDouble);
  }

  /** In a group after a single "-", a 'p' anywhere but last throws, whatever letters come before it. */
  lemma {:induction false} PMustBeLast(st: CliState, group: string, j: nat, k: nat, args: seq<string>, i: nat)
    requires 1 <= j <= k < |group| - 1 && group[k] == 'p'
    requires forall m :: j <= m < k ==> group[m] != 'p'
    ensures ShortGroup(st, group, j, args, i).Throw?
    ensures ShortGroup(st, group, j, args, i).e == RuntimeError(P_NOT_LAST)
    decreases k - j
  {
    if j < k {
      var c := group[j];
      var st' := if c == 'm' then st.(options := st.options + {PRINT_MODEL_OPTIONS, SKIP_SIMULATION})
                 else if c == 'c' then st.(options := st.options + {TEST_CHECKPOINTING})
                 else if c == 'd' then st.(options := st.options + {TEST_DUPLICATE_CHECKPOINTS})
                 else if c == 'h' then st.(help := true)
                 else st.(error := true);
      assert ShortGroup(st, group, j, args, i) == ShortGroup(st', group, j + 1, args, i);
      PMustBeLast(st', group, j + 1, k, args, i);
    }
  }

  /** `lookupResource` without the final `resolveFile`: absolute paths are kept, others go under the resource path. */
  function LookupResource(resourcePath: string, path: string): (r: string)
    ensures IsAbsolute(path) ==> r == path
    ensures !IsAbsolute(path) ==> r == resourcePath + path
  {
    if |path| >= 1 && path[0] == '/' then path
    else if |path| >= 3 && path[1] == ':' && (path[2] == '\\' || path[2] == '/') then path
    else resourcePath + path
  }

  /** A Unix path, or what looks like a Windows drive path. */
  predicate IsAbsolute(path: string)
  {
    (|path| >= 1 && path[0] == '/') || (|path| >= 3 && path[1] == ':' && (path[2] == '\\' || path[2] == '/'))
  }

  /** With an absolute resource path every looked-up path is absolute, so looking it up again changes nothing. */
  lemma LookupResourceIdempotent(resourcePath: string, path: string)
    requires IsAbsolute(resourcePath)
    ensures IsAbsolute(LookupResource(resourcePath, path))
    ensures LookupResource(resourcePath, LookupResource(resourcePath, path)) == LookupResource(resourcePath, path)
  {
    if !IsAbsolute(path) {
      var r := resourcePath + path;
      assert r[0] == resourcePath[0];
      if |resourcePath| >= 3 { assert r[1] == resourcePath[1] && r[2] == resourcePath[2]; }
      else if resourcePath[0] != '/' { assert false; }
    }
  }

  /** The parser's static fields. */
  class CommandLine {
    var options: set<CliOption>
    var resourcePath: string
    var newEIR: CDouble
    var checkpointTimes: set<int>

    /** The fields before any parse: no flags, no resource path, no checkpoint times. */
    constructor ()
      ensures options == {} && resourcePath == "" && checkpointTimes == {} && newEIR == Num(0.0)
    {
      options, resourcePath, checkpointTimes, newEIR := {}, "", {}, Num(0.0);
    }

    /** `parse`: the loop over `argv` from its second entry, then the checks after it. */
    method Parse(args: seq<string>, toDouble: string -> Option<CDouble>) returns (out: Outcome)
      modifies this
      ensures var (st, o) := ParseResult(old(options), old(resourcePath), old(checkpointTimes), args, toDouble);
              && out == o && options == st.options && resourcePath == st.resourcePath
              && newEIR == st.newEIR && checkpointTimes == st.checkpointTimes
    {
      var st := Start(options, resourcePath, checkpointTimes);
      ghost var st0 := st;
      var i := 1;
      var end: LoopEnd := Ended(st);
      var running := true;
      while running && i < |args|
        invariant running ==> ParseLoop(st, args, i, toDouble) == ParseLoop(st0, args, 1, toDouble)
        invariant !running ==> end == ParseLoop(st0, args, 1, toDouble)
        decreases |args| - i, running
      {
        var s := ArgAt(st, args, i, toDouble);
        match s {
          case Next(st', next) => st, i := st', next;
          case Break(st') => end, running := Ended(st'), false;
          case Throw(st', e) => end, running := Thrown(st', e), false;
        }
      }
      if running {
        end := Ended(st);
      }
      var (stFinal, o) := Finish(end);
      options, resourcePath, newEIR, checkpointTimes := stFinal.options, stFinal.resourcePath, stFinal.newEIR, stFinal.checkpointTimes;
      return o;
    }
  }
}
