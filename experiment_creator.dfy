/**
 * `ExperimentCreator.main`: the experiment creator's option parsing, the
 * checks on the combination of options, and which steps of the sweep
 * combiner run, in which order and with which scenario start id. The sweep
 * combiner itself is outside this model: its steps are recorded, not run.
 */
module ExperimentCreator {
  import opened Wrappers
  import opened Decimal

  /** The option values `main` keeps; `None` is Java's `null`. */
  datatype Options = Options(
    inputPath: Option<string>, outputPath: Option<string>, scnListPath: Option<string>,
    nSeeds: int, uniqueSeeds: bool, patches: bool, doValidation: bool,
    expName: string, sceIdStart: int, expDescription: Option<string>,
    dbUrl: Option<string>, dbUser: Option<string>,
    writeListOnly: bool, readList: bool, min3Sweeps: bool)

  /** The values before any option is read. */
  function Defaults(): (o: Options)
    ensures o.inputPath == o.outputPath == o.scnListPath == None
    ensures o.nSeeds == -1 && o.uniqueSeeds && !o.patches && o.doValidation
    ensures o.expName == "EXPERIMENT" && o.sceIdStart == 0
    ensures o.expDescription == o.dbUrl == o.dbUser == None
    ensures !o.writeListOnly && !o.readList && o.min3Sweeps
  {
    Options(None, None, None, -1, true, false, true, "EXPERIMENT", 0, None, None, None, false, false, true)
  }

  /** What a run of `main` comes to. */
  datatype Outcome =
    | Exit(code: int, message: string)        // `System.exit`, directly or through `printHelp`
    | Uncaught(exception: string)             // an exception escaping `main`
    | Finished(steps: seq<Action>, warnedDbReadList: bool)

  /** The calls `main` makes on the sweep combiner, in order. */
  datatype Action =
    | NewCombineSweeps(expName: string, expDescription: Option<string>, min3Sweeps: bool)
    | ReadSweeps(inputPath: string, doValidation: bool)
    | AddSeedsSweep(nSeeds: int)
    | SweepChecks
    | WritePatches(outputPath: string)
    | GenCombinationList(sceIdStart: int)
    | ReadCombinationList(sceIdStart: int, scnListPath: string)
    | UpdateDb(dbUrl: string, dbUser: Option<string>)
    | Combine(outputPath: string, uniqueSeeds: bool)
    | WriteCombinationList(sceIdStart: int, scnListPath: string)

  // ----- Java string conversions -----

  /** `Integer.parseInt` on ASCII input: an optional sign, then digits, within 32 bits. */
  function ParseInt(s: string): (r: Option<int>)
    ensures r.Some? ==> -0x8000_0000 <= r.value < 0x8000_0000
    ensures s == [] ==> r.None?
  {
    if s == [] then None
    else
      var neg := s[0] == '-';
      var digits := if s[0] == '-' || s[0] == '+' then s[1..] else s;
      if digits == [] || !AllDigits(digits) then None
      else
        var v: int := if neg then -(DigitsValue(digits) as int) else DigitsValue(digits);
        if -0x8000_0000 <= v < 0x8000_0000 then Some(v) else None
  }

  /** `Boolean.parseBoolean`: true exactly for "true" in any case. */
  function ParseBoolean(s: string): bool
  {
    |s| == 4 && (s[0] == 't' || s[0] == 'T') && (s[1] == 'r' || s[1] == 'R')
             && (s[2] == 'u' || s[2] == 'U') && (s[3] == 'e' || s[3] == 'E')
  }

  function StartsWithDashes(s: string): bool { |s| >= 2 && s[..2] == "--" }

  // ----- the option loop -----

  /** Reading one option at position i: new values and the next position, or the outcome that ends `main`. */
  datatype Step = Continue(o: Options, next: nat) | Stop(outcome: Outcome)

  /** The value after the option at i (`args[++i]`), or the exception when there is none. */
  function ValueAfter(args: seq<string>, i: nat): Result<string>
  {
    if i + 1 < |args| then Ok(args[i + 1]) else Err("ArrayIndexOutOfBoundsException")
  }

  const FLAGS: set<string> := {"--patches", "--no-validation", "--write-list-only", "--read-list", "--lt-3-sweeps"}
  const VALUED: set<string> := {"--seeds", "--unique-seeds", "--name", "--sce-ID-start", "--desc", "--db", "--dbuser"}

  /** The options without a value. */
  function SetFlag(o: Options, a: string): (r: Options)
    requires a in FLAGS
    ensures r.inputPath == o.inputPath && r.outputPath == o.outputPath && r.scnListPath == o.scnListPath
  {
    if a == "--patches" then o.(patches := true)
    else if a == "--no-validation" then o.(doValidation := false)
    else if a == "--write-list-only" then o.(writeListOnly := true)
    else if a == "--read-list" then o.(readList := true)
    else o.(min3Sweeps := false)
  }

  /** The options with a value v; the numeric ones fail as `Integer.parseInt` does. */
  function SetValue(o: Options, a: string, v: string): (r: Result<Options>)
    requires a in VALUED
    ensures r.Ok? ==> r.value.inputPath == o.inputPath && r.value.outputPath == o.outputPath
                      && r.value.scnListPath == o.scnListPath
  {
    if a == "--seeds" then
      (match ParseInt(v)
       case None => Err("NumberFormatException")
       case Some(n) => Ok(o.(nSeeds := n)))
    else if a == "--sce-ID-start" then
      (match ParseInt(v)
       case None => Err("NumberFormatException")
       case Some(n) => Ok(o.(sceIdStart := n)))
    else if a == "--unique-seeds" then Ok(o.(uniqueSeeds := ParseBoolean(v)))
    else if a == "--name" then Ok(o.(expName := v))
    else if a == "--desc" then Ok(o.(expDescription := Some(v)))
    else if a == "--db" then Ok(o.(dbUrl := Some(v)))
    else Ok(o.(dbUser := Some(v)))
  }

  /**
   * The body of the option loop for the argument at i. Anything but
   * `--stddirs` leaves the standard paths as they are.
   */
  function ApplyOption(o: Options, args: seq<string>, i: nat, separator: string): (r: Step)
    requires i < |args|
    ensures r.Continue? ==> i < r.next <= i + 2
    ensures r.Continue? && args[i] != "--stddirs" ==>
              r.o.inputPath == o.inputPath && r.o.outputPath == o.outputPath && r.o.scnListPath == o.scnListPath
  {
    var a := args[i];
    if !StartsWithDashes(a) then Stop(Exit(1, ""))
    else if a == "--stddirs" then
      if o.inputPath.None? && o.outputPath.None? && o.scnListPath.None? then
        match ValueAfter(args, i)
        case Err(e) => Stop(Uncaught(e))
        case Ok(base) =>
          Continue(o.(inputPath := Some(base + separator + "description"),
                      outputPath := Some(base + separator + "scenarios"),
                      scnListPath := Some(base + separator + "scenarios.csv")), i + 2)
      else Stop(Exit(1, ""))
    else if a in FLAGS then Continue(SetFlag(o, a), i + 1)
    else if a in VALUED then
      match ValueAfter(args, i)
      case Err(e) => Stop(Uncaught(e))
      case Ok(v) =>
        match SetValue(o, a, v)
        case Err(e) => Stop(Uncaught(e))
        case Ok(o') => Continue(o', i + 2)
    else Stop(Exit(1, "Unrecognised option: " + a))
  }

  /** How the option loop ends: with the final values, or with the outcome that ends `main`. */
  datatype Parse = Parsed(o: Options) | Stopped(outcome: Outcome)

  /** The option loop from position i on. */
  function ParseFrom(o: Options, args: seq<string>, i: nat, separator: string): Parse
    decreases |args| - i
  {
    if i >= |args| then Parsed(o)
    else match ApplyOption(o, args, i, separator)
      case Stop(out) => Stopped(out)
      case Continue(o', next) => ParseFrom(o', args, next, separator)
  }

  /** The loop over `args` in `main`. */
  method ParseArgs(args: seq<string>, separator: string) returns (r: Parse)
    ensures r == ParseFrom(Defaults(), args, 0, separator)
  {
    var o := Defaults();
    var i := 0;
    while i < |args|
      invariant ParseFrom(o, args, i, separator) == ParseFrom(Defaults(), args, 0, separator)
      decreases |args| - i
    {
      var s := ApplyOption(o, args, i, separator);
      if s.Stop? {
        return Stopped(s.outcome);
      }
      o, i := s.o, s.next;
    }
    return Parsed(o);
  }

  /** The standard paths, once set, are never changed by later options. */
  lemma {:induction false} PathsStaySet(o: Options, args: seq<string>, i: nat, separator: string)
    requires o.inputPath.Some? && o.outputPath.Some? && o.scnListPath.Some?
    ensures ParseFrom(o, args, i, separator).Parsed? ==>
              var p := ParseFrom(o, args, i, separator).o;
              p.inputPath == o.inputPath && p.outputPath == o.outputPath && p.scnListPath == o.scnListPath
    decreases |args| - i
  {
    if i < |args| {
      match ApplyOption(o, args, i, separator)
      case Stop(_) =>
      case Continue(o', next) => PathsStaySet(o', args, next, separator);
    }
  }

  /**
   * `--stddirs B` with nothing set yet sets the three standard paths under
   * B; once they are set, another `--stddirs` ends in the help text.
   */
  lemma StddirsOnlyOnce(o: Options, args: seq<string>, i: nat, separator: string)
    requires i + 1 < |args| && args[i] == "--stddirs"
    ensures o.inputPath.None? && o.outputPath.None? && o.scnListPath.None? ==>
              var b := args[i + 1];
              ApplyOption(o, args, i, separator) ==
                Continue(o.(inputPath := Some(b + separator + "description"),
                            outputPath := Some(b + separator + "scenarios"),
                            scnListPath := Some(b + separator + "scenarios.csv")), i + 2)
    ensures o.inputPath.Some? || o.outputPath.Some? || o.scnListPath.Some? ==>
              ApplyOption(o, args, i, separator) == Stop(Exit(1, ""))
  {
    assert StartsWithDashes(args[i]) by { assert args[i][..2] == "--"; }
  }

  /** The standard directories of one `--stddirs` survive the rest of the command line. */
  lemma StddirsThenAnything(args: seq<string>, separator: string)
    requires |args| >= 2 && args[0] == "--stddirs"
    ensures ParseFrom(Defaults(), args, 0, separator).Parsed? ==>
              var p := ParseFrom(Defaults(), args, 0, separator).o;
              && p.inputPath == Some(args[1] + separator + "description")
              && p.outputPath == Some(args[1] + separator + "scenarios")
              && p.scnListPath == Some(args[1] + separator + "scenarios.csv")
  {
    StddirsOnlyOnce(Defaults(), args, 0, separator);
    var o := ApplyOption(Defaults(), args, 0, separator).o;
    PathsStaySet(o, args, 2, separator);
  }

  // ----- the checks after the loop -----

  /** DB mode: a database is given and the run does not stop after the list. */
  predicate DbMode(o: Options)
  {
    o.dbUrl.Some? && !o.writeListOnly
  }

  /**
   * The checks between the option loop and the sweep combiner, given
   * whether the output directory is (after the attempt to create it) an
   * empty writable directory.
   */
  function Check(o: Options, outputDirUsable: bool): Option<Outcome>
  {
    if o.readList && o.writeListOnly then Some(Exit(1, "Cannot use both --read-list and --write-list-only"))
    else if o.inputPath.None? || o.outputPath.None? then Some(Exit(1, "Required arguments: --stddirs PATH"))
    else if DbMode(o) && (o.expDescription.None? || o.dbUser.None?) then
      Some(Exit(1, "--db requires --dbuser and --desc arguments"))
    else if DbMode(o) && (o.expName != "EXPERIMENT" || o.sceIdStart != 0) then
      Some(Exit(1, "--name and --sce-ID-start cannot be used in DB mode"))
    else if !o.writeListOnly && !outputDirUsable then
      Some(Exit(1, o.outputPath.value + " is not a writable empty directory and can't be created as such"))
    else None
  }

  /** Reading and writing the list together is always rejected. */
  lemma ReadAndWriteListRejected(o: Options, outputDirUsable: bool)
    requires o.readList && o.writeListOnly
    ensures Check(o, outputDirUsable).Some? && Check(o, outputDirUsable).value.Exit?
  {
  }

  /**
   * The checks pass iff the list options do not clash, the paths are set,
   * DB mode has a user and a description and keeps the default name and
   * start id, and a run that writes scenarios has a usable output directory.
   */
  lemma CheckPassesIff(o: Options, outputDirUsable: bool)
    ensures Check(o, outputDirUsable).None? <==>
              && !(o.readList && o.writeListOnly)
              && o.inputPath.Some? && o.outputPath.Some?
              && (DbMode(o) ==> o.expDescription.Some? && o.dbUser.Some?
                                && o.expName == "EXPERIMENT" && o.sceIdStart == 0)
              && (!o.writeListOnly ==> outputDirUsable)
  {
  }

  // ----- the steps -----

  /** The start id the combination list is written with: the database's when it gave one. */
  function ListStartId(o: Options, dbResult: int): int
  {
    if DbMode(o) && dbResult != -1 then dbResult else o.sceIdStart
  }

  /** The calls before the choice of patch mode. */
  function Prefix(o: Options): (r: seq<Action>)
    requires o.inputPath.Some?
    ensures forall a :: a in r ==> a.NewCombineSweeps? || a.ReadSweeps? || a.AddSeedsSweep? || a.SweepChecks?
  {
    [NewCombineSweeps(o.expName, o.expDescription, o.min3Sweeps), ReadSweeps(o.inputPath.value, o.doValidation)]
      + (if o.nSeeds >= 0 then [AddSeedsSweep(o.nSeeds)] else [])
      + [SweepChecks]
  }

  /** The calls outside patch mode, given the id the database update returns (-1 for none). */
  function ListSteps(o: Options, dbResult: int): seq<Action>
    requires o.outputPath.Some?
  {
    var listPath := if o.scnListPath.Some? then o.scnListPath.value else "";
    [GenCombinationList(o.sceIdStart)]
      + (if o.readList then [ReadCombinationList(o.sceIdStart, listPath)] else [])
      + (if !o.writeListOnly then
           (if DbMode(o) then [UpdateDb(o.dbUrl.value, o.dbUser)] else [])
           + [Combine(o.outputPath.value, o.uniqueSeeds)]
         else [])
      + (if !o.readList then [WriteCombinationList(ListStartId(o, dbResult), listPath)] else [])
  }

  /** The calls in the `try` block. The paths are those the checks found set. */
  function Plan(o: Options, dbResult: int): seq<Action>
    requires o.inputPath.Some? && o.outputPath.Some?
  {
    Prefix(o) + if o.patches then [WritePatches(o.outputPath.value)] else ListSteps(o, dbResult)
  }

  /** `main`: the option loop, the checks, and the steps of a run that gets through them. */
  method Execute(args: seq<string>, separator: string, outputDirUsable: bool, dbResult: int)
      returns (out: Outcome)
    ensures ParseFrom(Defaults(), args, 0, separator).Stopped? ==>
              out == ParseFrom(Defaults(), args, 0, separator).outcome
    ensures ParseFrom(Defaults(), args, 0, separator).Parsed? ==>
              var o := ParseFrom(Defaults(), args, 0, separator).o;
              out == match Check(o, outputDirUsable)
                     case Some(stop) => stop
                     case None => Finished(Plan(o, dbResult), DbMode(o) && o.readList)
  {
    var parsed := ParseArgs(args, separator);
    if parsed.Stopped? {
      return parsed.outcome;
    }
    var o := parsed.o;
    var failed := Check(o, outputDirUsable);
    if failed.Some? {
      return failed.value;
    }
    return Finished(Plan(o, dbResult), DbMode(o) && o.readList);
  }

  /** A seed sweep is added iff the number of seeds is not negative, and only with that number; by default it is -1. */
  lemma SeedSweepIff(o: Options, dbResult: int)
    requires o.inputPath.Some? && o.outputPath.Some?
    ensures forall n :: AddSeedsSweep(n) in Plan(o, dbResult) ==> n == o.nSeeds
    ensures AddSeedsSweep(o.nSeeds) in Plan(o, dbResult) <==> o.nSeeds >= 0
    ensures Defaults().nSeeds < 0
  {
  }

  /** Patch mode ends with the patches and generates, reads, updates, combines and lists nothing. */
  lemma PatchModeWritesOnlyPatches(o: Options, dbResult: int)
    requires o.inputPath.Some? && o.outputPath.Some? && o.patches
    ensures var p := Plan(o, dbResult);
            && p[|p| - 1] == WritePatches(o.outputPath.value)
            && forall a :: a in p ==>
                 !a.GenCombinationList? && !a.Combine? && !a.WriteCombinationList?
                 && !a.ReadCombinationList? && !a.UpdateDb?
  {
  }

  /** Which calls outside patch mode can appear, and with which start ids. */
  lemma ListStepsOnlyWhen(o: Options, dbResult: int)
    requires o.outputPath.Some?
    ensures forall a :: a in ListSteps(o, dbResult) ==>
              && (a.GenCombinationList? || a.ReadCombinationList? || a.UpdateDb? || a.Combine? || a.WriteCombinationList?)
              && (a.GenCombinationList? ==> a.sceIdStart == o.sceIdStart)
              && (a.ReadCombinationList? ==> o.readList && a.sceIdStart == o.sceIdStart)
              && (a.WriteCombinationList? ==> !o.readList && a.sceIdStart == ListStartId(o, dbResult))
              && (a.Combine? ==> !o.writeListOnly)
              && (a.UpdateDb? ==> DbMode(o) && !o.writeListOnly)
  {
    var listPath := if o.scnListPath.Some? then o.scnListPath.value else "";
    var g := [GenCombinationList(o.sceIdStart)];
    var r := if o.readList then [ReadCombinationList(o.sceIdStart, listPath)] else [];
    var c := if !o.writeListOnly then
               (if DbMode(o) then [UpdateDb(o.dbUrl.value, o.dbUser)] else []) + [Combine(o.outputPath.value, o.uniqueSeeds)]
             else [];
    var w := if !o.readList then [WriteCombinationList(ListStartId(o, dbResult), listPath)] else [];
    assert ListSteps(o, dbResult) == g + r + c + w;
    forall a | a in ListSteps(o, dbResult)
      ensures a in g || a in r || a in c || a in w
    {
    }
  }

  /**
   * Outside patch mode the list is generated with the local start id, the
   * list is written iff it was not read, with the database's id when it
   * gave one in DB mode, and the scenarios are combined iff the run does
   * not stop after the list.
   */
  lemma ListStepsAndStartIds(o: Options, dbResult: int)
    requires o.inputPath.Some? && o.outputPath.Some? && !o.patches
    ensures var p := Plan(o, dbResult);
            && GenCombinationList(o.sceIdStart) in p
            && (forall a :: a in p && a.GenCombinationList? ==> a.sceIdStart == o.sceIdStart)
            && (forall a :: a in p && a.ReadCombinationList? ==> a.sceIdStart == o.sceIdStart)
            && (forall a :: a in p && a.WriteCombinationList? ==>
                  a.sceIdStart == (if DbMode(o) && dbResult != -1 then dbResult else o.sceIdStart))
            && ((exists a :: a in p && a.WriteCombinationList?) <==> !o.readList)
            && ((exists a :: a in p && a.Combine?) <==> !o.writeListOnly)
            && ((exists a :: a in p && a.UpdateDb?) <==> DbMode(o))
  {
    var p := Plan(o, dbResult);
    assert p == Prefix(o) + ListSteps(o, dbResult);
    ListStepsOnlyWhen(o, dbResult);
    ListStepsHave(o, dbResult);
    assert forall a :: a in p ==> a in Prefix(o) || a in ListSteps(o, dbResult);
  }

  /** The list steps include the generation of the list, and its writing, the combining and the update when called for. */
  lemma ListStepsHave(o: Options, dbResult: int)
    requires o.outputPath.Some?
    ensures var listPath := if o.scnListPath.Some? then o.scnListPath.value else "";
            && GenCombinationList(o.sceIdStart) in ListSteps(o, dbResult)
            && (!o.readList ==> WriteCombinationList(ListStartId(o, dbResult), listPath) in ListSteps(o, dbResult))
            && (!o.writeListOnly ==> Combine(o.outputPath.value, o.uniqueSeeds) in ListSteps(o, dbResult))
            && (DbMode(o) ==> UpdateDb(o.dbUrl.value, o.dbUser) in ListSteps(o, dbResult))
  {
    var listPath := if o.scnListPath.Some? then o.scnListPath.value else "";
    assert GenCombinationList(o.sceIdStart) in ListSteps(o, dbResult);
    if !o.readList {
      assert WriteCombinationList(ListStartId(o, dbResult), listPath) in ListSteps(o, dbResult);
    }
    if !o.writeListOnly {
      assert Combine(o.outputPath.value, o.uniqueSeeds) in ListSteps(o, dbResult);
    }
    if DbMode(o) {
      assert UpdateDb(o.dbUrl.value, o.dbUser) in ListSteps(o, dbResult);
    }
  }
}
