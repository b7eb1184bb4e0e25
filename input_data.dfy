/**
 * `InputDataType` (openmalaria-644, model/inputData.cpp): the loaded
 * scenario document, the parameter table and the timed interventions
 * derived from it, the set of interventions in use, and the name under
 * which a changed document is saved.
 *
 * Parsing the XML and computing the checksum are left to the caller: the
 * document arrives already parsed (or not at all, when the file cannot be
 * opened). Of an intervention only which of its elements are present is
 * kept.
 */
module InputData {
  import opened Wrappers

  const SCHEMA_VERSION: int := 20
  const OLDEST_COMPATIBLE: int := 20

  /**
   * `Params::MAX`, one past the last parameter index. The header of this
   * version is not part of this model; the value is the one counted in the
   * openmalaria-636 tag's include/inputData.h, which may differ from this
   * version's.
   */
  const PARAMS_MAX: int := 38

  /** `Interventions::Flags`. */
  datatype Flag = CHANGE_HS | CHANGE_EIR | IMPORTED_INFECTIONS | VACCINE | MDA | IPTI | ITN | IRS | VEC_AVAIL | LARVICIDING

  /** A `<parameter number=... value=...>` of the model. */
  datatype Parameter = Parameter(number: int, value: real)

  /** A timed intervention: its time and which of its elements are present. */
  datatype Intervention = Intervention(
    time: int,
    changeHS: bool, changeEIR: bool, vaccinate: bool, mda: bool, ipti: bool,
    itn: bool, irs: bool, vectorAvailability: bool, larviciding: bool, importedInfections: bool)

  /** The continuous interventions: how many vaccine, ITN and IPTI entries there are. */
  datatype Continuous = Continuous(vaccines: nat, itns: nat, iptis: nat)

  /** The parts of a parsed scenario this class reads. */
  datatype Scenario = Scenario(
    schemaVersion: int,
    parameters: seq<Parameter>,
    continuous: Option<Continuous>,
    timed: Option<seq<Intervention>>)

  /** The `xml_scenario_error`s, by cause. */
  datatype InputError =
    | CannotOpen(file: string)
    | OldSchema(file: string, incompatible: bool)
    | NewSchema
    | InvalidIndex(index: int)
    | DescribedTwice(index: int)
    | MultipleTimed(time: int)
    | NotDescribed(index: int)

  /** A value read from the tables, or the error raised instead. */
  datatype Got<T> = Got(value: T) | Raised(error: InputError)

  // ----- the parameter table -----

  /**
   * The parameter loop from the table m: each entry is inserted in turn; an
   * index outside [0, PARAMS_MAX) or one already in the table stops it with
   * the error and the entries inserted so far.
   */
  function ParamsLoop(m: map<int, real>, ps: seq<Parameter>): (r: (map<int, real>, Option<InputError>))
    ensures r.1.None? ==> m.Keys <= r.0.Keys
    decreases |ps|
  {
    if ps == [] then (m, None)
    else
      var i := ps[0].number;
      if i < 0 || i >= PARAMS_MAX then (m, Some(InvalidIndex(i)))
      else if i in m then (m, Some(DescribedTwice(i)))
      else ParamsLoop(m[i := ps[0].value], ps[1..])
  }

  /** The entries are accepted iff every index is in range, new to the table, and described once. */
  predicate ParamsAcceptable(m: map<int, real>, ps: seq<Parameter>)
  {
    && (forall k :: 0 <= k < |ps| ==> 0 <= ps[k].number < PARAMS_MAX && ps[k].number !in m)
    && (forall a, b :: 0 <= a < b < |ps| ==> ps[a].number != ps[b].number)
  }

  lemma {:induction false} ParamsLoopOkIff(m: map<int, real>, ps: seq<Parameter>)
    ensures ParamsLoop(m, ps).1.None? <==> ParamsAcceptable(m, ps)
    decreases |ps|
  {
    if ps != [] {
      var i := ps[0].number;
      var m' := m[i := ps[0].value];
      ParamsLoopOkIff(m', ps[1..]);
      if ParamsAcceptable(m, ps) {
        AcceptableTail(m, ps);
      }
      if 0 <= i < PARAMS_MAX && i !in m && ParamsAcceptable(m', ps[1..]) {
        AcceptableCons(m, ps);
      }
    }
  }

  /** Acceptable entries have an acceptable first entry, and the rest are acceptable once it is inserted. */
  lemma AcceptableTail(m: map<int, real>, ps: seq<Parameter>)
    requires ps != [] && ParamsAcceptable(m, ps)
    ensures 0 <= ps[0].number < PARAMS_MAX && ps[0].number !in m
    ensures ParamsAcceptable(m[ps[0].number := ps[0].value], ps[1..])
  {
    var m' := m[ps[0].number := ps[0].value];
    forall k | 0 <= k < |ps[1..]|
      ensures 0 <= ps[1..][k].number < PARAMS_MAX && ps[1..][k].number !in m'
    {
      assert ps[1..][k] == ps[k + 1];
    }
    forall a, b | 0 <= a < b < |ps[1..]|
      ensures ps[1..][a].number != ps[1..][b].number
    {
      assert ps[1..][a] == ps[a + 1] && ps[1..][b] == ps[b + 1];
    }
  }

  /** A first entry in range and new, in front of entries acceptable once it is inserted, makes acceptable entries. */
  lemma AcceptableCons(m: map<int, real>, ps: seq<Parameter>)
    requires ps != [] && 0 <= ps[0].number < PARAMS_MAX && ps[0].number !in m
    requires ParamsAcceptable(m[ps[0].number := ps[0].value], ps[1..])
    ensures ParamsAcceptable(m, ps)
  {
    forall k | 0 <= k < |ps|
      ensures 0 <= ps[k].number < PARAMS_MAX && ps[k].number !in m
    {
      if k > 0 { assert ps[k] == ps[1..][k - 1]; }
    }
    forall a, b | 0 <= a < b < |ps|
      ensures ps[a].number != ps[b].number
    {
      assert ps[b] == ps[1..][b - 1];
      if a > 0 { assert ps[a] == ps[1..][a - 1]; }
    }
  }

  /** An accepted table holds the old entries and exactly the described ones, each with its value. */
  lemma {:induction false} ParamsLoopContents(m: map<int, real>, ps: seq<Parameter>)
    requires ParamsLoop(m, ps).1.None?
    ensures forall k :: 0 <= k < |ps| ==> ps[k].number in ParamsLoop(m, ps).0 && ParamsLoop(m, ps).0[ps[k].number] == ps[k].value
    ensures forall i :: i in m ==> i in ParamsLoop(m, ps).0 && ParamsLoop(m, ps).0[i] == m[i]
    ensures forall i :: i in ParamsLoop(m, ps).0 ==> i in m || exists k :: 0 <= k < |ps| && ps[k].number == i
    decreases |ps|
  {
    if ps != [] {
      var i := ps[0].number;
      var m' := m[i := ps[0].value];
      ParamsLoopContents(m', ps[1..]);
      var r := ParamsLoop(m, ps).0;
      assert r == ParamsLoop(m', ps[1..]).0;
      forall k | 0 <= k < |ps|
        ensures ps[k].number in r && r[ps[k].number] == ps[k].value
      {
        if k > 0 { assert ps[k] == ps[1..][k - 1]; }
      }
      forall j | j in r
        ensures j in m || exists k :: 0 <= k < |ps| && ps[k].number == j
      {
        if j !in m' {
          var k :| 0 <= k < |ps[1..]| && ps[1..][k].number == j;
          assert ps[k + 1].number == j;
        } else if j !in m {
          assert ps[0].number == j;
        }
      }
    }
  }

  /** The first bad entry decides the error: an index out of range, else one described already. */
  lemma {:induction false} ParamsLoopError(m: map<int, real>, ps: seq<Parameter>, k: nat)
    requires k < |ps| && ParamsAcceptable(m, ps[..k])
    requires !(0 <= ps[k].number < PARAMS_MAX) || ps[k].number in m
             || exists a :: 0 <= a < k && ps[a].number == ps[k].number
    ensures ParamsLoop(m, ps).1 ==
              Some(if !(0 <= ps[k].number < PARAMS_MAX) then InvalidIndex(ps[k].number) else DescribedTwice(ps[k].number))
    decreases k
  {
    var i := ps[0].number;
    assert ps[..k + 1][0] == ps[0];
    if k > 0 {
      assert ps[..k][0] == ps[0];
      var m' := m[i := ps[0].value];
      var tail := ps[1..];
      assert tail[..k - 1] == ps[..k][1..];
      var pre := tail[..k - 1];
      var front := ps[..k];
      assert ParamsAcceptable(m', pre) by {
        forall j | 0 <= j < k - 1
          ensures 0 <= pre[j].number < PARAMS_MAX && pre[j].number !in m'
        {
          assert pre[j] == front[j + 1];
          assert front[0].number != front[j + 1].number;
        }
        forall a, b | 0 <= a < b < k - 1
          ensures pre[a].number != pre[b].number
        {
          assert pre[a] == front[a + 1] && pre[b] == front[b + 1];
        }
      }
      if exists a :: 0 <= a < k && ps[a].number == ps[k].number {
        var a :| 0 <= a < k && ps[a].number == ps[k].number;
        if a == 0 {
          assert ps[k].number in m';
        } else {
          assert tail[a - 1].number == tail[k - 1].number;
        }
      }
      assert tail[k - 1] == ps[k];
      ParamsLoopError(m', tail, k - 1);
    }
  }

  // ----- the timed interventions -----

  const ALL_FLAGS: set<Flag> :=
    {CHANGE_HS, CHANGE_EIR, IMPORTED_INFECTIONS, VACCINE, MDA, IPTI, ITN, IRS, VEC_AVAIL, LARVICIDING}

  /** The element of a timed intervention that turns flag f on. */
  predicate Has(iv: Intervention, f: Flag)
  {
    match f
    case CHANGE_HS => iv.changeHS
    case CHANGE_EIR => iv.changeEIR
    case IMPORTED_INFECTIONS => iv.importedInfections
    case VACCINE => iv.vaccinate
    case MDA => iv.mda
    case IPTI => iv.ipti
    case ITN => iv.itn
    case IRS => iv.irs
    case VEC_AVAIL => iv.vectorAvailability
    case LARVICIDING => iv.larviciding
  }

  /** The flags a timed intervention turns on: one per element it has. */
  function FlagsOf(iv: Intervention): (r: set<Flag>)
    ensures forall f :: f in r <==> Has(iv, f)
  {
    set f | f in ALL_FLAGS && Has(iv, f)
  }

  /** The flags the continuous interventions turn on: a nonempty list sets its own. */
  function ContinuousFlags(c: Option<Continuous>): (r: set<Flag>)
    ensures r <= {VACCINE, ITN, IPTI}
    ensures c.Some? ==> ((VACCINE in r <==> c.value.vaccines > 0) && (ITN in r <==> c.value.itns > 0)
                         && (IPTI in r <==> c.value.iptis > 0))
    ensures c.None? ==> r == {}
  {
    match c
    case None => {}
    case Some(ci) =>
      (if ci.vaccines > 0 then {VACCINE} else {})
      + (if ci.itns > 0 then {ITN} else {})
      + (if ci.iptis > 0 then {IPTI} else {})
  }

  /** The state the timed loop works on: the table by time and the flags in use. */
  datatype Timed = Timed(byTime: map<int, Intervention>, active: set<Flag>)

  /**
   * The timed loop: each intervention is stored under its time and sets the
   * flags of the elements it has; a time already stored stops it with the
   * error and what was stored so far.
   */
  function TimedLoop(t: Timed, ivs: seq<Intervention>): (r: (Timed, Option<InputError>))
    ensures t.active <= r.0.active
    ensures forall x :: x in t.byTime ==> x in r.0.byTime && r.0.byTime[x] == t.byTime[x]
    decreases |ivs|
  {
    if ivs == [] then (t, None)
    else if ivs[0].time in t.byTime then (t, Some(MultipleTimed(ivs[0].time)))
    else TimedLoop(Timed(t.byTime[ivs[0].time := ivs[0]], t.active + FlagsOf(ivs[0])), ivs[1..])
  }

  /** The timed interventions are accepted iff their times are new and distinct. */
  predicate TimesDistinct(byTime: map<int, Intervention>, ivs: seq<Intervention>)
  {
    && (forall k :: 0 <= k < |ivs| ==> ivs[k].time !in byTime)
    && (forall a, b :: 0 <= a < b < |ivs| ==> ivs[a].time != ivs[b].time)
  }

  lemma {:induction false} TimedLoopOkIff(t: Timed, ivs: seq<Intervention>)
    ensures TimedLoop(t, ivs).1.None? <==> TimesDistinct(t.byTime, ivs)
    ensures TimedLoop(t, ivs).1.Some? ==> TimedLoop(t, ivs).1.value.MultipleTimed?
    decreases |ivs|
  {
    if ivs != [] {
      var iv := ivs[0];
      var t' := Timed(t.byTime[iv.time := iv], t.active + FlagsOf(iv));
      TimedLoopOkIff(t', ivs[1..]);
      if TimesDistinct(t.byTime, ivs) {
        forall k | 0 <= k < |ivs[1..]|
          ensures ivs[1..][k].time !in t'.byTime
        {
          assert ivs[1..][k] == ivs[k + 1];
        }
        forall a, b | 0 <= a < b < |ivs[1..]|
          ensures ivs[1..][a].time != ivs[1..][b].time
        {
          assert ivs[1..][a] == ivs[a + 1] && ivs[1..][b] == ivs[b + 1];
        }
      } else if iv.time !in t.byTime && TimesDistinct(t'.byTime, ivs[1..]) {
        forall k | 0 <= k < |ivs|
          ensures ivs[k].time !in t.byTime
        {
          if k > 0 { assert ivs[k] == ivs[1..][k - 1]; }
        }
        forall a, b | 0 <= a < b < |ivs|
          ensures ivs[a].time != ivs[b].time
        {
          assert ivs[b] == ivs[1..][b - 1];
          if a > 0 { assert ivs[a] == ivs[1..][a - 1]; }
        }
        assert false;
      }
    }
  }

  /**
   * After an accepted loop each intervention is found under its time, and
   * a flag is on iff it was on before or some intervention has its element.
   */
  lemma {:induction false} TimedLoopContents(t: Timed, ivs: seq<Intervention>)
    requires TimedLoop(t, ivs).1.None?
    ensures forall k :: 0 <= k < |ivs| ==>
              ivs[k].time in TimedLoop(t, ivs).0.byTime && TimedLoop(t, ivs).0.byTime[ivs[k].time] == ivs[k]
    ensures forall f :: f in TimedLoop(t, ivs).0.active <==> f in t.active || exists k :: 0 <= k < |ivs| && f in FlagsOf(ivs[k])
    decreases |ivs|
  {
    if ivs != [] {
      var iv := ivs[0];
      var t' := Timed(t.byTime[iv.time := iv], t.active + FlagsOf(iv));
      TimedLoopContents(t', ivs[1..]);
      var r := TimedLoop(t, ivs).0;
      assert r == TimedLoop(t', ivs[1..]).0;
      TimedLoopOkIff(t', ivs[1..]);
      forall k | 0 <= k < |ivs|
        ensures ivs[k].time in r.byTime && r.byTime[ivs[k].time] == ivs[k]
      {
        if k > 0 { assert ivs[k] == ivs[1..][k - 1]; }
      }
      forall f
        ensures f in r.active <==> f in t.active || exists k :: 0 <= k < |ivs| && f in FlagsOf(ivs[k])
      {
        if f in r.active && f !in t'.active {
          var k :| 0 <= k < |ivs[1..]| && f in FlagsOf(ivs[1..][k]);
          assert ivs[k + 1] == ivs[1..][k];
        }
        if exists k :: 0 <= k < |ivs| && f in FlagsOf(ivs[k]) {
          var k :| 0 <= k < |ivs| && f in FlagsOf(ivs[k]);
          if k > 0 { assert ivs[1..][k - 1] == ivs[k]; }
        }
      }
    }
  }

  /** `initTimedInterventions` as a function: the continuous flags first, then the timed loop if there are timed interventions. */
  function TimedResult(t: Timed, sc: Scenario): (Timed, Option<InputError>)
  {
    var t1 := Timed(t.byTime, t.active + ContinuousFlags(sc.continuous));
    match sc.timed
    case None => (t1, None)
    case Some(ivs) => TimedLoop(t1, ivs)
  }

  // ----- the schema version -----

  /** The version check: an older schema and a newer one are both errors. */
  function VersionError(file: string, version: int): (r: Option<InputError>)
    ensures r.None? <==> version == SCHEMA_VERSION
  {
    if version < SCHEMA_VERSION then Some(OldSchema(file, version < OLDEST_COMPATIBLE))
    else if version > SCHEMA_VERSION then Some(NewSchema)
    else None
  }

  /**
   * The oldest compatible version is the current one, so an old schema is
   * always reported as incompatible (never with the "potentially" warning),
   * and it is rejected either way.
   */
  lemma OldSchemaAlwaysIncompatible(file: string, version: int)
    requires version < SCHEMA_VERSION
    ensures VersionError(file, version) == Some(OldSchema(file, true))
  {
  }

  // ----- the file name a changed document is saved under -----

  /** `strrchr`: the position of the last c in s, or -1 (a null result) when there is none. */
  function LastIndex(s: string, c: char): (r: int)
    ensures -1 <= r < |s|
    ensures r >= 0 ==> s[r] == c
    ensures forall k :: r < k < |s| ==> s[k] != c
  {
    if s == [] then -1
    else if s[|s| - 1] == c then |s| - 1
    else LastIndex(s[..|s| - 1], c)
  }

  /** The name after the later of the last '/' and the last '\\', or the whole name. */
  function BaseName(name: string): string
  {
    var fs := LastIndex(name, '/');
    var bs := LastIndex(name, '\\');
    var last := if bs > fs then bs else fs;
    if last < 0 then name else name[last + 1..]
  }

  predicate IsSeparator(c: char) { c == '/' || c == '\\' }

  /**
   * The base name is the longest suffix without a separator: the name ends
   * with it, it holds no '/' or '\\', and the character before it is one.
   */
  lemma BaseNameMeaning(name: string)
    ensures var b := BaseName(name);
            && |b| <= |name| && name[|name| - |b|..] == b
            && (forall k :: 0 <= k < |b| ==> !IsSeparator(b[k]))
            && (|b| < |name| ==> IsSeparator(name[|name| - |b| - 1]))
  {
    var fs := LastIndex(name, '/');
    var bs := LastIndex(name, '\\');
    var last := if bs > fs then bs else fs;
    var b := BaseName(name);
    forall k | 0 <= k < |b|
      ensures !IsSeparator(b[k])
    {
      if last >= 0 { assert b[k] == name[last + 1 + k]; }
    }
  }

  /** A base name is its own base name. */
  lemma BaseNameIdempotent(name: string)
    ensures BaseName(BaseName(name)) == BaseName(name)
  {
    BaseNameMeaning(name);
    var b := BaseName(name);
    NoSeparatorIsWhole(b);
  }

  lemma NoSeparatorIsWhole(s: string)
    requires forall k :: 0 <= k < |s| ==> !IsSeparator(s[k])
    ensures BaseName(s) == s
  {
    var fs := LastIndex(s, '/');
    var bs := LastIndex(s, '\\');
    if fs >= 0 { assert IsSeparator(s[fs]); }
    if bs >= 0 { assert IsSeparator(s[bs]); }
  }

  /** The schema the saved document names, "scenario_20.xsd". */
  const SCHEMA_FILE: string := "scenario_20.xsd"

  // ----- the class -----

  class InputDataType {
    var xmlFileName: string
    var documentChanged: bool
    var scenario: Option<Scenario>
    var parameterValues: map<int, real>
    var timedInterventions: map<int, Intervention>
    var activeInterventions: set<Flag>

    /** No document, empty tables, no intervention in use. */
    constructor ()
      ensures scenario == None && parameterValues == map[] && timedInterventions == map[]
      ensures activeInterventions == {} && !documentChanged && xmlFileName == ""
    {
      xmlFileName := "";
      documentChanged := false;
      scenario := None;
      parameterValues := map[];
      timedInterventions := map[];
      activeInterventions := {};
    }

    /** `initParameterValues`: the parameter loop over the scenario's entries. */
    method InitParameterValues(ps: seq<Parameter>) returns (err: Option<InputError>)
      modifies this
      ensures (parameterValues, err) == ParamsLoop(old(parameterValues), ps)
      ensures xmlFileName == old(xmlFileName) && documentChanged == old(documentChanged) && scenario == old(scenario)
      ensures timedInterventions == old(timedInterventions) && activeInterventions == old(activeInterventions)
    {
      var k := 0;
      while k < |ps|
        invariant 0 <= k <= |ps|
        invariant ParamsLoop(parameterValues, ps[k..]) == ParamsLoop(old(parameterValues), ps)
        invariant xmlFileName == old(xmlFileName) && documentChanged == old(documentChanged) && scenario == old(scenario)
        invariant timedInterventions == old(timedInterventions) && activeInterventions == old(activeInterventions)
      {
        assert ps[k..][1..] == ps[k + 1..];
        var i := ps[k].number;
        if i < 0 || i >= PARAMS_MAX {
          return Some(InvalidIndex(i));
        }
        if i in parameterValues {
          return Some(DescribedTwice(i));
        }
        parameterValues := parameterValues[i := ps[k].value];
        k := k + 1;
      }
      return None;
    }

    /** `initTimedInterventions`: the continuous flags, then the timed loop. */
    method InitTimedInterventions(sc: Scenario) returns (err: Option<InputError>)
      modifies this
      ensures (Timed(timedInterventions, activeInterventions), err)
              == TimedResult(Timed(old(timedInterventions), old(activeInterventions)), sc)
      ensures xmlFileName == old(xmlFileName) && documentChanged == old(documentChanged) && scenario == old(scenario)
      ensures parameterValues == old(parameterValues)
    {
      activeInterventions := activeInterventions + ContinuousFlags(sc.continuous);
      if sc.timed.None? {
        return None;
      }
      var ivs := sc.timed.value;
      var k := 0;
      while k < |ivs|
        invariant 0 <= k <= |ivs|
        invariant TimedLoop(Timed(timedInterventions, activeInterventions), ivs[k..])
                  == TimedResult(Timed(old(timedInterventions), old(activeInterventions)), sc)
        invariant xmlFileName == old(xmlFileName) && documentChanged == old(documentChanged) && scenario == old(scenario)
        invariant parameterValues == old(parameterValues)
      {
        assert ivs[k..][1..] == ivs[k + 1..];
        var iv := ivs[k];
        if iv.time in timedInterventions {
          return Some(MultipleTimed(iv.time));
        }
        timedInterventions := timedInterventions[iv.time := iv];
        activeInterventions := activeInterventions + FlagsOf(iv);
        k := k + 1;
      }
      return None;
    }

    /**
     * `createDocument` once the file is parsed (`doc` is None when it cannot
     * be opened): the version check, then the parameters, then the
     * interventions, each stopping at its first error.
     */
    method CreateDocument(fileName: string, doc: Option<Scenario>) returns (err: Option<InputError>)
      modifies this
      ensures xmlFileName == fileName && documentChanged == old(documentChanged)
      ensures doc.None? ==> err == Some(CannotOpen(fileName)) && scenario == old(scenario)
      ensures doc.Some? ==> scenario == doc
      ensures doc.None? || VersionError(fileName, doc.value.schemaVersion).Some? ==>
                parameterValues == old(parameterValues) && timedInterventions == old(timedInterventions)
                && activeInterventions == old(activeInterventions)
      ensures doc.Some? && VersionError(fileName, doc.value.schemaVersion).Some? ==>
                err == VersionError(fileName, doc.value.schemaVersion)
      ensures doc.Some? && doc.value.schemaVersion == SCHEMA_VERSION ==>
                var (pv, pe) := ParamsLoop(old(parameterValues), doc.value.parameters);
                && parameterValues == pv
                && (pe.Some? ==> err == pe && timedInterventions == old(timedInterventions)
                                 && activeInterventions == old(activeInterventions))
                && (pe.None? ==> (Timed(timedInterventions, activeInterventions), err)
                                 == TimedResult(Timed(old(timedInterventions), old(activeInterventions)), doc.value))
    {
      xmlFileName := fileName;
      if doc.None? {
        return Some(CannotOpen(fileName));
      }
      scenario := doc;
      var sc := doc.value;
      var version := VersionError(fileName, sc.schemaVersion);
      if version.Some? {
        return version;
      }
      err := InitParameterValues(sc.parameters);
      if err.Some? {
        return;
      }
      err := InitTimedInterventions(sc);
    }

    /** `saveDocument`: the file a changed document is written to, and the schema it names; nothing when unchanged. */
    function SaveTarget(): (r: Option<(string, string)>)
      reads this
      ensures r.Some? <==> documentChanged
      ensures r.Some? ==> r.value.1 == SCHEMA_FILE && |r.value.0| <= |xmlFileName|
    {
      BaseNameMeaning(xmlFileName);
      if documentChanged then Some((BaseName(xmlFileName), SCHEMA_FILE)) else None
    }

    /** `getParameter`: the described value, or the error for a parameter never described. */
    function GetParameter(i: int): (r: Got<real>)
      reads this
      ensures r.Got? <==> i in parameterValues
      ensures r.Raised? ==> r.error == NotDescribed(i)
    {
      if i in parameterValues then Got(parameterValues[i]) else Raised(NotDescribed(i))
    }

    /** `getInterventionByTime`: the intervention stored for that time, or none (a null result). */
    function InterventionAt(time: int): (r: Option<Intervention>)
      reads this
      ensures r.Some? <==> time in timedInterventions
    {
      if time in timedInterventions then Some(timedInterventions[time]) else None
    }
  }

  /**
   * Loaded from empty tables, each described parameter is returned with its
   * value by `getParameter`, every other index is an error, and each timed
   * intervention is found under its time.
   */
  lemma LoadedDocumentGetters(d: InputDataType, ps: seq<Parameter>, ivs: seq<Intervention>)
    requires ParamsLoop(map[], ps).1.None? && d.parameterValues == ParamsLoop(map[], ps).0
    requires TimedLoop(Timed(map[], {}), ivs).1.None? && d.timedInterventions == TimedLoop(Timed(map[], {}), ivs).0.byTime
    ensures forall k :: 0 <= k < |ps| ==> d.GetParameter(ps[k].number) == Got(ps[k].value)
    ensures forall i :: (forall k :: 0 <= k < |ps| ==> ps[k].number != i) ==> d.GetParameter(i) == Raised(NotDescribed(i))
    ensures forall k :: 0 <= k < |ivs| ==> d.InterventionAt(ivs[k].time) == Some(ivs[k])
  {
    ParamsLoopContents(map[], ps);
    TimedLoopContents(Timed(map[], {}), ivs);
  }
}
