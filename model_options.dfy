/**
 * `OptionCodeMap` and `ModelOptions::init` (openmalaria-647,
 * model/util/Options.cpp): the scenario's model options, their
 * incompatibilities, and the packed option word.
 *
 * An option code is its position in the code map's listing; the numeric
 * values of the `OptionCodes` enumeration come from ModelOptions.hpp, which
 * is not part of this model.
 */
module ModelOptions {
  import opened Wrappers

  const NUM_OPTIONS: nat := 24

  const PENALISATION_EPISODES: nat := 0
  const NEGATIVE_BINOMIAL_MASS_ACTION: nat := 1
  const ATTENUATION_ASEXUAL_DENSITY: nat := 2
  const LOGNORMAL_MASS_ACTION: nat := 3
  const NO_PRE_ERYTHROCYTIC: nat := 4
  const MAX_DENS_CORRECTION: nat := 5
  const INNATE_MAX_DENS: nat := 6
  const DUMMY_WITHIN_HOST_MODEL: nat := 7
  const PREDETERMINED_EPISODES: nat := 8
  const NON_MALARIA_FEVERS: nat := 9
  const INCLUDES_PK_PD: nat := 10
  const CLINICAL_EVENT_SCHEDULER: nat := 11
  const MUELLER_PRESENTATION_MODEL: nat := 12
  const TRANS_HET: nat := 13
  const COMORB_HET: nat := 14
  const TREAT_HET: nat := 15
  const COMORB_TRANS_HET: nat := 16
  const TRANS_TREAT_HET: nat := 17
  const COMORB_TREAT_HET: nat := 18
  const TRIPLE_HET: nat := 19
  const EMPIRICAL_WITHIN_HOST_MODEL: nat := 20
  const MOLINEAUX_WITHIN_HOST_MODEL: nat := 21
  const GARKI_DENSITY_BIAS: nat := 22
  const IPTI_SP_MODEL: nat := 23

  /** The name of each code, as the scenario file spells it. */
  const NAMES: seq<string> := [
    "PENALISATION_EPISODES", "NEGATIVE_BINOMIAL_MASS_ACTION", "ATTENUATION_ASEXUAL_DENSITY",
    "LOGNORMAL_MASS_ACTION", "NO_PRE_ERYTHROCYTIC", "MAX_DENS_CORRECTION", "INNATE_MAX_DENS",
    "DUMMY_WITHIN_HOST_MODEL", "PREDETERMINED_EPISODES", "NON_MALARIA_FEVERS", "INCLUDES_PK_PD",
    "CLINICAL_EVENT_SCHEDULER", "MUELLER_PRESENTATION_MODEL", "TRANS_HET", "COMORB_HET", "TREAT_HET",
    "COMORB_TRANS_HET", "TRANS_TREAT_HET", "COMORB_TREAT_HET", "TRIPLE_HET",
    "EMPIRICAL_WITHIN_HOST_MODEL", "MOLINEAUX_WITHIN_HOST_MODEL", "GARKI_DENSITY_BIAS", "IPTI_SP_MODEL"]

  /** `OptionCodeMap`'s table (MAX_DENS_RESET is not in it). */
  const CODE_MAP: map<string, nat> := map[
    "PENALISATION_EPISODES" := 0, "NEGATIVE_BINOMIAL_MASS_ACTION" := 1, "ATTENUATION_ASEXUAL_DENSITY" := 2,
    "LOGNORMAL_MASS_ACTION" := 3, "NO_PRE_ERYTHROCYTIC" := 4, "MAX_DENS_CORRECTION" := 5, "INNATE_MAX_DENS" := 6,
    "DUMMY_WITHIN_HOST_MODEL" := 7, "PREDETERMINED_EPISODES" := 8, "NON_MALARIA_FEVERS" := 9, "INCLUDES_PK_PD" := 10,
    "CLINICAL_EVENT_SCHEDULER" := 11, "MUELLER_PRESENTATION_MODEL" := 12, "TRANS_HET" := 13, "COMORB_HET" := 14,
    "TREAT_HET" := 15, "COMORB_TRANS_HET" := 16, "TRANS_TREAT_HET" := 17, "COMORB_TREAT_HET" := 18,
    "TRIPLE_HET" := 19, "EMPIRICAL_WITHIN_HOST_MODEL" := 20, "MOLINEAUX_WITHIN_HOST_MODEL" := 21,
    "GARKI_DENSITY_BIAS" := 22, "IPTI_SP_MODEL" := 23]

  /** `OptionCodeMap::operator[]`: the code of a name, or the scenario error for an unknown one. */
  function Lookup(name: string): (r: Result<nat>)
    ensures r.Ok? <==> name in CODE_MAP
    ensures r.Ok? ==> r.value < NUM_OPTIONS && ToString(r.value) == Ok(name)
  {
    CodesHaveNames();
    if name in CODE_MAP then Ok(CODE_MAP[name]) else Err("Unrecognised model option: " + name)
  }

  /** `OptionCodeMap::toString`: the name mapped to a code, or the error for a code no name has. */
  function ToString(code: nat): Result<string>
  {
    if code < |NAMES| then Ok(NAMES[code]) else Err("toString called with unknown code")
  }

  /** Every name maps to its own code. */
  lemma NamesHaveTheirCodes()
    ensures |NAMES| == NUM_OPTIONS
    ensures forall i :: 0 <= i < NUM_OPTIONS ==> NAMES[i] in CODE_MAP && CODE_MAP[NAMES[i]] == i
  {
  }

  lemma KeysAreNames()
    ensures forall s :: s in CODE_MAP ==> s in NAMES
  {
  }

  /** Each name of the map is the `toString` of its code. */
  lemma CodesHaveNames()
    ensures forall s :: s in CODE_MAP ==> CODE_MAP[s] < NUM_OPTIONS && ToString(CODE_MAP[s]) == Ok(s)
  {
    NamesHaveTheirCodes();
    KeysAreNames();
    forall s | s in CODE_MAP
      ensures CODE_MAP[s] < NUM_OPTIONS && ToString(CODE_MAP[s]) == Ok(s)
    {
      var i :| 0 <= i < |NAMES| && NAMES[i] == s;
    }
  }

  /**
   * The two directions of the code map agree: `toString` of a looked-up
   * code gives the name back, and the only name of a code is its
   * `toString`, so the reverse lookup does not depend on the map's order.
   */
  lemma CodeMapRoundTrip()
    ensures forall s :: s in CODE_MAP ==> Lookup(s).Ok? && ToString(Lookup(s).value) == Ok(s)
    ensures forall i :: 0 <= i < NUM_OPTIONS ==> Lookup(NAMES[i]) == Ok(i) && ToString(i) == Ok(NAMES[i])
    ensures forall c :: c >= NUM_OPTIONS ==> ToString(c).Err?
  {
    NamesHaveTheirCodes();
  }

  // ----- reading the scenario's options -----

  /** One `<option name=... value=...>` of the scenario. */
  datatype OptionEntry = OptionEntry(name: string, value: bool)

  /** The defaults: MAX_DENS_CORRECTION only. */
  const DEFAULTS: seq<bool> := [false, false, false, false, false, true] + Falses(NUM_OPTIONS - 6)

  function Falses(n: nat): (r: seq<bool>)
    ensures |r| == n && forall k :: 0 <= k < n ==> !r[k]
  {
    if n == 0 then [] else [false] + Falses(n - 1)
  }

  /** Only MAX_DENS_CORRECTION is on by default. */
  lemma DefaultsMeaning()
    ensures |DEFAULTS| == NUM_OPTIONS
    ensures forall k :: 0 <= k < NUM_OPTIONS ==> (DEFAULTS[k] <==> k == MAX_DENS_CORRECTION)
  {
  }

  /** The option bits after the scenario's entries, each later entry overriding. */
  function Applied(entries: seq<OptionEntry>): (r: Result<seq<bool>>)
    ensures r.Ok? ==> |r.value| == NUM_OPTIONS
  {
    if entries == [] then Ok(DEFAULTS)
    else
      var last := entries[|entries| - 1];
      match Applied(entries[..|entries| - 1])
      case Err(m) => Err(m)
      case Ok(bs) =>
        match Lookup(last.name)
        case Err(m) => Err(m)
        case Ok(code) => Ok(bs[code := last.value])
  }

  /** The value the last entry naming `code` gives it, if any names it. */
  function LastValue(entries: seq<OptionEntry>, code: nat): Option<bool>
  {
    if entries == [] then None
    else
      var last := entries[|entries| - 1];
      if last.name in CODE_MAP && CODE_MAP[last.name] == code then Some(last.value)
      else LastValue(entries[..|entries| - 1], code)
  }

  /** Each option takes the value of the last entry naming it, or its default. */
  lemma {:induction false} LastEntryWins(entries: seq<OptionEntry>, code: nat)
    requires Applied(entries).Ok? && code < NUM_OPTIONS
    ensures Applied(entries).value[code] ==
              match LastValue(entries, code) case Some(v) => v case None => DEFAULTS[code]
  {
    if entries != [] {
      LastEntryWins(entries[..|entries| - 1], code);
    }
  }

  /** The entries are rejected iff one of them has an unknown name. */
  lemma {:induction false} AppliedFailsIff(entries: seq<OptionEntry>)
    ensures Applied(entries).Err? <==> exists k :: 0 <= k < |entries| && entries[k].name !in CODE_MAP
  {
    if entries != [] {
      var front := entries[..|entries| - 1];
      AppliedFailsIff(front);
      if Applied(front).Err? {
        var k :| 0 <= k < |front| && front[k].name !in CODE_MAP;
        assert entries[k] == front[k];
      } else if entries[|entries| - 1].name in CODE_MAP {
        forall k | 0 <= k < |entries|
          ensures entries[k].name in CODE_MAP
        {
          if k < |front| { assert entries[k] == front[k]; }
        }
      }
    }
  }

  // ----- incompatibilities -----

  /** The incompatibility triangle: the options each option may not be combined with. */
  function Incompatible(i: nat): (r: set<nat>)
    ensures forall j :: j in r ==> i < j < NUM_OPTIONS
  {
    if i == NEGATIVE_BINOMIAL_MASS_ACTION then
      {LOGNORMAL_MASS_ACTION, TRANS_HET, COMORB_TRANS_HET, TRANS_TREAT_HET, TRIPLE_HET}
    else if i == LOGNORMAL_MASS_ACTION then {TRANS_HET, COMORB_TRANS_HET, TRANS_TREAT_HET, TRIPLE_HET}
    else if i == ATTENUATION_ASEXUAL_DENSITY then {INCLUDES_PK_PD, DUMMY_WITHIN_HOST_MODEL, EMPIRICAL_WITHIN_HOST_MODEL}
    else if i == INNATE_MAX_DENS then {DUMMY_WITHIN_HOST_MODEL, EMPIRICAL_WITHIN_HOST_MODEL, MOLINEAUX_WITHIN_HOST_MODEL}
    else if i == DUMMY_WITHIN_HOST_MODEL then {EMPIRICAL_WITHIN_HOST_MODEL, MOLINEAUX_WITHIN_HOST_MODEL, IPTI_SP_MODEL}
    else if i == EMPIRICAL_WITHIN_HOST_MODEL then {MOLINEAUX_WITHIN_HOST_MODEL, IPTI_SP_MODEL}
    else if i == MOLINEAUX_WITHIN_HOST_MODEL then {IPTI_SP_MODEL}
    else if i == NON_MALARIA_FEVERS then {MUELLER_PRESENTATION_MODEL}
    else if i == TRANS_HET || i == COMORB_HET || i == TREAT_HET then
      {COMORB_TRANS_HET, TRANS_TREAT_HET, COMORB_TREAT_HET, TRIPLE_HET}
    else if i == COMORB_TRANS_HET then {TRANS_TREAT_HET, COMORB_TREAT_HET, TRIPLE_HET}
    else if i == TRANS_TREAT_HET then {COMORB_TREAT_HET, TRIPLE_HET}
    else if i == COMORB_TREAT_HET then {TRIPLE_HET}
    else {}
  }

  /** Option i is set and meets one of the options it is incompatible with. */
  predicate Conflicting(bs: seq<bool>, i: nat)
    requires |bs| == NUM_OPTIONS
  {
    i < NUM_OPTIONS && bs[i] && exists j :: j in Incompatible(i) && bs[j]
  }

  predicate Compatible(bs: seq<bool>)
    requires |bs| == NUM_OPTIONS
  {
    forall i :: 0 <= i < NUM_OPTIONS ==> !Conflicting(bs, i)
  }

  /** The check is symmetric: two set options clash iff either lists the other. */
  lemma CompatibleIff(bs: seq<bool>)
    requires |bs| == NUM_OPTIONS
    ensures Compatible(bs) <==> forall i, j :: 0 <= i < NUM_OPTIONS && 0 <= j < NUM_OPTIONS && bs[i] && bs[j] ==>
                                  j !in Incompatible(i) && i !in Incompatible(j)
  {
    if Compatible(bs) {
      forall i, j | 0 <= i < NUM_OPTIONS && 0 <= j < NUM_OPTIONS && bs[i] && bs[j]
        ensures j !in Incompatible(i) && i !in Incompatible(j)
      {
        assert !Conflicting(bs, i) && !Conflicting(bs, j);
      }
    }
  }

  /** The first option, from i on, whose check fails; NUM_OPTIONS when none does. */
  function FirstConflict(bs: seq<bool>, i: nat): (r: nat)
    requires |bs| == NUM_OPTIONS && i <= NUM_OPTIONS
    ensures i <= r <= NUM_OPTIONS
    ensures r < NUM_OPTIONS ==> Conflicting(bs, r)
    ensures forall k :: i <= k < r ==> !Conflicting(bs, k)
    decreases NUM_OPTIONS - i
  {
    if i == NUM_OPTIONS then i else if Conflicting(bs, i) then i else FirstConflict(bs, i + 1)
  }

  /** "=1": how a set bit of the bitset prints. */
  function Flag(i: nat): string
    requires i < NUM_OPTIONS
  {
    NamesHaveTheirCodes();
    NAMES[i] + "=1"
  }

  /** The options a failed check lists: those of `inc` that are set, in order (from j on). */
  function Clashes(bs: seq<bool>, inc: set<nat>, j: nat): (r: seq<nat>)
    requires |bs| == NUM_OPTIONS && j <= NUM_OPTIONS
    ensures forall k :: 0 <= k < |r| ==> j <= r[k] < NUM_OPTIONS && r[k] in inc && bs[r[k]]
    ensures forall k :: j <= k < NUM_OPTIONS && k in inc && bs[k] ==> k in r
    decreases NUM_OPTIONS - j
  {
    if j == NUM_OPTIONS then []
    else (if j in inc && bs[j] then [j] else []) + Clashes(bs, inc, j + 1)
  }

  /** The message's list, one tab-separated entry per listed code. */
  function Listing(codes: seq<nat>): string
    requires forall k :: 0 <= k < |codes| ==> codes[k] < NUM_OPTIONS
  {
    if codes == [] then "" else "\t" + Flag(codes[0]) + Listing(codes[1..])
  }

  function Header(i: nat): string
    requires i < NUM_OPTIONS
  {
    "Incompatible model options: " + Flag(i) + " is incompatible with flags:"
  }

  /** n copies of code i. */
  function Repeat(i: nat, n: nat): (r: seq<nat>)
    ensures |r| == n && forall k :: 0 <= k < |r| ==> r[k] == i
  {
    if n == 0 then [] else [i] + Repeat(i, n - 1)
  }

  /** The message as written: each clashing flag is printed with option i's name instead of its own. */
  function IncompatMessageAsWritten(bs: seq<bool>, i: nat): string
    requires |bs| == NUM_OPTIONS && i < NUM_OPTIONS
  {
    Header(i) + Listing(Repeat(i, |Clashes(bs, Incompatible(i), 0)|))
  }

  /** The message listing the flags that clash with option i. */
  function IncompatMessage(bs: seq<bool>, i: nat): string
    requires |bs| == NUM_OPTIONS && i < NUM_OPTIONS
  {
    Header(i) + Listing(Clashes(bs, Incompatible(i), 0))
  }

  /**
   * The message as written never names a clashing flag: it repeats option i,
   * which is never incompatible with itself. The corrected one lists exactly
   * the clashing flags.
   */
  lemma AsWrittenMessageNamesNoClash(bs: seq<bool>, i: nat)
    requires |bs| == NUM_OPTIONS && Conflicting(bs, i)
    ensures var listed := Repeat(i, |Clashes(bs, Incompatible(i), 0)|);
            && |listed| > 0
            && forall k :: 0 <= k < |listed| ==> listed[k] !in Incompatible(i)
    ensures forall k :: k in Clashes(bs, Incompatible(i), 0) <==> k in Incompatible(i) && bs[k]
  {
    var j :| j in Incompatible(i) && bs[j];
    assert j in Clashes(bs, Incompatible(i), 0);
  }

  /** The scenario's bits with both the negative binomial and the log-normal mass action models. */
  function MassActionClash(): (bs: seq<bool>)
    ensures |bs| == NUM_OPTIONS
  {
    DefaultsMeaning();
    DEFAULTS[NEGATIVE_BINOMIAL_MASS_ACTION := true][LOGNORMAL_MASS_ACTION := true]
  }

  /** With both mass action models, the negative binomial one fails the check first, clashing with the log-normal one only. */
  lemma MassActionClashes()
    ensures FirstConflict(MassActionClash(), 0) == NEGATIVE_BINOMIAL_MASS_ACTION
    ensures Clashes(MassActionClash(), Incompatible(NEGATIVE_BINOMIAL_MASS_ACTION), 0) == [LOGNORMAL_MASS_ACTION]
  {
    var bs := MassActionClash();
    DefaultsMeaning();
    assert bs[LOGNORMAL_MASS_ACTION] && bs[NEGATIVE_BINOMIAL_MASS_ACTION];
    assert !bs[PENALISATION_EPISODES];
    assert Conflicting(bs, NEGATIVE_BINOMIAL_MASS_ACTION);
    var inc := Incompatible(NEGATIVE_BINOMIAL_MASS_ACTION);
    assert forall k :: k in inc && bs[k] ==> k == LOGNORMAL_MASS_ACTION;
    ClashesOnly(bs, inc, 0, LOGNORMAL_MASS_ACTION);
  }

  /** When m is the only option of `inc` from j on that is set, the list is just m. */
  lemma {:induction false} ClashesOnly(bs: seq<bool>, inc: set<nat>, j: nat, m: nat)
    requires |bs| == NUM_OPTIONS && j <= m < NUM_OPTIONS && m in inc && bs[m]
    requires forall k :: j <= k < NUM_OPTIONS && k in inc && bs[k] ==> k == m
    ensures Clashes(bs, inc, j) == [m]
    decreases m - j
  {
    if j < m {
      ClashesOnly(bs, inc, j + 1, m);
    }
  }

  /**
   * With both mass action models, the message as written lists the negative
   * binomial model once more and never the log-normal one it clashes with;
   * the corrected message lists the log-normal one.
   */
  lemma MassActionClashMessage()
    ensures IncompatMessageAsWritten(MassActionClash(), NEGATIVE_BINOMIAL_MASS_ACTION) ==
              Header(NEGATIVE_BINOMIAL_MASS_ACTION) + ("\t" + Flag(NEGATIVE_BINOMIAL_MASS_ACTION))
    ensures IncompatMessage(MassActionClash(), NEGATIVE_BINOMIAL_MASS_ACTION) ==
              Header(NEGATIVE_BINOMIAL_MASS_ACTION) + ("\t" + Flag(LOGNORMAL_MASS_ACTION))
    ensures Flag(NEGATIVE_BINOMIAL_MASS_ACTION) != Flag(LOGNORMAL_MASS_ACTION)
  {
    MassActionClashes();
    SingleClashMessages(MassActionClash(), NEGATIVE_BINOMIAL_MASS_ACTION, LOGNORMAL_MASS_ACTION);
    MassActionFlagsDiffer();
  }

  lemma MassActionFlagsDiffer()
    ensures Flag(NEGATIVE_BINOMIAL_MASS_ACTION) != Flag(LOGNORMAL_MASS_ACTION)
  {
    assert |Flag(NEGATIVE_BINOMIAL_MASS_ACTION)| == |NAMES[NEGATIVE_BINOMIAL_MASS_ACTION]| + 2;
    assert |Flag(LOGNORMAL_MASS_ACTION)| == |NAMES[LOGNORMAL_MASS_ACTION]| + 2;
  }

  /** When option i clashes with m alone, the two messages each carry one entry: i's as written, m's corrected. */
  lemma SingleClashMessages(bs: seq<bool>, i: nat, m: nat)
    requires |bs| == NUM_OPTIONS && i < NUM_OPTIONS && Clashes(bs, Incompatible(i), 0) == [m]
    ensures IncompatMessageAsWritten(bs, i) == Header(i) + ("\t" + Flag(i))
    ensures IncompatMessage(bs, i) == Header(i) + ("\t" + Flag(m))
  {
    var c := Clashes(bs, Incompatible(i), 0);
    assert c[0] == m;
    assert Repeat(i, |c|) == [i];
    ListingOne(i);
    ListingOne(m);
  }

  lemma ListingOne(c: nat)
    requires c < NUM_OPTIONS
    ensures Listing([c]) == "\t" + Flag(c)
  {
    var codes: seq<nat> := [c];
    assert codes[1..] == [];
  }

  /** The listed clashes are strictly increasing, so none is listed twice. */
  lemma {:induction false} ClashesAreSorted(bs: seq<bool>, inc: set<nat>, j: nat)
    requires |bs| == NUM_OPTIONS && j <= NUM_OPTIONS
    ensures Increasing(Clashes(bs, inc, j))
    decreases NUM_OPTIONS - j
  {
    if j < NUM_OPTIONS {
      ClashesAreSorted(bs, inc, j + 1);
      ClashesSortedStep(bs, inc, j);
    }
  }

  /** Strictly increasing codes. */
  predicate Increasing(s: seq<nat>)
  {
    forall a, b :: 0 <= a < b < |s| ==> s[a] < s[b]
  }

  /** Putting j in front of the clashes from j + 1 on keeps them increasing. */
  lemma ClashesSortedStep(bs: seq<bool>, inc: set<nat>, j: nat)
    requires |bs| == NUM_OPTIONS && j < NUM_OPTIONS
    requires Increasing(Clashes(bs, inc, j + 1))
    ensures Increasing(Clashes(bs, inc, j))
  {
    var rest := Clashes(bs, inc, j + 1);
    var c := Clashes(bs, inc, j);
    if j in inc && bs[j] {
      assert c == [j] + rest;
      forall a, b | 0 <= a < b < |c|
        ensures c[a] < c[b]
      {
        assert c[b] == rest[b - 1];
        if a > 0 { assert c[a] == rest[a - 1]; }
      }
    } else {
      assert c == rest;
    }
  }

  /** INNATE_MAX_DENS needs MAX_DENS_CORRECTION. */
  predicate RequiredPresent(bs: seq<bool>)
    requires |bs| == NUM_OPTIONS
  {
    bs[INNATE_MAX_DENS] ==> bs[MAX_DENS_CORRECTION]
  }

  // ----- the packed word -----

  function Pow2(n: nat): (r: nat)
    ensures r >= 1
  {
    if n == 0 then 1 else 2 * Pow2(n - 1)
  }

  /** The word with bit k set iff bs[k]. */
  function BitsValue(bs: seq<bool>): nat
  {
    if bs == [] then 0 else (if bs[0] then 1 else 0) + 2 * BitsValue(bs[1..])
  }

  /** Bit k of v. */
  predicate TestBit(v: nat, k: nat)
  {
    if k == 0 then v % 2 == 1 else TestBit(v / 2, k - 1)
  }

  /** Setting the next bit adds its power of two, as `optSet |= 1 << i` does on a word below it. */
  lemma {:induction false} BitsValueAppend(bs: seq<bool>, b: bool)
    ensures BitsValue(bs + [b]) == BitsValue(bs) + (if b then Pow2(|bs|) else 0)
  {
    if bs != [] {
      assert (bs + [b])[1..] == bs[1..] + [b];
      BitsValueAppend(bs[1..], b);
    }
  }

  /** The word holds bit k iff option k is set, and nothing above the options. */
  lemma {:induction false} BitsValueBits(bs: seq<bool>, k: nat)
    requires k < |bs|
    ensures TestBit(BitsValue(bs), k) <==> bs[k]
    ensures BitsValue(bs) < Pow2(|bs|)
    decreases k
  {
    var low := if bs[0] then 1 else 0;
    assert (low + 2 * BitsValue(bs[1..])) / 2 == BitsValue(bs[1..]);
    if k > 0 {
      BitsValueBits(bs[1..], k - 1);
    } else {
      BitsValueBound(bs);
    }
  }

  lemma {:induction false} BitsValueBound(bs: seq<bool>)
    ensures BitsValue(bs) < Pow2(|bs|)
  {
    if bs != [] {
      BitsValueBound(bs[1..]);
    }
  }

  /** The option word fits the 32-bit `optSet`. */
  lemma OptionWordFits(bs: seq<bool>)
    requires |bs| == NUM_OPTIONS
    ensures BitsValue(bs) < Pow2(32)
  {
    BitsValueBound(bs);
    Pow2Monotone(NUM_OPTIONS, 32);
  }

  lemma {:induction false} Pow2Monotone(a: nat, b: nat)
    requires a <= b
    ensures Pow2(a) <= Pow2(b)
    decreases b
  {
    if a < b {
      Pow2Monotone(a, b - 1);
    }
  }

  /** `ModelOptions`'s static option word. */
  class ModelOptions {
    var optSet: nat

    constructor ()
      ensures optSet == 0
    {
      optSet := 0;
    }

    /**
     * `init`: the defaults overridden by the scenario's entries, then the
     * incompatibility check in code order, the requirement of INNATE_MAX_DENS,
     * and the packed word. On an error the word is left as it was. An
     * incompatibility is reported with the corrected message, which names the
     * clashing options (`IncompatMessage`, not `IncompatMessageAsWritten`).
     */
    method Init(entries: seq<OptionEntry>) returns (r: Result<()>)
      modifies this
      ensures Applied(entries).Err? ==> r == Err(Applied(entries).msg) && optSet == old(optSet)
      ensures Applied(entries).Ok? ==>
                var bs := Applied(entries).value;
                && (r.Ok? <==> Compatible(bs) && RequiredPresent(bs))
                && (r.Ok? ==> optSet == BitsValue(bs))
                && (r.Err? ==> optSet == old(optSet))
                && (!Compatible(bs) ==> r == Err(IncompatMessage(bs, FirstConflict(bs, 0))))
                && (Compatible(bs) && !RequiredPresent(bs) ==> r == Err("INNATE_MAX_DENS requires MAX_DENS_CORRECTION"))
    {
      var applied := ApplyEntries(entries);
      if applied.Err? {
        return Err(applied.msg);
      }
      var bs := applied.value;
      var i := FirstIncompatible(bs);
      if i < NUM_OPTIONS {
        return Err(IncompatMessage(bs, i));
      }
      if bs[INNATE_MAX_DENS] && !bs[MAX_DENS_CORRECTION] {
        return Err("INNATE_MAX_DENS requires MAX_DENS_CORRECTION");
      }
      optSet := Pack(bs);
      return Ok(());
    }
  }

  /** The loop over the scenario's entries. */
  method ApplyEntries(entries: seq<OptionEntry>) returns (r: Result<seq<bool>>)
    ensures r == Applied(entries)
  {
    var bs := DEFAULTS;
    var k := 0;
    while k < |entries|
      invariant 0 <= k <= |entries|
      invariant Applied(entries[..k]) == Ok(bs)
    {
      assert entries[..k + 1][..k] == entries[..k];
      var code := Lookup(entries[k].name);
      if code.Err? {
        AppliedPrefixFails(entries, k + 1);
        return Err(code.msg);
      }
      bs := bs[code.value := entries[k].value];
      k := k + 1;
    }
    assert entries[..k] == entries;
    return Ok(bs);
  }

  /** The incompatibility loop: the first option whose check fails, NUM_OPTIONS when none does. */
  method FirstIncompatible(bs: seq<bool>) returns (i: nat)
    requires |bs| == NUM_OPTIONS
    ensures i == FirstConflict(bs, 0)
    ensures i == NUM_OPTIONS <==> Compatible(bs)
  {
    i := 0;
    while i < NUM_OPTIONS
      invariant 0 <= i <= NUM_OPTIONS
      invariant FirstConflict(bs, 0) == FirstConflict(bs, i)
    {
      if bs[i] && exists j :: j in Incompatible(i) && bs[j] {
        return;
      }
      i := i + 1;
    }
  }

  /** The loop packing the bits into the word, `optSet |= 1 << i` for each set bit. */
  method Pack(bs: seq<bool>) returns (word: nat)
    ensures word == BitsValue(bs)
    ensures forall k :: 0 <= k < |bs| ==> (TestBit(word, k) <==> bs[k])
  {
    word := 0;
    var i := 0;
    while i < |bs|
      invariant 0 <= i <= |bs|
      invariant word == BitsValue(bs[..i])
    {
      assert bs[..i + 1] == bs[..i] + [bs[i]];
      BitsValueAppend(bs[..i], bs[i]);
      if bs[i] {
        word := word + Pow2(i);
      }
      i := i + 1;
    }
    assert bs[..i] == bs;
    forall k | 0 <= k < |bs|
      ensures TestBit(word, k) <==> bs[k]
    {
      BitsValueBits(bs, k);
    }
  }

  /** Once a prefix of the entries is rejected, so are the entries. */
  lemma {:induction false} AppliedPrefixFails(entries: seq<OptionEntry>, n: nat)
    requires n <= |entries| && Applied(entries[..n]).Err?
    ensures Applied(entries) == Applied(entries[..n])
    decreases |entries| - n
  {
    if n < |entries| {
      assert entries[..n + 1][..n] == entries[..n];
      AppliedPrefixFails(entries, n + 1);
    } else {
      assert entries[..n] == entries;
    }
  }
}
