/**
 * `OldCaseManagement` (openmalaria-626): the five-day case-management model
 * in the version that still reads its own health system. Besides the
 * per-regimen tables it shares with the later version, it keeps the
 * health-system memory, the case fatality rates by age group (interpolated
 * between group lower bounds) and the regimen of each human's last
 * treatment.
 */
module OldCaseManagement626 {
  import opened Wrappers
  import opened Global
  import opened Pathogenesis
  import opened Probability
  import Old = OldCaseManagement639
  import Common = CaseManagementCommon

  /** The lower age bounds, in years, that select the two sequelae groups. */
  const SEQUELAE_AGE_BOUND: seq<real> := [1.0, 10.0]

  /** The age, in years, from which `severeMalaria` treats a human as an adult. */
  const ADULT_AGE: real := 5.0

  const MEMORY_ERROR := "Change of health system had a different healthSystemMemory"
  const SEQUELAE_ITEM_ERROR := "In scenario.xml: healthSystem: pSequelaeInpatient: expected item with maxAgeYrs > 10"

  /** One CFR age group: its lower bound and its case fatality rate. */
  datatype CfrGroup = CfrGroup(lowerbound: real, cfr: real)

  /**
   * A health system of this version: its memory, the immediate-outcome data
   * (held on the health system itself), and its CFR groups.
   */
  datatype HealthSystem = HealthSystem(healthSystemMemory: int, outcomes: Old.ImmediateOutcomes, cfr: seq<CfrGroup>)

  /** An age bound of the CFR table; the last one is infinite. */
  datatype Bound = Fin(age: real) | PosInf

  predicate AtOrBelow(b: Bound, x: real)
  {
    b.Fin? && b.age <= x
  }

  /** `getNextRegimen`: 3 for a severe case, 2 within the memory of the last treatment, 1 otherwise. */
  function NextRegimen(now: int, diagnosis: set<Flag>, tLastTreated: int, memory: int): (r: nat)
    ensures 1 <= r <= 3
    ensures r == 3 <==> diagnosis == StateSevere
    ensures r == 2 <==> diagnosis != StateSevere && tLastTreated + memory > now
  {
    if diagnosis == StateSevere then 3
    else if tLastTreated + memory > now then 2
    else 1
  }

  /** The position of the first item whose upper bound is above `bound`, if any. */
  function FirstAbove(items: seq<Old.AgeItem>, bound: real): (r: Option<nat>)
    ensures r.Some? ==> r.value < |items| && items[r.value].maxAgeYrs > bound
    ensures r.Some? ==> forall j | 0 <= j < r.value :: items[j].maxAgeYrs <= bound
    ensures r.None? ==> forall j | 0 <= j < |items| :: items[j].maxAgeYrs <= bound
  {
    if |items| == 0 then None
    else if items[0].maxAgeYrs > bound then Some(0)
    else match FirstAbove(items[1..], bound)
      case None => None
      case Some(k) => Some(k + 1)
  }

  /** The position of the first bound above `x`, or the end. */
  function FirstNotBelow(ages: seq<Bound>, x: real): (i: nat)
    ensures i <= |ages|
    ensures forall j | 0 <= j < i :: AtOrBelow(ages[j], x)
    ensures i < |ages| ==> !AtOrBelow(ages[i], x)
  {
    if |ages| == 0 || !AtOrBelow(ages[0], x) then 0
    else 1 + FirstNotBelow(ages[1..], x)
  }

  /** The shape `readCaseFatalityRatio` gives the table: from 0, one bound per group, then infinity. */
  predicate CfrShape(ages: seq<Bound>, rates: seq<real>)
  {
    && |ages| == |rates| >= 2
    && ages[0] == Fin(0.0) && ages[|ages| - 1] == PosInf
    && forall i | 0 <= i < |ages| - 1 :: ages[i].Fin?
  }

  /**
   * The rate `caseFatality` computes: none without mortality; otherwise
   * interpolated between the last bound at or below the age and the next,
   * and the last group's rate beyond the last finite bound.
   */
  function CaseFatalityOf(ages: seq<Bound>, rates: seq<real>, noMortality: bool, ageYears: real): (r: real)
    requires CfrShape(ages, rates) && ageYears >= 0.0
    ensures var i := FirstNotBelow(ages, ageYears);
            && 1 <= i < |ages|
            && (!noMortality && ages[i] == PosInf ==> r == rates[i - 1])
            && (!noMortality && ages[i].Fin? ==> ages[i - 1].age <= ageYears < ages[i].age)
  {
    var i := FirstNotBelow(ages, ageYears);
    if noMortality then 0.0
    else match ages[i]
      case PosInf => rates[i - 1]
      case Fin(a1) => Common.Interpolate(ages[i - 1].age, rates[i - 1], a1, rates[i], ageYears)
  }

  /** With every rate a probability, so is the rate computed for any age. */
  lemma CaseFatalityOfUnit(ages: seq<Bound>, rates: seq<real>, noMortality: bool, ageYears: real)
    requires CfrShape(ages, rates) && ageYears >= 0.0
    requires forall j | 0 <= j < |rates| :: Unit(rates[j])
    ensures Unit(CaseFatalityOf(ages, rates, noMortality, ageYears))
  {
    var i := FirstNotBelow(ages, ageYears);
    if !noMortality && ages[i].Fin? {
      assert Unit(rates[i - 1]) && Unit(rates[i]);
      Common.InterpolateBetween(ages[i - 1].age, rates[i - 1], ages[i].age, rates[i], ageYears);
    }
  }

  /** At or beyond every finite bound the rate is the last group's. */
  lemma CaseFatalityOfOldest(ages: seq<Bound>, rates: seq<real>, ageYears: real)
    requires CfrShape(ages, rates) && ageYears >= 0.0
    requires forall j | 0 <= j < |ages| - 1 :: ages[j].age <= ageYears
    ensures CaseFatalityOf(ages, rates, false, ageYears) == rates[|rates| - 2]
  {
  }

  /** The static tables of `OldCaseManagement` in this version, and `Episode::healthSystemMemory` it sets. */
  class HealthSystemTables {
    var healthSystemSource: int
    var healthSystemMemory: int
    var oddsRatioThreshold: real
    var noMortality: bool
    var inputAge: seq<Bound>
    var caseFatalityRate: seq<real>
    var cureRate: seq<real>
    var probGetsTreatment: seq<real>
    var probParasitesCleared: seq<real>
    var probSequelaeTreated: seq<real>
    var probSequelaeUntreated: seq<real>

    /** The fixed-size arrays: three regimens, two sequelae groups. */
    predicate Valid()
      reads this
    {
      && |cureRate| == 3 && |probGetsTreatment| == 3 && |probParasitesCleared| == 3
      && |probSequelaeTreated| == 2 && |probSequelaeUntreated| == 2
    }

    predicate CfrValid()
      reads this
    {
      CfrShape(inputAge, caseFatalityRate)
    }

    /** Statics start zeroed and the CFR vectors empty. */
    constructor ()
      ensures Valid()
      ensures healthSystemSource == 0 && healthSystemMemory == 0 && oddsRatioThreshold == 0.0 && !noMortality
      ensures inputAge == [] && caseFatalityRate == []
      ensures cureRate == probGetsTreatment == probParasitesCleared == [0.0, 0.0, 0.0]
      ensures probSequelaeTreated == probSequelaeUntreated == [0.0, 0.0]
    {
      healthSystemSource, healthSystemMemory, oddsRatioThreshold, noMortality := 0, 0, 0.0, false;
      inputAge, caseFatalityRate := [], [];
      cureRate, probGetsTreatment, probParasitesCleared := [0.0, 0.0, 0.0], [0.0, 0.0, 0.0], [0.0, 0.0, 0.0];
      probSequelaeTreated, probSequelaeUntreated := [0.0, 0.0], [0.0, 0.0];
    }

    /**
     * `readCaseFatalityRatio`: one bound and rate per group, the first
     * bound forced to 0, an infinite bound after the last group carrying the
     * last rate; no mortality iff there is one group, with rate 0. With no
     * group the source reads before the start of its vector, so the model
     * asks for one.
     */
    method ReadCaseFatalityRatio(groups: seq<CfrGroup>)
      requires |groups| >= 1
      modifies this
      ensures CfrValid()
      ensures var n := |groups|;
              && |inputAge| == n + 1 && inputAge[0] == Fin(0.0) && inputAge[n] == PosInf
              && (forall i | 0 < i < n :: inputAge[i] == Fin(groups[i].lowerbound))
              && |caseFatalityRate| == n + 1 && caseFatalityRate[n] == groups[n - 1].cfr
              && (forall i | 0 <= i < n :: caseFatalityRate[i] == groups[i].cfr)
      ensures noMortality <==> |groups| == 1 && groups[0].cfr == 0.0
      ensures && healthSystemSource == old(healthSystemSource) && healthSystemMemory == old(healthSystemMemory)
              && oddsRatioThreshold == old(oddsRatioThreshold)
              && cureRate == old(cureRate) && probGetsTreatment == old(probGetsTreatment)
              && probParasitesCleared == old(probParasitesCleared)
              && probSequelaeTreated == old(probSequelaeTreated) && probSequelaeUntreated == old(probSequelaeUntreated)
    {
      var n := |groups|;
      var ages: seq<Bound> := [];
      var rates: seq<real> := [];
      for i := 0 to n
        invariant |ages| == i && |rates| == i
        invariant forall j | 0 <= j < i :: ages[j] == Fin(groups[j].lowerbound) && rates[j] == groups[j].cfr
      {
        ages := ages + [Fin(groups[i].lowerbound)];
        rates := rates + [groups[i].cfr];
      }
      ages := ages[0 := Fin(0.0)] + [PosInf];
      rates := rates + [rates[n - 1]];
      inputAge, caseFatalityRate := ages, rates;
      noMortality := n == 1 && caseFatalityRate[0] == 0.0;
    }

    /** `caseFatality`: the source assumes a non-negative age; the loop finds the first bound above it. */
    method CaseFatality(ageYears: real) returns (r: real)
      requires CfrValid() && ageYears >= 0.0
      ensures r == CaseFatalityOf(inputAge, caseFatalityRate, noMortality, ageYears)
    {
      if noMortality {
        return 0.0;
      }
      var i := 0;
      while AtOrBelow(inputAge[i], ageYears)
        invariant 0 <= i < |inputAge|
        invariant forall j | 0 <= j < i :: AtOrBelow(inputAge[j], ageYears)
        decreases |inputAge| - i
      {
        i := i + 1;
      }
      var a0 := inputAge[i - 1].age;
      var f0 := caseFatalityRate[i - 1];
      match inputAge[i]
      case PosInf =>
        r := f0;
      case Fin(a1) =>
        r := (ageYears - a0) / (a1 - a0) * (caseFatalityRate[i] - f0) + f0;
    }

    /** Every CFR is a probability and the odds ratio is positive, as `exp` makes it. */
    predicate RatesUnit()
      reads this
    {
      (forall j | 0 <= j < |caseFatalityRate| :: Unit(caseFatalityRate[j])) && oddsRatioThreshold > 0.0
    }

    /**
     * The pSequelaeInpatient loop of `setHealthSystem`: each group takes
     * the value of the first item whose upper bound is above the group's
     * bound, for treated and untreated alike; a group with no such item is
     * refused.
     */
    method ReadSequelae(items: seq<Old.AgeItem>) returns (err: Option<string>)
      requires Valid()
      modifies this
      ensures Valid()
      ensures err.None? <==> FirstAbove(items, SEQUELAE_AGE_BOUND[0]).Some? && FirstAbove(items, SEQUELAE_AGE_BOUND[1]).Some?
      ensures err.Some? ==> err.value == SEQUELAE_ITEM_ERROR
      ensures err.None? ==>
                probSequelaeTreated == probSequelaeUntreated
                == [items[FirstAbove(items, SEQUELAE_AGE_BOUND[0]).value].value,
                    items[FirstAbove(items, SEQUELAE_AGE_BOUND[1]).value].value]
      ensures && healthSystemSource == old(healthSystemSource) && healthSystemMemory == old(healthSystemMemory)
              && oddsRatioThreshold == old(oddsRatioThreshold) && noMortality == old(noMortality)
              && inputAge == old(inputAge) && caseFatalityRate == old(caseFatalityRate)
              && cureRate == old(cureRate) && probGetsTreatment == old(probGetsTreatment)
              && probParasitesCleared == old(probParasitesCleared)
    {
      var values := SequelaeValues(items);
      if values.None? {
        return Some(SEQUELAE_ITEM_ERROR);
      }
      probSequelaeTreated, probSequelaeUntreated := values.value, values.value;
      return None;
    }

    /**
     * `setHealthSystem`: the source is recorded first; then, each refusal in
     * turn, the health system is looked up, its memory taken (initial) or
     * checked against the one in force (a change), the case parameters
     * computed, the sequelae groups read and the CFR table built. An error
     * ends the run, so only the source is stated after one.
     */
    method SetHealthSystem(src: Common.Sources<HealthSystem>, source: int) returns (err: Option<string>)
      requires Valid()
      requires Common.GetHealthSystem(src, source).Ok? ==> |Common.GetHealthSystem(src, source).value.cfr| >= 1
      modifies this
      ensures Valid() && healthSystemSource == source && oddsRatioThreshold == old(oddsRatioThreshold)
      ensures err == SetupError(src, source, old(healthSystemMemory))
      ensures err.None? ==>
                var hs := Common.GetHealthSystem(src, source).value;
                var cp := Old.CaseParameters(hs.outcomes).value;
                var items := hs.outcomes.pSequelaeInpatient;
                && CfrValid()
                && healthSystemMemory == hs.healthSystemMemory
                && cureRate == cp.cureRate && probGetsTreatment == cp.probGetsTreatment
                && probParasitesCleared == cp.probParasitesCleared
                && probSequelaeTreated == probSequelaeUntreated
                   == [items[FirstAbove(items, SEQUELAE_AGE_BOUND[0]).value].value,
                       items[FirstAbove(items, SEQUELAE_AGE_BOUND[1]).value].value]
                && |inputAge| == |hs.cfr| + 1
                && |caseFatalityRate| == |hs.cfr| + 1
                && (forall i | 0 <= i < |hs.cfr| :: caseFatalityRate[i] == hs.cfr[i].cfr)
                && (noMortality <==> |hs.cfr| == 1 && hs.cfr[0].cfr == 0.0)
    {
      healthSystemSource := source;
      var found := Common.GetHealthSystem(src, source);
      if found.Err? {
        return Some(found.msg);
      }
      var hs := found.value;
      if source == Common.INITIAL_SOURCE {
        healthSystemMemory := hs.healthSystemMemory;
      } else if healthSystemMemory != hs.healthSystemMemory {
        return Some(MEMORY_ERROR);
      }
      var cp := Old.CaseParameters(hs.outcomes);
      if cp.Err? {
        return Some(cp.msg);
      }
      err := Install(hs, cp.value);
    }

    /**
     * The part of `setHealthSystem` after the case parameters are computed:
     * they are stored, then the sequelae groups read and the CFR table built.
     */
    method Install(hs: HealthSystem, cp: Old.CaseParams) returns (err: Option<string>)
      requires Valid() && |cp.cureRate| == 3 && |cp.probGetsTreatment| == 3 && |cp.probParasitesCleared| == 3
      requires |hs.cfr| >= 1
      modifies this
      ensures Valid() && healthSystemSource == old(healthSystemSource) && oddsRatioThreshold == old(oddsRatioThreshold)
      ensures healthSystemMemory == old(healthSystemMemory)
      ensures var items := hs.outcomes.pSequelaeInpatient;
              err == if FirstAbove(items, SEQUELAE_AGE_BOUND[0]).Some? && FirstAbove(items, SEQUELAE_AGE_BOUND[1]).Some?
                     then None else Some(SEQUELAE_ITEM_ERROR)
      ensures err.None? ==>
                var items := hs.outcomes.pSequelaeInpatient;
                && CfrValid()
                && cureRate == cp.cureRate && probGetsTreatment == cp.probGetsTreatment
                && probParasitesCleared == cp.probParasitesCleared
                && probSequelaeTreated == probSequelaeUntreated
                   == [items[FirstAbove(items, SEQUELAE_AGE_BOUND[0]).value].value,
                       items[FirstAbove(items, SEQUELAE_AGE_BOUND[1]).value].value]
                && |inputAge| == |hs.cfr| + 1
                && |caseFatalityRate| == |hs.cfr| + 1
                && (forall i | 0 <= i < |hs.cfr| :: caseFatalityRate[i] == hs.cfr[i].cfr)
                && (noMortality <==> |hs.cfr| == 1 && hs.cfr[0].cfr == 0.0)
    {
      cureRate, probGetsTreatment, probParasitesCleared := cp.cureRate, cp.probGetsTreatment, cp.probParasitesCleared;
      err := ReadSequelae(hs.outcomes.pSequelaeInpatient);
      if err.Some? {
        return;
      }
      ReadCaseFatalityRatio(hs.cfr);
    }

    /** `init`: the PK/PD model is refused, the odds ratio kept, and the initial health system set. */
    method Init(src: Common.Sources<HealthSystem>, includesPkPd: bool, oddsRatio: real) returns (err: Option<string>)
      requires Valid() && |src.initial.cfr| >= 1
      modifies this
      ensures Valid()
      ensures includesPkPd ==> err == Some(Old.PKPD_ERROR)
      ensures !includesPkPd ==> && err == SetupError(src, Common.INITIAL_SOURCE, old(healthSystemMemory))
                                && oddsRatioThreshold == oddsRatio && healthSystemSource == Common.INITIAL_SOURCE
    {
      if includesPkPd {
        return Some(Old.PKPD_ERROR);
      }
      oddsRatioThreshold := oddsRatio;
      err := SetHealthSystem(src, Common.INITIAL_SOURCE);
    }

    /** `staticCheckpoint` when reading: the source is restored, and a changed health system set again. */
    method StaticCheckpointRead(src: Common.Sources<HealthSystem>, savedSource: int) returns (err: Option<string>)
      requires Valid()
      requires Common.GetHealthSystem(src, savedSource).Ok? ==> |Common.GetHealthSystem(src, savedSource).value.cfr| >= 1
      modifies this
      ensures Valid() && healthSystemSource == savedSource
      ensures savedSource == Common.INITIAL_SOURCE ==> err.None? && healthSystemMemory == old(healthSystemMemory)
      ensures savedSource != Common.INITIAL_SOURCE ==> err == SetupError(src, savedSource, old(healthSystemMemory))
    {
      healthSystemSource := savedSource;
      err := None;
      if savedSource != Common.INITIAL_SOURCE {
        err := SetHealthSystem(src, savedSource);
      }
    }
  }

  /**
   * The search of the pSequelaeInpatient loop of `setHealthSystem`: for each
   * sequelae group in turn, the value of the first item whose upper bound is
   * above the group's bound; nothing when a group has no such item.
   */
  method SequelaeValues(items: seq<Old.AgeItem>) returns (values: Option<seq<real>>)
    ensures values.Some? <==> FirstAbove(items, SEQUELAE_AGE_BOUND[0]).Some? && FirstAbove(items, SEQUELAE_AGE_BOUND[1]).Some?
    ensures values.Some? ==>
              values.value == [items[FirstAbove(items, SEQUELAE_AGE_BOUND[0]).value].value,
                               items[FirstAbove(items, SEQUELAE_AGE_BOUND[1]).value].value]
  {
    var found: seq<real> := [];
    for g := 0 to 2
      invariant |found| == g
      invariant forall h | 0 <= h < g ::
                  FirstAbove(items, SEQUELAE_AGE_BOUND[h]).Some?
                  && found[h] == items[FirstAbove(items, SEQUELAE_AGE_BOUND[h]).value].value
    {
      var i := 0;
      while i < |items| && |found| == g
        invariant 0 <= i <= |items|
        invariant |found| == g ==> forall j | 0 <= j < i :: items[j].maxAgeYrs <= SEQUELAE_AGE_BOUND[g]
        invariant |found| != g ==> && |found| == g + 1 && 0 < i && FirstAbove(items, SEQUELAE_AGE_BOUND[g]) == Some(i - 1)
                                   && found[g] == items[i - 1].value
        invariant forall h | 0 <= h < g ::
                    FirstAbove(items, SEQUELAE_AGE_BOUND[h]).Some?
                    && found[h] == items[FirstAbove(items, SEQUELAE_AGE_BOUND[h]).value].value
      {
        if items[i].maxAgeYrs > SEQUELAE_AGE_BOUND[g] {
          FirstAboveAt(items, SEQUELAE_AGE_BOUND[g], i);
          found := found + [items[i].value];
        }
        i := i + 1;
      }
      if |found| == g {
        assert g == 0 || g == 1;
        return None;
      }
    }
    assert found == [found[0], found[1]];
    return Some(found);
  }

  /**
   * The first refusal `setHealthSystem` meets, given the memory in force:
   * an invalid source, a changed memory, a bad regimen name, a missing
   * sequelae item.
   */
  function SetupError(src: Common.Sources<HealthSystem>, source: int, memory: int): (r: Option<string>)
    ensures r.None? <==>
              && Common.GetHealthSystem(src, source).Ok?
              && var hs := Common.GetHealthSystem(src, source).value;
                 && (source == Common.INITIAL_SOURCE || hs.healthSystemMemory == memory)
                 && Old.CaseParameters(hs.outcomes).Ok?
                 && FirstAbove(hs.outcomes.pSequelaeInpatient, SEQUELAE_AGE_BOUND[0]).Some?
                 && FirstAbove(hs.outcomes.pSequelaeInpatient, SEQUELAE_AGE_BOUND[1]).Some?
    ensures r.Some? ==> r.value in {Common.SOURCE_ERROR, MEMORY_ERROR, Old.BAD_DRUG_ERROR, SEQUELAE_ITEM_ERROR}
    ensures Common.GetHealthSystem(src, source).Err? ==> r == Some(Common.SOURCE_ERROR)
  {
    var found := Common.GetHealthSystem(src, source);
    if found.Err? then Some(found.msg)
    else
      var hs := found.value;
      if source != Common.INITIAL_SOURCE && hs.healthSystemMemory != memory then Some(MEMORY_ERROR)
      else if Old.CaseParameters(hs.outcomes).Err? then Some(Old.BAD_DRUG_ERROR)
      else if FirstAbove(hs.outcomes.pSequelaeInpatient, SEQUELAE_AGE_BOUND[0]).None?
              || FirstAbove(hs.outcomes.pSequelaeInpatient, SEQUELAE_AGE_BOUND[1]).None? then Some(SEQUELAE_ITEM_ERROR)
      else None
  }

  /** An item above the bound with none above it before is the first. */
  lemma FirstAboveAt(items: seq<Old.AgeItem>, bound: real, i: nat)
    requires i < |items| && items[i].maxAgeYrs > bound
    requires forall j | 0 <= j < i :: items[j].maxAgeYrs <= bound
    ensures FirstAbove(items, bound) == Some(i)
  {
  }

  // ----- the sequelae group of a severe case -----

  /** `severeMalaria` as written: `isAdultIndex` is 1 by default and 0 from age 5. */
  function SequelaeIndexAsWritten(ageYears: real): (i: nat)
    ensures i < 2
    ensures i == 1 <==> ageYears < ADULT_AGE
  {
    if ageYears >= ADULT_AGE then 0 else 1
  }

  /**
   * With the usual items, one up to 5 years and one up to 99, group 0 holds
   * the child value and group 1 the adult value; the index as written gives
   * a two-year-old the adult value and a thirty-year-old the child value.
   */
  lemma SequelaeIndexInverted()
    ensures var items := [Old.AgeItem(5.0, 0.1), Old.AgeItem(99.0, 0.5)];
            && FirstAbove(items, SEQUELAE_AGE_BOUND[0]) == Some(0)
            && FirstAbove(items, SEQUELAE_AGE_BOUND[1]) == Some(1)
            && SequelaeIndexAsWritten(2.0) == 1 && items[SequelaeIndexAsWritten(2.0)].maxAgeYrs == 99.0
            && SequelaeIndexAsWritten(30.0) == 0 && items[SequelaeIndexAsWritten(30.0)].maxAgeYrs == 5.0
  {
    var items := [Old.AgeItem(5.0, 0.1), Old.AgeItem(99.0, 0.5)];
    FirstAboveAt(items, SEQUELAE_AGE_BOUND[0], 0);
    FirstAboveAt(items, SEQUELAE_AGE_BOUND[1], 1);
  }

  /** The index `isAdultIndex` evidently means: the adult group (1) from age 5, the child group (0) before. */
  function SequelaeIndex(ageYears: real): (i: nat)
    ensures i < 2
    ensures i == 1 <==> ageYears >= ADULT_AGE
  {
    if ageYears >= ADULT_AGE then 1 else 0
  }

  /**
   * With the corrected index, once the groups are read, a child's severe
   * case uses the value of the first item above 1 year and an adult's the
   * value of the first item above 10 years.
   */
  lemma SequelaeForAge(items: seq<Old.AgeItem>, table: seq<real>, ageYears: real)
    requires FirstAbove(items, SEQUELAE_AGE_BOUND[0]).Some? && FirstAbove(items, SEQUELAE_AGE_BOUND[1]).Some?
    requires table == [items[FirstAbove(items, SEQUELAE_AGE_BOUND[0]).value].value,
                       items[FirstAbove(items, SEQUELAE_AGE_BOUND[1]).value].value]
    ensures ageYears < ADULT_AGE ==> table[SequelaeIndex(ageYears)] == items[FirstAbove(items, 1.0).value].value
    ensures ageYears >= ADULT_AGE ==> table[SequelaeIndex(ageYears)] == items[FirstAbove(items, 10.0).value].value
  {
  }

  /**
   * The thresholds of a severe case of a human of this age and
   * treatment-seeking factor, given the hospital case fatality rate: the
   * inpatient regimen, the community rate derived from the hospital one, and
   * the corrected sequelae group.
   */
  function SevereThresholds(t: HealthSystemTables, seekingFactor: real, ageYears: real, caseFatality: real): (q: seq<real>)
    reads t
    requires t.Valid() && Unit(caseFatality) && t.oddsRatioThreshold > 0.0
    ensures |q| == 9
  {
    var g := SequelaeIndex(ageYears);
    Common.CommunityCaseFatalityUnit(caseFatality, t.oddsRatioThreshold);
    Old.Thresholds(t.probGetsTreatment[2] * seekingFactor, t.cureRate[2], caseFatality,
                   Common.CommunityCaseFatality(caseFatality, t.oddsRatioThreshold),
                   t.probSequelaeTreated[g], t.probSequelaeUntreated[g])
  }

  /** The hospital case fatality rate of a human of this age. */
  function HospitalCaseFatality(t: HealthSystemTables, ageYears: real): (r: real)
    reads t
    requires t.CfrValid() && t.RatesUnit() && ageYears >= 0.0
    ensures Unit(r)
  {
    CaseFatalityOfUnit(t.inputAge, t.caseFatalityRate, t.noMortality, ageYears);
    CaseFatalityOf(t.inputAge, t.caseFatalityRate, t.noMortality, ageYears)
  }

  // ----- per-human case management -----

  /** The human's side of `OldCaseManagement` in this version. */
  class OldCaseManagement {
    var latestRegimen: int
    var tLastTreatment: int
    const treatmentSeekingFactor: real

    constructor (tSF: real)
      ensures latestRegimen == 0 && tLastTreatment == TIMESTEP_NEVER && treatmentSeekingFactor == tSF
    {
      latestRegimen := 0;
      tLastTreatment := TIMESTEP_NEVER;
      treatmentSeekingFactor := tSF;
    }

    /**
     * `uncomplicatedEvent`: the next regimen (1 or 2) is chosen by the
     * memory of the last treatment; a treated case records it and its time
     * and counts a treatment of that regimen; cleared when the second draw
     * falls under its clearing probability.
     */
    method UncomplicatedEvent(t: HealthSystemTables, isMalaria: bool, now: int, u1: real, u2: real)
      returns (cleared: bool, report: Old.Report)
      requires t.Valid()
      modifies this
      ensures var entry := if isMalaria then StateMalaria else {Sick};
              var reg := NextRegimen(now, entry, old(tLastTreatment), t.healthSystemMemory);
              var treated := t.probGetsTreatment[reg - 1] * treatmentSeekingFactor > u1;
              && reg < 3
              && cleared == (treated && t.probParasitesCleared[reg - 1] > u2)
              && report == Old.Report(entry, if treated then reg else 0)
              && latestRegimen == (if treated then reg else old(latestRegimen))
              && tLastTreatment == (if treated then now else old(tLastTreatment))
    {
      var entry := if isMalaria then StateMalaria else {Sick};
      var nextRegimen := NextRegimen(now, entry, tLastTreatment, t.healthSystemMemory);
      cleared := false;
      var treatment := 0;
      if t.probGetsTreatment[nextRegimen - 1] * treatmentSeekingFactor > u1 {
        latestRegimen := nextRegimen;
        tLastTreatment := now;
        treatment := nextRegimen;
        if t.probParasitesCleared[nextRegimen - 1] > u2 {
          cleared := true;
        }
      }
      report := Old.Report(entry, treatment);
    }

    /**
     * `severeMalaria`: always the inpatient regimen (3); the hospital rate
     * comes from the CFR table and the community rate from it; a treated
     * case records the regimen and its time and counts a treatment; a direct
     * death sets doomed to 4.
     */
    method SevereMalaria(t: HealthSystemTables, now: int, ageYears: real, u: real, doomed: int)
      returns (cleared: bool, report: Old.Report, doomedAfter: int)
      requires t.Valid() && t.CfrValid() && t.RatesUnit() && ageYears >= 0.0
      modifies this
      ensures var c := Old.SevereDecision(SevereThresholds(t, treatmentSeekingFactor, ageYears, HospitalCaseFatality(t, ageYears)), u);
              && cleared == c.cleared
              && report == Old.Report(Old.SevereEntry(c), if c.treated then 3 else 0)
              && doomedAfter == (if c.outcome == Some(DirectDeath) then Old.DOOMED_SEVERE else doomed)
              && latestRegimen == (if c.treated then 3 else old(latestRegimen))
              && tLastTreatment == (if c.treated then now else old(tLastTreatment))
    {
      var nextRegimen := NextRegimen(now, StateSevere, tLastTreatment, t.healthSystemMemory);
      var p4 := t.CaseFatality(ageYears);
      assert p4 == HospitalCaseFatality(t, ageYears);
      var q := SevereThresholds(t, treatmentSeekingFactor, ageYears, p4);
      var c := Old.SevereDecision(q, u);
      if c.treated {
        tLastTreatment := now;
        latestRegimen := nextRegimen;
      }
      doomedAfter := if c.outcome == Some(DirectDeath) then Old.DOOMED_SEVERE else doomed;
      report := Old.Report(Old.SevereEntry(c), if c.treated then nextRegimen else 0);
      cleared := c.cleared;
    }

    /**
     * `doCaseManagement`: as in the later version, and infections are
     * cleared after an effective treatment only without the PK/PD model.
     */
    method DoCaseManagement(t: HealthSystemTables, pgState: set<Flag>, now: int, interval: int, ageYears: real,
                            includesPkPd: bool, u1: real, u2: real, u: real, doomed: int)
      returns (clears: bool, report: Option<Old.Report>, doomedAfter: int)
      requires t.Valid() && t.CfrValid() && t.RatesUnit() && ageYears >= 0.0
      modifies this
      ensures Malaria in pgState && Complicated in pgState ==>
                var c := Old.SevereDecision(SevereThresholds(t, treatmentSeekingFactor, ageYears, HospitalCaseFatality(t, ageYears)), u);
                var d := if c.outcome == Some(DirectDeath) then Old.DOOMED_SEVERE else doomed;
                && clears == (c.cleared && !includesPkPd)
                && report == Some(Old.Report(Old.SevereEntry(c), if c.treated then 3 else 0))
                && tLastTreatment == (if c.treated then now else old(tLastTreatment))
                && doomedAfter == (if IndirectMortality in pgState && d == 0 then -interval else d)
      ensures pgState == StateMalaria || (Malaria !in pgState && Sick in pgState) ==>
                var entry := if Malaria in pgState then StateMalaria else {Sick};
                var reg := NextRegimen(now, entry, old(tLastTreatment), t.healthSystemMemory);
                var treated := t.probGetsTreatment[reg - 1] * treatmentSeekingFactor > u1;
                && clears == (treated && t.probParasitesCleared[reg - 1] > u2 && !includesPkPd)
                && report == Some(Old.Report(entry, if treated then reg else 0))
                && tLastTreatment == (if treated then now else old(tLastTreatment))
                && doomedAfter == doomed
      ensures (Malaria in pgState && Complicated !in pgState && pgState != StateMalaria) ==>
                && !clears && report.None? && tLastTreatment == old(tLastTreatment)
                && doomedAfter == (if IndirectMortality in pgState && doomed == 0 then -interval else doomed)
      ensures Malaria !in pgState && Sick !in pgState ==>
                !clears && report.None? && tLastTreatment == old(tLastTreatment) && doomedAfter == doomed
    {
      var effective := false;
      report, doomedAfter := None, doomed;
      if Malaria in pgState {
        if Complicated in pgState {
          var r;
          effective, r, doomedAfter := SevereMalaria(t, now, ageYears, u, doomed);
          report := Some(r);
        } else if pgState == StateMalaria {
          var r;
          effective, r := UncomplicatedEvent(t, true, now, u1, u2);
          report := Some(r);
        }
        if IndirectMortality in pgState && doomedAfter == 0 {
          doomedAfter := -interval;
        }
      } else if Sick in pgState {
        var r;
        effective, r := UncomplicatedEvent(t, false, now, u1, u2);
        report := Some(r);
      }
      clears := effective && !includesPkPd;
    }
  }
}
