/**
 * `CaseManagementCommon` (openmalaria-649): the state both case-management
 * models share. It knows which health system is in force (the initial one,
 * or the one a timed intervention switched to), and reads from it two maps
 * keyed by the lower bound of an age group: the case fatality rate, which it
 * interpolates linearly between group bounds, and the probability of
 * sequelae for inpatients, which is constant over a group.
 */
module CaseManagementCommon {
  import opened Wrappers
  import opened Probability

  const SOURCE_ERROR := "healthSystemSource invalid"

  /** The source of the initial health system; any other source is the time of an intervention. */
  const INITIAL_SOURCE: int := -1

  /**
   * The health systems a scenario holds: the initial one, and for each time
   * with an intervention, that intervention's optional changeHS element.
   */
  datatype Sources<H> = Sources(initial: H, changeHS: map<int, Option<H>>)

  /**
   * `getHealthSystem`: the initial health system for source -1; otherwise
   * the one the intervention at that time changes to, which must exist.
   */
  function GetHealthSystem<H>(src: Sources<H>, source: int): (r: Result<H>)
    ensures source == INITIAL_SOURCE ==> r == Ok(src.initial)
    ensures source != INITIAL_SOURCE ==> (r.Ok? <==> source in src.changeHS && src.changeHS[source].Some?)
    ensures source != INITIAL_SOURCE && r.Ok? ==> r.value == src.changeHS[source].value
    ensures r.Err? ==> r.msg == SOURCE_ERROR
  {
    if source == INITIAL_SOURCE then Ok(src.initial)
    else if source in src.changeHS && src.changeHS[source].Some? then Ok(src.changeHS[source].value)
    else Err(SOURCE_ERROR)
  }

  // ----- maps keyed by lower bound -----

  /** One entry of a `map<double,double>`. */
  datatype Entry = Entry(key: real, value: real)

  predicate StrictlySorted(es: seq<Entry>)
  {
    forall i, j | 0 <= i < j < |es| :: es[i].key < es[j].key
  }

  /** A `std::map` as the sequence of its entries in key order. */
  type OrderedMap = es: seq<Entry> | StrictlySorted(es) witness []

  /** `upper_bound`: the position of the first entry whose key is above `x`, or the end. */
  function UpperBound(es: seq<Entry>, x: real): (i: nat)
    ensures i <= |es|
    ensures forall j | 0 <= j < i :: es[j].key <= x
    ensures i < |es| ==> es[i].key > x
  {
    if |es| == 0 then 0
    else if es[0].key > x then 0
    else 1 + UpperBound(es[1..], x)
  }

  /** In key order, every entry from the upper bound on is above `x`: the entries at or below `x` are exactly those before it. */
  lemma UpperBoundSplits(es: OrderedMap, x: real)
    ensures forall j | 0 <= j < |es| :: (es[j].key <= x <==> j < UpperBound(es, x))
  {
    var u := UpperBound(es, x);
    forall j | u <= j < |es|
      ensures es[j].key > x
    {
      if j > u {
        assert es[u].key < es[j].key;
      }
    }
  }

  /** The linear interpolation between (a0, f0) and (a1, f1) at `x`. */
  function Interpolate(a0: real, f0: real, a1: real, f1: real, x: real): real
    requires a1 > a0
  {
    (x - a0) / (a1 - a0) * (f1 - f0) + f0
  }

  /** Between its two points the interpolation lies between their values, and it starts at the first. */
  lemma InterpolateBetween(a0: real, f0: real, a1: real, f1: real, x: real)
    requires a0 <= x <= a1 && a1 > a0
    ensures f0 <= f1 ==> f0 <= Interpolate(a0, f0, a1, f1, x) <= f1
    ensures f1 <= f0 ==> f1 <= Interpolate(a0, f0, a1, f1, x) <= f0
    ensures x == a0 ==> Interpolate(a0, f0, a1, f1, x) == f0
  {
    var t := (x - a0) / (a1 - a0);
    DivUnit(x - a0, a1 - a0);
    if f0 <= f1 {
      MulUnitLe(f1 - f0, t);
      assert t * (f1 - f0) == (f1 - f0) * t;
    } else {
      MulUnitLe(f0 - f1, t);
      assert t * (f1 - f0) == -((f0 - f1) * t);
    }
    if x == a0 {
      assert t == 0.0;
    }
  }

  /**
   * `caseFatality`: the rate interpolated between the group that `x` falls
   * in and the next. The source asserts a non-negative age and a group
   * above it; the map must also have a group at or below it.
   */
  function CaseFatality(rates: OrderedMap, ageYears: real): (r: real)
    requires ageYears >= 0.0
    requires 0 < UpperBound(rates, ageYears) < |rates|
    ensures var i := UpperBound(rates, ageYears);
            && rates[i - 1].key <= ageYears < rates[i].key
            && (rates[i - 1].value <= rates[i].value ==> rates[i - 1].value <= r <= rates[i].value)
            && (rates[i].value <= rates[i - 1].value ==> rates[i].value <= r <= rates[i - 1].value)
            && (ageYears == rates[i - 1].key ==> r == rates[i - 1].value)
  {
    var i := UpperBound(rates, ageYears);
    InterpolateBetween(rates[i - 1].key, rates[i - 1].value, rates[i].key, rates[i].value, ageYears);
    Interpolate(rates[i - 1].key, rates[i - 1].value, rates[i].key, rates[i].value, ageYears)
  }

  /** With every rate a probability, so is every interpolated rate. */
  lemma CaseFatalityUnit(rates: OrderedMap, ageYears: real)
    requires ageYears >= 0.0
    requires 0 < UpperBound(rates, ageYears) < |rates|
    requires forall j | 0 <= j < |rates| :: Unit(rates[j].value)
    ensures Unit(CaseFatality(rates, ageYears))
  {
    var i := UpperBound(rates, ageYears);
    assert Unit(rates[i - 1].value) && Unit(rates[i].value);
  }

  /**
   * `getCommunityCaseFatalityRate`: the hospital rate's odds scaled by the
   * odds ratio. The model asks for a non-zero denominator, which any rate
   * in [0, 1] with a positive odds ratio gives.
   */
  function CommunityCaseFatality(caseFatalityRatio: real, oddsRatioThreshold: real): real
    requires 1.0 - caseFatalityRatio + caseFatalityRatio * oddsRatioThreshold != 0.0
  {
    var x := caseFatalityRatio * oddsRatioThreshold;
    x / (1.0 - caseFatalityRatio + x)
  }

  /**
   * A hospital rate in [0, 1] and a positive odds ratio give a community
   * rate in [0, 1]; it is 0 and 1 where the hospital rate is, and equal to
   * it when the odds ratio is 1.
   */
  lemma CommunityCaseFatalityUnit(caseFatalityRatio: real, oddsRatioThreshold: real)
    requires Unit(caseFatalityRatio) && oddsRatioThreshold > 0.0
    ensures 1.0 - caseFatalityRatio + caseFatalityRatio * oddsRatioThreshold > 0.0
    ensures Unit(CommunityCaseFatality(caseFatalityRatio, oddsRatioThreshold))
    ensures caseFatalityRatio == 0.0 ==> CommunityCaseFatality(caseFatalityRatio, oddsRatioThreshold) == 0.0
    ensures caseFatalityRatio == 1.0 ==> CommunityCaseFatality(caseFatalityRatio, oddsRatioThreshold) == 1.0
    ensures oddsRatioThreshold == 1.0 ==> CommunityCaseFatality(caseFatalityRatio, oddsRatioThreshold) == caseFatalityRatio
  {
    var x := caseFatalityRatio * oddsRatioThreshold;
    Prod2(caseFatalityRatio, oddsRatioThreshold);
    if caseFatalityRatio > 0.0 {
      assert x > 0.0;
    }
    DivUnit(x, 1.0 - caseFatalityRatio + x);
  }

  /**
   * `pSequelaeInpatient`: the value of the last entry at or below the age.
   * The source asserts there is one.
   */
  function PSequelaeInpatient(pSeq: OrderedMap, ageYears: real): (r: real)
    requires UpperBound(pSeq, ageYears) > 0
    ensures exists j | 0 <= j < |pSeq| :: pSeq[j].key <= ageYears && pSeq[j].value == r
  {
    pSeq[UpperBound(pSeq, ageYears) - 1].value
  }

  /** The entry chosen is the one with the greatest key at or below the age. */
  lemma PSequelaeInpatientGreatest(pSeq: OrderedMap, ageYears: real)
    requires UpperBound(pSeq, ageYears) > 0
    ensures var i := UpperBound(pSeq, ageYears) - 1;
            && PSequelaeInpatient(pSeq, ageYears) == pSeq[i].value && pSeq[i].key <= ageYears
            && forall j | 0 <= j < |pSeq| && pSeq[j].key <= ageYears :: pSeq[j].key <= pSeq[i].key
  {
    UpperBoundSplits(pSeq, ageYears);
    var i := UpperBound(pSeq, ageYears) - 1;
    forall j | 0 <= j < |pSeq| && pSeq[j].key <= ageYears
      ensures pSeq[j].key <= pSeq[i].key
    {
      if j != i {
        assert j < i;
      }
    }
  }

  /**
   * The two maps a health system gives, as `lboundGroups2map` builds them
   * from its CFR and pSequelaeInpatient groups.
   */
  datatype HealthSystem = HealthSystem(cfr: OrderedMap, pSequelaeInpatient: OrderedMap)

  /** The static members of `CaseManagementCommon`. */
  class CaseManagementCommon {
    var healthSystemSource: int
    var caseFatalityRates: OrderedMap
    var oddsRatioThreshold: real
    var pSeqInpatData: OrderedMap

    constructor ()
      ensures healthSystemSource == 0 && caseFatalityRates == [] && oddsRatioThreshold == 0.0 && pSeqInpatData == []
    {
      healthSystemSource, caseFatalityRates, oddsRatioThreshold, pSeqInpatData := 0, [], 0.0, [];
    }

    /** `readCommon`: both maps are cleared, then filled from the health system; nothing of an earlier one is kept. */
    method ReadCommon(hs: HealthSystem)
      modifies this
      ensures caseFatalityRates == hs.cfr && pSeqInpatData == hs.pSequelaeInpatient
      ensures healthSystemSource == old(healthSystemSource) && oddsRatioThreshold == old(oddsRatioThreshold)
    {
      caseFatalityRates := hs.cfr;
      pSeqInpatData := hs.pSequelaeInpatient;
    }

    /**
     * `changeHealthSystem`: the source is recorded first, then the health
     * system looked up and read. The health system is returned for the
     * clinical model's own `setHealthSystem`; an invalid source leaves the
     * maps as they were.
     */
    method ChangeHealthSystem(src: Sources<HealthSystem>, source: int) returns (r: Result<HealthSystem>)
      modifies this
      ensures healthSystemSource == source && oddsRatioThreshold == old(oddsRatioThreshold)
      ensures r == GetHealthSystem(src, source)
      ensures r.Ok? ==> caseFatalityRates == r.value.cfr && pSeqInpatData == r.value.pSequelaeInpatient
      ensures r.Err? ==> caseFatalityRates == old(caseFatalityRates) && pSeqInpatData == old(pSeqInpatData)
    {
      healthSystemSource := source;
      r := GetHealthSystem(src, source);
      if r.Ok? {
        ReadCommon(r.value);
      }
    }

    /** `initCommon`: the odds ratio (the exponential of its log parameter) is kept and the initial health system read. */
    method InitCommon(src: Sources<HealthSystem>, oddsRatio: real) returns (r: Result<HealthSystem>)
      modifies this
      ensures healthSystemSource == INITIAL_SOURCE && oddsRatioThreshold == oddsRatio
      ensures r == Ok(src.initial)
      ensures caseFatalityRates == src.initial.cfr && pSeqInpatData == src.initial.pSequelaeInpatient
    {
      oddsRatioThreshold := oddsRatio;
      r := ChangeHealthSystem(src, INITIAL_SOURCE);
    }

    /**
     * `staticCheckpoint` when reading: the source is restored, and a health
     * system other than the initial one is read again.
     */
    method StaticCheckpointRead(src: Sources<HealthSystem>, savedSource: int) returns (r: Option<Result<HealthSystem>>)
      modifies this
      ensures healthSystemSource == savedSource && oddsRatioThreshold == old(oddsRatioThreshold)
      ensures savedSource == INITIAL_SOURCE ==>
                r.None? && caseFatalityRates == old(caseFatalityRates) && pSeqInpatData == old(pSeqInpatData)
      ensures savedSource != INITIAL_SOURCE ==> r == Some(GetHealthSystem(src, savedSource))
      ensures savedSource != INITIAL_SOURCE && GetHealthSystem(src, savedSource).Ok? ==>
                caseFatalityRates == GetHealthSystem(src, savedSource).value.cfr
                && pSeqInpatData == GetHealthSystem(src, savedSource).value.pSequelaeInpatient
    {
      healthSystemSource := savedSource;
      r := None;
      if savedSource != INITIAL_SOURCE {
        var hs := ChangeHealthSystem(src, savedSource);
        r := Some(hs);
      }
    }
  }
}
