/**
 * `OldCaseManagement` (openmalaria-639): the five-day case-management model.
 * A health system gives, per regimen (first line, second line, inpatient),
 * the probability that a patient is treated and that treatment clears the
 * parasites; an uncomplicated case is treated or not, and a severe case ends
 * in one of nine outcomes chosen by one uniform draw against cumulative
 * thresholds.
 */
module OldCaseManagement639 {
  import opened Wrappers
  import opened Global
  import opened Pathogenesis
  import opened Probability

  /** Regimen indices: first-line, second-line and inpatient (severe). */
  const UC: nat := 0
  const UC2: nat := 1
  const SEVERE: nat := 2

  /** The upper age bounds, in years, of the two sequelae age groups. */
  const SEQUELAE_AGE_BOUND: seq<real> := [5.0, 99.0]

  /** The doomed code of a direct death in a severe case. */
  const DOOMED_SEVERE: int := 4

  const PKPD_ERROR := "OldCaseManagement is not compatible with INCLUDES_PK_PD"
  const IMMEDIATE_OUTCOMES_ERROR := "Expected ImmediateOutcomes section in healthSystem data (initial or intervention)"
  const SEQUELAE_GROUPS_ERROR := "Expected: 2 pSequelaeInpatient age groups with maxAgeYrs 5 and 99"
  const BAD_DRUG_ERROR := "healthSystem.drugRegimen->firstLine has bad value"

  // ----- health-system data -----

  /** A `TreatmentDetails` element: an optional value per drug and a self-treatment value. */
  datatype TreatmentDetails = TreatmentDetails(
    cq: Option<real>, sp: Option<real>, aq: Option<real>, spaq: Option<real>, act: Option<real>, qn: Option<real>,
    selfTreatment: real)

  datatype DrugRegimen = DrugRegimen(firstLine: string, secondLine: string, inpatient: string)

  /** One item of an age-group list: its upper age bound and its value. */
  datatype AgeItem = AgeItem(maxAgeYrs: real, value: real)

  /** An `ImmediateOutcomes` section of a health system. */
  datatype ImmediateOutcomes = ImmediateOutcomes(
    drugRegimen: DrugRegimen,
    initialACR: TreatmentDetails, compliance: TreatmentDetails, nonCompliersEffective: TreatmentDetails,
    pSeekOfficialCareUncomplicated1: real, pSelfTreatUncomplicated: real,
    pSeekOfficialCareUncomplicated2: real, pSeekOfficialCareSevere: real,
    pSequelaeInpatient: seq<AgeItem>)

  /** The drug names a treatment-details element holds an optional value for. */
  const DRUG_NAMES: set<string> := {"CQ", "SP", "AQ", "SPAQ", "ACT", "QN"}

  predicate IsDrugName(name: string)
  {
    name in DRUG_NAMES
  }

  /** The names a regimen may take. */
  predicate IsRegimenName(name: string)
  {
    IsDrugName(name) || name == "selfTreatment"
  }

  /** The entry of a drug name in a treatment-details element. */
  function DrugEntry(td: TreatmentDetails, name: string): Option<real>
    requires IsDrugName(name)
  {
    match name
    case "CQ" => td.cq
    case "SP" => td.sp
    case "AQ" => td.aq
    case "SPAQ" => td.spaq
    case "ACT" => td.act
    case _ => td.qn
  }

  /** Every value of the element, present or self-treatment, is a probability. */
  predicate UnitDetails(td: TreatmentDetails)
  {
    && (forall name | name in DRUG_NAMES :: DrugEntry(td, name).Some? ==> 0.0 <= DrugEntry(td, name).value <= 1.0)
    && 0.0 <= td.selfTreatment <= 1.0
  }

  /**
   * `getHealthSystemACRByName`: a drug's value, 0 when the drug is absent,
   * the self-treatment value for "selfTreatment"; any other name is refused.
   */
  function AcrByName(td: TreatmentDetails, name: string): (r: Result<real>)
    ensures r.Ok? <==> IsRegimenName(name)
    ensures r.Err? ==> r.msg == BAD_DRUG_ERROR
    ensures name == "selfTreatment" ==> r == Ok(td.selfTreatment)
    ensures IsDrugName(name) ==> r == Ok(if DrugEntry(td, name).Some? then DrugEntry(td, name).value else 0.0)
  {
    if name == "CQ" then Ok(if td.cq.Some? then td.cq.value else 0.0)
    else if name == "SP" then Ok(if td.sp.Some? then td.sp.value else 0.0)
    else if name == "AQ" then Ok(if td.aq.Some? then td.aq.value else 0.0)
    else if name == "SPAQ" then Ok(if td.spaq.Some? then td.spaq.value else 0.0)
    else if name == "ACT" then Ok(if td.act.Some? then td.act.value else 0.0)
    else if name == "QN" then Ok(if td.qn.Some? then td.qn.value else 0.0)
    else if name == "selfTreatment" then Ok(td.selfTreatment)
    else Err(BAD_DRUG_ERROR)
  }

  /** A value looked up in an element of probabilities is a probability. */
  lemma AcrByNameUnit(td: TreatmentDetails, name: string)
    requires UnitDetails(td) && IsRegimenName(name)
    ensures 0.0 <= AcrByName(td, name).value <= 1.0
  {
    if IsDrugName(name) {
      assert DrugEntry(td, name).Some? ==> 0.0 <= DrugEntry(td, name).value <= 1.0;
    }
  }

  /** The per-regimen tables `setParasiteCaseParameters` fills. */
  datatype CaseParams = CaseParams(cureRate: seq<real>, probGetsTreatment: seq<real>, probParasitesCleared: seq<real>)

  /** The probability that a course clears the parasites: compliers are cured at the cure rate, the others at their own rate. */
  function Cleared(compliance: real, cure: real, nonCompliers: real): real
  {
    compliance * cure + (1.0 - compliance) * nonCompliers
  }

  /** The mean of two values weighted by non-negative weights of positive sum. */
  function Mean(w1: real, x: real, w2: real, y: real): real
    requires w1 + w2 != 0.0
  {
    (w1 * x + w2 * y) / (w1 + w2)
  }

  /** A convex combination of two probabilities is a probability. */
  lemma ConvexUnit(c: real, a: real, b: real)
    requires 0.0 <= c <= 1.0 && 0.0 <= a <= 1.0 && 0.0 <= b <= 1.0
    ensures 0.0 <= Cleared(c, a, b) <= 1.0
  {
    var p, q := c * a, (1.0 - c) * b;
    assert 0.0 <= p <= c by { MulUnitLe(c, a); }
    assert 0.0 <= q <= 1.0 - c by { MulUnitLe(1.0 - c, b); }
    assert Cleared(c, a, b) == p + q;
  }

  /** A weighted mean of two probabilities, with non-negative weights of positive sum, is a probability. */
  lemma WeightedMeanUnit(w1: real, x: real, w2: real, y: real)
    requires w1 >= 0.0 && w2 >= 0.0 && w1 + w2 > 0.0 && 0.0 <= x <= 1.0 && 0.0 <= y <= 1.0
    ensures 0.0 <= Mean(w1, x, w2, y) <= 1.0
  {
    WeightedSumLe(w1, x, w2, y);
    DivUnit(w1 * x + w2 * y, w1 + w2);
  }

  /**
   * `setParasiteCaseParameters`: the cure rate of each regimen (the first
   * line mixed with self-treatment by their seeking probabilities), the
   * probability of getting each regimen, and the probability that it clears
   * the parasites (the inpatient regimen's is 0). The three regimen names
   * are looked up first line first; a bad one is refused.
   */
  function CaseParameters(io: ImmediateOutcomes): (r: Result<CaseParams>)
    ensures r.Ok? <==> IsRegimenName(io.drugRegimen.firstLine) && IsRegimenName(io.drugRegimen.secondLine)
                       && IsRegimenName(io.drugRegimen.inpatient)
    ensures r.Err? ==> r.msg == BAD_DRUG_ERROR
    ensures r.Ok? ==> |r.value.cureRate| == 3 && |r.value.probGetsTreatment| == 3 && |r.value.probParasitesCleared| == 3
    ensures r.Ok? ==> && r.value.cureRate[UC2] == AcrByName(io.initialACR, io.drugRegimen.secondLine).value
                      && r.value.cureRate[SEVERE] == AcrByName(io.initialACR, io.drugRegimen.inpatient).value
                      && r.value.probParasitesCleared[SEVERE] == 0.0
    ensures r.Ok? ==> r.value.probGetsTreatment == [io.pSeekOfficialCareUncomplicated1 + io.pSelfTreatUncomplicated,
                                                    io.pSeekOfficialCareUncomplicated2, io.pSeekOfficialCareSevere]
    ensures r.Ok? && io.pSeekOfficialCareUncomplicated1 + io.pSelfTreatUncomplicated <= 0.0 ==>
              r.value.cureRate[UC] == AcrByName(io.initialACR, io.drugRegimen.firstLine).value
              && r.value.probParasitesCleared[UC] == 0.0
  {
    var names := io.drugRegimen;
    var first := AcrByName(io.initialACR, names.firstLine);
    var second := AcrByName(io.initialACR, names.secondLine);
    var inpatient := AcrByName(io.initialACR, names.inpatient);
    if first.Err? then Err(first.msg)
    else if second.Err? then Err(second.msg)
    else if inpatient.Err? then Err(inpatient.msg)
    else
      var p1 := io.pSeekOfficialCareUncomplicated1;
      var pSelf := io.pSelfTreatUncomplicated;
      var selfCure := io.initialACR.selfTreatment;
      var cure0 := if p1 + pSelf > 0.0 then Mean(p1, first.value, pSelf, selfCure) else first.value;
      var compliance1 := AcrByName(io.compliance, names.firstLine).value;
      var compliance2 := AcrByName(io.compliance, names.secondLine).value;
      var nonCompliers1 := AcrByName(io.nonCompliersEffective, names.firstLine).value;
      var nonCompliers2 := AcrByName(io.nonCompliersEffective, names.secondLine).value;
      var complianceSelf := io.compliance.selfTreatment;
      var cleared0 :=
        if p1 + pSelf > 0.0 then
          Mean(p1, Cleared(compliance1, first.value, nonCompliers1), pSelf, Cleared(complianceSelf, selfCure, nonCompliers1))
        else 0.0;
      var cleared1 := Cleared(compliance2, second.value, nonCompliers2);
      Ok(CaseParams([cure0, second.value, inpatient.value],
                    [p1 + pSelf, io.pSeekOfficialCareUncomplicated2, io.pSeekOfficialCareSevere],
                    [cleared0, cleared1, 0.0]))
  }

  /**
   * When every rate the health system gives is a probability and the two
   * uncomplicated seeking probabilities are non-negative, every cure rate and
   * every probability of clearing the parasites is a probability.
   */
  lemma CaseParametersUnit(io: ImmediateOutcomes)
    requires CaseParameters(io).Ok?
    requires UnitDetails(io.initialACR) && UnitDetails(io.compliance) && UnitDetails(io.nonCompliersEffective)
    requires io.pSeekOfficialCareUncomplicated1 >= 0.0 && io.pSelfTreatUncomplicated >= 0.0
    ensures forall i | 0 <= i < 3 :: 0.0 <= CaseParameters(io).value.cureRate[i] <= 1.0
    ensures forall i | 0 <= i < 3 :: 0.0 <= CaseParameters(io).value.probParasitesCleared[i] <= 1.0
  {
    var names := io.drugRegimen;
    var cp := CaseParameters(io).value;
    var p1, pSelf := io.pSeekOfficialCareUncomplicated1, io.pSelfTreatUncomplicated;
    AcrByNameUnit(io.initialACR, names.firstLine);
    AcrByNameUnit(io.initialACR, names.secondLine);
    AcrByNameUnit(io.initialACR, names.inpatient);
    AcrByNameUnit(io.compliance, names.firstLine);
    AcrByNameUnit(io.compliance, names.secondLine);
    AcrByNameUnit(io.nonCompliersEffective, names.firstLine);
    AcrByNameUnit(io.nonCompliersEffective, names.secondLine);
    var first := AcrByName(io.initialACR, names.firstLine).value;
    var second := AcrByName(io.initialACR, names.secondLine).value;
    var compliance1 := AcrByName(io.compliance, names.firstLine).value;
    var compliance2 := AcrByName(io.compliance, names.secondLine).value;
    var nonCompliers1 := AcrByName(io.nonCompliersEffective, names.firstLine).value;
    var nonCompliers2 := AcrByName(io.nonCompliersEffective, names.secondLine).value;
    var selfCure, complianceSelf := io.initialACR.selfTreatment, io.compliance.selfTreatment;
    ConvexUnit(compliance2, second, nonCompliers2);
    if p1 + pSelf > 0.0 {
      WeightedMeanUnit(p1, first, pSelf, selfCure);
      ConvexUnit(compliance1, first, nonCompliers1);
      ConvexUnit(complianceSelf, selfCure, nonCompliers1);
      WeightedMeanUnit(p1, Cleared(compliance1, first, nonCompliers1), pSelf, Cleared(complianceSelf, selfCure, nonCompliers1));
    }
  }

  /** The two sequelae groups are given with exactly the expected upper bounds. */
  predicate SequelaeGroupsMatch(items: seq<AgeItem>)
  {
    |items| == 2 && forall g | 0 <= g < 2 :: items[g].maxAgeYrs == SEQUELAE_AGE_BOUND[g]
  }

  /** `init`: the model refuses the PK/PD drug model. */
  function InitError(includesPkPd: bool): (r: Option<string>)
    ensures r.None? <==> !includesPkPd
    ensures r.Some? ==> r.value == PKPD_ERROR
  {
    if includesPkPd then Some(PKPD_ERROR) else None
  }

  /** The static tables of `OldCaseManagement`, shared by all humans. */
  class HealthSystemTables {
    var cureRate: seq<real>
    var probGetsTreatment: seq<real>
    var probParasitesCleared: seq<real>
    var probSequelaeTreated: seq<real>
    var probSequelaeUntreated: seq<real>

    /** The tables are fixed-size arrays: three regimens, two sequelae age groups. */
    predicate Valid()
      reads this
    {
      && |cureRate| == 3 && |probGetsTreatment| == 3 && |probParasitesCleared| == 3
      && |probSequelaeTreated| == 2 && |probSequelaeUntreated| == 2
    }

    /** Static arrays start zeroed. */
    constructor ()
      ensures Valid()
      ensures cureRate == probGetsTreatment == probParasitesCleared == [0.0, 0.0, 0.0]
      ensures probSequelaeTreated == probSequelaeUntreated == [0.0, 0.0]
    {
      cureRate, probGetsTreatment, probParasitesCleared := [0.0, 0.0, 0.0], [0.0, 0.0, 0.0], [0.0, 0.0, 0.0];
      probSequelaeTreated, probSequelaeUntreated := [0.0, 0.0], [0.0, 0.0];
    }

    /**
     * `setHealthSystem`: the section must be present, its regimen names
     * valid, and its sequelae groups exactly the two expected; the treated
     * and untreated sequelae probabilities are both set to the given value.
     * An error ends the run, so the tables it leaves are not stated.
     */
    method SetHealthSystem(hs: Option<ImmediateOutcomes>) returns (err: Option<string>)
      requires Valid()
      modifies this
      ensures Valid()
      ensures err.None? <==> hs.Some? && CaseParameters(hs.value).Ok? && SequelaeGroupsMatch(hs.value.pSequelaeInpatient)
      ensures hs.None? ==> err == Some(IMMEDIATE_OUTCOMES_ERROR)
      ensures hs.Some? && CaseParameters(hs.value).Err? ==> err == Some(BAD_DRUG_ERROR)
      ensures hs.Some? && CaseParameters(hs.value).Ok? && !SequelaeGroupsMatch(hs.value.pSequelaeInpatient) ==>
                err == Some(SEQUELAE_GROUPS_ERROR)
      ensures err.None? ==>
                var cp := CaseParameters(hs.value).value;
                var items := hs.value.pSequelaeInpatient;
                && cureRate == cp.cureRate && probGetsTreatment == cp.probGetsTreatment
                && probParasitesCleared == cp.probParasitesCleared
                && probSequelaeTreated == probSequelaeUntreated == [items[0].value, items[1].value]
    {
      if hs.None? {
        return Some(IMMEDIATE_OUTCOMES_ERROR);
      }
      var io := hs.value;
      var cp := CaseParameters(io);
      if cp.Err? {
        return Some(cp.msg);
      }
      cureRate, probGetsTreatment, probParasitesCleared := cp.value.cureRate, cp.value.probGetsTreatment, cp.value.probParasitesCleared;
      var items := io.pSequelaeInpatient;
      if |items| != 2 {
        return Some(SEQUELAE_GROUPS_ERROR);
      }
      for g := 0 to 2
        invariant Valid()
        invariant cureRate == cp.value.cureRate && probGetsTreatment == cp.value.probGetsTreatment
        invariant probParasitesCleared == cp.value.probParasitesCleared
        invariant forall h | 0 <= h < g :: items[h].maxAgeYrs == SEQUELAE_AGE_BOUND[h]
        invariant forall h | 0 <= h < g :: probSequelaeTreated[h] == probSequelaeUntreated[h] == items[h].value
      {
        if items[g].maxAgeYrs != SEQUELAE_AGE_BOUND[g] {
          return Some(SEQUELAE_GROUPS_ERROR);
        }
        probSequelaeTreated := probSequelaeTreated[g := items[g].value];
        probSequelaeUntreated := probSequelaeUntreated[g := items[g].value];
      }
      return None;
    }
  }

  // ----- per-human case management -----

  /** What a case reports to the episode: its state and which treatment counter (1 to 3, 0 for none) it adds to. */
  datatype Report = Report(entry: set<Flag>, treatment: nat)

  /** The draws of an uncomplicated case as it is decided: regimen, treated, parasites cleared. */
  datatype UncomplicatedCase = UncomplicatedCase(regimen: nat, treated: bool, cleared: bool)

  /**
   * The decision of `uncomplicatedEvent`: the second-line regimen within the
   * health-system memory of the last treatment, the first line otherwise; the
   * case is treated when `u1` falls under the seeking probability scaled by
   * the human's seeking factor, and cleared when `u2` falls under the
   * regimen's clearing probability.
   */
  function UncomplicatedDecision(probGetsTreatment: seq<real>, probParasitesCleared: seq<real>, seekingFactor: real,
                                 withinMemory: bool, u1: real, u2: real): (c: UncomplicatedCase)
    requires |probGetsTreatment| == 3 && |probParasitesCleared| == 3
    ensures c.regimen == (if withinMemory then UC2 else UC)
    ensures c.treated <==> probGetsTreatment[c.regimen] * seekingFactor > u1
    ensures c.cleared <==> c.treated && probParasitesCleared[c.regimen] > u2
  {
    var regimen := if withinMemory then UC2 else UC;
    var treated := probGetsTreatment[regimen] * seekingFactor > u1;
    UncomplicatedCase(regimen, treated, treated && probParasitesCleared[regimen] > u2)
  }

  /** The sequelae age group of an age: the older group from the first bound on. */
  function SequelaeIndex(ageYears: real): (i: nat)
    ensures i < 2
    ensures i == 1 <==> ageYears >= SEQUELAE_AGE_BOUND[0]
  {
    if ageYears >= SEQUELAE_AGE_BOUND[0] then 1 else 0
  }

  /**
   * The nine cumulative thresholds of a severe case, from the probabilities
   * of treatment (`p2`), cure (`p3`), hospital and community case fatality
   * (`p4`, `p5`) and treated and untreated sequelae (`p6`, `p7`): community
   * death, sequelae and survival; treated failure death, sequelae and
   * survival; treated success death, sequelae and survival.
   */
  function Thresholds(p2: real, p3: real, p4: real, p5: real, p6: real, p7: real): (q: seq<real>)
    ensures |q| == 9
  {
    var q0 := (1.0 - p2) * p5;
    var q1 := q0 + (1.0 - p2) * (1.0 - p5) * p7;
    var q2 := q1 + (1.0 - p2) * (1.0 - p5) * (1.0 - p7);
    var q3 := q2 + p2 * p5 * (1.0 - p3);
    var q4 := q3 + p2 * (1.0 - p3) * (1.0 - p5) * p7;
    var q5 := q4 + p2 * (1.0 - p3) * (1.0 - p5) * (1.0 - p7);
    var q6 := q5 + p2 * p3 * p4;
    var q7 := q6 + p2 * p3 * (1.0 - p4) * p6;
    var q8 := q7 + p2 * p3 * (1.0 - p4) * (1.0 - p6);
    [q0, q1, q2, q3, q4, q5, q6, q7, q8]
  }

  /**
   * With probabilities as inputs the thresholds start at a non-negative
   * value and never decrease.
   */
  lemma ThresholdsMonotone(p2: real, p3: real, p4: real, p5: real, p6: real, p7: real)
    requires Unit(p2) && Unit(p3) && Unit(p4) && Unit(p5) && Unit(p6) && Unit(p7)
    ensures var q := Thresholds(p2, p3, p4, p5, p6, p7);
            0.0 <= q[0] <= q[1] <= q[2] <= q[3] <= q[4] <= q[5] <= q[6] <= q[7] <= q[8]
  {
    UntreatedMonotone(p2, p3, p4, p5, p6, p7);
    TreatedMonotone(p2, p3, p4, p5, p6, p7);
  }

  /** The community thresholds and the first of the treated ones. */
  lemma UntreatedMonotone(p2: real, p3: real, p4: real, p5: real, p6: real, p7: real)
    requires Unit(p2) && Unit(p3) && Unit(p4) && Unit(p5) && Unit(p6) && Unit(p7)
    ensures var q := Thresholds(p2, p3, p4, p5, p6, p7);
            0.0 <= q[0] <= q[1] <= q[2] <= q[3]
  {
    Prod2(1.0 - p2, p5);
    Prod3(1.0 - p2, 1.0 - p5, p7);
    Prod3(1.0 - p2, 1.0 - p5, 1.0 - p7);
    Prod3(p2, p5, 1.0 - p3);
  }

  /** The remaining treated thresholds. */
  lemma TreatedMonotone(p2: real, p3: real, p4: real, p5: real, p6: real, p7: real)
    requires Unit(p2) && Unit(p3) && Unit(p4) && Unit(p5) && Unit(p6) && Unit(p7)
    ensures var q := Thresholds(p2, p3, p4, p5, p6, p7);
            q[3] <= q[4] <= q[5] <= q[6] <= q[7] <= q[8]
  {
    Prod4(p2, 1.0 - p3, 1.0 - p5, p7);
    Prod4(p2, 1.0 - p3, 1.0 - p5, 1.0 - p7);
    Prod3(p2, p3, p4);
    Prod4(p2, p3, 1.0 - p4, p6);
    Prod4(p2, p3, 1.0 - p4, 1.0 - p6);
  }

  /** The nine intervals together cover exactly [0, 1): the last threshold is 1. */
  lemma ThresholdsTotal(p2: real, p3: real, p4: real, p5: real, p6: real, p7: real)
    ensures Thresholds(p2, p3, p4, p5, p6, p7)[8] == 1.0
  {
    var a, b := 1.0 - p2, 1.0 - p5;
    var f := p2 * (1.0 - p3);
    Split(a * b, p7);
    Split(a, p5);
    Split(f * b, p7);
    assert p2 * p5 * (1.0 - p3) == f * p5;
    Split(f, p5);
    Split(p2 * p3 * (1.0 - p4), p6);
    Split(p2 * p3, p4);
    Split(p2, p3);
  }

  /** How a severe case ends: in hospital or not, parasites cleared or not, and the outcome reported (none means survival with no event). */
  datatype SevereCase = SevereCase(treated: bool, cleared: bool, outcome: Option<Flag>)

  /** The outcome `severeMalaria` reads off the thresholds `q` for the draw `u`. */
  function SevereDecision(q: seq<real>, u: real): (c: SevereCase)
    requires |q| == 9
    ensures c.cleared ==> c.treated
    ensures c.outcome.Some? ==> c.outcome.value in {DirectDeath, Sequelae, Recovery}
    ensures c.outcome == Some(Recovery) ==> c.cleared
  {
    if q[2] <= u then
      if q[5] <= u then
        SevereCase(true, true, if q[6] > u then Some(DirectDeath) else if q[7] > u then Some(Sequelae) else Some(Recovery))
      else
        SevereCase(true, false, if q[3] > u then Some(DirectDeath) else if q[4] > u then Some(Sequelae) else None)
    else
      SevereCase(false, false, if q[0] > u then Some(DirectDeath) else if q[1] > u then Some(Sequelae) else None)
  }

  /**
   * Read against the thresholds, the decision is the interval the draw falls
   * in: treated from `q[2]`, cleared from `q[5]`, a death in the first of
   * each group of three intervals and sequelae in the second.
   */
  lemma SevereDecisionIntervals(p2: real, p3: real, p4: real, p5: real, p6: real, p7: real, u: real)
    requires Unit(p2) && Unit(p3) && Unit(p4) && Unit(p5) && Unit(p6) && Unit(p7)
    ensures var q := Thresholds(p2, p3, p4, p5, p6, p7);
            var c := SevereDecision(q, u);
            && (c.treated <==> q[2] <= u)
            && (c.cleared <==> q[5] <= u)
            && (c.outcome == Some(DirectDeath) <==> u < q[0] || (q[2] <= u < q[3]) || (q[5] <= u < q[6]))
            && (c.outcome == Some(Sequelae) <==> (q[0] <= u < q[1]) || (q[3] <= u < q[4]) || (q[6] <= u < q[7]))
  {
    ThresholdsMonotone(p2, p3, p4, p5, p6, p7);
    var q := Thresholds(p2, p3, p4, p5, p6, p7);
  }

  /**
   * The state a severe case reports: severe with its outcome, in hospital
   * when treated; a survival with no event (treated or not) reports the
   * bare severe state.
   */
  function SevereEntry(c: SevereCase): set<Flag>
  {
    if c.outcome.None? then StateSevere
    else StateSevere + (if c.treated then {EventInHospital} else {}) + {c.outcome.value}
  }

  /** The human's side of `OldCaseManagement`. */
  class OldCaseManagement {
    var tLastTreatment: int
    const treatmentSeekingFactor: real

    constructor (tSF: real)
      ensures tLastTreatment == TIMESTEP_NEVER && treatmentSeekingFactor == tSF
    {
      tLastTreatment := TIMESTEP_NEVER;
      treatmentSeekingFactor := tSF;
    }

    /** The decision an uncomplicated case starting at `now` would take with these draws. */
    function UncomplicatedOf(hs: HealthSystemTables, now: int, memory: int, u1: real, u2: real): UncomplicatedCase
      reads this, hs
      requires hs.Valid()
    {
      UncomplicatedDecision(hs.probGetsTreatment, hs.probParasitesCleared, treatmentSeekingFactor,
                            tLastTreatment + memory > now, u1, u2)
    }

    /** The decision a severe case of a human of this age would take with the draw `u`. */
    function SevereOf(hs: HealthSystemTables, ageYears: real, caseFatality: real, communityCaseFatality: real, u: real): SevereCase
      reads this, hs
      requires hs.Valid()
    {
      var g := SequelaeIndex(ageYears);
      SevereDecision(Thresholds(hs.probGetsTreatment[SEVERE] * treatmentSeekingFactor, hs.cureRate[SEVERE],
                                caseFatality, communityCaseFatality,
                                hs.probSequelaeTreated[g], hs.probSequelaeUntreated[g]), u)
    }

    /**
     * `uncomplicatedEvent`: a treated case records the time of treatment
     * and adds to the first- or second-line counter; the case reports
     * uncomplicated malaria or plain sickness; the result says whether the
     * parasites were cleared.
     */
    method UncomplicatedEvent(hs: HealthSystemTables, isMalaria: bool, now: int, memory: int, u1: real, u2: real)
      returns (cleared: bool, report: Report)
      requires hs.Valid()
      modifies this
      ensures var c := old(UncomplicatedOf(hs, now, memory, u1, u2));
              && cleared == c.cleared
              && report == Report(if isMalaria then StateMalaria else {Sick}, if c.treated then c.regimen + 1 else 0)
              && tLastTreatment == (if c.treated then now else old(tLastTreatment))
    {
      var regimen := if tLastTreatment + memory > now then UC2 else UC;
      cleared := false;
      var treatment := 0;
      if hs.probGetsTreatment[regimen] * treatmentSeekingFactor > u1 {
        tLastTreatment := now;
        treatment := regimen + 1;
        if hs.probParasitesCleared[regimen] > u2 {
          cleared := true;
        }
      }
      report := Report(if isMalaria then StateMalaria else {Sick}, treatment);
    }

    /**
     * `severeMalaria`: a case treated in hospital records the time of
     * treatment and adds to the inpatient counter; a direct death sets
     * `doomed` to 4; the result says whether the parasites were cleared.
     */
    method SevereMalaria(hs: HealthSystemTables, now: int, ageYears: real, caseFatality: real, communityCaseFatality: real,
                         u: real, doomed: int)
      returns (cleared: bool, report: Report, doomedAfter: int)
      requires hs.Valid()
      modifies this
      ensures var c := old(SevereOf(hs, ageYears, caseFatality, communityCaseFatality, u));
              && cleared == c.cleared
              && report == Report(SevereEntry(c), if c.treated then SEVERE + 1 else 0)
              && doomedAfter == (if c.outcome == Some(DirectDeath) then DOOMED_SEVERE else doomed)
              && tLastTreatment == (if c.treated then now else old(tLastTreatment))
    {
      var g := SequelaeIndex(ageYears);
      var q := Thresholds(hs.probGetsTreatment[SEVERE] * treatmentSeekingFactor, hs.cureRate[SEVERE],
                          caseFatality, communityCaseFatality, hs.probSequelaeTreated[g], hs.probSequelaeUntreated[g]);
      ghost var c := SevereDecision(q, u);
      doomedAfter := doomed;
      if q[2] <= u {
        tLastTreatment := now;
        var treated := StateSevere + {EventInHospital};
        if q[5] <= u {
          if q[6] > u {
            report := Report(treated + {DirectDeath}, SEVERE + 1);
            doomedAfter := DOOMED_SEVERE;
          } else if q[7] > u {
            report := Report(treated + {Sequelae}, SEVERE + 1);
          } else {
            report := Report(treated + {Recovery}, SEVERE + 1);
          }
          return true, report, doomedAfter;
        } else {
          if q[3] > u {
            report := Report(treated + {DirectDeath}, SEVERE + 1);
            doomedAfter := DOOMED_SEVERE;
          } else if q[4] > u {
            report := Report(treated + {Sequelae}, SEVERE + 1);
          } else {
            report := Report(StateSevere, SEVERE + 1);
          }
          return false, report, doomedAfter;
        }
      } else {
        if q[0] > u {
          report := Report(StateSevere + {DirectDeath}, 0);
          doomedAfter := DOOMED_SEVERE;
        } else if q[1] > u {
          report := Report(StateSevere + {Sequelae}, 0);
        } else {
          report := Report(StateSevere, 0);
        }
        return false, report, doomedAfter;
      }
    }

    /**
     * `doCaseManagement`: a complicated malaria case is severe; a case in
     * exactly the uncomplicated-malaria state, or sickness without malaria,
     * is uncomplicated; a malaria case in any other state (such as one with
     * indirect mortality) reports nothing. A malaria case with indirect
     * mortality whose human is not yet doomed starts the countdown at minus
     * one interval. `effective` says whether the infections are cleared.
     */
    method DoCaseManagement(hs: HealthSystemTables, pgState: set<Flag>, now: int, memory: int, interval: int,
                            ageYears: real, caseFatality: real, communityCaseFatality: real,
                            u1: real, u2: real, u: real, doomed: int)
      returns (effective: bool, report: Option<Report>, doomedAfter: int)
      requires hs.Valid()
      modifies this
      ensures Malaria in pgState && Complicated in pgState ==>
                var c := old(SevereOf(hs, ageYears, caseFatality, communityCaseFatality, u));
                var d := if c.outcome == Some(DirectDeath) then DOOMED_SEVERE else doomed;
                && effective == c.cleared
                && report == Some(Report(SevereEntry(c), if c.treated then SEVERE + 1 else 0))
                && tLastTreatment == (if c.treated then now else old(tLastTreatment))
                && doomedAfter == (if IndirectMortality in pgState && d == 0 then -interval else d)
      ensures pgState == StateMalaria || (Malaria !in pgState && Sick in pgState) ==>
                var c := old(UncomplicatedOf(hs, now, memory, u1, u2));
                && effective == c.cleared
                && report == Some(Report(if Malaria in pgState then StateMalaria else {Sick},
                                         if c.treated then c.regimen + 1 else 0))
                && tLastTreatment == (if c.treated then now else old(tLastTreatment))
                && doomedAfter == doomed
      ensures (Malaria in pgState && Complicated !in pgState && pgState != StateMalaria) ==>
                && !effective && report.None? && tLastTreatment == old(tLastTreatment)
                && doomedAfter == (if IndirectMortality in pgState && doomed == 0 then -interval else doomed)
      ensures Malaria !in pgState && Sick !in pgState ==>
                !effective && report.None? && tLastTreatment == old(tLastTreatment) && doomedAfter == doomed
    {
      effective, report, doomedAfter := false, None, doomed;
      if Malaria in pgState {
        if Complicated in pgState {
          var r;
          effective, r, doomedAfter := SevereMalaria(hs, now, ageYears, caseFatality, communityCaseFatality, u, doomed);
          report := Some(r);
        } else if pgState == StateMalaria {
          var r;
          effective, r := UncomplicatedEvent(hs, true, now, memory, u1, u2);
          report := Some(r);
        }
        if IndirectMortality in pgState && doomedAfter == 0 {
          doomedAfter := -interval;
        }
      } else if Sick in pgState {
        var r;
        effective, r := UncomplicatedEvent(hs, false, now, memory, u1, u2);
        report := Some(r);
      }
    }
  }
}
