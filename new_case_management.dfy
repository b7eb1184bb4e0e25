/**
 * `NewCaseManagement` (openmalaria-615): case management driven by the
 * scenario's case-management trees. A case picks the management of the
 * human's age band, the end-point list of its kind of case, an end-point by
 * a uniform draw, and forwards the medications of that end-point's decision
 * to the within-host model.
 */
module NewCaseManagement {
  import opened Wrappers

  const PKPD_REQUIRED_ERROR := "Error: NewCaseManagement relies on INCLUDES_PK_PD to medicate treatment."
  const NO_MANAGEMENT_ERROR := "No case management for age "
  const INVALID_INFECTION_WARNING := "Invalid infection code: "
  const SUM_ERROR := "Sum of probabilities of case management end-points for some severity type less than 1"
  const MISSING_DECISION_WARNING := "A decision for a case-management end-point doesn't exist (number "

  /** The flags of a `Morbidity::Infection`; `NONE` is the empty set. */
  datatype Morbidity = Malaria | Complicated | NonMalaria | IndirectMortality

  /** A `medicate` element: a drug, a quantity and a time. */
  datatype Medicate = Medicate(name: string, qty: real, time: int)

  datatype Decision = Decision(medicates: seq<Medicate>)

  /** An end-point: its probability and the (1-based) number of its decision. */
  datatype EndPoint = EndPoint(p: real, decision: int)

  datatype CaseType = CaseType(endPoints: seq<EndPoint>)

  /** A case management, used for ages in `[minAgeYrs, maxAgeYrs)`; a missing minimum does not bound. */
  datatype CaseManagement = CaseManagement(
    minAgeYrs: Option<real>, maxAgeYrs: real,
    uc1: CaseType, sev: CaseType, nmf: CaseType,
    decisions: seq<Decision>)

  /**
   * What a call does: nothing, a message and an exception (which ends the
   * run), a message and an early return, or the medications forwarded, in
   * order, to the within-host model.
   */
  datatype Outcome = NoAction | Refused(msg: string) | Skipped(msg: string) | Medicated(meds: seq<Medicate>)

  /** `init`: the model refuses to run without PK/PD. */
  function InitError(includesPkPd: bool): (r: Option<string>)
    ensures r.None? <==> includesPkPd
    ensures r.Some? ==> r.value == PKPD_REQUIRED_ERROR
  {
    if includesPkPd then None else Some(PKPD_REQUIRED_ERROR)
  }

  predicate InBand(m: CaseManagement, ageYears: real)
  {
    ageYears < m.maxAgeYrs && (m.minAgeYrs.None? || m.minAgeYrs.value <= ageYears)
  }

  /** The management a human of this age uses: the last one whose band holds the age. */
  function LastInBand(ms: seq<CaseManagement>, ageYears: real): (r: Option<nat>)
    ensures r.Some? ==> r.value < |ms| && InBand(ms[r.value], ageYears)
    ensures r.Some? ==> forall j | r.value < j < |ms| :: !InBand(ms[j], ageYears)
    ensures r.None? <==> forall j | 0 <= j < |ms| :: !InBand(ms[j], ageYears)
  {
    if |ms| == 0 then None
    else if InBand(ms[|ms| - 1], ageYears) then Some(|ms| - 1)
    else LastInBand(ms[..|ms| - 1], ageYears)
  }

  /** The end-point list of a case: severe for complicated malaria, first-line for other malaria, NMF without malaria. */
  function EndPointsFor(m: CaseManagement, infection: set<Morbidity>): (r: Option<CaseType>)
    ensures r.None? <==> Malaria !in infection && NonMalaria !in infection
    ensures Malaria in infection && Complicated in infection ==> r == Some(m.sev)
    ensures Malaria in infection && Complicated !in infection ==> r == Some(m.uc1)
    ensures Malaria !in infection && NonMalaria in infection ==> r == Some(m.nmf)
  {
    if Malaria in infection then
      if Complicated in infection then Some(m.sev) else Some(m.uc1)
    else if NonMalaria in infection then Some(m.nmf)
    else None
  }

  /** The sum of the first `k` end-point probabilities. */
  function PrefixSum(eps: seq<EndPoint>, k: nat): real
    requires k <= |eps|
  {
    if k == 0 then 0.0 else PrefixSum(eps, k - 1) + eps[k - 1].p
  }

  /** After subtracting the first `j + 1` probabilities, the draw has gone below 0. */
  predicate Crossed(eps: seq<EndPoint>, u: real, j: nat)
    requires j < |eps|
  {
    u - PrefixSum(eps, j + 1) < 0.0
  }

  /** The first end-point at or after `k` at which the running subtraction from the draw goes below 0. */
  function CrossingFrom(eps: seq<EndPoint>, u: real, k: nat): (r: Option<nat>)
    requires k <= |eps|
    ensures r.Some? ==> k <= r.value < |eps| && Crossed(eps, u, r.value)
    ensures r.Some? ==> forall j | k <= j < r.value :: !Crossed(eps, u, j)
    ensures r.None? <==> forall j | k <= j < |eps| :: !Crossed(eps, u, j)
    decreases |eps| - k
  {
    if k == |eps| then None
    else if Crossed(eps, u, k) then Some(k)
    else CrossingFrom(eps, u, k + 1)
  }

  function FirstCrossing(eps: seq<EndPoint>, u: real): (r: Option<nat>)
    ensures r.Some? ==> r.value < |eps| && Crossed(eps, u, r.value)
    ensures r.Some? ==> forall j | 0 <= j < r.value :: !Crossed(eps, u, j)
    ensures r.None? <==> forall j | 0 <= j < |eps| :: !Crossed(eps, u, j)
  {
    CrossingFrom(eps, u, 0)
  }

  /** With non-negative probabilities the prefix sums never decrease. */
  lemma {:induction false} PrefixSumMonotone(eps: seq<EndPoint>, i: nat, k: nat)
    requires i <= k <= |eps|
    requires forall j | 0 <= j < |eps| :: eps[j].p >= 0.0
    ensures PrefixSum(eps, i) <= PrefixSum(eps, k)
    decreases k - i
  {
    if i < k {
      PrefixSumMonotone(eps, i, k - 1);
    }
  }

  /**
   * With non-negative probabilities, no end-point is chosen exactly when
   * all the probabilities together do not exceed the draw; a draw below 1
   * then shows their sum is below 1, as the message says.
   */
  lemma NoEndPointIffSumAtMostDraw(eps: seq<EndPoint>, u: real)
    requires 0.0 <= u
    requires forall j | 0 <= j < |eps| :: eps[j].p >= 0.0
    ensures FirstCrossing(eps, u).None? <==> PrefixSum(eps, |eps|) <= u
  {
    if FirstCrossing(eps, u).None? && |eps| > 0 {
      assert !Crossed(eps, u, |eps| - 1);
    }
    if PrefixSum(eps, |eps|) <= u {
      forall j | 0 <= j < |eps|
        ensures !Crossed(eps, u, j)
      {
        PrefixSumMonotone(eps, j + 1, |eps|);
      }
    }
  }

  /** The end-point a draw selects has the interval `[PrefixSum(k), PrefixSum(k + 1))` containing the draw. */
  lemma ChosenEndPointInterval(eps: seq<EndPoint>, u: real)
    requires 0.0 <= u
    requires forall j | 0 <= j < |eps| :: eps[j].p >= 0.0
    requires FirstCrossing(eps, u).Some?
    ensures var k := FirstCrossing(eps, u).value;
            PrefixSum(eps, k) <= u < PrefixSum(eps, k + 1)
  {
    var k := FirstCrossing(eps, u).value;
    if k > 0 {
      assert !Crossed(eps, u, k - 1);
    }
  }

  /** The guard of the decision look-up as written: only a number above the count is refused. */
  predicate DecisionGuardAsWritten(count: nat, decisionID: int)
  {
    !(count < decisionID)
  }

  /**
   * An end-point with decision 0 gets past both the check for a negative
   * number and the guard as written, and the look-up then reads the decision
   * before the first.
   */
  lemma DecisionZeroReadsBeforeFirst()
    ensures var ct := CaseType([EndPoint(1.0, 0)]);
            var j := FirstCrossing(ct.endPoints, 0.5);
            && j == Some(0)
            && ct.endPoints[j.value].decision == 0
            && DecisionGuardAsWritten(1, 0)
            && 0 - 1 < 0
  {
    var eps := [EndPoint(1.0, 0)];
    assert Crossed(eps, 0.5, 0);
  }

  /** The guard the look-up of the `decisionID`-th decision evidently needs. */
  predicate DecisionExists(count: nat, decisionID: int)
  {
    1 <= decisionID <= count
  }

  /** The corrected guard lets through exactly the numbers the look-up can read, and refuses 0. */
  lemma DecisionExistsInRange(count: nat, decisionID: int)
    ensures DecisionExists(count, decisionID) <==> 0 <= decisionID - 1 < count
    ensures DecisionGuardAsWritten(count, decisionID) && decisionID >= 1 <==> DecisionExists(count, decisionID)
  {
  }

  /**
   * What `doCaseManagement` does for this infection, these managements (none
   * when the scenario has no case managements) and this draw, with the
   * corrected decision guard.
   */
  function CaseOutcome(infection: set<Morbidity>, managements: Option<seq<CaseManagement>>, ageYears: real, u: real): (r: Outcome)
    ensures infection == {} || managements.None? || (managements.Some? && |managements.value| == 0) ==> r == NoAction
    ensures r == Refused(NO_MANAGEMENT_ERROR) <==>
              && infection != {} && managements.Some? && |managements.value| > 0
              && forall j | 0 <= j < |managements.value| :: !InBand(managements.value[j], ageYears)
    ensures r.Medicated? ==>
              && infection != {} && managements.Some? && LastInBand(managements.value, ageYears).Some?
              && var k := LastInBand(managements.value, ageYears).value;
                 && EndPointsFor(managements.value[k], infection).Some?
                 && var ct := EndPointsFor(managements.value[k], infection).value;
                    && FirstCrossing(ct.endPoints, u).Some?
                    && var id := ct.endPoints[FirstCrossing(ct.endPoints, u).value].decision;
                       && DecisionExists(|managements.value[k].decisions|, id)
                       && r.meds == managements.value[k].decisions[id - 1].medicates
  {
    if infection == {} then NoAction
    else if managements.None? || |managements.value| == 0 then NoAction
    else
      var ms := managements.value;
      match LastInBand(ms, ageYears)
      case None => Refused(NO_MANAGEMENT_ERROR)
      case Some(k) =>
        var m := ms[k];
        match EndPointsFor(m, infection)
        case None => Skipped(INVALID_INFECTION_WARNING)
        case Some(ct) =>
          match FirstCrossing(ct.endPoints, u)
          case None => Refused(SUM_ERROR)
          case Some(e) =>
            var id := ct.endPoints[e].decision;
            if id < 0 then Refused(SUM_ERROR)
            else if !DecisionExists(|m.decisions|, id) then Skipped(MISSING_DECISION_WARNING)
            else Medicated(m.decisions[id - 1].medicates)
  }

  /** A NewCaseManagement object of a human. */
  class NewCaseManagement {
    const treatmentSeekingFactor: real

    constructor (tSF: real)
      ensures treatmentSeekingFactor == tSF
    {
      treatmentSeekingFactor := tSF;
    }

    /** The band loop: the chosen management moves to each one whose band holds the age. */
    static method ChooseManagement(ms: seq<CaseManagement>, ageYears: real) returns (k: Option<nat>)
      ensures k == LastInBand(ms, ageYears)
    {
      k := None;
      for i := 0 to |ms|
        invariant k == LastInBand(ms[..i], ageYears)
      {
        assert ms[..i + 1][..i] == ms[..i];
        if InBand(ms[i], ageYears) {
          k := Some(i);
        }
      }
      assert ms[..|ms|] == ms;
    }

    /** The end-point loop: the draw less each probability in turn, until it goes below 0. */
    static method ChooseEndPoint(eps: seq<EndPoint>, u: real) returns (decisionID: int)
      ensures FirstCrossing(eps, u).None? ==> decisionID == -1
      ensures FirstCrossing(eps, u).Some? ==> decisionID == eps[FirstCrossing(eps, u).value].decision
    {
      var randCum := u;
      decisionID := -1;
      var i := 0;
      while i < |eps|
        invariant 0 <= i <= |eps|
        invariant randCum == u - PrefixSum(eps, i)
        invariant forall j | 0 <= j < i :: !Crossed(eps, u, j)
        invariant decisionID == -1
      {
        randCum := randCum - eps[i].p;
        if randCum < 0.0 {
          assert CrossingFrom(eps, u, i) == Some(i);
          CrossingSkips(eps, u, i);
          return eps[i].decision;
        }
        i := i + 1;
      }
      CrossingSkips(eps, u, |eps|);
    }

    /** The medicate loop: each medication of the decision forwarded in order. */
    static method Forward(medicates: seq<Medicate>) returns (forwarded: seq<Medicate>)
      ensures forwarded == medicates
    {
      forwarded := [];
      for i := 0 to |medicates|
        invariant forwarded == medicates[..i]
      {
        forwarded := forwarded + [Medicate(medicates[i].name, medicates[i].qty, medicates[i].time)];
      }
    }

    /**
     * `doCaseManagement` with the corrected decision guard: nothing without
     * an infection or without managements; the age band, the end-point list
     * and the end-point chosen in turn; the decision's medications forwarded.
     */
    method DoCaseManagement(infection: set<Morbidity>, managements: Option<seq<CaseManagement>>, ageYears: real, u: real)
      returns (r: Outcome)
      ensures r == CaseOutcome(infection, managements, ageYears, u)
    {
      if infection == {} {
        return NoAction;
      }
      if managements.None? || |managements.value| == 0 {
        return NoAction;
      }
      var ms := managements.value;
      var chosen := ChooseManagement(ms, ageYears);
      if chosen.None? {
        return Refused(NO_MANAGEMENT_ERROR);
      }
      var m := ms[chosen.value];
      var caseType: CaseType;
      if Malaria in infection {
        if Complicated in infection {
          caseType := m.sev;
        } else {
          caseType := m.uc1;
        }
      } else if NonMalaria in infection {
        caseType := m.nmf;
      } else {
        return Skipped(INVALID_INFECTION_WARNING);
      }
      var decisionID := ChooseEndPoint(caseType.endPoints, u);
      if decisionID < 0 {
        return Refused(SUM_ERROR);
      }
      if !DecisionExists(|m.decisions|, decisionID) {
        return Skipped(MISSING_DECISION_WARNING);
      }
      var medicates := m.decisions[decisionID - 1].medicates;
      if |medicates| == 0 {
        return Medicated([]);
      }
      var forwarded := Forward(medicates);
      return Medicated(forwarded);
    }
  }

  /** The first crossing from 0 is the first from `i` when none comes before `i`. */
  lemma {:induction false} CrossingSkips(eps: seq<EndPoint>, u: real, i: nat)
    requires i <= |eps|
    requires forall j | 0 <= j < i :: !Crossed(eps, u, j)
    ensures FirstCrossing(eps, u) == CrossingFrom(eps, u, i)
    decreases i
  {
    if i > 0 {
      CrossingSkips(eps, u, i - 1);
    }
  }
}
