/**
 * `ClinicalEventScheduler` (trunk): the one-day clinical model. Each human
 * carries a pathogenesis state made of flags, the times of case start,
 * recovery and last treatment, and a queue of medications waiting to be
 * given. `doClinicalUpdate` moves that state on by one day: the recovery
 * day, a new event or the risk of a later-day death, the start of a case,
 * and the medication queue.
 */
module EventScheduler {
  import opened Wrappers
  import opened Global
  import ESCaseManagement
  import opened Pathogenesis

  type MedicateData = ESCaseManagement.MedicateData

  /** Where case management sends a patient. */
  datatype Hospitalisation = NoHospital | Immediate | Delayed

  /** The doomed code of a death at the end of a complicated case. */
  const DOOMED_COMPLICATED: int := 4

  const DURATION_ERROR := "Clinical outcomes: constraints on case/risk/memory duration not met (see documentation)"
  const RANGE_ERROR := "Clinical outcomes: pImmediateUC and propDeathsFirstDay should be within range [0,1]"
  const HETEROGENEITY_ERROR := "treatment seeking heterogeneity not supported"

  // ----- setParameters -----

  /** The scheduler's parameters, shared by all humans. */
  datatype Params = Params(maxUCSeekingMemory: int, uncomplicatedCaseDuration: int, complicatedCaseDuration: int,
                           extraDaysAtRisk: int, pImmediateUC: real)

  /**
   * `setParameters`: `riskDuration` is the complicated-case risk duration
   * and `alpha` the proportion of deaths on the first day, as computed from
   * its parameter. The durations are checked first, then the two
   * proportions.
   */
  function SetParameters(maxUCSeekingMemory: int, uncomplicatedCaseDuration: int, complicatedCaseDuration: int,
                         riskDuration: int, pImmediateUC: real, alpha: real): (r: Result<Params>)
    ensures r.Ok? <==> && uncomplicatedCaseDuration >= 1 && complicatedCaseDuration >= 1 && maxUCSeekingMemory >= 0
                       && 1 <= riskDuration <= complicatedCaseDuration
                       && 0.0 <= alpha <= 1.0 && 0.0 <= pImmediateUC <= 1.0
    ensures r.Err? ==> r.msg == if uncomplicatedCaseDuration >= 1 && complicatedCaseDuration >= 1 && maxUCSeekingMemory >= 0
                                   && 1 <= riskDuration <= complicatedCaseDuration
                                then RANGE_ERROR else DURATION_ERROR
    ensures r.Ok? ==> r.value == Params(maxUCSeekingMemory, uncomplicatedCaseDuration, complicatedCaseDuration,
                                        riskDuration - complicatedCaseDuration, pImmediateUC)
    ensures r.Ok? ==> ValidParams(r.value)
  {
    var extraDaysAtRisk := riskDuration - complicatedCaseDuration;
    if uncomplicatedCaseDuration < 1 || complicatedCaseDuration < 1 || maxUCSeekingMemory < 0
       || extraDaysAtRisk + complicatedCaseDuration < 1 || extraDaysAtRisk > 0 then
      Err(DURATION_ERROR)
    else if !(0.0 <= alpha && alpha <= 1.0) || !(0.0 <= pImmediateUC && pImmediateUC <= 1.0) then
      Err(RANGE_ERROR)
    else
      Ok(Params(maxUCSeekingMemory, uncomplicatedCaseDuration, complicatedCaseDuration, extraDaysAtRisk, pImmediateUC))
  }

  /** What `setParameters` guarantees: a complicated case is at risk for at least one day and no longer than it lasts. */
  predicate ValidParams(p: Params)
  {
    && p.uncomplicatedCaseDuration >= 1 && p.complicatedCaseDuration >= 1 && p.maxUCSeekingMemory >= 0
    && p.extraDaysAtRisk <= 0 && p.complicatedCaseDuration + p.extraDaysAtRisk >= 1
    && 0.0 <= p.pImmediateUC <= 1.0
  }

  /** The constructor's check: treatment-seeking heterogeneity is refused. */
  function SeekingFactorError(treatmentSeekingFactor: real): (r: Option<string>)
    ensures r.None? <==> treatmentSeekingFactor == 1.0
    ensures r.Some? ==> r.value == HETEROGENEITY_ERROR
  {
    if treatmentSeekingFactor != 1.0 then Some(HETEROGENEITY_ERROR) else None
  }

  /** The index of the first weight multiplier drawn that is large enough, which the resampling loop keeps. */
  function FirstAtLeast(draws: seq<real>, min: real): (r: nat)
    requires exists k :: 0 <= k < |draws| && draws[k] >= min
    ensures r < |draws| && draws[r] >= min
    ensures forall k :: 0 <= k < r ==> draws[k] < min
    decreases |draws|
  {
    if draws[0] >= min then 0
    else
      assert exists k :: 0 <= k < |draws[1..]| && draws[1..][k] >= min by {
        var k :| 0 <= k < |draws| && draws[k] >= min;
        assert draws[1..][k - 1] == draws[k];
      }
      1 + FirstAtLeast(draws[1..], min)
  }

  /** When a case started at `now` in state `pg` ends: the case duration, shortened to the end of the risk window for a complicated case already doomed. */
  function RecoveryTime(now: int, pg: set<Flag>, p: Params): int
  {
    if Complicated in pg then
      now + p.complicatedCaseDuration + (if DirectDeath in pg then p.extraDaysAtRisk else 0)
    else now + p.uncomplicatedCaseDuration
  }

  /**
   * The progression state after the recovery day: cleared on the day of
   * recovery unless the human is doomed by a direct death.
   */
  function AfterRecovery(now: int, timeOfRecovery: int, pg: set<Flag>): set<Flag>
  {
    if now == timeOfRecovery && DirectDeath !in pg then {} else pg
  }

  /**
   * Whether case management happens today from state `pg`: never for a
   * complicated case; on progression to complicated; and for a human not
   * sick, when treatment seeking is pending (already, or from a new
   * sickness) and the draw falls below `pImmediateUC`.
   */
  predicate CaseEventToday(pg: set<Flag>, newState: set<Flag>, uImmediate: real, p: Params)
  {
    Complicated !in pg &&
    (Complicated in newState ||
     (Sick !in pg && (PendingUC in pg || Sick in newState) && uImmediate < p.pImmediateUC))
  }

  /** With valid parameters a case lasts at least a day, and a doomed complicated case no longer than a surviving one. */
  lemma RecoveryTimeBounds(now: int, pg: set<Flag>, p: Params)
    requires ValidParams(p)
    ensures now + 1 <= RecoveryTime(now, pg, p)
    ensures Complicated in pg ==> RecoveryTime(now, pg, p) <= now + p.complicatedCaseDuration
    ensures Complicated in pg && DirectDeath in pg ==> RecoveryTime(now, pg, p) == now + p.complicatedCaseDuration + p.extraDaysAtRisk
    ensures Complicated !in pg ==> RecoveryTime(now, pg, p) == now + p.uncomplicatedCaseDuration
  {
  }

  /** Two states equal outside some flags agree on every other flag. */
  lemma SameOutside(a: set<Flag>, b: set<Flag>, changed: set<Flag>)
    requires a - changed == b - changed
    ensures forall f :: f !in changed ==> (f in a <==> f in b)
  {
    forall f | f !in changed
      ensures f in a <==> f in b
    {
      assert f in a <==> f in a - changed;
      assert f in b <==> f in b - changed;
    }
  }

  // ----- The medication queue -----

  predicate IsDue(m: MedicateData) { m.time < 1.0 }

  predicate IsWaiting(m: MedicateData) { !(m.time < 1.0) }

  /** The elements of q satisfying keep, in order. */
  function Filter(q: seq<MedicateData>, keep: MedicateData -> bool): seq<MedicateData>
    decreases |q|
  {
    if q == [] then [] else Filter(q[..|q| - 1], keep) + (if keep(q[|q| - 1]) then [q[|q| - 1]] else [])
  }

  /** The indices of the elements of q satisfying keep, in order. */
  function FilterIndices(q: seq<MedicateData>, keep: MedicateData -> bool): seq<nat>
    decreases |q|
  {
    if q == [] then [] else FilterIndices(q[..|q| - 1], keep) + (if keep(q[|q| - 1]) then [|q| - 1] else [])
  }

  /**
   * The filter keeps exactly the elements satisfying keep, in their order:
   * the k-th kept element is the one at the k-th kept index, the indices
   * increase, and every index whose element satisfies keep is among them.
   */
  lemma {:induction false} FilterMeaning(q: seq<MedicateData>, keep: MedicateData -> bool)
    decreases |q|
    ensures |Filter(q, keep)| == |FilterIndices(q, keep)|
    ensures forall k :: 0 <= k < |FilterIndices(q, keep)| ==>
              FilterIndices(q, keep)[k] < |q| && keep(q[FilterIndices(q, keep)[k]]) && Filter(q, keep)[k] == q[FilterIndices(q, keep)[k]]
    ensures forall k, l :: 0 <= k < l < |FilterIndices(q, keep)| ==> FilterIndices(q, keep)[k] < FilterIndices(q, keep)[l]
    ensures forall j :: 0 <= j < |q| && keep(q[j]) ==> j in FilterIndices(q, keep)
  {
    if q != [] {
      var init := q[..|q| - 1];
      FilterMeaning(init, keep);
      var ix := FilterIndices(init, keep);
      var r := Filter(init, keep);
      forall k | 0 <= k < |ix|
        ensures FilterIndices(q, keep)[k] == ix[k] && Filter(q, keep)[k] == r[k] && q[ix[k]] == init[ix[k]]
      {
      }
      forall j | 0 <= j < |q| && keep(q[j])
        ensures j in FilterIndices(q, keep)
      {
        if j < |q| - 1 {
          assert init[j] == q[j];
          var k :| 0 <= k < |ix| && ix[k] == j;
          assert FilterIndices(q, keep)[k] == j;
        }
      }
    }
  }

  /** The waiting medications after a day: each due one a day sooner. */
  function Decremented(q: seq<MedicateData>): (r: seq<MedicateData>)
    ensures |r| == |q|
  {
    seq(|q|, k requires 0 <= k < |q| => q[k].(time := q[k].time - 1.0))
  }

  /** The medications given today, and the queue left for tomorrow. */
  function GivenToday(q: seq<MedicateData>): seq<MedicateData> { Filter(q, IsDue) }

  function QueueAfter(q: seq<MedicateData>): seq<MedicateData> { Decremented(Filter(q, IsWaiting)) }

  /**
   * Every medication is either given today or kept: the two lists split the
   * queue, those given are exactly the ones due before tomorrow, and every
   * kept one, in its original order, is one day nearer with a time still
   * non-negative.
   */
  lemma QueueStep(q: seq<MedicateData>)
    ensures |GivenToday(q)| + |QueueAfter(q)| == |q|
    ensures forall k :: 0 <= k < |GivenToday(q)| ==> GivenToday(q)[k].time < 1.0
    ensures |QueueAfter(q)| == |FilterIndices(q, IsWaiting)|
    ensures forall k :: 0 <= k < |FilterIndices(q, IsWaiting)| ==>
              var j := FilterIndices(q, IsWaiting)[k];
              j < |q| && q[j].time >= 1.0 && QueueAfter(q)[k] == q[j].(time := q[j].time - 1.0) && QueueAfter(q)[k].time >= 0.0
    ensures forall k, l :: 0 <= k < l < |FilterIndices(q, IsWaiting)| ==> FilterIndices(q, IsWaiting)[k] < FilterIndices(q, IsWaiting)[l]
    ensures forall j :: 0 <= j < |q| ==> (q[j].time < 1.0 ==> j in FilterIndices(q, IsDue)) && (q[j].time >= 1.0 ==> j in FilterIndices(q, IsWaiting))
  {
    FilterMeaning(q, IsDue);
    FilterMeaning(q, IsWaiting);
    FilterSplit(q);
  }

  lemma {:induction false} FilterSplit(q: seq<MedicateData>)
    decreases |q|
    ensures |Filter(q, IsDue)| + |Filter(q, IsWaiting)| == |q|
  {
    if q != [] {
      FilterSplit(q[..|q| - 1]);
    }
  }

  /** What the survey records for one medication given: intravenous use is scaled by body mass. */
  datatype DrugUsage = DrugUsage(abbrev: string, amount: real, intravenous: bool)

  function UsageOf(m: MedicateData, bodyMass: real): (r: DrugUsage)
    ensures r.abbrev == m.abbrev
    ensures r.intravenous <==> m.duration.Some? && m.duration.value > 0.0
    ensures r.amount == if r.intravenous then m.costQty * bodyMass else m.costQty
  {
    if m.duration.Some? && m.duration.value > 0.0 then DrugUsage(m.abbrev, m.costQty * bodyMass, true)
    else DrugUsage(m.abbrev, m.costQty, false)
  }

  // ----- The scheduler -----

  /** What case management and the within-host model tell the scheduler during one update. */
  datatype External = External(
    newState: set<Flag>,
    pSequelaeInpatient: real,
    healthSystemMemory: int,
    queueAfterExecute: seq<MedicateData>,
    hospitalisation: Hospitalisation,
    caseFatality: real,
    communityCaseFatality: real,
    totalDensity: real,
    pDeathLater: real,
    pDeathLaterCommunity: real,
    nonMalariaFevers: bool,
    nmfDeath: bool,
    bodyMass: real,
    /** Whether the PENALISATION_EPISODES option is set. */
    penalisationEpisodes: bool,
    /** The outcome of the draw that gives a non-malaria fever an antibiotic. */
    antibioticGiven: bool)

  /** The uniform draws of one update, one per place the source draws. */
  datatype Draws = Draws(sequelae: real, immediateUC: real, firstDayDeath: real, laterDeath: real)

  /** What one update reports to the rest of the simulation. */
  datatype Outputs = Outputs(
    episode: Option<set<Flag>>,
    returnsToTransmission: bool,
    treatmentReport: nat,
    removedFromTransmission: bool,
    medicated: seq<MedicateData>,
    usage: seq<DrugUsage>,
    leavesCohort: bool,
    /** Whether the within-host model's `immunityPenalisation` was called. */
    immunityPenalised: bool,
    /** Whether one antibiotic treatment was reported to the survey. */
    antibioticReported: bool)

  class ClinicalEventScheduler {
    var pgState: set<Flag>
    var caseStartTime: int
    var timeOfRecovery: int
    var timeLastTreatment: int
    /** The density when the last risk of death was computed; NaN before the first. */
    var previousDensity: Option<real>
    var hetWeightMultiplier: real
    var medicateQueue: seq<MedicateData>
    /** Inherited from the clinical model: 0 while alive, a code once doomed, negative while counting down. */
    var doomed: int

    /**
     * The constructor, once its treatment-seeking factor has passed
     * `SeekingFactorError`: every time starts at never, and the weight
     * multiplier is drawn again until it is at least `minHetWeightMult`.
     */
    constructor (treatmentSeekingFactor: real, weightDraws: seq<real>, minHetWeightMult: real)
      requires SeekingFactorError(treatmentSeekingFactor).None?
      requires exists k :: 0 <= k < |weightDraws| && weightDraws[k] >= minHetWeightMult
      ensures pgState == {} && medicateQueue == [] && doomed == 0 && previousDensity.None?
      ensures caseStartTime == TIMESTEP_NEVER && timeOfRecovery == TIMESTEP_NEVER && timeLastTreatment == TIMESTEP_NEVER
      ensures hetWeightMultiplier == weightDraws[FirstAtLeast(weightDraws, minHetWeightMult)]
    {
      pgState := {};
      caseStartTime := TIMESTEP_NEVER;
      timeOfRecovery := TIMESTEP_NEVER;
      timeLastTreatment := TIMESTEP_NEVER;
      previousDensity := None;
      medicateQueue := [];
      doomed := 0;
      var k := 0;
      var mult := weightDraws[0];
      while mult < minHetWeightMult
        invariant 0 <= k < |weightDraws| && mult == weightDraws[k]
        invariant forall j :: 0 <= j < k ==> weightDraws[j] < minHetWeightMult
        invariant k <= FirstAtLeast(weightDraws, minHetWeightMult)
        decreases FirstAtLeast(weightDraws, minHetWeightMult) - k
      {
        k := k + 1;
        mult := weightDraws[k];
      }
      hetWeightMultiplier := mult;
    }

    /**
     * The recovery day: a doomed human dies and its episode is reported; a
     * case still pending treatment seeking is forgotten; any other case is
     * reported with its recovery or sequelae and the human, healthy again,
     * returns to transmission.
     */
    method RecoveryDay(now: int, uSequelae: real, pSequelae: real) returns (episode: Option<set<Flag>>, rejoins: bool)
      modifies this
      ensures now != old(timeOfRecovery) ==> pgState == old(pgState) && doomed == old(doomed) && episode.None? && !rejoins
      ensures now == old(timeOfRecovery) && DirectDeath in old(pgState) ==>
                doomed == DOOMED_COMPLICATED && pgState == old(pgState) && episode == Some(old(pgState)) && !rejoins
      ensures now == old(timeOfRecovery) && DirectDeath !in old(pgState) && PendingUC in old(pgState) ==>
                pgState == {} && doomed == old(doomed) && episode.None? && !rejoins
      ensures now == old(timeOfRecovery) && DirectDeath !in old(pgState) && PendingUC !in old(pgState) ==>
                && pgState == {} && doomed == old(doomed) && rejoins
                && episode == Some(old(pgState) + {if Complicated in old(pgState) && uSequelae < pSequelae then Sequelae else Recovery})
      ensures caseStartTime == old(caseStartTime) && timeOfRecovery == old(timeOfRecovery) && timeLastTreatment == old(timeLastTreatment)
      ensures previousDensity == old(previousDensity) && medicateQueue == old(medicateQueue) && hetWeightMultiplier == old(hetWeightMultiplier)
    {
      episode, rejoins := None, false;
      if now == timeOfRecovery {
        if DirectDeath in pgState {
          doomed := DOOMED_COMPLICATED;
          episode := Some(pgState);
        } else if PendingUC in pgState {
          pgState := {};
        } else {
          if Complicated in pgState {
            if uSequelae < pSequelae {
              pgState := pgState + {Sequelae};
            } else {
              pgState := pgState + {Recovery};
            }
          } else {
            pgState := pgState + {Recovery};
          }
          episode := Some(pgState);
          pgState := {};
          rejoins := true;
        }
      }
    }

    /**
     * Whether case management happens today. A complicated case has no new
     * events; an uncomplicated one only progression to complicated; a
     * healthy or pending human becomes complicated at once, or on a new
     * sickness starts pending treatment seeking (only if not already
     * pending) until the memory runs out, and a pending human seeks
     * treatment today with probability `pImmediateUC`.
     */
    method NewEvent(now: int, newState: set<Flag>, uImmediate: real, p: Params) returns (cmEvent: bool)
      modifies this
      ensures Complicated in old(pgState) ==> !cmEvent && pgState == old(pgState) && timeOfRecovery == old(timeOfRecovery)
      ensures Complicated !in old(pgState) && Complicated in newState ==>
                cmEvent && pgState == old(pgState) + newState && timeOfRecovery == old(timeOfRecovery)
      ensures Complicated !in old(pgState) && Complicated !in newState && Sick in old(pgState) ==>
                !cmEvent && pgState == old(pgState) && timeOfRecovery == old(timeOfRecovery)
      ensures Complicated !in old(pgState) && Complicated !in newState && Sick !in old(pgState) ==>
                && (if Sick in newState && PendingUC !in old(pgState)
                    then pgState == old(pgState) + newState + {PendingUC} && timeOfRecovery == now + p.maxUCSeekingMemory
                    else pgState == old(pgState) && timeOfRecovery == old(timeOfRecovery))
                && (cmEvent <==> PendingUC in pgState && uImmediate < p.pImmediateUC)
      ensures caseStartTime == old(caseStartTime) && timeLastTreatment == old(timeLastTreatment) && doomed == old(doomed)
      ensures previousDensity == old(previousDensity) && medicateQueue == old(medicateQueue) && hetWeightMultiplier == old(hetWeightMultiplier)
    {
      cmEvent := false;
      if Complicated in pgState {
      } else if Sick in pgState {
        if Complicated in newState {
          pgState := pgState + newState;
          cmEvent := true;
        }
      } else {
        if Complicated in newState {
          pgState := pgState + newState;
          cmEvent := true;
        } else {
          if Sick in newState {
            if PendingUC !in pgState {
              timeOfRecovery := now + p.maxUCSeekingMemory;
              pgState := pgState + newState + {PendingUC};
            }
          }
          if PendingUC in pgState {
            if uImmediate < p.pImmediateUC {
              cmEvent := true;
            }
          }
        }
      }
    }

    /**
     * A case-management event: pending treatment seeking ends, the case is
     * a second case when the last treatment is within the health system's
     * memory, and the case starts today, or tomorrow when hospital entry is
     * delayed. A malaria case penalises immunity when episodes are
     * penalised. A complicated case not yet doomed may die on its first day;
     * a non-malaria fever may be given an antibiotic, and one needing
     * treatment may kill.
     */
    method CaseManagementEvent(now: int, ext: External, uDeath: real) returns (treatmentReport: nat, penalised: bool, antibiotic: bool)
      modifies this
      ensures penalised <==> ext.penalisationEpisodes && Malaria in old(pgState)
      ensures antibiotic <==> ext.nonMalariaFevers && ext.antibioticGiven && Sick in old(pgState) && Complicated !in old(pgState)
      ensures PendingUC !in pgState
      ensures SecondCase in pgState <==> SecondCase in old(pgState) || old(timeLastTreatment) + ext.healthSystemMemory > now
      ensures EventInHospital in pgState <==> EventInHospital in old(pgState) || ext.hospitalisation != NoHospital
      ensures var pDeath := if ext.hospitalisation == Immediate then ext.caseFatality else ext.communityCaseFatality;
              && (EventFirstDay in pgState <==>
                    EventFirstDay in old(pgState) || (Complicated in old(pgState) && DirectDeath !in old(pgState) && uDeath < pDeath))
              && (DirectDeath in pgState <==>
                    || DirectDeath in old(pgState)
                    || (Complicated in old(pgState) && uDeath < pDeath)
                    || (ext.nonMalariaFevers && ext.nmfDeath && Sick in old(pgState) && Complicated !in old(pgState)))
      ensures pgState - {PendingUC, SecondCase, EventInHospital, DirectDeath, EventFirstDay}
              == old(pgState) - {PendingUC, SecondCase, EventInHospital, DirectDeath, EventFirstDay}
      ensures caseStartTime == if ext.hospitalisation == Delayed then now + 1 else now
      ensures medicateQueue == ext.queueAfterExecute
      ensures timeLastTreatment == if |ext.queueAfterExecute| > 0 then now else old(timeLastTreatment)
      ensures treatmentReport == if |ext.queueAfterExecute| == 0 then 0
                                 else if Complicated in pgState then 3 else if SecondCase in pgState then 2 else 1
      ensures previousDensity == if Complicated in old(pgState) && DirectDeath !in old(pgState) then Some(ext.totalDensity) else old(previousDensity)
      ensures timeOfRecovery == old(timeOfRecovery) && doomed == old(doomed) && hetWeightMultiplier == old(hetWeightMultiplier)
    {
      ghost var pg0 := pgState;
      treatmentReport, penalised := OpenCase(now, ext);
      ghost var pg1 := pgState;
      SameOutside(pg0, pg1, {PendingUC, SecondCase, EventInHospital});
      antibiotic := FirstDayRisk(ext, uDeath);
      SameOutside(pg1, pgState, {DirectDeath, EventFirstDay});
    }

    /**
     * The first half of a case-management event: treatment seeking ends, the
     * case starts, immunity is penalised for a malaria case when that option
     * is set, and treatment and hospital entry are recorded.
     */
    method OpenCase(now: int, ext: External) returns (treatmentReport: nat, penalised: bool)
      modifies this
      ensures penalised <==> ext.penalisationEpisodes && Malaria in old(pgState)
      ensures PendingUC !in pgState
      ensures SecondCase in pgState <==> SecondCase in old(pgState) || old(timeLastTreatment) + ext.healthSystemMemory > now
      ensures EventInHospital in pgState <==> EventInHospital in old(pgState) || ext.hospitalisation != NoHospital
      ensures pgState - {PendingUC, SecondCase, EventInHospital} == old(pgState) - {PendingUC, SecondCase, EventInHospital}
      ensures caseStartTime == if ext.hospitalisation == Delayed then now + 1 else now
      ensures medicateQueue == ext.queueAfterExecute
      ensures timeLastTreatment == if |ext.queueAfterExecute| > 0 then now else old(timeLastTreatment)
      ensures treatmentReport == if |ext.queueAfterExecute| == 0 then 0
                                 else if Complicated in pgState then 3 else if SecondCase in pgState then 2 else 1
      ensures timeOfRecovery == old(timeOfRecovery) && doomed == old(doomed) && hetWeightMultiplier == old(hetWeightMultiplier)
      ensures previousDensity == old(previousDensity)
    {
      pgState := pgState - {PendingUC};
      if timeLastTreatment + ext.healthSystemMemory > now {
        pgState := pgState + {SecondCase};
      }
      caseStartTime := now;
      penalised := false;
      if Malaria in pgState {
        if ext.penalisationEpisodes {
          penalised := true;
        }
      }
      medicateQueue := ext.queueAfterExecute;
      treatmentReport := 0;
      if |medicateQueue| > 0 {
        timeLastTreatment := now;
        if Complicated in pgState {
          treatmentReport := 3;
        } else if SecondCase in pgState {
          treatmentReport := 2;
        } else {
          treatmentReport := 1;
        }
      }
      if ext.hospitalisation != NoHospital {
        pgState := pgState + {EventInHospital};
        if ext.hospitalisation == Delayed {
          caseStartTime := caseStartTime + 1;
        }
      }
    }

    /**
     * The second half: the first-day risk of death of a complicated case;
     * then, for a non-malaria fever, the antibiotic report and its risk of
     * death.
     */
    method FirstDayRisk(ext: External, uDeath: real) returns (antibiotic: bool)
      modifies this
      ensures antibiotic <==> ext.nonMalariaFevers && ext.antibioticGiven && Sick in old(pgState) && Complicated !in old(pgState)
      ensures var pDeath := if ext.hospitalisation == Immediate then ext.caseFatality else ext.communityCaseFatality;
              && (EventFirstDay in pgState <==>
                    EventFirstDay in old(pgState) || (Complicated in old(pgState) && DirectDeath !in old(pgState) && uDeath < pDeath))
              && (DirectDeath in pgState <==>
                    || DirectDeath in old(pgState)
                    || (Complicated in old(pgState) && uDeath < pDeath)
                    || (ext.nonMalariaFevers && ext.nmfDeath && Sick in old(pgState) && Complicated !in old(pgState)))
      ensures pgState - {DirectDeath, EventFirstDay} == old(pgState) - {DirectDeath, EventFirstDay}
      ensures previousDensity == if Complicated in old(pgState) && DirectDeath !in old(pgState) then Some(ext.totalDensity) else old(previousDensity)
      ensures caseStartTime == old(caseStartTime) && medicateQueue == old(medicateQueue) && timeLastTreatment == old(timeLastTreatment)
      ensures timeOfRecovery == old(timeOfRecovery) && doomed == old(doomed) && hetWeightMultiplier == old(hetWeightMultiplier)
    {
      if Complicated in pgState && DirectDeath !in pgState {
        var pDeath := ext.caseFatality;
        if ext.hospitalisation != Immediate {
          pDeath := ext.communityCaseFatality;
        }
        if uDeath < pDeath {
          pgState := pgState + {DirectDeath, EventFirstDay};
        }
        previousDensity := Some(ext.totalDensity);
      }
      antibiotic := false;
      if ext.nonMalariaFevers {
        if Sick in pgState && Complicated !in pgState {
          if ext.antibioticGiven {
            antibiotic := true;
          }
          if ext.nmfDeath {
            pgState := pgState + {DirectDeath};
          }
        }
      }
    }

    /**
     * A day without an event: a complicated case not yet doomed and still
     * inside its risk window may die, and its death moves recovery to the
     * end of the risk window.
     */
    method LaterDayRisk(now: int, ext: External, uDeath: real, p: Params)
      modifies this
      ensures var atRisk := Complicated in old(pgState) && DirectDeath !in old(pgState) && now < old(timeOfRecovery) + p.extraDaysAtRisk;
              var pDeath := if EventInHospital in old(pgState) then ext.pDeathLater else ext.pDeathLaterCommunity;
              var dies := atRisk && ext.totalDensity > 0.0 && uDeath < pDeath;
              && pgState == (if dies then old(pgState) + {DirectDeath} else old(pgState))
              && timeOfRecovery == (if dies then old(timeOfRecovery) + p.extraDaysAtRisk else old(timeOfRecovery))
              && previousDensity == (if atRisk then Some(ext.totalDensity) else old(previousDensity))
      ensures caseStartTime == old(caseStartTime) && timeLastTreatment == old(timeLastTreatment) && doomed == old(doomed)
      ensures medicateQueue == old(medicateQueue) && hetWeightMultiplier == old(hetWeightMultiplier)
    {
      if Complicated in pgState && DirectDeath !in pgState && now < timeOfRecovery + p.extraDaysAtRisk {
        if ext.totalDensity > 0.0 {
          var pDeath := ext.pDeathLaterCommunity;
          if EventInHospital in pgState {
            pDeath := ext.pDeathLater;
          }
          if uDeath < pDeath {
            pgState := pgState + {DirectDeath};
            timeOfRecovery := timeOfRecovery + p.extraDaysAtRisk;
          }
        }
        previousDensity := Some(ext.totalDensity);
      }
    }

    /** The start of a case: a patient in hospital leaves transmission, and recovery is scheduled. */
    method CaseStart(now: int, p: Params) returns (removed: bool)
      modifies this
      ensures caseStartTime == now ==> timeOfRecovery == RecoveryTime(now, pgState, p) && (removed <==> EventInHospital in pgState)
      ensures caseStartTime != now ==> timeOfRecovery == old(timeOfRecovery) && !removed
      ensures pgState == old(pgState) && caseStartTime == old(caseStartTime) && timeLastTreatment == old(timeLastTreatment)
      ensures doomed == old(doomed) && previousDensity == old(previousDensity)
      ensures medicateQueue == old(medicateQueue) && hetWeightMultiplier == old(hetWeightMultiplier)
    {
      removed := false;
      if caseStartTime == now {
        if EventInHospital in pgState {
          removed := true;
        }
        if Complicated in pgState {
          timeOfRecovery := now + p.complicatedCaseDuration;
          if DirectDeath in pgState {
            timeOfRecovery := timeOfRecovery + p.extraDaysAtRisk;
          }
        } else {
          timeOfRecovery := now + p.uncomplicatedCaseDuration;
        }
      }
    }

    /** Indirect mortality starts its countdown, one time step long, unless the human is already doomed. */
    method IndirectMortalityCountdown()
      modifies this
      ensures doomed == if IndirectMortality in pgState && old(doomed) == 0 then -1 else old(doomed)
      ensures pgState == old(pgState) && caseStartTime == old(caseStartTime) && timeOfRecovery == old(timeOfRecovery)
      ensures timeLastTreatment == old(timeLastTreatment) && previousDensity == old(previousDensity)
      ensures medicateQueue == old(medicateQueue) && hetWeightMultiplier == old(hetWeightMultiplier)
    {
      if IndirectMortality in pgState && doomed == 0 {
        doomed := -1;
      }
    }

    /**
     * The pass over the medication queue: what is due before tomorrow is
     * given and removed, everything else is kept in order, one day nearer.
     */
    method ProcessMedications(bodyMass: real) returns (given: seq<MedicateData>, usage: seq<DrugUsage>)
      modifies this
      ensures given == GivenToday(old(medicateQueue))
      ensures medicateQueue == QueueAfter(old(medicateQueue))
      ensures |usage| == |given| && forall k :: 0 <= k < |given| ==> usage[k] == UsageOf(given[k], bodyMass)
      ensures pgState == old(pgState) && caseStartTime == old(caseStartTime) && timeOfRecovery == old(timeOfRecovery)
      ensures timeLastTreatment == old(timeLastTreatment) && doomed == old(doomed) && previousDensity == old(previousDensity)
      ensures hetWeightMultiplier == old(hetWeightMultiplier)
    {
      var q := medicateQueue;
      var kept: seq<MedicateData> := [];
      given, usage := [], [];
      var i := 0;
      while i < |q|
        invariant 0 <= i <= |q|
        invariant given == Filter(q[..i], IsDue)
        invariant kept == Decremented(Filter(q[..i], IsWaiting))
        invariant |usage| == |given| && forall k :: 0 <= k < |given| ==> usage[k] == UsageOf(given[k], bodyMass)
      {
        assert q[..i + 1][..i] == q[..i];
        if q[i].time < 1.0 {
          given := given + [q[i]];
          usage := usage + [UsageOf(q[i], bodyMass)];
        } else {
          kept := kept + [q[i].(time := q[i].time - 1.0)];
        }
        i := i + 1;
      }
      assert q[..i] == q;
      medicateQueue := kept;
    }

    /**
     * The first phases of `doClinicalUpdate`: the recovery day, then a new
     * event with case management (`cmEvent`), or else the later-day risk of
     * death.
     */
    method EventPhases(now: int, ext: External, draws: Draws, p: Params)
      returns (episode: Option<set<Flag>>, rejoins: bool, cmEvent: bool, treatmentReport: nat, penalised: bool, antibiotic: bool)
      modifies this
      ensures var recovers := now == old(timeOfRecovery);
              && (!recovers ==> episode.None? && !rejoins)
              && (recovers && DirectDeath in old(pgState) ==> episode == Some(old(pgState)) && !rejoins)
              && (recovers && DirectDeath !in old(pgState) && PendingUC in old(pgState) ==> episode.None? && !rejoins)
              && (recovers && DirectDeath !in old(pgState) && PendingUC !in old(pgState) ==>
                    && rejoins
                    && episode == Some(old(pgState) + {if Complicated in old(pgState) && draws.sequelae < ext.pSequelaeInpatient
                                                       then Sequelae else Recovery}))
      ensures doomed == if now == old(timeOfRecovery) && DirectDeath in old(pgState) then DOOMED_COMPLICATED else old(doomed)
      ensures cmEvent == CaseEventToday(AfterRecovery(now, old(timeOfRecovery), old(pgState)), ext.newState, draws.immediateUC, p)
      ensures cmEvent ==>
                && PendingUC !in pgState
                && caseStartTime == (if ext.hospitalisation == Delayed then now + 1 else now)
                && medicateQueue == ext.queueAfterExecute
                && timeLastTreatment == (if |ext.queueAfterExecute| > 0 then now else old(timeLastTreatment))
      ensures !cmEvent ==>
                && treatmentReport == 0 && !penalised && !antibiotic
                && caseStartTime == old(caseStartTime) && medicateQueue == old(medicateQueue)
                && timeLastTreatment == old(timeLastTreatment)
      ensures hetWeightMultiplier == old(hetWeightMultiplier)
      ensures penalised ==> ext.penalisationEpisodes
      ensures antibiotic ==> ext.nonMalariaFevers && ext.antibioticGiven
    {
      episode, rejoins := RecoveryDay(now, draws.sequelae, ext.pSequelaeInpatient);
      cmEvent := NewEvent(now, ext.newState, draws.immediateUC, p);
      treatmentReport, penalised, antibiotic := 0, false, false;
      if cmEvent {
        treatmentReport, penalised, antibiotic := CaseManagementEvent(now, ext, draws.firstDayDeath);
      } else {
        LaterDayRisk(now, ext, draws.laterDeath, p);
      }
    }

    /**
     * `doClinicalUpdate` for one day, `now`, with the human's cohort
     * settings: the phases in the source's order.
     */
    method ClinicalUpdate(now: int, ext: External, draws: Draws, p: Params,
                          cohortFirstTreatmentOnly: bool, cohortFirstBoutOnly: bool) returns (out: Outputs)
      modifies this
      ensures caseStartTime == now ==> timeOfRecovery == RecoveryTime(now, pgState, p)
      ensures forall k :: 0 <= k < |medicateQueue| ==> medicateQueue[k].time >= 0.0
      ensures forall k :: 0 <= k < |out.medicated| ==> out.medicated[k].time < 1.0
      ensures out.immunityPenalised ==> ext.penalisationEpisodes
      ensures out.antibioticReported ==> ext.nonMalariaFevers && ext.antibioticGiven
      ensures out.leavesCohort <==> (cohortFirstTreatmentOnly && timeLastTreatment == now) || (cohortFirstBoutOnly && Sick in pgState)
    {
      var episode, rejoins, cmEvent, treatmentReport, penalised, antibiotic := EventPhases(now, ext, draws, p);
      var removed := CaseStart(now, p);
      IndirectMortalityCountdown();
      QueueStep(medicateQueue);
      var given, usage := ProcessMedications(ext.bodyMass);
      var leaves := (cohortFirstTreatmentOnly && timeLastTreatment == now) || (cohortFirstBoutOnly && Sick in pgState);
      out := Outputs(episode, rejoins, treatmentReport, removed, given, usage, leaves, penalised, antibiotic);
    }
  }
}
