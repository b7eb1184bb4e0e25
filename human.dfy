/**
 * `Human` (vec-lifecycle branch): the per-step update contract, cohort
 * membership, ITN protection and the `_ylag` ring buffer of recent total
 * parasite densities.
 */
module Human {
  import CArith

  /** `_ylagLen`: four 5-day periods of steps. */
  function YlagLength(intervalsPer5Days: nat): nat
  {
    intervalsPer5Days * 4
  }

  /** `hasITNProtection`: the net was deployed less than maxInterventionAge steps ago. */
  predicate HasITNProtection(timeOfDeployment: int, maxInterventionAge: int, now: int)
  {
    timeOfDeployment + maxInterventionAge > now
  }

  /** Protection lasts exactly maxInterventionAge steps from deployment. */
  lemma ITNProtectionWindow(timeOfDeployment: int, maxInterventionAge: int, now: int)
    ensures HasITNProtection(timeOfDeployment, maxInterventionAge, now) <==>
            now - timeOfDeployment < maxInterventionAge
    ensures maxInterventionAge <= 0 && now >= timeOfDeployment ==>
            !HasITNProtection(timeOfDeployment, maxInterventionAge, now)
  {
  }

  /**
   * What cohort membership touches: the flag, the number of additions and
   * removals reported to the current survey, and the number of times the
   * clinical reports were flushed.
   */
  datatype Cohort = Cohort(inCohort: bool, added: nat, removed: nat, flushes: nat)

  /** `addToCohort`: nothing when already in; otherwise flush, join and report one addition. */
  function Add(c: Cohort): (r: Cohort)
    ensures r.inCohort
    ensures c.inCohort ==> r == c
    ensures !c.inCohort ==> r.added == c.added + 1 && r.removed == c.removed && r.flushes == c.flushes + 1
  {
    if c.inCohort then c else Cohort(true, c.added + 1, c.removed, c.flushes + 1)
  }

  /** `removeFromCohort`: the mirror image. */
  function Remove(c: Cohort): (r: Cohort)
    ensures !r.inCohort
    ensures !c.inCohort ==> r == c
    ensures c.inCohort ==> r.removed == c.removed + 1 && r.added == c.added && r.flushes == c.flushes + 1
  {
    if !c.inCohort then c else Cohort(false, c.added, c.removed + 1, c.flushes + 1)
  }

  /** Joining and leaving are idempotent. */
  lemma CohortIdempotent(c: Cohort)
    ensures Add(Add(c)) == Add(c)
    ensures Remove(Remove(c)) == Remove(c)
  {
  }

  /** Add then remove restores a non-member, with one addition and one removal reported. */
  lemma AddThenRemove(c: Cohort)
    requires !c.inCohort
    ensures Remove(Add(c)).inCohort == c.inCohort
    ensures Remove(Add(c)) == Cohort(false, c.added + 1, c.removed + 1, c.flushes + 2)
  {
  }

  class Human {
    const dateOfBirth: int
    var inCohort: bool
    var cohortAdded: nat
    var cohortRemoved: nat
    var flushes: nat
    /** `_ylag`: the total density cached at each of the last few steps. */
    const ylag: array<real>
    /** How many times the infection and clinical sub-models have been updated. */
    var subModelUpdates: nat

    function CohortState(): Cohort
      reads this
    {
      Cohort(inCohort, cohortAdded, cohortRemoved, flushes)
    }

    /** A new human is outside the cohort with an all-zero density history. */
    constructor (dateOfBirth: int, intervalsPer5Days: nat)
      ensures this.dateOfBirth == dateOfBirth
      ensures CohortState() == Cohort(false, 0, 0, 0) && subModelUpdates == 0
      ensures fresh(ylag) && ylag.Length == YlagLength(intervalsPer5Days)
      ensures forall k :: 0 <= k < ylag.Length ==> ylag[k] == 0.0
    {
      this.dateOfBirth := dateOfBirth;
      inCohort, cohortAdded, cohortRemoved, flushes := false, 0, 0, 0;
      subModelUpdates := 0;
      ylag := new real[YlagLength(intervalsPer5Days)](_ => 0.0);
    }

    /**
     * `update`, given whether the clinical model says the human is dead and
     * the within-host model's total density: a dead human is reported at
     * once and nothing is run; otherwise the sub-models are updated only
     * when doUpdate, the density being cached at the step's slot of `_ylag`.
     */
    method Update(isDead: bool, doUpdate: bool, now: nat, totalDensity: real) returns (dead: bool)
      requires ylag.Length > 0
      modifies this`subModelUpdates, ylag
      ensures dead == isDead
      ensures isDead || !doUpdate ==> ylag[..] == old(ylag[..]) && subModelUpdates == old(subModelUpdates)
      ensures !isDead && doUpdate ==>
                && ylag[..] == old(ylag[..])[CArith.CMod(now, ylag.Length) := totalDensity]
                && subModelUpdates == old(subModelUpdates) + 1
    {
      if isDead {
        return true;
      }
      if doUpdate {
        CArith.CDivModLaw(now, ylag.Length);
        var slot := CArith.CMod(now, ylag.Length);
        ylag[slot] := totalDensity;
        subModelUpdates := subModelUpdates + 1;
      }
      return false;
    }

    method AddToCohort()
      modifies this`inCohort, this`cohortAdded, this`cohortRemoved, this`flushes
      ensures CohortState() == Add(old(CohortState()))
    {
      if inCohort {
        return;
      }
      flushes := flushes + 1;
      inCohort := true;
      cohortAdded := cohortAdded + 1;
    }

    method RemoveFromCohort()
      modifies this`inCohort, this`cohortAdded, this`cohortRemoved, this`flushes
      ensures CohortState() == Remove(old(CohortState()))
    {
      if inCohort {
        flushes := flushes + 1;
        inCohort := false;
        cohortRemoved := cohortRemoved + 1;
      }
    }
  }
}
