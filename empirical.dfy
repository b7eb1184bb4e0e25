/**
 * `EmpiricalWithinHostModel` (trunk `WithinHost/Empirical.cpp`): a list of
 * empirical infections capped at MAX_INFECTIONS, updated once per step.
 */
module EmpiricalWithinHost {
  import Vectors

  /**
   * What the within-host model sees of an `EmpiricalInfection`: its start
   * date, its density and the growth rate multiplier it was created with.
   */
  datatype EmpiricalInfection = EmpiricalInfection(startDate: int, density: real, growthRateMultiplier: real)

  /**
   * The result of one infection's `updateDensity` call (code not shown):
   * whether its parasites went extinct, and otherwise its new density.
   */
  datatype Update = Update(extinct: bool, density: real)

  /** The infections left after a step, with their new densities, in order. */
  function Survivors(s: seq<EmpiricalInfection>, u: seq<Update>): (r: seq<EmpiricalInfection>)
    requires |u| == |s|
    ensures |r| <= |s|
  {
    if s == [] then []
    else
      var rest := Survivors(s[..|s| - 1], u[..|u| - 1]);
      if u[|u| - 1].extinct then rest
      else rest + [EmpiricalInfection(s[|s| - 1].startDate, u[|u| - 1].density, s[|s| - 1].growthRateMultiplier)]
  }

  function ExtinctCount(u: seq<Update>): nat
  {
    if u == [] then 0 else ExtinctCount(u[..|u| - 1]) + (if u[|u| - 1].extinct then 1 else 0)
  }

  /** Exactly the extinct infections are removed. */
  lemma {:induction false} SurvivorsCount(s: seq<EmpiricalInfection>, u: seq<Update>)
    requires |u| == |s|
    ensures |Survivors(s, u)| + ExtinctCount(u) == |s|
  {
    if s != [] { SurvivorsCount(s[..|s| - 1], u[..|u| - 1]); }
  }

  function Densities(s: seq<EmpiricalInfection>): (r: seq<real>)
    ensures |r| == |s|
    ensures forall k :: 0 <= k < |s| ==> r[k] == s[k].density
  {
    seq(|s|, k requires 0 <= k < |s| => s[k].density)
  }

  /** The largest density, or 0.0 for none (the accumulator starts at 0.0). */
  function MaxDensity(s: seq<EmpiricalInfection>): real
  {
    if s == [] then 0.0
    else
      var m := MaxDensity(s[..|s| - 1]);
      if m < s[|s| - 1].density then s[|s| - 1].density else m
  }

  /** MaxDensity bounds every density and is 0 or one of them. */
  lemma {:induction false} MaxDensityIsMax(s: seq<EmpiricalInfection>)
    ensures forall k :: 0 <= k < |s| ==> s[k].density <= MaxDensity(s)
    ensures MaxDensity(s) >= 0.0
    ensures MaxDensity(s) == 0.0 || exists k :: 0 <= k < |s| && MaxDensity(s) == s[k].density
  {
    if s != [] {
      MaxDensityIsMax(s[..|s| - 1]);
      var m := MaxDensity(s[..|s| - 1]);
      if m != 0.0 && m >= s[|s| - 1].density {
        var k :| 0 <= k < |s| - 1 && m == s[..|s| - 1][k].density;
        assert MaxDensity(s) == s[k].density;
      }
    }
  }

  /** The number of infections whose density is above the detection limit. */
  function PatentCount(s: seq<EmpiricalInfection>, detectionLimit: real): nat
  {
    if s == [] then 0
    else PatentCount(s[..|s| - 1], detectionLimit) + (if s[|s| - 1].density > detectionLimit then 1 else 0)
  }

  /** Patent infections are exactly those above the limit, so there are no more than infections. */
  lemma {:induction false} PatentCountBounded(s: seq<EmpiricalInfection>, detectionLimit: real)
    ensures PatentCount(s, detectionLimit) <= |s|
    ensures (forall k :: 0 <= k < |s| ==> s[k].density > detectionLimit) ==> PatentCount(s, detectionLimit) == |s|
    ensures (forall k :: 0 <= k < |s| ==> s[k].density <= detectionLimit) ==> PatentCount(s, detectionLimit) == 0
  {
    if s != [] { PatentCountBounded(s[..|s| - 1], detectionLimit); }
  }

  /**
   * A just-created infection (density 0) is not patent for any non-negative
   * detection limit, so `newInfection` leaves the patent count as it was.
   */
  lemma NewInfectionNotPatent(s: seq<EmpiricalInfection>, now: int, detectionLimit: real)
    requires detectionLimit >= 0.0
    ensures PatentCount(s + [EmpiricalInfection(now, 0.0, 1.0)], detectionLimit) == PatentCount(s, detectionLimit)
  {
    assert (s + [EmpiricalInfection(now, 0.0, 1.0)])[..|s|] == s;
  }

  /** `medicate`'s body weight argument: 120 kg times the weight proportion of the age group. */
  function BodyWeight(wtprop: seq<real>, ageGroup: nat): real
    requires ageGroup < |wtprop|
  {
    120.0 * wtprop[ageGroup]
  }

  /** The arguments `medicate` passes on to the PK/PD model. */
  datatype MedicateCall = MedicateCall(drugName: string, qty: real, time: int, age: real, bodyWeight: real)

  /** `medicate`: forwards the drug, quantity, time and age with the age group's body weight. */
  function Medicate(drugName: string, qty: real, time: int, age: real, wtprop: seq<real>, ageGroup: nat): (c: MedicateCall)
    requires ageGroup < |wtprop|
    ensures c.drugName == drugName && c.qty == qty && c.time == time && c.age == age
    ensures c.bodyWeight == BodyWeight(wtprop, ageGroup)
  {
    MedicateCall(drugName, qty, time, age, 120.0 * wtprop[ageGroup])
  }

  /** One more original infection processed: the survivors and the extinct count grow accordingly. */
  lemma PrefixStep(orig: seq<EmpiricalInfection>, updates: seq<Update>, k: nat)
    requires |updates| == |orig| && k < |orig|
    ensures Survivors(orig[..k + 1], updates[..k + 1]) ==
            Survivors(orig[..k], updates[..k]) +
            (if updates[k].extinct then [] else [EmpiricalInfection(orig[k].startDate, updates[k].density, orig[k].growthRateMultiplier)])
    ensures ExtinctCount(updates[..k + 1]) == ExtinctCount(updates[..k]) + (if updates[k].extinct then 1 else 0)
  {
    assert orig[..k + 1][..k] == orig[..k];
    assert updates[..k + 1][..k] == updates[..k];
  }

  /** The running sum and maximum extend by the last density. */
  lemma SumMaxStep(s: seq<EmpiricalInfection>)
    requires s != []
    ensures Vectors.Sum(Densities(s)) == Vectors.Sum(Densities(s[..|s| - 1])) + s[|s| - 1].density
    ensures MaxDensity(s) == (var m := MaxDensity(s[..|s| - 1]); if m < s[|s| - 1].density then s[|s| - 1].density else m)
  {
    assert Densities(s)[..|s| - 1] == Densities(s[..|s| - 1]);
  }

  class EmpiricalWithinHostModel {
    var infections: seq<EmpiricalInfection>
    var moi: int
    const maxInfections: nat
    var totalDensity: real
    var timeStepMaxDensity: real
    /** How often `pkpdModel->decayDrugs()` has been called. */
    var drugDecays: nat

    predicate Valid()
      reads this
    {
      moi == |infections| && moi <= maxInfections
    }

    constructor (maxInfections: nat)
      ensures Valid() && infections == [] && this.maxInfections == maxInfections && drugDecays == 0
    {
      this.maxInfections := maxInfections;
      infections, moi := [], 0;
      totalDensity, timeStepMaxDensity, drugDecays := 0.0, 0.0, 0;
    }

    /**
     * `newInfection`: capped at MAX_INFECTIONS. The new infection starts now
     * with growth rate multiplier 1 and, as every `Infection` does, density 0.
     */
    method NewInfection(now: int)
      requires Valid()
      modifies this
      ensures Valid()
      ensures old(moi) < maxInfections ==>
                infections == old(infections) + [EmpiricalInfection(now, 0.0, 1.0)] && moi == old(moi) + 1
      ensures old(moi) >= maxInfections ==> infections == old(infections) && moi == old(moi)
      ensures drugDecays == old(drugDecays)
    {
      if moi < maxInfections {
        infections := infections + [EmpiricalInfection(now, 0.0, 1.0)];
        moi := moi + 1;
      }
    }

    method ClearAllInfections()
      requires Valid()
      modifies this
      ensures Valid() && infections == [] && moi == 0
      ensures drugDecays == old(drugDecays)
    {
      infections := [];
      moi := 0;
    }

    /**
     * `calculateDensities`, given the result of each infection's density
     * update: extinct infections are erased with a matching MOI decrement,
     * survivors take their new density, the totals are their sum and maximum,
     * and the drugs decay exactly once, after the loop.
     */
    method CalculateDensities(updates: seq<Update>)
      requires Valid() && |updates| == |infections|
      modifies this
      ensures Valid()
      ensures infections == Survivors(old(infections), updates)
      ensures moi == old(moi) - ExtinctCount(updates)
      ensures totalDensity == Vectors.Sum(Densities(infections))
      ensures timeStepMaxDensity == MaxDensity(infections)
      ensures drugDecays == old(drugDecays) + 1
    {
      var list, removed, total, maxDens := SweepInfections(infections, updates);
      infections, moi := list, moi - removed;
      totalDensity, timeStepMaxDensity := total, maxDens;
      drugDecays := drugDecays + 1;
    }

    /**
     * The loop over the infection list, on its contents: extinct infections
     * are erased, the others take their new density, and the total and the
     * maximum of the new densities are accumulated.
     */
    static method SweepInfections(orig: seq<EmpiricalInfection>, updates: seq<Update>)
      returns (list: seq<EmpiricalInfection>, removed: nat, total: real, maxDens: real)
      requires |updates| == |orig|
      ensures list == Survivors(orig, updates)
      ensures removed == ExtinctCount(updates) && |list| + removed == |orig|
      ensures total == Vectors.Sum(Densities(list)) && maxDens == MaxDensity(list)
    {
      total, maxDens := 0.0, 0.0;
      list, removed := orig, 0;
      var i, k := 0, 0;
      while i < |list|
        invariant 0 <= i <= k <= |orig| && |list| == i + (|orig| - k)
        invariant list[..i] == Survivors(orig[..k], updates[..k])
        invariant list[i..] == orig[k..]
        invariant removed == ExtinctCount(updates[..k]) && |list| + removed == |orig|
        invariant total == Vectors.Sum(Densities(list[..i]))
        invariant maxDens == MaxDensity(list[..i])
        decreases |orig| - k
      {
        list, i, removed, total, maxDens := SweepNext(list, i, removed, total, maxDens, orig, updates, k);
        k := k + 1;
      }
      assert orig[..k] == orig && updates[..k] == updates;
      assert list[..i] == list;
    }

    /** One turn of the sweep: the infection at i, which is the k-th of the original list. */
    static method SweepNext(list: seq<EmpiricalInfection>, i: nat, removed: nat, total: real, maxDens: real,
                            ghost orig: seq<EmpiricalInfection>, updates: seq<Update>, k: nat)
      returns (list': seq<EmpiricalInfection>, i': nat, removed': nat, total': real, maxDens': real)
      requires |updates| == |orig| && i <= k < |orig| && |list| == i + (|orig| - k)
      requires list[..i] == Survivors(orig[..k], updates[..k])
      requires list[i..] == orig[k..]
      requires removed == ExtinctCount(updates[..k]) && |list| + removed == |orig|
      requires total == Vectors.Sum(Densities(list[..i]))
      requires maxDens == MaxDensity(list[..i])
      ensures i' <= k + 1 && |list'| == i' + (|orig| - (k + 1))
      ensures list'[..i'] == Survivors(orig[..k + 1], updates[..k + 1])
      ensures list'[i'..] == orig[k + 1..]
      ensures removed' == ExtinctCount(updates[..k + 1]) && |list'| + removed' == |orig|
      ensures total' == Vectors.Sum(Densities(list'[..i']))
      ensures maxDens' == MaxDensity(list'[..i'])
    {
      if updates[k].extinct {
        list', i', removed', total', maxDens' := list[..i] + list[i + 1..], i, removed + 1, total, maxDens;
        EraseStep(list, i, orig, updates, k);
      } else {
        var inf := EmpiricalInfection(list[i].startDate, updates[k].density, list[i].growthRateMultiplier);
        list' := list[i := inf];
        KeepStep(list, i, orig, updates, k);
        total' := total + inf.density;
        maxDens' := if maxDens < inf.density then inf.density else maxDens;
        i', removed' := i + 1, removed;
      }
    }

    /** Erasing an extinct infection at i extends the survivors of the first k to the first k + 1. */
    static lemma EraseStep(list: seq<EmpiricalInfection>, i: nat, orig: seq<EmpiricalInfection>, updates: seq<Update>, k: nat)
      requires |updates| == |orig| && i <= k < |orig| && |list| == i + (|orig| - k)
      requires list[..i] == Survivors(orig[..k], updates[..k])
      requires list[i..] == orig[k..]
      requires updates[k].extinct
      ensures var list' := list[..i] + list[i + 1..];
              && list'[..i] == Survivors(orig[..k + 1], updates[..k + 1])
              && list'[i..] == orig[k + 1..]
              && ExtinctCount(updates[..k + 1]) == ExtinctCount(updates[..k]) + 1
    {
      PrefixStep(orig, updates, k);
      var list' := list[..i] + list[i + 1..];
      assert list'[..i] == list[..i];
      assert list'[i..] == orig[k + 1..];
    }

    /** Updating a surviving infection at i extends the survivors, their total and their maximum. */
    static lemma KeepStep(list: seq<EmpiricalInfection>, i: nat, orig: seq<EmpiricalInfection>, updates: seq<Update>, k: nat)
      requires |updates| == |orig| && i <= k < |orig| && |list| == i + (|orig| - k)
      requires list[..i] == Survivors(orig[..k], updates[..k])
      requires list[i..] == orig[k..]
      requires !updates[k].extinct
      ensures var inf := EmpiricalInfection(list[i].startDate, updates[k].density, list[i].growthRateMultiplier);
              var list' := list[i := inf];
              && list'[..i + 1] == Survivors(orig[..k + 1], updates[..k + 1])
              && list'[i + 1..] == orig[k + 1..]
              && ExtinctCount(updates[..k + 1]) == ExtinctCount(updates[..k])
              && Vectors.Sum(Densities(list'[..i + 1])) == Vectors.Sum(Densities(list[..i])) + inf.density
              && MaxDensity(list'[..i + 1]) == (var m := MaxDensity(list[..i]); if m < inf.density then inf.density else m)
    {
      PrefixStep(orig, updates, k);
      assert list[i] == orig[k] by { assert list[i..][0] == orig[k..][0]; }
      var inf := EmpiricalInfection(list[i].startDate, updates[k].density, list[i].growthRateMultiplier);
      var list' := list[i := inf];
      assert list'[..i + 1] == list[..i] + [inf];
      assert list'[i + 1..] == orig[k + 1..];
      SumMaxStep(list'[..i + 1]);
      assert list'[..i + 1][..i] == list[..i];
    }

    /**
     * `countInfections`: the list size; the patent count is only written
     * when there is at least one infection.
     */
    method CountInfections(patentIn: int, detectionLimit: real) returns (total: nat, patent: int)
      ensures total == |infections|
      ensures infections == [] ==> patent == patentIn
      ensures infections != [] ==> patent == PatentCount(infections, detectionLimit)
    {
      if infections == [] {
        return 0, patentIn;
      }
      patent := 0;
      var i := 0;
      while i < |infections|
        invariant 0 <= i <= |infections|
        invariant patent == PatentCount(infections[..i], detectionLimit)
      {
        assert infections[..i + 1][..i] == infections[..i];
        if infections[i].density > detectionLimit {
          patent := patent + 1;
        }
        i := i + 1;
      }
      assert infections[..i] == infections;
      total := |infections|;
    }
  }
}
