/**
 * `DescriptiveIPTWithinHost` (openmalaria-647-mem-opt): the descriptive
 * within-host model extended with intermittent preventive treatment (IPTi).
 * It remembers when the last SP dose and the last IPTi or placebo dose were
 * given, and the static `iptiEffect` code decides what a dose or a clearance
 * does.
 */
module DescriptiveIPTWithinHost {
  import opened Wrappers
  import opened Global
  import CArith

  /** `deployIptDose`'s seasonal tables, indexed by iptiEffect - 14. */
  const IPT_MIN_INTERVAL: seq<int> := [43, 49, 55, 61, 67, 37, 31, 25, 19]
  const IPT_MAX_INTERVAL: seq<int> := [61, 67, 0, 6, 12, 55, 49, 43, 31]

  /**
   * The tables' comment says MAX = MIN + 18 (mod 73). That holds for the
   * first eight entries; the last pair (19, 31) spans 12 intervals.
   */
  lemma SeasonalTablesSpan()
    ensures |IPT_MIN_INTERVAL| == 9 && |IPT_MAX_INTERVAL| == 9
    ensures forall k :: 0 <= k < 8 ==> (IPT_MIN_INTERVAL[k] + 18) % 73 == IPT_MAX_INTERVAL[k]
    ensures (IPT_MIN_INTERVAL[8] + 18) % 73 != IPT_MAX_INTERVAL[8]
    ensures IPT_MAX_INTERVAL[8] - IPT_MIN_INTERVAL[8] == 12
  {
  }

  /**
   * `initParameters`' checks. Without the IPT model, an IPTi intervention is
   * an error and otherwise nothing is set; with it, the description must be
   * present, the interval must be 5 days and the PK/PD model must be off.
   */
  function InitParameters(iptModel: bool, iptiInterventionActive: bool, hasDescription: bool,
                          interval: int, includesPkPd: bool, descriptionEffect: int): (r: Result<Option<int>>)
    ensures !iptModel ==> (r.Err? <==> iptiInterventionActive)
    ensures !iptModel && r.Ok? ==> r.value == None
    ensures iptModel ==> (r.Ok? <==> hasDescription && interval == 5 && !includesPkPd)
    ensures iptModel && r.Ok? ==> r.value == Some(descriptionEffect)
  {
    if !iptModel then
      if iptiInterventionActive then Err("IPTI interventions require IPT_SP_MODEL option") else Ok(None)
    else if !hasDescription then Err("IPT_SP_MODEL requires iptiDescription")
    else if interval != 5 then Err("IPT code only supports using an interval of 5")
    else if includesPkPd then Err("DescriptiveIPTWithinHost not intended to work with DrugAction")
    else Ok(Some(descriptionEffect))
  }

  /** `int((14.0 / interval) + 0.5)`: a fortnight in time steps, rounded to nearest. */
  function Fortnight(interval: int): int
    requires interval > 0
  {
    CArith.Trunc(14.0 / interval as real + 0.5)
  }

  /** With the only supported interval of 5 days a fortnight is 3 steps. */
  lemma FortnightOfFiveDays()
    ensures Fortnight(5) == 3
  {
    CArith.TruncBounds(14.0 / 5.0 + 0.5);
  }

  /**
   * When `clearInfections` schedules SP: not severe, the last IPTi/placebo
   * and the last SP dose both more than a fortnight ago, and an effect
   * outside {3, 13} and [14, 30).
   */
  predicate ClearGivesSP(isSevere: bool, now: int, lastIptiOrPlacebo: int, lastSPDose: int,
                         fortnight: int, iptiEffect: int)
  {
    && !isSevere
    && now - lastIptiOrPlacebo > fortnight
    && now - lastSPDose > fortnight
    && iptiEffect != 3 && iptiEffect != 13
    && !(14 <= iptiEffect < 30)
  }

  /**
   * `deployIptDose`'s seasonal window for effects 14..22: [min, max) of the
   * year, wrapping round the year end when min >= max. Other effects have
   * no window.
   */
  predicate InSeason(iptiEffect: int, yearInterval: int)
  {
    14 <= iptiEffect <= 22 ==>
      var lo := IPT_MIN_INTERVAL[iptiEffect - 14];
      var hi := IPT_MAX_INTERVAL[iptiEffect - 14];
      if lo < hi then lo <= yearInterval < hi else yearInterval >= lo || yearInterval < hi
  }

  /** For a wrapping window (min >= max), the in-season intervals are those outside [max, min). */
  lemma WrappingSeason(iptiEffect: int, yearInterval: int)
    requires 14 <= iptiEffect <= 22
    requires IPT_MIN_INTERVAL[iptiEffect - 14] >= IPT_MAX_INTERVAL[iptiEffect - 14]
    ensures InSeason(iptiEffect, yearInterval) <==>
            !(IPT_MAX_INTERVAL[iptiEffect - 14] <= yearInterval < IPT_MIN_INTERVAL[iptiEffect - 14])
  {
  }

  /** Effect 16's window (55, 0) wraps and so covers the end of the year: 55..72 with 73 intervals. */
  lemma Effect16Window(yearInterval: int)
    requires 0 <= yearInterval < 73
    ensures InSeason(16, yearInterval) <==> yearInterval >= 55
  {
  }

  /** The four checkpointed IPT fields, in `checkpoint`'s order. */
  datatype IPTState = IPTState(spAttenuationt: int, lastSPDose: int, lastIptiOrPlacebo: int,
                               cumulativeInfections: int)

  function Write(s: IPTState): seq<int>
  {
    [s.spAttenuationt, s.lastSPDose, s.lastIptiOrPlacebo, s.cumulativeInfections]
  }

  function Read(s: seq<int>): Option<(IPTState, seq<int>)>
  {
    if |s| < 4 then None else Some((IPTState(s[0], s[1], s[2], s[3]), s[4..]))
  }

  /**
   * The checkpoint read when the stream may end early: each value present
   * replaces its field in order, and a field past the end keeps its value.
   */
  function ReadOver(d: IPTState, s: seq<int>): IPTState
  {
    IPTState(if |s| > 0 then s[0] else d.spAttenuationt,
             if |s| > 1 then s[1] else d.lastSPDose,
             if |s| > 2 then s[2] else d.lastIptiOrPlacebo,
             if |s| > 3 then s[3] else d.cumulativeInfections)
  }

  /** A full stream gives what Read reads; a short one gives the stream followed by the rest of the old state. */
  lemma ReadOverMeaning(d: IPTState, s: seq<int>)
    ensures |s| >= 4 ==> Read(s) == Some((ReadOver(d, s), s[4..]))
    ensures |s| < 4 ==> Read(s) == None && Write(ReadOver(d, s)) == s + Write(d)[|s|..]
  {
    if |s| < 4 {
      var w, w0 := Write(ReadOver(d, s)), Write(d);
      assert |w| == |s + w0[|s|..]|;
      forall j | 0 <= j < 4 ensures w[j] == (s + w0[|s|..])[j] {
      }
    }
  }

  /** The checkpoint pair restores all four fields and leaves the rest of the stream. */
  lemma CheckpointRoundTrip(st: IPTState, rest: seq<int>)
    ensures Read(Write(st) + rest) == Some((st, rest))
  {
    assert (Write(st) + rest)[4..] == rest;
  }

  /** An IPT infection remembers the last SP dose at the time it was created. */
  datatype IPTInfection = IPTInfection(lastSPDose: int)

  class DescriptiveIPTWithinHostModel {
    var infections: seq<IPTInfection>
    var moi: int
    const maxInfections: nat
    /** The static `iptiEffect` code. */
    const iptiEffect: int
    var spAttenuationt: int
    var lastSPDose: int
    var lastIptiOrPlacebo: int
    var cumulativeInfections: int
    var totalDensity: real
    var timeStepMaxDensity: real
    var cumulativeY: real
    /** `PopulationStats::totalInfections` and `allowedInfections`. */
    var totalInfections: nat
    var allowedInfections: nat
    /** The age groups of the IPT doses reported to the current survey, one entry per dose. */
    var reportedDoses: seq<nat>

    predicate Valid()
      reads this
    {
      moi == |infections| && moi <= maxInfections
    }

    function State(): IPTState
      reads this
    {
      IPTState(spAttenuationt, lastSPDose, lastIptiOrPlacebo, cumulativeInfections)
    }

    /** A new host has never had a dose nor an infection. */
    constructor (maxInfections: nat, iptiEffect: int)
      ensures Valid() && infections == [] && reportedDoses == []
      ensures State() == IPTState(TIMESTEP_NEVER, TIMESTEP_NEVER, TIMESTEP_NEVER, 0)
      ensures this.maxInfections == maxInfections && this.iptiEffect == iptiEffect
    {
      this.maxInfections, this.iptiEffect := maxInfections, iptiEffect;
      infections, moi := [], 0;
      spAttenuationt, lastSPDose, lastIptiOrPlacebo := TIMESTEP_NEVER, TIMESTEP_NEVER, TIMESTEP_NEVER;
      cumulativeInfections := 0;
      totalDensity, timeStepMaxDensity, cumulativeY := 0.0, 0.0, 0.0;
      totalInfections, allowedInfections := 0, 0;
      reportedDoses := [];
    }

    /**
     * `newInfection`: every call counts towards the total; below
     * MAX_INFECTIONS the infection is created with the last SP dose and
     * the cumulative and allowed counters grow with MOI.
     */
    method NewInfection()
      requires Valid()
      modifies this
      ensures Valid()
      ensures totalInfections == old(totalInfections) + 1
      ensures old(moi) < maxInfections ==>
                && infections == old(infections) + [IPTInfection(lastSPDose)]
                && cumulativeInfections == old(cumulativeInfections) + 1
                && allowedInfections == old(allowedInfections) + 1
      ensures old(moi) >= maxInfections ==>
                && infections == old(infections)
                && cumulativeInfections == old(cumulativeInfections)
                && allowedInfections == old(allowedInfections)
      ensures lastSPDose == old(lastSPDose) && lastIptiOrPlacebo == old(lastIptiOrPlacebo)
      ensures spAttenuationt == old(spAttenuationt) && reportedDoses == old(reportedDoses)
    {
      totalInfections := totalInfections + 1;
      if moi < maxInfections {
        cumulativeInfections := cumulativeInfections + 1;
        infections := infections + [IPTInfection(lastSPDose)];
        moi := moi + 1;
        allowedInfections := allowedInfections + 1;
      }
    }

    /**
     * `clearInfections`: all infections are cleared; in the cases where SP
     * is the clearing drug, it is recorded as given at the next step.
     */
    method ClearInfections(isSevere: bool, now: int, interval: int)
      requires Valid() && interval > 0
      modifies this
      ensures Valid() && infections == []
      ensures lastSPDose == if ClearGivesSP(isSevere, now, old(lastIptiOrPlacebo), old(lastSPDose),
                                            Fortnight(interval), iptiEffect)
                            then now + 1 else old(lastSPDose)
      ensures lastIptiOrPlacebo == old(lastIptiOrPlacebo) && spAttenuationt == old(spAttenuationt)
      ensures cumulativeInfections == old(cumulativeInfections) && reportedDoses == old(reportedDoses)
      ensures totalInfections == old(totalInfections) && allowedInfections == old(allowedInfections)
    {
      var fortnight := Fortnight(interval);
      if isSevere {
      } else if now - lastIptiOrPlacebo <= fortnight {
      } else if now - lastSPDose <= fortnight {
      } else if iptiEffect == 2 || iptiEffect == 12 {
        lastSPDose := now + 1;
      } else if iptiEffect == 3 || iptiEffect == 13 {
      } else if iptiEffect >= 14 && iptiEffect < 30 {
      } else {
        lastSPDose := now + 1;
      }
      infections, moi := [], 0;
    }

    /** Both dose paths: record the dose time, and for an SP dose (effect >= 10) report it. */
    method GiveDose(ageGroup: nat, now: int)
      modifies this`lastIptiOrPlacebo, this`lastSPDose, this`reportedDoses
      ensures lastIptiOrPlacebo == now
      ensures iptiEffect >= 10 ==> lastSPDose == now && reportedDoses == old(reportedDoses) + [ageGroup]
      ensures iptiEffect < 10 ==> lastSPDose == old(lastSPDose) && reportedDoses == old(reportedDoses)
    {
      lastIptiOrPlacebo := now;
      if iptiEffect >= 10 {
        lastSPDose := now;
        reportedDoses := reportedDoses + [ageGroup];
      }
    }

    /**
     * `deployIptDose`: for the seasonal effects 14..22 a dose outside the
     * season's window does nothing; otherwise it is given as by `IPTiTreatment`.
     */
    method DeployIptDose(ageGroup: nat, now: int, intervalsPerYear: int)
      requires intervalsPerYear > 0
      modifies this`lastIptiOrPlacebo, this`lastSPDose, this`reportedDoses
      ensures !InSeason(iptiEffect, CArith.CMod(now, intervalsPerYear)) ==>
                && lastIptiOrPlacebo == old(lastIptiOrPlacebo)
                && lastSPDose == old(lastSPDose)
                && reportedDoses == old(reportedDoses)
      ensures InSeason(iptiEffect, CArith.CMod(now, intervalsPerYear)) ==>
                && lastIptiOrPlacebo == now
                && (iptiEffect >= 10 ==> lastSPDose == now && reportedDoses == old(reportedDoses) + [ageGroup])
                && (iptiEffect < 10 ==> lastSPDose == old(lastSPDose) && reportedDoses == old(reportedDoses))
    {
      if iptiEffect >= 14 && iptiEffect <= 22 {
        var yearInterval := CArith.CMod(now, intervalsPerYear);
        var lo := IPT_MIN_INTERVAL[iptiEffect - 14];
        var hi := IPT_MAX_INTERVAL[iptiEffect - 14];
        if lo < hi {
          if yearInterval < lo || yearInterval >= hi {
            return;
          }
        } else {
          if yearInterval < lo && yearInterval >= hi {
            return;
          }
        }
      }
      GiveDose(ageGroup, now);
    }

    /** `IPTiTreatment`: the same dose without any seasonal window. */
    method IPTiTreatment(ageGroup: nat, now: int)
      modifies this`lastIptiOrPlacebo, this`lastSPDose, this`reportedDoses
      ensures lastIptiOrPlacebo == now
      ensures iptiEffect >= 10 ==> lastSPDose == now && reportedDoses == old(reportedDoses) + [ageGroup]
      ensures iptiEffect < 10 ==> lastSPDose == old(lastSPDose) && reportedDoses == old(reportedDoses)
    {
      GiveDose(ageGroup, now);
    }

    /**
     * `IPTattenuateAsexualMinTotalDensity`: while attenuation is in force,
     * a total density below 10 is lifted to 10 and 10 is added to the
     * cumulative parasite load, but only with the attenuation option on and
     * after at least one infection.
     */
    method IPTattenuateAsexualMinTotalDensity(attenuationOption: bool, now: int)
      modifies this`totalDensity, this`cumulativeY
      ensures var lifts := attenuationOption && cumulativeInfections > 0 && spAttenuationt > now
                           && old(totalDensity) < 10.0;
              && (lifts ==> totalDensity == 10.0 && cumulativeY == old(cumulativeY) + 10.0)
              && (!lifts ==> totalDensity == old(totalDensity) && cumulativeY == old(cumulativeY))
    {
      if attenuationOption && cumulativeInfections > 0 {
        if spAttenuationt > now && totalDensity < 10.0 {
          totalDensity := 10.0;
          cumulativeY := cumulativeY + 10.0;
        }
      }
    }

    /**
     * `IPTattenuateAsexualDensity`, given the infection's attenuation flag,
     * factor and end date: the step maximum is scaled by the factor and the
     * attenuation end moves to the later of the two dates, truncated.
     */
    method IPTattenuateAsexualDensity(attenuationOption: bool, doSPAttenuation: bool,
                                      attFact: real, attenuationEndDate: real)
      modifies this`timeStepMaxDensity, this`spAttenuationt
      ensures attenuationOption && doSPAttenuation ==>
                && timeStepMaxDensity == old(timeStepMaxDensity) * attFact
                && spAttenuationt == CArith.Trunc(if old(spAttenuationt) as real < attenuationEndDate
                                                  then attenuationEndDate else old(spAttenuationt) as real)
                && spAttenuationt >= old(spAttenuationt)
      ensures !(attenuationOption && doSPAttenuation) ==>
                timeStepMaxDensity == old(timeStepMaxDensity) && spAttenuationt == old(spAttenuationt)
    {
      if !attenuationOption {
        return;
      }
      if doSPAttenuation {
        timeStepMaxDensity := timeStepMaxDensity * attFact;
        var later := if spAttenuationt as real < attenuationEndDate then attenuationEndDate else spAttenuationt as real;
        CArith.TruncBounds(later);
        CArith.TruncBounds(spAttenuationt as real);
        spAttenuationt := CArith.Trunc(later);
      }
    }

    /**
     * `checkpoint(istream&)` for the IPT fields, read in order; a stream that
     * ends early leaves the fields read so far with their new values and is
     * used up.
     */
    method ReadCheckpoint(s: seq<int>) returns (rest: seq<int>, ok: bool)
      modifies this`spAttenuationt, this`lastSPDose, this`lastIptiOrPlacebo, this`cumulativeInfections
      ensures ok <==> |s| >= 4
      ensures State() == ReadOver(old(State()), s)
      ensures rest == if ok then s[4..] else []
      ensures ok ==> Read(s) == Some((State(), rest))
    {
      if |s| > 0 { spAttenuationt := s[0]; }
      if |s| > 1 { lastSPDose := s[1]; }
      if |s| > 2 { lastIptiOrPlacebo := s[2]; }
      if |s| > 3 { cumulativeInfections := s[3]; }
      ok := |s| >= 4;
      rest := if ok then s[4..] else [];
      ReadOverMeaning(old(State()), s);
    }
  }
}
