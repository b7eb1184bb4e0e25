/**
 * `Interventions` (schema-30): validation of continuous (age-based) and
 * timed deployments, mass eligibility, and the `InterventionManager`, which
 * keeps its timed deployments sorted behind a sentinel and walks them with
 * the cursor `nextTimed`; each human walks the continuous deployments with
 * its own cursor.
 */
module Interventions {
  import Wrappers
  import Seqs
  /** The scenario errors raised while validating a deployment, with the numbers their messages show. */
  datatype Rejection =
    | CtsBeginEnd
    | CtsTargetAgeBelowOne(targetAgeYrs: real, ageTimesteps: int)
    | CtsTargetAgeAboveMax(maxYears: real)
    | CtsCoverage
    | TimedNegative
    | MassCoverage
    | MassAgeRange

  /** A validated element, or the error its constructor raises. */
  datatype Checked<T> = Accepted(value: T) | Rejected(reason: Rejection)

  /**
   * The text of each error; where the message shows numbers, the text up to
   * the first of them (the numbers themselves are carried by the
   * `Rejection`, and their stream formatting is not modelled).
   */
  function MessageText(r: Rejection): string
  {
    match r
    case CtsBeginEnd => "continuous intervention must have 0 <= begin <= end"
    case CtsTargetAgeBelowOne(_, _) => "continuous intervention with target age "
    case CtsTargetAgeAboveMax(_) => "continuous intervention must have target age no greater than "
    case CtsCoverage => "continuous intervention coverage must be in range [0,1]"
    case TimedNegative => "timed intervention deployment: may not be negative"
    case MassCoverage => "timed intervention coverage must be in range [0,1]"
    case MassAgeRange => "timed intervention must have 0 <= minAge <= maxAge"
  }

  // ----- AgeIntervention -----

  /** The per-human function a continuous deployment calls. */
  datatype CtsAction = CtsVaccinate | ContinuousIPT | CtsITN | AddToCohort

  /** A continuous deployment: humans reaching `ageTimesteps` while begin <= period < end. */
  datatype AgeIntervention = AgeIntervention(begin: int, end: int, ageTimesteps: int, cohortOnly: bool,
                                             coverage: real, action: CtsAction)

  /**
   * The `AgeIntervention` constructor: `ageTimesteps` is the target age
   * already converted to time steps; `maxAgeIntervals` and
   * `yearsPerInterval` are the `TimeStep` constants.
   */
  function NewAgeIntervention(begin: int, end: int, targetAgeYrs: real, ageTimesteps: int, cohortOnly: bool,
                              coverage: real, action: CtsAction, maxAgeIntervals: int, yearsPerInterval: real): (r: Checked<AgeIntervention>)
    ensures r.Accepted? <==> 0 <= begin <= end && 1 <= ageTimesteps <= maxAgeIntervals && 0.0 <= coverage <= 1.0
    ensures r.Accepted? ==> r.value == AgeIntervention(begin, end, ageTimesteps, cohortOnly, coverage, action)
    ensures r.Rejected? && !(0 <= begin <= end) ==> r.reason == CtsBeginEnd
    ensures r.Rejected? && 0 <= begin <= end && ageTimesteps <= 0 ==> r.reason == CtsTargetAgeBelowOne(targetAgeYrs, ageTimesteps)
  {
    if begin < 0 || end < begin then Rejected(CtsBeginEnd)
    else if ageTimesteps <= 0 then Rejected(CtsTargetAgeBelowOne(targetAgeYrs, ageTimesteps))
    else if ageTimesteps > maxAgeIntervals then Rejected(CtsTargetAgeAboveMax(maxAgeIntervals as real * yearsPerInterval))
    else if !(coverage >= 0.0 && coverage <= 1.0) then Rejected(CtsCoverage)
    else Accepted(AgeIntervention(begin, end, ageTimesteps, cohortOnly, coverage, action))
  }

  // ----- TimedIntervention and derivatives -----

  /** The per-human function a mass deployment calls. */
  datatype MassAction = MassDrugAdministration | MassVaccinate | TimedIPT | MassITN | MassIRS | MassVA
                      | CohortAdd | ImmuneSuppression

  /** The restrictions of a mass deployment. */
  datatype MassParams = MassParams(minAge: int, maxAge: int, cohortOnly: bool, coverage: real, action: MassAction)

  /** What a timed deployment does; `Dummy` is the sentinel that never fires. */
  datatype TimedKind =
    | ChangeHS
    | ChangeEIR
    | UninfectVectors
    | R0Case
    | Larviciding
    | Mass(mass: MassParams)
    | MassCum(mass: MassParams, maxInterventionAge: int)
    | Dummy

  datatype TimedIntervention = TimedIntervention(time: int, kind: TimedKind)

  /**
   * The `TimedIntervention` constructor: a negative time raises; a time at
   * or after the final survey is accepted with a warning, which the value
   * reports.
   */
  function CheckTime(time: int, finalTimestep: int): (r: Checked<bool>)
    ensures r.Accepted? <==> time >= 0
    ensures r.Rejected? ==> r.reason == TimedNegative
    ensures r.Accepted? ==> (r.value <==> time >= finalTimestep)
  {
    if time < 0 then Rejected(TimedNegative) else Accepted(time >= finalTimestep)
  }

  /** A timed deployment other than a mass one, which only checks its time. */
  function NewTimed(time: int, kind: TimedKind, finalTimestep: int): (r: Checked<TimedIntervention>)
    requires !kind.Mass? && !kind.MassCum? && !kind.Dummy?
    ensures r.Accepted? <==> time >= 0
    ensures r.Accepted? ==> r.value == TimedIntervention(time, kind)
  {
    match CheckTime(time, finalTimestep)
    case Rejected(e) => Rejected(e)
    case Accepted(_) => Accepted(TimedIntervention(time, kind))
  }

  /**
   * `TimedMassIntervention`, or through `createTimedMassCumIntervention`
   * the cumulative variant when a maximum intervention age is given: the
   * time is checked first, then the coverage, then the age range.
   */
  function NewMass(time: int, m: MassParams, cumulativeWithMaxAge: Wrappers.Option<int>, finalTimestep: int): (r: Checked<TimedIntervention>)
    ensures r.Accepted? <==> time >= 0 && 0.0 <= m.coverage <= 1.0 && 0 <= m.minAge <= m.maxAge
    ensures r.Rejected? ==>
              r.reason == if time < 0 then TimedNegative else if !(0.0 <= m.coverage <= 1.0) then MassCoverage else MassAgeRange
    ensures r.Accepted? ==> r.value.time == time
    ensures r.Accepted? && cumulativeWithMaxAge.Some? ==> r.value.kind == MassCum(m, cumulativeWithMaxAge.value)
    ensures r.Accepted? && cumulativeWithMaxAge.None? ==> r.value.kind == Mass(m)
  {
    if time < 0 then Rejected(TimedNegative)
    else if !(m.coverage >= 0.0 && m.coverage <= 1.0) then Rejected(MassCoverage)
    else if m.minAge < 0 || m.maxAge < m.minAge then Rejected(MassAgeRange)
    else if cumulativeWithMaxAge.Some? then Accepted(TimedIntervention(time, MassCum(m, cumulativeWithMaxAge.value)))
    else Accepted(TimedIntervention(time, Mass(m)))
  }

  /** What a mass deployment needs to know of one human. */
  datatype HumanInfo = HumanInfo(age: int, inCohort: bool, isProtected: bool)

  /** A human is eligible when its age lies in [minAge, maxAge) and, for a cohort-only deployment, it is in the cohort. */
  predicate Eligible(h: HumanInfo, m: MassParams)
  {
    m.minAge <= h.age < m.maxAge && (!m.cohortOnly || h.inCohort)
  }

  /**
   * The humans from index i on that a mass deployment reaches: each
   * eligible human takes the next draw, d, and is reached when the draw is
   * below the coverage.
   */
  function MassChosen(pop: seq<HumanInfo>, m: MassParams, draws: seq<real>, i: nat, d: nat): seq<nat>
    requires d <= i <= |pop| <= |draws|
    decreases |pop| - i
  {
    if i == |pop| then []
    else if Eligible(pop[i], m) then
      (if draws[d] < m.coverage then [i] else []) + MassChosen(pop, m, draws, i + 1, d + 1)
    else MassChosen(pop, m, draws, i + 1, d)
  }

  /** Only eligible humans are reached, each once, in population order. */
  lemma {:induction false} MassChosenEligible(pop: seq<HumanInfo>, m: MassParams, draws: seq<real>, i: nat, d: nat)
    requires d <= i <= |pop| <= |draws|
    decreases |pop| - i
    ensures forall k :: 0 <= k < |MassChosen(pop, m, draws, i, d)| ==>
              var j := MassChosen(pop, m, draws, i, d)[k]; i <= j < |pop| && Eligible(pop[j], m)
    ensures forall k, l :: 0 <= k < l < |MassChosen(pop, m, draws, i, d)| ==>
              MassChosen(pop, m, draws, i, d)[k] < MassChosen(pop, m, draws, i, d)[l]
  {
    if i < |pop| {
      if Eligible(pop[i], m) {
        MassChosenEligible(pop, m, draws, i + 1, d + 1);
        var rest := MassChosen(pop, m, draws, i + 1, d + 1);
        var head: seq<nat> := if draws[d] < m.coverage then [i] else [];
        var r := MassChosen(pop, m, draws, i, d);
        assert r == head + rest;
        forall k | |head| <= k < |r|
          ensures r[k] == rest[k - |head|]
        {
        }
      } else {
        MassChosenEligible(pop, m, draws, i + 1, d);
      }
    }
  }

  /** With every draw in [0, 1), full coverage reaches every eligible human and zero coverage none. */
  lemma {:induction false} MassCoverageExtremes(pop: seq<HumanInfo>, m: MassParams, draws: seq<real>, i: nat, d: nat)
    requires d <= i <= |pop| <= |draws|
    requires forall k :: 0 <= k < |draws| ==> 0.0 <= draws[k] < 1.0
    decreases |pop| - i
    ensures m.coverage >= 1.0 ==> forall j :: i <= j < |pop| && Eligible(pop[j], m) ==> j in MassChosen(pop, m, draws, i, d)
    ensures m.coverage <= 0.0 ==> MassChosen(pop, m, draws, i, d) == []
  {
    if i < |pop| {
      if Eligible(pop[i], m) {
        MassCoverageExtremes(pop, m, draws, i + 1, d + 1);
      } else {
        MassCoverageExtremes(pop, m, draws, i + 1, d);
      }
    }
  }

  /** `TimedMassIntervention::deploy`: one pass over the population. */
  method MassDeploy(pop: seq<HumanInfo>, m: MassParams, draws: seq<real>) returns (chosen: seq<nat>)
    requires |pop| <= |draws|
    ensures chosen == MassChosen(pop, m, draws, 0, 0)
  {
    chosen := [];
    var i, d := 0, 0;
    while i < |pop|
      invariant d <= i <= |pop|
      invariant chosen + MassChosen(pop, m, draws, i, d) == MassChosen(pop, m, draws, 0, 0)
    {
      if Eligible(pop[i], m) {
        if draws[d] < m.coverage {
          chosen := chosen + [i];
        }
        d := d + 1;
      }
      i := i + 1;
    }
  }

  /** The eligible humans from index i on, and those of them not yet protected. */
  function EligibleFrom(pop: seq<HumanInfo>, m: MassParams, i: nat): (r: seq<nat>)
    requires i <= |pop|
    ensures |r| <= |pop| - i
    decreases |pop| - i
  {
    if i == |pop| then [] else (if Eligible(pop[i], m) then [i] else []) + EligibleFrom(pop, m, i + 1)
  }

  function UnprotectedFrom(pop: seq<HumanInfo>, m: MassParams, i: nat): (r: seq<nat>)
    requires i <= |pop|
    ensures |r| <= |pop| - i
    decreases |pop| - i
  {
    if i == |pop| then []
    else (if Eligible(pop[i], m) && !pop[i].isProtected then [i] else []) + UnprotectedFrom(pop, m, i + 1)
  }

  /** The unprotected humans are eligible humans without protection, so there are no more of them than eligible ones. */
  lemma {:induction false} UnprotectedEligible(pop: seq<HumanInfo>, m: MassParams, i: nat)
    requires i <= |pop|
    decreases |pop| - i
    ensures |UnprotectedFrom(pop, m, i)| <= |EligibleFrom(pop, m, i)|
    ensures forall k :: 0 <= k < |UnprotectedFrom(pop, m, i)| ==>
              var j := UnprotectedFrom(pop, m, i)[k]; i <= j < |pop| && Eligible(pop[j], m) && !pop[j].isProtected
  {
    if i < |pop| {
      UnprotectedEligible(pop, m, i + 1);
      var rest := UnprotectedFrom(pop, m, i + 1);
      var head: seq<nat> := if Eligible(pop[i], m) && !pop[i].isProtected then [i] else [];
      var r := UnprotectedFrom(pop, m, i);
      assert r == head + rest;
      forall k | |head| <= k < |r|
        ensures r[k] == rest[k - |head|]
      {
      }
    }
  }

  /**
   * The proportion of eligible humans already protected, when there are any:
   * with none the source divides zero by zero, and the comparison with the
   * coverage then fails.
   */
  function ProtectedShare(total: nat, unprotected: nat): (r: Wrappers.Option<real>)
    ensures r.Some? <==> total > 0
    ensures r.Some? && unprotected <= total ==> 0.0 <= r.value <= 1.0
    ensures r.Some? && unprotected <= total ==> (r.value == 1.0 <==> unprotected == 0)
  {
    if total == 0 then Wrappers.None else Wrappers.Some((total - unprotected) as real / total as real)
  }

  /** The unprotected humans reached, each taking the next draw. */
  function DrawnBelow(cands: seq<nat>, draws: seq<real>, p: real): (r: seq<nat>)
    requires |cands| <= |draws|
    ensures forall k :: 0 <= k < |r| ==> r[k] in cands
    decreases |cands|
  {
    if cands == [] then []
    else (if draws[0] < p then [cands[0]] else []) + DrawnBelow(cands[1..], draws[1..], p)
  }

  /** A mass deployment as validated by `NewMass`: coverage in [0, 1] and 0 <= minAge <= maxAge. */
  predicate ValidMass(m: MassParams)
  {
    0.0 <= m.coverage <= 1.0 && 0 <= m.minAge <= m.maxAge
  }

  /**
   * `TimedMassCumIntervention::deploy`: the unprotected eligible humans
   * reached, if any are. The share already protected is below a coverage of
   * at most one, so the division by one minus that share is defined.
   */
  function CumChosen(pop: seq<HumanInfo>, m: MassParams, draws: seq<real>): seq<nat>
    requires ValidMass(m) && |pop| <= |draws|
  {
    var unprot := UnprotectedFrom(pop, m, 0);
    var share := ProtectedShare(|EligibleFrom(pop, m, 0)|, |unprot|);
    if share.Some? && share.value < m.coverage then
      DrawnBelow(unprot, draws, (m.coverage - share.value) / (1.0 - share.value))
    else []
  }

  /**
   * The cumulative variant reaches nobody unless the protected share of the
   * eligible humans is below the coverage, and then only unprotected
   * eligible humans.
   */
  lemma CumOnlyBelowCoverage(pop: seq<HumanInfo>, m: MassParams, draws: seq<real>)
    requires ValidMass(m) && |pop| <= |draws|
    ensures var share := ProtectedShare(|EligibleFrom(pop, m, 0)|, |UnprotectedFrom(pop, m, 0)|);
            CumChosen(pop, m, draws) != [] ==> share.Some? && share.value < m.coverage
    ensures forall j :: j in CumChosen(pop, m, draws) ==> j < |pop| && Eligible(pop[j], m) && !pop[j].isProtected
  {
    UnprotectedEligible(pop, m, 0);
    var unprot := UnprotectedFrom(pop, m, 0);
    forall j | j in CumChosen(pop, m, draws)
      ensures j < |pop| && Eligible(pop[j], m) && !pop[j].isProtected
    {
      var k :| 0 <= k < |unprot| && unprot[k] == j;
    }
  }

  /** The counting loop of the cumulative variant: the eligible humans and the unprotected ones among them. */
  method CountEligible(pop: seq<HumanInfo>, m: MassParams) returns (total: nat, unprotected: seq<nat>)
    ensures total == |EligibleFrom(pop, m, 0)|
    ensures unprotected == UnprotectedFrom(pop, m, 0)
  {
    unprotected := [];
    total := 0;
    var i := 0;
    while i < |pop|
      invariant 0 <= i <= |pop|
      invariant unprotected + UnprotectedFrom(pop, m, i) == UnprotectedFrom(pop, m, 0)
      invariant total + |EligibleFrom(pop, m, i)| == |EligibleFrom(pop, m, 0)|
    {
      total, unprotected := CountNext(pop, m, i, total, unprotected);
      i := i + 1;
    }
  }

  /** The body of the counting loop: human i is counted. */
  method CountNext(pop: seq<HumanInfo>, m: MassParams, i: nat, total: nat, unprotected: seq<nat>)
    returns (total': nat, unprotected': seq<nat>)
    requires i < |pop|
    requires unprotected + UnprotectedFrom(pop, m, i) == UnprotectedFrom(pop, m, 0)
    requires total + |EligibleFrom(pop, m, i)| == |EligibleFrom(pop, m, 0)|
    ensures unprotected' + UnprotectedFrom(pop, m, i + 1) == UnprotectedFrom(pop, m, 0)
    ensures total' + |EligibleFrom(pop, m, i + 1)| == |EligibleFrom(pop, m, 0)|
  {
    CountStep(pop, m, i, unprotected);
    total', unprotected' := total, unprotected;
    if Eligible(pop[i], m) {
      total' := total + 1;
      if !pop[i].isProtected {
        unprotected' := unprotected + [i];
      }
    }
  }

  /** One human of the counting loop. */
  lemma CountStep(pop: seq<HumanInfo>, m: MassParams, i: nat, unprotected: seq<nat>)
    requires i < |pop|
    ensures |EligibleFrom(pop, m, i)| == (if Eligible(pop[i], m) then 1 else 0) + |EligibleFrom(pop, m, i + 1)|
    ensures unprotected + UnprotectedFrom(pop, m, i) ==
              (unprotected + (if Eligible(pop[i], m) && !pop[i].isProtected then [i] else [])) + UnprotectedFrom(pop, m, i + 1)
  {
  }

  /** The deployment loop of the cumulative variant: each unprotected human takes the next draw. */
  method DrawEach(cands: seq<nat>, draws: seq<real>, p: real) returns (chosen: seq<nat>)
    requires |cands| <= |draws|
    ensures chosen == DrawnBelow(cands, draws, p)
  {
    chosen := [];
    var k := 0;
    while k < |cands|
      invariant 0 <= k <= |cands|
      invariant chosen + DrawnBelow(cands[k..], draws[k..], p) == DrawnBelow(cands, draws, p)
    {
      chosen := DrawNext(cands, draws, p, k, chosen);
      k := k + 1;
    }
    assert cands[k..] == [];
  }

  /** One candidate: chosen when its draw is below p. */
  method DrawNext(cands: seq<nat>, draws: seq<real>, p: real, k: nat, chosen: seq<nat>) returns (chosen': seq<nat>)
    requires |cands| <= |draws| && k < |cands|
    requires chosen + DrawnBelow(cands[k..], draws[k..], p) == DrawnBelow(cands, draws, p)
    ensures chosen' + DrawnBelow(cands[k + 1..], draws[k + 1..], p) == DrawnBelow(cands, draws, p)
  {
    assert cands[k..][1..] == cands[k + 1..] && draws[k..][1..] == draws[k + 1..];
    var here := if draws[k] < p then [cands[k]] else [];
    assert DrawnBelow(cands[k..], draws[k..], p) == here + DrawnBelow(cands[k + 1..], draws[k + 1..], p);
    Seqs.AppendAssoc(chosen, here, DrawnBelow(cands[k + 1..], draws[k + 1..], p));
    chosen' := chosen + here;
  }

  /** `TimedMassCumIntervention::deploy`. */
  method CumDeploy(pop: seq<HumanInfo>, m: MassParams, draws: seq<real>) returns (chosen: seq<nat>)
    requires ValidMass(m) && |pop| <= |draws|
    ensures chosen == CumChosen(pop, m, draws)
  {
    var total, unprotected := CountEligible(pop, m);
    chosen := [];
    if total == 0 {
      return;
    }
    var propProtected := (total - |unprotected|) as real / total as real;
    if propProtected < m.coverage {
      var additionalCoverage := (m.coverage - propProtected) / (1.0 - propProtected);
      chosen := DrawEach(unprotected, draws, additionalCoverage);
    }
  }

  // ----- Sorting -----

  /** s is in non-decreasing order of key. */
  predicate SortedBy<T>(s: seq<T>, key: T -> int)
  {
    forall i, j :: 0 <= i < j < |s| ==> key(s[i]) <= key(s[j])
  }

  /** Inserts x after every element whose key is not above its own. */
  function InsertBy<T>(x: T, s: seq<T>, key: T -> int): seq<T>
    decreases |s|
  {
    if s == [] then [x]
    else if key(x) < key(s[0]) then [x] + s
    else [s[0]] + InsertBy(x, s[1..], key)
  }

  /** Insertion sort taking the elements in order: a stable sort. */
  function SortBy<T>(s: seq<T>, key: T -> int): seq<T>
    decreases |s|
  {
    if s == [] then [] else InsertBy(s[|s| - 1], SortBy(s[..|s| - 1], key), key)
  }

  /** The elements with key k, in order. */
  function WithKey<T>(s: seq<T>, key: T -> int, k: int): seq<T>
    decreases |s|
  {
    if s == [] then [] else (if key(s[0]) == k then [s[0]] else []) + WithKey(s[1..], key, k)
  }

  /** Inserting adds exactly x. */
  lemma {:induction false} InsertPerm<T>(x: T, s: seq<T>, key: T -> int)
    decreases |s|
    ensures multiset(InsertBy(x, s, key)) == multiset(s) + multiset{x}
    ensures |InsertBy(x, s, key)| == |s| + 1
  {
    if s != [] && key(x) >= key(s[0]) {
      assert s == [s[0]] + s[1..];
      InsertPerm(x, s[1..], key);
    }
  }

  /** Inserting into a sorted sequence keeps it sorted. */
  lemma {:induction false} InsertSorted<T>(x: T, s: seq<T>, key: T -> int)
    requires SortedBy(s, key)
    decreases |s|
    ensures SortedBy(InsertBy(x, s, key), key)
  {
    if s != [] && key(x) >= key(s[0]) {
      var t := s[1..];
      InsertSorted(x, t, key);
      InsertPerm(x, t, key);
      var r := InsertBy(x, t, key);
      forall i | 0 <= i < |r|
        ensures key(s[0]) <= key(r[i])
      {
        assert r[i] in multiset(r);
        if r[i] != x {
          assert r[i] in t;
          var j :| 0 <= j < |t| && t[j] == r[i];
          assert t[j] == s[j + 1];
        }
      }
      var u := [s[0]] + r;
      forall i, j | 0 <= i < j < |u|
        ensures key(u[i]) <= key(u[j])
      {
        if i > 0 {
          assert u[i] == r[i - 1] && u[j] == r[j - 1];
        } else {
          assert u[j] == r[j - 1];
        }
      }
    }
  }

  lemma {:induction false} WithKeyAppend<T>(a: seq<T>, b: seq<T>, key: T -> int, k: int)
    decreases |a|
    ensures WithKey(a + b, key, k) == WithKey(a, key, k) + WithKey(b, key, k)
  {
    if a != [] {
      assert (a + b)[0] == a[0];
      assert (a + b)[1..] == a[1..] + b;
      WithKeyAppend(a[1..], b, key, k);
      var h := if key(a[0]) == k then [a[0]] else [];
      assert WithKey(a + b, key, k) == h + WithKey(a[1..] + b, key, k);
      assert WithKey(a, key, k) == h + WithKey(a[1..], key, k);
      assert h + (WithKey(a[1..], key, k) + WithKey(b, key, k)) == (h + WithKey(a[1..], key, k)) + WithKey(b, key, k);
    } else {
      assert a + b == b;
    }
  }

  lemma {:induction false} WithKeyAbove<T>(s: seq<T>, key: T -> int, k: int)
    requires SortedBy(s, key) && s != [] && k < key(s[0])
    decreases |s|
    ensures WithKey(s, key, k) == []
  {
    if |s| > 1 {
      WithKeyAbove(s[1..], key, k);
    }
  }

  /** Inserting x adds it behind the elements of equal key. */
  lemma {:induction false} InsertWithKey<T>(x: T, s: seq<T>, key: T -> int, k: int)
    requires SortedBy(s, key)
    decreases |s|
    ensures WithKey(InsertBy(x, s, key), key, k) == WithKey(s, key, k) + (if key(x) == k then [x] else [])
  {
    if s == [] {
    } else if key(x) < key(s[0]) {
      assert ([x] + s)[1..] == s;
      if key(x) == k {
        WithKeyAbove(s, key, k);
      }
    } else {
      assert SortedBy(s[1..], key) by {
        forall i, j | 0 <= i < j < |s[1..]| ensures key(s[1..][i]) <= key(s[1..][j]) {
          assert s[1..][i] == s[i + 1] && s[1..][j] == s[j + 1];
        }
      }
      InsertWithKey(x, s[1..], key, k);
      InsertWithKeyStep(x, s, key, k);
    }
  }

  /** The step of InsertWithKey past a first element whose key is not above x's. */
  lemma InsertWithKeyStep<T>(x: T, s: seq<T>, key: T -> int, k: int)
    requires s != [] && key(s[0]) <= key(x)
    requires WithKey(InsertBy(x, s[1..], key), key, k) == WithKey(s[1..], key, k) + (if key(x) == k then [x] else [])
    ensures WithKey(InsertBy(x, s, key), key, k) == WithKey(s, key, k) + (if key(x) == k then [x] else [])
  {
    var ins := InsertBy(x, s[1..], key);
    var t := [s[0]] + ins;
    assert t[1..] == ins;
    assert WithKey(InsertBy(x, s, key), key, k) == (if key(s[0]) == k then [s[0]] else []) + WithKey(ins, key, k);
  }

  /**
   * The sort orders by key, keeps every element, and is stable: the
   * elements of each key keep their relative order.
   */
  lemma {:induction false} SortByMeaning<T>(s: seq<T>, key: T -> int)
    decreases |s|
    ensures SortedBy(SortBy(s, key), key)
    ensures multiset(SortBy(s, key)) == multiset(s)
    ensures forall k :: WithKey(SortBy(s, key), key, k) == WithKey(s, key, k)
  {
    if s != [] {
      var init, x := s[..|s| - 1], s[|s| - 1];
      assert s == init + [x];
      SortByMeaning(init, key);
      InsertSorted(x, SortBy(init, key), key);
      InsertPerm(x, SortBy(init, key), key);
      forall k
        ensures WithKey(SortBy(s, key), key, k) == WithKey(s, key, k)
      {
        InsertWithKey(x, SortBy(init, key), key, k);
        WithKeyAppend(init, [x], key, k);
      }
    }
  }

  function CtsKey(a: AgeIntervention): int { a.ageTimesteps }

  function TimedKey(t: TimedIntervention): int { t.time }

  // ----- InterventionManager -----

  class InterventionManager {
    /** The continuous deployments, by target age. */
    const ctsIntervs: seq<AgeIntervention>
    /** The timed deployments, by time, ending with the sentinel at `future`. */
    const timed: seq<TimedIntervention>
    /** `TimeStep::future`, the sentinel's time. */
    const future: int
    var nextTimed: nat

    /** The manager is consistent: sorted lists, the sentinel last, the cursor in range. */
    predicate Valid()
      reads this
    {
      && |timed| > 0 && timed[|timed| - 1] == TimedIntervention(future, Dummy)
      && SortedBy(timed[..|timed| - 1], TimedKey)
      && SortedBy(ctsIntervs, CtsKey)
      && nextTimed < |timed|
    }

    /**
     * The end of the constructor: the deployments read from the scenario,
     * section by section, are sorted (the continuous ones stably), and the
     * sentinel is appended.
     */
    constructor (cts: seq<AgeIntervention>, timedRead: seq<TimedIntervention>, future: int)
      ensures ctsIntervs == SortBy(cts, CtsKey)
      ensures timed == SortBy(timedRead, TimedKey) + [TimedIntervention(future, Dummy)]
      ensures this.future == future && nextTimed == 0
      ensures Valid()
    {
      SortByMeaning(cts, CtsKey);
      SortByMeaning(timedRead, TimedKey);
      ctsIntervs := SortBy(cts, CtsKey);
      timed := SortBy(timedRead, TimedKey) + [TimedIntervention(future, Dummy)];
      this.future := future;
      nextTimed := 0;
      new;
      assert timed[..|timed| - 1] == SortBy(timedRead, TimedKey);
    }

    /**
     * `loadFromCheckpoint`: the cursor passes every deployment before
     * `interventionTime`, and only the health-system and EIR changes among
     * them are deployed again.
     */
    method LoadFromCheckpoint(interventionTime: int) returns (redeployed: seq<TimedIntervention>)
      requires Valid() && nextTimed == 0 && interventionTime <= future
      modifies this
      ensures Valid()
      ensures forall j :: 0 <= j < nextTimed ==> timed[j].time < interventionTime
      ensures timed[nextTimed].time >= interventionTime
      ensures redeployed == Redeployed(timed[..nextTimed])
    {
      redeployed := [];
      while timed[nextTimed].time < interventionTime
        invariant Valid()
        invariant forall j :: 0 <= j < nextTimed ==> timed[j].time < interventionTime
        invariant redeployed == Redeployed(timed[..nextTimed])
        decreases |timed| - nextTimed
      {
        assert timed[..nextTimed + 1] == timed[..nextTimed] + [timed[nextTimed]];
        RedeployedSnoc(timed[..nextTimed], timed[nextTimed]);
        if timed[nextTimed].kind == ChangeHS || timed[nextTimed].kind == ChangeEIR {
          redeployed := redeployed + [timed[nextTimed]];
        }
        nextTimed := nextTimed + 1;
      }
    }

    /**
     * The timed part of `deploy`: nothing for a negative period; otherwise
     * every deployment not yet made whose time has come is made, in order.
     */
    method DeployTimed(period: int) returns (fired: seq<TimedIntervention>)
      requires Valid() && period < future
      modifies this
      ensures Valid() && nextTimed >= old(nextTimed)
      ensures period < 0 ==> nextTimed == old(nextTimed) && fired == []
      ensures period >= 0 ==> fired == timed[old(nextTimed)..nextTimed]
      ensures period >= 0 ==> forall j :: old(nextTimed) <= j < nextTimed ==> timed[j].time <= period
      ensures period >= 0 ==> forall j :: nextTimed <= j < |timed| ==> timed[j].time > period
    {
      fired := [];
      if period < 0 {
        return;
      }
      while timed[nextTimed].time <= period
        invariant Valid() && old(nextTimed) <= nextTimed
        invariant fired == timed[old(nextTimed)..nextTimed]
        invariant forall j :: old(nextTimed) <= j < nextTimed ==> timed[j].time <= period
        decreases |timed| - nextTimed
      {
        assert timed[old(nextTimed)..nextTimed + 1] == timed[old(nextTimed)..nextTimed] + [timed[nextTimed]];
        fired := fired + [timed[nextTimed]];
        nextTimed := nextTimed + 1;
      }
      forall j | nextTimed <= j < |timed|
        ensures timed[j].time > period
      {
        if j < |timed| - 1 {
          assert timed[..|timed| - 1][nextTimed] == timed[nextTimed];
          assert timed[..|timed| - 1][j] == timed[j];
        }
      }
    }

    /**
     * The continuous part of `deploy` for one human of age `age` whose
     * cursor is `next`: the cursor passes every deployment whose target age
     * has been reached, and those targeting exactly this age, in their
     * period window and cohort, each take a draw and fire below coverage.
     */
    method DeployContinuous(next: nat, age: int, period: int, inCohort: bool, draws: seq<real>) returns (newNext: nat, fired: seq<nat>)
      requires Valid() && |ctsIntervs| <= |draws|
      ensures (fired, newNext) == CtsWalk(ctsIntervs, next, age, period, inCohort, draws, 0)
    {
      newNext := next;
      fired := [];
      var d := 0;
      while newNext < |ctsIntervs| && ctsIntervs[newNext].ageTimesteps <= age
        invariant next <= newNext && d <= newNext
        invariant fired + CtsWalk(ctsIntervs, newNext, age, period, inCohort, draws, d).0 == CtsWalk(ctsIntervs, next, age, period, inCohort, draws, 0).0
        invariant CtsWalk(ctsIntervs, newNext, age, period, inCohort, draws, d).1 == CtsWalk(ctsIntervs, next, age, period, inCohort, draws, 0).1
        decreases |ctsIntervs| - newNext
      {
        ghost var before := CtsWalk(ctsIntervs, newNext, age, period, inCohort, draws, d);
        var a := ctsIntervs[newNext];
        if CtsApplies(a, age, period, inCohort) {
          ghost var rest := CtsWalk(ctsIntervs, newNext + 1, age, period, inCohort, draws, d + 1);
          if draws[d] < a.coverage {
            assert before.0 == [newNext] + rest.0;
            assert (fired + [newNext]) + rest.0 == fired + before.0;
            fired := fired + [newNext];
          } else {
            assert before.0 == rest.0;
          }
          d := d + 1;
        }
        newNext := newNext + 1;
      }
      assert CtsWalk(ctsIntervs, newNext, age, period, inCohort, draws, d) == ([], newNext);
      assert fired + [] == fired;
    }
  }

  /** The deployments a checkpoint load makes again. */
  function Redeployed(s: seq<TimedIntervention>): seq<TimedIntervention>
    decreases |s|
  {
    if s == [] then []
    else (if s[0].kind == ChangeHS || s[0].kind == ChangeEIR then [s[0]] else []) + Redeployed(s[1..])
  }

  lemma {:induction false} RedeployedSnoc(s: seq<TimedIntervention>, x: TimedIntervention)
    decreases |s|
    ensures Redeployed(s + [x]) == Redeployed(s) + (if x.kind == ChangeHS || x.kind == ChangeEIR then [x] else [])
  {
    if s != [] {
      assert (s + [x])[1..] == s[1..] + [x];
      RedeployedSnoc(s[1..], x);
    }
  }

  /** Only health-system and EIR changes are deployed again, and all of them. */
  lemma {:induction false} RedeployedMeaning(s: seq<TimedIntervention>, x: TimedIntervention)
    decreases |s|
    ensures x in Redeployed(s) <==> x in s && (x.kind == ChangeHS || x.kind == ChangeEIR)
  {
    if s != [] {
      assert s == [s[0]] + s[1..];
      RedeployedMeaning(s[1..], x);
    }
  }

  /** A continuous deployment fires for a human when it targets its age, in the period window and cohort. */
  predicate CtsApplies(a: AgeIntervention, age: int, period: int, inCohort: bool)
  {
    a.ageTimesteps == age && a.begin <= period < a.end && (!a.cohortOnly || inCohort)
  }

  /**
   * The walk of one human's cursor from i, the applicable deployments
   * taking draws from d on: the indices fired and where the cursor stops,
   * at the end of the list or at the first target age above the human's.
   */
  function CtsWalk(cts: seq<AgeIntervention>, i: nat, age: int, period: int, inCohort: bool, draws: seq<real>, d: nat): (seq<nat>, nat)
    requires |cts| <= |draws| && d <= i
    decreases |cts| - i
  {
    if i >= |cts| || cts[i].ageTimesteps > age then ([], i)
    else if CtsApplies(cts[i], age, period, inCohort) then
      var rest := CtsWalk(cts, i + 1, age, period, inCohort, draws, d + 1);
      ((if draws[d] < cts[i].coverage then [i] else []) + rest.0, rest.1)
    else CtsWalk(cts, i + 1, age, period, inCohort, draws, d)
  }

  /**
   * The cursor passes exactly the deployments whose target age is reached,
   * up to the first that is not, and only deployments that apply to the
   * human fire, in order.
   */
  lemma {:induction false} CtsWalkMeaning(cts: seq<AgeIntervention>, i: nat, age: int, period: int, inCohort: bool, draws: seq<real>, d: nat)
    requires |cts| <= |draws| && d <= i
    decreases |cts| - i
    ensures WalkMeaning(cts, i, age, period, inCohort, CtsWalk(cts, i, age, period, inCohort, draws, d))
  {
    if i < |cts| && cts[i].ageTimesteps <= age {
      if CtsApplies(cts[i], age, period, inCohort) {
        CtsWalkMeaning(cts, i + 1, age, period, inCohort, draws, d + 1);
        var head: seq<nat> := if draws[d] < cts[i].coverage then [i] else [];
        WalkMeaningApplies(cts, i, age, period, inCohort, head, CtsWalk(cts, i + 1, age, period, inCohort, draws, d + 1));
      } else {
        CtsWalkMeaning(cts, i + 1, age, period, inCohort, draws, d);
      }
    }
  }

  /**
   * A walk from cursor i that stops at w.1 and fires w.0: it passes exactly
   * the deployments up to the first whose target age is not reached, and
   * fires, in increasing order, only passed deployments that apply.
   */
  predicate WalkMeaning(cts: seq<AgeIntervention>, i: nat, age: int, period: int, inCohort: bool, w: (seq<nat>, nat))
  {
    && i <= w.1 && (i < w.1 ==> w.1 <= |cts|)
    && (forall j :: i <= j < w.1 ==> cts[j].ageTimesteps <= age)
    && (w.1 >= |cts| || cts[w.1].ageTimesteps > age)
    && (forall k :: 0 <= k < |w.0| ==> i <= w.0[k] < w.1 && w.0[k] < |cts| && CtsApplies(cts[w.0[k]], age, period, inCohort))
    && (forall k, l :: 0 <= k < l < |w.0| ==> w.0[k] < w.0[l])
  }

  /** Firing deployment i (or not, by its draw) in front of a walk from i + 1. */
  lemma WalkMeaningApplies(cts: seq<AgeIntervention>, i: nat, age: int, period: int, inCohort: bool,
                           head: seq<nat>, rest: (seq<nat>, nat))
    requires i < |cts| && cts[i].ageTimesteps <= age && CtsApplies(cts[i], age, period, inCohort)
    requires head == [] || head == [i]
    requires WalkMeaning(cts, i + 1, age, period, inCohort, rest)
    ensures WalkMeaning(cts, i, age, period, inCohort, (head + rest.0, rest.1))
  {
    var c := head + rest.0;
    forall k | |head| <= k < |c|
      ensures c[k] == rest.0[k - |head|]
    {
    }
  }

  /** With the deployments sorted by target age, the cursor passes every one whose target age is reached. */
  lemma CtsWalkPassesReached(cts: seq<AgeIntervention>, i: nat, age: int, period: int, inCohort: bool, draws: seq<real>, j: nat)
    requires |cts| <= |draws| && SortedBy(cts, CtsKey) && i <= j < |cts| && cts[j].ageTimesteps <= age
    ensures j < CtsWalk(cts, i, age, period, inCohort, draws, 0).1
  {
    CtsWalkMeaning(cts, i, age, period, inCohort, draws, 0);
  }
}
