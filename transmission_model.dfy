/**
 * `TransmissionModel` (openmalaria-617): the parts shared by every
 * transmission model: age groups for availability, the EIR lookup in
 * equilibrium mode, the per-step kappa (the probability a mosquito is
 * infected at a bite) with its annual time-weighted average, and the
 * checkpoint of those values.
 */
module TransmissionModel {
  import opened Wrappers
  import Vectors
  import TransmissionModes

  /** `nages`: the number of age groups. */
  const NAGES: nat := 22

  /** `agemax`: the upper bound of each age group, in years. */
  const AGE_MAX: seq<real> := [0.99, 1.99, 2.99, 3.99, 4.99, 5.99, 6.99, 7.99, 8.99, 9.99, 10.99,
                               11.99, 12.99, 13.99, 14.99, 19.99, 24.99, 29.99, 39.99, 49.99, 59.99, 60.99]

  /** The age-group bounds are strictly ascending. */
  lemma AgeMaxAscending()
    ensures |AGE_MAX| == NAGES
    ensures forall i, j :: 0 <= i < j < NAGES ==> AGE_MAX[i] < AGE_MAX[j]
  {
  }

  /** The first group from k on whose bound exceeds the age, or the last group. */
  function AgeGroupFrom(bounds: seq<real>, age: real, k: nat): (r: nat)
    requires k < |bounds|
    decreases |bounds| - k
  {
    if bounds[k] > age || k == |bounds| - 1 then k else AgeGroupFrom(bounds, age, k + 1)
  }

  function AgeGroup(age: real): nat
  {
    AgeGroupFrom(AGE_MAX, age, 0)
  }

  /**
   * AgeGroupFrom is a group from k on whose bound exceeds the age, no
   * earlier group from k on having one, and the last group when none does.
   */
  lemma {:induction false} AgeGroupFromMeaning(bounds: seq<real>, age: real, k: nat)
    requires k < |bounds|
    ensures k <= AgeGroupFrom(bounds, age, k) < |bounds|
    ensures forall j :: k <= j < AgeGroupFrom(bounds, age, k) ==> bounds[j] <= age
    ensures AgeGroupFrom(bounds, age, k) < |bounds| - 1 ==> bounds[AgeGroupFrom(bounds, age, k)] > age
    ensures bounds[|bounds| - 1] > age ==> bounds[AgeGroupFrom(bounds, age, k)] > age
    decreases |bounds| - k
  {
    if !(bounds[k] > age || k == |bounds| - 1) {
      AgeGroupFromMeaning(bounds, age, k + 1);
    }
  }

  /** The age group is always a valid index: the first group whose bound exceeds the age, else the last. */
  lemma AgeGroupMeaning(age: real)
    ensures AgeGroup(age) < NAGES
    ensures forall j :: 0 <= j < AgeGroup(age) ==> AGE_MAX[j] <= age
    ensures AgeGroup(age) < NAGES - 1 ==> AGE_MAX[AgeGroup(age)] > age
  {
    AgeGroupFromMeaning(AGE_MAX, age, 0);
  }

  /** Older means the same age group or a later one. */
  lemma AgeGroupMonotone(a: real, b: real)
    requires a <= b
    ensures AgeGroup(a) <= AgeGroup(b)
  {
    AgeGroupMeaning(a);
    AgeGroupMeaning(b);
    AgeMaxAscending();
    if AgeGroup(b) < AgeGroup(a) {
      assert false;
    }
  }

  /** `getAgeGroup`: the scan over the age groups' bounds. */
  method GetAgeGroup(age: real) returns (r: nat)
    ensures r == AgeGroup(age) && r < NAGES
  {
    AgeGroupMeaning(age);
    var i := 0;
    while i < NAGES
      invariant 0 <= i <= NAGES
      invariant forall j :: 0 <= j < i ==> AGE_MAX[j] <= age
      invariant i < NAGES ==> i <= AgeGroup(age)
    {
      if AGE_MAX[i] > age {
        return i;
      }
      i := i + 1;
    }
    return NAGES - 1;
  }

  /**
   * The accumulator of the annual average kappa: the running sum and the
   * last published average.
   */
  datatype Accumulator = Accumulator(sumAnnualKappa: real, annualAverageKappa: real)

  /**
   * One step of `updateKappa`'s accumulator at position tmod in the year:
   * the sum restarts at tmod 1, receives the step's contribution, and at
   * tmod 0 the average over the annual EIR is published (0 for no EIR).
   */
  function Step(a: Accumulator, tmod: nat, contribution: real, annualEIR: real): Accumulator
  {
    var sum := (if tmod == 1 then 0.0 else a.sumAnnualKappa) + contribution;
    var avg := if tmod != 0 then a.annualAverageKappa
               else if annualEIR == 0.0 then 0.0 else sum / annualEIR;
    Accumulator(sum, avg)
  }

  /** Steps at the given year positions with the given contributions, in order. */
  function Steps(a: Accumulator, tmods: seq<nat>, contributions: seq<real>, annualEIR: real): Accumulator
    requires |tmods| == |contributions|
  {
    if tmods == [] then a
    else Step(Steps(a, tmods[..|tmods| - 1], contributions[..|contributions| - 1], annualEIR),
              tmods[|tmods| - 1], contributions[|contributions| - 1], annualEIR)
  }

  /** Steps away from positions 0 and 1 only add their contributions, and publish nothing. */
  lemma {:induction false} MidYearSteps(a: Accumulator, tmods: seq<nat>, contributions: seq<real>, annualEIR: real)
    requires |tmods| == |contributions|
    requires forall j :: 0 <= j < |tmods| ==> tmods[j] >= 2
    ensures Steps(a, tmods, contributions, annualEIR) ==
              Accumulator(a.sumAnnualKappa + Vectors.Sum(contributions), a.annualAverageKappa)
  {
    if tmods != [] {
      MidYearSteps(a, tmods[..|tmods| - 1], contributions[..|contributions| - 1], annualEIR);
    }
  }

  /** The positions of a year in the order the steps visit them: 1, 2, ..., n - 1, then 0. */
  function YearPositions(n: nat): (r: seq<nat>)
    requires n >= 2
    ensures |r| == n && r[0] == 1 && r[n - 1] == 0
    ensures forall j :: 1 <= j < n - 1 ==> r[j] == j + 1
  {
    seq(n - 1, j requires 0 <= j < n - 1 => j + 1) + [0]
  }

  /**
   * Over a year from position 1 to position 0, whatever came before, the
   * published average is the year's contributions over the annual EIR (0
   * for no EIR), and the sum is the year's contributions.
   */
  lemma YearAverage(a: Accumulator, contributions: seq<real>, annualEIR: real)
    requires |contributions| >= 2
    ensures var n := |contributions|;
            var r := Steps(a, YearPositions(n), contributions, annualEIR);
            && r.sumAnnualKappa == Vectors.Sum(contributions)
            && r.annualAverageKappa == if annualEIR == 0.0 then 0.0 else Vectors.Sum(contributions) / annualEIR
  {
    var n := |contributions|;
    var ts := YearPositions(n);
    var first := Step(a, 1, contributions[0], annualEIR);
    var midT, midC := ts[1..n - 1], contributions[1..n - 1];
    MidYearSteps(first, midT, midC, annualEIR);
    assert Steps(a, ts[..1], contributions[..1], annualEIR) == first by {
      assert ts[..1][..0] == [] && contributions[..1][..0] == [];
    }
    StepsSplit(a, ts[..n - 1], contributions[..n - 1], annualEIR);
    assert ts[..n - 1][..1] == ts[..1] && ts[..n - 1][1..] == midT;
    assert contributions[..n - 1][..1] == contributions[..1] && contributions[..n - 1][1..] == midC;
    Vectors.SumAppend([contributions[0]], midC);
    Vectors.SumAppend([contributions[0]] + midC, [contributions[n - 1]]);
    assert [contributions[0]] + midC + [contributions[n - 1]] == contributions;
    assert Vectors.Sum([contributions[0]]) == contributions[0] by {
      assert [contributions[0]][..0] == [];
    }
    assert Vectors.Sum([contributions[n - 1]]) == contributions[n - 1] by {
      assert [contributions[n - 1]][..0] == [];
    }
  }

  /** Running the first step and then the rest is running them all. */
  lemma {:induction false} StepsSplit(a: Accumulator, tmods: seq<nat>, contributions: seq<real>, annualEIR: real)
    requires |tmods| == |contributions| >= 1
    ensures Steps(a, tmods, contributions, annualEIR) ==
              Steps(Steps(a, tmods[..1], contributions[..1], annualEIR), tmods[1..], contributions[1..], annualEIR)
  {
    var n := |tmods|;
    if n > 1 {
      StepsSplit(a, tmods[..n - 1], contributions[..n - 1], annualEIR);
      assert tmods[..n - 1][..1] == tmods[..1] && contributions[..n - 1][..1] == contributions[..1];
      assert tmods[1..][..n - 2] == tmods[..n - 1][1..];
      assert contributions[1..][..n - 2] == contributions[..n - 1][1..];
    }
  }

  /** What `write` saves: the annual EIR, kappa for each step of the year, the average and the sum. */
  datatype Snapshot = Snapshot(annualEIR: real, kappa: seq<real>, annualAverageKappa: real, sumAnnualKappa: real)

  function Checkpoint(s: Snapshot): seq<real>
  {
    [s.annualEIR] + s.kappa + [s.annualAverageKappa, s.sumAnnualKappa]
  }

  /** `read` for a year of n steps: the state and the rest of the stream, or None when it is too short. */
  function Restore(s: seq<real>, n: nat): Option<(Snapshot, seq<real>)>
  {
    if |s| < n + 3 then None
    else Some((Snapshot(s[0], s[1..n + 1], s[n + 1], s[n + 2]), s[n + 3..]))
  }

  /**
   * What `read` leaves when the stream may end early: each value present in
   * the stream replaces its field, in checkpoint order, and a field past the
   * stream's end keeps its old value (a failed `>>` writes nothing).
   */
  function ReadOver(st: Snapshot, s: seq<real>): Snapshot
  {
    var n := |st.kappa|;
    Snapshot(if |s| > 0 then s[0] else st.annualEIR,
             seq(n, i requires 0 <= i < n => if i + 1 < |s| then s[i + 1] else st.kappa[i]),
             if |s| > n + 1 then s[n + 1] else st.annualAverageKappa,
             if |s| > n + 2 then s[n + 2] else st.sumAnnualKappa)
  }

  /**
   * A full stream gives what Restore reads; a short one gives a state whose
   * checkpoint is the stream followed by the rest of the old checkpoint.
   */
  lemma ReadOverMeaning(st: Snapshot, s: seq<real>)
    ensures |s| >= |st.kappa| + 3 ==> Restore(s, |st.kappa|) == Some((ReadOver(st, s), s[|st.kappa| + 3..]))
    ensures |s| < |st.kappa| + 3 ==>
              Restore(s, |st.kappa|) == None && Checkpoint(ReadOver(st, s)) == s + Checkpoint(st)[|s|..]
  {
    var n := |st.kappa|;
    var r := ReadOver(st, s);
    if |s| >= n + 3 {
      assert r.kappa == s[1..n + 1];
    } else {
      var c, c0 := Checkpoint(r), Checkpoint(st);
      assert |c| == |s + c0[|s|..]|;
      forall j | 0 <= j < |c| ensures c[j] == (s + c0[|s|..])[j] {
        if 1 <= j <= n {
          assert c[j] == r.kappa[j - 1] && c0[j] == st.kappa[j - 1];
        }
      }
    }
  }

  /** `write` then `read` restores the annual EIR, kappa, the average and the sum. */
  lemma CheckpointRoundTrip(st: Snapshot, rest: seq<real>)
    ensures Restore(Checkpoint(st) + rest, |st.kappa|) == Some((st, rest))
  {
    var s := Checkpoint(st) + rest;
    var n := |st.kappa|;
    assert s[1..n + 1] == st.kappa;
    assert s[n + 3..] == rest;
  }

  class TransmissionModel {
    const intervalsPerYear: nat
    /** `Global::interval`: days per step. */
    const interval: nat
    var simulationMode: int
    var kappa: seq<real>
    var initialisationEIR: seq<real>
    var annualEIR: real
    var annualAverageKappa: real
    var sumAnnualKappa: real

    predicate Valid()
      reads this
    {
      intervalsPerYear > 0 && |kappa| == |initialisationEIR| == intervalsPerYear
    }

    function State(): Snapshot
      reads this
    {
      Snapshot(annualEIR, kappa, annualAverageKappa, sumAnnualKappa)
    }

    function Acc(): Accumulator
      reads this
    {
      Accumulator(sumAnnualKappa, annualAverageKappa)
    }

    /** The constructor sizes kappa and the expected EIR to one entry per step of the year. */
    constructor (intervalsPerYear: nat, interval: nat, simulationMode: int)
      requires intervalsPerYear > 0
      ensures Valid() && this.intervalsPerYear == intervalsPerYear && this.interval == interval
      ensures kappa == Vectors.Zeros(intervalsPerYear) && initialisationEIR == Vectors.Zeros(intervalsPerYear)
      ensures this.simulationMode == simulationMode
    {
      this.intervalsPerYear, this.interval := intervalsPerYear, interval;
      this.simulationMode := simulationMode;
      kappa := Vectors.Zeros(intervalsPerYear);
      initialisationEIR := Vectors.Zeros(intervalsPerYear);
      annualEIR, annualAverageKappa, sumAnnualKappa := 0.0, 0.0, 0.0;
    }

    /**
     * `getEIR`, given the EIR the concrete model calculates: in equilibrium
     * mode the expected EIR at the step's position in the year.
     */
    method GetEIR(simulationTime: nat, calculatedEIR: real) returns (r: real)
      requires Valid()
      ensures simulationMode == TransmissionModes.EQUILIBRIUM_MODE ==>
                r == initialisationEIR[simulationTime % intervalsPerYear]
      ensures simulationMode != TransmissionModes.EQUILIBRIUM_MODE ==> r == calculatedEIR
    {
      if simulationMode == TransmissionModes.EQUILIBRIUM_MODE {
        return initialisationEIR[simulationTime % intervalsPerYear];
      }
      return calculatedEIR;
    }

    /**
     * `updateKappa`: only kappa at the step's position in the year changes,
     * to the weighted mean infectiousness (0 when no weight), and the
     * accumulator takes one Step with that kappa times the step length and
     * the expected EIR.
     */
    method UpdateKappa(simulationTime: nat, sumWeight: real, sumWtKappa: real)
      requires Valid()
      modifies this`kappa, this`sumAnnualKappa, this`annualAverageKappa
      ensures Valid()
      ensures var tmod := simulationTime % intervalsPerYear;
              && kappa == old(kappa)[tmod := if sumWeight == 0.0 then 0.0 else sumWtKappa / sumWeight]
              && Acc() == Step(old(Acc()), tmod, kappa[tmod] * interval as real * initialisationEIR[tmod], annualEIR)
    {
      var tmod := simulationTime % intervalsPerYear;
      if sumWeight == 0.0 {
        kappa := kappa[tmod := 0.0];
      } else {
        kappa := kappa[tmod := sumWtKappa / sumWeight];
      }
      if tmod == 1 {
        sumAnnualKappa := 0.0;
      }
      sumAnnualKappa := sumAnnualKappa + kappa[tmod] * interval as real * initialisationEIR[tmod];
      if tmod == 0 {
        if annualEIR == 0.0 {
          annualAverageKappa := 0.0;
        } else {
          annualAverageKappa := sumAnnualKappa / annualEIR;
        }
      }
    }

    /** `write`: the checkpoint of the state, kappa written entry by entry. */
    method Write() returns (out: seq<real>)
      ensures out == Checkpoint(State())
    {
      out := [annualEIR];
      var i := 0;
      while i < |kappa|
        invariant 0 <= i <= |kappa|
        invariant out == [annualEIR] + kappa[..i]
      {
        out := out + [kappa[i]];
        i := i + 1;
      }
      assert kappa[..i] == kappa;
      out := out + [annualAverageKappa, sumAnnualKappa];
    }

    /**
     * `read`: the four fields are read in checkpoint order, kappa entry by
     * entry; a stream that ends early leaves the fields read so far with
     * their new values, the others unchanged, and is used up.
     */
    method Read(inp: seq<real>) returns (rest: seq<real>, ok: bool)
      requires Valid()
      modifies this`annualEIR, this`kappa, this`annualAverageKappa, this`sumAnnualKappa
      ensures Valid()
      ensures ok <==> |inp| >= intervalsPerYear + 3
      ensures State() == ReadOver(old(State()), inp)
      ensures rest == if ok then inp[intervalsPerYear + 3..] else []
      ensures ok ==> Restore(inp, intervalsPerYear) == Some((State(), rest))
    {
      var n := intervalsPerYear;
      if |inp| > 0 {
        annualEIR := inp[0];
      }
      var k := kappa;
      var i := 0;
      while i < n
        invariant 0 <= i <= n && |k| == n
        invariant forall j :: 0 <= j < i ==> k[j] == if j + 1 < |inp| then inp[j + 1] else old(kappa)[j]
        invariant forall j :: i <= j < n ==> k[j] == old(kappa)[j]
      {
        if i + 1 < |inp| {
          k := k[i := inp[i + 1]];
        }
        i := i + 1;
      }
      kappa := k;
      if |inp| > n + 1 {
        annualAverageKappa := inp[n + 1];
      }
      if |inp| > n + 2 {
        sumAnnualKappa := inp[n + 2];
      }
      ok := |inp| >= n + 3;
      rest := if ok then inp[n + 3..] else [];
      ReadOverMeaning(old(State()), inp);
    }
  }
}
