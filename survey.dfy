/**
 * `Survey` (openmalaria-642 `Monitoring/Survey.h`): the per-survey counters
 * that the simulation reports into, and the `SurveyMeasure` numbering.
 */
module Survey {
  import opened Wrappers

  /** `SurveyMeasure`; the numbers are fixed because output files use them. */
  datatype SurveyMeasure =
    NHost | NInfect | NExpectd | NPatent | SumLogPyrogenThres | SumlogDens | TotalInfs |
    NTransmit | TotalPatentInf | Contrib | SumPyrogenThresh | NTreatments1 | NTreatments2 |
    NTreatments3 | NUncomp | NSevere | NSeq | NHospitalDeaths | NIndDeaths | NDirDeaths |
    NEPIVaccinations | Imrsummary | NMassVaccinations | NHospitalRecovs | NHospitalSeqs |
    NIPTDoses | AnnAvgK | NNMFever | InnoculationsPerAgeGroup | InnoculationsPerDayOfYear |
    KappaPerDayOfYear | VectorNv0 | VectorNv | VectorOv | VectorSv | VectorEIRInput |
    VectorEIRSimulated | ClinicalRDTs | ClinicalDrugUsage | ClinicalFirstDayDeaths |
    ClinicalHospitalFirstDayDeaths

  /** The number of each measure. */
  function Code(m: SurveyMeasure): nat
  {
    match m
      case NHost => 0
      case NInfect => 1
      case NExpectd => 2
      case NPatent => 3
      case SumLogPyrogenThres => 4
      case SumlogDens => 5
      case TotalInfs => 6
      case NTransmit => 7
      case TotalPatentInf => 8
      case Contrib => 9
      case SumPyrogenThresh => 10
      case NTreatments1 => 11
      case NTreatments2 => 12
      case NTreatments3 => 13
      case NUncomp => 14
      case NSevere => 15
      case NSeq => 16
      case NHospitalDeaths => 17
      case NIndDeaths => 18
      case NDirDeaths => 19
      case NEPIVaccinations => 20
      case Imrsummary => 21
      case NMassVaccinations => 22
      case NHospitalRecovs => 23
      case NHospitalSeqs => 24
      case NIPTDoses => 25
      case AnnAvgK => 26
      case NNMFever => 27
      case InnoculationsPerAgeGroup => 30
      case InnoculationsPerDayOfYear => 28
      case KappaPerDayOfYear => 29
      case VectorNv0 => 31
      case VectorNv => 32
      case VectorOv => 33
      case VectorSv => 34
      case VectorEIRInput => 35
      case VectorEIRSimulated => 36
      case ClinicalRDTs => 39
      case ClinicalDrugUsage => 40
      case ClinicalFirstDayDeaths => 41
      case ClinicalHospitalFirstDayDeaths => 42
  }

  /** `NUM_SURVEY_OPTIONS`, the size of the `active` bitset. */
  const NUM_SURVEY_OPTIONS: nat := 43

  /** The measure with number n, if any (37 and 38 are unused). */
  function FromCode(n: int): Option<SurveyMeasure>
  {
    if n < 0 then None
    else if n == 0 then Some(NHost)
    else if n == 1 then Some(NInfect)
    else if n == 2 then Some(NExpectd)
    else if n == 3 then Some(NPatent)
    else if n == 4 then Some(SumLogPyrogenThres)
    else if n == 5 then Some(SumlogDens)
    else if n == 6 then Some(TotalInfs)
    else if n == 7 then Some(NTransmit)
    else if n == 8 then Some(TotalPatentInf)
    else if n == 9 then Some(Contrib)
    else if n == 10 then Some(SumPyrogenThresh)
    else if n == 11 then Some(NTreatments1)
    else if n == 12 then Some(NTreatments2)
    else if n == 13 then Some(NTreatments3)
    else if n == 14 then Some(NUncomp)
    else if n == 15 then Some(NSevere)
    else if n == 16 then Some(NSeq)
    else if n == 17 then Some(NHospitalDeaths)
    else if n == 18 then Some(NIndDeaths)
    else if n == 19 then Some(NDirDeaths)
    else if n == 20 then Some(NEPIVaccinations)
    else if n == 21 then Some(Imrsummary)
    else if n == 22 then Some(NMassVaccinations)
    else if n == 23 then Some(NHospitalRecovs)
    else if n == 24 then Some(NHospitalSeqs)
    else if n == 25 then Some(NIPTDoses)
    else if n == 26 then Some(AnnAvgK)
    else if n == 27 then Some(NNMFever)
    else if n == 28 then Some(InnoculationsPerDayOfYear)
    else if n == 29 then Some(KappaPerDayOfYear)
    else if n == 30 then Some(InnoculationsPerAgeGroup)
    else if n == 31 then Some(VectorNv0)
    else if n == 32 then Some(VectorNv)
    else if n == 33 then Some(VectorOv)
    else if n == 34 then Some(VectorSv)
    else if n == 35 then Some(VectorEIRInput)
    else if n == 36 then Some(VectorEIRSimulated)
    else if n == 39 then Some(ClinicalRDTs)
    else if n == 40 then Some(ClinicalDrugUsage)
    else if n == 41 then Some(ClinicalFirstDayDeaths)
    else if n == 42 then Some(ClinicalHospitalFirstDayDeaths)
    else None
  }

  /** Decoding a measure's number gives the measure back, so the numbers are distinct. */
  lemma CodeRoundTrip(m: SurveyMeasure)
    ensures FromCode(Code(m)) == Some(m)
    ensures Code(m) < NUM_SURVEY_OPTIONS
  {
  }

  lemma CodesDistinct(a: SurveyMeasure, b: SurveyMeasure)
    ensures Code(a) == Code(b) ==> a == b
  {
    CodeRoundTrip(a);
    CodeRoundTrip(b);
  }

  /** NUM_SURVEY_OPTIONS is one more than the largest measure number. */
  lemma NumSurveyOptionsIsMaxPlusOne()
    ensures Code(ClinicalHospitalFirstDayDeaths) + 1 == NUM_SURVEY_OPTIONS
    ensures forall m: SurveyMeasure :: Code(m) < NUM_SURVEY_OPTIONS
  {
    forall m: SurveyMeasure ensures Code(m) < NUM_SURVEY_OPTIONS { CodeRoundTrip(m); }
  }

  // ------------------------------------------------------------------ counters

  /** The integer per-age-group counters that a `report*` method adds into. */
  datatype IntCounter =
    Hosts | InfectedHosts | PatentHosts | Infections | PatentInfections |
    Treatments1 | Treatments2 | Treatments3 | UncomplicatedEpisodes | SevereEpisodes |
    Sequelae | HospitalDeaths | IndirectDeaths | DirectDeaths | EPIVaccinations |
    MassVaccinations | HospitalRecoveries | HospitalSequelae | IPTDoses | NonMalariaFevers |
    FirstDayDeaths | HospitalFirstDayDeaths

  const ALL_INT_COUNTERS: set<IntCounter> :=
    {Hosts, InfectedHosts, PatentHosts, Infections, PatentInfections,
     Treatments1, Treatments2, Treatments3, UncomplicatedEpisodes, SevereEpisodes,
     Sequelae, HospitalDeaths, IndirectDeaths, DirectDeaths, EPIVaccinations,
     MassVaccinations, HospitalRecoveries, HospitalSequelae, IPTDoses, NonMalariaFevers,
     FirstDayDeaths, HospitalFirstDayDeaths}

  lemma AllIntCountersListed(c: IntCounter)
    ensures c in ALL_INT_COUNTERS
  {
  }

  /** The real-valued per-age-group counters (`reportExpectedInfected` and the `addTo*` methods). */
  datatype RealCounter = ExpectedInfected | LogPyrogenicThreshold | LogDensity | PyrogenicThreshold

  const ALL_REAL_COUNTERS: set<RealCounter> :=
    {ExpectedInfected, LogPyrogenicThreshold, LogDensity, PyrogenicThreshold}

  lemma AllRealCountersListed(c: RealCounter)
    ensures c in ALL_REAL_COUNTERS
  {
  }

  /** A vector with `val` added at index i only. */
  function Bumped(v: seq<int>, i: nat, val: int): (r: seq<int>)
    requires i < |v|
  {
    v[i := v[i] + val]
  }

  function BumpedReal(v: seq<real>, i: nat, val: real): (r: seq<real>)
    requires i < |v|
  {
    v[i := v[i] + val]
  }

  /** A report changes only its own entry, by exactly val, and keeps the length. */
  lemma BumpedOnlyAtIndex(v: seq<int>, i: nat, val: int)
    requires i < |v|
    ensures |Bumped(v, i, val)| == |v|
    ensures Bumped(v, i, val)[i] == v[i] + val
    ensures forall k :: 0 <= k < |v| && k != i ==> Bumped(v, i, val)[k] == v[k]
  {
  }

  /** Reports accumulate: two reports to the same group add up, and reports to any groups commute. */
  lemma BumpsAccumulate(v: seq<int>, i: nat, j: nat, a: int, b: int)
    requires i < |v| && j < |v|
    ensures Bumped(Bumped(v, i, a), j, b) == Bumped(Bumped(v, j, b), i, a)
    ensures i == j ==> Bumped(Bumped(v, i, a), i, b) == Bumped(v, i, a + b)
  {
  }

  /** `report_Clinical_DrugUsage`: an absent drug starts at 0, then qty is added. */
  function DrugUsageAdded(m: map<string, real>, abbrev: string, qty: real): map<string, real>
  {
    m[abbrev := (if abbrev in m then m[abbrev] else 0.0) + qty]
  }

  /** Two reports of the same drug from empty give the sum; other drugs are untouched. */
  lemma DrugUsageSums(m: map<string, real>, abbrev: string, q1: real, q2: real)
    ensures DrugUsageAdded(DrugUsageAdded(map[], abbrev, q1), abbrev, q2)[abbrev] == q1 + q2
    ensures forall k :: k in m && k != abbrev ==> k in DrugUsageAdded(m, abbrev, q1) && DrugUsageAdded(m, abbrev, q1)[k] == m[k]
    ensures DrugUsageAdded(m, abbrev, q1).Keys == m.Keys + {abbrev}
  {
  }

  /** The counters of one survey. Each per-age-group vector holds one entry per age group. */
  class Survey {
    var intData: map<IntCounter, seq<int>>
    var realData: map<RealCounter, seq<real>>
    var numTransmittingHosts: real
    var annualAverageKappa: real
    var innoculationsPerAgeGroup: seq<real>
    var vectorNv0: map<string, real>
    var vectorNv: map<string, real>
    var vectorOv: map<string, real>
    var vectorSv: map<string, real>
    var vectorEIRInput: real
    var vectorEIRSimulated: real
    var clinicalRDTs: int
    var clinicalDrugUsage: map<string, real>

    /** `allocate`: every per-age-group vector has one zero entry per age group. */
    predicate Allocated(numGroups: nat)
      reads this
    {
      (forall c: IntCounter :: c in intData && |intData[c]| == numGroups) &&
      (forall c: RealCounter :: c in realData && |realData[c]| == numGroups)
    }

    constructor (numGroups: nat)
      ensures Allocated(numGroups)
      ensures forall c: IntCounter, k :: 0 <= k < numGroups ==> intData[c][k] == 0
      ensures clinicalRDTs == 0 && clinicalDrugUsage == map[]
    {
      intData := map c | c in ALL_INT_COUNTERS :: seq(numGroups, _ => 0);
      realData := map c | c in ALL_REAL_COUNTERS :: seq(numGroups, _ => 0.0);
      numTransmittingHosts, annualAverageKappa := 0.0, 0.0;
      innoculationsPerAgeGroup := [];
      vectorNv0, vectorNv, vectorOv, vectorSv := map[], map[], map[], map[];
      vectorEIRInput, vectorEIRSimulated := 0.0, 0.0;
      clinicalRDTs := 0;
      clinicalDrugUsage := map[];
      new;
      forall c: IntCounter ensures c in intData { AllIntCountersListed(c); }
      forall c: RealCounter ensures c in realData { AllRealCountersListed(c); }
    }

    /**
     * Every integer `report*` method (`reportHosts`, `reportTreatments1`,
     * `report_Clinical_FirstDayDeaths`, ...): adds val at the age group's
     * index of its counter only, and returns the same survey for chaining.
     */
    method Report(c: IntCounter, ageGroup: nat, val: int) returns (self: Survey)
      requires c in intData && ageGroup < |intData[c]|
      modifies this
      ensures self == this
      ensures intData == old(intData)[c := Bumped(old(intData[c]), ageGroup, val)]
      ensures realData == old(realData) && clinicalRDTs == old(clinicalRDTs)
      ensures clinicalDrugUsage == old(clinicalDrugUsage) && innoculationsPerAgeGroup == old(innoculationsPerAgeGroup)
      ensures numTransmittingHosts == old(numTransmittingHosts) && annualAverageKappa == old(annualAverageKappa)
      ensures vectorNv0 == old(vectorNv0) && vectorNv == old(vectorNv) && vectorOv == old(vectorOv) && vectorSv == old(vectorSv)
      ensures vectorEIRInput == old(vectorEIRInput) && vectorEIRSimulated == old(vectorEIRSimulated)
    {
      intData := intData[c := Bumped(intData[c], ageGroup, val)];
      self := this;
    }

    /** `reportExpectedInfected` and every `addTo*` method, on the real-valued counters. */
    method AddTo(c: RealCounter, ageGroup: nat, val: real) returns (self: Survey)
      requires c in realData && ageGroup < |realData[c]|
      modifies this
      ensures self == this
      ensures realData == old(realData)[c := BumpedReal(old(realData[c]), ageGroup, val)]
      ensures intData == old(intData) && clinicalRDTs == old(clinicalRDTs)
      ensures clinicalDrugUsage == old(clinicalDrugUsage) && innoculationsPerAgeGroup == old(innoculationsPerAgeGroup)
      ensures numTransmittingHosts == old(numTransmittingHosts) && annualAverageKappa == old(annualAverageKappa)
      ensures vectorNv0 == old(vectorNv0) && vectorNv == old(vectorNv) && vectorOv == old(vectorOv) && vectorSv == old(vectorSv)
      ensures vectorEIRInput == old(vectorEIRInput) && vectorEIRSimulated == old(vectorEIRSimulated)
    {
      realData := realData[c := BumpedReal(realData[c], ageGroup, val)];
      self := this;
    }

    method SetAnnualAverageKappa(kappa: real)
      modifies this`annualAverageKappa
      ensures annualAverageKappa == kappa
    {
      annualAverageKappa := kappa;
    }

    method SetNumTransmittingHosts(value: real)
      modifies this`numTransmittingHosts
      ensures numTransmittingHosts == value
    {
      numTransmittingHosts := value;
    }

    /** `setInnoculationsPerAgeGroup`: a copy of the argument's contents. */
    method SetInnoculationsPerAgeGroup(v: array<real>)
      modifies this`innoculationsPerAgeGroup
      ensures innoculationsPerAgeGroup == v[..]
    {
      innoculationsPerAgeGroup := v[..];
    }

    method ReportClinicalRDTs(num: int)
      modifies this`clinicalRDTs
      ensures clinicalRDTs == old(clinicalRDTs) + num
    {
      clinicalRDTs := clinicalRDTs + num;
    }

    method ReportClinicalDrugUsage(abbrev: string, qty: real)
      modifies this`clinicalDrugUsage
      ensures clinicalDrugUsage == DrugUsageAdded(old(clinicalDrugUsage), abbrev, qty)
    {
      var current := if abbrev in clinicalDrugUsage then clinicalDrugUsage[abbrev] else 0.0;
      clinicalDrugUsage := clinicalDrugUsage[abbrev := current + qty];
    }

    /** The `set_Vector_*` species setters overwrite the entry for key. */
    method SetVectorNv0(key: string, v: real)
      modifies this`vectorNv0
      ensures vectorNv0 == old(vectorNv0)[key := v]
    {
      vectorNv0 := vectorNv0[key := v];
    }

    method SetVectorNv(key: string, v: real)
      modifies this`vectorNv
      ensures vectorNv == old(vectorNv)[key := v]
    {
      vectorNv := vectorNv[key := v];
    }

    method SetVectorOv(key: string, v: real)
      modifies this`vectorOv
      ensures vectorOv == old(vectorOv)[key := v]
    {
      vectorOv := vectorOv[key := v];
    }

    method SetVectorSv(key: string, v: real)
      modifies this`vectorSv
      ensures vectorSv == old(vectorSv)[key := v]
    {
      vectorSv := vectorSv[key := v];
    }

    method SetVectorEIRInput(v: real)
      modifies this`vectorEIRInput
      ensures vectorEIRInput == v
    {
      vectorEIRInput := v;
    }

    method SetVectorEIRSimulated(v: real)
      modifies this`vectorEIRSimulated
      ensures vectorEIRSimulated == v
    {
      vectorEIRSimulated := v;
    }
  }
}
