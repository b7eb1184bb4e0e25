# OpenMalaria core and the experiment creator, modelled in Dafny

This project models the sequential, self-contained parts of the OpenMalaria
malaria simulator, taken from several of its tags, and the option handling of
the experiment creator that drives sweeps of scenarios. Every C++ `double` is
a Dafny `real`, and rounding is ignored. Every random draw (`uniform_01`,
`gauss`, `bernoulli`) is a method parameter. No files or streams are opened:
a stream the source writes to or reads from is a sequence of tokens. An
exception the source throws is the `Error` case of a `Result` (module
`Wrappers`) carrying its message.

Each module follows one source file:

- `ExperimentCreator` (experiment_creator/src/ch/swisstph/expcreator/ExperimentCreator.java): option parsing as functions; `main`'s step order recorded as a list of steps.
- `CommandLine` (tags/openmalaria-647/model/util/Options.cpp): `CommandLine` class with its parse loop; resource lookup.
- `ModelOptions` (tags/openmalaria-647/model/util/Options.cpp): `OptionCodeMap` as a listing; `ModelOptions` class with `init`.
- `InputData` (tags/openmalaria-644/model/inputData.cpp): `InputDataType` class over a parsed document.
- `ESDecisionTree`, `ESDecisionRandom` (tags/schema-28/model/Clinical/ESDecisionTree.cpp): decision trees as datatypes; the tree processors as classes with recursive methods.
- `ESCaseManagement` (tags/schema-30.2/model/Clinical/ESCaseManagement.cpp): treatment schedules edited in place; the decision-map processor.
- `Interventions` (tags/schema-30/model/Interventions.cpp): `InterventionManager` with its sorted timed list and cursor.
- `EventScheduler` (trunk/model/Clinical/EventScheduler.cpp): `ClinicalEventScheduler` and its one-day update.
- `OldCaseManagement639` (tags/openmalaria-639/model/Clinical/OldCaseManagement.cpp): health-system tables and the per-human case-management state.
- `OldCaseManagement626` (tags/openmalaria-626/model/Clinical/OldCaseManagement.cpp): the earlier version that also reads case fatality rates.
- `CaseManagementCommon` (tags/openmalaria-649/model/Clinical/CaseManagementCommon.cpp): the health-system state shared by both case-management models.
- `NewCaseManagement` (tags/openmalaria-615/model/NewCaseManagement.cpp): age band, end point and decision selection.
- `ClinicalEvent` (tags/openmalaria-614/model/event.cpp): `Event` class; episode merging and its write/read pair.
- `Proteome` (tags/openmalaria-617/model/proteome.cpp): proteins and mutations as values; `ProteomeManager` registry class.
- `StreamValidator` (tags/schema-29/model/util/StreamValidator.cpp): `StreamValidatorType` class in store and replay modes.
- `Survey` (tags/openmalaria-642/include/Monitoring/Survey.h): `Survey` class of counters; `SurveyMeasure` codes.
- `DescriptiveIPTWithinHost` (tags/openmalaria-647-mem-opt/model/WithinHost/DescriptiveIPTWithinHost.cpp): IPTi within-host model class.
- `DescriptiveIPTInfection` (tags/openmalaria-626/model/WithinHost/DescriptiveIPTInfection.cpp): genotype choice and SP attenuation window.
- `DescriptiveWithinHost` (trunk/model/WithinHost/Descriptive.cpp): infection list with an MOI cap.
- `EmpiricalWithinHost` (trunk/model/WithinHost/Empirical.cpp): infection list with an MOI cap and density accumulators.
- `DummyInfection` (tags/openmalaria-626/model/WithinHost/DummyInfection.cpp): test infection class.
- `Human` (branches/vec-lifecycle/model/Host/Human.cpp): update contract, cohort toggles, `_ylag` ring buffer.
- `VectorModel` (tags/schema-30.3/model/Transmission/VectorModel.cpp): species bookkeeping and the initialisation iteration.
- `VectorTransmission` (trunk/model/Transmission/Vector/VectorTransmission.cpp): the later version of the same.
- `AnophelesTransmission` (tags/schema-30.2/model/Transmission/Anopheles/Transmission.cpp): mosquito ring buffers over arrays.
- `TransmissionModel` (tags/openmalaria-617/model/TransmissionModel.cpp): age groups, EIR lookup, kappa, checkpoint.
- `Vectors` (tags/schema-30.1/model/util/vectors.cpp): in-place utilities over `array<real>`.

Shared helper modules: `Wrappers` (`Result`, `Option`), `Global`
(simulation-wide constants), `Pathogenesis` (pathogenesis state flags),
`Probability` (facts about probabilities), `CArith` (C++ truncating division
and `double`-to-`int` conversion), `Decimal` (digit strings as the C++ and
Java number parsers read them) and `TransmissionModes` and `SpeciesIndex`
(simulation modes and the species-name index).

Where the source has a bug, the model keeps the code as written in one
member and proves the discrepancy on a concrete input, then uses a corrected
member for the rest of the model (see "## Findings").

## Model

| member | source | states |
|---|---|---|
| Vectors.Scale | tags/schema-30.1/model/util/vectors.cpp:28-31 | every element is multiplied by a, length kept (against Scaled, with ScaledAt) |
| Vectors.SumScaled | tags/schema-30.1/model/util/vectors.cpp:28-38 | summing a scaled vector gives the scaled sum |
| Vectors.SumOf | tags/schema-30.1/model/util/vectors.cpp:33-38 | the result is the left fold of the elements from 0.0 |
| Vectors.SumAppend | tags/schema-30.1/model/util/vectors.cpp:33-38 | the sum of a concatenation is the sum of the sums |
| Vectors.AddTo | tags/schema-30.1/model/util/vectors.cpp:40-45 | requires equal lengths; x[i] becomes the old x[i] + y[i], also when x and y are the same vector; a distinct y is unchanged |
| Vectors.AddToSelfDoubles | tags/schema-30.1/model/util/vectors.cpp:40-45 | adding a vector to itself doubles every element |
| Vectors.SumAdded | tags/schema-30.1/model/util/vectors.cpp:40-45 | after addTo the sum of x is the sum of both inputs |
| Vectors.ApproxEqualReflexive | tags/schema-30.1/model/util/vectors.cpp:48-56 | scalar approxEqual is reflexive for a non-negative factor |
| Vectors.ApproxEqualSymmetric | tags/schema-30.1/model/util/vectors.cpp:48-56 | scalar approxEqual is symmetric |
| Vectors.ApproxEqualVec | tags/schema-30.1/model/util/vectors.cpp:58-66 | false on a length mismatch, else true iff every pair is approxEqual |
| Vectors.Std2Gsl | tags/schema-30.1/model/util/vectors.cpp:76-82 | fails iff the size differs from length; otherwise a copy of the vector |
| ClinicalEvent.NewEpisode | tags/openmalaria-614/model/event.cpp:31-41 | a new episode records time, survey, age group, diagnosis and outcome with recurrence 1, and reports the old episode iff its time is not the missing value |
| ClinicalEvent.SameEpisode | tags/openmalaria-614/model/event.cpp:42-47 | within the memory window nothing is reported, the start is kept, diagnosis and outcome become the maxima and recurrence grows by one |
| ClinicalEvent.ReportsOnlyOnNewEpisode | tags/openmalaria-614/model/event.cpp:31-35 | an episode is reported iff a new one starts (indirect death or past the window) over an existing one |
| ClinicalEvent.WriteReadRoundTrip | tags/openmalaria-614/model/event.cpp:51-70 | reading back the six written fields restores the event and leaves the rest of the stream |
| ClinicalEvent.Event.constructor | tags/openmalaria-614/model/event.cpp:31-35 | a new event's time is the missing value and its other fields 0, so its first update starts an episode without reporting one |
| ClinicalEvent.Event.Update | tags/openmalaria-614/model/event.cpp:30-48 | the new fields and the reported episode are those of Step |
| ClinicalEvent.Event.ReadFrom | tags/openmalaria-614/model/event.cpp:61-70 | reads six numbers into the fields in order; fails exactly on a short stream, whose values still replace the fields they reach while the other fields keep theirs |
| ClinicalEvent.ReadOverFull | tags/openmalaria-614/model/event.cpp:50-70 | a full read equals the checkpoint's Read; after a short one the fields written out are the stream followed by the old values |
| Proteome.AddPosition | tags/openmalaria-617/model/proteome.cpp:108-115 | a new position, without mutations, is appended to its protein's list and nothing before it changes |
| Proteome.AddMutation | tags/openmalaria-617/model/proteome.cpp:177-181 | a new mutation's allele is appended to its position's list |
| Proteome.SameMutationIsEquality | tags/openmalaria-617/model/proteome.cpp:199-208 | mutation equality is sameness of allele, position number and protein name |
| Proteome.LookupMutationMeaning | tags/openmalaria-617/model/proteome.cpp:328-335 | throws 1 iff no protein has the name, 2 iff its first such protein lacks the position, 3 iff that position lacks the allele; otherwise returns exactly the requested triple |
| Proteome.GetMutation | tags/openmalaria-617/model/proteome.cpp:84-92 | the three search loops compute LookupMutation |
| Proteome.HasMutations | tags/openmalaria-617/model/proteome.cpp:262-275 | true iff every listed mutation equals some mutation of the instance (true for an empty list) |
| Proteome.ManagerRoundTrip | tags/openmalaria-617/model/proteome.cpp:285-317 | when every protein name is one non-empty word without white space and no wild type or allele is a white-space character, reading the written registries restores every protein (name, positions, wild types, alleles) and instance (id, mutation triples) in order |
| Proteome.ProteomeManager.NewInstance | tags/openmalaria-617/model/proteome.cpp:214-219 | a new instance takes currentID, which then grows by one |
| Proteome.RaisedIDReusesLoadedID | tags/openmalaria-617/model/proteome.cpp:235-236 | as written, reading ids 0 and 1 into a fresh registry leaves currentID at 1, an id already in use |
| Proteome.NextFreeIDIsFresh | tags/openmalaria-617/model/proteome.cpp:214-236 | the corrected counter never decreases and ends above every loaded id |
| Proteome.ProteomeManager.Read | tags/openmalaria-617/model/proteome.cpp:296-317 | both registries are replaced by what the stream holds, proteins before instances; errors from lookups propagate, leaving every protein and the instances read whole before the failing one; currentID follows the corrected counter NextFreeID and ends past every loaded id, where the source sets it to the largest loaded id (RaisedID, Findings) |
| Proteome.ManagerKeptMeaning | tags/openmalaria-617/model/proteome.cpp:296-317 | what a read leaves behind is its result when it completes; when a lookup throws it is every protein and fewer instances than the stream announces |
| Proteome.InstancesKeptWhenDone | tags/openmalaria-617/model/proteome.cpp:309-316 | when every instance reads, the kept instances are those read; when one throws, fewer are kept than were announced |
| Proteome.ProteinsNeverThrow | tags/openmalaria-617/model/proteome.cpp:58-67 | reading proteins never throws: only instance lookups do |
| Proteome.ProteomeManager.InitProteomeModule | tags/openmalaria-617/model/proteome.cpp:35-46 | adds protein CRT (position 76, wild type K, mutation T) and two instances with consecutive ids, the second carrying that mutation |
| StreamValidator.StoreAppendsOne | tags/schema-29/model/util/StreamValidator.cpp:99-100 | in store mode handle appends exactly the value; mode and replay position are unchanged |
| StreamValidator.ReplayStep | tags/schema-29/model/util/StreamValidator.cpp:101-108 | in replay mode handle succeeds iff the value equals the recorded one at the replay position, and then advances it by one |
| StreamValidator.RecordThenReplay | tags/schema-29/model/util/StreamValidator.cpp:68-70 | recording values from empty and replaying the same values never raises and ends at the end, so saving does not warn |
| StreamValidator.DequeTooLongRejected | tags/schema-29/model/util/StreamValidator.cpp:48-53 | a deque length above 100000000 is rejected |
| StreamValidator.DequeRoundTrip | tags/schema-29/model/util/StreamValidator.cpp:41-57 | reading a written deque restores it and leaves the rest of the stream |
| StreamValidator.LoadRejectsBadHeader | tags/schema-29/model/util/StreamValidator.cpp:80-83 | a file not starting with OMSV is rejected and its deque is not read |
| StreamValidator.LoadErrors | tags/schema-29/model/util/StreamValidator.cpp:80-92 | with a good header a load succeeds iff the deque reads and nothing remains; a too-long deque is refused before anything is stored; the deque replaces the stored stream iff it reads whole |
| StreamValidator.SaveLoadRoundTrip | tags/schema-29/model/util/StreamValidator.cpp:60-96 | loading a saved recording succeeds and gives back the same values |
| StreamValidator.CheckpointRoundTrip | tags/schema-29/model/util/StreamValidator.cpp:111-123 | the checkpoint pair preserves storeMode, the stream and the replay offset |
| StreamValidator.StreamValidatorType.HandleValue | tags/schema-29/model/util/StreamValidator.cpp:98-109 | the new state is that of Handle; an out-of-sync value leaves the state unchanged |
| StreamValidator.StreamValidatorType.LoadStream | tags/schema-29/model/util/StreamValidator.cpp:74-96 | sets replay mode before any check and returns LoadFile's result; a deque read whole replaces the stored stream, a bad header or too-long deque keeps it; only success rewinds the replay position to 0 |
| StreamValidator.StreamValidatorType.CheckpointRead | tags/schema-29/model/util/StreamValidator.cpp:111-117 | the state read is that of ReadCheckpoint; after a failure the mode keeps the flag once read and the stream the deque once read whole, and a missing flag changes nothing |
| Survey.CodeRoundTrip | tags/openmalaria-642/include/Monitoring/Survey.h:36-150 | every measure's number decodes back to that measure (so the numbers are distinct) and is below NUM_SURVEY_OPTIONS |
| Survey.CodesDistinct | tags/openmalaria-642/include/Monitoring/Survey.h:36-150 | two measures with the same number are the same measure |
| Survey.NumSurveyOptionsIsMaxPlusOne | tags/openmalaria-642/include/Monitoring/Survey.h:147-150 | NUM_SURVEY_OPTIONS is one more than the largest number, 42 |
| Survey.BumpedOnlyAtIndex | tags/openmalaria-642/include/Monitoring/Survey.h:229-324 | a report adds val at the age group's index only and keeps the length |
| Survey.BumpsAccumulate | tags/openmalaria-642/include/Monitoring/Survey.h:229-324 | reports commute, and two reports to one group add up |
| Survey.DrugUsageSums | tags/openmalaria-642/include/Monitoring/Survey.h:340-343 | an absent drug starts at 0, so two reports from empty give q1 + q2; other drugs are untouched |
| Survey.Survey.constructor | tags/openmalaria-642/include/Monitoring/Survey.h:414-415 | every per-age-group vector has one zero entry per age group |
| Survey.Survey.Report | tags/openmalaria-642/include/Monitoring/Survey.h:229-324 | adds val into one counter at the age group's index, changes nothing else and returns the same survey |
| Survey.Survey.AddTo | tags/openmalaria-642/include/Monitoring/Survey.h:237-256 | the same for the real-valued counters |
| Survey.Survey.SetInnoculationsPerAgeGroup | tags/openmalaria-642/include/Monitoring/Survey.h:334-336 | the field becomes a copy of the argument's contents |
| Survey.Survey.ReportClinicalRDTs | tags/openmalaria-642/include/Monitoring/Survey.h:337-339 | the RDT counter grows by num |
| Survey.Survey.ReportClinicalDrugUsage | tags/openmalaria-642/include/Monitoring/Survey.h:340-343 | the drug's quantity is DrugUsageAdded of the old map |
| Survey.Survey.SetVectorNv0 | tags/openmalaria-642/include/Monitoring/Survey.h:352-363 | the species value is overwritten, not accumulated (likewise Nv, Ov, Sv) |
| Survey.Survey.SetVectorEIRSimulated | tags/openmalaria-642/include/Monitoring/Survey.h:364-369 | the EIR values are overwritten |
| Survey.Survey.SetAnnualAverageKappa | tags/openmalaria-642/include/Monitoring/Survey.h:327-333 | kappa and the transmitting-host count are overwritten |
| DummyInfection.GrownDensity | tags/openmalaria-626/model/WithinHost/DummyInfection.cpp:60 | the grown density always lies in [0, 20000) |
| DummyInfection.GrownDensityIsTruncatedMultiple | tags/openmalaria-626/model/WithinHost/DummyInfection.cpp:49-60 | the grown density is trunc(8·d) mod 20000, and just trunc(8·d) while 8·d < 20000 |
| DummyInfection.GrowthFromSixteen | tags/schema-24.1/unittest/DummyInfectionSuite.h:46-58 | from 16 the density goes to 128, then 1024 |
| DummyInfection.Infection.constructor | tags/openmalaria-626/model/WithinHost/DummyInfection.cpp:36-42 | a new infection has density 16 and duration 100 |
| DummyInfection.Infection.DetermineWithinHostDensity | tags/openmalaria-626/model/WithinHost/DummyInfection.cpp:48-63 | below one parasite the duration becomes −99 and the density 0, else the density grows; exposure grows by interval times the new density |
| DummyInfection.EndedInfectionEndDate | tags/openmalaria-626/model/WithinHost/DummyInfection.cpp:44-46 | the end date divides the duration by the interval rounding toward zero (−99 over 5 gives −19) |
| DescriptiveWithinHost.DescriptiveWithinHostModel.NewInfection | trunk/model/WithinHost/Descriptive.cpp:80-85 | one infection is appended and MOI incremented only while MOI < MAX_INFECTIONS; MOI stays the list length |
| DescriptiveWithinHost.DescriptiveWithinHostModel.ClearAllInfections | trunk/model/WithinHost/Descriptive.cpp:87-94 | the list is empty and MOI is 0 |
| DescriptiveWithinHost.DescriptiveWithinHostModel.RemoveExpired | trunk/model/WithinHost/Descriptive.cpp:101-111 | the list becomes Unexpired of the old one and MOI drops by the number of expired infections |
| DescriptiveWithinHost.UnexpiredAppend | trunk/model/WithinHost/Descriptive.cpp:101-111 | the sweep distributes over concatenation, so survivors keep their order |
| DescriptiveWithinHost.UnexpiredCount | trunk/model/WithinHost/Descriptive.cpp:101-111 | survivors plus expired infections make up the whole list |
| DescriptiveWithinHost.UnexpiredKeepsLive | trunk/model/WithinHost/Descriptive.cpp:101-111 | a list without expired infections is left whole |
| DescriptiveWithinHost.DescriptiveWithinHostModel.CountInfections | trunk/model/WithinHost/Descriptive.cpp:149-158 | returns the list size; patent becomes the count above the detection limit, and is left untouched for an empty list |
| DescriptiveWithinHost.PatentCountBounded | trunk/model/WithinHost/Descriptive.cpp:149-158 | the patent count never exceeds the number of infections |
| DescriptiveWithinHost.CheckMOI | trunk/model/WithinHost/Descriptive.cpp:69-75 | a checkpointed MOI is accepted iff it lies in [0, MAX_INFECTIONS] |
| EmpiricalWithinHost.EmpiricalWithinHostModel.NewInfection | trunk/model/WithinHost/Empirical.cpp:56-61 | below MAX_INFECTIONS one infection started now, with growth rate multiplier 1 and density 0, is appended and MOI grows by one; at the cap nothing changes |
| EmpiricalWithinHost.NewInfectionNotPatent | trunk/model/WithinHost/Empirical.cpp:56-61 | a new infection has density 0, so for a non-negative detection limit it does not change the patent count |
| EmpiricalWithinHost.EmpiricalWithinHostModel.ClearAllInfections | trunk/model/WithinHost/Empirical.cpp:63-66 | the list is empty and MOI is 0 |
| EmpiricalWithinHost.EmpiricalWithinHostModel.CalculateDensities | trunk/model/WithinHost/Empirical.cpp:78-100 | extinct infections are erased with one MOI decrement each, survivors keep their order and take their new density, the total is the sum and the step maximum the maximum of the survivors' densities, and drugs decay once |
| EmpiricalWithinHost.SurvivorsCount | trunk/model/WithinHost/Empirical.cpp:88-91 | survivors plus extinct infections make up the old list, so MOI stays the list length |
| EmpiricalWithinHost.MaxDensityIsMax | trunk/model/WithinHost/Empirical.cpp:79-96 | the step maximum bounds every survivor's density and is 0 or one of them |
| EmpiricalWithinHost.Medicate | trunk/model/WithinHost/Empirical.cpp:71-73 | the drug, quantity, time and age are passed on unchanged with a body weight of 120 kg times the age group's weight proportion |
| EmpiricalWithinHost.EmpiricalWithinHostModel.CountInfections | trunk/model/WithinHost/Empirical.cpp:105-114 | returns the list size; patent becomes the count above the detection limit, and is left untouched for an empty list |
| EmpiricalWithinHost.PatentCountBounded | trunk/model/WithinHost/Empirical.cpp:105-114 | the patent count is at most the list size, the size when all are above the limit and 0 when none is |
| DescriptiveIPTWithinHost.SeasonalTablesSpan | tags/openmalaria-647-mem-opt/model/WithinHost/DescriptiveIPTWithinHost.cpp:127-130 | the window tables satisfy MAX = MIN + 18 (mod 73) for entries 0..7, and entry 8 (19, 31) breaks it |
| DescriptiveIPTWithinHost.InitParameters | tags/openmalaria-647-mem-opt/model/WithinHost/DescriptiveIPTWithinHost.cpp:44-70 | without the IPT model it fails iff an IPTi intervention is active; with it, it succeeds iff the description is present, the interval is 5 and PK/PD is off, and then yields the description's effect |
| DescriptiveIPTWithinHost.FortnightOfFiveDays | tags/openmalaria-647-mem-opt/model/WithinHost/DescriptiveIPTWithinHost.cpp:103 | a fortnight rounded to whole 5-day steps is 3 steps |
| DescriptiveIPTWithinHost.WrappingSeason | tags/openmalaria-647-mem-opt/model/WithinHost/DescriptiveIPTWithinHost.cpp:136-143 | for a window with min >= max the season is everything outside [max, min) |
| DescriptiveIPTWithinHost.Effect16Window | tags/openmalaria-647-mem-opt/model/WithinHost/DescriptiveIPTWithinHost.cpp:129-143 | effect 16's window (55, 0) covers exactly intervals 55..72 of a 73-interval year |
| DescriptiveIPTWithinHost.CheckpointRoundTrip | tags/openmalaria-647-mem-opt/model/WithinHost/DescriptiveIPTWithinHost.cpp:207-220 | reading back the written IPT fields restores all four and leaves the rest of the stream |
| DescriptiveIPTWithinHost.DescriptiveIPTWithinHostModel.constructor | tags/openmalaria-647-mem-opt/model/WithinHost/DescriptiveIPTWithinHost.cpp:77-81 | the attenuation end and both dose times start at TIMESTEP_NEVER, the infection count at 0 |
| DescriptiveIPTWithinHost.DescriptiveIPTWithinHostModel.NewInfection | tags/openmalaria-647-mem-opt/model/WithinHost/DescriptiveIPTWithinHost.cpp:86-95 | the total count always grows; the list, MOI and the cumulative and allowed counts grow only below MAX_INFECTIONS, keeping MOI the list size |
| DescriptiveIPTWithinHost.DescriptiveIPTWithinHostModel.ClearInfections | tags/openmalaria-647-mem-opt/model/WithinHost/DescriptiveIPTWithinHost.cpp:102-124 | the list is always emptied; the last SP dose becomes now + 1 iff not severe, both doses are more than a fortnight ago and the effect is outside {3, 13} and [14, 30) |
| DescriptiveIPTWithinHost.DescriptiveIPTWithinHostModel.DeployIptDose | tags/openmalaria-647-mem-opt/model/WithinHost/DescriptiveIPTWithinHost.cpp:126-155 | outside the seasonal window nothing changes; otherwise the IPTi/placebo time becomes now and, iff the effect is at least 10, the SP dose time becomes now and one dose is reported |
| DescriptiveIPTWithinHost.DescriptiveIPTWithinHostModel.IPTiTreatment | tags/openmalaria-647-mem-opt/model/WithinHost/DescriptiveIPTWithinHost.cpp:157-168 | the same dose effects with no window |
| DescriptiveIPTWithinHost.DescriptiveIPTWithinHostModel.IPTattenuateAsexualMinTotalDensity | tags/openmalaria-647-mem-opt/model/WithinHost/DescriptiveIPTWithinHost.cpp:181-189 | a total density below 10 becomes exactly 10 and cumulativeY grows by 10 iff the option is on, there was an infection and attenuation is still in force; otherwise both are unchanged |
| DescriptiveIPTWithinHost.DescriptiveIPTWithinHostModel.IPTattenuateAsexualDensity | tags/openmalaria-647-mem-opt/model/WithinHost/DescriptiveIPTWithinHost.cpp:191-202 | with the option on and the infection attenuating, the step maximum is scaled by the factor and the attenuation end moves to the truncated later date, never earlier |
| DescriptiveIPTWithinHost.DescriptiveIPTWithinHostModel.ReadCheckpoint | tags/openmalaria-647-mem-opt/model/WithinHost/DescriptiveIPTWithinHost.cpp:207-213 | four values are read into the four fields in order; a short stream is refused, the fields read before its end keep the new values and the others their old ones |
| DescriptiveIPTWithinHost.ReadOverMeaning | tags/openmalaria-647-mem-opt/model/WithinHost/DescriptiveIPTWithinHost.cpp:207-220 | a full read equals the checkpoint's Read; after a short one the fields written out are the stream followed by the old values |
| DescriptiveIPTInfection.LastInsideMeaning | tags/openmalaria-626/model/WithinHost/DescriptiveIPTInfection.cpp:76-97 | the loop's index is -1 iff no cumulative-frequency interval strictly contains the draw, and otherwise the last one that does |
| DescriptiveIPTInfection.InsideIsUnique | tags/openmalaria-626/model/WithinHost/DescriptiveIPTInfection.cpp:76-97 | with non-negative frequencies a draw strictly inside interval k gets genotype k |
| DescriptiveIPTInfection.SelectGenotype | tags/openmalaria-626/model/WithinHost/DescriptiveIPTInfection.cpp:74-97 | the loop as written leaves LastInside of the draw, with its bounds walking the cumulative frequencies |
| DescriptiveIPTInfection.BoundaryDrawHasNoGenotype | tags/openmalaria-626/model/WithinHost/DescriptiveIPTInfection.cpp:74-104 | frequencies (0.5, 0.5) and a draw of 0.5 leave the index at -1, which line 104 then uses as an array index |
| DescriptiveIPTInfection.DrawAboveTotalHasNoGenotype | tags/openmalaria-626/model/WithinHost/DescriptiveIPTInfection.cpp:74-96 | a draw above the frequencies' total also leaves -1: the 1.0 set on the last round is never read |
| DescriptiveIPTInfection.CoveringGenotypeMeaning | tags/openmalaria-626/model/WithinHost/DescriptiveIPTInfection.cpp:79-97 | the corrected choice is a valid index whose interval, closed below, holds the draw, the last genotype taking the rest |
| DescriptiveIPTInfection.CoveringAgreesInside | tags/openmalaria-626/model/WithinHost/DescriptiveIPTInfection.cpp:79-97 | wherever the loop as written finds a genotype, the corrected choice is the same one |
| DescriptiveIPTInfection.InitParameters | tags/openmalaria-626/model/WithinHost/DescriptiveIPTInfection.cpp:38-57 | the five arrays have one entry per genotype, copied in order |
| DescriptiveIPTInfection.Infection.constructor | tags/openmalaria-626/model/WithinHost/DescriptiveIPTInfection.cpp:71-108 | the genotype is a valid index into the tables, and SP attenuates iff proph < now - lastSPdose <= proph + tolPeriod for that genotype |
| DescriptiveIPTInfection.Infection.AsexualAttenuation | tags/openmalaria-626/model/WithinHost/DescriptiveIPTInfection.cpp:111-115 | the returned factor is the reciprocal of the attenuation, and the density is multiplied by it |
| Human.ITNProtectionWindow | branches/vec-lifecycle/model/Host/Human.cpp:245-247 | a human is ITN-protected iff fewer than maxInterventionAge steps have passed since deployment |
| Human.Add | branches/vec-lifecycle/model/Host/Human.cpp:280-288 | afterwards the human is in the cohort; a member is untouched, a non-member is flushed once and one addition is reported |
| Human.Remove | branches/vec-lifecycle/model/Host/Human.cpp:289-296 | the mirror image: afterwards not in the cohort, with one flush and one removal only for a member |
| Human.CohortIdempotent | branches/vec-lifecycle/model/Host/Human.cpp:280-296 | adding twice is adding once, and likewise removing |
| Human.AddThenRemove | branches/vec-lifecycle/model/Host/Human.cpp:280-296 | add then remove restores a non-member, having reported one addition and one removal |
| Human.Human.constructor | branches/vec-lifecycle/model/Host/Human.cpp:57-86 | a new human is outside the cohort and `_ylag` holds 4 × intervalsPer5Days zeros |
| Human.Human.Update | branches/vec-lifecycle/model/Host/Human.cpp:161-189 | a dead human returns true and nothing runs; otherwise false, and only with doUpdate are the sub-models updated and the total density stored at slot simulation mod `_ylag` length, nothing else of `_ylag` changing |
| Human.Human.AddToCohort | branches/vec-lifecycle/model/Host/Human.cpp:280-288 | the cohort state becomes Add of the old one |
| Human.Human.RemoveFromCohort | branches/vec-lifecycle/model/Host/Human.cpp:289-296 | the cohort state becomes Remove of the old one |
| SpeciesIndex.IndexOfMeaning | tags/schema-30.3/model/Transmission/VectorModel.cpp:179-185 | the species index has exactly the species names as keys, each mapped to the last position holding that name |
| SpeciesIndex.DistinctNamesIndexed | trunk/model/Transmission/Vector/VectorTransmission.cpp:74-78 | with distinct names, each name maps to its own position |
| SpeciesIndex.RepeatedNameLosesIndex | trunk/model/Transmission/Vector/VectorTransmission.cpp:74-78 | a name repeated later leaves the earlier position with no key mapped to it |
| SpeciesIndex.AllNamedIffDistinct | trunk/model/Transmission/Vector/VectorTransmission.cpp:74-106 | every position keeps a name in the index iff the species names are distinct |
| SpeciesIndex.BuildIndex | trunk/model/Transmission/Vector/VectorTransmission.cpp:74-78 | the loop builds exactly IndexOf(names) |
| SpeciesIndex.ReverseLookup | trunk/model/Transmission/Vector/VectorTransmission.cpp:49-55 | returns a key mapped to i, and raises the error iff no key is |
| SpeciesIndex.ReverseLookupOfDistinct | tags/schema-30.3/model/Transmission/VectorModel.cpp:153-225 | with distinct names the key found for position i is the i-th name |
| SpeciesIndex.NamesInOrder | trunk/model/Transmission/Vector/VectorTransmission.cpp:99-106 | succeeds iff every position below n has a name, and then lists, in order, a name mapped to each position |
| VectorModel.MeanPopAvail | tags/schema-30.3/model/Transmission/VectorModel.cpp:34-45 | the sum of availabilities over the population size, or 1.0 when the population is empty |
| VectorModel.MinPreinitDuration | tags/schema-30.3/model/Transmission/VectorModel.cpp:297-304 | no pre-initialisation in forced-EIR mode, otherwise 55 years of steps |
| VectorModel.CheckDescription | tags/schema-30.3/model/Transmission/VectorModel.cpp:369-458 | a vector intervention description passes the mode and count checks iff the model is in dynamic mode and has one element per species; the per-element species lookup that follows, which throws for a mosquito the entomology does not name, is SpeciesIndex's |
| VectorModel.VectorModel.InitIterate | tags/schema-30.3/model/Transmission/VectorModel.cpp:309-340 | outside dynamic mode nothing changes and 0 is returned; once converged, dynamic mode is switched on; otherwise the species are asked in order up to the first that wants a round, which counts the iteration and asks for six years (an error past 10 iterations), and with none the model is marked converged and asks for one year |
| VectorModel.NewVectorModel | tags/schema-30.3/model/Transmission/VectorModel.cpp:161-225 | construction succeeds iff there is a species and, outside forced-EIR mode, the names are distinct; forced-EIR mode drops the species, otherwise the index is IndexOf(names) |
| VectorTransmission.TransmissionInitDuration | trunk/model/Transmission/Vector/VectorTransmission.cpp:144-148 | four years of steps |
| VectorTransmission.EquilibriumEIRIsAnnual | trunk/model/Transmission/Vector/VectorTransmission.cpp:177-179 | the forced EIR, indexed by the step count modulo the steps per year, is the same one year (stepsPerYear steps) later |
| VectorTransmission.VectorTransmission.constructor | trunk/model/Transmission/Vector/VectorTransmission.cpp:69-81 | the annual EIR is the sum of the expected EIR |
| VectorTransmission.VectorTransmission.TransmissionInitIterate | trunk/model/Transmission/Vector/VectorTransmission.cpp:149-160 | every species is asked; if any wants a round the mode is equilibrium and two years are returned, otherwise the mode is dynamic and 0 is returned |
| VectorTransmission.VectorTransmission.InitMainSimulation | trunk/model/Transmission/Vector/VectorTransmission.cpp:171-173 | the mode becomes the scenario's, and it is an error iff that is neither 2 nor 4 |
| VectorTransmission.VectorTransmission.CalculateEIR | trunk/model/Transmission/Vector/VectorTransmission.cpp:176-186 | in equilibrium mode the entry at simulation mod steps-per-year times the heterogeneity availability, otherwise the species' EIR total times the age availability |
| VectorTransmission.VectorTransmission.ScaleEIR | trunk/model/Transmission/Vector/VectorTransmission.cpp:124-129 | the expected EIR is scaled element-wise and the annual EIR becomes its sum, which is the old annual sum times the factor |
| VectorTransmission.NewVectorTransmission | trunk/model/Transmission/Vector/VectorTransmission.cpp:57-112 | construction succeeds iff there is a species and the names are distinct, and the index is IndexOf(names) |
| AnophelesTransmission.WritesInBoundsIff | tags/schema-30.2/model/Transmission/Anopheles/Transmission.cpp:52-153 | for a positive rest, every index initialise and update write into fArray and ftauArray is inside the arrays iff 2 × rest < EIP |
| AnophelesTransmission.AcceptedAsWrittenOverruns | tags/schema-30.2/model/Transmission/Anopheles/Transmission.cpp:41-123 | the check 1 <= rest <= EIP admits rest = EIP = 1 (ftauArray[1] written in an array of 1) and rest = 2, EIP = 3 (ftauArray[4] written in an array of 3), and every accepted pair with EIP <= 2 × rest overruns |
| AnophelesTransmission.RingSlots | tags/schema-30.2/model/Transmission/Anopheles/Transmission.cpp:92-97 | the ring indices t, t1 and ttau lie in [0, N_v_length); t is d mod N_v_length, t1 is the slot before it cyclically, and a slot 0 < x < N_v_length days back differs from today's |
| AnophelesTransmission.CutOff | tags/schema-30.2/model/Transmission/Anopheles/Transmission.cpp:163-174 | in dynamic mode the result is 0 or above the threshold; outside dynamic mode, or above the threshold, S_v is kept |
| AnophelesTransmission.Transmission.Initialise | tags/schema-30.2/model/Transmission/Anopheles/Transmission.cpp:34-58 | with the corrected check: an error iff not 1 <= rest with 2 × rest < EIP; otherwise N_v_length = EIP + rest, fArray has EIP − rest + 1 entries starting with 1, ftauArray has EIP entries, 0 below rest and 1 at rest, all later writes fit, and resized entries keep their old values or are 0 |
| AnophelesTransmission.Transmission.InitIterateScale | tags/schema-30.2/model/Transmission/Anopheles/Transmission.cpp:60-66 | N_v, O_v and S_v are each scaled element-wise by the factor |
| AnophelesTransmission.Transmission.InitState | tags/schema-30.2/model/Transmission/Anopheles/Transmission.cpp:68-87 | all six buffers get N_v_length slots, each holding the step's P_A and P_df, P_dif 0, the forced S_v of that day, and N_v and O_v as S_v times their factors |
| AnophelesTransmission.Transmission.Update | tags/schema-30.2/model/Transmission/Anopheles/Transmission.cpp:89-179 | only today's slot of each buffer changes; it receives the step's probabilities, N_v and O_v satisfying their difference equations over the slots 1 and rest days back, and S_v after the cut-off, which is returned |
| AnophelesTransmission.Transmission.UninfectVectors | tags/schema-30.2/model/Transmission/Anopheles/Transmission.cpp:185-189 | O_v, S_v and P_dif become zeros of their old lengths; N_v, P_A and P_df are untouched |
| TransmissionModel.AgeMaxAscending | tags/openmalaria-617/model/TransmissionModel.cpp:40 | the 22 age-group upper bounds are strictly ascending |
| TransmissionModel.AgeGroupMeaning | tags/openmalaria-617/model/TransmissionModel.cpp:136-142 | the age group is below nages: the first group whose bound exceeds the age, or the last group when none does |
| TransmissionModel.AgeGroupMonotone | tags/openmalaria-617/model/TransmissionModel.cpp:136-142 | an older age never gets an earlier group |
| TransmissionModel.GetAgeGroup | tags/openmalaria-617/model/TransmissionModel.cpp:136-142 | the scan returns AgeGroup(age), always below nages |
| TransmissionModel.MidYearSteps | tags/openmalaria-617/model/TransmissionModel.cpp:84-97 | steps at positions other than 0 and 1 only add their contributions to the sum, leaving the published average alone |
| TransmissionModel.YearAverage | tags/openmalaria-617/model/TransmissionModel.cpp:84-97 | a year of steps from position 1 to position 0 leaves the sum equal to that year's contributions and publishes it over the annual EIR, or 0 when the annual EIR is 0, whatever came before |
| TransmissionModel.StepsSplit | tags/openmalaria-617/model/TransmissionModel.cpp:84-97 | running the first step and then the others is running them all |
| TransmissionModel.CheckpointRoundTrip | tags/openmalaria-617/model/TransmissionModel.cpp:147-160 | `write` then `read` restores the annual EIR, every kappa, the average and the sum, leaving the rest of the stream |
| TransmissionModel.TransmissionModel.constructor | tags/openmalaria-617/model/TransmissionModel.cpp:53-62 | kappa and the expected EIR have one entry per step of the year |
| TransmissionModel.TransmissionModel.GetEIR | tags/openmalaria-617/model/TransmissionModel.cpp:67-72 | in equilibrium mode the expected EIR at simulation time mod steps per year, otherwise the concrete model's EIR |
| TransmissionModel.TransmissionModel.UpdateKappa | tags/openmalaria-617/model/TransmissionModel.cpp:74-98 | only kappa at time mod steps per year changes, to the weighted mean or 0 when the weight is 0, and the accumulator takes one Step with kappa × interval × expected EIR |
| TransmissionModel.TransmissionModel.Write | tags/openmalaria-617/model/TransmissionModel.cpp:147-153 | writes the annual EIR, kappa entry by entry, the average and the sum |
| TransmissionModel.TransmissionModel.Read | tags/openmalaria-617/model/TransmissionModel.cpp:154-160 | each field is read in checkpoint order; with enough values the state is exactly what Restore reads, and with a short stream the fields read so far take the stream's values while later ones keep theirs |
| TransmissionModel.ReadOverMeaning | tags/openmalaria-617/model/TransmissionModel.cpp:147-160 | reading a full stream equals Restore; after a short one the state's checkpoint is the stream followed by the rest of the old checkpoint |
| ExperimentCreator.Defaults | experiment_creator/src/ch/swisstph/expcreator/ExperimentCreator.java:27-38 | the values before any option: no paths, -1 seeds, unique seeds, validation on, name EXPERIMENT, start id 0, no database, at least three sweeps |
| ExperimentCreator.ParseInt | experiment_creator/src/ch/swisstph/expcreator/ExperimentCreator.java:54 | a parsed number always fits in 32 bits, and the empty string is rejected (NumberFormatException) |
| ExperimentCreator.SetFlag | experiment_creator/src/ch/swisstph/expcreator/ExperimentCreator.java:57-76 | the flags change no path |
| ExperimentCreator.SetValue | experiment_creator/src/ch/swisstph/expcreator/ExperimentCreator.java:53-70 | the valued options change no path when they parse |
| ExperimentCreator.ApplyOption | experiment_creator/src/ch/swisstph/expcreator/ExperimentCreator.java:41-83 | one iteration advances by one or two arguments, and anything but --stddirs keeps the three standard paths |
| ExperimentCreator.ParseArgs | experiment_creator/src/ch/swisstph/expcreator/ExperimentCreator.java:40-84 | the loop computes the same outcome as the recursive option loop ParseFrom |
| ExperimentCreator.PathsStaySet | experiment_creator/src/ch/swisstph/expcreator/ExperimentCreator.java:40-84 | the standard paths, once set, survive every later option |
| ExperimentCreator.StddirsOnlyOnce | experiment_creator/src/ch/swisstph/expcreator/ExperimentCreator.java:42-52 | --stddirs with nothing set sets description, scenarios and scenarios.csv under its base path; a second one ends in the help text (exit 1) |
| ExperimentCreator.StddirsThenAnything | experiment_creator/src/ch/swisstph/expcreator/ExperimentCreator.java:40-84 | a command line starting with --stddirs B that parses ends with the three standard paths under B |
| ExperimentCreator.ReadAndWriteListRejected | experiment_creator/src/ch/swisstph/expcreator/ExperimentCreator.java:86-90 | --read-list with --write-list-only always exits |
| ExperimentCreator.CheckPassesIff | experiment_creator/src/ch/swisstph/expcreator/ExperimentCreator.java:86-133 | the checks pass iff the list options do not clash, the paths are set, DB mode has a user and a description and keeps the defaults for name and start id, and a run that writes scenarios has a usable output directory |
| ExperimentCreator.Prefix | experiment_creator/src/ch/swisstph/expcreator/ExperimentCreator.java:135-146 | the calls before the choice of patch mode are only construction, reading sweeps, the seed sweep and the sweep checks |
| ExperimentCreator.Execute | experiment_creator/src/ch/swisstph/expcreator/ExperimentCreator.java:24-192 | a stop in the option loop is the outcome; otherwise the first failing check; otherwise the combiner's calls in order, with the DB warning when DB mode reads a list |
| ExperimentCreator.SeedSweepIff | experiment_creator/src/ch/swisstph/expcreator/ExperimentCreator.java:142-144 | a seed sweep is added iff the number of seeds is not negative, only with that number, and not by default |
| ExperimentCreator.PatchModeWritesOnlyPatches | experiment_creator/src/ch/swisstph/expcreator/ExperimentCreator.java:148-150 | patch mode ends with writing the patches and never generates, reads, updates, combines or writes a list |
| ExperimentCreator.ListStepsOnlyWhen | experiment_creator/src/ch/swisstph/expcreator/ExperimentCreator.java:151-173 | outside patch mode, a list read only with --read-list, a list write only without it, combining and the DB update only when not stopping after the list, and each start id is the local one or the database's |
| ExperimentCreator.ListStepsAndStartIds | experiment_creator/src/ch/swisstph/expcreator/ExperimentCreator.java:151-173 | outside patch mode the list is generated with the local start id, written iff not read (with the database id when DB mode gives one), combined iff not write-list-only, the DB updated iff in DB mode |
| CommandLine.ParseNextArg | tags/openmalaria-647/model/util/Options.cpp:43-48 | there is a next argument iff i+1 < argc; it is then the argument at i+1 and the position moves to it; otherwise the "Expected an argument" error |
| CommandLine.StreamInt | tags/openmalaria-647/model/util/Options.cpp:96-100 | a value is read only when it fits 32 bits |
| CommandLine.StreamIntReadsNumber | tags/openmalaria-647/model/util/Options.cpp:96-100 | "12" reads as 12 |
| CommandLine.StreamIntSkipsSpace | tags/openmalaria-647/model/util/Options.cpp:96-100 | white space in front of any text changes nothing that `>> int` reads |
| CommandLine.StreamIntReadsDigits | tags/openmalaria-647/model/util/Options.cpp:96-100 | a run of digits followed by any text that does not start with a digit reads as the digits' value when it fits 32 bits, and fails otherwise |
| CommandLine.StreamIntReadsNegated | tags/openmalaria-647/model/util/Options.cpp:96-100 | the same after a minus sign, with the value negated |
| CommandLine.StreamIntIgnoresTrailingText | tags/openmalaria-647/model/util/Options.cpp:96-100 | " 5x" reads as 5: white space is skipped and the text after the digits is ignored |
| CommandLine.StreamIntReadsSign | tags/openmalaria-647/model/util/Options.cpp:96-100 | "-3" reads as -3 |
| CommandLine.StreamIntNeedsDigit | tags/openmalaria-647/model/util/Options.cpp:96-100 | the empty text and "x1" fail to read |
| CommandLine.StreamBool | tags/openmalaria-647/model/util/Options.cpp:107-111 | only "0" and "1", after white space, read as a boolean |
| CommandLine.SetResourcePath | tags/openmalaria-647/model/util/Options.cpp:70-73 | a second resource path throws; otherwise the next argument plus "/" becomes the path and the loop skips it; a missing argument throws; the state only grows |
| CommandLine.SetEIR | tags/openmalaria-647/model/util/Options.cpp:85-90 | a level already given throws; otherwise the next argument is cast to a double, SET_ANNUAL_EIR and SKIP_SIMULATION are set; a failed cast throws |
| CommandLine.ExactOption | tags/openmalaria-647/model/util/Options.cpp:70-130 | each exact "--" option and what it sets; the state only grows |
| CommandLine.CheckpointAt | tags/openmalaria-647/model/util/Options.cpp:95-105 | a positive time is added to the checkpoint times; any other text ends the loop with the error flag |
| CommandLine.CompressAt | tags/openmalaria-647/model/util/Options.cpp:106-116 | 0 or 1 sets the compression flag; any other text ends the loop with the error flag |
| CommandLine.ShortGroup | tags/openmalaria-647/model/util/Options.cpp:131-152 | the letters after a single "-" in order: p only last and once, m, c, d, h, anything else an error; the state only grows |
| CommandLine.ArgAt | tags/openmalaria-647/model/util/Options.cpp:63-156 | one argument of the loop: "--" options, single-dash groups, anything else the error flag; the state only grows |
| CommandLine.ParseLoopGrows | tags/openmalaria-647/model/util/Options.cpp:63-157 | over the whole loop, flags other than compression are only added and a resource path, scenario, checkpoint time, help or error is never lost |
| CommandLine.NoArguments | tags/openmalaria-647/model/util/Options.cpp:51-56 | with no argument the scenario is scenario.xml, compression is on and the EIR level is NaN |
| CommandLine.GivenOnlyOnce | tags/openmalaria-647/model/util/Options.cpp:70-90 | --resource-path/-p, --scenario and --set-EIR throw their own error once already given |
| CommandLine.ResourcePathKept | tags/openmalaria-647/model/util/Options.cpp:70-73 | a resource path is the argument plus "/" and is kept to the end of the loop |
| CommandLine.SetEIRNaNNotRemembered | tags/openmalaria-647/model/util/Options.cpp:85-88 | after --set-EIR nan the level is still NaN, so a second --set-EIR is accepted |
| CommandLine.SetEIRArg | tags/openmalaria-647/model/util/Options.cpp:85-92 | --set-EIR with a level not yet set and a readable value sets the level, adds SET_ANNUAL_EIR and SKIP_SIMULATION, and moves two arguments on |
| CommandLine.SkipSimulationSticks | tags/openmalaria-647/model/util/Options.cpp:79-92 | --print-model, --print-EIR, --validate-only, -m and an accepted --set-EIR leave SKIP_SIMULATION set after the parse |
| CommandLine.CheckpointTime | tags/openmalaria-647/model/util/Options.cpp:95-105 | --checkpoint=t adds t when it reads as a positive number; otherwise the loop ends and the parse fails with invalid_argument |
| CommandLine.TimedCheckpointOverrides | tags/openmalaria-647/model/util/Options.cpp:200-203 | with timed checkpoints TEST_CHECKPOINTING is turned off and nothing else changes |
| CommandLine.FinishOutcome | tags/openmalaria-647/model/util/Options.cpp:159-193 | an error gives invalid_argument, help alone gives cmd_exit, and the parse succeeds iff neither |
| CommandLine.UnknownOptionFails | tags/openmalaria-647/model/util/Options.cpp:127-130 | an unknown "--" option only sets the error flag, and the parse then fails |
| CommandLine.PMustBeLast | tags/openmalaria-647/model/util/Options.cpp:132-135 | a 'p' anywhere but last in a single-dash group throws, whatever letters come before it |
| CommandLine.LookupResource | tags/openmalaria-647/model/util/Options.cpp:206-216 | a Unix or Windows absolute path is kept, any other path is placed under the resource path |
| CommandLine.LookupResourceIdempotent | tags/openmalaria-647/model/util/Options.cpp:206-216 | with an absolute resource path every result is absolute, so a second lookup changes nothing |
| CommandLine.CommandLine.constructor | tags/openmalaria-647/model/util/Options.cpp:36-40 | the static fields start zero: no flags, no resource path, no checkpoint times, level 0 |
| ModelOptions.ModelOptions.constructor | tags/openmalaria-647/model/util/Options.cpp:41 | the static option word starts at 0 |
| CommandLine.CommandLine.Parse | tags/openmalaria-647/model/util/Options.cpp:50-204 | the static fields and the outcome are those of the loop over argv from its second entry followed by the checks after it |
| ModelOptions.Lookup | tags/openmalaria-647/model/util/Options.cpp:269-278 | a name is found iff it is in the code map, and the code found has that name back; an unknown name is the scenario error |
| ModelOptions.CodeMapRoundTrip | tags/openmalaria-647/model/util/Options.cpp:241-287 | name to code and code to name agree in both directions, and a code without a name is the toString error |
| ModelOptions.DefaultsMeaning | tags/openmalaria-647/model/util/Options.cpp:293-295 | by default only MAX_DENS_CORRECTION is on |
| ModelOptions.LastEntryWins | tags/openmalaria-647/model/util/Options.cpp:297-303 | each option ends up with the value of the last scenario entry naming it, or its default |
| ModelOptions.AppliedFailsIff | tags/openmalaria-647/model/util/Options.cpp:300-303 | the entries are rejected iff one of them names an unknown option |
| ModelOptions.ApplyEntries | tags/openmalaria-647/model/util/Options.cpp:297-303 | the loop over the entries gives the folded option bits or the first unknown name's error |
| ModelOptions.Incompatible | tags/openmalaria-647/model/util/Options.cpp:320-370 | every option is only listed as incompatible with options after it |
| ModelOptions.CompatibleIff | tags/openmalaria-647/model/util/Options.cpp:372-383 | the check passes iff no two set options list each other as incompatible |
| ModelOptions.FirstConflict | tags/openmalaria-647/model/util/Options.cpp:372-383 | the first option whose check fails, with every earlier one passing |
| ModelOptions.FirstIncompatible | tags/openmalaria-647/model/util/Options.cpp:372-383 | the check loop stops at the first failing option, and runs to the end iff the options are compatible |
| ModelOptions.Clashes | tags/openmalaria-647/model/util/Options.cpp:377-381 | the listed options are exactly the set options incompatible with option i |
| ModelOptions.ClashesAreSorted | tags/openmalaria-647/model/util/Options.cpp:378-381 | the listed options are in increasing order, so none is listed twice |
| ModelOptions.AsWrittenMessageNamesNoClash | tags/openmalaria-647/model/util/Options.cpp:380 | as written, the message lists option i once per clash and so never names an option incompatible with i |
| ModelOptions.MassActionClashes | tags/openmalaria-647/model/util/Options.cpp:321-324 | with both mass action models, the negative binomial one fails first, and its only clash is the log-normal one |
| ModelOptions.SingleClashMessages | tags/openmalaria-647/model/util/Options.cpp:376-381 | with a single clash m, the message as written ends with option i's flag and the corrected one with m's |
| ModelOptions.MassActionClashMessage | tags/openmalaria-647/model/util/Options.cpp:376-381 | with both mass action models the message as written repeats NEGATIVE_BINOMIAL_MASS_ACTION, the corrected one names LOGNORMAL_MASS_ACTION |
| ModelOptions.BitsValueBits | tags/openmalaria-647/model/util/Options.cpp:393-397 | bit k of the packed word is set iff option k is |
| ModelOptions.OptionWordFits | tags/openmalaria-647/model/util/Options.cpp:41 | the packed word fits the 32-bit optSet |
| ModelOptions.Pack | tags/openmalaria-647/model/util/Options.cpp:393-397 | the loop packs exactly the set options as bits |
| ModelOptions.ModelOptions.Init | tags/openmalaria-647/model/util/Options.cpp:290-398 | an unknown name, then the first incompatibility with the corrected message naming the clashing options (IncompatMessage, Findings), then INNATE_MAX_DENS without MAX_DENS_CORRECTION are errors that leave the word; otherwise the word holds exactly the set options |
| InputData.ParamsLoopOkIff | tags/openmalaria-644/model/inputData.cpp:49-55 | the parameters are accepted iff every index is in [0, Params::MAX), not in the table yet, and described only once |
| InputData.ParamsLoopContents | tags/openmalaria-644/model/inputData.cpp:49-55 | an accepted table keeps its old entries and holds exactly the described indices, each with its value |
| InputData.ParamsLoopError | tags/openmalaria-644/model/inputData.cpp:50-54 | the first bad entry decides the error: an index out of range is reported as invalid, otherwise as described twice |
| InputData.FlagsOf | tags/openmalaria-644/model/inputData.cpp:82-101 | a timed intervention turns on exactly the flags of the elements it has |
| InputData.ContinuousFlags | tags/openmalaria-644/model/inputData.cpp:60-68 | a nonempty continuous vaccine, ITN or IPTI list sets its flag, and nothing else is set |
| InputData.TimedLoopOkIff | tags/openmalaria-644/model/inputData.cpp:73-80 | the timed interventions are accepted iff their times are distinct and new; the only error is a repeated time |
| InputData.TimedLoopContents | tags/openmalaria-644/model/inputData.cpp:73-103 | after an accepted loop each intervention is stored under its time, and a flag is on iff it was on or some intervention has its element |
| InputData.VersionError | tags/openmalaria-644/model/inputData.cpp:129-141 | a schema is accepted iff its version is exactly 20 |
| InputData.OldSchemaAlwaysIncompatible | tags/openmalaria-644/model/inputData.cpp:36-40 | an old schema is always reported with the "Error" text, since the oldest compatible version is the current one |
| InputData.LastIndex | tags/openmalaria-644/model/inputData.cpp:152-153 | the last position of the character, with nothing after it equal to it, or -1 (null) when absent |
| InputData.BaseNameMeaning | tags/openmalaria-644/model/inputData.cpp:151-158 | the name a changed document is saved under is the longest suffix of the file name without '/' or '\\' |
| InputData.BaseNameIdempotent | tags/openmalaria-644/model/inputData.cpp:151-158 | a base name is its own base name |
| InputData.InputDataType.constructor | tags/openmalaria-636/include/inputData.h:115 | no document, empty tables, no intervention in use |
| InputData.InputDataType.InitParameterValues | tags/openmalaria-644/model/inputData.cpp:45-56 | the table and the error are those of the parameter loop; nothing else changes |
| InputData.InputDataType.InitTimedInterventions | tags/openmalaria-644/model/inputData.cpp:58-105 | the continuous flags, then the timed loop; the timed table, flags and error are those of the loop; nothing else changes |
| InputData.InputDataType.CreateDocument | tags/openmalaria-644/model/inputData.cpp:108-146 | a file that cannot be opened and a wrong version are errors that leave the tables; otherwise the parameter loop and then, if it passed, the timed loop |
| InputData.InputDataType.SaveTarget | tags/openmalaria-644/model/inputData.cpp:148-171 | a document is saved iff it changed, under its base name, naming scenario_20.xsd |
| InputData.InputDataType.GetParameter | tags/openmalaria-644/model/inputData.cpp:180-186 | a parameter is returned iff it was described; otherwise the "required but not described" error for that index |
| InputData.InputDataType.InterventionAt | tags/openmalaria-644/model/inputData.cpp:187-194 | an intervention is returned iff one is stored for that time |
| InputData.LoadedDocumentGetters | tags/openmalaria-644/model/inputData.cpp:180-194 | after loading, getParameter returns each described value and fails on every other index, and getInterventionByTime finds each intervention under its time |
| ESDecisionTree.Intersection | tags/schema-28/model/Clinical/ESDecisionTree.cpp:215-223 | lower bound is the larger lower bound, and the result never has upper < lower |
| ESDecisionTree.IntersectionMeaning | tags/schema-28/model/Clinical/ESDecisionTree.cpp:215-223 | a non-empty intersection holds exactly the ages in both ranges |
| ESDecisionTree.AgeOutcomeWithin | tags/schema-28/model/Clinical/ESDecisionTree.cpp:226-262 | every range collected lies within the range of its branch, with a value of the decision |
| ESDecisionTree.AgeBranchesWithin | tags/schema-28/model/Clinical/ESDecisionTree.cpp:226-234 | ranges collected from age branches lie within the parent range |
| ESDecisionTree.SingleValueTree | tags/schema-28/model/Clinical/ESDecisionTree.cpp:209-247 | a tree that is one leaf gives the range [0, inf) with that value |
| ESDecisionTree.AgeTreeShape | tags/schema-28/model/Clinical/ESDecisionTree.cpp:235-257 | age branches nested in age branches, and branches on anything but "age", are errors |
| ESDecisionTree.ComparatorOrdersByLowerBound | tags/schema-28/model/Clinical/ESDecisionTree.cpp:265-268 | on non-empty non-overlapping ranges, the comparator orders by lower bound |
| ESDecisionTree.InsertKeepsSorted | tags/schema-28/model/Clinical/ESDecisionTree.cpp:271-272 | inserting into a list sorted by lower and then upper bound keeps it sorted |
| ESDecisionTree.InsertPerm | tags/schema-28/model/Clinical/ESDecisionTree.cpp:271-272 | an insertion adds exactly the inserted range |
| ESDecisionTree.SortByLower | tags/schema-28/model/Clinical/ESDecisionTree.cpp:271-272 | the sorted list is ordered by lower and then upper bound |
| ESDecisionTree.SortPerm | tags/schema-28/model/Clinical/ESDecisionTree.cpp:271-272 | the sorted list is a permutation of the pushed ranges |
| ESDecisionTree.SortedLowerBounds | tags/schema-28/model/Clinical/ESDecisionTree.cpp:271-279 | the sorted list's lower bounds never decrease |
| ESDecisionTree.SortStable | tags/schema-28/model/Clinical/ESDecisionTree.cpp:271-272 | ranges with the same bounds keep the order they were pushed in, as `std::list::sort` keeps them |
| ESDecisionTree.ComparatorTiesAreEqualEmpty | tags/schema-28/model/Clinical/ESDecisionTree.cpp:215-268 | two ordered ranges the comparator cannot tell apart are the same empty range |
| ESDecisionTree.SortFollowsComparator | tags/schema-28/model/Clinical/ESDecisionTree.cpp:215-272 | when the comparator is consistent on the ordered ranges, no range of the sorted list is less, by the source's comparator, than one before it |
| ESDecisionTree.EmptyRangeSortsAtBound | tags/schema-28/model/Clinical/ESDecisionTree.cpp:215-272 | ranges [0,5), [5,inf) and an empty age range [5,5) sort as [0,5), [5,5), [5,inf), as the comparator places them |
| ESDecisionTree.EmptyRangeTakesTheBound | tags/schema-28/model/Clinical/ESDecisionTree.cpp:274-294 | those three sorted ranges pass the check, and the table's entry at bound 5 holds the empty range's value |
| ESDecisionTree.Assign | tags/schema-28/model/Clinical/ESDecisionTree.cpp:286 | assigning into the ordered table keeps keys increasing, adds exactly key k, and stores (k, v) |
| ESDecisionTree.UpperBound | tags/schema-28/model/Clinical/ESDecisionTree.cpp:393 | none exactly when no key exceeds the age; otherwise the value of the first key above the age |
| ESDecisionTree.CheckRangesFrom | tags/schema-28/model/Clinical/ESDecisionTree.cpp:274-294 | the check passes exactly when the ranges from k on tile from the last bound to inf |
| ESDecisionTree.CheckRangesIff | tags/schema-28/model/Clinical/ESDecisionTree.cpp:270-294 | the check passes iff the sorted ranges start at 0, each starts where the last ended, and the last ends at inf |
| ESDecisionTree.CheckedTableHasInf | tags/schema-28/model/Clinical/ESDecisionTree.cpp:285-294 | a table that passes the check has an inf key |
| ESDecisionTree.InfKeyBoundsEveryAge | tags/schema-28/model/Clinical/ESDecisionTree.cpp:391-395 | with an inf key, the lookup of any age finds an entry |
| ESDecisionTree.AgeLookup | tags/schema-28/model/Clinical/ESDecisionTree.cpp:286-396 | on tiled ranges, looking up an age in range j returns range j's value |
| ESDecisionTree.AgeDecision.Determine | tags/schema-28/model/Clinical/ESDecisionTree.cpp:391-396 | returns the value of the smallest upper bound strictly above the age |
| ESDecisionTree.AgeProcessMeaning | tags/schema-28/model/Clinical/ESDecisionTree.cpp:209-294 | processing succeeds iff the tree is well-formed and its sorted ranges tile [0, inf); then lookups give each range's value |
| ESDecisionTree.DAProcessor.ProcessOutcome | tags/schema-28/model/Clinical/ESDecisionTree.cpp:243-262 | pushes exactly the ranges AgeOutcome gives, in order, and raises its error |
| ESDecisionTree.DAProcessor.ProcessBranches | tags/schema-28/model/Clinical/ESDecisionTree.cpp:225-242 | processes each age branch on the intersected range; other decisions are an error |
| ESDecisionTree.DAProcessor.CheckAndApplyRanges | tags/schema-28/model/Clinical/ESDecisionTree.cpp:270-295 | sorts the ranges and fills the table as CheckRanges does, with its error |
| ESDecisionTree.NewAgeDecision | tags/schema-28/model/Clinical/ESDecisionTree.cpp:374-390 | a fresh age decision whose table is AgeProcess's; valid when no error is raised |
| ESDecisionTree.RemoveFirst | tags/schema-28/model/Clinical/ESDecisionTree.cpp:491-492 | one occurrence of x is removed, nothing else |
| ESDecisionTree.CreateMeaning | tags/schema-28/model/Clinical/ESDecisionTree.cpp:473-496 | error iff reserved name or "age" with other dependencies; age kind iff depends is ["age"]; "p" removed once for random; deterministic has no "p" |
| ESDecisionTree.UC2Determine | tags/schema-28/model/Clinical/ESDecisionTree.cpp:313-319 | UC2 exactly on a second case, UC1 otherwise |
| ESDecisionTree.ParasiteTestDetermine | tags/schema-28/model/Clinical/ESDecisionTree.cpp:344-372 | "none" iff no test; positive iff the draw is below the test's positive probability |
| ESDecisionTree.PPositiveBounds | tags/schema-28/model/Clinical/ESDecisionTree.cpp:365 | the positive probability lies between 1 - specificity and 1 |
| ESDecisionTree.PPositiveMonotone | tags/schema-28/model/Clinical/ESDecisionTree.cpp:365 | the positive probability does not fall as density rises |
| ESDecisionTree.DensityFractionBounds | tags/schema-28/model/Clinical/ESDecisionTree.cpp:365 | dens / (dens + dens_50) lies in [0, 1) |
| ESDecisionTree.FalsePositiveRates | tags/schema-28/model/Clinical/ESDecisionTree.cpp:355-365 | at zero density microscopy is positive with probability 0.25 and RDT with 0.058 |
| ESDecisionRandom.CombosMeaning | tags/schema-28/model/Clinical/ESDecisionTree.cpp:154-160 | a combination is among a leaf's inputs iff it extends the decided values with a value for each undecided dependency |
| ESDecisionRandom.LeafUpdate | tags/schema-28/model/Clinical/ESDecisionTree.cpp:162-166 | the keys become the old keys plus the leaf's combinations; other vectors are unchanged |
| ESDecisionRandom.LeafAddsToItsOutcome | tags/schema-28/model/Clinical/ESDecisionTree.cpp:164-166 | a leaf raises the probability of its own outcome by p and no other |
| ESDecisionRandom.IndexOf | tags/schema-28/model/Clinical/ESDecisionTree.cpp:136-146 | the index holds the value and is its first occurrence |
| ESDecisionRandom.Resize | tags/schema-28/model/Clinical/ESDecisionTree.cpp:164 | the vector has n entries: the old ones, then zeros |
| ESDecisionRandom.ValueBranchesExact | tags/schema-28/model/Clinical/ESDecisionTree.cpp:93-124 | branches that process without error name every outcome of the decision once, with none unknown or missing |
| ESDecisionRandom.BranchSetMeaning | tags/schema-28/model/Clinical/ESDecisionTree.cpp:71-124 | "p" probabilities sum to 1 within 0.001; other branch sets are on a listed dependency and name each outcome once |
| ESDecisionRandom.OutcomeKeeps | tags/schema-28/model/Clinical/ESDecisionTree.cpp:133-172 | every vector keeps one entry per outcome, and only full input combinations become keys |
| ESDecisionRandom.OutcomeCovers | tags/schema-28/model/Clinical/ESDecisionTree.cpp:67-172 | a tree processed without error gives every completion of the decided values a vector |
| ESDecisionRandom.OutcomeGrows | tags/schema-28/model/Clinical/ESDecisionTree.cpp:133-172 | processing never removes a combination |
| ESDecisionRandom.DRProcessMeaning | tags/schema-28/model/Clinical/ESDecisionTree.cpp:57-189 | after processing, keys are exactly the input combinations, each vector has one entry per outcome and ends at 1.0 |
| ESDecisionRandom.LeafTreeGivesItsValue | tags/schema-28/model/Clinical/ESDecisionTree.cpp:431-441 | a tree that is one leaf gives every input that leaf's outcome, whatever the sample |
| ESDecisionRandom.CreatedContextOk | tags/schema-28/model/Clinical/ESDecisionTree.cpp:486-495 | the dependencies create leaves a random or deterministic decision satisfy what the processor needs |
| ESDecisionRandom.ValueDecision.Determine | tags/schema-28/model/Clinical/ESDecisionTree.cpp:431-471 | error iff the input is not in the table; else the first outcome whose cumulative probability exceeds the sample (0.5, or the draw) |
| ESDecisionRandom.DRProcessor.Process | tags/schema-28/model/Clinical/ESDecisionTree.cpp:57-64 | the table and error are DRProcess's |
| ESDecisionRandom.DRProcessor.ProcessOutcome | tags/schema-28/model/Clinical/ESDecisionTree.cpp:133-175 | the table and error are DROutcome's |
| ESDecisionRandom.DRProcessor.ProcessBranches | tags/schema-28/model/Clinical/ESDecisionTree.cpp:67-127 | the table and error are DRBranchSet's, with the running sum of "p" checked after all branches |
| ESDecisionRandom.DRProcessor.ValueIndex | tags/schema-28/model/Clinical/ESDecisionTree.cpp:136-146 | the index found is the value's first index |
| ESDecisionRandom.DRProcessor.InputCombos | tags/schema-28/model/Clinical/ESDecisionTree.cpp:149-155 | the set of input combinations is Combos of the dependencies |
| ESDecisionRandom.DRProcessor.AddLeaf | tags/schema-28/model/Clinical/ESDecisionTree.cpp:157-171 | the table becomes LeafUpdate of the old table |
| ESDecisionRandom.DRProcessor.CheckProbabilities | tags/schema-28/model/Clinical/ESDecisionTree.cpp:180-189 | every vector's last outcome entry becomes 1.0, the rest unchanged |
| ESDecisionRandom.NewValueDecision | tags/schema-28/model/Clinical/ESDecisionTree.cpp:414-458 | a fresh decision whose table is DRProcess's; when no error, valid and keyed by exactly the input combinations |
| ESCaseManagement.FirstMissing | tags/schema-30.2/model/Clinical/ESCaseManagement.cpp:61-63 | the index returned is the first dose whose drug has no effect, or the length when every drug has one |
| ESCaseManagement.ApplyOpFails | tags/schema-30.2/model/Clinical/ESCaseManagement.cpp:59-95 | a modifier fails exactly when some dose's drug has no effect described, and then with the message naming the first such drug |
| ESCaseManagement.MultiplyMeaning | tags/schema-30.2/model/Clinical/ESCaseManagement.cpp:59-69 | on success every dose's quantity is multiplied by its drug's factor, the costed quantity only when cost is affected, the rest unchanged |
| ESCaseManagement.MultiplyComposes | tags/schema-30.2/model/Clinical/ESCaseManagement.cpp:59-69 | two multiply modifiers in turn act as one by the product of their factors |
| ESCaseManagement.DelayMeaning | tags/schema-30.2/model/Clinical/ESCaseManagement.cpp:70-77 | on success every dose is moved later by its drug's delay in hours divided by 24, nothing else changes |
| ESCaseManagement.DelayComposes | tags/schema-30.2/model/Clinical/ESCaseManagement.cpp:70-77 | two delays in turn act as one delay by their sum |
| ESCaseManagement.SelectedAppend | tags/schema-30.2/model/Clinical/ESCaseManagement.cpp:78-95 | time-range selection of a concatenation is the concatenation of the selections |
| ESCaseManagement.SelectedDrugs | tags/schema-30.2/model/Clinical/ESCaseManagement.cpp:78-95 | every dose left after selection is an original dose inside its window, or (when cost is not affected) a zero-quantity dose outside it |
| ESCaseManagement.SelectedKeepsInWindow | tags/schema-30.2/model/Clinical/ESCaseManagement.cpp:84-85 | every dose whose hour lies in its drug's window survives selection unchanged |
| ESCaseManagement.SelectedWithoutCost | tags/schema-30.2/model/Clinical/ESCaseManagement.cpp:86-92 | without cost effect nothing is erased: doses outside the window get quantity 0 and keep their cost |
| ESCaseManagement.SelectedIdempotent | tags/schema-30.2/model/Clinical/ESCaseManagement.cpp:78-95 | selecting the same time ranges twice is the same as once |
| ESCaseManagement.TreatmentSchedule.MultiplyQty | tags/schema-30.2/model/Clinical/ESCaseManagement.cpp:59-69 | the in-place loop leaves the doses and the error that the multiply specification gives |
| ESCaseManagement.TreatmentSchedule.Delay | tags/schema-30.2/model/Clinical/ESCaseManagement.cpp:70-77 | the in-place loop leaves the doses and the error that the delay specification gives |
| ESCaseManagement.TreatmentSchedule.SelectTimeRange | tags/schema-30.2/model/Clinical/ESCaseManagement.cpp:78-95 | the erase-or-advance loop leaves the doses and the error that the selection specification gives |
| ESCaseManagement.TreatmentSchedule.SelectWhileDescribed | tags/schema-30.2/model/Clinical/ESCaseManagement.cpp:78-95 | the loop stops at the first dose whose drug has no window, the doses before it handled as by Selected and the rest untouched |
| ESCaseManagement.TreatmentSchedule.SelectAt | tags/schema-30.2/model/Clinical/ESCaseManagement.cpp:84-93 | one dose is kept, zeroed or erased in place and the others are untouched; it reports whether the dose is still there |
| ESCaseManagement.TreatmentSchedule.Apply | tags/schema-30.2/model/Clinical/ESCaseManagement.cpp:145-186 | applying any kind of modifier leaves the doses and error of its specification |
| ESCaseManagement.NewTreatmentSchedule | tags/schema-30.2/model/Clinical/ESCaseManagement.cpp:42-57 | a schedule is built exactly when every IV duration is positive, otherwise the IV-duration error |
| ESCaseManagement.ReadScheduleMeaning | tags/schema-30.2/model/Clinical/ESCaseManagement.cpp:42-57 | each dose has the element's drug and mg as quantity and costed quantity, its hour divided by 24 as time, and a positive duration exactly when one is given |
| ESCaseManagement.ReorderedMeaning | tags/schema-30.2/model/Clinical/ESCaseManagement.cpp:122-128 | the reordered list is the time-range modifiers in reverse order, then the others in order |
| ESCaseManagement.ReorderedKeeps | tags/schema-30.2/model/Clinical/ESCaseManagement.cpp:122-128 | reordering is a permutation of the modifiers |
| ESCaseManagement.ReorderedSelectsFirst | tags/schema-30.2/model/Clinical/ESCaseManagement.cpp:122-128 | every time-range modifier comes before every other modifier |
| ESCaseManagement.ReorderModifiers | tags/schema-30.2/model/Clinical/ESCaseManagement.cpp:122-128 | the push-front/push-back loop builds exactly the reordered list |
| ESCaseManagement.TakeValue | tags/schema-30.2/model/Clinical/ESCaseManagement.cpp:110-117 | a value is taken exactly when it is still among the decision's values, and is then removed from them; otherwise the "value doesn't exist" error |
| ESCaseManagement.ModifierEffects | tags/schema-30.2/model/Clinical/ESCaseManagement.cpp:143-194 | a modifier without sub-elements is an error; otherwise the effects of its first non-empty kind, one per element, in order |
| ESCaseManagement.LookupFound | tags/schema-30.2/model/Clinical/ESCaseManagement.cpp:219-225 | a schedule is found exactly for the outcomes among its keys |
| ESCaseManagement.InsertKeys | tags/schema-30.2/model/Clinical/ESCaseManagement.cpp:152-183 | inserting a schedule adds its key and keeps the others |
| ESCaseManagement.SpreadKeys | tags/schema-30.2/model/Clinical/ESCaseManagement.cpp:142-184 | one effect adds, for every start schedule, its outcome extended with the decision's value |
| ESCaseManagement.SpreadFails | tags/schema-30.2/model/Clinical/ESCaseManagement.cpp:142-184 | spreading one effect fails exactly when the modifier fails on some start schedule |
| ESCaseManagement.EffectsNames | tags/schema-30.2/model/Clinical/ESCaseManagement.cpp:110-204 | accepted effects name only values of the decision, each at most once, and leave exactly the values not named |
| ESCaseManagement.ApplyModifierMeaning | tags/schema-30.2/model/Clinical/ESCaseManagement.cpp:134-205 | an accepted modifier's decision is known and names each of its values exactly once, and every start outcome is extended by every value |
| ESCaseManagement.ApplyModifiersKeys | tags/schema-30.2/model/Clinical/ESCaseManagement.cpp:134-205 | after all modifiers the schedules are keyed by the grid of the decisions' values and the mask holds exactly the modifier decisions |
| ESCaseManagement.GridFits | tags/schema-30.2/model/Clinical/ESCaseManagement.cpp:134-205 | the grid holds exactly the outcomes giving each modifier decision one of its values |
| ESCaseManagement.TreatmentFinds | tags/schema-30.2/model/Clinical/ESCaseManagement.cpp:119-225 | a built treatment has a schedule for an outcome exactly when the outcome gives each mask decision one of its values |
| ESCaseManagement.Treatment.SpreadEffect | tags/schema-30.2/model/Clinical/ESCaseManagement.cpp:142-184 | the inner loop over start schedules leaves the schedules or the error of the spread specification |
| ESCaseManagement.Treatment.Modify | tags/schema-30.2/model/Clinical/ESCaseManagement.cpp:134-205 | one modifier iteration leaves the schedules, mask and error of its specification |
| ESCaseManagement.Treatment.ModifyAll | tags/schema-30.2/model/Clinical/ESCaseManagement.cpp:134-205 | the modifier loop leaves the schedules, mask and error of its specification and lists the modifier decisions as required |
| ESCaseManagement.NewTreatment | tags/schema-30.2/model/Clinical/ESCaseManagement.cpp:119-214 | a treatment is built exactly when its specification succeeds, with the same schedules and mask, or the same error |
| ESCaseManagement.AddDecisionsOk | tags/schema-30.2/model/Clinical/ESCaseManagement.cpp:283-292 | the decision elements are accepted exactly when each can be created and no name is already taken or repeated |
| ESCaseManagement.AddDecisionsKeys | tags/schema-30.2/model/Clinical/ESCaseManagement.cpp:283-292 | the accepted elements add exactly their names |
| ESCaseManagement.AddDecisionsKeeps | tags/schema-30.2/model/Clinical/ESCaseManagement.cpp:242-244 | a name already there keeps its decision |
| ESCaseManagement.AddDecisionsValues | tags/schema-30.2/model/Clinical/ESCaseManagement.cpp:283-292 | each accepted element's name maps to the dependencies its created decision keeps |
| ESCaseManagement.DecisionMapProcessor.AddToPending | tags/schema-30.2/model/Clinical/ESCaseManagement.cpp:242-244 | a decision is added exactly when its name is not taken, and it reports whether it was |
| ESCaseManagement.DecisionMapProcessor.Load | tags/schema-30.2/model/Clinical/ESCaseManagement.cpp:279-293 | the built-in decisions and then the elements are added, succeeding exactly when the specification does and with its error otherwise |
| ESCaseManagement.DecisionMapProcessor.AddRequires | tags/schema-30.2/model/Clinical/ESCaseManagement.cpp:245-266 | an unknown decision (itself or among its dependencies) raises, and then no closed set holding the old required set contains x; otherwise x is required and the required set only grows as far as every closed set holding the old one and x |
| ESCaseManagement.DecisionMapProcessor.AddDependencies | tags/schema-30.2/model/Clinical/ESCaseManagement.cpp:262-264 | the dependencies become required in turn, the required set staying the least closed one |
| ESCaseManagement.DecisionMapProcessor.HasAllDependencies | tags/schema-30.2/model/Clinical/ESCaseManagement.cpp:268-275 | true exactly when every dependency is among the names placed |
| ESCaseManagement.DecisionMapProcessor.Drain | tags/schema-30.2/model/Clinical/ESCaseManagement.cpp:301-341 | on success exactly the required decisions are emitted, distinct and each after its dependencies, and nothing is left pending; the code error only with a non-empty stuck set left |
| ESCaseManagement.DecisionMapProcessor.Process | tags/schema-30.2/model/Clinical/ESCaseManagement.cpp:296-342 | on success the emitted decisions hold the required outputs, are the least closed set and are ordered; an unknown name raises only when no closed set holds the outputs |
| ESCaseManagement.StuckNeverOrdered | tags/schema-30.2/model/Clinical/ESCaseManagement.cpp:303-309 | no decision of a set where each depends on another can appear in an order that puts dependencies first |
| ESCaseManagement.OrderImpossibleWhenStuck | tags/schema-30.2/model/Clinical/ESCaseManagement.cpp:303-309 | with a stuck set among the required decisions, no dependency-first order contains every required decision |
| ESCaseManagement.DeterminedKeys | tags/schema-30.2/model/Clinical/ESCaseManagement.cpp:412-422 | every decision, and nothing else, gets an outcome |
| ESCaseManagement.DeterminedPrefix | tags/schema-30.2/model/Clinical/ESCaseManagement.cpp:412-422 | later decisions leave the outcomes of earlier ones unchanged |
| ESCaseManagement.DeterminedConsistent | tags/schema-30.2/model/Clinical/ESCaseManagement.cpp:412-422 | evaluated in a dependency-first order, every decision's outcome is what it gives for the final outcomes of its dependencies |
| ESCaseManagement.DecisionMap.Determine | tags/schema-30.2/model/Clinical/ESCaseManagement.cpp:412-422 | the loop's outcomes are those of the in-order specification |
| ESCaseManagement.DecisionMap.GetSchedule | tags/schema-30.2/model/Clinical/ESCaseManagement.cpp:423-436 | a schedule is returned exactly when the outcome's treatment is known and has one for the outcome; otherwise the not-found error or the code error |
| ESCaseManagement.BuiltTreatmentHasSchedule | tags/schema-30.2/model/Clinical/ESCaseManagement.cpp:219-225 | a treatment built from its description finds a schedule exactly for outcomes giving each of its modifier decisions one of its values |
| Interventions.NewAgeIntervention | tags/schema-30/model/Interventions.cpp:34-63 | a continuous deployment is accepted exactly when 0 <= begin <= end, its target lies in time steps 1 to maxAgeIntervals and its coverage in [0,1]; the begin/end error is checked first, then the target-age-below-one error |
| Interventions.CheckTime | tags/schema-30/model/Interventions.cpp:67-76 | a timed deployment's time is rejected exactly when negative; an accepted one carries the warning exactly when it is at or after the final survey time step |
| Interventions.NewTimed | tags/schema-30/model/Interventions.cpp:67-76 | a non-mass timed deployment is built exactly when its time is non-negative, with that time |
| Interventions.NewMass | tags/schema-30/model/Interventions.cpp:163-178 | a mass deployment is accepted exactly when its time is non-negative, its coverage in [0,1] and 0 <= minAge <= maxAge, the errors in that order; with a maximum intervention age it is the cumulative variant, otherwise the plain one |
| Interventions.MassChosenEligible | tags/schema-30/model/Interventions.cpp:180-193 | a mass deployment reaches only humans whose age lies in [minAge, maxAge) and who, when cohort-only, are in the cohort; each at most once, in population order |
| Interventions.MassCoverageExtremes | tags/schema-30/model/Interventions.cpp:180-193 | with draws in [0,1), coverage 1 reaches every eligible human and coverage 0 nobody |
| Interventions.MassDeploy | tags/schema-30/model/Interventions.cpp:180-193 | the loop reaches the humans of the specification, each eligible human taking one draw |
| Interventions.UnprotectedEligible | tags/schema-30/model/Interventions.cpp:229-243 | the unprotected humans counted are eligible and not protected, and there are no more of them than eligible humans |
| Interventions.ProtectedShare | tags/schema-30/model/Interventions.cpp:245 | the protected share exists exactly when some human is eligible, lies in [0,1], and equals 1 exactly when nobody is unprotected |
| Interventions.CumOnlyBelowCoverage | tags/schema-30/model/Interventions.cpp:245-258 | the cumulative variant reaches nobody unless the protected share is below the coverage, and then only unprotected eligible humans |
| Interventions.CountEligible | tags/schema-30/model/Interventions.cpp:233-243 | the counting loop yields the number of eligible humans and the unprotected ones among them |
| Interventions.DrawEach | tags/schema-30/model/Interventions.cpp:250-257 | each unprotected human takes one draw and is reached when it is below the additional coverage |
| Interventions.CumDeploy | tags/schema-30/model/Interventions.cpp:229-259 | the cumulative deployment reaches the humans of the specification, with additional coverage (coverage - share) / (1 - share) |
| Interventions.InsertPerm | tags/schema-30/model/Interventions.cpp:546-550 | inserting adds exactly the new element |
| Interventions.InsertSorted | tags/schema-30/model/Interventions.cpp:546-550 | inserting into a sorted list keeps it sorted |
| Interventions.InsertWithKey | tags/schema-30/model/Interventions.cpp:546-548 | an inserted element goes behind the elements of equal key |
| Interventions.SortByMeaning | tags/schema-30/model/Interventions.cpp:546-550 | the sort orders by key, is a permutation, and keeps the relative order of elements with equal keys |
| Interventions.InterventionManager.constructor | tags/schema-30/model/Interventions.cpp:546-555 | the continuous deployments are sorted stably by target age, the timed ones by time with the sentinel at the future time step appended, and the cursor starts at 0 |
| Interventions.InterventionManager.LoadFromCheckpoint | tags/schema-30/model/Interventions.cpp:558-573 | the cursor moves past exactly the deployments before the checkpoint's time, and exactly the health-system and EIR changes among them are redeployed, in order |
| Interventions.RedeployedMeaning | tags/schema-30/model/Interventions.cpp:562-571 | a deployment is redeployed exactly when it was passed and is a health-system or EIR change |
| Interventions.InterventionManager.DeployTimed | tags/schema-30/model/Interventions.cpp:574-589 | nothing is deployed for a negative period; otherwise exactly the deployments not yet made whose time is at most the period, in order, after which every remaining one is later |
| Interventions.InterventionManager.DeployContinuous | tags/schema-30/model/Interventions.cpp:591-617 | one human's cursor walk is that of the specification |
| Interventions.CtsWalkMeaning | tags/schema-30/model/Interventions.cpp:596-616 | the cursor passes deployments only while their target age is reached and stops at the end or at the first that is not; only deployments targeting this exact age, in their period window and cohort, fire, in order |
| Interventions.CtsWalkPassesReached | tags/schema-30/model/Interventions.cpp:596-601 | with the deployments sorted, the cursor passes every deployment whose target age has been reached |
| EventScheduler.SetParameters | trunk/model/Clinical/EventScheduler.cpp:75-97 | the parameters are accepted exactly when both case durations are at least 1, the memory is non-negative, the risk duration lies between 1 and the complicated case duration, and both proportions lie in [0,1]; the duration error takes precedence; extraDaysAtRisk is the risk duration minus the complicated case duration |
| EventScheduler.SeekingFactorError | trunk/model/Clinical/EventScheduler.cpp:134-138 | only a treatment-seeking factor of exactly 1 is accepted |
| EventScheduler.FirstAtLeast | trunk/model/Clinical/EventScheduler.cpp:142-148 | the resampling keeps the first weight multiplier drawn that is at least the minimum |
| EventScheduler.ClinicalEventScheduler.constructor | trunk/model/Clinical/EventScheduler.cpp:125-149 | the state starts as NONE with every time at never, an empty queue, and the first large-enough weight multiplier |
| EventScheduler.RecoveryTimeBounds | trunk/model/Clinical/EventScheduler.cpp:361-381 | a case lasts at least one day; a complicated case lasts its duration, shortened by the extra days at risk when already doomed; an uncomplicated case lasts its own duration |
| EventScheduler.ClinicalEventScheduler.RecoveryDay | trunk/model/Clinical/EventScheduler.cpp:175-201 | on the recovery day a doomed human dies with its episode reported; a pending-only case resets to NONE without report; any other case is reported with sequelae or recovery, resets to NONE and returns to transmission |
| EventScheduler.ClinicalEventScheduler.NewEvent | trunk/model/Clinical/EventScheduler.cpp:203-229 | a complicated case has no event; an uncomplicated one only progression to complicated; otherwise a complicated state is an event at once, and a new sickness starts pending treatment seeking only when not already pending, with recovery at now plus the memory; a pending human seeks treatment exactly when the draw is below pImmediateUC |
| EventScheduler.ClinicalEventScheduler.CaseManagementEvent | trunk/model/Clinical/EventScheduler.cpp:231-330 | a case-management event always clears pending, sets second case exactly when the last treatment plus the memory is after now, starts the case today or, when hospital entry is delayed, tomorrow, and adds first-day death only for a complicated case not already doomed; it penalises immunity exactly for a malaria case with PENALISATION_EPISODES set, and reports an antibiotic exactly for a non-malaria fever that is given one |
| EventScheduler.ClinicalEventScheduler.OpenCase | trunk/model/Clinical/EventScheduler.cpp:231-273 | pending cleared, second case as the memory says, immunity penalised exactly for a malaria case when PENALISATION_EPISODES is set, the queue from case management, the treatment time and the kind of treatment reported, and hospital entry recorded; no other flag changes |
| EventScheduler.ClinicalEventScheduler.FirstDayRisk | trunk/model/Clinical/EventScheduler.cpp:275-330 | a complicated case not yet doomed dies on its first day exactly when its draw is below the hospital or community fatality; with non-malaria fevers modelled, a sick uncomplicated case reports an antibiotic exactly when one is given, and a fatal one adds death; no other flag changes |
| EventScheduler.ClinicalEventScheduler.LaterDayRisk | trunk/model/Clinical/EventScheduler.cpp:331-357 | on a day without event a complicated case not yet doomed, still in its risk window and with parasites, dies when the draw is below the probability, and its recovery moves by the extra days at risk |
| EventScheduler.ClinicalEventScheduler.CaseStart | trunk/model/Clinical/EventScheduler.cpp:361-381 | when the case starts today the recovery time is that of the case, and a patient in hospital leaves transmission |
| EventScheduler.ClinicalEventScheduler.IndirectMortalityCountdown | trunk/model/Clinical/EventScheduler.cpp:384-385 | indirect mortality starts the countdown only for a human not already doomed |
| EventScheduler.FilterMeaning | trunk/model/Clinical/EventScheduler.cpp:388-406 | the filter keeps exactly the satisfying elements, in order |
| EventScheduler.QueueStep | trunk/model/Clinical/EventScheduler.cpp:388-406 | medications due before tomorrow are given and the others kept; the two parts cover the queue, and every kept entry keeps its order and its time drops by exactly one, staying non-negative |
| EventScheduler.UsageOf | trunk/model/Clinical/EventScheduler.cpp:394-400 | a medication with a positive duration is reported as intravenous, scaled by body mass; any other with its costed quantity |
| EventScheduler.ClinicalEventScheduler.ProcessMedications | trunk/model/Clinical/EventScheduler.cpp:388-406 | the loop gives the due medications and leaves the rest, one day nearer, as the specification says |
| EventScheduler.ClinicalEventScheduler.EventPhases | trunk/model/Clinical/EventScheduler.cpp:175-357 | the episode and return to transmission of the recovery day, and a doomed human's DOOMED_COMPLICATED; case management runs iff the state after recovery has a case event today (CaseEventToday), and then pending seeking has ended, the case starts today or tomorrow when hospital entry is delayed, and the queue and last treatment time are the executed schedule's; otherwise nothing is reported, penalised or given, and the case start, queue and last treatment time are kept; immunity is penalised only with PENALISATION_EPISODES, and an antibiotic reported only for a given one |
| EventScheduler.ClinicalEventScheduler.ClinicalUpdate | trunk/model/Clinical/EventScheduler.cpp:168-414 | after a day, a case started today recovers at its recovery time, every queued medication has a non-negative time, only due medications were given, immunity is penalised only with PENALISATION_EPISODES, an antibiotic is reported only for a given one, and the human leaves the cohort as its cohort settings say |
| OldCaseManagement639.InitError | tags/openmalaria-639/model/Clinical/OldCaseManagement.cpp:46-50 | the model is refused exactly when the PK/PD option is on, with the source's message |
| OldCaseManagement639.AcrByName | tags/openmalaria-639/model/Clinical/OldCaseManagement.cpp:238-257 | a name is accepted iff it is one of the six drugs or self-treatment; an absent drug gives 0, a present one its value, self-treatment its own value; any other name gives the bad-value error |
| OldCaseManagement639.AcrByNameUnit | tags/openmalaria-639/model/Clinical/OldCaseManagement.cpp:238-257 | a value looked up in an element of probabilities is a probability |
| OldCaseManagement639.CaseParameters | tags/openmalaria-639/model/Clinical/OldCaseManagement.cpp:259-331 | the tables exist iff all three regimen names are valid; second-line and inpatient cure rates are their drugs' values; the treatment probabilities are the seeking probabilities, first plus self-treatment; the inpatient clearing probability is 0, and with no uncomplicated seeking so is the first-line one |
| OldCaseManagement639.CaseParametersUnit | tags/openmalaria-639/model/Clinical/OldCaseManagement.cpp:259-331 | with probabilities as inputs and non-negative seeking probabilities, every cure rate and clearing probability is a probability |
| OldCaseManagement639.ConvexUnit | tags/openmalaria-639/model/Clinical/OldCaseManagement.cpp:313-327 | the clearing probability of a course, compliers and non-compliers mixed, is a probability |
| OldCaseManagement639.WeightedMeanUnit | tags/openmalaria-639/model/Clinical/OldCaseManagement.cpp:270-276 | the first-line cure rate mixed with self-treatment by their seeking probabilities is a probability |
| OldCaseManagement639.HealthSystemTables.constructor | tags/openmalaria-639/model/Clinical/OldCaseManagement.cpp:37-41 | the static tables start as three regimens and two age groups of zeros |
| OldCaseManagement639.HealthSystemTables.SetHealthSystem | tags/openmalaria-639/model/Clinical/OldCaseManagement.cpp:52-72 | succeeds iff the section is present, its names valid and its two sequelae groups have bounds 5 and 99 exactly; each failure gives its own message in the source's order; on success the tables are the case parameters and both sequelae tables the groups' values |
| OldCaseManagement639.OldCaseManagement.constructor | tags/openmalaria-639/model/Clinical/OldCaseManagement.cpp:77-80 | a human starts never treated, with its seeking factor |
| OldCaseManagement639.UncomplicatedDecision | tags/openmalaria-639/model/Clinical/OldCaseManagement.cpp:121-140 | the second line is used iff the last treatment is within the memory; treated iff the draw is under the scaled seeking probability; cleared iff treated and the second draw is under the clearing probability |
| OldCaseManagement639.OldCaseManagement.UncomplicatedEvent | tags/openmalaria-639/model/Clinical/OldCaseManagement.cpp:119-146 | a treated case records the treatment time and counts on its regimen's counter; the case reports malaria or sickness; the result is the decision's clearing |
| OldCaseManagement639.SequelaeIndex | tags/openmalaria-639/model/Clinical/OldCaseManagement.cpp:150-154 | the older sequelae group is chosen iff the age reaches the first bound |
| OldCaseManagement639.ThresholdsMonotone | tags/openmalaria-639/model/Clinical/OldCaseManagement.cpp:170-188 | with probabilities as inputs the nine thresholds start non-negative and never decrease |
| OldCaseManagement639.ThresholdsTotal | tags/openmalaria-639/model/Clinical/OldCaseManagement.cpp:170-188 | the last threshold is exactly 1, so the nine outcomes cover every draw |
| OldCaseManagement639.SevereDecision | tags/openmalaria-639/model/Clinical/OldCaseManagement.cpp:194-234 | a cleared case was treated; the only outcomes are death, sequelae and recovery, and recovery only after clearing |
| OldCaseManagement639.SevereDecisionIntervals | tags/openmalaria-639/model/Clinical/OldCaseManagement.cpp:170-234 | with probabilities as inputs, treated iff the draw is at least q[2], cleared iff at least q[5], death iff it falls in the first interval of a group of three, sequelae iff in the second |
| OldCaseManagement639.OldCaseManagement.SevereMalaria | tags/openmalaria-639/model/Clinical/OldCaseManagement.cpp:148-235 | the report, treatment time and result follow the decision; a direct death, and only that, sets doomed to 4 |
| OldCaseManagement639.OldCaseManagement.DoCaseManagement | tags/openmalaria-639/model/Clinical/OldCaseManagement.cpp:87-114 | complicated malaria is severe; exactly uncomplicated malaria, or sickness without malaria, is uncomplicated; any other malaria state reports nothing; indirect mortality starts the countdown only when not yet doomed |
| CaseManagementCommon.GetHealthSystem | tags/openmalaria-649/model/Clinical/CaseManagementCommon.cpp:57-67 | source -1 gives the initial health system; another source gives the changeHS of the intervention at that time, and an absent intervention or changeHS is refused with "healthSystemSource invalid" |
| CaseManagementCommon.UpperBound | tags/openmalaria-649/model/Clinical/CaseManagementCommon.cpp:93 | the index of the first key strictly above the age, every earlier key being at or below it |
| CaseManagementCommon.UpperBoundSplits | tags/openmalaria-649/model/Clinical/CaseManagementCommon.cpp:93-98 | in an ordered map the keys before the upper bound are at or below the age and the rest above it |
| CaseManagementCommon.InterpolateBetween | tags/openmalaria-649/model/Clinical/CaseManagementCommon.cpp:95-100 | linear interpolation at a point between the two ages gives a value between the two rates, and the lower rate at the lower age |
| CaseManagementCommon.CaseFatality | tags/openmalaria-649/model/Clinical/CaseManagementCommon.cpp:90-101 | the age is bracketed by the entry before the upper bound and the upper bound; the rate lies between their rates and equals the lower one at its age |
| CaseManagementCommon.CaseFatalityUnit | tags/openmalaria-649/model/Clinical/CaseManagementCommon.cpp:90-101 | with every tabulated rate a probability, the interpolated rate is one |
| CaseManagementCommon.CommunityCaseFatalityUnit | tags/openmalaria-649/model/Clinical/CaseManagementCommon.cpp:103-107 | for a probability and a positive odds ratio the denominator is positive and the community rate is a probability, 0 and 1 are fixed and odds 1 gives the hospital rate |
| CaseManagementCommon.PSequelaeInpatient | tags/openmalaria-649/model/Clinical/CaseManagementCommon.cpp:109-114 | the value is that of the last entry whose age is at or below the given age |
| CaseManagementCommon.PSequelaeInpatientGreatest | tags/openmalaria-649/model/Clinical/CaseManagementCommon.cpp:109-114 | no later entry of the ordered map has its key at or below the age |
| CaseManagementCommon.CaseManagementCommon.constructor | tags/openmalaria-649/model/Clinical/CaseManagementCommon.cpp:32-35 | starts as zero-initialised static members: health-system source 0 (not INITIAL_SOURCE, which is -1), odds-ratio threshold 0 and empty tables |
| CaseManagementCommon.CaseManagementCommon.ReadCommon | tags/openmalaria-649/model/Clinical/CaseManagementCommon.cpp:69-88 | both tables are replaced by the health system's, other state kept |
| CaseManagementCommon.CaseManagementCommon.ChangeHealthSystem | tags/openmalaria-649/model/Clinical/CaseManagementCommon.cpp:45-55 | the source is recorded first; a source that is not found is refused and leaves the tables; otherwise the tables are read from the health system found |
| CaseManagementCommon.CaseManagementCommon.InitCommon | tags/openmalaria-649/model/Clinical/CaseManagementCommon.cpp:39-43 | the odds ratio is kept and the initial health system read |
| CaseManagementCommon.CaseManagementCommon.StaticCheckpointRead | tags/openmalaria-649/model/Clinical/CaseManagementCommon.cpp:119-123 | the saved source is restored; a source other than the initial one is set again |
| OldCaseManagement626.NextRegimen | tags/openmalaria-626/model/Clinical/OldCaseManagement.cpp:303-312 | 3 exactly for the severe state, 2 exactly for a non-severe case within the health-system memory of the last treatment, 1 otherwise |
| OldCaseManagement626.FirstAbove | tags/openmalaria-626/model/Clinical/OldCaseManagement.cpp:86-96 | the first item whose upper age is above the bound, every earlier one being at or below it; none exactly when no item is above |
| OldCaseManagement626.FirstNotBelow | tags/openmalaria-626/model/Clinical/OldCaseManagement.cpp:321-323 | the first CFR bound above the age, every earlier bound being at or below it |
| OldCaseManagement626.CaseFatalityOf | tags/openmalaria-626/model/Clinical/OldCaseManagement.cpp:314-328 | the age lies in the chosen interval, which is never the first bound; beyond the last finite bound the last group's rate is used |
| OldCaseManagement626.CaseFatalityOfUnit | tags/openmalaria-626/model/Clinical/OldCaseManagement.cpp:314-328 | with every tabulated rate a probability the computed rate is one |
| OldCaseManagement626.CaseFatalityOfOldest | tags/openmalaria-626/model/Clinical/OldCaseManagement.cpp:288-292 | at or above every finite bound the rate is the last group's |
| OldCaseManagement626.HospitalCaseFatality | tags/openmalaria-626/model/Clinical/OldCaseManagement.cpp:199 | the hospital rate a severe case uses is a probability |
| OldCaseManagement626.HealthSystemTables.constructor | tags/openmalaria-626/model/Clinical/OldCaseManagement.cpp:35-45 | the statics start zeroed with empty CFR vectors |
| OldCaseManagement626.HealthSystemTables.ReadCaseFatalityRatio | tags/openmalaria-626/model/Clinical/OldCaseManagement.cpp:273-295 | one bound and rate per group, the first bound 0, an infinite bound after the last group carrying its rate; no mortality iff one group with rate 0; nothing else changes |
| OldCaseManagement626.HealthSystemTables.CaseFatality | tags/openmalaria-626/model/Clinical/OldCaseManagement.cpp:314-328 | the loop result is the rate CaseFatalityOf defines |
| OldCaseManagement626.SequelaeValues | tags/openmalaria-626/model/Clinical/OldCaseManagement.cpp:84-96 | for each of the two groups the value of the first item above its bound; nothing exactly when a group has no such item |
| OldCaseManagement626.HealthSystemTables.ReadSequelae | tags/openmalaria-626/model/Clinical/OldCaseManagement.cpp:84-96 | treated and untreated sequelae tables both hold those values; a missing item is refused with its message |
| OldCaseManagement626.SetupError | tags/openmalaria-626/model/Clinical/OldCaseManagement.cpp:74-99 | no error exactly when the source is found, the memory agrees on a change, the regimen names are valid and both sequelae groups have an item |
| OldCaseManagement626.HealthSystemTables.SetHealthSystem | tags/openmalaria-626/model/Clinical/OldCaseManagement.cpp:74-99 | the source is recorded; the error is SetupError's; on success the memory, case parameters, sequelae tables and CFR table come from the health system found |
| OldCaseManagement626.HealthSystemTables.Install | tags/openmalaria-626/model/Clinical/OldCaseManagement.cpp:84-98 | the case parameters are stored; the error is the missing-sequelae-item one exactly when a group has no item above its bound; on success the sequelae and CFR tables come from the health system; source, memory and odds ratio unchanged |
| OldCaseManagement626.HealthSystemTables.Init | tags/openmalaria-626/model/Clinical/OldCaseManagement.cpp:64-72 | PK/PD is refused; otherwise the odds ratio is kept and the initial health system set |
| OldCaseManagement626.HealthSystemTables.StaticCheckpointRead | tags/openmalaria-626/model/Clinical/OldCaseManagement.cpp:115-119 | the saved source is restored; only a changed source is set again |
| OldCaseManagement626.SequelaeIndexAsWritten | tags/openmalaria-626/model/Clinical/OldCaseManagement.cpp:186-189 | the index as written is 1 exactly below age 5 |
| OldCaseManagement626.SequelaeIndexInverted | tags/openmalaria-626/model/Clinical/OldCaseManagement.cpp:183-203 | with items up to 5 and up to 99 years, the index as written gives a two-year-old the adult group and a thirty-year-old the child group |
| OldCaseManagement626.SequelaeIndex | tags/openmalaria-626/model/Clinical/OldCaseManagement.cpp:186-189 | the corrected index is 1 exactly from age 5 |
| OldCaseManagement626.SequelaeForAge | tags/openmalaria-626/model/Clinical/OldCaseManagement.cpp:84-96 | with the corrected index a child uses the first item above 1 year and an adult the first item above 10 years |
| OldCaseManagement626.OldCaseManagement.constructor | tags/openmalaria-626/model/Clinical/OldCaseManagement.cpp:104-107 | no regimen yet and never treated |
| OldCaseManagement626.OldCaseManagement.UncomplicatedEvent | tags/openmalaria-626/model/Clinical/OldCaseManagement.cpp:156-181 | the regimen follows the memory of the last treatment; a treated case records regimen and time and reports it; cleared only when treated and under the clearing probability |
| OldCaseManagement626.OldCaseManagement.SevereMalaria | tags/openmalaria-626/model/Clinical/OldCaseManagement.cpp:183-271 | the decision on the thresholds from the CFR table; a treated case records regimen 3 and its time; a direct death, and only that, sets doomed to 4 |
| OldCaseManagement626.OldCaseManagement.DoCaseManagement | tags/openmalaria-626/model/Clinical/OldCaseManagement.cpp:123-151 | severe, uncomplicated or nothing by state as in the later version; infections cleared only after an effective treatment and without PK/PD |
| NewCaseManagement.InitError | tags/openmalaria-615/model/NewCaseManagement.cpp:29-35 | an error exactly without PK/PD |
| NewCaseManagement.LastInBand | tags/openmalaria-615/model/NewCaseManagement.cpp:57-61 | the chosen management's band holds the age and no later one's does; none exactly when no band holds it |
| NewCaseManagement.EndPointsFor | tags/openmalaria-615/model/NewCaseManagement.cpp:69-81 | severe end-points for complicated malaria, first-line for other malaria, NMF without malaria; none exactly when neither malaria nor non-malaria |
| NewCaseManagement.CrossingFrom | tags/openmalaria-615/model/NewCaseManagement.cpp:95-103 | the first end-point from k at which the draw less the running sum goes below 0; none exactly when it never does |
| NewCaseManagement.FirstCrossing | tags/openmalaria-615/model/NewCaseManagement.cpp:95-103 | the first end-point at which the draw less the running sum goes below 0; none exactly when it never does |
| NewCaseManagement.PrefixSumMonotone | tags/openmalaria-615/model/NewCaseManagement.cpp:97-98 | with non-negative probabilities the running sums never decrease |
| NewCaseManagement.NoEndPointIffSumAtMostDraw | tags/openmalaria-615/model/NewCaseManagement.cpp:95-107 | no end-point is chosen exactly when the probabilities sum to at most the draw |
| NewCaseManagement.ChosenEndPointInterval | tags/openmalaria-615/model/NewCaseManagement.cpp:95-103 | the chosen end-point's interval of running sums contains the draw |
| NewCaseManagement.DecisionZeroReadsBeforeFirst | tags/openmalaria-615/model/NewCaseManagement.cpp:104-115 | an end-point with decision 0 passes the negative check and the guard as written, so the look-up reads index -1 |
| NewCaseManagement.DecisionExistsInRange | tags/openmalaria-615/model/NewCaseManagement.cpp:111-115 | the corrected guard admits exactly the numbers whose index is in range |
| NewCaseManagement.CaseOutcome | tags/openmalaria-615/model/NewCaseManagement.cpp:46-125 | no infection or no managements does nothing; refused for want of a band exactly when no band holds the age; medications only from an existing decision of the chosen end-point |
| NewCaseManagement.NewCaseManagement.constructor | tags/openmalaria-615/model/NewCaseManagement.cpp:37-40 | keeps the treatment-seeking factor |
| NewCaseManagement.NewCaseManagement.ChooseManagement | tags/openmalaria-615/model/NewCaseManagement.cpp:57-61 | the management the loop settles on is LastInBand |
| NewCaseManagement.NewCaseManagement.ChooseEndPoint | tags/openmalaria-615/model/NewCaseManagement.cpp:95-103 | the loop returns the chosen end-point's decision, or -1 when none is chosen |
| NewCaseManagement.NewCaseManagement.Forward | tags/openmalaria-615/model/NewCaseManagement.cpp:119-124 | every medication is forwarded, in order |
| NewCaseManagement.NewCaseManagement.DoCaseManagement | tags/openmalaria-615/model/NewCaseManagement.cpp:46-125 | the outcome is CaseOutcome's |

## Left out

- The sweep combiner (`CombineSweeps`) is not part of this model: `ExperimentCreator.main`'s calls into it are recorded as steps, with their arguments, and are not run. Stack-trace logging, `System.exit` and directory creation are I/O; whether the output location is an empty writable directory is an input.
- Input and output: opening, compressing and closing files; XML parsing and schema validation; the document checksum; printing to standard output or error. A stream is a sequence of tokens, an XML document arrives already parsed, and a warning the source only prints has no effect in the model.
- Random number generators: every draw is a parameter of the operation that makes it. Human heterogeneity sampling, `massIntervention`'s sampling and the picking of a timed R_0 intervention are left out with the generators.
- Floating-point behaviour: `double` is `real`, so no rounding, infinities or NaN are modelled, except where the source tests for them (the unset EIR, the case fatality table's last bound) and the model keeps an explicit `Option` or a separate case.
- Numerical models whose results feed the kept parts: the pyrogenic threshold ODE, infection incidence, pathogenesis, predetermined morbidity, vector-control root finding, `updateInfectiousness`, and drug decay in the PK/PD models. Where a kept operation uses their results, those results are parameters.
- The S_v, f and f_tau recurrence arithmetic in `Anopheles::Transmission::update`: only its ring-buffer indexing, the slots it writes and the cut-off at minInfectedThreshold are modelled.
- Checkpoint and run plumbing: the simulation phase loop, alternating checkpoint files, the BOINC wrapper, `openMalaria.cpp`'s main, and the population loop over humans. `Population.cpp` and the trunk `Human.cpp` forward to code that is not part of this model.
- Declaration-only headers, the PK/PD and within-host factories, the PK/PD stubs, and the unit-test suites that compare floating values from drug and random models.
- Monitoring output: continuous-output callbacks, survey writing and BOINC graphics shared memory.
- ModelOptions: option codes are positions in the code map's listing. The numeric values of the `OptionCodes` enumeration come from ModelOptions.hpp, which is not part of this model.
- ModelOptions.ModelOptions.Init: `OptionCodeMap::toString`'s search loop is modelled by the name it finds, since the codes in the listing are unique. On an incompatibility it returns the corrected IncompatMessage, which names each clashing option; the message Options.cpp:375-382 builds prints option i's name once per clash instead (IncompatMessageAsWritten, see Findings).
- ESDecisionTree and ESDecisionRandom: `ESDecisionValueMap`'s bit-field encoding is not part of this model. A decision value is its name, and a combination of input values is a map from decision names to value names. The tree parser (`parser::parseTree`) is not part of this model; its output is the `Outcome` datatype.
- ESCaseManagement: the processor's pending decisions are kept in insertion order, while the source's `std::map` iterates in key order. Decisions that do not depend on each other may therefore come out in a different relative order. Every emitted decision still comes after all its dependencies.
- ESCaseManagement: `ESDecisionMap::initialize` and the tree execution are left out, because they build `ESDecisionValue` objects whose code is not part of this model.
- Interventions: the comment at Interventions.cpp:549-550 says `stable_sort` is not available for the timed list, which is sorted by its own `sort` (its container type is declared in Interventions.h); the model sorts stably, so timed deployments with equal times keep their input order. Interventions.h is not part of this model, so the sort keys (timestep for timed deployments, target age for continuous ones) are taken from the comparisons in the .cpp file.
- Interventions: the XML reading in the constructor, the per-human effects of each deployment, imported infections and the loop over the population are left out. `deploy` for continuous deployments is modelled for one human.
- ClinicalEvent.Event.constructor: event.h, where `Event`'s constructor is defined, is not part of this model. The initial missing time follows the test at event.cpp:33; the zero fields are C++ value initialisation, which the model assumes.
- CommandLine: the parse follows a build without OM_STREAM_VALIDATOR. The `--stream-validator PATH` option of such builds (Options.cpp:119-124, given once, with the path loaded by `StreamValidator.loadStream` at Options.cpp:195-198) is not modelled, so the parse treats it as an unrecognised option.
- ExperimentCreator.ParseInt: reads ASCII digits only, while Java's `Integer.parseInt` also accepts the decimal digits of other Unicode scripts.
- DescriptiveIPTInfection.Infection.constructor: uses the covering genotype (CoveringGenotype). The source's choice agrees with it wherever the source finds an interval (CoveringAgreesInside); on a boundary draw or one above the total the source leaves the genotype at -1 and reads `genotypeProph[-1]`, which is undefined behaviour (see Findings).
- AnophelesTransmission.Transmission.Initialise: uses the corrected check (`2 × rest < EIP`). On the inputs the source's check admits beyond that (AcceptedAsWrittenOverruns) the source writes past the end of ftauArray, which is undefined behaviour (see Findings).
- SpeciesIndex.ReverseLookup: the source returns the first key in map order that maps to the index; the model returns some key that maps to it, the same key when names are distinct.
- Human: heterogeneity sampling, infectiousness, `summarize` and the per-step population statistics are left out. `update` is modelled by which sub-models it runs, not by what they compute.
- DescriptiveIPTWithinHost: the seasonal tables' entry 8 spans 12 steps while entries 0 to 7 span 18. This is stated as a lemma only, because the intended value cannot be inferred from the source.
- DescriptiveIPTWithinHost: `clearInfections` takes the Episode's severity as a boolean; the Episode class is not part of this model.
- EmpiricalWithinHost and DescriptiveWithinHost: what one infection's density update computes (code not shown) is a parameter. EmpiricalWithinHost keeps the sweep, the MOI count and its density accumulators (total and time-step maximum). DescriptiveWithinHost keeps the removal of expired infections, the MOI count and the count of infections and patent infections; its density accumulation is not part of this model.
- ClinicalEvent: the source's `missing_value` constant is not shown, so it is a parameter.
- Proteome: objects that point back to their parents are nested values. A mutation is identified by its protein name, position and allele, which is exactly what the source's equality compares.
- Proteome.ProteomeManager.Read: a stream that runs out or holds a token of the wrong kind is only reported as Malformed. The source's `>>` then sets the stream's fail state and the constructors go on with whatever their variables hold; what the registries hold afterwards is not stated. It also uses the corrected NextFreeID for currentID, not the source's RaisedID of lines 235-236 (see Findings): after loading ids 0 and 1 into a fresh registry the model's currentID is 2, the source's 1.
- Proteome.ManagerRoundTrip: requires every protein name to be one non-empty word without white space, because `>>` into a string reads exactly one such word, and every wild type and allele to be a non-white-space character, because `>>` into a `char` skips white space. The source does not check names when they are added.
- StreamValidator: opening the file in `loadStream` is left out; its contents are the input.
- StreamValidator.StreamValidatorType.LoadStream: when the deque's length reads but its values run short, the source has already resized the stored stream and partly overwritten it; what the stream then holds is not stated. When the length itself cannot be read the source uses an uninitialised length.
- StreamValidator.StreamValidatorType.CheckpointRead: the replay position after a failed read is not stated. The source sets it to the beginning plus whatever offset was read, even past the end; the model refuses such an offset and keeps the old position. The stream after a deque whose values run short is not stated, as for LoadStream.
- InputData: the XML document and its checksum are inputs. Only which elements an intervention has is kept.
- CaseManagementCommon: `lboundGroups2map` (XmlUtils) is not part of this model. The maps it builds are inputs, given as lists of (lower bound, value) pairs sorted by bound.
- CaseManagementCommon.CommunityCaseFatality: requires a non-zero denominator, which the source does not check. Any rate in [0, 1] with a positive odds ratio meets it (lemma CommunityCaseFatalityUnit).
- OldCaseManagement626 and OldCaseManagement639: when `setHealthSystem` raises part-way, the tables it already changed are not stated after the error, because an error ends the run.
- OldCaseManagement626 and CaseManagementCommon: the odds ratio, the exponential of the LOG_ODDS_RATIO_CF_COMMUNITY parameter, is an input.
- OldCaseManagement626.HealthSystemTables.SetHealthSystem: requires that a health system has at least one case-fatality group. With none, the source reads the array before its start.
- OldCaseManagement626.HealthSystemTables.ReadCaseFatalityRatio: requires at least one group, for the same reason.
- OldCaseManagement626.OldCaseManagement.SevereMalaria: reads the in-patient sequelae probability through the corrected SequelaeIndex, not through the inverted isAdultIndex the source computes (Findings). For a patient under 5 the source reads the adults' group and from 5 the children's; the model does the reverse.
- OldCaseManagement626.OldCaseManagement.DoCaseManagement: calls SevereMalaria for severe cases, so the same substitution of the corrected sequelae index applies.
- NewCaseManagement.CaseOutcome: a decision id of 0 is treated as a missing decision (skipped with the warning). The source only checks the upper bound and would index the decisions at id - 1, outside the list. A negative id is refused with the sum error, as in the source.
- NewCaseManagement.NewCaseManagement.DoCaseManagement: the same treatment of a decision id of 0, as it follows CaseOutcome.
- InputData: PARAMS_MAX is counted from the openmalaria-636 tag's include/inputData.h; this version's header is not part of this model.
- ESCaseManagement.UnknownDecisionMessage: the message text is a placeholder, because the code that raises it is not part of this model.
- NewCaseManagement: the numeric values of the morbidity bits are not part of this model, and a morbidity is a datatype case. The messages omit the number the source appends. The early return for a decision with no medications is the same outcome as forwarding an empty list.
- EventScheduler.ClinicalEventScheduler.EventPhases: states the recovery outputs, doomed, which of case management or the later-day risk ran and the case-start, queue and treatment-time effects. It does not restate the full progression state, recovery time or previous density afterwards; those follow from the contracts of RecoveryDay, NewEvent, CaseManagementEvent and LaterDayRisk, which it calls in that order.
- EventScheduler.ClinicalEventScheduler.ClinicalUpdate: its contract states the recovery time at a case start, the medication queue and the cohort exit. The other effects are stated on the phases it calls in order (RecoveryDay, NewEvent, CaseManagementEvent, LaterDayRisk, CaseStart, ProcessMedications).
- ESDecisionTree.SortByLower: sorts by lower and then upper bound rather than with the source's comparator. The two agree wherever the comparator is a consistent order on the ranges (lemma SortFollowsComparator). Where it is not, for overlapping ranges or an empty range strictly inside another, `std::list::sort` gives an order the standard does not define, and the model gives key order.
- EventScheduler: `immunityPenalisation` and the survey's `reportAntibioticTreatments` are calls into code not part of this model; the update reports whether each happened (flags immunityPenalised and antibioticReported). The draws behind the non-malaria fever's antibiotic and death are inputs (antibioticGiven, nmfDeath).

## Findings

| source | as written | input that shows it | evidently intended | confidence | as-written member | corrected member |
|---|---|---|---|---|---|---|
| tags/openmalaria-617/model/proteome.cpp:235-236 | reading an instance sets currentID to the loaded id, but currentID is the id the next new instance takes | a fresh registry reads instances 0 and 1; the next new instance gets id 1, which instance 1 already has | currentID moves past every loaded id | medium, not executed | Proteome.RaisedIDReusesLoadedID | Proteome.NextFreeIDIsFresh |
| tags/openmalaria-626/model/WithinHost/DescriptiveIPTInfection.cpp:76-104 | the genotype test is strict at both ends of each interval, and the 1.0 set on the last iteration is never read; when no interval holds the draw the index stays -1 and line 104 reads genotypeProph[-1] | frequencies [0.5, 0.5] with draw 0.5, or frequencies [0.4] with draw 0.9 | the first genotype whose cumulative frequency exceeds the draw, the last one taking the rest up to 1.0 | high, not executed | DescriptiveIPTInfection.BoundaryDrawHasNoGenotype | DescriptiveIPTInfection.CoveringGenotypeMeaning |
| tags/schema-30.2/model/Transmission/Anopheles/Transmission.cpp:41-57 | the check admits 1 <= rest <= EIP; with rest == EIP the write ftauArray[rest] is one past the end, and with 2 × rest >= EIP `update` writes ftauArray[2 × rest] past the end | rest = EIP = 1; or rest = 2, EIP = 3 | accept only 1 <= rest with 2 × rest < EIP | high, not executed | AnophelesTransmission.AcceptedAsWrittenOverruns | AnophelesTransmission.WritesInBoundsIff |
| tags/openmalaria-647/model/util/Options.cpp:378-380 | the incompatibility message prints option i's name once for each clashing flag j | both the negative binomial and the log-normal mass action options set: the message repeats the negative binomial option | print each clashing flag j's name | high, not executed | ModelOptions.AsWrittenMessageNamesNoClash | ModelOptions.Clashes |
| tags/openmalaria-626/model/Clinical/OldCaseManagement.cpp:186-203 | isAdultIndex is 1 below age 5 and 0 from age 5, but group 0 is read from the item with maxAgeYrs > 1 (the children's group) and group 1 from the item with maxAgeYrs > 10 | items (maxAgeYrs 5, value 0.1) and (maxAgeYrs 99, value 0.5): a 2-year-old gets the adult value 0.5 and a 30-year-old the child value 0.1 | index 0 below age 5 and 1 from age 5, as openmalaria-639 does | high, not executed | OldCaseManagement626.SequelaeIndexInverted | OldCaseManagement626.SequelaeForAge |
| tags/openmalaria-615/model/NewCaseManagement.cpp:111-115 | the guard rejects only decisionID > size, so decisionID = 0 reads decisions[-1] | one decision and an end point with decision 0 | reject decisionID < 1 as well | high, not executed | NewCaseManagement.DecisionZeroReadsBeforeFirst | NewCaseManagement.DecisionExistsInRange |
