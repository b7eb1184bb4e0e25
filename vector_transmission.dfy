/**
 * `VectorTransmission` (trunk): the vector transmission model's species
 * index, its initialisation iteration, the mode check at the start of the
 * main simulation and the equilibrium-mode EIR.
 */
module VectorTransmission {
  import opened Wrappers
  import Vectors
  import TransmissionModes
  import SpeciesIndex
  import CArith

  /** `transmissionInitDuration`: the last year of human warm-up plus four more. */
  function TransmissionInitDuration(stepsPerYear: nat): (r: nat)
    ensures r == 4 * stepsPerYear
  {
    TransmissionModes.FromYears(4, stepsPerYear)
  }

  /**
   * The EIR forced in equilibrium mode: the entry for the step of the year
   * (the step count modulo the steps per year, which the expected EIR has
   * one entry each for) scaled by the host's availability.
   */
  function EquilibriumEIR(initialisationEIR: seq<real>, stepsPerYear: nat, simulation: nat, relativeAvailabilityHetAge: real): real
    requires 0 < stepsPerYear <= |initialisationEIR|
  {
    initialisationEIR[simulation % stepsPerYear] * relativeAvailabilityHetAge
  }

  /** The forced EIR repeats every year. */
  lemma EquilibriumEIRIsAnnual(initialisationEIR: seq<real>, stepsPerYear: nat, simulation: nat, relativeAvailabilityHetAge: real)
    requires 0 < stepsPerYear <= |initialisationEIR|
    ensures EquilibriumEIR(initialisationEIR, stepsPerYear, simulation + stepsPerYear, relativeAvailabilityHetAge) ==
            EquilibriumEIR(initialisationEIR, stepsPerYear, simulation, relativeAvailabilityHetAge)
  {
    CArith.ModShift(simulation, stepsPerYear);
  }

  class VectorTransmission {
    const numSpecies: nat
    const speciesIndex: map<string, nat>
    /** The expected EIR for each step of the year, filled by the species. */
    var initialisationEIR: seq<real>
    var annualEIR: real
    var simulationMode: int
    /** The species whose `vectorInitIterate` ran in the last round, in order. */
    var iterated: seq<nat>

    /** The model is built with the annual EIR being the sum of the expected EIR. */
    constructor (numSpecies: nat, speciesIndex: map<string, nat>, initialisationEIR: seq<real>)
      ensures this.numSpecies == numSpecies && this.speciesIndex == speciesIndex
      ensures this.initialisationEIR == initialisationEIR
      ensures annualEIR == Vectors.Sum(initialisationEIR)
      ensures simulationMode == TransmissionModes.EQUILIBRIUM_MODE && iterated == []
    {
      this.numSpecies, this.speciesIndex := numSpecies, speciesIndex;
      this.initialisationEIR := initialisationEIR;
      annualEIR := Vectors.Sum(initialisationEIR);
      simulationMode := TransmissionModes.EQUILIBRIUM_MODE;
      iterated := [];
    }

    /**
     * `transmissionInitIterate`, given each species' own answer: every
     * species is asked (the `|=` does not stop early). If any wants another
     * round, the model stays in equilibrium mode for two more years;
     * otherwise it switches to dynamic mode at once.
     */
    method TransmissionInitIterate(wantsIteration: seq<bool>, stepsPerYear: nat) returns (r: nat)
      requires |wantsIteration| == numSpecies
      modifies this`simulationMode, this`iterated
      ensures iterated == SpeciesIndex.Range(numSpecies)
      ensures true in wantsIteration ==>
                simulationMode == TransmissionModes.EQUILIBRIUM_MODE && r == 2 * stepsPerYear
      ensures true !in wantsIteration ==> simulationMode == TransmissionModes.DYNAMIC_EIR && r == 0
    {
      var iterate := false;
      var asked: seq<nat> := [];
      var i := 0;
      while i < numSpecies
        invariant 0 <= i <= numSpecies
        invariant asked == SpeciesIndex.Range(i)
        invariant iterate <==> true in wantsIteration[..i]
      {
        assert SpeciesIndex.Range(i + 1) == SpeciesIndex.Range(i) + [i];
        assert wantsIteration[..i + 1] == wantsIteration[..i] + [wantsIteration[i]];
        asked := asked + [i];
        iterate := iterate || wantsIteration[i];
        i := i + 1;
      }
      assert wantsIteration[..i] == wantsIteration;
      iterated := asked;
      if iterate {
        simulationMode := TransmissionModes.EQUILIBRIUM_MODE;
        return TransmissionModes.FromYears(2, stepsPerYear);
      } else {
        simulationMode := TransmissionModes.DYNAMIC_EIR;
        return 0;
      }
    }

    /**
     * `initMainSimulation`: the scenario's mode is taken whatever it is,
     * and anything but equilibrium or dynamic is then an error.
     */
    method InitMainSimulation(mode: int) returns (r: Result<()>)
      modifies this`simulationMode
      ensures simulationMode == mode
      ensures r.Ok? <==> mode == TransmissionModes.EQUILIBRIUM_MODE || mode == TransmissionModes.DYNAMIC_EIR
    {
      simulationMode := mode;
      if simulationMode != 2 && simulationMode != 4 {
        return Err("mode attribute has invalid value (expected: 2 or 4)");
      }
      return Ok(());
    }

    /**
     * `calculateEIR`, given each species' EIR for the host and the host's
     * two availabilities: the forced EIR in equilibrium mode, otherwise the
     * species' total scaled by the age availability.
     */
    method CalculateEIR(stepsPerYear: nat, simulation: nat, speciesEIR: seq<real>,
                        relativeAvailabilityHetAge: real, relativeAvailabilityAge: real) returns (r: real)
      requires 0 < stepsPerYear <= |initialisationEIR| && |speciesEIR| == numSpecies
      ensures simulationMode == TransmissionModes.EQUILIBRIUM_MODE ==>
                r == EquilibriumEIR(initialisationEIR, stepsPerYear, simulation, relativeAvailabilityHetAge)
      ensures simulationMode != TransmissionModes.EQUILIBRIUM_MODE ==>
                r == Vectors.Sum(speciesEIR) * relativeAvailabilityAge
    {
      if simulationMode == TransmissionModes.EQUILIBRIUM_MODE {
        return initialisationEIR[simulation % stepsPerYear] * relativeAvailabilityHetAge;
      }
      var eir := 0.0;
      var i := 0;
      while i < numSpecies
        invariant 0 <= i <= numSpecies
        invariant eir == Vectors.Sum(speciesEIR[..i])
      {
        assert speciesEIR[..i + 1][..i] == speciesEIR[..i];
        eir := eir + speciesEIR[i];
        i := i + 1;
      }
      assert speciesEIR[..i] == speciesEIR;
      return eir * relativeAvailabilityAge;
    }

    /** `scaleEIR`: the expected EIR is scaled and the annual EIR recomputed, which scales it too. */
    method ScaleEIR(factor: real)
      modifies this`initialisationEIR, this`annualEIR
      ensures initialisationEIR == Vectors.Scaled(old(initialisationEIR), factor)
      ensures annualEIR == Vectors.Sum(initialisationEIR) == Vectors.Sum(old(initialisationEIR)) * factor
    {
      Vectors.SumScaled(initialisationEIR, factor);
      initialisationEIR := Vectors.Scaled(initialisationEIR, factor);
      annualEIR := Vectors.Sum(initialisationEIR);
    }
  }

  /**
   * The constructor's checks, given the species names in XML order and the
   * expected EIR they fill in: at least one species is needed, each name is
   * mapped to its index, and every index must then have a name
   * (`reverseLookup` throws otherwise, which a repeated name causes).
   */
  method NewVectorTransmission(names: seq<string>, initialisationEIR: seq<real>) returns (r: Result<VectorTransmission>)
    ensures r.Ok? <==> |names| >= 1 && forall a, b :: 0 <= a < b < |names| ==> names[a] != names[b]
    ensures r.Ok? ==> && fresh(r.value) && r.value.numSpecies == |names|
                      && r.value.speciesIndex == SpeciesIndex.IndexOf(names)
                      && r.value.initialisationEIR == initialisationEIR
                      && r.value.annualEIR == Vectors.Sum(initialisationEIR)
  {
    if |names| < 1 {
      return Err("Can't use Vector model without data for at least one anopheles species!");
    }
    var index := SpeciesIndex.BuildIndex(names);
    SpeciesIndex.AllNamedIffDistinct(names);
    var inOrder := SpeciesIndex.NamesInOrder(index, |names|);
    if inOrder.Err? {
      return Err(inOrder.msg);
    }
    var m := new VectorTransmission(|names|, index, initialisationEIR);
    return Ok(m);
  }
}
