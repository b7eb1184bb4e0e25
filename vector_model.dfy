/**
 * `VectorModel` (schema-30.3): the vector transmission model's species
 * bookkeeping, its initialisation iteration and its checks on vector
 * intervention descriptions.
 */
module VectorModel {
  import opened Wrappers
  import Vectors
  import TransmissionModes
  import SpeciesIndex

  /** `meanPopAvail`: the mean relative availability, or 1.0 for an empty population. */
  method MeanPopAvail(availabilities: seq<real>, populationSize: int) returns (r: real)
    ensures populationSize > 0 ==> r == Vectors.Sum(availabilities) / populationSize as real
    ensures populationSize <= 0 ==> r == 1.0
  {
    var total := 0.0;
    var i := 0;
    while i < |availabilities|
      invariant 0 <= i <= |availabilities|
      invariant total == Vectors.Sum(availabilities[..i])
    {
      assert availabilities[..i + 1][..i] == availabilities[..i];
      total := total + availabilities[i];
      i := i + 1;
    }
    assert availabilities[..i] == availabilities;
    if populationSize > 0 {
      return total / populationSize as real;
    } else {
      return 1.0;
    }
  }

  /** `minPreinitDuration`: none in forced-EIR mode, else 55 years (5 of data plus 50 to settle). */
  function MinPreinitDuration(interventionMode: int, stepsPerYear: nat): (r: nat)
    ensures interventionMode == TransmissionModes.EQUILIBRIUM_MODE ==> r == 0
    ensures interventionMode != TransmissionModes.EQUILIBRIUM_MODE ==> r == 55 * stepsPerYear
  {
    if interventionMode == TransmissionModes.EQUILIBRIUM_MODE then 0
    else TransmissionModes.FromYears(55, stepsPerYear)
  }

  /**
   * `checkSimMode` and the size check of `setITNDescription`,
   * `setIRSDescription`, `setVADescription` and `intervLarviciding`: vector
   * interventions need dynamic mode and one element per species.
   */
  function CheckDescription(interventionMode: int, elements: nat, numSpecies: nat): (r: Result<()>)
    ensures r.Ok? <==> interventionMode == TransmissionModes.DYNAMIC_EIR && elements == numSpecies
  {
    if interventionMode != TransmissionModes.DYNAMIC_EIR then
      Err("vector interventions can only be used in dynamic transmission mode (mode=\"dynamic\")")
    else if elements != numSpecies then
      Err("anophelesParams: must have one element for each mosquito species described in entomology")
    else Ok(())
  }

  /** The index of the first true entry, or the length when there is none. */
  function FirstTrue(s: seq<bool>): (r: nat)
    ensures r <= |s|
    ensures r < |s| ==> s[r]
    ensures forall j :: 0 <= j < r ==> !s[j]
  {
    if s == [] then 0 else if s[0] then 0 else 1 + FirstTrue(s[1..])
  }

  class VectorModel {
    const interventionMode: int
    var simulationMode: int
    /** Iterations so far; -1 once converged. */
    var initIterations: int
    var numSpecies: nat
    var speciesIndex: map<string, nat>
    /** The species whose `initIterate` ran in the last round, in order. */
    var iterated: seq<nat>

    constructor (interventionMode: int, numSpecies: nat, speciesIndex: map<string, nat>)
      ensures this.interventionMode == interventionMode && this.numSpecies == numSpecies
      ensures this.speciesIndex == speciesIndex && initIterations == 0 && iterated == []
    {
      this.interventionMode := interventionMode;
      this.numSpecies, this.speciesIndex := numSpecies, speciesIndex;
      initIterations, iterated := 0, [];
      simulationMode := TransmissionModes.EQUILIBRIUM_MODE;
    }

    /**
     * `initIterate`, given what each species' own `initIterate` answers.
     * Outside dynamic mode nothing happens; once converged the model
     * switches to dynamic mode. Otherwise the species are asked in order
     * until one wants another round (the `||` stops there); with none the
     * model is converged and asks for one more year, else six; the 11th
     * iteration is an error.
     */
    method InitIterate(wantsIteration: seq<bool>, stepsPerYear: nat) returns (r: Result<nat>)
      requires |wantsIteration| == numSpecies
      modifies this`simulationMode, this`initIterations, this`iterated
      ensures interventionMode != TransmissionModes.DYNAMIC_EIR ==>
                && r == Ok(0) && simulationMode == old(simulationMode)
                && initIterations == old(initIterations) && iterated == old(iterated)
      ensures interventionMode == TransmissionModes.DYNAMIC_EIR && old(initIterations) < 0 ==>
                && r == Ok(0) && simulationMode == TransmissionModes.DYNAMIC_EIR
                && initIterations == old(initIterations) && iterated == old(iterated)
      ensures interventionMode == TransmissionModes.DYNAMIC_EIR && old(initIterations) >= 0 ==>
                var need := FirstTrue(wantsIteration) < numSpecies;
                && simulationMode == old(simulationMode)
                && iterated == SpeciesIndex.Range(if need then FirstTrue(wantsIteration) + 1 else numSpecies)
                && (!need ==> initIterations == -1 && r == Ok(TransmissionModes.FromYears(1, stepsPerYear)))
                && (need ==> initIterations == old(initIterations) + 1)
                && (need && initIterations > 10 ==> r.Err?)
                && (need && initIterations <= 10 ==> r == Ok(TransmissionModes.FromYears(6, stepsPerYear)))
    {
      if interventionMode != TransmissionModes.DYNAMIC_EIR {
        return Ok(0);
      }
      if initIterations < 0 {
        simulationMode := TransmissionModes.DYNAMIC_EIR;
        return Ok(0);
      }
      initIterations := initIterations + 1;
      var needIterate := false;
      iterated := [];
      var i := 0;
      while i < numSpecies
        invariant 0 <= i <= numSpecies
        invariant simulationMode == old(simulationMode) && initIterations == old(initIterations) + 1
        invariant !needIterate ==> iterated == SpeciesIndex.Range(i) && forall j :: 0 <= j < i ==> !wantsIteration[j]
        invariant needIterate ==> FirstTrue(wantsIteration) < i && iterated == SpeciesIndex.Range(FirstTrue(wantsIteration) + 1)
      {
        if !needIterate {
          assert SpeciesIndex.Range(i + 1) == SpeciesIndex.Range(i) + [i];
          iterated := iterated + [i];
          needIterate := wantsIteration[i];
        }
        i := i + 1;
      }
      if !needIterate {
        initIterations := -1;
      }
      if initIterations > 10 {
        return Err("Transmission warmup exceeded 10 iterations!");
      }
      if needIterate {
        return Ok(TransmissionModes.FromYears(1, stepsPerYear) + TransmissionModes.FromYears(5, stepsPerYear));
      } else {
        return Ok(TransmissionModes.FromYears(1, stepsPerYear));
      }
    }
  }

  /**
   * The constructor's checks, given the species names in XML order: at
   * least one species is needed; in forced-EIR mode the species are dropped
   * again; every remaining index must then have a name (`reverseLookup`
   * throws otherwise, which a repeated name causes).
   */
  method NewVectorModel(names: seq<string>, interventionMode: int) returns (r: Result<VectorModel>)
    ensures r.Ok? <==> |names| >= 1 && (interventionMode == TransmissionModes.EQUILIBRIUM_MODE ||
                                         forall a, b :: 0 <= a < b < |names| ==> names[a] != names[b])
    ensures r.Ok? ==> fresh(r.value) && r.value.interventionMode == interventionMode
    ensures r.Ok? && interventionMode == TransmissionModes.EQUILIBRIUM_MODE ==>
              r.value.numSpecies == 0 && r.value.speciesIndex == map[]
    ensures r.Ok? && interventionMode != TransmissionModes.EQUILIBRIUM_MODE ==>
              r.value.numSpecies == |names| && r.value.speciesIndex == SpeciesIndex.IndexOf(names)
  {
    if |names| < 1 {
      return Err("Can't use Vector model without data for at least one anopheles species!");
    }
    var numSpecies := |names|;
    var index := SpeciesIndex.BuildIndex(names);
    if interventionMode == TransmissionModes.EQUILIBRIUM_MODE {
      numSpecies, index := 0, map[];
    }
    SpeciesIndex.AllNamedIffDistinct(names);
    var inOrder := SpeciesIndex.NamesInOrder(index, numSpecies);
    if inOrder.Err? {
      return Err(inOrder.msg);
    }
    var m := new VectorModel(interventionMode, numSpecies, index);
    return Ok(m);
  }
}
