/**
 * Simulation modes and time-step conversions shared by the transmission
 * models, and the species-name index the vector models build.
 */
module TransmissionModes {
  /** `SimulationMode`: forced (equilibrium) EIR, a known transient EIR, and dynamic EIR. */
  const EQUILIBRIUM_MODE: int := 2
  const TRANSIENT_EIR_KNOWN: int := 3
  const DYNAMIC_EIR: int := 4

  /** `TimeStep::fromYears`: whole years in time steps. */
  function FromYears(years: nat, stepsPerYear: nat): nat
  {
    years * stepsPerYear
  }
}

module SpeciesIndex {
  import opened Wrappers

  /**
   * The map the constructors build by `speciesIndex[name] = i` over the
   * species in order: a repeated name keeps its last index.
   */
  function IndexOf(names: seq<string>): map<string, nat>
  {
    if names == [] then map[]
    else IndexOf(names[..|names| - 1])[names[|names| - 1] := |names| - 1]
  }

  /** Every name is a key, and every key is a name mapped to the last index holding it. */
  lemma {:induction false} IndexOfMeaning(names: seq<string>)
    ensures IndexOf(names).Keys == set i | 0 <= i < |names| :: names[i]
    ensures forall k :: k in IndexOf(names) ==>
              && IndexOf(names)[k] < |names| && names[IndexOf(names)[k]] == k
              && forall j :: IndexOf(names)[k] < j < |names| ==> names[j] != k
  {
    if names != [] {
      var init := names[..|names| - 1];
      IndexOfMeaning(init);
      assert forall i :: 0 <= i < |init| ==> init[i] == names[i];
      var s := set i | 0 <= i < |names| :: names[i];
      var t := set i | 0 <= i < |init| :: init[i];
      assert s == t + {names[|names| - 1]} by {
        forall x | x in s ensures x in t + {names[|names| - 1]} {
          var i :| 0 <= i < |names| && names[i] == x;
          if i < |init| { assert init[i] == x; }
        }
      }
    }
  }

  /** With distinct names each name maps to its own position. */
  lemma DistinctNamesIndexed(names: seq<string>, i: nat)
    requires forall a, b :: 0 <= a < b < |names| ==> names[a] != names[b]
    requires i < |names|
    ensures names[i] in IndexOf(names) && IndexOf(names)[names[i]] == i
  {
    IndexOfMeaning(names);
  }

  /** A name repeated at a later position leaves the earlier position without a key. */
  lemma RepeatedNameLosesIndex(names: seq<string>, a: nat, b: nat)
    requires a < b < |names| && names[a] == names[b]
    ensures forall k :: k in IndexOf(names) ==> IndexOf(names)[k] != a
  {
    IndexOfMeaning(names);
  }

  /**
   * The constructors' species loop: the index is built entry by entry.
   */
  method BuildIndex(names: seq<string>) returns (m: map<string, nat>)
    ensures m == IndexOf(names)
  {
    m := map[];
    var i := 0;
    while i < |names|
      invariant 0 <= i <= |names|
      invariant m == IndexOf(names[..i])
    {
      assert names[..i + 1][..i] == names[..i];
      m := m[names[i] := i];
      i := i + 1;
    }
    assert names[..i] == names;
  }

  /**
   * `reverseLookup`: a key mapped to i, or an error when there is none.
   * The keys are visited in no particular order here.
   */
  method ReverseLookup(m: map<string, nat>, i: nat) returns (r: Result<string>)
    ensures r.Ok? ==> r.value in m && m[r.value] == i
    ensures r.Err? <==> forall k :: k in m ==> m[k] != i
  {
    var todo := m.Keys;
    while todo != {}
      invariant todo <= m.Keys
      invariant forall k :: k in m && k !in todo ==> m[k] != i
      decreases |todo|
    {
      var k :| k in todo;
      if m[k] == i {
        return Ok(k);
      }
      todo := todo - {k};
    }
    return Err("reverseLookup: key not found");
  }

  /** With distinct names, looking up position i finds exactly names[i]. */
  lemma ReverseLookupOfDistinct(names: seq<string>, i: nat, k: string)
    requires forall a, b :: 0 <= a < b < |names| ==> names[a] != names[b]
    requires i < |names| && k in IndexOf(names) && IndexOf(names)[k] == i
    ensures k == names[i]
  {
    IndexOfMeaning(names);
  }

  /** The species indices `0, 1, ..., n - 1`. */
  function Range(n: nat): (r: seq<nat>)
    ensures |r| == n && forall j :: 0 <= j < n ==> r[j] == j
  {
    seq(n, j requires 0 <= j < n => j)
  }

  /** No name is mapped to index i. */
  predicate Unnamed(m: map<string, nat>, i: nat)
  {
    forall k :: k in m ==> m[k] != i
  }

  /** Every index below |names| keeps a name exactly when the names are distinct. */
  lemma AllNamedIffDistinct(names: seq<string>)
    ensures (forall i :: 0 <= i < |names| ==> !Unnamed(IndexOf(names), i)) <==>
            (forall a, b :: 0 <= a < b < |names| ==> names[a] != names[b])
  {
    IndexOfMeaning(names);
    if exists a, b :: 0 <= a < b < |names| && names[a] == names[b] {
      var a, b :| 0 <= a < b < |names| && names[a] == names[b];
      RepeatedNameLosesIndex(names, a, b);
      assert Unnamed(IndexOf(names), a);
    } else {
      forall i | 0 <= i < |names| ensures !Unnamed(IndexOf(names), i) {
        assert IndexOf(names)[names[i]] == i;
      }
    }
  }

  /**
   * The constructors' output loop: each index below n is looked up in turn,
   * the first one without a name raising the error.
   */
  method NamesInOrder(m: map<string, nat>, n: nat) returns (r: Result<seq<string>>)
    ensures r.Ok? <==> forall i :: 0 <= i < n ==> !Unnamed(m, i)
    ensures r.Ok? ==> |r.value| == n && forall i :: 0 <= i < n ==> r.value[i] in m && m[r.value[i]] == i
  {
    var found: seq<string> := [];
    var i := 0;
    while i < n
      invariant 0 <= i <= n
      invariant forall j :: 0 <= j < i ==> !Unnamed(m, j)
      invariant |found| == i && forall j :: 0 <= j < i ==> found[j] in m && m[found[j]] == j
    {
      var name := ReverseLookup(m, i);
      if name.Err? {
        assert Unnamed(m, i);
        return Err(name.msg);
      }
      found := found + [name.value];
      i := i + 1;
    }
    return Ok(found);
  }
}
