/**
 * `DescriptiveIPTInfection` (openmalaria-626): a descriptive infection with
 * a parasite genotype drawn by its frequency, whose SP attenuation applies
 * only in a window after the last SP dose.
 */
module DescriptiveIPTInfection {
  import Vectors

  /** One `infGenotype` element of the IPTi description. */
  datatype Genotype = Genotype(freq: real, acr: real, proph: int, tolPeriod: int, atten: real)

  /** The cumulative frequency of the genotypes before index k. */
  function Below(freq: seq<real>, k: nat): real
    requires k <= |freq|
  {
    Vectors.Sum(freq[..k])
  }

  /** The draw lies strictly inside genotype k's cumulative-frequency interval. */
  predicate Inside(freq: seq<real>, u: real, k: nat)
    requires k < |freq|
  {
    Below(freq, k) < u < Below(freq, k + 1)
  }

  /**
   * The genotype index the constructor's loop leaves, looking at the first
   * n intervals: the last interval strictly containing u, or -1 for none.
   */
  function LastInside(freq: seq<real>, u: real, n: nat): (r: int)
    requires n <= |freq|
    ensures -1 <= r < n
  {
    if n == 0 then -1
    else if Inside(freq, u, n - 1) then n - 1
    else LastInside(freq, u, n - 1)
  }

  /** LastInside is -1 iff no interval contains the draw, and otherwise the last one that does. */
  lemma {:induction false} LastInsideMeaning(freq: seq<real>, u: real, n: nat)
    requires n <= |freq|
    ensures LastInside(freq, u, n) == -1 <==> forall k :: 0 <= k < n ==> !Inside(freq, u, k)
    ensures LastInside(freq, u, n) >= 0 ==>
              && Inside(freq, u, LastInside(freq, u, n))
              && forall k :: LastInside(freq, u, n) < k < n ==> !Inside(freq, u, k)
  {
    if n > 0 { LastInsideMeaning(freq, u, n - 1); }
  }

  /** With non-negative frequencies the cumulative bounds never decrease. */
  lemma {:induction false} BelowMonotone(freq: seq<real>, j: nat, k: nat)
    requires j <= k <= |freq|
    requires forall i :: 0 <= i < |freq| ==> freq[i] >= 0.0
    ensures Below(freq, j) <= Below(freq, k)
  {
    if j < k {
      BelowMonotone(freq, j, k - 1);
      assert freq[..k][..k - 1] == freq[..k - 1];
    }
  }

  /** With non-negative frequencies the intervals are disjoint, so a draw inside one gets exactly that one. */
  lemma InsideIsUnique(freq: seq<real>, u: real, k: nat)
    requires k < |freq| && Inside(freq, u, k)
    requires forall i :: 0 <= i < |freq| ==> freq[i] >= 0.0
    ensures LastInside(freq, u, |freq|) == k
  {
    LastInsideMeaning(freq, u, |freq|);
    var r := LastInside(freq, u, |freq|);
    if r != k {
      assert r > k;
      BelowMonotone(freq, k + 1, r);
      assert false;
    }
  }

  /**
   * The constructor's genotype loop as written: the bounds walk up the
   * cumulative frequencies and the index is set whenever the draw lies
   * strictly between them. The 1.0 given to the upper bound on the last
   * round is never read.
   */
  method SelectGenotype(freq: seq<real>, u: real) returns (id: int)
    requires |freq| > 0
    ensures id == LastInside(freq, u, |freq|)
  {
    id := -1;
    var lower, upper := 0.0, freq[0];
    var counter := 1;
    assert freq[..1] == freq[..0] + [freq[0]];
    while counter <= |freq|
      invariant 1 <= counter <= |freq| + 1
      invariant lower == Below(freq, counter - 1)
      invariant counter <= |freq| ==> upper == Below(freq, counter)
      invariant id == LastInside(freq, u, counter - 1)
    {
      if lower < u && u < upper {
        id := counter - 1;
      }
      lower := upper;
      if counter != |freq| {
        assert freq[..counter + 1][..counter] == freq[..counter];
        upper := upper + freq[counter];
      } else {
        upper := 1.0;
      }
      counter := counter + 1;
    }
  }

  /** A draw on the boundary between two genotypes gets none: the index stays -1. */
  lemma BoundaryDrawHasNoGenotype()
    ensures LastInside([0.5, 0.5], 0.5, 2) == -1
  {
    var f := [0.5, 0.5];
    assert f[..0] == [] && f[..1] == [0.5] && f[..2] == f;
    assert [0.5][..0] == [];
    assert f[..1] == f[..2][..1];
    assert Below(f, 1) == 0.5;
    assert Below(f, 2) == 1.0;
  }

  /** A draw above the frequencies' total also gets none. */
  lemma DrawAboveTotalHasNoGenotype()
    ensures LastInside([0.4], 0.9, 1) == -1
  {
    assert [0.4][..0] == [] && [0.4][..1] == [0.4];
  }

  /**
   * The evidently intended choice: the first genotype whose cumulative
   * frequency exceeds the draw, the last genotype taking whatever is left
   * up to 1.0. It is always a valid index.
   */
  function CoveringGenotype(freq: seq<real>, u: real, k: nat): (r: nat)
    requires k < |freq|
    ensures k <= r < |freq|
    decreases |freq| - k
  {
    if k == |freq| - 1 || u < Below(freq, k + 1) then k else CoveringGenotype(freq, u, k + 1)
  }

  /** The covering genotype's interval holds the draw, closed below, and no earlier interval does. */
  lemma {:induction false} CoveringGenotypeMeaning(freq: seq<real>, u: real, k: nat)
    requires k < |freq|
    ensures var r := CoveringGenotype(freq, u, k);
            && (r < |freq| - 1 ==> u < Below(freq, r + 1))
            && forall j :: k < j <= r ==> Below(freq, j) <= u
    decreases |freq| - k
  {
    if !(k == |freq| - 1 || u < Below(freq, k + 1)) {
      CoveringGenotypeMeaning(freq, u, k + 1);
    }
  }

  /** Where the source's loop finds a genotype (non-negative frequencies), the intended choice agrees. */
  lemma CoveringAgreesInside(freq: seq<real>, u: real, k: nat)
    requires k < |freq| && Inside(freq, u, k)
    requires forall i :: 0 <= i < |freq| ==> freq[i] >= 0.0
    ensures CoveringGenotype(freq, u, 0) == k == LastInside(freq, u, |freq|)
  {
    InsideIsUnique(freq, u, k);
    CoveringGenotypeMeaning(freq, u, 0);
    var r := CoveringGenotype(freq, u, 0);
    if r < k {
      BelowMonotone(freq, r + 1, k);
      assert false;
    } else if r > k {
      assert false;
    }
  }

  /** The SP attenuation window: after the prophylactic period and within the tolerance period that follows. */
  predicate SPAttenuates(now: int, lastSPdose: int, proph: int, tolPeriod: int)
  {
    proph < now - lastSPdose <= proph + tolPeriod
  }

  /**
   * `initParameters`: one entry per genotype of the description, in order,
   * in each of the five arrays.
   */
  method InitParameters(genotypes: seq<Genotype>) returns (freq: array<real>, acr: array<real>,
      proph: array<int>, tolPeriod: array<int>, atten: array<real>)
    ensures freq.Length == acr.Length == proph.Length == tolPeriod.Length == atten.Length == |genotypes|
    ensures forall i :: 0 <= i < |genotypes| ==>
              && freq[i] == genotypes[i].freq && acr[i] == genotypes[i].acr
              && proph[i] == genotypes[i].proph && tolPeriod[i] == genotypes[i].tolPeriod
              && atten[i] == genotypes[i].atten
  {
    var n := |genotypes|;
    freq, acr := new real[n], new real[n];
    proph, tolPeriod := new int[n], new int[n];
    atten := new real[n];
    var i := 0;
    while i < n
      invariant 0 <= i <= n
      invariant forall j :: 0 <= j < i ==>
                  && freq[j] == genotypes[j].freq && acr[j] == genotypes[j].acr
                  && proph[j] == genotypes[j].proph && tolPeriod[j] == genotypes[j].tolPeriod
                  && atten[j] == genotypes[j].atten
    {
      freq[i], acr[i] := genotypes[i].freq, genotypes[i].acr;
      proph[i], tolPeriod[i] := genotypes[i].proph, genotypes[i].tolPeriod;
      atten[i] := genotypes[i].atten;
      i := i + 1;
    }
  }

  function Frequencies(genotypes: seq<Genotype>): (r: seq<real>)
    ensures |r| == |genotypes|
    ensures forall k :: 0 <= k < |genotypes| ==> r[k] == genotypes[k].freq
  {
    seq(|genotypes|, k requires 0 <= k < |genotypes| => genotypes[k].freq)
  }

  class Infection {
    /** `_gType.ID`. */
    var genotype: nat
    var spAttenuate: bool
    var density: real

    /**
     * The constructor, given the uniform draw: the genotype is the covering
     * one (the source's loop would leave -1 on a boundary draw), and SP
     * attenuates iff the step lies in that genotype's window after the last
     * SP dose.
     */
    constructor (genotypes: seq<Genotype>, u: real, now: int, lastSPdose: int, density: real)
      requires |genotypes| > 0
      ensures genotype < |genotypes|
      ensures genotype == CoveringGenotype(Frequencies(genotypes), u, 0)
      ensures spAttenuate <==> SPAttenuates(now, lastSPdose, genotypes[genotype].proph, genotypes[genotype].tolPeriod)
      ensures this.density == density
    {
      var id := CoveringGenotype(Frequencies(genotypes), u, 0);
      genotype := id;
      spAttenuate := SPAttenuates(now, lastSPdose, genotypes[id].proph, genotypes[id].tolPeriod);
      this.density := density;
    }

    /** `asexualAttenuation`: the density is divided by the genotype's attenuation, and the factor returned. */
    method AsexualAttenuation(genotypes: seq<Genotype>) returns (attFact: real)
      requires genotype < |genotypes| && genotypes[genotype].atten != 0.0
      modifies this`density
      ensures attFact * genotypes[genotype].atten == 1.0
      ensures density == old(density) * attFact
    {
      attFact := 1.0 / genotypes[genotype].atten;
      density := density * attFact;
    }
  }
}
