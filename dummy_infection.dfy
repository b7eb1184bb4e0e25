/**
 * `DummyInfection` (openmalaria-626): a test infection whose density grows
 * eightfold each step, wrapped below 20000, until it drops below one parasite.
 */
module DummyInfection {
  import opened CArith

  const GROWTH_RATE: real := 8.0
  const PARASITE_THRESHOLD: real := 1.0

  /** The density after one `determineWithinHostDensity` step from density d, when d >= 1. */
  function GrownDensity(d: real): (r: real)
    requires d >= PARASITE_THRESHOLD
    ensures 0.0 <= r < 20000.0
  {
    CDivModLaw(Trunc(d * GROWTH_RATE), 20000);
    CMod(Trunc(d * GROWTH_RATE), 20000) as real
  }

  /** The growth is truncation of 8·d reduced modulo 20000. */
  lemma GrownDensityIsTruncatedMultiple(d: real)
    requires d >= PARASITE_THRESHOLD
    ensures GrownDensity(d) == ((d * 8.0).Floor % 20000) as real
    ensures d * 8.0 < 20000.0 ==> GrownDensity(d) == (d * 8.0).Floor as real
  {
    CDivNonNegative(Trunc(d * GROWTH_RATE), 20000);
  }

  /** From the initial 16 the density goes to 128 and then 1024. */
  lemma GrowthFromSixteen()
    ensures GrownDensity(16.0) == 128.0
    ensures GrownDensity(128.0) == 1024.0
  {
    GrownDensityIsTruncatedMultiple(16.0);
    GrownDensityIsTruncatedMultiple(128.0);
  }

  class Infection {
    var startdate: int
    var density: real
    var duration: int
    var cumulativeExposureJ: real

    /** A new infection has density 16 and duration 100; the start date comes from the base class. */
    constructor (now: int)
      ensures startdate == now && density == 16.0 && duration == 100 && cumulativeExposureJ == 0.0
    {
      startdate, density, duration, cumulativeExposureJ := now, 16.0, 100, 0.0;
    }

    /** `getEndDate`: the start date plus duration / interval, with C++ integer division. */
    function EndDate(interval: int): int
      requires interval > 0
      reads this
    {
      startdate + CDiv(duration, interval)
    }

    /**
     * `determineWithinHostDensity`: below one parasite the infection ends
     * (duration −99, density 0); otherwise the density grows. Either way the
     * exposure grows by interval times the new density.
     */
    method DetermineWithinHostDensity(interval: int)
      modifies this
      ensures old(density) < PARASITE_THRESHOLD ==> duration == -99 && density == 0.0
      ensures old(density) >= PARASITE_THRESHOLD ==> duration == old(duration) && density == GrownDensity(old(density))
      ensures cumulativeExposureJ == old(cumulativeExposureJ) + interval as real * density
      ensures startdate == old(startdate)
    {
      if density < PARASITE_THRESHOLD {
        duration := -99;
        density := 0.0;
      } else {
        density := GrownDensity(density);
      }
      cumulativeExposureJ := cumulativeExposureJ + interval as real * density;
    }
  }

  /** An ended infection's end date uses truncating division: −99 over 5 steps is 19 steps back. */
  lemma EndedInfectionEndDate(startdate: int)
    ensures startdate + CDiv(-99, 5) == startdate - 19
  {
  }
}
