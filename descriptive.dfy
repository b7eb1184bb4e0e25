/**
 * `DescriptiveWithinHostModel` (trunk `WithinHost/Descriptive.cpp`): a
 * human's list of descriptive infections, capped at MAX_INFECTIONS, with the
 * multiplicity of infection `_MOI` kept equal to the list's length.
 */
module DescriptiveWithinHost {
  import opened Wrappers

  /**
   * What the within-host model sees of a `DescriptiveInfection`: its start,
   * its current density and whether `expired()` holds this step (that
   * test lives in code not shown, so it is carried as a flag).
   */
  datatype DescriptiveInfection = DescriptiveInfection(startDate: int, density: real, expired: bool)

  /** The infections that survive the expiry sweep, in their original order. */
  function Unexpired(s: seq<DescriptiveInfection>): (r: seq<DescriptiveInfection>)
    ensures |r| <= |s|
    ensures forall k :: 0 <= k < |r| ==> !r[k].expired
  {
    if s == [] then []
    else if s[0].expired then Unexpired(s[1..])
    else [s[0]] + Unexpired(s[1..])
  }

  /** The number of expired infections. */
  function ExpiredCount(s: seq<DescriptiveInfection>): nat
  {
    if s == [] then 0 else (if s[0].expired then 1 else 0) + ExpiredCount(s[1..])
  }

  /** The sweep distributes over concatenation, so the survivors keep their relative order. */
  lemma {:induction false} UnexpiredAppend(s: seq<DescriptiveInfection>, t: seq<DescriptiveInfection>)
    ensures Unexpired(s + t) == Unexpired(s) + Unexpired(t)
  {
    if s == [] {
      assert s + t == t;
    } else {
      assert (s + t)[1..] == s[1..] + t;
      UnexpiredAppend(s[1..], t);
    }
  }

  /** Exactly the expired infections are removed. */
  lemma {:induction false} UnexpiredCount(s: seq<DescriptiveInfection>)
    ensures |Unexpired(s)| + ExpiredCount(s) == |s|
  {
    if s != [] { UnexpiredCount(s[1..]); }
  }

  /** A list with no expired infection is left whole. */
  lemma {:induction false} UnexpiredKeepsLive(s: seq<DescriptiveInfection>)
    requires forall k :: 0 <= k < |s| ==> !s[k].expired
    ensures Unexpired(s) == s
  {
    if s != [] { UnexpiredKeepsLive(s[1..]); }
  }

  /** The number of infections with density above the detection limit. */
  function PatentCount(s: seq<DescriptiveInfection>, detectionLimit: real): nat
  {
    if s == [] then 0
    else PatentCount(s[..|s| - 1], detectionLimit) + (if s[|s| - 1].density > detectionLimit then 1 else 0)
  }

  lemma {:induction false} PatentCountBounded(s: seq<DescriptiveInfection>, detectionLimit: real)
    ensures PatentCount(s, detectionLimit) <= |s|
  {
    if s != [] { PatentCountBounded(s[..|s| - 1], detectionLimit); }
  }

  /** `readDescriptiveWHM`'s check: a checkpointed MOI outside [0, MAX_INFECTIONS] is rejected. */
  function CheckMOI(moi: int, maxInfections: nat): (r: Result<nat>)
    ensures r.Ok? <==> 0 <= moi <= maxInfections
    ensures r.Ok? ==> r.value == moi
  {
    if moi < 0 || moi > maxInfections then Err("_MOI") else Ok(moi)
  }

  class DescriptiveWithinHostModel {
    var infections: seq<DescriptiveInfection>
    var moi: int
    const maxInfections: nat

    /** `_MOI` counts the list, which never exceeds MAX_INFECTIONS. */
    predicate Valid()
      reads this
    {
      moi == |infections| && moi <= maxInfections
    }

    constructor (maxInfections: nat)
      ensures Valid() && infections == [] && this.maxInfections == maxInfections
    {
      this.maxInfections := maxInfections;
      infections, moi := [], 0;
    }

    /** `newInfection`: one infection starting now is added only while MOI < MAX_INFECTIONS. */
    method NewInfection(now: int)
      requires Valid()
      modifies this
      ensures Valid()
      ensures old(moi) < maxInfections ==>
                infections == old(infections) + [DescriptiveInfection(now, 0.0, false)] && moi == old(moi) + 1
      ensures old(moi) >= maxInfections ==> infections == old(infections) && moi == old(moi)
    {
      if moi < maxInfections {
        infections := infections + [DescriptiveInfection(now, 0.0, false)];
        moi := moi + 1;
      }
    }

    /** `clearAllInfections`: an empty list with MOI 0. */
    method ClearAllInfections()
      requires Valid()
      modifies this
      ensures Valid() && infections == [] && moi == 0
    {
      infections := [];
      moi := 0;
    }

    /**
     * The expiry sweep at the start of `calculateDensities`: each expired
     * infection is erased in place and MOI drops once per erasure.
     */
    method RemoveExpired()
      requires Valid()
      modifies this
      ensures Valid()
      ensures infections == Unexpired(old(infections))
      ensures moi == old(moi) - ExpiredCount(old(infections))
    {
      var kept, removed := EraseExpired(infections);
      infections, moi := kept, moi - removed;
    }

    /** The erase loop of `calculateDensities`' expiry sweep, on the list's contents: the survivors in order, and how many went. */
    static method EraseExpired(infs0: seq<DescriptiveInfection>) returns (infs: seq<DescriptiveInfection>, removed: nat)
      ensures infs == Unexpired(infs0)
      ensures removed == ExpiredCount(infs0) && |infs| + removed == |infs0|
    {
      infs, removed := infs0, 0;
      var i := 0;
      while i < |infs|
        invariant 0 <= i <= |infs| && |infs| + removed == |infs0|
        invariant Unexpired(infs0) == infs[..i] + Unexpired(infs[i..])
        invariant ExpiredCount(infs0) == removed + ExpiredCount(infs[i..])
        decreases |infs| - i
      {
        infs, i, removed := EraseNext(infs, i, removed, infs0);
      }
      assert infs[i..] == [];
      assert infs[..i] == infs;
    }

    /** One turn of the erase loop: an expired infection at i is erased, a live one is passed. */
    static method EraseNext(infs: seq<DescriptiveInfection>, i: nat, removed: nat, ghost infs0: seq<DescriptiveInfection>)
      returns (next: seq<DescriptiveInfection>, i': nat, removed': nat)
      requires i < |infs| && |infs| + removed == |infs0|
      requires Unexpired(infs0) == infs[..i] + Unexpired(infs[i..])
      requires ExpiredCount(infs0) == removed + ExpiredCount(infs[i..])
      ensures i' <= |next| && |next| + removed' == |infs0| && |next| - i' < |infs| - i
      ensures Unexpired(infs0) == next[..i'] + Unexpired(next[i'..])
      ensures ExpiredCount(infs0) == removed' + ExpiredCount(next[i'..])
    {
      UnexpiredAppend(infs[..i], infs[i..]);
      assert infs[i..][1..] == infs[i + 1..];
      if infs[i].expired {
        next, i', removed' := infs[..i] + infs[i + 1..], i, removed + 1;
        assert next[..i] == infs[..i];
        assert next[i..] == infs[i + 1..];
      } else {
        next, i', removed' := infs, i + 1, removed;
        assert next[..i'] == infs[..i] + [infs[i]];
      }
    }

    /**
     * `countInfections`: the number of infections; the patent count becomes
     * the number above the detection limit, except that on an empty list it
     * is left as the caller had it.
     */
    method CountInfections(patentIn: int, detectionLimit: real) returns (total: nat, patent: int)
      requires Valid()
      ensures total == |infections|
      ensures infections == [] ==> patent == patentIn
      ensures infections != [] ==> patent == PatentCount(infections, detectionLimit)
    {
      if infections == [] {
        return 0, patentIn;
      }
      patent := 0;
      var i := 0;
      while i < |infections|
        invariant 0 <= i <= |infections|
        invariant patent == PatentCount(infections[..i], detectionLimit)
      {
        assert infections[..i + 1][..i] == infections[..i];
        if infections[i].density > detectionLimit {
          patent := patent + 1;
        }
        i := i + 1;
      }
      assert infections[..i] == infections;
      total := |infections|;
    }

    /** `readDescriptiveWHM`: the checkpointed MOI is accepted only within [0, MAX_INFECTIONS]. */
    method ReadMOI(value: int) returns (r: Result<()>)
      modifies this`moi
      ensures r.Ok? <==> 0 <= value <= maxInfections
      ensures moi == value
    {
      moi := value;
      var checked := CheckMOI(value, maxInfections);
      r := if checked.Ok? then Ok(()) else Err(checked.msg);
    }
  }
}
