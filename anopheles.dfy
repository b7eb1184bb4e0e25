/**
 * `Anopheles::Transmission` (schema-30.2): one mosquito species' state as
 * ring buffers over the last N_v_length days (host-seeking, infected and
 * infectious mosquitoes and the per-day survival and infection
 * probabilities), and the f and f_tau arrays of the NDEMD recursions.
 */
module AnophelesTransmission {
  import opened Wrappers
  import Vectors
  import CArith

  /** The duration check `initialise` performs: 1 <= rest <= EIP. */
  predicate AcceptedAsWritten(mosqRestDuration: int, eipDuration: int)
  {
    1 <= mosqRestDuration <= eipDuration
  }

  /**
   * Indices of `ftauArray` that `initialise` and `update` write: the 1.0 at
   * rest, then the first recursion up to 2 * rest, the added P_df at 2 * rest
   * and the second recursion below EIP.
   */
  predicate FtauWritten(mosqRestDuration: int, eipDuration: int, n: int)
  {
    mosqRestDuration <= n <= 2 * mosqRestDuration || 2 * mosqRestDuration < n < eipDuration
  }

  /** Indices of `fArray` that `update` writes: the first recursion 1..rest, the second up to EIP - rest. */
  predicate FWritten(mosqRestDuration: int, eipDuration: int, n: int)
  {
    1 <= n <= mosqRestDuration || mosqRestDuration < n <= eipDuration - mosqRestDuration
  }

  /** Every write lands inside the arrays `initialise` allocates: ftauArray of EIP, fArray of EIP - rest + 1. */
  ghost predicate WritesInBounds(mosqRestDuration: int, eipDuration: int)
  {
    && (forall n :: FtauWritten(mosqRestDuration, eipDuration, n) ==> 0 <= n < eipDuration)
    && (forall n :: FWritten(mosqRestDuration, eipDuration, n) ==> 0 <= n < eipDuration - mosqRestDuration + 1)
  }

  /** For a positive rest the writes stay in bounds exactly when 2 * rest < EIP. */
  lemma WritesInBoundsIff(mosqRestDuration: int, eipDuration: int)
    requires mosqRestDuration >= 1
    ensures WritesInBounds(mosqRestDuration, eipDuration) <==> 2 * mosqRestDuration < eipDuration
  {
    if !(2 * mosqRestDuration < eipDuration) {
      assert FtauWritten(mosqRestDuration, eipDuration, 2 * mosqRestDuration);
    }
  }

  /**
   * The check as written lets through durations for which the arrays are
   * overrun: rest == EIP makes `initialise` write ftauArray[rest] one past
   * the end, and rest = 2, EIP = 3 makes `update` write ftauArray[4].
   */
  lemma AcceptedAsWrittenOverruns()
    ensures AcceptedAsWritten(1, 1) && FtauWritten(1, 1, 1) && !WritesInBounds(1, 1)
    ensures AcceptedAsWritten(2, 3) && FtauWritten(2, 3, 4) && !WritesInBounds(2, 3)
    ensures forall rest, eip :: AcceptedAsWritten(rest, eip) && eip <= 2 * rest ==> !WritesInBounds(rest, eip)
  {
    forall rest, eip | AcceptedAsWritten(rest, eip) && eip <= 2 * rest ensures !WritesInBounds(rest, eip) {
      WritesInBoundsIff(rest, eip);
    }
  }

  /** The check the arrays need: a positive rest with 2 * rest < EIP. */
  predicate Accepted(mosqRestDuration: int, eipDuration: int)
  {
    1 <= mosqRestDuration && 2 * mosqRestDuration < eipDuration
  }

  /** Ring slot of day d: `(d + N_v_length) % N_v_length`. */
  function Slot(d: nat, len: nat): nat
    requires len > 0
  {
    (d + len) % len
  }

  /** Ring slot x days before day d: `(d + N_v_length - x) % N_v_length`. */
  function Back(d: nat, len: nat, x: nat): nat
    requires 0 < len && x <= len
  {
    (d + len - x) % len
  }

  /**
   * N_v today: the day's emergence, the survivors of yesterday's host-seeking
   * mosquitoes, and those that fed `rest` days ago and survived to seek again.
   */
  function HostSeeking(emergence: real, a1: real, n1: real, fTau: real, nTau: real): real
  {
    emergence + a1 * n1 + fTau * nTau
  }

  /**
   * O_v today: the uninfected among those that fed `rest` days ago and picked
   * up an infection, plus the surviving infected of yesterday and of `rest`
   * days ago.
   */
  function Infected(a1: real, o1: real, fTau: real, fiTau: real, nTau: real, oTau: real): real
  {
    fiTau * (nTau - oTau) + a1 * o1 + fTau * oTau
  }

  /**
   * The ring indices are slots of the buffer; the slot 1 day back is the one
   * before today's, cyclically; and any 0 < x < len days back is a different
   * slot from today's.
   */
  lemma RingSlots(d: nat, len: nat, x: nat)
    requires 0 < x < len
    ensures Slot(d, len) == d % len < len && Back(d, len, x) < len
    ensures Back(d, len, 1) == if d % len == 0 then len - 1 else d % len - 1
    ensures Back(d, len, x) != Slot(d, len)
  {
    CArith.ModShift(d, len);
    var q, r := d / len, d % len;
    assert d + len == (q + 1) * len + r;
    if r == 0 {
      CArith.ModUnique(d + len - 1, len, q, len - 1);
    } else {
      CArith.ModUnique(d + len - 1, len, q + 1, r - 1);
    }
    if r >= x {
      CArith.ModUnique(d + len - x, len, q + 1, r - x);
    } else {
      CArith.ModUnique(d + len - x, len, q, r - x + len);
    }
  }

  /** The infectious-mosquito cut-off: in dynamic mode, S_v at or below the threshold becomes 0. */
  function CutOff(s: real, minInfectedThreshold: real, isDynamic: bool): (r: real)
    ensures isDynamic ==> r == 0.0 || r > minInfectedThreshold
    ensures !isDynamic || s > minInfectedThreshold ==> r == s
  {
    if isDynamic && s <= minInfectedThreshold then 0.0 else s
  }

  class Transmission {
    var mosqRestDuration: int
    var eipDuration: int
    var nvLength: int
    var minInfectedThreshold: real
    var fArray: seq<real>
    var ftauArray: seq<real>
    /** Host-seeking, infected and infectious mosquitoes, by ring slot. */
    var nV: seq<real>
    var oV: seq<real>
    var sV: seq<real>
    /** Probabilities of surviving a day without feeding, of feeding and surviving, and of becoming infected. */
    var pA: seq<real>
    var pDf: seq<real>
    var pDif: seq<real>

    /** The durations are accepted and N_v_length is their sum. */
    predicate Initialised()
      reads this
    {
      Accepted(mosqRestDuration, eipDuration) && nvLength == eipDuration + mosqRestDuration
    }

    /** Initialised, with all six ring buffers of N_v_length slots. */
    predicate Ready()
      reads this
    {
      && Initialised()
      && |nV| == |oV| == |sV| == |pA| == |pDf| == |pDif| == nvLength
    }

    constructor ()
      ensures fArray == ftauArray == nV == oV == sV == pA == pDf == pDif == []
    {
      mosqRestDuration, eipDuration, nvLength := 0, 0, 0;
      minInfectedThreshold := 0.0;
      fArray, ftauArray := [], [];
      nV, oV, sV := [], [], [];
      pA, pDf, pDif := [], [], [];
    }

    /**
     * `initialise` with the check the arrays need (2 * rest < EIP): the
     * buffer length is EIP + rest, fArray starts with 1, and ftauArray is 0
     * below rest and 1 at rest.
     */
    method Initialise(restDuration: int, eip: int, threshold: real) returns (r: Result<()>)
      modifies this`mosqRestDuration, this`eipDuration, this`nvLength, this`minInfectedThreshold,
               this`fArray, this`ftauArray
      ensures mosqRestDuration == restDuration && eipDuration == eip
      ensures r.Ok? <==> Accepted(restDuration, eip)
      ensures r.Ok? ==> && Initialised() && nvLength == eip + restDuration
                        && minInfectedThreshold == threshold
                        && |fArray| == eip - restDuration + 1 && fArray[0] == 1.0
                        && |ftauArray| == eip && ftauArray[restDuration] == 1.0
                        && (forall k :: 0 <= k < restDuration ==> ftauArray[k] == 0.0)
                        && WritesInBounds(restDuration, eip)
      ensures r.Ok? ==> forall k :: 0 < k < |fArray| && k < |old(fArray)| ==> fArray[k] == old(fArray)[k]
      ensures r.Ok? ==> forall k :: restDuration < k < eip && k < |old(ftauArray)| ==> ftauArray[k] == old(ftauArray)[k]
      ensures r.Ok? ==> forall k :: 0 < k < |fArray| && k >= |old(fArray)| ==> fArray[k] == 0.0
      ensures r.Ok? ==> forall k :: restDuration < k < eip && k >= |old(ftauArray)| ==> ftauArray[k] == 0.0
    {
      mosqRestDuration, eipDuration := restDuration, eip;
      if !(1 <= mosqRestDuration && 2 * mosqRestDuration < eipDuration) {
        return Err("Code expects EIPDuration > 2 * mosqRestDuration >= 2");
      }
      nvLength := eipDuration + mosqRestDuration;
      minInfectedThreshold := threshold;
      WritesInBoundsIff(restDuration, eip);
      fArray := Vectors.Resized(fArray, eipDuration - mosqRestDuration + 1)[0 := 1.0];
      var ftau := Vectors.Resized(ftauArray, eipDuration);
      ghost var resized := ftau;
      var i := 0;
      while i < mosqRestDuration
        invariant 0 <= i <= mosqRestDuration && |ftau| == eipDuration
        invariant forall k :: 0 <= k < i ==> ftau[k] == 0.0
        invariant forall k :: i <= k < eipDuration ==> ftau[k] == resized[k]
      {
        ftau := ftau[i := 0.0];
        i := i + 1;
      }
      ftauArray := ftau[mosqRestDuration := 1.0];
      return Ok(());
    }

    /** `initIterateScale`: N_v, O_v and S_v are scaled by the factor. */
    method InitIterateScale(factor: real)
      modifies this`nV, this`oV, this`sV
      ensures nV == Vectors.Scaled(old(nV), factor)
      ensures oV == Vectors.Scaled(old(oV), factor)
      ensures sV == Vectors.Scaled(old(sV), factor)
    {
      nV := Vectors.Scaled(nV, factor);
      oV := Vectors.Scaled(oV, factor);
      sV := Vectors.Scaled(sV, factor);
    }

    /**
     * `initState`: every slot gets the step's survival probabilities, no
     * infection probability, the forced S_v of that day, and N_v and O_v as
     * the given multiples of it.
     */
    method InitState(tsPA: real, tsPDf: real, initNvFromSv: real, initOvFromSv: real, forcedSv: seq<real>)
      requires Initialised() && |forcedSv| >= nvLength
      modifies this`nV, this`oV, this`sV, this`pA, this`pDf, this`pDif
      ensures Ready()
      ensures forall t :: 0 <= t < nvLength ==>
                && pA[t] == tsPA && pDf[t] == tsPDf && pDif[t] == 0.0
                && sV[t] == forcedSv[t]
                && nV[t] == sV[t] * initNvFromSv && oV[t] == sV[t] * initOvFromSv
    {
      var len := nvLength;
      var n, o, s := Vectors.Resized(nV, len), Vectors.Resized(oV, len), Vectors.Resized(sV, len);
      var a, df, dif := Vectors.Resized(pA, len), Vectors.Resized(pDf, len), Vectors.Resized(pDif, len);
      var t := 0;
      while t < len
        invariant 0 <= t <= len
        invariant |n| == |o| == |s| == |a| == |df| == |dif| == len
        invariant forall j :: 0 <= j < t ==>
                    && a[j] == tsPA && df[j] == tsPDf && dif[j] == 0.0 && s[j] == forcedSv[j]
                    && n[j] == s[j] * initNvFromSv && o[j] == s[j] * initOvFromSv
      {
        a, df, dif := a[t := tsPA], df[t := tsPDf], dif[t := 0.0];
        s := s[t := forcedSv[t]];
        n := n[t := s[t] * initNvFromSv];
        o := o[t := s[t] * initOvFromSv];
        t := t + 1;
      }
      nV, oV, sV, pA, pDf, pDif := n, o, s, a, df, dif;
    }

    /**
     * `update` for day d, given the day's emergence and the value the f and
     * f_tau recursions give for S_v: today's slot receives the step's
     * probabilities, N_v and O_v by their difference equations over the slot
     * 1 day back and the slot rest days back, and S_v after the cut-off; no
     * other slot changes.
     */
    method Update(d: nat, tsPA: real, tsPDf: real, tsPDif: real, isDynamic: bool,
                  emergence: real, newSv: real) returns (r: real)
      requires Ready()
      modifies this`nV, this`oV, this`sV, this`pA, this`pDf, this`pDif
      ensures Ready()
      ensures var t, t1, ttau := Slot(d, nvLength), Back(d, nvLength, 1), Back(d, nvLength, mosqRestDuration);
              && pA == old(pA)[t := tsPA] && pDf == old(pDf)[t := tsPDf] && pDif == old(pDif)[t := tsPDif]
              && nV == old(nV)[t := nV[t]] && oV == old(oV)[t := oV[t]]
              && sV == old(sV)[t := CutOff(newSv, minInfectedThreshold, isDynamic)]
              && nV[t] == HostSeeking(emergence, pA[t1], nV[t1], pDf[ttau], nV[ttau])
              && oV[t] == Infected(pA[t1], oV[t1], pDf[ttau], pDif[ttau], nV[ttau], oV[ttau])
              && r == sV[t]
    {
      var len := nvLength;
      var dMod := d + len;
      var t := dMod % len;
      var t1 := (dMod - 1) % len;
      var ttau := (dMod - mosqRestDuration) % len;
      RingSlots(d, len, 1);
      RingSlots(d, len, mosqRestDuration);
      pA := pA[t := tsPA];
      pDf := pDf[t := tsPDf];
      pDif := pDif[t := tsPDif];
      // the slots read below are not slot t, so they keep their values
      var a1, fTau, fiTau := pA[t1], pDf[ttau], pDif[ttau];
      var n1, nTau, o1, oTau := nV[t1], nV[ttau], oV[t1], oV[ttau];
      nV := nV[t := HostSeeking(emergence, a1, n1, fTau, nTau)];
      oV := oV[t := Infected(a1, o1, fTau, fiTau, nTau, oTau)];
      var s := newSv;
      if isDynamic && s <= minInfectedThreshold {
        s := 0.0;
      }
      sV := sV[t := s];
      return s;
    }

    /** `uninfectVectors`: no infected or infectious mosquitoes and no infection probability remain. */
    method UninfectVectors()
      modifies this`oV, this`sV, this`pDif
      ensures oV == Vectors.Zeros(|old(oV)|)
      ensures sV == Vectors.Zeros(|old(sV)|)
      ensures pDif == Vectors.Zeros(|old(pDif)|)
    {
      oV := Vectors.Zeros(|oV|);
      sV := Vectors.Zeros(|sV|);
      pDif := Vectors.Zeros(|pDif|);
    }
  }
}
