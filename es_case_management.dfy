/**
 * Event-scheduler case management (schema-30.2,
 * model/Clinical/ESCaseManagement.cpp): treatment schedules and their
 * modifiers, the treatments keyed by the outcomes of modifier decisions, the
 * processor that keeps only the decisions required and orders them after
 * their dependencies, and the decision map's `determine` and `getSchedule`.
 *
 * Decision outcomes are maps from decision names to value names
 * (`ESDecisionRandom.Combo`); the source ORs bit fields of
 * `ESDecisionValueMap`, which is not part of this model.
 */
module ESCaseManagement {
  import opened Wrappers
  import ESDecisionTree
  import ESDecisionRandom

  type Combo = ESDecisionRandom.Combo

  // ----- ESTreatmentSchedule -----

  /** `MedicateData`: a dose of a drug, its quantity and the quantity that is costed, its time in days and an IV duration. */
  datatype MedicateData = MedicateData(abbrev: string, qty: real, costQty: real, time: real, duration: Option<real>)

  /** A `medicate` element: drug, mg, hour and optional duration in hours. */
  datatype MedicateXml = MedicateXml(drug: string, mg: real, hour: real, duration: Option<real>)

  /** One medication read from its element: costed quantity equal to the quantity, hours converted to days. */
  function FromXml(x: MedicateXml): MedicateData
  {
    MedicateData(x.drug, x.mg, x.mg, x.hour / 24.0, if x.duration.Some? then Some(x.duration.value / 24.0) else None)
  }

  const IV_DURATION_MESSAGE := "duration of an IV dose must be some positive amount of time"

  /** An IV duration, when given, must be positive. */
  predicate DurationOk(x: MedicateXml)
  {
    x.duration.Some? ==> x.duration.value > 0.0
  }

  function NoEffectMessage(errObj: string, drug: string): string
  {
    errObj + ": no effect described for drug (ingredient) " + drug
  }

  /** The index of the first medication whose drug is not among `drugs`, or the length when there is none. */
  function FirstMissing(meds: seq<MedicateData>, drugs: set<string>): (r: nat)
    ensures r <= |meds|
    ensures forall j :: 0 <= j < r ==> meds[j].abbrev in drugs
    ensures r < |meds| ==> meds[r].abbrev !in drugs
  {
    if meds == [] || meds[0].abbrev !in drugs then 0 else 1 + FirstMissing(meds[1..], drugs)
  }

  /** An index before which every drug is found and at which one is missing, or the end, is `FirstMissing`. */
  lemma {:induction false} FirstMissingIs(meds: seq<MedicateData>, drugs: set<string>, i: nat)
    requires i <= |meds| && forall j :: 0 <= j < i ==> meds[j].abbrev in drugs
    requires i < |meds| ==> meds[i].abbrev !in drugs
    ensures FirstMissing(meds, drugs) == i
  {
    if i > 0 {
      FirstMissingIs(meds[1..], drugs, i - 1);
    }
  }

  /** A dose whose quantity is multiplied by f, and its costed quantity too when the effect affects cost. */
  function MultiplyOne(x: MedicateData, f: real, affectsCost: bool): MedicateData
  {
    x.(qty := x.qty * f, costQty := if affectsCost then x.costQty * f else x.costQty)
  }

  /** A dose delayed by h hours. */
  function DelayOne(x: MedicateData, h: real): MedicateData
  {
    x.(time := x.time + h / 24.0)
  }

  /** A dose given within the window [lo, hi) of hours. */
  predicate InWindow(x: MedicateData, w: (real, real))
  {
    w.0 <= x.time * 24.0 < w.1
  }

  /** A dose under a time window: kept inside it; outside, dropped when cost is affected, else given zero quantity. */
  function SelectOne(x: MedicateData, w: (real, real), affectsCost: bool): seq<MedicateData>
  {
    if InWindow(x, w) then [x] else if affectsCost then [] else [x.(qty := 0.0)]
  }

  /** The effect of one modifier value on a schedule. */
  datatype Op =
    | MultiplyOp(factors: map<string, real>, affectsCost: bool)
    | DelayOp(hours: map<string, real>)
    | SelectOp(windows: map<string, (real, real)>, affectsCost: bool)

  /** The drugs an effect describes. */
  function Drugs(op: Op): set<string>
  {
    match op
    case MultiplyOp(m, _) => m.Keys
    case DelayOp(m) => m.Keys
    case SelectOp(m, _) => m.Keys
  }

  /** The medications whose drugs are all described, under a time-window effect. */
  function Selected(meds: seq<MedicateData>, m: map<string, (real, real)>, affectsCost: bool): seq<MedicateData>
    requires forall j :: 0 <= j < |meds| ==> meds[j].abbrev in m
  {
    if meds == [] then []
    else
      var x := meds[|meds| - 1];
      Selected(meds[..|meds| - 1], m, affectsCost) + SelectOne(x, m[x.abbrev], affectsCost)
  }

  /**
   * A schedule under an effect, with the error raised: doses up to the first
   * one whose drug the effect does not describe are changed, the rest are
   * left as they were.
   */
  function ApplyOp(meds: seq<MedicateData>, op: Op, errObj: string): (seq<MedicateData>, Option<string>)
  {
    var k := FirstMissing(meds, Drugs(op));
    var err := if k < |meds| then Some(NoEffectMessage(errObj, meds[k].abbrev)) else None;
    match op
    case MultiplyOp(m, a) =>
      (seq(|meds|, j requires 0 <= j < |meds| => if j < k then MultiplyOne(meds[j], m[meds[j].abbrev], a) else meds[j]), err)
    case DelayOp(m) =>
      (seq(|meds|, j requires 0 <= j < |meds| => if j < k then DelayOne(meds[j], m[meds[j].abbrev]) else meds[j]), err)
    case SelectOp(m, a) =>
      (Selected(meds[..k], m, a) + meds[k..], err)
  }

  /** An effect raises exactly when some dose's drug is not described, naming the first such drug. */
  lemma ApplyOpFails(meds: seq<MedicateData>, op: Op, errObj: string)
    ensures ApplyOp(meds, op, errObj).1.None? <==> forall j :: 0 <= j < |meds| ==> meds[j].abbrev in Drugs(op)
    ensures ApplyOp(meds, op, errObj).1.Some? ==>
              exists k :: 0 <= k < |meds| && meds[k].abbrev !in Drugs(op) && (forall j :: 0 <= j < k ==> meds[j].abbrev in Drugs(op))
                && ApplyOp(meds, op, errObj).1.value == NoEffectMessage(errObj, meds[k].abbrev)
  {
    var k := FirstMissing(meds, Drugs(op));
    if k == |meds| {
      assert forall j :: 0 <= j < |meds| ==> meds[j].abbrev in Drugs(op);
    }
  }

  /**
   * `multiplyQty` without error: each dose's quantity is multiplied by its
   * drug's factor, the costed quantity only when cost is affected, and
   * nothing else changes.
   */
  lemma MultiplyMeaning(meds: seq<MedicateData>, m: map<string, real>, a: bool, errObj: string, j: nat)
    requires ApplyOp(meds, MultiplyOp(m, a), errObj).1.None? && j < |meds|
    ensures var r := ApplyOp(meds, MultiplyOp(m, a), errObj).0;
            && |r| == |meds| && meds[j].abbrev in m
            && r[j].qty == meds[j].qty * m[meds[j].abbrev]
            && r[j].costQty == (if a then meds[j].costQty * m[meds[j].abbrev] else meds[j].costQty)
            && r[j].abbrev == meds[j].abbrev && r[j].time == meds[j].time && r[j].duration == meds[j].duration
  {
  }

  /** Two quantity multipliers applied in turn act as their product. */
  lemma MultiplyComposes(x: MedicateData, f: real, g: real, a: bool)
    ensures MultiplyOne(MultiplyOne(x, f, a), g, a) == MultiplyOne(x, f * g, a)
  {
    assert x.qty * f * g == x.qty * (f * g);
    assert x.costQty * f * g == x.costQty * (f * g);
  }

  /** `delay` without error: each dose is given h/24 days later for its drug's h hours, and nothing else changes. */
  lemma DelayMeaning(meds: seq<MedicateData>, m: map<string, real>, errObj: string, j: nat)
    requires ApplyOp(meds, DelayOp(m), errObj).1.None? && j < |meds|
    ensures var r := ApplyOp(meds, DelayOp(m), errObj).0;
            && |r| == |meds| && meds[j].abbrev in m
            && r[j] == meds[j].(time := meds[j].time + m[meds[j].abbrev] / 24.0)
  {
  }

  /** Two delays applied in turn act as one delay by their sum. */
  lemma DelayComposes(x: MedicateData, h1: real, h2: real)
    ensures DelayOne(DelayOne(x, h1), h2) == DelayOne(x, h1 + h2)
  {
  }

  /** The window effect on a concatenation is the concatenation of the effects. */
  lemma {:induction false} SelectedAppend(a: seq<MedicateData>, b: seq<MedicateData>, m: map<string, (real, real)>, affectsCost: bool)
    requires forall j :: 0 <= j < |a| ==> a[j].abbrev in m
    requires forall j :: 0 <= j < |b| ==> b[j].abbrev in m
    ensures forall j :: 0 <= j < |a + b| ==> (a + b)[j].abbrev in m
    ensures Selected(a + b, m, affectsCost) == Selected(a, m, affectsCost) + Selected(b, m, affectsCost)
    decreases |b|
  {
    if b != [] {
      var b' := b[..|b| - 1];
      var x := b[|b| - 1];
      assert (a + b)[..|a + b| - 1] == a + b';
      SelectedAppend(a, b', m, affectsCost);
    } else {
      assert a + b == a;
    }
  }

  /** Every dose a window effect leaves is an input dose, or one given zero quantity; all keep their drug. */
  lemma {:induction false} SelectedDrugs(meds: seq<MedicateData>, m: map<string, (real, real)>, affectsCost: bool)
    requires forall j :: 0 <= j < |meds| ==> meds[j].abbrev in m
    ensures var r := Selected(meds, m, affectsCost);
            forall x :: x in r ==> x.abbrev in m && ((x in meds && InWindow(x, m[x.abbrev])) ||
                                                    (!affectsCost && x.qty == 0.0 && !InWindow(x, m[x.abbrev])))
    decreases |meds|
  {
    if meds != [] {
      SelectedDrugs(meds[..|meds| - 1], m, affectsCost);
      var r := Selected(meds, m, affectsCost);
      forall x | x in r
        ensures x.abbrev in m && ((x in meds && InWindow(x, m[x.abbrev])) ||
                                  (!affectsCost && x.qty == 0.0 && !InWindow(x, m[x.abbrev])))
      {
        var init := meds[..|meds| - 1];
        if x in Selected(init, m, affectsCost) {
          assert forall y :: y in init ==> y in meds;
        }
      }
    }
  }

  /** Every dose inside its window is kept by a window effect. */
  lemma {:induction false} SelectedKeepsInWindow(meds: seq<MedicateData>, m: map<string, (real, real)>, affectsCost: bool, x: MedicateData)
    requires forall j :: 0 <= j < |meds| ==> meds[j].abbrev in m
    requires x in meds && InWindow(x, m[x.abbrev])
    ensures x in Selected(meds, m, affectsCost)
    decreases |meds|
  {
    var init := meds[..|meds| - 1];
    assert meds == init + [meds[|meds| - 1]];
    if x != meds[|meds| - 1] {
      SelectedKeepsInWindow(init, m, affectsCost, x);
    }
  }

  /** When cost is not affected, every dose stays in place, those outside their windows with zero quantity. */
  lemma {:induction false} SelectedWithoutCost(meds: seq<MedicateData>, m: map<string, (real, real)>)
    requires forall j :: 0 <= j < |meds| ==> meds[j].abbrev in m
    ensures |Selected(meds, m, false)| == |meds|
    ensures forall j :: 0 <= j < |meds| ==>
              Selected(meds, m, false)[j] == if InWindow(meds[j], m[meds[j].abbrev]) then meds[j] else meds[j].(qty := 0.0)
    decreases |meds|
  {
    if meds != [] {
      SelectedWithoutCost(meds[..|meds| - 1], m);
    }
  }

  /** Applying the same window effect twice is the same as applying it once. */
  lemma {:induction false} SelectedIdempotent(meds: seq<MedicateData>, m: map<string, (real, real)>, affectsCost: bool)
    requires forall j :: 0 <= j < |meds| ==> meds[j].abbrev in m
    ensures var r := Selected(meds, m, affectsCost);
            (forall j :: 0 <= j < |r| ==> r[j].abbrev in m) && Selected(r, m, affectsCost) == r
    decreases |meds|
  {
    if meds != [] {
      var init := meds[..|meds| - 1];
      var x := meds[|meds| - 1];
      var r0 := Selected(init, m, affectsCost);
      var one := SelectOne(x, m[x.abbrev], affectsCost);
      SelectedIdempotent(init, m, affectsCost);
      SelectOneIdempotent(x, m, affectsCost);
      assert Selected(meds, m, affectsCost) == r0 + one;
      SelectedAppend(r0, one, m, affectsCost);
    }
  }

  /** A dose a window effect has handled is left as it is by the same effect. */
  lemma SelectOneIdempotent(x: MedicateData, m: map<string, (real, real)>, affectsCost: bool)
    requires x.abbrev in m
    ensures var one := SelectOne(x, m[x.abbrev], affectsCost);
            (forall j :: 0 <= j < |one| ==> one[j].abbrev in m) && Selected(one, m, affectsCost) == one
  {
    var one := SelectOne(x, m[x.abbrev], affectsCost);
    if one != [] {
      assert one[..0] == [];
      assert Selected(one, m, affectsCost) == Selected([], m, affectsCost) + SelectOne(one[0], m[one[0].abbrev], affectsCost);
    }
  }

  /** One more dose under a window effect. */
  lemma SelectStep(meds: seq<MedicateData>, k: nat, m: map<string, (real, real)>, affectsCost: bool)
    requires k < |meds| && forall j :: 0 <= j <= k ==> meds[j].abbrev in m
    ensures Selected(meds[..k + 1], m, affectsCost) == Selected(meds[..k], m, affectsCost) + SelectOne(meds[k], m[meds[k].abbrev], affectsCost)
  {
    assert meds[..k + 1][..k] == meds[..k];
  }

  /** The pieces of a schedule that is a processed prefix followed by the unprocessed doses from k on. */
  lemma SliceAround(done: seq<MedicateData>, meds: seq<MedicateData>, k: nat, cur: seq<MedicateData>)
    requires k < |meds| && cur == done + meds[k..]
    ensures |done| < |cur| && cur[|done|] == meds[k]
    ensures cur[..|done|] == done && cur[|done| + 1..] == meds[k + 1..]
  {
    assert meds[k..] == [meds[k]] + meds[k + 1..];
  }

  /** One step of `selectTimeRange`: dose k has been handled at the end of the processed prefix. */
  lemma SelectAdvance(done: seq<MedicateData>, meds: seq<MedicateData>, k: nat, m: map<string, (real, real)>,
                      affectsCost: bool, cur: seq<MedicateData>, next: seq<MedicateData>, moved: bool)
    requires k < |meds| && forall j :: 0 <= j <= k ==> meds[j].abbrev in m
    requires done == Selected(meds[..k], m, affectsCost) && cur == done + meds[k..]
    requires |done| < |cur|
    requires next == cur[..|done|] + SelectOne(cur[|done|], m[meds[k].abbrev], affectsCost) + cur[|done| + 1..]
    requires moved <==> SelectOne(cur[|done|], m[meds[k].abbrev], affectsCost) != []
    ensures var done' := done + SelectOne(meds[k], m[meds[k].abbrev], affectsCost);
            && done' == Selected(meds[..k + 1], m, affectsCost)
            && next == done' + meds[k + 1..]
            && |done'| == if moved then |done| + 1 else |done|
  {
    SliceAround(done, meds, k, cur);
    SelectStep(meds, k, m, affectsCost);
  }

  /** A window effect stopped at dose k, the first dose with no window (or the end). */
  lemma SelectStopsAt(meds: seq<MedicateData>, m: map<string, (real, real)>, affectsCost: bool, errObj: string, k: nat)
    requires k <= |meds| && forall j :: 0 <= j < k ==> meds[j].abbrev in m
    requires k < |meds| ==> meds[k].abbrev !in m
    ensures ApplyOp(meds, SelectOp(m, affectsCost), errObj)
            == (Selected(meds[..k], m, affectsCost) + meds[k..], if k < |meds| then Some(NoEffectMessage(errObj, meds[k].abbrev)) else None)
  {
    FirstMissingIs(meds, m.Keys, k);
  }

  /** `ESTreatmentSchedule`: a list of doses. */
  class TreatmentSchedule {
    var medications: seq<MedicateData>

    /** The copy constructor, used for each modified schedule. */
    constructor (medications: seq<MedicateData>)
      ensures this.medications == medications
    {
      this.medications := medications;
    }

    /** `multiplyQty`: each dose in turn, raising at the first whose drug has no factor. */
    method MultiplyQty(m: map<string, real>, affectsCost: bool, errObj: string) returns (err: Option<string>)
      modifies this
      ensures (medications, err) == ApplyOp(old(medications), MultiplyOp(m, affectsCost), errObj)
    {
      ghost var meds0 := medications;
      var i := 0;
      while i < |medications|
        invariant 0 <= i <= |meds0| && |medications| == |meds0|
        invariant forall j :: 0 <= j < i ==> meds0[j].abbrev in m
        invariant forall j :: 0 <= j < |meds0| ==>
                    medications[j] == if j < i then MultiplyOne(meds0[j], m[meds0[j].abbrev], affectsCost) else meds0[j]
      {
        var med := medications[i];
        if med.abbrev !in m {
          FirstMissingIs(meds0, m.Keys, i);
          assert medications == ApplyOp(meds0, MultiplyOp(m, affectsCost), errObj).0;
          return Some(NoEffectMessage(errObj, med.abbrev));
        }
        medications := medications[i := MultiplyOne(med, m[med.abbrev], affectsCost)];
        i := i + 1;
      }
      FirstMissingIs(meds0, m.Keys, i);
      assert medications == ApplyOp(meds0, MultiplyOp(m, affectsCost), errObj).0;
      err := None;
    }

    /** `delay`: each dose in turn is given later, raising at the first whose drug has no delay. */
    method Delay(m: map<string, real>, errObj: string) returns (err: Option<string>)
      modifies this
      ensures (medications, err) == ApplyOp(old(medications), DelayOp(m), errObj)
    {
      ghost var meds0 := medications;
      var i := 0;
      while i < |medications|
        invariant 0 <= i <= |meds0| && |medications| == |meds0|
        invariant forall j :: 0 <= j < i ==> meds0[j].abbrev in m
        invariant forall j :: 0 <= j < |meds0| ==>
                    medications[j] == if j < i then DelayOne(meds0[j], m[meds0[j].abbrev]) else meds0[j]
      {
        var med := medications[i];
        if med.abbrev !in m {
          FirstMissingIs(meds0, m.Keys, i);
          assert medications == ApplyOp(meds0, DelayOp(m), errObj).0;
          return Some(NoEffectMessage(errObj, med.abbrev));
        }
        medications := medications[i := DelayOne(med, m[med.abbrev])];
        i := i + 1;
      }
      FirstMissingIs(meds0, m.Keys, i);
      assert medications == ApplyOp(meds0, DelayOp(m), errObj).0;
      err := None;
    }

    /**
     * `selectTimeRange`: each dose in turn is kept, erased or given zero
     * quantity, raising at the first whose drug has no window.
     */
    method SelectTimeRange(m: map<string, (real, real)>, affectsCost: bool, errObj: string) returns (err: Option<string>)
      modifies this
      ensures (medications, err) == ApplyOp(old(medications), SelectOp(m, affectsCost), errObj)
    {
      ghost var meds0 := medications;
      var meds, i, k := SelectWhileDescribed(medications, m, affectsCost);
      medications := meds;
      if i < |medications| {
        SliceAround(Selected(meds0[..k], m, affectsCost), meds0, k, medications);
        SelectStopsAt(meds0, m, affectsCost, errObj, k);
        return Some(NoEffectMessage(errObj, medications[i].abbrev));
      }
      SelectStopsAt(meds0, m, affectsCost, errObj, k);
      assert meds0[k..] == [];
      err := None;
    }

    /**
     * The loop of `selectTimeRange` over the schedule's list: handles the
     * doses from the start up to the first whose drug has no window (dose
     * k of the input), leaving i at that dose.
     */
    static method SelectWhileDescribed(meds0: seq<MedicateData>, m: map<string, (real, real)>, affectsCost: bool)
      returns (meds: seq<MedicateData>, i: nat, ghost k: nat)
      ensures k <= |meds0| && forall j :: 0 <= j < k ==> meds0[j].abbrev in m
      ensures k < |meds0| ==> meds0[k].abbrev !in m
      ensures meds == Selected(meds0[..k], m, affectsCost) + meds0[k..]
      ensures i == |Selected(meds0[..k], m, affectsCost)|
    {
      meds := meds0;
      k := 0;
      ghost var done: seq<MedicateData> := [];
      i := 0;
      while i < |meds| && meds[i].abbrev in m
        invariant 0 <= k <= |meds0|
        invariant forall j :: 0 <= j < k ==> meds0[j].abbrev in m
        invariant done == Selected(meds0[..k], m, affectsCost)
        invariant meds == done + meds0[k..] && i == |done|
        decreases |meds0| - k
      {
        meds, i := SelectNext(meds, i, m, affectsCost, meds0, k, done);
        done := done + SelectOne(meds0[k], m[meds0[k].abbrev], affectsCost);
        k := k + 1;
      }
      if k < |meds0| {
        SliceAround(done, meds0, k, meds);
      }
    }

    /** The body of the loop of `selectTimeRange`: dose k of the input, at position i, is handled. */
    static method SelectNext(meds: seq<MedicateData>, i: nat, m: map<string, (real, real)>, affectsCost: bool,
                             ghost meds0: seq<MedicateData>, ghost k: nat, ghost done: seq<MedicateData>)
      returns (next: seq<MedicateData>, i': nat)
      requires k < |meds0| && forall j :: 0 <= j <= k ==> meds0[j].abbrev in m
      requires done == Selected(meds0[..k], m, affectsCost) && meds == done + meds0[k..] && i == |done|
      ensures var done' := done + SelectOne(meds0[k], m[meds0[k].abbrev], affectsCost);
              && done' == Selected(meds0[..k + 1], m, affectsCost)
              && next == done' + meds0[k + 1..] && i' == |done'|
    {
      SliceAround(done, meds0, k, meds);
      var moved;
      next, moved := SelectAt(meds, i, m[meds[i].abbrev], affectsCost);
      SelectAdvance(done, meds0, k, m, affectsCost, meds, next, moved);
      i' := if moved then i + 1 else i;
    }

    /** One step of `selectTimeRange` at dose i, in a window of hours; says whether the iterator moves past it. */
    static method SelectAt(meds: seq<MedicateData>, i: nat, w: (real, real), affectsCost: bool)
      returns (next: seq<MedicateData>, moved: bool)
      requires i < |meds|
      ensures next == meds[..i] + SelectOne(meds[i], w, affectsCost) + meds[i + 1..]
      ensures moved <==> SelectOne(meds[i], w, affectsCost) != []
    {
      var med := meds[i];
      var timeH := med.time * 24.0;
      if w.0 <= timeH && timeH < w.1 {
        assert meds == meds[..i] + [med] + meds[i + 1..];
        next, moved := meds, true;
      } else if affectsCost {
        next, moved := meds[..i] + meds[i + 1..], false;
      } else {
        next, moved := meds[i := med.(qty := 0.0)], true;
      }
    }

    /** The modification one effect asks for. */
    method Apply(op: Op, errObj: string) returns (err: Option<string>)
      modifies this
      ensures (medications, err) == ApplyOp(old(medications), op, errObj)
    {
      match op
      case MultiplyOp(m, a) => err := MultiplyQty(m, a, errObj);
      case DelayOp(m) => err := Delay(m, errObj);
      case SelectOp(m, a) => err := SelectTimeRange(m, a, errObj);
    }
  }

  /** A schedule read from its `medicate` elements, or the error for a non-positive IV duration. */
  function ReadSchedule(xml: seq<MedicateXml>): Result<seq<MedicateData>>
  {
    if forall j :: 0 <= j < |xml| ==> DurationOk(xml[j]) then Ok(seq(|xml|, j requires 0 <= j < |xml| => FromXml(xml[j])))
    else Err(IV_DURATION_MESSAGE)
  }

  /** The `ESTreatmentSchedule` constructor from `medicate` elements. */
  method NewTreatmentSchedule(xml: seq<MedicateXml>) returns (r: Result<TreatmentSchedule>)
    ensures r.Err? <==> ReadSchedule(xml).Err?
    ensures r.Err? ==> r.msg == IV_DURATION_MESSAGE
    ensures r.Ok? ==> fresh(r.value) && r.value.medications == ReadSchedule(xml).value
  {
    var meds := seq(|xml|, j requires 0 <= j < |xml| => MedicateData("", 0.0, 0.0, 0.0, None));
    var j := 0;
    while j < |xml|
      invariant 0 <= j <= |xml| && |meds| == |xml|
      invariant forall i :: 0 <= i < j ==> DurationOk(xml[i]) && meds[i] == FromXml(xml[i])
    {
      var x := xml[j];
      var d: Option<real> := None;
      if x.duration.Some? {
        if !(x.duration.value > 0.0) {
          return Err(IV_DURATION_MESSAGE);
        }
        d := Some(x.duration.value / 24.0);
      }
      meds := meds[j := MedicateData(x.drug, x.mg, x.mg, x.hour / 24.0, d)];
      j := j + 1;
    }
    var ts := new TreatmentSchedule(meds);
    r := Ok(ts);
  }

  /** Every dose read keeps its drug and quantity, costs that quantity, and is timed in days. */
  lemma ReadScheduleMeaning(xml: seq<MedicateXml>, j: nat)
    requires ReadSchedule(xml).Ok? && j < |xml|
    ensures var meds := ReadSchedule(xml).value;
            && |meds| == |xml| && meds[j].abbrev == xml[j].drug
            && meds[j].qty == meds[j].costQty == xml[j].mg && meds[j].time * 24.0 == xml[j].hour
            && (meds[j].duration.Some? <==> xml[j].duration.Some?)
            && (meds[j].duration.Some? ==> meds[j].duration.value > 0.0)
  {
    assert DurationOk(xml[j]);
  }

  // ----- ESTreatment -----

  /** `HSESTreatmentModifierEffect`: the decision value it is for, its effect map (already parsed) and the optional `affectsCost`. */
  datatype EffectXml<T> = EffectXml(value: string, effect: map<string, T>, affectsCost: Option<bool>)

  /** `HSESTreatmentModifier`: a decision and its lists of quantity, delay and time-window effects. */
  datatype ModifierXml = ModifierXml(decision: string, multiplyQty: seq<EffectXml<real>>,
                                     delay: seq<EffectXml<real>>, selectTimeRange: seq<EffectXml<(real, real)>>)

  /** `HSESTreatment`: a named schedule and its modifiers. */
  datatype TreatmentXml = TreatmentXml(name: string, schedule: seq<MedicateXml>, modifiers: seq<ModifierXml>)

  predicate Selects(mod: ModifierXml)
  {
    |mod.selectTimeRange| > 0
  }

  /** The modifier list built by `push_front` for select-time-range modifiers and `push_back` for the others. */
  function Reordered(mods: seq<ModifierXml>): seq<ModifierXml>
  {
    if mods == [] then []
    else if Selects(mods[|mods| - 1]) then [mods[|mods| - 1]] + Reordered(mods[..|mods| - 1])
    else Reordered(mods[..|mods| - 1]) + [mods[|mods| - 1]]
  }

  function Reverse(s: seq<ModifierXml>): seq<ModifierXml>
  {
    if s == [] then [] else [s[|s| - 1]] + Reverse(s[..|s| - 1])
  }

  /** The select-time-range modifiers, in document order. */
  function SelectingMods(mods: seq<ModifierXml>): seq<ModifierXml>
  {
    if mods == [] then []
    else SelectingMods(mods[..|mods| - 1]) + (if Selects(mods[|mods| - 1]) then [mods[|mods| - 1]] else [])
  }

  /** The other modifiers, in document order. */
  function OtherMods(mods: seq<ModifierXml>): seq<ModifierXml>
  {
    if mods == [] then []
    else OtherMods(mods[..|mods| - 1]) + (if Selects(mods[|mods| - 1]) then [] else [mods[|mods| - 1]])
  }

  /** The reordered list is the select-time-range modifiers in reverse document order, then the others in document order. */
  lemma {:induction false} ReorderedMeaning(mods: seq<ModifierXml>)
    ensures Reordered(mods) == Reverse(SelectingMods(mods)) + OtherMods(mods)
  {
    if mods != [] {
      ReorderedMeaning(mods[..|mods| - 1]);
      if Selects(mods[|mods| - 1]) {
        ReorderedSelectingStep(mods);
      } else {
        ReorderedOtherStep(mods);
      }
    }
  }

  /** The step of ReorderedMeaning for a last modifier that selects a time range. */
  lemma ReorderedSelectingStep(mods: seq<ModifierXml>)
    requires mods != [] && Selects(mods[|mods| - 1])
    requires var init := mods[..|mods| - 1];
             Reordered(init) == Reverse(SelectingMods(init)) + OtherMods(init)
    ensures Reordered(mods) == Reverse(SelectingMods(mods)) + OtherMods(mods)
  {
    var init, x := mods[..|mods| - 1], mods[|mods| - 1];
    var sel, other := SelectingMods(init), OtherMods(init);
    assert SelectingMods(mods) == sel + [x];
    assert OtherMods(mods) == other + [] == other;
    assert (sel + [x])[..|sel|] == sel;
    assert Reverse(sel + [x]) == [x] + Reverse(sel);
    assert Reordered(mods) == [x] + Reordered(init);
    assert [x] + (Reverse(sel) + other) == ([x] + Reverse(sel)) + other;
  }

  /** The step of ReorderedMeaning for a last modifier of another kind. */
  lemma ReorderedOtherStep(mods: seq<ModifierXml>)
    requires mods != [] && !Selects(mods[|mods| - 1])
    requires var init := mods[..|mods| - 1];
             Reordered(init) == Reverse(SelectingMods(init)) + OtherMods(init)
    ensures Reordered(mods) == Reverse(SelectingMods(mods)) + OtherMods(mods)
  {
    var init, x := mods[..|mods| - 1], mods[|mods| - 1];
    var sel, other := SelectingMods(init), OtherMods(init);
    assert SelectingMods(mods) == sel + [] == sel;
    assert OtherMods(mods) == other + [x];
    assert Reordered(mods) == Reordered(init) + [x];
    assert (Reverse(sel) + other) + [x] == Reverse(sel) + (other + [x]);
  }

  lemma {:induction false} SelectingSelect(mods: seq<ModifierXml>)
    ensures forall m :: m in SelectingMods(mods) ==> Selects(m)
  {
    if mods != [] {
      SelectingSelect(mods[..|mods| - 1]);
    }
  }

  lemma {:induction false} OthersDoNot(mods: seq<ModifierXml>)
    ensures forall m :: m in OtherMods(mods) ==> !Selects(m)
  {
    if mods != [] {
      OthersDoNot(mods[..|mods| - 1]);
    }
  }

  lemma {:induction false} SplitKeeps(mods: seq<ModifierXml>)
    ensures multiset(SelectingMods(mods)) + multiset(OtherMods(mods)) == multiset(mods)
  {
    if mods != [] {
      var init, x := mods[..|mods| - 1], mods[|mods| - 1];
      SplitKeeps(init);
      assert mods == init + [x];
      assert multiset(mods) == multiset(init) + multiset{x};
    }
  }

  lemma {:induction false} ReverseKeeps(s: seq<ModifierXml>)
    ensures multiset(Reverse(s)) == multiset(s)
  {
    if s != [] {
      ReverseKeeps(s[..|s| - 1]);
      assert s == s[..|s| - 1] + [s[|s| - 1]];
    }
  }

  /** Reordering loses and adds no modifier. */
  lemma ReorderedKeeps(mods: seq<ModifierXml>)
    ensures multiset(Reordered(mods)) == multiset(mods)
  {
    ReorderedMeaning(mods);
    SplitKeeps(mods);
    ReverseKeeps(SelectingMods(mods));
  }

  /** No select-time-range modifier comes after one of another kind. */
  lemma ReorderedSelectsFirst(mods: seq<ModifierXml>)
    ensures forall i, j :: 0 <= i < j < |Reordered(mods)| && Selects(Reordered(mods)[j]) ==> Selects(Reordered(mods)[i])
  {
    ReorderedMeaning(mods);
    var sel, oth := Reverse(SelectingMods(mods)), OtherMods(mods);
    var r := Reordered(mods);
    assert r == sel + oth;
    ReversedSelect(mods);
    OthersDoNot(mods);
    assert forall i :: 0 <= i < |sel| ==> r[i] == sel[i];
    assert forall j :: |sel| <= j < |r| ==> r[j] == oth[j - |sel|];
  }

  /** Every modifier of the reversed select-time-range list selects. */
  lemma ReversedSelect(mods: seq<ModifierXml>)
    ensures forall i :: 0 <= i < |Reverse(SelectingMods(mods))| ==> Selects(Reverse(SelectingMods(mods))[i])
  {
    var sel := Reverse(SelectingMods(mods));
    SelectingSelect(mods);
    ReverseKeeps(SelectingMods(mods));
    forall i | 0 <= i < |sel| ensures Selects(sel[i]) {
      assert sel[i] in multiset(sel);
      assert sel[i] in multiset(SelectingMods(mods));
    }
  }

  /** `modFormatErrMsg`: the object named in a modifier effect's errors. */
  function ModErrObj(elt: string, dec: string, value: string): string
  {
    "treatment \"" + elt + "\" modifier for decision value " + dec + "(" + value + ")"
  }

  /** `modGetESDecVal`: an effect's value is taken out of the values not yet described; one not among them raises. */
  function TakeValue(decVals: set<string>, value: string, errObj: string): (r: Result<set<string>>)
    ensures r.Ok? <==> value in decVals
    ensures r.Ok? ==> value !in r.value && r.value + {value} == decVals
    ensures r.Err? ==> r.msg == errObj + ": value doesn't exist"
  {
    if value in decVals then Ok(decVals - {value}) else Err(errObj + ": value doesn't exist")
  }

  function NoSubElementsMessage(elt: string, dec: string): string
  {
    "treatment \"" + elt + "\" modifier for decision " + dec + " has no sub-elements"
  }

  function LeftoverMessage(elt: string, dec: string, listing: string): string
  {
    "modifier for treatment \"" + elt + "\" by decision " + dec + ": effect not described for values:" + listing
  }

  /** The names of `left`, in the order of `values`, each after a space. */
  function Listing(values: seq<string>, left: set<string>): string
  {
    if values == [] then "" else (if values[0] in left then " " + values[0] else "") + Listing(values[1..], left)
  }

  /**
   * The raise of `ESDecisionValueMap::getDecision` for a decision it does not
   * know. Its code is not part of this model: the text is a placeholder, and
   * only that an error is raised is modelled.
   */
  function UnknownDecisionMessage(dec: string): string
  {
    "ESDecisionValueMap: unknown decision " + dec
  }

  function AffectsCost(o: Option<bool>): bool
  {
    if o.Some? then o.value else true
  }

  /**
   * The effects of a modifier's first non-empty list, as value and
   * operation (`affectsCost` defaults to true); a modifier with no effects
   * raises.
   */
  function ModifierEffects(elt: string, mod: ModifierXml): (r: Result<seq<(string, Op)>>)
    ensures r.Err? <==> mod.multiplyQty == [] && mod.delay == [] && mod.selectTimeRange == []
    ensures r.Err? ==> r.msg == NoSubElementsMessage(elt, mod.decision)
    ensures r.Ok? && mod.multiplyQty != [] ==> |r.value| == |mod.multiplyQty|
    ensures r.Ok? && mod.multiplyQty != [] ==>
              forall i :: 0 <= i < |r.value| ==>
                r.value[i] == (mod.multiplyQty[i].value, MultiplyOp(mod.multiplyQty[i].effect, AffectsCost(mod.multiplyQty[i].affectsCost)))
    ensures r.Ok? && mod.multiplyQty == [] && mod.delay != [] ==> |r.value| == |mod.delay|
    ensures r.Ok? && mod.multiplyQty == [] && mod.delay != [] ==>
              forall i :: 0 <= i < |r.value| ==> r.value[i] == (mod.delay[i].value, DelayOp(mod.delay[i].effect))
    ensures r.Ok? && mod.multiplyQty == [] && mod.delay == [] ==> |r.value| == |mod.selectTimeRange|
    ensures r.Ok? && mod.multiplyQty == [] && mod.delay == [] ==>
              forall i :: 0 <= i < |r.value| ==>
                r.value[i] == (mod.selectTimeRange[i].value, SelectOp(mod.selectTimeRange[i].effect, AffectsCost(mod.selectTimeRange[i].affectsCost)))
  {
    var q, d, t := mod.multiplyQty, mod.delay, mod.selectTimeRange;
    if |q| > 0 then Ok(seq(|q|, i requires 0 <= i < |q| => (q[i].value, MultiplyOp(q[i].effect, AffectsCost(q[i].affectsCost)))))
    else if |d| > 0 then Ok(seq(|d|, i requires 0 <= i < |d| => (d[i].value, DelayOp(d[i].effect))))
    else if |t| > 0 then Ok(seq(|t|, i requires 0 <= i < |t| => (t[i].value, SelectOp(t[i].effect, AffectsCost(t[i].affectsCost)))))
    else Err(NoSubElementsMessage(elt, mod.decision))
  }

  /** `ESTreatment::schedules`: each schedule under the outcome of the modifier decisions it is for. */
  type Schedules = seq<(Combo, seq<MedicateData>)>

  function Keys(sch: Schedules): set<Combo>
  {
    set i | 0 <= i < |sch| :: sch[i].0
  }

  function ValueSet(values: seq<string>): set<string>
  {
    set v | v in values
  }

  /** The values named by a list of effects. */
  function Values(effects: seq<(string, Op)>): set<string>
  {
    set i | 0 <= i < |effects| :: effects[i].0
  }

  /** `ptr_unordered_map::insert`: a key already present keeps its schedule. */
  function Insert(sch: Schedules, key: Combo, meds: seq<MedicateData>): (r: Schedules)
  {
    if key in Keys(sch) then sch else sch + [(key, meds)]
  }

  /** `find`: the schedule stored under a key. */
  function Lookup(sch: Schedules, key: Combo): Option<seq<MedicateData>>
  {
    if sch == [] then None else if sch[0].0 == key then Some(sch[0].1) else Lookup(sch[1..], key)
  }

  lemma KeysCons(sch: Schedules)
    requires sch != []
    ensures Keys(sch) == {sch[0].0} + Keys(sch[1..])
  {
    forall c | c in Keys(sch)
      ensures c in {sch[0].0} + Keys(sch[1..])
    {
      var i :| 0 <= i < |sch| && sch[i].0 == c;
      if i > 0 {
        assert sch[1..][i - 1].0 == c;
      }
    }
    forall c | c in Keys(sch[1..])
      ensures c in Keys(sch)
    {
      var i :| 0 <= i < |sch[1..]| && sch[1..][i].0 == c;
      assert sch[i + 1].0 == c;
    }
  }

  lemma ValuesCons(effects: seq<(string, Op)>)
    requires effects != []
    ensures Values(effects) == {effects[0].0} + Values(effects[1..])
  {
    forall v | v in Values(effects)
      ensures v in {effects[0].0} + Values(effects[1..])
    {
      var i :| 0 <= i < |effects| && effects[i].0 == v;
      if i > 0 {
        assert effects[1..][i - 1].0 == v;
      }
    }
    forall v | v in Values(effects[1..])
      ensures v in Values(effects)
    {
      var i :| 0 <= i < |effects[1..]| && effects[1..][i].0 == v;
      assert effects[i + 1].0 == v;
    }
  }

  /** Inserting adds its key, whether or not it was already there. */
  lemma InsertKeys(sch: Schedules, key: Combo, meds: seq<MedicateData>)
    ensures Keys(Insert(sch, key, meds)) == Keys(sch) + {key}
  {
    if key !in Keys(sch) {
      var r := sch + [(key, meds)];
      assert r[|sch|].0 == key;
      forall c | c in Keys(r)
        ensures c in Keys(sch) + {key}
      {
        var i :| 0 <= i < |r| && r[i].0 == c;
        if i < |sch| {
          assert sch[i].0 == c;
        }
      }
      forall c | c in Keys(sch)
        ensures c in Keys(r)
      {
        var i :| 0 <= i < |sch| && sch[i].0 == c;
        assert r[i].0 == c;
      }
    }
  }

  /** A lookup finds a schedule exactly for the keys present. */
  lemma {:induction false} LookupFound(sch: Schedules, key: Combo)
    ensures Lookup(sch, key).Some? <==> key in Keys(sch)
  {
    if sch != [] {
      KeysCons(sch);
      LookupFound(sch[1..], key);
    }
  }

  /** The keys of the start schedules with decision d set to v. */
  function Moved(start: set<Combo>, d: string, v: string): set<Combo>
  {
    set s | s in start :: s[d := v]
  }

  /** The keys of the start schedules with decision d set to each of the values. */
  function Spreads(start: set<Combo>, d: string, values: set<string>): set<Combo>
  {
    set s, v | s in start && v in values :: s[d := v]
  }

  /**
   * The inner loop for one effect: a modified copy of each start schedule is
   * inserted under its key with decision d set to the effect's value; the
   * first copy that fails raises.
   */
  function Spread(start: Schedules, d: string, value: string, op: Op, errObj: string, acc: Schedules): Result<Schedules>
    decreases |start|
  {
    if start == [] then Ok(acc)
    else
      var res := ApplyOp(start[0].1, op, errObj);
      if res.1.Some? then Err(res.1.value)
      else Spread(start[1..], d, value, op, errObj, Insert(acc, start[0].0[d := value], res.0))
  }

  /**
   * The loop over one modifier's effects: each takes its value out of the
   * values left and is spread over the start schedules; it returns the new
   * schedules and the values not described.
   */
  function ApplyEffects(start: Schedules, elt: string, d: string, effects: seq<(string, Op)>, decVals: set<string>, acc: Schedules)
    : Result<(Schedules, set<string>)>
    decreases |effects|
  {
    if effects == [] then Ok((acc, decVals))
    else
      var errObj := ModErrObj(elt, d, effects[0].0);
      match TakeValue(decVals, effects[0].0, errObj)
      case Err(e) => Err(e)
      case Ok(rest) =>
        match Spread(start, d, effects[0].0, effects[0].1, errObj, acc)
        case Err(e) => Err(e)
        case Ok(acc2) => ApplyEffects(start, elt, d, effects[1..], rest, acc2)
  }

  /**
   * One iteration of the `ESTreatment` constructor's modifier loop: the
   * decision is looked up, its effects are applied, and any value of the
   * decision left undescribed raises.
   */
  function ApplyModifier(sch: Schedules, elt: string, mod: ModifierXml, dvm: map<string, seq<string>>): Result<Schedules>
  {
    if mod.decision !in dvm then Err(UnknownDecisionMessage(mod.decision))
    else
      match ModifierEffects(elt, mod)
      case Err(e) => Err(e)
      case Ok(effects) =>
        match ApplyEffects(sch, elt, mod.decision, effects, ValueSet(dvm[mod.decision]), [])
        case Err(e) => Err(e)
        case Ok(res) =>
          if res.1 != {} then Err(LeftoverMessage(elt, mod.decision, Listing(dvm[mod.decision], res.1)))
          else Ok(res.0)
  }

  /** The modifier loop, adding each modifier's decision to the mask. */
  function ApplyModifiers(sch: Schedules, mask: set<string>, mods: seq<ModifierXml>, dvm: map<string, seq<string>>, elt: string)
    : Result<(Schedules, set<string>)>
    decreases |mods|
  {
    if mods == [] then Ok((sch, mask))
    else
      match ApplyModifier(sch, elt, mods[0], dvm)
      case Err(e) => Err(e)
      case Ok(sch2) => ApplyModifiers(sch2, mask + {mods[0].decision}, mods[1..], dvm, elt)
  }

  lemma ApplyModifiersStep(sch: Schedules, mask: set<string>, mods: seq<ModifierXml>, dvm: map<string, seq<string>>, elt: string)
    requires mods != []
    ensures ApplyModifier(sch, elt, mods[0], dvm).Err? ==>
              ApplyModifiers(sch, mask, mods, dvm, elt) == Err(ApplyModifier(sch, elt, mods[0], dvm).msg)
    ensures ApplyModifier(sch, elt, mods[0], dvm).Ok? ==>
              ApplyModifiers(sch, mask, mods, dvm, elt)
              == ApplyModifiers(ApplyModifier(sch, elt, mods[0], dvm).value, mask + {mods[0].decision}, mods[1..], dvm, elt)
  {
  }

  /** The `ESTreatment` constructor: the schedules and the mask, or the first error. */
  function TreatmentFrom(dvm: map<string, seq<string>>, elt: TreatmentXml): Result<(Schedules, set<string>)>
  {
    match ReadSchedule(elt.schedule)
    case Err(e) => Err(e)
    case Ok(meds) => ApplyModifiers([(map[], meds)], {}, Reordered(elt.modifiers), dvm, elt.name)
  }

  function DecisionNames(mods: seq<ModifierXml>): seq<string>
  {
    seq(|mods|, i requires 0 <= i < |mods| => mods[i].decision)
  }

  /** `outcome & schedulesMask`: the outcome of the masked decisions only. */
  function Restrict(outcome: Combo, mask: set<string>): Combo
  {
    map d | d in outcome && d in mask :: outcome[d]
  }

  /** An outcome of exactly the decisions in p, each with one of its values. */
  predicate Fits(c: Combo, p: set<string>, dvm: map<string, seq<string>>)
  {
    c.Keys == p && forall d :: d in p ==> d in dvm && c[d] in dvm[d]
  }

  /** All outcomes over the decisions, in turn, with each of their values. */
  function Grid(start: set<Combo>, decs: seq<string>, dvm: map<string, seq<string>>): set<Combo>
    requires forall d :: d in decs ==> d in dvm
    decreases |decs|
  {
    if decs == [] then start else Grid(Spreads(start, decs[0], ValueSet(dvm[decs[0]])), decs[1..], dvm)
  }

  /** An effect spread without error changes no key but adds every start key with the value set. */
  lemma {:induction false} SpreadKeys(start: Schedules, d: string, value: string, op: Op, errObj: string, acc: Schedules)
    requires Spread(start, d, value, op, errObj, acc).Ok?
    ensures Keys(Spread(start, d, value, op, errObj, acc).value) == Keys(acc) + Moved(Keys(start), d, value)
  {
    if start != [] {
      var res := ApplyOp(start[0].1, op, errObj);
      var acc2 := Insert(acc, start[0].0[d := value], res.0);
      InsertKeys(acc, start[0].0[d := value], res.0);
      SpreadKeys(start[1..], d, value, op, errObj, acc2);
      KeysCons(start);
      assert Moved(Keys(start), d, value) == {start[0].0[d := value]} + Moved(Keys(start[1..]), d, value);
    }
  }

  /** An effect raises exactly when the modification fails on one of the start schedules. */
  lemma {:induction false} SpreadFails(start: Schedules, d: string, value: string, op: Op, errObj: string, acc: Schedules)
    ensures Spread(start, d, value, op, errObj, acc).Err? <==> exists i :: 0 <= i < |start| && ApplyOp(start[i].1, op, errObj).1.Some?
  {
    if start != [] {
      var res := ApplyOp(start[0].1, op, errObj);
      SpreadFails(start[1..], d, value, op, errObj, Insert(acc, start[0].0[d := value], res.0));
      SomeFailsCons(start, op, errObj);
    }
  }

  /** Some schedule of a nonempty list fails exactly when the first or one of the rest does. */
  lemma SomeFailsCons(start: Schedules, op: Op, errObj: string)
    requires start != []
    ensures (exists i :: 0 <= i < |start| && ApplyOp(start[i].1, op, errObj).1.Some?) <==>
            ApplyOp(start[0].1, op, errObj).1.Some? || exists i :: 0 <= i < |start[1..]| && ApplyOp(start[1..][i].1, op, errObj).1.Some?
  {
    if exists i :: 0 <= i < |start| && ApplyOp(start[i].1, op, errObj).1.Some? {
      var i :| 0 <= i < |start| && ApplyOp(start[i].1, op, errObj).1.Some?;
      if i > 0 {
        assert start[1..][i - 1] == start[i];
      }
    }
    if exists i :: 0 <= i < |start[1..]| && ApplyOp(start[1..][i].1, op, errObj).1.Some? {
      var i :| 0 <= i < |start[1..]| && ApplyOp(start[1..][i].1, op, errObj).1.Some?;
      assert start[i + 1] == start[1..][i];
    }
  }

  /**
   * Effects applied without error each name a value still left, no value
   * twice, and the values left at the end are those none of them named.
   */
  lemma {:induction false} EffectsNames(start: Schedules, elt: string, d: string, effects: seq<(string, Op)>, decVals: set<string>, acc: Schedules)
    requires ApplyEffects(start, elt, d, effects, decVals, acc).Ok?
    ensures forall i :: 0 <= i < |effects| ==> effects[i].0 in decVals
    ensures forall i, j :: 0 <= i < j < |effects| ==> effects[i].0 != effects[j].0
    ensures ApplyEffects(start, elt, d, effects, decVals, acc).value.1 == decVals - Values(effects)
  {
    if effects != [] {
      var v := effects[0].0;
      var errObj := ModErrObj(elt, d, v);
      var rest := TakeValue(decVals, v, errObj).value;
      var acc2 := Spread(start, d, v, effects[0].1, errObj, acc).value;
      var tail := effects[1..];
      EffectsNames(start, elt, d, tail, rest, acc2);
      ValuesCons(effects);
      assert forall i :: 0 < i < |effects| ==> effects[i] == tail[i - 1];
    }
  }

  /** Effects applied without error add every start key with each of their values. */
  lemma {:induction false} EffectsKeys(start: Schedules, elt: string, d: string, effects: seq<(string, Op)>, decVals: set<string>, acc: Schedules)
    requires ApplyEffects(start, elt, d, effects, decVals, acc).Ok?
    ensures Keys(ApplyEffects(start, elt, d, effects, decVals, acc).value.0) == Keys(acc) + Spreads(Keys(start), d, Values(effects))
  {
    if effects == [] {
      assert Spreads(Keys(start), d, Values(effects)) == {};
    } else {
      var v := effects[0].0;
      var errObj := ModErrObj(elt, d, v);
      var rest := TakeValue(decVals, v, errObj).value;
      var acc2 := Spread(start, d, v, effects[0].1, errObj, acc).value;
      SpreadKeys(start, d, v, effects[0].1, errObj, acc);
      EffectsKeys(start, elt, d, effects[1..], rest, acc2);
      ValuesCons(effects);
      assert Spreads(Keys(start), d, Values(effects)) == Moved(Keys(start), d, v) + Spreads(Keys(start), d, Values(effects[1..]));
    }
  }

  /**
   * A modifier applied without error names a known decision, describes each
   * of its values exactly once, and leaves a schedule for every old key with
   * the decision set to each of its values, and no other.
   */
  lemma ApplyModifierMeaning(sch: Schedules, elt: string, mod: ModifierXml, dvm: map<string, seq<string>>)
    requires ApplyModifier(sch, elt, mod, dvm).Ok?
    ensures mod.decision in dvm && ModifierEffects(elt, mod).Ok?
    ensures var effects := ModifierEffects(elt, mod).value;
            && (forall i, j :: 0 <= i < j < |effects| ==> effects[i].0 != effects[j].0)
            && Values(effects) == ValueSet(dvm[mod.decision])
    ensures Keys(ApplyModifier(sch, elt, mod, dvm).value) == Spreads(Keys(sch), mod.decision, ValueSet(dvm[mod.decision]))
  {
    var effects := ModifierEffects(elt, mod).value;
    var vals := ValueSet(dvm[mod.decision]);
    EffectsNames(sch, elt, mod.decision, effects, vals, []);
    EffectsKeys(sch, elt, mod.decision, effects, vals, []);
    assert Keys([]) == {};
    assert Values(effects) <= vals;
  }

  /** The modifier loop without error: every decision is known, the keys are the grid over them and the mask is their set. */
  lemma {:induction false} ApplyModifiersKeys(sch: Schedules, mask: set<string>, mods: seq<ModifierXml>, dvm: map<string, seq<string>>, elt: string)
    decreases |mods|
    requires ApplyModifiers(sch, mask, mods, dvm, elt).Ok?
    ensures forall d :: d in DecisionNames(mods) ==> d in dvm
    ensures Keys(ApplyModifiers(sch, mask, mods, dvm, elt).value.0) == Grid(Keys(sch), DecisionNames(mods), dvm)
    ensures ApplyModifiers(sch, mask, mods, dvm, elt).value.1 == mask + ValueSet(DecisionNames(mods))
  {
    if mods != [] {
      var sch2 := ApplyModifier(sch, elt, mods[0], dvm).value;
      ApplyModifierMeaning(sch, elt, mods[0], dvm);
      ApplyModifiersKeys(sch2, mask + {mods[0].decision}, mods[1..], dvm, elt);
      assert DecisionNames(mods) == [mods[0].decision] + DecisionNames(mods[1..]);
    }
  }

  /** Spreading the outcomes over p by each value of d gives the outcomes over p and d. */
  lemma SpreadsFit(start: set<Combo>, p: set<string>, d: string, dvm: map<string, seq<string>>)
    requires d in dvm
    requires forall c :: c in start <==> Fits(c, p, dvm)
    ensures forall c :: c in Spreads(start, d, ValueSet(dvm[d])) <==> Fits(c, p + {d}, dvm)
  {
    forall c | Fits(c, p + {d}, dvm)
      ensures c in Spreads(start, d, ValueSet(dvm[d]))
    {
      var s := Restrict(c, p);
      assert Fits(s, p, dvm);
      assert s in start && c[d] in ValueSet(dvm[d]);
      assert s[d := c[d]] == c;
    }
  }

  /** The grid over a list of decisions holds exactly the outcomes over them with one of their values each. */
  lemma {:induction false} GridFits(start: set<Combo>, p: set<string>, decs: seq<string>, dvm: map<string, seq<string>>)
    decreases |decs|
    requires forall d :: d in decs ==> d in dvm
    requires forall c :: c in start <==> Fits(c, p, dvm)
    ensures forall c :: c in Grid(start, decs, dvm) <==> Fits(c, p + ValueSet(decs), dvm)
  {
    if decs != [] {
      SpreadsFit(start, p, decs[0], dvm);
      GridFits(Spreads(start, decs[0], ValueSet(dvm[decs[0]])), p + {decs[0]}, decs[1..], dvm);
      assert ValueSet(decs) == {decs[0]} + ValueSet(decs[1..]);
    }
  }

  /**
   * `ESTreatment::getSchedule` on a treatment built without error finds a
   * schedule exactly when the outcome gives every decision of the mask one
   * of that decision's values.
   */
  lemma TreatmentFinds(dvm: map<string, seq<string>>, elt: TreatmentXml, outcome: Combo)
    requires TreatmentFrom(dvm, elt).Ok?
    ensures forall d :: d in TreatmentFrom(dvm, elt).value.1 ==> d in dvm
    ensures var t := TreatmentFrom(dvm, elt).value;
            Lookup(t.0, Restrict(outcome, t.1)).Some? <==> forall d :: d in t.1 ==> d in outcome && outcome[d] in dvm[d]
  {
    var meds := ReadSchedule(elt.schedule).value;
    var t := TreatmentFrom(dvm, elt).value;
    var start: Schedules := [(map[], meds)];
    var names := DecisionNames(Reordered(elt.modifiers));
    ApplyModifiersKeys(start, {}, Reordered(elt.modifiers), dvm, elt.name);
    StartFits(meds, dvm);
    GridFits(Keys(start), {}, names, dvm);
    LookupFound(t.0, Restrict(outcome, t.1));
    assert t.1 == {} + ValueSet(names);
  }

  /** The start schedules have the one key that fits no decision. */
  lemma StartFits(meds: seq<MedicateData>, dvm: map<string, seq<string>>)
    ensures forall c :: c in Keys([(map[], meds)]) <==> Fits(c, {}, dvm)
  {
    var start: Schedules := [(map[], meds)];
    assert start[0].0 in Keys(start);
    assert forall c :: c in Keys(start) ==> c == map[];
    assert Keys(start) == {map[]};
    forall c
      ensures c in Keys(start) <==> Fits(c, {}, dvm)
    {
      if Fits(c, {}, dvm) {
        assert c == map[];
      }
    }
  }

  /** `ESTreatment`: the schedules of one treatment and the mask of its modifier decisions. */
  class Treatment {
    var schedules: Schedules
    var mask: set<string>

    constructor (meds: seq<MedicateData>)
      ensures schedules == [(map[], meds)] && mask == {}
    {
      schedules := [(map[], meds)];
      mask := {};
    }

    /** `getSchedule`: the schedule for the masked outcome, if any. */
    function GetSchedule(outcome: Combo): Option<seq<MedicateData>>
      reads this
    {
      Lookup(schedules, Restrict(outcome, mask))
    }

    /** The inner loop for one effect over the start schedules. */
    method SpreadEffect(start: Schedules, d: string, value: string, op: Op, errObj: string) returns (err: Option<string>)
      modifies this
      ensures err.Some? <==> Spread(start, d, value, op, errObj, old(schedules)).Err?
      ensures err.Some? ==> err.value == Spread(start, d, value, op, errObj, old(schedules)).msg
      ensures err.None? ==> schedules == Spread(start, d, value, op, errObj, old(schedules)).value
      ensures mask == old(mask)
    {
      var k := 0;
      while k < |start|
        invariant 0 <= k <= |start| && mask == old(mask)
        invariant Spread(start[k..], d, value, op, errObj, schedules) == Spread(start, d, value, op, errObj, old(schedules))
      {
        var e := SpreadNext(start, k, d, value, op, errObj, old(schedules));
        if e.Some? {
          return e;
        }
        k := k + 1;
      }
      err := None;
    }

    /** One start schedule: a modified copy is inserted under its key with d set to the value, unless the modifier fails. */
    method SpreadNext(start: Schedules, k: nat, d: string, value: string, op: Op, errObj: string, ghost acc0: Schedules)
      returns (e: Option<string>)
      requires k < |start|
      requires Spread(start[k..], d, value, op, errObj, schedules) == Spread(start, d, value, op, errObj, acc0)
      modifies this
      ensures mask == old(mask)
      ensures e.Some? ==> Spread(start, d, value, op, errObj, acc0) == Err(e.value)
      ensures e.None? ==> Spread(start[k + 1..], d, value, op, errObj, schedules) == Spread(start, d, value, op, errObj, acc0)
    {
      assert start[k..][1..] == start[k + 1..];
      var ts := new TreatmentSchedule(start[k].1);
      e := ts.Apply(op, errObj);
      if e.Some? {
        return;
      }
      var key := start[k].0[d := value];
      if key !in Keys(schedules) {
        schedules := schedules + [(key, ts.medications)];
      }
    }

    /** One modifier: the old schedules become the start schedules and each effect is spread over them. */
    method Modify(elt: string, mod: ModifierXml, dvm: map<string, seq<string>>) returns (err: Option<string>)
      modifies this
      ensures err.Some? <==> ApplyModifier(old(schedules), elt, mod, dvm).Err?
      ensures err.Some? ==> err.value == ApplyModifier(old(schedules), elt, mod, dvm).msg
      ensures err.None? ==> schedules == ApplyModifier(old(schedules), elt, mod, dvm).value && mask == old(mask) + {mod.decision}
    {
      var start := schedules;
      schedules := [];
      if mod.decision !in dvm {
        return Some(UnknownDecisionMessage(mod.decision));
      }
      mask := mask + {mod.decision};
      var decVals := ValueSet(dvm[mod.decision]);
      var effects := ModifierEffects(elt, mod);
      if effects.Err? {
        return Some(effects.msg);
      }
      var j := 0;
      while j < |effects.value|
        invariant 0 <= j <= |effects.value| && mask == old(mask) + {mod.decision}
        invariant ApplyEffects(start, elt, mod.decision, effects.value[j..], decVals, schedules)
                  == ApplyEffects(start, elt, mod.decision, effects.value, ValueSet(dvm[mod.decision]), [])
      {
        assert effects.value[j..][1..] == effects.value[j + 1..];
        var value := effects.value[j].0;
        var errObj := ModErrObj(elt, mod.decision, value);
        if value !in decVals {
          return Some(errObj + ": value doesn't exist");
        }
        decVals := decVals - {value};
        var e := SpreadEffect(start, mod.decision, value, effects.value[j].1, errObj);
        if e.Some? {
          return e;
        }
        j := j + 1;
      }
      if decVals != {} {
        return Some(LeftoverMessage(elt, mod.decision, Listing(dvm[mod.decision], decVals)));
      }
      err := None;
    }

    /** The modifier loop of the `ESTreatment` constructor. */
    method ModifyAll(elt: string, mods: seq<ModifierXml>, dvm: map<string, seq<string>>) returns (err: Option<string>, required: seq<string>)
      modifies this
      ensures err.Some? <==> ApplyModifiers(old(schedules), old(mask), mods, dvm, elt).Err?
      ensures err.Some? ==> err.value == ApplyModifiers(old(schedules), old(mask), mods, dvm, elt).msg
      ensures err.None? ==> (schedules, mask) == ApplyModifiers(old(schedules), old(mask), mods, dvm, elt).value
      ensures err.None? ==> required == DecisionNames(mods)
    {
      required := [];
      var i := 0;
      while i < |mods|
        invariant 0 <= i <= |mods|
        invariant ApplyModifiers(schedules, mask, mods[i..], dvm, elt) == ApplyModifiers(old(schedules), old(mask), mods, dvm, elt)
        invariant required == DecisionNames(mods[..i])
      {
        required := required + [mods[i].decision];
        err := ModifyNext(elt, mods, i, dvm, old(schedules), old(mask));
        if err.Some? {
          return;
        }
        i := i + 1;
      }
      assert mods[..|mods|] == mods;
      err := None;
    }

    /** The i-th modifier of the list, applied to what the ones before it left. */
    method ModifyNext(elt: string, mods: seq<ModifierXml>, i: nat, dvm: map<string, seq<string>>,
                      ghost sch0: Schedules, ghost mask0: set<string>) returns (err: Option<string>)
      requires i < |mods|
      requires ApplyModifiers(schedules, mask, mods[i..], dvm, elt) == ApplyModifiers(sch0, mask0, mods, dvm, elt)
      modifies this
      ensures err.Some? ==> ApplyModifiers(sch0, mask0, mods, dvm, elt) == Err(err.value)
      ensures err.None? ==> ApplyModifiers(schedules, mask, mods[i + 1..], dvm, elt) == ApplyModifiers(sch0, mask0, mods, dvm, elt)
    {
      assert mods[i..][0] == mods[i] && mods[i..][1..] == mods[i + 1..];
      ApplyModifiersStep(schedules, mask, mods[i..], dvm, elt);
      err := Modify(elt, mods[i], dvm);
    }
  }

  /** The modifier list of the `ESTreatment` constructor, built by pushing to the front or the back. */
  method ReorderModifiers(mods: seq<ModifierXml>) returns (list: seq<ModifierXml>)
    ensures list == Reordered(mods)
  {
    list := [];
    var i := 0;
    while i < |mods|
      invariant 0 <= i <= |mods| && list == Reordered(mods[..i])
    {
      assert mods[..i + 1][..i] == mods[..i];
      if Selects(mods[i]) {
        list := [mods[i]] + list;
      } else {
        list := list + [mods[i]];
      }
      i := i + 1;
    }
    assert mods[..|mods|] == mods;
  }

  /**
   * The `ESTreatment` constructor: the schedule, then each reordered
   * modifier in turn; `required` gets each modifier's decision.
   */
  method NewTreatment(dvm: map<string, seq<string>>, elt: TreatmentXml) returns (r: Result<Treatment>, required: seq<string>)
    ensures r.Err? <==> TreatmentFrom(dvm, elt).Err?
    ensures r.Err? ==> r.msg == TreatmentFrom(dvm, elt).msg
    ensures r.Ok? ==> fresh(r.value) && (r.value.schedules, r.value.mask) == TreatmentFrom(dvm, elt).value
    ensures r.Ok? ==> required == DecisionNames(Reordered(elt.modifiers))
  {
    required := [];
    var mods := ReorderModifiers(elt.modifiers);
    var ts := NewTreatmentSchedule(elt.schedule);
    if ts.Err? {
      return Err(ts.msg), required;
    }
    var t := new Treatment(ts.value.medications);
    var e;
    e, required := t.ModifyAll(elt.name, mods, dvm);
    if e.Some? {
      return Err(e.value), required;
    }
    r := Ok(t);
  }

  // ----- ESDecisionMapProcessor -----

  /** `ESDecisionMap::TreeType`. */
  datatype TreeType = MDA | Uncomplicated | Complicated

  /** An `HSESDecision` element as far as ordering goes: its name and its `depends` list. */
  datatype DecisionXml = DecisionXml(name: string, depends: seq<string>)

  function TreeName(tt: TreeType): string
  {
    match tt
    case MDA => "MDA"
    case Uncomplicated => "uncomplicated"
    case Complicated => "complicated"
  }

  function RequiredMessage(tt: TreeType, x: string): string
  {
    "ESCaseManagement: decision " + x + " required (for " + TreeName(tt) + " tree)"
  }

  function TwiceMessage(name: string): string
  {
    "Case management: decision " + name + " described twice"
  }

  const DEPENDENCIES_ERROR := "ESCaseManagement: didn't catch all dependencies (code error)"

  /** The dependencies a created decision keeps: none for an age decision. */
  function KeptDepends(k: ESDecisionTree.DecisionKind): seq<string>
  {
    match k
    case AgeKind => []
    case RandomKind(d) => d
    case DeterministicKind(d) => d
  }

  /** The built-in decisions: "case" for the uncomplicated tree only, and "result", which depends on "test". */
  function BuiltIns(tt: TreeType): map<string, seq<string>>
  {
    if tt == Uncomplicated then map["case" := [], "result" := ["test"]] else map["result" := ["test"]]
  }

  /** The constructor's loop over the decision elements: each is created, then added unless its name is taken. */
  function AddDecisions(pending: map<string, seq<string>>, xml: seq<DecisionXml>): Result<map<string, seq<string>>>
    decreases |xml|
  {
    if xml == [] then Ok(pending)
    else
      match ESDecisionTree.Create(xml[0].name, xml[0].depends)
      case Err(e) => Err(e)
      case Ok(k) =>
        if xml[0].name in pending then Err(TwiceMessage(xml[0].name))
        else AddDecisions(pending[xml[0].name := KeptDepends(k)], xml[1..])
  }

  /** No two decision elements share a name. */
  predicate NamesDistinct(xml: seq<DecisionXml>)
  {
    forall i, j :: 0 <= i < j < |xml| ==> xml[i].name != xml[j].name
  }

  /** Each decision element can be created and its name is not yet taken. */
  predicate AllCreatable(pending: map<string, seq<string>>, xml: seq<DecisionXml>)
  {
    forall i :: 0 <= i < |xml| ==> ESDecisionTree.Create(xml[i].name, xml[i].depends).Ok? && xml[i].name !in pending
  }

  lemma AllCreatableCons(pending: map<string, seq<string>>, xml: seq<DecisionXml>, v: seq<string>)
    requires xml != []
    ensures (AllCreatable(pending, xml) && NamesDistinct(xml)) <==>
              && ESDecisionTree.Create(xml[0].name, xml[0].depends).Ok? && xml[0].name !in pending
              && AllCreatable(pending[xml[0].name := v], xml[1..]) && NamesDistinct(xml[1..])
  {
    var tail := xml[1..];
    assert forall i :: 0 < i < |xml| ==> xml[i] == tail[i - 1];
    if AllCreatable(pending, xml) && NamesDistinct(xml) {
      forall i | 0 <= i < |tail|
        ensures tail[i].name != xml[0].name
      {
        assert xml[i + 1] == tail[i];
      }
    }
    if && ESDecisionTree.Create(xml[0].name, xml[0].depends).Ok? && xml[0].name !in pending
       && AllCreatable(pending[xml[0].name := v], tail) && NamesDistinct(tail)
    {
      forall i, j | 0 <= i < j < |xml|
        ensures xml[i].name != xml[j].name
      {
        assert xml[j] == tail[j - 1];
        if i > 0 {
          assert xml[i] == tail[i - 1];
        }
      }
    }
  }

  /**
   * The decision elements are accepted exactly when each can be created and
   * no name is taken twice (nor by a decision already there).
   */
  lemma {:induction false} AddDecisionsOk(pending: map<string, seq<string>>, xml: seq<DecisionXml>)
    decreases |xml|
    ensures AddDecisions(pending, xml).Ok? <==> AllCreatable(pending, xml) && NamesDistinct(xml)
  {
    if xml != [] {
      var c := ESDecisionTree.Create(xml[0].name, xml[0].depends);
      if c.Ok? {
        AllCreatableCons(pending, xml, KeptDepends(c.value));
        AddDecisionsOk(pending[xml[0].name := KeptDepends(c.value)], xml[1..]);
      } else {
        assert !AllCreatable(pending, xml);
      }
    }
  }

  /** The names of the decision elements. */
  function NameSet(xml: seq<DecisionXml>): set<string>
    decreases |xml|
  {
    if xml == [] then {} else {xml[0].name} + NameSet(xml[1..])
  }

  /** Accepted decision elements add exactly their names. */
  lemma {:induction false} AddDecisionsKeys(pending: map<string, seq<string>>, xml: seq<DecisionXml>)
    decreases |xml|
    ensures AddDecisions(pending, xml).Ok? ==> AddDecisions(pending, xml).value.Keys == pending.Keys + NameSet(xml)
  {
    if xml != [] {
      var c := ESDecisionTree.Create(xml[0].name, xml[0].depends);
      if c.Ok? {
        AddDecisionsKeys(pending[xml[0].name := KeptDepends(c.value)], xml[1..]);
      }
    }
  }

  /** Accepted decision elements leave the decisions already there alone. */
  lemma {:induction false} AddDecisionsKeeps(pending: map<string, seq<string>>, xml: seq<DecisionXml>)
    decreases |xml|
    ensures AddDecisions(pending, xml).Ok? ==>
              forall y :: y in pending ==> y in AddDecisions(pending, xml).value && AddDecisions(pending, xml).value[y] == pending[y]
  {
    if xml != [] {
      var c := ESDecisionTree.Create(xml[0].name, xml[0].depends);
      if c.Ok? {
        AddDecisionsKeeps(pending[xml[0].name := KeptDepends(c.value)], xml[1..]);
      }
    }
  }

  /** Accepted decision elements each map their name to the dependencies their decision keeps. */
  lemma {:induction false} AddDecisionsValues(pending: map<string, seq<string>>, xml: seq<DecisionXml>)
    decreases |xml|
    ensures AddDecisions(pending, xml).Ok? ==>
              forall i :: 0 <= i < |xml| ==>
                && ESDecisionTree.Create(xml[i].name, xml[i].depends).Ok?
                && xml[i].name in AddDecisions(pending, xml).value
                && AddDecisions(pending, xml).value[xml[i].name] == KeptDepends(ESDecisionTree.Create(xml[i].name, xml[i].depends).value)
  {
    if xml != [] {
      var x, tail := xml[0], xml[1..];
      var c := ESDecisionTree.Create(x.name, x.depends);
      if c.Ok? && x.name !in pending {
        var p2 := pending[x.name := KeptDepends(c.value)];
        AddDecisionsValues(p2, tail);
        AddDecisionsKeeps(p2, tail);
        assert forall i :: 0 < i < |xml| ==> xml[i] == tail[i - 1];
      }
    }
  }

  /** No dependency of a decision in s is missing from s, and every name in s is a decision. */
  predicate Closed(pending: map<string, seq<string>>, s: set<string>)
  {
    s <= pending.Keys && forall y, d :: y in s && y in pending && d in pending[y] ==> d in s
  }

  /** Closed but for the decisions in `open`, whose dependencies are still being added. */
  predicate ClosedExcept(pending: map<string, seq<string>>, s: set<string>, open: set<string>)
  {
    forall y, d :: y in s && y !in open && y in pending && d in pending[y] ==> d in s
  }

  lemma ValueSetSnoc(s: seq<string>, j: nat)
    requires j < |s|
    ensures ValueSet(s[..j + 1]) == ValueSet(s[..j]) + {s[j]}
  {
    assert s[..j + 1] == s[..j] + [s[j]];
  }

  lemma ClosedExceptAdd(pending: map<string, seq<string>>, s: set<string>, open: set<string>, x: string)
    requires ClosedExcept(pending, s, open)
    ensures ClosedExcept(pending, s + {x}, open + {x})
  {
  }

  lemma ClosedExceptDone(pending: map<string, seq<string>>, s: set<string>, open: set<string>, x: string)
    requires ClosedExcept(pending, s, open + {x}) && x in pending
    requires ValueSet(pending[x]) <= s
    ensures ClosedExcept(pending, s, open)
  {
    forall y, d | y in s && y !in open && y in pending && d in pending[y]
      ensures d in s
    {
      if y == x {
        assert d in ValueSet(pending[x]);
      }
    }
  }

  /** Every dependency is in s. */
  predicate AllIn(depends: seq<string>, s: set<string>)
  {
    forall d :: d in depends ==> d in s
  }

  /** No name occurs twice. */
  predicate Distinct(s: seq<string>)
  {
    forall i, j :: 0 <= i < j < |s| ==> s[i] != s[j]
  }

  /** Every decision comes after each of its dependencies. */
  predicate Ordered(decisions: seq<string>, pending: map<string, seq<string>>)
  {
    && (forall i :: 0 <= i < |decisions| ==> decisions[i] in pending)
    && forall i, d :: 0 <= i < |decisions| && decisions[i] in pending && d in pending[decisions[i]] ==> d in decisions[..i]
  }

  /** Every decision of s depends on another of s: none of them can come first. */
  predicate Stuck(pending: map<string, seq<string>>, s: set<string>)
  {
    forall y {:trigger pending[y]} :: y in s ==> y in pending && SomeIn(pending[y], s)
  }

  /** Some dependency lies in s. */
  predicate SomeIn(depends: seq<string>, s: set<string>)
  {
    exists d :: d in depends && d in s
  }

  /** No decision of a stuck set can come after all of its dependencies. */
  lemma StuckNeverOrdered(decisions: seq<string>, pending: map<string, seq<string>>, s: set<string>)
    requires Ordered(decisions, pending) && Stuck(pending, s)
    ensures forall i :: 0 <= i < |decisions| ==> decisions[i] !in s
  {
    forall i | 0 <= i < |decisions|
      ensures decisions[i] !in s
    {
      NotStuckAt(decisions, pending, s, i);
    }
  }

  lemma {:induction false} NotStuckAt(decisions: seq<string>, pending: map<string, seq<string>>, s: set<string>, i: nat)
    requires Ordered(decisions, pending) && Stuck(pending, s) && i < |decisions|
    ensures decisions[i] !in s
    decreases i
  {
    var y := decisions[i];
    forall d | d in pending[y]
      ensures d !in s
    {
      assert d in decisions[..i];
      var k :| 0 <= k < i && decisions[..i][k] == d;
      NotStuckAt(decisions, pending, s, k);
    }
  }

  /** Whatever closed set holds `base` and x holds r. */
  ghost predicate LeastClosed(pending: map<string, seq<string>>, base: set<string>, x: string, r: set<string>)
  {
    forall s :: Closed(pending, s) && base <= s && x in s ==> r <= s
  }

  /** No closed set holds `base` and x. */
  ghost predicate NoClosed(pending: map<string, seq<string>>, base: set<string>, x: string)
  {
    forall s :: Closed(pending, s) && base <= s ==> x !in s
  }

  lemma LeastStep(pending: map<string, seq<string>>, r0: set<string>, x: string, r1: set<string>, d: string, r2: set<string>)
    requires x in pending && d in pending[x] && r0 <= r1
    requires LeastClosed(pending, r0, x, r1) && LeastClosed(pending, r1, d, r2)
    ensures LeastClosed(pending, r0, x, r2)
  {
    forall s | Closed(pending, s) && r0 <= s && x in s
      ensures r2 <= s
    {
      assert r1 <= s && d in s;
    }
  }

  lemma NoClosedStep(pending: map<string, seq<string>>, r0: set<string>, x: string, r1: set<string>, d: string)
    requires x in pending && d in pending[x]
    requires LeastClosed(pending, r0, x, r1) && NoClosed(pending, r1, d)
    ensures NoClosed(pending, r0, x)
  {
    forall s | Closed(pending, s) && r0 <= s
      ensures x !in s
    {
      assert x in s ==> r1 <= s && d in s;
    }
  }

  lemma FewerLeft(keys: set<string>, r0: set<string>, r1: set<string>, x: string)
    requires x in keys && x !in r0 && r0 + {x} <= r1
    ensures |keys - r1| < |keys - r0|
  {
    assert keys - r1 <= (keys - r0) - {x};
    SubsetSize(keys - r1, (keys - r0) - {x});
  }

  lemma {:induction false} SubsetSize(a: set<string>, b: set<string>)
    requires a <= b
    ensures |a| <= |b|
    decreases |b|
  {
    if a != {} {
      var y :| y in a;
      SubsetSize(a - {y}, b - {y});
    }
  }

  lemma RemoveAt(order: seq<string>, it: nat)
    requires it < |order| && Distinct(order)
    ensures Distinct(order[..it] + order[it + 1..])
    ensures ValueSet(order[..it] + order[it + 1..]) == ValueSet(order) - {order[it]}
  {
    var r := order[..it] + order[it + 1..];
    assert forall k :: 0 <= k < |r| ==> r[k] == if k < it then order[k] else order[k + 1];
    forall v | v in ValueSet(order) - {order[it]}
      ensures v in ValueSet(r)
    {
      var k :| 0 <= k < |order| && order[k] == v;
      if k < it {
        assert r[k] == v;
      } else {
        assert r[k - 1] == v;
      }
    }
  }

  /**
   * What holds while `process` places decisions: `pending` is what is left
   * of p0, in the iteration order `order`; `decisions` so far are ordered,
   * required and distinct, and every required decision is placed or
   * pending; the first `it` pending decisions are required but not ready.
   */
  ghost predicate DrainInv(p0: map<string, seq<string>>, req: set<string>, order: seq<string>,
                           pending: map<string, seq<string>>, decisions: seq<string>, added: set<string>, it: nat)
  {
    && it <= |order|
    && ValueSet(order) == pending.Keys && Distinct(order)
    && (forall y :: y in pending ==> y in p0 && pending[y] == p0[y])
    && added == ValueSet(decisions) && Distinct(decisions) && added <= req
    && added !! pending.Keys
    && req <= added + pending.Keys
    && Ordered(decisions, p0)
    && forall k :: 0 <= k < it ==> order[k] in req && order[k] in p0 && !AllIn(p0[order[k]], added)
  }

  lemma DrainStart(p0: map<string, seq<string>>, req: set<string>, order: seq<string>)
    requires ValueSet(order) == p0.Keys && Distinct(order) && req <= p0.Keys
    ensures DrainInv(p0, req, order, p0, [], {}, 0)
  {
  }

  /** Dropping a decision nobody requires keeps the invariant. */
  lemma DrainDrop(p0: map<string, seq<string>>, req: set<string>, order: seq<string>,
                  pending: map<string, seq<string>>, decisions: seq<string>, added: set<string>, it: nat)
    requires DrainInv(p0, req, order, pending, decisions, added, it)
    requires it < |order| && order[it] !in req
    ensures DrainInv(p0, req, order[..it] + order[it + 1..], pending - {order[it]}, decisions, added, 0)
  {
    RemoveAt(order, it);
  }

  /** Placing a required decision whose dependencies are placed keeps the invariant. */
  lemma DrainPlace(p0: map<string, seq<string>>, req: set<string>, order: seq<string>,
                   pending: map<string, seq<string>>, decisions: seq<string>, added: set<string>, it: nat)
    requires DrainInv(p0, req, order, pending, decisions, added, it)
    requires it < |order| && order[it] in req && order[it] in pending && AllIn(pending[order[it]], added)
    ensures DrainInv(p0, req, order[..it] + order[it + 1..], pending - {order[it]}, decisions + [order[it]], added + {order[it]}, 0)
  {
    var name := order[it];
    RemoveAt(order, it);
    ValueSetSnoc(decisions + [name], |decisions|);
    assert (decisions + [name])[..|decisions| + 1] == decisions + [name];
    assert (decisions + [name])[..|decisions|] == decisions;
    assert forall i :: 0 <= i < |decisions| ==> (decisions + [name])[..i] == decisions[..i];
  }

  /** When the iteration ends with decisions left, they are stuck. */
  lemma DrainStuck(p0: map<string, seq<string>>, req: set<string>, order: seq<string>,
                   pending: map<string, seq<string>>, decisions: seq<string>, added: set<string>)
    requires DrainInv(p0, req, order, pending, decisions, added, |order|)
    requires Closed(p0, req)
    ensures ValueSet(order) <= req && Stuck(p0, ValueSet(order))
  {
    forall y | y in ValueSet(order)
      ensures y in req && y in p0 && SomeIn(p0[y], ValueSet(order))
    {
      var k :| 0 <= k < |order| && order[k] == y;
      StuckAt(p0, req, order, pending, decisions, added, k);
    }
  }

  lemma StuckAt(p0: map<string, seq<string>>, req: set<string>, order: seq<string>,
                pending: map<string, seq<string>>, decisions: seq<string>, added: set<string>, k: nat)
    requires DrainInv(p0, req, order, pending, decisions, added, |order|)
    requires Closed(p0, req) && k < |order|
    ensures order[k] in req && order[k] in p0 && SomeIn(p0[order[k]], ValueSet(order))
  {
    var y := order[k];
    assert y in req && y in p0 && !AllIn(p0[y], added);
    var d :| d in p0[y] && d !in added;
    assert d in req;
    assert d in pending.Keys;
  }

  /** When nothing is left, exactly the required decisions are placed. */
  lemma DrainDone(p0: map<string, seq<string>>, req: set<string>,
                  pending: map<string, seq<string>>, decisions: seq<string>, added: set<string>)
    requires DrainInv(p0, req, [], pending, decisions, added, 0)
    ensures ValueSet(decisions) == req && pending == map[]
  {
  }

  /** `ESDecisionMapProcessor`: the decisions not yet placed and those required. */
  class DecisionMapProcessor {
    const treeType: TreeType
    var pending: map<string, seq<string>>
    /** The order in which `pending` is iterated: its names, each once. */
    var order: seq<string>
    var required: set<string>

    constructor (tt: TreeType)
      ensures treeType == tt && pending == map[] && order == [] && required == {}
    {
      treeType := tt;
      pending := map[];
      order := [];
      required := {};
    }

    /** `addToPending`: adds a decision unless its name is taken, and says whether it did. */
    method AddToPending(name: string, depends: seq<string>) returns (added: bool)
      modifies this
      ensures added <==> name !in old(pending)
      ensures pending == if added then old(pending)[name := depends] else old(pending)
      ensures order == if added then old(order) + [name] else old(order)
      ensures required == old(required)
    {
      if name in pending {
        return false;
      }
      pending := pending[name := depends];
      order := order + [name];
      added := true;
    }

    /**
     * The constructor's reading: the built-in decisions ("case" for the
     * uncomplicated tree, then "result"), then each decision element, which
     * is created and then added unless its name is taken.
     */
    method Load(xml: seq<DecisionXml>) returns (err: Option<string>)
      requires pending == map[] && order == [] && required == {}
      modifies this
      ensures err.None? <==> AddDecisions(BuiltIns(treeType), xml).Ok?
      ensures err.None? ==> pending == AddDecisions(BuiltIns(treeType), xml).value
      ensures err.Some? ==> err.value == AddDecisions(BuiltIns(treeType), xml).msg
      ensures ValueSet(order) == pending.Keys && Distinct(order) && required == {}
    {
      AddBuiltIns();
      ghost var whole := AddDecisions(BuiltIns(treeType), xml);
      var k := 0;
      while k < |xml|
        invariant 0 <= k <= |xml| && required == {}
        invariant whole == AddDecisions(pending, xml[k..])
        invariant ValueSet(order) == pending.Keys && Distinct(order)
      {
        err := LoadNext(xml, k, whole);
        if err.Some? {
          return;
        }
        k := k + 1;
      }
      assert xml[k..] == [];
      err := None;
    }

    /** The decisions every tree of this type has before those of the list. */
    method AddBuiltIns()
      requires pending == map[] && order == [] && required == {}
      modifies this
      ensures pending == BuiltIns(treeType) && ValueSet(order) == pending.Keys && Distinct(order) && required == {}
    {
      var added;
      if treeType == Uncomplicated {
        added := AddToPending("case", []);
      }
      added := AddToPending("result", ["test"]);
      assert pending == BuiltIns(treeType);
      assert ValueSet(order) == pending.Keys;
    }

    /** The k-th decision of the list: created, then added unless its name is taken. */
    method LoadNext(xml: seq<DecisionXml>, k: nat, ghost whole: Result<map<string, seq<string>>>) returns (err: Option<string>)
      requires k < |xml| && required == {}
      requires ValueSet(order) == pending.Keys && Distinct(order)
      requires whole == AddDecisions(pending, xml[k..])
      modifies this
      ensures required == {} && ValueSet(order) == pending.Keys && Distinct(order)
      ensures err.Some? ==> whole == Err(err.value)
      ensures err.None? ==> whole == AddDecisions(pending, xml[k + 1..])
    {
      assert xml[k..][1..] == xml[k + 1..];
      var c := ESDecisionTree.Create(xml[k].name, xml[k].depends);
      if c.Err? {
        return Some(c.msg);
      }
      ghost var o0 := order;
      var added := AddToPending(xml[k].name, KeptDepends(c.value));
      if !added {
        return Some(TwiceMessage(xml[k].name));
      }
      assert ValueSet(order) == ValueSet(o0) + {xml[k].name} by {
        ValueSetSnoc(order, |o0|);
        assert order[..|o0|] == o0 && order[..|o0| + 1] == order;
      }
      err := None;
    }

    /**
     * `addRequires`: an unknown decision raises; otherwise the decision, and
     * on its first requirement all its dependencies in turn, become
     * required.
     */
    method AddRequires(x: string, ghost open: set<string>) returns (err: Option<string>)
      requires open <= required <= pending.Keys
      requires ClosedExcept(pending, required, open)
      modifies this
      decreases |pending.Keys - required|, 0
      ensures pending == old(pending) && order == old(order)
      ensures old(required) <= required <= pending.Keys
      ensures err.None? ==> x in required && ClosedExcept(pending, required, open)
      ensures err.None? ==> LeastClosed(pending, old(required), x, required)
      ensures err.Some? ==> NoClosed(pending, old(required), x)
      ensures err.Some? ==> exists y :: y !in pending && err.value == RequiredMessage(treeType, y)
    {
      if x !in pending {
        return Some(RequiredMessage(treeType, x));
      }
      if x in required {
        return None;
      }
      ClosedExceptAdd(pending, required, open, x);
      FewerLeft(pending.Keys, required, required + {x}, x);
      required := required + {x};
      err := AddDependencies(x, old(required), open);
    }

    /** The loop of `addRequires` over the dependencies of a decision just required. */
    method AddDependencies(x: string, ghost r0: set<string>, ghost open: set<string>) returns (err: Option<string>)
      requires x in pending && r0 + {x} <= required <= pending.Keys && open <= r0
      requires ClosedExcept(pending, required, open + {x})
      requires LeastClosed(pending, r0, x, required)
      modifies this
      decreases |pending.Keys - required|, 1
      ensures pending == old(pending) && order == old(order)
      ensures old(required) <= required <= pending.Keys
      ensures err.None? ==> ValueSet(pending[x]) <= required && ClosedExcept(pending, required, open)
      ensures err.None? ==> LeastClosed(pending, r0, x, required)
      ensures err.Some? ==> NoClosed(pending, r0, x)
      ensures err.Some? ==> exists y :: y !in pending && err.value == RequiredMessage(treeType, y)
    {
      var deps := pending[x];
      var j := 0;
      while j < |deps|
        invariant 0 <= j <= |deps|
        invariant pending == old(pending) && order == old(order)
        invariant old(required) <= required <= pending.Keys
        invariant ClosedExcept(pending, required, open + {x})
        invariant ValueSet(deps[..j]) <= required
        invariant LeastClosed(pending, r0, x, required)
      {
        SubsetSize(pending.Keys - required, pending.Keys - old(required));
        ghost var r1 := required;
        err := AddRequires(deps[j], open + {x});
        if err.Some? {
          NoClosedStep(pending, r0, x, r1, deps[j]);
          return;
        }
        LeastStep(pending, r0, x, r1, deps[j], required);
        ValueSetSnoc(deps, j);
        j := j + 1;
      }
      assert deps[..j] == deps;
      ClosedExceptDone(pending, required, open, x);
      err := None;
    }

    /** `hasAllDependencies`: every dependency is among the names added. */
    method HasAllDependencies(depends: seq<string>, added: set<string>) returns (b: bool)
      ensures b <==> AllIn(depends, added)
    {
      var k := 0;
      while k < |depends|
        invariant 0 <= k <= |depends|
        invariant forall i :: 0 <= i < k ==> depends[i] in added
      {
        if depends[k] !in added {
          return false;
        }
        k := k + 1;
      }
      b := true;
    }

    /**
     * The main loop of `process`: from the start of `pending`, a decision not
     * required is dropped and one whose dependencies are all placed is
     * placed, restarting each time; reaching the end with decisions left
     * raises.
     */
    method Drain() returns (err: Option<string>, decisions: seq<string>)
      requires ValueSet(order) == pending.Keys && Distinct(order)
      requires Closed(pending, required)
      modifies this
      ensures err.None? ==> ValueSet(decisions) == old(required) && Distinct(decisions) && Ordered(decisions, old(pending))
      ensures err.None? ==> pending == map[]
      ensures required == old(required)
      ensures err.Some? ==> err.value == DEPENDENCIES_ERROR && order != []
      ensures err.Some? ==> ValueSet(order) <= old(required) && Stuck(old(pending), ValueSet(order))
    {
      ghost var p0 := pending;
      decisions := [];
      var added: set<string> := {};
      var it := 0;
      DrainStart(p0, required, order);
      while it < |order|
        invariant required == old(required)
        invariant DrainInv(p0, required, order, pending, decisions, added, it)
        decreases |order|, |order| - it
      {
        var name := order[it];
        assert name in ValueSet(order);
        if name !in required {
          DrainDrop(p0, required, order, pending, decisions, added, it);
          pending := pending - {name};
          order := order[..it] + order[it + 1..];
          it := 0;
        } else {
          var ready := HasAllDependencies(pending[name], added);
          if ready {
            DrainPlace(p0, required, order, pending, decisions, added, it);
            decisions := decisions + [name];
            added := added + {name};
            pending := pending - {name};
            order := order[..it] + order[it + 1..];
            it := 0;
          } else {
            it := it + 1;
          }
        }
      }
      if order != [] {
        DrainStuck(p0, required, order, pending, decisions, added);
        return Some(DEPENDENCIES_ERROR), decisions;
      }
      DrainDone(p0, required, pending, decisions, added);
      err := None;
    }

    /**
     * `process`: every required output and, transitively, its dependencies
     * are required, then the decisions are placed; an unknown name raises.
     */
    method Process(requiredOutputs: seq<string>) returns (err: Option<string>, decisions: seq<string>)
      requires ValueSet(order) == pending.Keys && Distinct(order) && required == {}
      modifies this
      ensures err.None? ==> Ordered(decisions, old(pending)) && Distinct(decisions)
      ensures err.None? ==> ValueSet(requiredOutputs) <= ValueSet(decisions) && Closed(old(pending), ValueSet(decisions))
      ensures err.None? ==> LeastAll(old(pending), ValueSet(requiredOutputs), ValueSet(decisions))
      ensures err.Some? ==>
                || ((exists y :: y !in old(pending) && err.value == RequiredMessage(treeType, y)) && NoneClosed(old(pending), ValueSet(requiredOutputs)))
                || (&& err.value == DEPENDENCIES_ERROR
                    && Closed(old(pending), required) && LeastAll(old(pending), ValueSet(requiredOutputs), required)
                    && order != [] && ValueSet(order) <= required && Stuck(old(pending), ValueSet(order)))
    {
      decisions := [];
      var k := 0;
      while k < |requiredOutputs|
        invariant 0 <= k <= |requiredOutputs|
        invariant pending == old(pending) && order == old(order)
        invariant required <= pending.Keys && Closed(pending, required)
        invariant ValueSet(requiredOutputs[..k]) <= required
        invariant LeastAll(pending, ValueSet(requiredOutputs[..k]), required)
      {
        ValueSetSnoc(requiredOutputs, k);
        ghost var r1 := required;
        err := AddRequires(requiredOutputs[k], {});
        if err.Some? {
          NoneStep(pending, ValueSet(requiredOutputs[..k]), r1, requiredOutputs[k], ValueSet(requiredOutputs));
          return;
        }
        AllStep(pending, ValueSet(requiredOutputs[..k]), r1, requiredOutputs[k], required);
        k := k + 1;
      }
      assert requiredOutputs[..k] == requiredOutputs;
      err, decisions := Drain();
    }
  }

  /** Whatever closed set holds `need` holds r. */
  ghost predicate LeastAll(pending: map<string, seq<string>>, need: set<string>, r: set<string>)
  {
    forall s :: Closed(pending, s) && need <= s ==> r <= s
  }

  /** No closed set holds `need`. */
  ghost predicate NoneClosed(pending: map<string, seq<string>>, need: set<string>)
  {
    forall s :: Closed(pending, s) ==> !(need <= s)
  }

  lemma AllStep(pending: map<string, seq<string>>, need: set<string>, r1: set<string>, x: string, r2: set<string>)
    requires LeastAll(pending, need, r1) && LeastClosed(pending, r1, x, r2)
    ensures LeastAll(pending, need + {x}, r2)
  {
    forall s | Closed(pending, s) && need + {x} <= s
      ensures r2 <= s
    {
      assert r1 <= s;
    }
  }

  lemma NoneStep(pending: map<string, seq<string>>, need: set<string>, r1: set<string>, x: string, all: set<string>)
    requires LeastAll(pending, need, r1) && NoClosed(pending, r1, x) && need + {x} <= all
    ensures NoneClosed(pending, all)
  {
    forall s | Closed(pending, s)
      ensures !(all <= s)
    {
      assert all <= s ==> r1 <= s;
    }
  }

  /**
   * With a stuck set among the required decisions, no order places every
   * required decision after its dependencies.
   */
  lemma OrderImpossibleWhenStuck(decisions: seq<string>, pending: map<string, seq<string>>, required: set<string>, r: set<string>)
    requires Ordered(decisions, pending)
    requires r != {} && r <= required && Stuck(pending, r)
    ensures exists y :: y in required && y !in decisions
  {
    StuckNeverOrdered(decisions, pending, r);
    var y :| y in r;
    assert y !in decisions;
  }

  // ----- ESDecisionMap -----

  /** The dependencies of decision x, as a set. */
  function DepSet(depends: map<string, seq<string>>, x: string): set<string>
  {
    if x in depends then ValueSet(depends[x]) else {}
  }

  /**
   * `determine`: the decisions evaluated in order, each given the outcomes so
   * far of the decisions it depends on; `decide` stands for each decision's
   * own `determine`, with its host data and random draws.
   */
  function Determined(decs: seq<string>, depends: map<string, seq<string>>, decide: (string, Combo) -> string): Combo
    decreases |decs|
  {
    if decs == [] then map[]
    else
      var prev := Determined(decs[..|decs| - 1], depends, decide);
      var x := decs[|decs| - 1];
      prev[x := decide(x, Restrict(prev, DepSet(depends, x)))]
  }

  /** Every decision, and nothing else, gets an outcome. */
  lemma {:induction false} DeterminedKeys(decs: seq<string>, depends: map<string, seq<string>>, decide: (string, Combo) -> string)
    decreases |decs|
    ensures Determined(decs, depends, decide).Keys == ValueSet(decs)
  {
    if decs != [] {
      var n := |decs| - 1;
      DeterminedKeys(decs[..n], depends, decide);
      ValueSetSnoc(decs, n);
      assert decs[..n + 1] == decs;
    }
  }

  /** Later decisions leave the outcomes of earlier ones alone. */
  lemma DeterminedPrefix(decs: seq<string>, depends: map<string, seq<string>>, decide: (string, Combo) -> string, j: nat)
    requires Distinct(decs) && j <= |decs|
    ensures forall d :: d in ValueSet(decs[..j]) ==>
              d in Determined(decs, depends, decide) && d in Determined(decs[..j], depends, decide)
              && Determined(decs, depends, decide)[d] == Determined(decs[..j], depends, decide)[d]
  {
    forall d | d in ValueSet(decs[..j])
      ensures d in Determined(decs, depends, decide) && d in Determined(decs[..j], depends, decide)
      ensures Determined(decs, depends, decide)[d] == Determined(decs[..j], depends, decide)[d]
    {
      DeterminedPrefixAt(decs, depends, decide, j, d);
    }
  }

  lemma {:induction false} DeterminedPrefixAt(decs: seq<string>, depends: map<string, seq<string>>, decide: (string, Combo) -> string, j: nat, d: string)
    requires Distinct(decs) && j <= |decs| && d in ValueSet(decs[..j])
    decreases |decs|
    ensures d in Determined(decs, depends, decide) && d in Determined(decs[..j], depends, decide)
    ensures Determined(decs, depends, decide)[d] == Determined(decs[..j], depends, decide)[d]
  {
    DeterminedKeys(decs, depends, decide);
    DeterminedKeys(decs[..j], depends, decide);
    if j < |decs| {
      var init := decs[..|decs| - 1];
      DropLastKeepsPrefix(decs, j, d);
      DeterminedPrefixAt(init, depends, decide, j, d);
    } else {
      assert decs[..j] == decs;
    }
  }

  /** Dropping the last of distinct decisions keeps a prefix that holds d, and d is not the one dropped. */
  lemma DropLastKeepsPrefix(decs: seq<string>, j: nat, d: string)
    requires Distinct(decs) && j < |decs| && d in ValueSet(decs[..j])
    ensures var init := decs[..|decs| - 1];
            Distinct(init) && j <= |init| && init[..j] == decs[..j] && d in ValueSet(init[..j]) && d != decs[|decs| - 1]
  {
    var n := |decs| - 1;
    var init := decs[..n];
    assert init[..j] == decs[..j];
    var k :| 0 <= k < j && decs[..j][k] == d;
    assert decs[k] == d && d != decs[n];
  }

  /**
   * With the decisions distinct and each after its dependencies, the
   * outcome of every decision is what that decision gives for the final
   * outcomes of its dependencies.
   */
  lemma DeterminedConsistent(decs: seq<string>, depends: map<string, seq<string>>, decide: (string, Combo) -> string, i: nat)
    requires Distinct(decs) && Ordered(decs, depends) && i < |decs|
    ensures var r := Determined(decs, depends, decide);
            decs[i] in r && r[decs[i]] == decide(decs[i], Restrict(r, DepSet(depends, decs[i])))
  {
    var r := Determined(decs, depends, decide);
    var x := decs[i];
    var p := Determined(decs[..i], depends, decide);
    assert decs[..i + 1][..i] == decs[..i];
    DeterminedPrefix(decs, depends, decide, i + 1);
    DeterminedPrefix(decs, depends, decide, i);
    DeterminedKeys(decs[..i], depends, decide);
    ValueSetSnoc(decs, i);
    assert x in ValueSet(decs[..i + 1]);
    assert DepSet(depends, x) <= ValueSet(decs[..i]) by {
      forall d | d in DepSet(depends, x)
        ensures d in ValueSet(decs[..i])
      {
        assert d in depends[x];
      }
    }
    assert Restrict(r, DepSet(depends, x)) == Restrict(p, DepSet(depends, x));
  }

  const NO_SCHEDULE_ERROR := "a required modifier decision's output is unexpected (code error)"

  function NotFoundMessage(value: string): string
  {
    "decision outcome " + value + " not found in list of treatments"
  }

  /** `ESDecisionMap`: the ordered decisions of one tree and its treatments by "treatment" value. */
  class DecisionMap {
    const decisions: seq<string>
    const depends: map<string, seq<string>>
    const treatments: map<string, Treatment>

    constructor (decs: seq<string>, deps: map<string, seq<string>>, ts: map<string, Treatment>)
      ensures decisions == decs && depends == deps && treatments == ts
    {
      decisions := decs;
      depends := deps;
      treatments := ts;
    }

    /** `determine`: the decisions in order, each outcome added to those before. */
    method Determine(decide: (string, Combo) -> string) returns (outcomes: Combo)
      ensures outcomes == Determined(decisions, depends, decide)
    {
      outcomes := map[];
      var i := 0;
      while i < |decisions|
        invariant 0 <= i <= |decisions|
        invariant outcomes == Determined(decisions[..i], depends, decide)
      {
        var x := decisions[i];
        assert decisions[..i + 1][..i] == decisions[..i];
        outcomes := outcomes[x := decide(x, Restrict(outcomes, DepSet(depends, x)))];
        i := i + 1;
      }
      assert decisions[..i] == decisions;
    }

    /**
     * `getSchedule`: the treatment for the outcome's "treatment" value, and
     * its schedule for the outcome; an unknown treatment raises, as does a
     * treatment without a schedule for the outcome (a code error).
     */
    method GetSchedule(outcome: Combo) returns (r: Result<seq<MedicateData>>)
      ensures r.Ok? <==>
                && "treatment" in outcome && outcome["treatment"] in treatments
                && treatments[outcome["treatment"]].GetSchedule(outcome).Some?
      ensures r.Ok? ==> Some(r.value) == treatments[outcome["treatment"]].GetSchedule(outcome)
      ensures r.Err? ==>
                if "treatment" in outcome && outcome["treatment"] in treatments then r.msg == NO_SCHEDULE_ERROR
                else r.msg == NotFoundMessage(if "treatment" in outcome then outcome["treatment"] else "")
    {
      var masked := if "treatment" in outcome then outcome["treatment"] else "";
      if "treatment" in outcome && masked in treatments {
        var ret := treatments[masked].GetSchedule(outcome);
        if ret.Some? {
          return Ok(ret.value);
        }
        return Err(NO_SCHEDULE_ERROR);
      }
      r := Err(NotFoundMessage(masked));
    }
  }

  /**
   * A treatment built from its description has a schedule for every outcome
   * that gives each of its modifier decisions one of that decision's values,
   * and for no other.
   */
  lemma BuiltTreatmentHasSchedule(dvm: map<string, seq<string>>, elt: TreatmentXml, t: Treatment, outcome: Combo)
    requires TreatmentFrom(dvm, elt).Ok? && (t.schedules, t.mask) == TreatmentFrom(dvm, elt).value
    ensures t.GetSchedule(outcome).Some? <==> forall d :: d in t.mask ==> d in dvm && d in outcome && outcome[d] in dvm[d]
  {
    TreatmentFinds(dvm, elt, outcome);
  }
}
