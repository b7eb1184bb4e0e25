/**
 * The event-scheduler decision trees (schema-28, model/Clinical/ESDecisionTree.cpp):
 * `ESDecisionTree::create`, the processors that turn a parsed decision tree
 * into an age table (`DA_processor`) or a table of cumulative outcome
 * probabilities (`DR_processor`), and the `determineImpl`s that read them.
 *
 * `ESDecisionValueMap`, which encodes decision values as bit fields, is not
 * part of this model: a value of a decision is its name, and a combination
 * of input values is a map from decision names to value names. The parser
 * (`parser::parseTree`) is not part of this model either; its parsed trees
 * are the `Outcome` datatype.
 */
module ESDecisionTree {
  import opened Wrappers
  import Seqs

  // ----- age bounds -----

  /** A double that is finite or +infinity. */
  datatype Ext = Fin(x: real) | Inf

  predicate Lt(a: Ext, b: Ext)
  {
    match (a, b)
    case (Fin(x), Fin(y)) => x < y
    case (Fin(_), Inf) => true
    case (Inf, _) => false
  }

  predicate Le(a: Ext, b: Ext) { a == b || Lt(a, b) }

  function Max(a: Ext, b: Ext): Ext { if Lt(a, b) then b else a }
  function Min(a: Ext, b: Ext): Ext { if Lt(a, b) then a else b }

  /** `parser::DoubleRange`: the ages [lo, hi). */
  datatype Range = Range(lo: Ext, hi: Ext)

  /** A range whose lower bound is not above its upper bound; `intersection` only makes these. */
  predicate Ordered(r: Range) { Le(r.lo, r.hi) }

  predicate InRange(r: Range, age: real) { Le(r.lo, Fin(age)) && Lt(Fin(age), r.hi) }

  /** `intersection`: the larger lower bound and the smaller upper bound, an empty range at the lower bound when they cross. */
  function Intersection(lhs: Range, rhs: Range): (r: Range)
    ensures r.lo == Max(lhs.lo, rhs.lo)
    ensures Le(r.lo, r.hi)
  {
    var lo := Max(lhs.lo, rhs.lo);
    var hi := Min(lhs.hi, rhs.hi);
    if Lt(hi, lo) then Range(lo, lo) else Range(lo, hi)
  }

  /** An age lies in the intersection iff it lies in both ranges. */
  lemma IntersectionMeaning(lhs: Range, rhs: Range, age: real)
    ensures InRange(Intersection(lhs, rhs), age) <==> InRange(lhs, age) && InRange(rhs, age)
  {
  }

  // ----- parsed trees -----

  /** The value a branch is taken on: an outcome name, a probability, or an age range. */
  datatype DecValue = Name(name: string) | Prob(p: real) | AgeRange(range: Range)

  /** `parser::Outcome`: an outcome value, or a set of branches on one decision. */
  datatype Outcome = Leaf(value: string) | BranchSet(decision: string, branches: seq<Branch>)

  datatype Branch = Branch(decValue: DecValue, outcome: Outcome)

  /** What the parser guarantees: "age" branches carry ranges, "p" branches probabilities, the others names. */
  predicate KindFits(decision: string, v: DecValue)
  {
    if decision == "age" then v.AgeRange? else if decision == "p" then v.Prob? else v.Name?
  }

  predicate WellKinded(o: Outcome)
    decreases o
  {
    match o
    case Leaf(_) => true
    case BranchSet(d, bs) => forall k :: 0 <= k < |bs| ==> KindFits(d, bs[k].decValue) && WellKinded(bs[k].outcome)
  }

  // ----- age decisions: DA_processor -----

  /** A range of the age table with the value it gives. */
  datatype RangeValue = RangeValue(range: Range, value: string)

  /**
   * The ranges `processOutcome` pushes for an outcome under `range`, and the
   * error it stops at, if any. `deep` forbids a further branch set; only
   * "age" may be branched on; a leaf must be a value of the decision.
   */
  function AgeOutcome(o: Outcome, range: Range, deep: bool, values: seq<string>): (r: (seq<RangeValue>, Option<string>))
    requires WellKinded(o)
    decreases o, 1, 0
  {
    match o
    case Leaf(v) =>
      if v in values then ([RangeValue(range, v)], None) else ([], Some("unknown value " + v))
    case BranchSet(d, bs) =>
      if deep then ([], Some("age-branches within age-branches not supported"))
      else if d != "age" then ([], Some("cannot depend on anything other than age (tried to use " + d + ")"))
      else AgeBranches(o, 0, range, values)
  }

  /** The age branches from the k-th on, each under the intersection of its range with `range`. */
  function AgeBranches(o: Outcome, k: nat, range: Range, values: seq<string>): (r: (seq<RangeValue>, Option<string>))
    requires o.BranchSet? && o.decision == "age" && WellKinded(o) && k <= |o.branches|
    decreases o, 0, |o.branches| - k
  {
    if k == |o.branches| then ([], None)
    else
      var b := o.branches[k];
      assert KindFits(o.decision, b.decValue) && WellKinded(b.outcome);
      var (first, err) := AgeOutcome(b.outcome, Intersection(range, b.decValue.range), true, values);
      if err.Some? then (first, err)
      else
        var (rest, err') := AgeBranches(o, k + 1, range, values);
        (first + rest, err')
  }

  /**
   * Under an age branch set, every pushed range lies within the branch set's
   * range, and is ordered when that range is.
   */
  lemma {:induction false} AgeOutcomeWithin(o: Outcome, range: Range, deep: bool, values: seq<string>)
    requires WellKinded(o)
    ensures forall k :: 0 <= k < |AgeOutcome(o, range, deep, values).0| ==>
              var rv := AgeOutcome(o, range, deep, values).0[k];
              Le(range.lo, rv.range.lo) && rv.value in values && (Ordered(range) ==> Ordered(rv.range))
    decreases o, 1, 0
  {
    match o
    case Leaf(v) =>
    case BranchSet(d, bs) =>
      if !deep && d == "age" {
        AgeBranchesWithin(o, 0, range, values);
      }
  }

  lemma {:induction false} AgeBranchesWithin(o: Outcome, k: nat, range: Range, values: seq<string>)
    requires o.BranchSet? && o.decision == "age" && WellKinded(o) && k <= |o.branches|
    ensures forall j :: 0 <= j < |AgeBranches(o, k, range, values).0| ==>
              var rv := AgeBranches(o, k, range, values).0[j];
              Le(range.lo, rv.range.lo) && rv.value in values && Ordered(rv.range)
    decreases o, 0, |o.branches| - k
  {
    if k < |o.branches| {
      var b := o.branches[k];
      assert KindFits(o.decision, b.decValue) && WellKinded(b.outcome);
      var sub := Intersection(range, b.decValue.range);
      AgeOutcomeWithin(b.outcome, sub, true, values);
      AgeBranchesWithin(o, k + 1, range, values);
      var (first, err) := AgeOutcome(b.outcome, sub, true, values);
      if err.None? {
        var (rest, err') := AgeBranches(o, k + 1, range, values);
        var all := first + rest;
        forall j | 0 <= j < |all|
          ensures Le(range.lo, all[j].range.lo) && all[j].value in values && Ordered(all[j].range)
        {
          if j < |first| {
            assert all[j] == first[j];
          } else {
            assert all[j] == rest[j - |first|];
          }
        }
      }
    }
  }

  /** A tree that is a single outcome value gives the whole range [0, inf) that value. */
  lemma SingleValueTree(v: string, values: seq<string>)
    requires v in values
    ensures AgeOutcome(Leaf(v), Range(Fin(0.0), Inf), false, values) == ([RangeValue(Range(Fin(0.0), Inf), v)], None)
  {
  }

  /** An age branch nested in an age branch is rejected, as is a branch on anything but age. */
  lemma AgeTreeShape(d: string, bs: seq<Branch>, range: Range, values: seq<string>)
    requires WellKinded(BranchSet(d, bs))
    ensures AgeOutcome(BranchSet(d, bs), range, true, values).1.Some?
    ensures d != "age" ==> AgeOutcome(BranchSet(d, bs), range, false, values).1.Some?
  {
  }

  // ----- sorting and checking the age table -----

  /** The comparator the ranges are sorted with: the left lower bound against the right upper bound. */
  predicate SourceLess(a: RangeValue, b: RangeValue) { Lt(a.range.lo, b.range.hi) }

  predicate NonEmpty(r: Range) { Lt(r.lo, r.hi) }

  /** On nonempty ranges that do not overlap, the comparator orders by lower bound. */
  lemma ComparatorOrdersByLowerBound(a: RangeValue, b: RangeValue)
    requires NonEmpty(a.range) && NonEmpty(b.range)
    requires Le(a.range.hi, b.range.lo) || Le(b.range.hi, a.range.lo)
    ensures SourceLess(a, b) <==> Lt(a.range.lo, b.range.lo)
  {
  }

  /**
   * The order the model sorts by: lower bound, then upper bound. On ranges
   * the comparator orders consistently it agrees with the comparator, and the
   * ranges the comparator cannot tell apart have the same key (see
   * SortFollowsComparator and SortStable).
   */
  predicate KeyLt(a: RangeValue, b: RangeValue)
  {
    Lt(a.range.lo, b.range.lo) || (a.range.lo == b.range.lo && Lt(a.range.hi, b.range.hi))
  }

  /** Stable insertion: x goes in front of the first range whose key is not below its own. */
  function InsertByLower(x: RangeValue, rs: seq<RangeValue>): seq<RangeValue>
  {
    if rs == [] then [x]
    else if !KeyLt(rs[0], x) then [x] + rs
    else [rs[0]] + InsertByLower(x, rs[1..])
  }

  /** Insertion adds exactly x. */
  lemma {:induction false} InsertPerm(x: RangeValue, rs: seq<RangeValue>)
    ensures multiset(InsertByLower(x, rs)) == multiset(rs) + multiset{x}
  {
    if rs != [] && KeyLt(rs[0], x) {
      InsertPerm(x, rs[1..]);
      assert rs == [rs[0]] + rs[1..];
    }
  }

  /** No range of rs has a key below p's. */
  predicate KeyAtLeast(p: RangeValue, rs: seq<RangeValue>)
  {
    forall k :: 0 <= k < |rs| ==> !KeyLt(rs[k], p)
  }

  predicate SortedByKey(rs: seq<RangeValue>)
  {
    forall a, b :: 0 <= a < b < |rs| ==> !KeyLt(rs[b], rs[a])
  }

  predicate SortedByLower(rs: seq<RangeValue>)
  {
    forall a, b :: 0 <= a < b < |rs| ==> Le(rs[a].range.lo, rs[b].range.lo)
  }

  /** "Not below" is transitive. */
  lemma KeyLeTrans(a: RangeValue, b: RangeValue, c: RangeValue)
    requires !KeyLt(b, a) && !KeyLt(c, b)
    ensures !KeyLt(c, a)
  {
  }

  lemma SortedByKeyByLower(rs: seq<RangeValue>)
    requires SortedByKey(rs)
    ensures SortedByLower(rs)
  {
    forall a, b | 0 <= a < b < |rs|
      ensures Le(rs[a].range.lo, rs[b].range.lo)
    {
      assert !KeyLt(rs[b], rs[a]);
    }
  }

  lemma ConsSorted(p: RangeValue, t: seq<RangeValue>)
    requires SortedByKey(t) && KeyAtLeast(p, t)
    ensures SortedByKey([p] + t)
  {
    var r := [p] + t;
    forall a, b | 0 <= a < b < |r|
      ensures !KeyLt(r[b], r[a])
    {
      assert r[b] == t[b - 1];
      if a > 0 { assert r[a] == t[a - 1]; }
    }
  }

  lemma InsertBounded(p: RangeValue, x: RangeValue, rs: seq<RangeValue>)
    requires !KeyLt(x, p) && KeyAtLeast(p, rs)
    ensures KeyAtLeast(p, InsertByLower(x, rs))
  {
    var r := InsertByLower(x, rs);
    InsertPerm(x, rs);
    forall k | 0 <= k < |r|
      ensures !KeyLt(r[k], p)
    {
      assert r[k] in multiset(r);
      if r[k] != x {
        assert r[k] in multiset(rs);
        var j :| 0 <= j < |rs| && rs[j] == r[k];
      }
    }
  }

  lemma {:induction false} InsertKeepsSorted(x: RangeValue, rs: seq<RangeValue>)
    requires SortedByKey(rs)
    ensures SortedByKey(InsertByLower(x, rs))
  {
    if rs != [] {
      var t := rs[1..];
      assert rs == [rs[0]] + t;
      assert SortedByKey(t) by {
        forall a, b | 0 <= a < b < |t|
          ensures !KeyLt(t[b], t[a])
        {
          assert t[a] == rs[a + 1] && t[b] == rs[b + 1];
        }
      }
      assert KeyAtLeast(rs[0], t) by {
        forall k | 0 <= k < |t|
          ensures !KeyLt(t[k], rs[0])
        {
          assert t[k] == rs[k + 1];
        }
      }
      if !KeyLt(rs[0], x) {
        forall k | 0 <= k < |rs|
          ensures !KeyLt(rs[k], x)
        {
          if k > 0 { KeyLeTrans(x, rs[0], rs[k]); }
        }
        ConsSorted(x, rs);
      } else {
        InsertKeepsSorted(x, t);
        InsertBounded(rs[0], x, t);
        ConsSorted(rs[0], InsertByLower(x, t));
      }
    }
  }

  /**
   * The sort of the pushed ranges (`std::list::sort`, which is stable): a
   * stable insertion sort by lower and then upper bound.
   */
  function SortByLower(rs: seq<RangeValue>): (r: seq<RangeValue>)
    ensures SortedByKey(r)
  {
    if rs == [] then []
    else
      var sorted := SortByLower(rs[1..]);
      InsertKeepsSorted(rs[0], sorted);
      InsertByLower(rs[0], sorted)
  }

  /** The sorted list is a permutation of the pushed ranges. */
  lemma {:induction false} SortPerm(rs: seq<RangeValue>)
    ensures multiset(SortByLower(rs)) == multiset(rs)
  {
    if rs != [] {
      SortPerm(rs[1..]);
      InsertPerm(rs[0], SortByLower(rs[1..]));
      assert rs == [rs[0]] + rs[1..];
    }
  }

  /** The sorted list is sorted by lower bound, as `checkAndApplyRanges` needs. */
  lemma SortedLowerBounds(rs: seq<RangeValue>)
    ensures SortedByLower(SortByLower(rs))
  {
    SortedByKeyByLower(SortByLower(rs));
  }

  /** The ranges of rs with exactly the range `key`, in their order in rs. */
  function WithRange(rs: seq<RangeValue>, key: Range): seq<RangeValue>
  {
    if rs == [] then [] else (if rs[0].range == key then [rs[0]] else []) + WithRange(rs[1..], key)
  }

  lemma {:induction false} InsertWithRange(x: RangeValue, rs: seq<RangeValue>, key: Range)
    ensures WithRange(InsertByLower(x, rs), key) == (if x.range == key then [x] else []) + WithRange(rs, key)
  {
    if rs != [] && KeyLt(rs[0], x) {
      var r := InsertByLower(x, rs);
      InsertWithRange(x, rs[1..], key);
      assert r[1..] == InsertByLower(x, rs[1..]);
      if x.range == key {
        assert rs[0].range != key;
      }
    }
  }

  /** Stability: ranges with the same bounds keep the order they were pushed in. */
  lemma {:induction false} SortStable(rs: seq<RangeValue>, key: Range)
    ensures WithRange(SortByLower(rs), key) == WithRange(rs, key)
  {
    if rs != [] {
      SortStable(rs[1..], key);
      InsertWithRange(rs[0], SortByLower(rs[1..]), key);
    }
  }

  /**
   * The comparator is consistent on rs when no two different ranges of rs
   * are each "less" than the other; it then orders rs strictly and weakly,
   * which `std::list::sort` needs.
   */
  predicate ComparatorConsistent(rs: seq<RangeValue>)
  {
    forall p, q :: p in rs && q in rs && p != q ==> !(SourceLess(p, q) && SourceLess(q, p))
  }

  /** A pair in key order that the comparator orders consistently is not reversed by it. */
  lemma KeyOrderFollowsComparator(p: RangeValue, q: RangeValue)
    requires Ordered(q.range) && !KeyLt(q, p)
    requires !(SourceLess(p, q) && SourceLess(q, p))
    ensures !SourceLess(q, p)
  {
  }

  /**
   * Where the comparator is consistent and every range is ordered (as
   * `intersection` makes them), no range of the sorted list is "less" under
   * the comparator than one before it: the list is sorted as
   * `std::list::sort` sorts it, and by SortStable keeps the order of the
   * ranges the comparator cannot tell apart.
   */
  lemma SortFollowsComparator(rs: seq<RangeValue>)
    requires ComparatorConsistent(rs)
    requires forall k :: 0 <= k < |rs| ==> Ordered(rs[k].range)
    ensures var r := SortByLower(rs);
            forall a, b :: 0 <= a < b < |r| && r[a] != r[b] ==> !SourceLess(r[b], r[a])
  {
    var r := SortByLower(rs);
    SortPerm(rs);
    forall a, b | 0 <= a < b < |r| && r[a] != r[b]
      ensures !SourceLess(r[b], r[a])
    {
      assert r[a] in multiset(rs) && r[b] in multiset(rs);
      KeyOrderFollowsComparator(r[a], r[b]);
    }
  }

  /**
   * An empty range at a bound sorts between the range ending there and the
   * one starting there, as the comparator puts it.
   */
  lemma EmptyRangeSortsAtBound(a: RangeValue, b: RangeValue, c: RangeValue)
    requires a.range == Range(Fin(0.0), Fin(5.0)) && b.range == Range(Fin(5.0), Inf)
    requires c.range == Range(Fin(5.0), Fin(5.0))
    ensures SortByLower([a, b, c]) == [a, c, b]
  {
    assert KeyLt(c, b) && !KeyLt(c, a);
    SortSwapsLastTwo(a, b, c);
  }

  /** Three ranges of which only the last two are out of key order sort with those two swapped. */
  lemma SortSwapsLastTwo(a: RangeValue, b: RangeValue, c: RangeValue)
    requires KeyLt(c, b) && !KeyLt(c, a)
    ensures SortByLower([a, b, c]) == [a, c, b]
  {
    assert SortByLower([c]) == [c] by {
      SortCons(c, []);
      assert [c] + [] == [c];
    }
    assert SortByLower([b, c]) == [c, b] by {
      SortCons(b, [c]);
      assert [b] + [c] == [b, c];
      InsertBehind(b, c);
    }
    SortCons(a, [b, c]);
    assert [a] + [b, c] == [a, b, c];
    InsertInFront(a, [c, b]);
  }

  lemma SortCons(x: RangeValue, t: seq<RangeValue>)
    ensures SortByLower([x] + t) == InsertByLower(x, SortByLower(t))
  {
    assert ([x] + t)[1..] == t;
  }

  lemma InsertInFront(x: RangeValue, rs: seq<RangeValue>)
    requires rs != [] && !KeyLt(rs[0], x)
    ensures InsertByLower(x, rs) == [x] + rs
  {
  }

  lemma InsertBehind(x: RangeValue, y: RangeValue)
    requires KeyLt(y, x)
    ensures InsertByLower(x, [y]) == [y, x]
  {
    assert [y][1..] == [];
  }

  /** Those three ranges then tile [0, inf), and the empty range's value is the one kept at its bound. */
  lemma EmptyRangeTakesTheBound(a: RangeValue, b: RangeValue, c: RangeValue)
    requires a.range == Range(Fin(0.0), Fin(5.0)) && b.range == Range(Fin(5.0), Inf)
    requires c.range == Range(Fin(5.0), Fin(5.0))
    ensures CheckRanges([a, c, b], 0, Fin(0.0), []) == ([(Fin(5.0), c.value), (Inf, b.value)], None)
  {
    var l := [a, c, b];
    var m1 := Assign([], Fin(5.0), a.value);
    assert m1 == [(Fin(5.0), a.value)];
    var m2 := Assign(m1, Fin(5.0), c.value);
    assert m2 == [(Fin(5.0), c.value)] by { assert m1[1..] == []; }
    var m3 := Assign(m2, Inf, b.value);
    assert m3 == [(Fin(5.0), c.value), (Inf, b.value)] by {
      assert m2[1..] == [];
      assert m3 == [m2[0]] + Assign(m2[1..], Inf, b.value);
    }
    assert CheckRanges(l, 0, Fin(0.0), []) == CheckRanges(l, 1, Fin(5.0), m1);
    assert CheckRanges(l, 1, Fin(5.0), m1) == CheckRanges(l, 2, Fin(5.0), m2);
    assert CheckRanges(l, 2, Fin(5.0), m2) == CheckRanges(l, 3, Inf, m3);
  }

  /** Ranges the comparator cannot tell apart are the same empty range. */
  lemma ComparatorTiesAreEqualEmpty(p: RangeValue, q: RangeValue)
    requires Ordered(p.range) && Ordered(q.range)
    requires !SourceLess(p, q) && !SourceLess(q, p)
    ensures p.range == q.range && p.range.lo == p.range.hi
  {
  }

  /**
   * `std::map<double, value>` as an association list sorted by key: each
   * key at most once, in increasing order.
   */
  predicate KeysIncrease(m: seq<(Ext, string)>)
  {
    forall a, b :: 0 <= a < b < |m| ==> Lt(m[a].0, m[b].0)
  }

  function KeySet(m: seq<(Ext, string)>): set<Ext>
  {
    set p | p in m :: p.0
  }

  lemma KeySetCons(p: (Ext, string), t: seq<(Ext, string)>)
    ensures KeySet([p] + t) == {p.0} + KeySet(t)
  {
    assert forall q :: q in [p] + t <==> q == p || q in t;
  }

  /** `m[k] = v`: replaces the value of key k, or inserts it in order. */
  function Assign(m: seq<(Ext, string)>, k: Ext, v: string): (r: seq<(Ext, string)>)
    requires KeysIncrease(m)
    ensures KeysIncrease(r)
    ensures KeySet(r) == KeySet(m) + {k}
    ensures (k, v) in r
  {
    if m == [] then [(k, v)]
    else if m[0].0 == k then
      assert m == [m[0]] + m[1..];
      KeySetCons(m[0], m[1..]);
      KeySetCons((k, v), m[1..]);
      [(k, v)] + m[1..]
    else if Lt(k, m[0].0) then
      KeySetCons((k, v), m);
      [(k, v)] + m
    else
      var tail := Assign(m[1..], k, v);
      AssignBehind(m, k, v, tail);
      [m[0]] + tail
  }

  /** A key below k stays in front of the list that k was assigned into. */
  lemma AssignBehind(m: seq<(Ext, string)>, k: Ext, v: string, tail: seq<(Ext, string)>)
    requires KeysIncrease(m) && m != [] && Lt(m[0].0, k)
    requires KeysIncrease(tail) && KeySet(tail) == KeySet(m[1..]) + {k} && (k, v) in tail
    ensures KeysIncrease([m[0]] + tail)
    ensures KeySet([m[0]] + tail) == KeySet(m) + {k}
    ensures (k, v) in [m[0]] + tail
  {
    assert m == [m[0]] + m[1..];
    assert forall j :: 0 <= j < |tail| ==> Lt(m[0].0, tail[j].0) by {
      forall j | 0 <= j < |tail|
        ensures Lt(m[0].0, tail[j].0)
      {
        assert tail[j] in tail;
        assert tail[j].0 in KeySet(tail);
        if tail[j].0 != k {
          assert tail[j].0 in KeySet(m[1..]);
          var q :| q in m[1..] && q.0 == tail[j].0;
          var i :| 0 <= i < |m[1..]| && m[1..][i] == q;
          assert m[1..][i] == m[i + 1];
        }
      }
    }
    KeySetCons(m[0], m[1..]);
    KeySetCons(m[0], tail);
  }

  /** `upper_bound`: the value of the first key strictly above the age, if any. */
  function UpperBound(m: seq<(Ext, string)>, age: real): (r: Option<string>)
    ensures r.None? <==> forall j :: 0 <= j < |m| ==> !Lt(Fin(age), m[j].0)
    ensures r.Some? ==> exists j :: 0 <= j < |m| && FirstAbove(m, age, j) && r.value == m[j].1
  {
    if m == [] then None
    else if Lt(Fin(age), m[0].0) then
      assert FirstAbove(m, age, 0);
      Some(m[0].1)
    else
      var r := UpperBound(m[1..], age);
      assert forall j :: 0 < j < |m| ==> m[j] == m[1..][j - 1];
      assert r.Some? ==> exists j :: 0 <= j < |m| && FirstAbove(m, age, j) && r.value == m[j].1 by {
        if r.Some? {
          var j :| 0 <= j < |m[1..]| && FirstAbove(m[1..], age, j) && r.value == m[1..][j].1;
          assert FirstAbove(m, age, j + 1);
        }
      }
      r
  }

  /** Key j is above the age and no earlier key is. */
  predicate FirstAbove(m: seq<(Ext, string)>, age: real, j: nat)
    requires j < |m|
  {
    Lt(Fin(age), m[j].0) && forall i :: 0 <= i < j ==> !Lt(Fin(age), m[i].0)
  }

  /**
   * `checkAndApplyRanges` after the sort, from the k-th range on, with the
   * bound the next range must start at and the table so far: each range
   * must start where the last ended, and the last must end at infinity.
   */
  function CheckRanges(rs: seq<RangeValue>, k: nat, last: Ext, m: seq<(Ext, string)>): (r: (seq<(Ext, string)>, Option<string>))
    requires k <= |rs| && KeysIncrease(m)
    ensures KeysIncrease(r.0)
    decreases |rs| - k
  {
    if k == |rs| then (m, if last != Inf then Some("age range final upper bound should be inf") else None)
    else if last != rs[k].range.lo then (m, Some("age range bounds don't match up"))
    else CheckRanges(rs, k + 1, rs[k].range.hi, Assign(m, rs[k].range.hi, rs[k].value))
  }

  /** The ranges tile [0, inf): the first starts at 0, each starts where the previous ends, the last ends at inf. */
  predicate Tiles(rs: seq<RangeValue>)
  {
    && |rs| > 0
    && rs[0].range.lo == Fin(0.0)
    && (forall k :: 0 <= k < |rs| - 1 ==> rs[k + 1].range.lo == rs[k].range.hi)
    && rs[|rs| - 1].range.hi == Inf
  }

  /** The check from position k passes iff the rest tiles on from `last`. */
  lemma {:induction false} CheckRangesFrom(rs: seq<RangeValue>, k: nat, last: Ext, m: seq<(Ext, string)>)
    requires k <= |rs| && KeysIncrease(m)
    ensures CheckRanges(rs, k, last, m).1.None? <==>
              (k == |rs| ==> last == Inf)
              && (k < |rs| ==> rs[k].range.lo == last && rs[|rs| - 1].range.hi == Inf
                               && forall j :: k <= j < |rs| - 1 ==> rs[j + 1].range.lo == rs[j].range.hi)
    decreases |rs| - k
  {
    if k < |rs| && last == rs[k].range.lo {
      CheckRangesFrom(rs, k + 1, rs[k].range.hi, Assign(m, rs[k].range.hi, rs[k].value));
    }
  }

  /** The age table is accepted iff the sorted ranges tile [0, inf). */
  lemma CheckRangesIff(rs: seq<RangeValue>)
    ensures CheckRanges(rs, 0, Fin(0.0), []).1.None? <==> Tiles(rs)
  {
    CheckRangesFrom(rs, 0, Fin(0.0), []);
  }

  predicate HasInfKey(m: seq<(Ext, string)>)
  {
    exists j :: 0 <= j < |m| && m[j].0 == Inf
  }

  /** A table the check accepts has the key infinity, so every finite age has an upper bound in it. */
  lemma {:induction false} CheckedTableHasInf(rs: seq<RangeValue>, k: nat, last: Ext, m: seq<(Ext, string)>)
    requires k <= |rs| && KeysIncrease(m)
    requires CheckRanges(rs, k, last, m).1.None?
    requires HasInfKey(m) || k < |rs|
    ensures HasInfKey(CheckRanges(rs, k, last, m).0)
    decreases |rs| - k
  {
    if k < |rs| {
      var m' := Assign(m, rs[k].range.hi, rs[k].value);
      if k + 1 == |rs| {
        CheckRangesFrom(rs, k + 1, rs[k].range.hi, m');
        var j :| 0 <= j < |m'| && m'[j] == (rs[k].range.hi, rs[k].value);
      } else if HasInfKey(m) {
        var j :| 0 <= j < |m| && m[j].0 == Inf;
        assert Inf in KeySet(m');
      }
      CheckedTableHasInf(rs, k + 1, rs[k].range.hi, m');
    }
  }

  /** With the key infinity, every age has an upper bound. */
  lemma InfKeyBoundsEveryAge(m: seq<(Ext, string)>, age: real)
    requires HasInfKey(m)
    ensures UpperBound(m, age).Some?
  {
    var j :| 0 <= j < |m| && m[j].0 == Inf;
    assert Lt(Fin(age), m[j].0);
  }

  /**
   * With nonempty ranges that tile [0, inf), the upper bounds strictly
   * increase, so the table lists each range's upper bound and value in
   * order, and the lookup of an age gives the value of the range holding it.
   */
  lemma {:induction false} TiledTable(rs: seq<RangeValue>, k: nat, m: seq<(Ext, string)>)
    requires 0 < k <= |rs| && Tiles(rs) && forall j :: 0 <= j < |rs| ==> NonEmpty(rs[j].range)
    requires |m| == k && KeysIncrease(m)
    requires forall j :: 0 <= j < k ==> m[j] == (rs[j].range.hi, rs[j].value)
    ensures CheckRanges(rs, k, rs[k - 1].range.hi, m).0 == seq(|rs|, j requires 0 <= j < |rs| => (rs[j].range.hi, rs[j].value))
    decreases |rs| - k
  {
    if k < |rs| {
      var hi := rs[k].range.hi;
      assert rs[k].range.lo == rs[k - 1].range.hi;
      var m' := m + [(hi, rs[k].value)];
      AssignAppends(m, hi, rs[k].value);
      TiledTable(rs, k + 1, m');
    } else {
      assert m == seq(|rs|, j requires 0 <= j < |rs| => (rs[j].range.hi, rs[j].value));
    }
  }

  lemma {:induction false} AssignAppends(m: seq<(Ext, string)>, k: Ext, v: string)
    requires KeysIncrease(m) && forall j :: 0 <= j < |m| ==> Lt(m[j].0, k)
    ensures Assign(m, k, v) == m + [(k, v)]
    decreases |m|
  {
    if m != [] {
      assert Lt(m[0].0, k);
      var tail := m[1..];
      assert forall j :: 0 <= j < |tail| ==> tail[j] == m[j + 1];
      AssignAppends(tail, k, v);
      AssignAppendsStep(m, k, v);
    }
  }

  /** One key below k in front of a list that k extends at the end. */
  lemma AssignAppendsStep(m: seq<(Ext, string)>, k: Ext, v: string)
    requires KeysIncrease(m) && m != [] && Lt(m[0].0, k)
    requires Assign(m[1..], k, v) == m[1..] + [(k, v)]
    ensures Assign(m, k, v) == m + [(k, v)]
  {
    assert m[0].0 != k && !Lt(k, m[0].0);
    Seqs.ConsSnoc(m, (k, v));
  }


  /** In a tiling of nonempty ranges, each range ends no later than any later range starts. */
  lemma {:induction false} TilesOrder(rs: seq<RangeValue>, i: nat, j: nat)
    requires Tiles(rs) && forall k :: 0 <= k < |rs| ==> NonEmpty(rs[k].range)
    requires i < j < |rs|
    ensures Le(rs[i].range.hi, rs[j].range.lo)
    decreases j - i
  {
    if i + 1 < j {
      TilesOrder(rs, i, j - 1);
      assert rs[j].range.lo == rs[j - 1].range.hi;
    } else {
      assert rs[i + 1].range.lo == rs[i].range.hi;
    }
  }

  /** The checked table of a tiling gives every age the value of the range that holds it. */
  lemma AgeLookup(rs: seq<RangeValue>, j: nat, age: real)
    requires Tiles(rs) && forall k :: 0 <= k < |rs| ==> NonEmpty(rs[k].range)
    requires j < |rs| && InRange(rs[j].range, age)
    ensures UpperBound(CheckRanges(rs, 0, Fin(0.0), []).0, age) == Some(rs[j].value)
  {
    var first := [(rs[0].range.hi, rs[0].value)];
    assert Assign([], rs[0].range.hi, rs[0].value) == first;
    assert CheckRanges(rs, 0, Fin(0.0), []) == CheckRanges(rs, 1, rs[0].range.hi, first);
    TiledTable(rs, 1, first);
    TableLookup(rs, j, age, CheckRanges(rs, 0, Fin(0.0), []).0);
  }

  /** In the table of a tiling's upper bounds, an age in range j first falls below bound j. */
  lemma TableLookup(rs: seq<RangeValue>, j: nat, age: real, t: seq<(Ext, string)>)
    requires Tiles(rs) && forall k :: 0 <= k < |rs| ==> NonEmpty(rs[k].range)
    requires j < |rs| && InRange(rs[j].range, age)
    requires t == seq(|rs|, k requires 0 <= k < |rs| => (rs[k].range.hi, rs[k].value))
    ensures UpperBound(t, age) == Some(rs[j].value)
  {
    assert Lt(Fin(age), t[j].0);
    var r := UpperBound(t, age);
    var i :| 0 <= i < |t| && FirstAbove(t, age, i) && r.value == t[i].1;
    if i < j {
      TilesOrder(rs, i, j);
      assert false;
    }
    assert !(j < i);
  }

  // ----- the age decision and its processor -----

  /** `ESDecisionAge`: the age table `age_upper_bounds`. */
  class AgeDecision {
    const decision: string
    const values: seq<string>
    var ageUpperBounds: seq<(Ext, string)>

    /** The table is ordered and reaches infinity, as a successful set-up leaves it. */
    predicate Valid()
      reads this
    {
      KeysIncrease(ageUpperBounds) && HasInfKey(ageUpperBounds)
    }

    constructor(decision: string, values: seq<string>)
      ensures this.decision == decision && this.values == values && ageUpperBounds == []
    {
      this.decision := decision;
      this.values := values;
      ageUpperBounds := [];
    }

    /** `determineImpl`: the value of the first upper bound strictly above the age. */
    function Determine(age: real): (r: string)
      reads this
      requires Valid() && 0.0 <= age
      ensures exists j :: 0 <= j < |ageUpperBounds| && FirstAbove(ageUpperBounds, age, j) && r == ageUpperBounds[j].1
    {
      InfKeyBoundsEveryAge(ageUpperBounds, age);
      UpperBound(ageUpperBounds, age).value
    }
  }

  /** What setting up an age decision from a parsed tree yields: the table and the error raised, if any. */
  function AgeProcess(values: seq<string>, tree: Outcome): (r: (seq<(Ext, string)>, Option<string>))
    requires WellKinded(tree)
    ensures KeysIncrease(r.0)
  {
    var (rs, err) := AgeOutcome(tree, Range(Fin(0.0), Inf), false, values);
    if err.Some? then ([], err) else CheckRanges(SortByLower(rs), 0, Fin(0.0), [])
  }

  /**
   * Set-up succeeds iff the tree only branches on age, its leaves are values
   * of the decision, and the sorted ranges tile [0, inf); the age lookup then
   * gives each range's value to the ages it holds.
   */
  lemma AgeProcessMeaning(values: seq<string>, tree: Outcome, j: nat, age: real)
    requires WellKinded(tree)
    ensures AgeProcess(values, tree).1.None? <==>
              AgeOutcome(tree, Range(Fin(0.0), Inf), false, values).1.None?
              && Tiles(SortByLower(AgeOutcome(tree, Range(Fin(0.0), Inf), false, values).0))
    ensures var rs := SortByLower(AgeOutcome(tree, Range(Fin(0.0), Inf), false, values).0);
            AgeProcess(values, tree).1.None? && (forall k :: 0 <= k < |rs| ==> NonEmpty(rs[k].range))
            && j < |rs| && InRange(rs[j].range, age)
            ==> UpperBound(AgeProcess(values, tree).0, age) == Some(rs[j].value)
  {
    var (rs, err) := AgeOutcome(tree, Range(Fin(0.0), Inf), false, values);
    if err.None? {
      var sorted := SortByLower(rs);
      CheckRangesIff(sorted);
      if Tiles(sorted) && (forall k :: 0 <= k < |sorted| ==> NonEmpty(sorted[k].range)) && j < |sorted| && InRange(sorted[j].range, age) {
        AgeLookup(sorted, j, age);
      }
    }
  }

  /** `DA_processor`: collects the ranges of a tree, then sorts, checks and applies them. */
  class DAProcessor {
    const values: seq<string>
    var ranges: seq<RangeValue>

    constructor(values: seq<string>)
      ensures this.values == values && ranges == []
    {
      this.values := values;
      ranges := [];
    }

    /** `processOutcome`: pushes a leaf's range, or processes a branch set unless nested. */
    method ProcessOutcome(o: Outcome, range: Range, deep: bool) returns (err: Option<string>)
      requires WellKinded(o)
      modifies this
      ensures ranges == old(ranges) + AgeOutcome(o, range, deep, values).0
      ensures err == AgeOutcome(o, range, deep, values).1
      decreases o, 1
    {
      match o
      case Leaf(v) =>
        if v in values {
          ranges := ranges + [RangeValue(range, v)];
          err := None;
        } else {
          err := Some("unknown value " + v);
        }
      case BranchSet(d, bs) =>
        if deep {
          err := Some("age-branches within age-branches not supported");
        } else {
          err := ProcessBranches(o, range);
        }
    }

    /** `processBranches`: each age branch under the intersection of its range with `range`. */
    method ProcessBranches(o: Outcome, range: Range) returns (err: Option<string>)
      requires o.BranchSet? && WellKinded(o)
      modifies this
      ensures o.decision != "age" ==>
                ranges == old(ranges) && err == Some("cannot depend on anything other than age (tried to use " + o.decision + ")")
      ensures o.decision == "age" ==>
                ranges == old(ranges) + AgeBranches(o, 0, range, values).0 && err == AgeBranches(o, 0, range, values).1
      decreases o, 0
    {
      if o.decision != "age" {
        return Some("cannot depend on anything other than age (tried to use " + o.decision + ")");
      }
      ghost var pushed: seq<RangeValue> := [];
      var k := 0;
      while k < |o.branches|
        invariant 0 <= k <= |o.branches|
        invariant ranges == old(ranges) + pushed
        invariant AgeBranches(o, 0, range, values).0 == pushed + AgeBranches(o, k, range, values).0
        invariant AgeBranches(o, 0, range, values).1 == AgeBranches(o, k, range, values).1
        decreases |o.branches| - k
      {
        var b := o.branches[k];
        assert KindFits(o.decision, b.decValue) && WellKinded(b.outcome);
        ghost var before := ranges;
        err := ProcessOutcome(b.outcome, Intersection(range, b.decValue.range), true);
        ghost var first := AgeOutcome(b.outcome, Intersection(range, b.decValue.range), true, values).0;
        Seqs.AppendAssoc(old(ranges), pushed, first);
        if err.Some? {
          return;
        }
        Seqs.AppendAssoc(pushed, first, AgeBranches(o, k + 1, range, values).0);
        pushed := pushed + first;
        k := k + 1;
      }
      err := None;
    }

    /** `checkAndApplyRanges`: sorts the ranges, then checks they tile [0, inf) while writing the table. */
    method CheckAndApplyRanges(dA: AgeDecision) returns (err: Option<string>)
      requires KeysIncrease(dA.ageUpperBounds)
      modifies this, dA
      ensures ranges == SortByLower(old(ranges))
      ensures (dA.ageUpperBounds, err) == CheckRanges(ranges, 0, Fin(0.0), old(dA.ageUpperBounds))
    {
      ranges := SortByLower(ranges);
      var lastUBound := Fin(0.0);
      var k := 0;
      while k < |ranges|
        invariant 0 <= k <= |ranges| && KeysIncrease(dA.ageUpperBounds)
        invariant ranges == SortByLower(old(ranges))
        invariant CheckRanges(ranges, k, lastUBound, dA.ageUpperBounds) == CheckRanges(ranges, 0, Fin(0.0), old(dA.ageUpperBounds))
        decreases |ranges| - k
      {
        var rv := ranges[k];
        if lastUBound != rv.range.lo {
          return Some("age range bounds don't match up");
        }
        lastUBound := rv.range.hi;
        dA.ageUpperBounds := Assign(dA.ageUpperBounds, rv.range.hi, rv.value);
        k := k + 1;
      }
      if lastUBound != Inf {
        return Some("age range final upper bound should be inf");
      }
      err := None;
    }
  }

  /** The `ESDecisionAge` constructor: processes the parsed tree into a new decision's age table. */
  method NewAgeDecision(decision: string, values: seq<string>, tree: Outcome) returns (dA: AgeDecision, err: Option<string>)
    requires WellKinded(tree)
    ensures fresh(dA) && dA.decision == decision && dA.values == values
    ensures (dA.ageUpperBounds, err) == AgeProcess(values, tree)
    ensures err.None? ==> dA.Valid()
  {
    dA := new AgeDecision(decision, values);
    var processor := new DAProcessor(values);
    ghost var collected := AgeOutcome(tree, Range(Fin(0.0), Inf), false, values);
    err := processor.ProcessOutcome(tree, Range(Fin(0.0), Inf), false);
    assert processor.ranges == collected.0 && err == collected.1;
    if err.Some? {
      assert AgeProcess(values, tree) == ([], err);
      return;
    }
    assert AgeProcess(values, tree) == CheckRanges(SortByLower(collected.0), 0, Fin(0.0), []);
    err := processor.CheckAndApplyRanges(dA);
    if err.None? {
      CheckedTableHasInf(processor.ranges, 0, Fin(0.0), []);
    }
  }

  // ----- creating decisions -----

  /** The kind of decision `create` makes, with the dependencies a value decision keeps. */
  datatype DecisionKind = AgeKind | RandomKind(depends: seq<string>) | DeterministicKind(depends: seq<string>)

  /** Names the built-in decisions use. */
  predicate Reserved(name: string)
  {
    name == "age" || name == "p" || name == "case" || name == "result"
  }

  /** `vector::erase` at the first occurrence of x. */
  function RemoveFirst(s: seq<string>, x: string): (r: seq<string>)
    requires x in s
    ensures multiset(r) + multiset{x} == multiset(s)
    ensures |r| == |s| - 1
  {
    if s[0] == x then
      assert s == [s[0]] + s[1..];
      s[1..]
    else
      assert s == [s[0]] + s[1..];
      [s[0]] + RemoveFirst(s[1..], x)
  }

  /**
   * `ESDecisionTree::create`: a reserved name is rejected; a dependency on
   * "age" makes an age decision and must be the only one; otherwise the first
   * "p" is removed and makes the decision random, and without one it is
   * deterministic.
   */
  function Create(name: string, depends: seq<string>): (r: Result<DecisionKind>)
  {
    if Reserved(name) then Err("error: " + name + " is a reserved decision name")
    else if "age" in depends then
      if |depends| != 1 then Err("decision tree " + name + ": a decision depending on \"age\" may not depend on anything else")
      else Ok(AgeKind)
    else if "p" in depends then Ok(RandomKind(RemoveFirst(depends, "p")))
    else Ok(DeterministicKind(depends))
  }

  /**
   * What `create` accepts and what it makes: it fails exactly for reserved
   * names and for "age" with other dependencies; an age decision depends on
   * "age" alone; a value decision never keeps "age", a random one keeps the
   * other dependencies with one "p" fewer, and a deterministic one has no "p".
   */
  lemma CreateMeaning(name: string, depends: seq<string>)
    ensures Create(name, depends).Err? <==> Reserved(name) || ("age" in depends && depends != ["age"])
    ensures Create(name, depends) == Ok(AgeKind) <==> !Reserved(name) && depends == ["age"]
    ensures Create(name, depends).Ok? && Create(name, depends).value.RandomKind? ==>
              "p" in depends && multiset(Create(name, depends).value.depends) + multiset{"p"} == multiset(depends)
    ensures Create(name, depends).Ok? && Create(name, depends).value != AgeKind ==>
              "age" !in Create(name, depends).value.depends
    ensures Create(name, depends).Ok? && Create(name, depends).value.DeterministicKind? ==>
              "p" !in Create(name, depends).value.depends && Create(name, depends).value.depends == depends
  {
    if !Reserved(name) && "age" in depends && |depends| == 1 {
      assert depends == [depends[0]];
    }
    if !Reserved(name) && "age" !in depends && "p" in depends {
      var r := RemoveFirst(depends, "p");
      assert "age" in r ==> "age" in multiset(r);
      assert "age" !in multiset(depends);
    }
  }

  // ----- the built-in decisions -----

  /** `ESDecisionUC2Test::determineImpl`: a second case is "UC2", any other "UC1"; only uncomplicated sick hosts are asked. */
  function UC2Determine(sick: bool, complicated: bool, secondCase: bool): (r: string)
    requires sick && !complicated
    ensures r == "UC1" || r == "UC2"
    ensures r == "UC2" <==> secondCase
  {
    if secondCase then "UC2" else "UC1"
  }

  /** The "test" input of the parasite-test decision. */
  datatype Test = NoTest | Microscopy | RDT

  const MICROSCOPY_DENS_50: real := 20.0
  const MICROSCOPY_SPECIFICITY: real := 0.75
  const RDT_DENS_50: real := 50.0
  const RDT_SPECIFICITY: real := 0.942

  /** The chance of a positive outcome at total parasite density `dens`. */
  function PPositive(dens50: real, specificity: real, dens: real): real
    requires dens50 > 0.0 && dens >= 0.0
  {
    1.0 - specificity + specificity * DensityFraction(dens50, dens)
  }

  /** dens / (dens + dens50): 1/2 at dens50, rising towards 1. */
  function DensityFraction(dens50: real, dens: real): real
    requires dens50 > 0.0 && dens >= 0.0
  {
    dens / (dens + dens50)
  }

  lemma DensityFractionBounds(dens50: real, dens: real)
    requires dens50 > 0.0 && dens >= 0.0
    ensures 0.0 <= DensityFraction(dens50, dens) < 1.0
  {
    var f := DensityFraction(dens50, dens);
    assert f * (dens + dens50) == dens;
    if f >= 1.0 {
      assert false;
    }
  }

  lemma DensityFractionMonotone(dens50: real, d1: real, d2: real)
    requires dens50 > 0.0 && 0.0 <= d1 <= d2
    ensures DensityFraction(dens50, d1) <= DensityFraction(dens50, d2)
  {
    assert d1 * (d2 + dens50) <= d2 * (d1 + dens50);
    DivideMonotone(d1, d1 + dens50, d2, d2 + dens50);
  }

  /** With a specificity in (0, 1], the chance of a positive is at least 1 - specificity and below 1. */
  lemma PPositiveBounds(dens50: real, specificity: real, dens: real)
    requires dens50 > 0.0 && dens >= 0.0 && 0.0 < specificity <= 1.0
    ensures 1.0 - specificity <= PPositive(dens50, specificity, dens) < 1.0
  {
    DensityFractionBounds(dens50, dens);
    var f := DensityFraction(dens50, dens);
    assert 0.0 <= specificity * f < specificity by { MulBelow(specificity, f); }
    assert PPositive(dens50, specificity, dens) == 1.0 - specificity + specificity * f;
  }

  /** Scaling by a fraction below 1 stays below the positive scale. */
  lemma MulBelow(w: real, x: real)
    requires w > 0.0 && 0.0 <= x < 1.0
    ensures 0.0 <= w * x < w
  {
    assert w * (1.0 - x) > 0.0;
  }

  /** A higher density never lowers the chance of a positive. */
  lemma PPositiveMonotone(dens50: real, specificity: real, d1: real, d2: real)
    requires dens50 > 0.0 && 0.0 <= d1 <= d2 && specificity >= 0.0
    ensures PPositive(dens50, specificity, d1) <= PPositive(dens50, specificity, d2)
  {
    DensityFractionMonotone(dens50, d1, d2);
    var f1 := DensityFraction(dens50, d1);
    var f2 := DensityFraction(dens50, d2);
    assert specificity * f1 <= specificity * f2;
  }

  lemma DivideMonotone(a: real, b: real, c: real, d: real)
    requires b > 0.0 && d > 0.0 && a * d <= c * b
    ensures a / b <= c / d
  {
    assert a / b == (a * d) / (b * d);
    assert c / d == (c * b) / (b * d);
  }

  /**
   * `ESDecisionParasiteTest::determineImpl`: "none" without a test, else
   * "positive" iff the uniform draw falls below the chance of a positive at
   * the host's density, with microscopy's or the RDT's parameters.
   */
  function ParasiteTestDetermine(test: Test, dens: real, draw: real): (r: string)
    requires dens >= 0.0
    ensures test == NoTest <==> r == "none"
    ensures test == Microscopy ==> (r == "positive" <==> draw < PPositive(MICROSCOPY_DENS_50, MICROSCOPY_SPECIFICITY, dens))
    ensures test == RDT ==> (r == "positive" <==> draw < PPositive(RDT_DENS_50, RDT_SPECIFICITY, dens))
    ensures r == "none" || r == "negative" || r == "positive"
  {
    if test == NoTest then "none"
    else
      var (dens50, specificity) := if test == Microscopy then (MICROSCOPY_DENS_50, MICROSCOPY_SPECIFICITY) else (RDT_DENS_50, RDT_SPECIFICITY);
      if draw < PPositive(dens50, specificity, dens) then "positive" else "negative"
  }

  /** Without parasites a test is positive with chance 1 - specificity: 0.25 for microscopy and 0.058 for the RDT. */
  lemma FalsePositiveRates()
    ensures PPositive(MICROSCOPY_DENS_50, MICROSCOPY_SPECIFICITY, 0.0) == 0.25
    ensures PPositive(RDT_DENS_50, RDT_SPECIFICITY, 0.0) == 0.058
  {
  }
}
