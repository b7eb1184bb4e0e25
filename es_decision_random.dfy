/**
 * The value decisions of the event-scheduler decision trees (schema-28,
 * model/Clinical/ESDecisionTree.cpp): `DR_processor`, which turns a parsed
 * tree into `map_cum_p`, the cumulative probabilities of the decision's
 * outcomes for each combination of input values, and the
 * `determineImpl`s of `ESDecisionDeterministic` and `ESDecisionRandom`.
 *
 * A combination of input values is a map from dependency names to value
 * names, where the source ORs bit fields of `ESDecisionValueMap`.
 */
module ESDecisionRandom {
  import opened Wrappers
  import opened ESDecisionTree

  /** Values of some decisions, by decision name. */
  type Combo = map<string, string>

  /** `map_cum_p`: per input combination, the cumulative probability of each outcome index. */
  type Table = map<Combo, seq<real>>

  /**
   * What the processor works with: the decision's name and outcome values,
   * its dependencies, the values of every decision, and whether "p"
   * branches are allowed (random decisions only).
   */
  datatype Context = Context(decision: string, values: seq<string>, depends: seq<string>,
                             dvm: map<string, seq<string>>, allowP: bool)

  /**
   * What `create` and the value map guarantee: the dependencies are known
   * decisions, none is "age", and "p" is one only in a random decision.
   */
  predicate ContextOk(ctx: Context)
  {
    && (forall d :: d in ctx.depends ==> d in ctx.dvm)
    && "age" !in ctx.depends
    && (!ctx.allowP ==> "p" !in ctx.depends)
  }

  // ----- input combinations -----

  /**
   * The input combinations a leaf stands for: the values decided on the way
   * down, with every undecided dependency taking each of its values.
   */
  function Combos(deps: seq<string>, dvm: map<string, seq<string>>, decided: Combo): set<Combo>
    requires forall d :: d in deps ==> d in dvm
  {
    if deps == [] then {decided}
    else
      var rest := Combos(deps[1..], dvm, decided);
      if deps[0] in decided then rest
      else set c, v | c in rest && v in dvm[deps[0]] :: c[deps[0] := v]
  }

  /** c extends `decided` with a value for each undecided dependency, and has no other keys. */
  predicate Completes(c: Combo, deps: seq<string>, dvm: map<string, seq<string>>, decided: Combo)
    requires forall d :: d in deps ==> d in dvm
  {
    && c.Keys == decided.Keys + (set d | d in deps)
    && (forall k :: k in decided ==> k in c && c[k] == decided[k])
    && (forall d :: d in deps && d !in decided ==> d in c && c[d] in dvm[d])
  }

  lemma CompletesExtend(c0: Combo, x: string, v: string, tail: seq<string>, dvm: map<string, seq<string>>, decided: Combo)
    requires x in dvm && (forall d :: d in tail ==> d in dvm)
    requires Completes(c0, tail, dvm, decided) && x !in decided && v in dvm[x]
    ensures Completes(c0[x := v], [x] + tail, dvm, decided)
  {
    assert (set d | d in [x] + tail) == {x} + (set d | d in tail);
  }

  lemma CompletesDrop(c: Combo, x: string, tail: seq<string>, dvm: map<string, seq<string>>, decided: Combo)
    requires x in dvm && (forall d :: d in tail ==> d in dvm)
    requires Completes(c, [x] + tail, dvm, decided) && x !in decided && x !in tail
    ensures x in c && Completes(c - {x}, tail, dvm, decided) && c == (c - {x})[x := c[x]]
  {
    assert (set d | d in [x] + tail) == {x} + (set d | d in tail);
    assert x in [x] + tail;
    assert forall d :: d in tail ==> d in [x] + tail;
  }

  lemma CompletesKeep(c: Combo, x: string, tail: seq<string>, dvm: map<string, seq<string>>, decided: Combo)
    requires x in dvm && (forall d :: d in tail ==> d in dvm)
    requires x in tail || x in decided
    ensures Completes(c, [x] + tail, dvm, decided) <==> Completes(c, tail, dvm, decided)
  {
    assert (set d | d in [x] + tail) == {x} + (set d | d in tail);
  }

  /** Every combination of a leaf completes what was decided above it. */
  lemma {:induction false} CombosSound(deps: seq<string>, dvm: map<string, seq<string>>, decided: Combo, c: Combo)
    requires forall d :: d in deps ==> d in dvm
    requires c in Combos(deps, dvm, decided)
    ensures Completes(c, deps, dvm, decided)
    decreases |deps|
  {
    if deps != [] {
      var x := deps[0];
      var tail := deps[1..];
      assert deps == [x] + tail;
      if x in decided {
        CombosSound(tail, dvm, decided, c);
        CompletesKeep(c, x, tail, dvm, decided);
      } else {
        var c0, v :| c0 in Combos(tail, dvm, decided) && v in dvm[x] && c == c0[x := v];
        CombosSound(tail, dvm, decided, c0);
        CompletesExtend(c0, x, v, tail, dvm, decided);
      }
    }
  }

  /** Every completion of what was decided above a leaf is one of its combinations. */
  lemma {:induction false} CombosComplete(deps: seq<string>, dvm: map<string, seq<string>>, decided: Combo, c: Combo)
    requires forall d :: d in deps ==> d in dvm
    requires Completes(c, deps, dvm, decided)
    ensures c in Combos(deps, dvm, decided)
    decreases |deps|
  {
    if deps != [] {
      var x := deps[0];
      var tail := deps[1..];
      assert deps == [x] + tail;
      var rest := Combos(tail, dvm, decided);
      if x in decided {
        assert Combos(deps, dvm, decided) == rest;
        CompletesKeep(c, x, tail, dvm, decided);
        CombosComplete(tail, dvm, decided, c);
      } else {
        assert Combos(deps, dvm, decided) == set c1, v | c1 in rest && v in dvm[x] :: c1[x := v];
        assert x in deps;
        assert x in c && c[x] in dvm[x];
        var c0 := if x in tail then c else c - {x};
        if x in tail {
          CompletesKeep(c, x, tail, dvm, decided);
          assert c == c[x := c[x]];
        } else {
          CompletesDrop(c, x, tail, dvm, decided);
        }
        CombosComplete(tail, dvm, decided, c0);
        assert c0 in rest && c == c0[x := c[x]];
        assert c in (set c1, v | c1 in rest && v in dvm[x] :: c1[x := v]);
      }
    } else {
      assert c.Keys == decided.Keys;
      assert c == decided;
    }
  }

  /** The combinations of a leaf are exactly the completions of what was decided above it. */
  lemma CombosMeaning(deps: seq<string>, dvm: map<string, seq<string>>, decided: Combo, c: Combo)
    requires forall d :: d in deps ==> d in dvm
    ensures c in Combos(deps, dvm, decided) <==> Completes(c, deps, dvm, decided)
  {
    if c in Combos(deps, dvm, decided) {
      CombosSound(deps, dvm, decided, c);
    }
    if Completes(c, deps, dvm, decided) {
      CombosComplete(deps, dvm, decided, c);
    }
  }

  /** The completions of `{}`: one value for every dependency. */
  predicate IsInput(ctx: Context, c: Combo)
    requires ContextOk(ctx)
  {
    Completes(c, ctx.depends, ctx.dvm, map[])
  }

  /** Decisions taken on the way down are dependencies and take their own values. */
  predicate DecidedOk(ctx: Context, decided: Combo)
  {
    forall k :: k in decided ==> k in ctx.depends && k in ctx.dvm && decided[k] in ctx.dvm[k]
  }

  /** A completion of well-formed decided values is a full input combination. */
  lemma CompletionIsInput(ctx: Context, decided: Combo, c: Combo)
    requires ContextOk(ctx) && DecidedOk(ctx, decided)
    requires Completes(c, ctx.depends, ctx.dvm, decided)
    ensures IsInput(ctx, c)
  {
    var deps := set d | d in ctx.depends;
    assert decided.Keys <= deps;
    var none: Combo := map[];
    assert c.Keys == none.Keys + deps;
  }

  // ----- cumulative probability vectors -----

  /** `vector::resize(n, 0.0)`: truncates or pads with zeros. */
  function Resize(v: seq<real>, n: nat): (r: seq<real>)
    ensures |r| == n
    ensures forall j :: 0 <= j < n ==> r[j] == if j < |v| then v[j] else 0.0
  {
    if |v| >= n then v[..n] else v + seq(n - |v|, _ => 0.0)
  }

  /** Adds p to the entries from index i on. */
  function AddFrom(v: seq<real>, i: nat, p: real): (r: seq<real>)
    ensures |r| == |v|
  {
    seq(|v|, j requires 0 <= j < |v| => if i <= j then v[j] + p else v[j])
  }

  /** The probability a cumulative vector gives outcome j. */
  function ProbOf(v: seq<real>, j: nat): real
    requires j < |v|
  {
    if j == 0 then v[0] else v[j] - v[j - 1]
  }

  /** Adding p from index i on raises the probability of outcome i by p and leaves the others alone. */
  lemma AddFromAddsToOneOutcome(v: seq<real>, i: nat, p: real, j: nat)
    requires j < |v|
    ensures ProbOf(AddFrom(v, i, p), j) == ProbOf(v, j) + (if j == i then p else 0.0)
  {
  }

  function Get(t: Table, c: Combo): seq<real>
  {
    if c in t then t[c] else []
  }

  /** One leaf: every combination's vector, resized to n, gains p from index i on. */
  function LeafUpdate(t: Table, combos: set<Combo>, i: nat, p: real, n: nat): (r: Table)
    ensures r.Keys == t.Keys + combos
    ensures forall c :: c in t && c !in combos ==> r[c] == t[c]
  {
    map c | c in t.Keys + combos :: if c in combos then AddFrom(Resize(Get(t, c), n), i, p) else t[c]
  }

  /** The first index holding x. */
  function IndexOf(s: seq<string>, x: string): (r: nat)
    requires x in s
    ensures r < |s| && s[r] == x && x !in s[..r]
  {
    if s[0] == x then 0
    else
      var r := IndexOf(s[1..], x) + 1;
      assert s[1..][..r - 1] == s[1..r];
      assert s[..r] == [s[0]] + s[1..r];
      r
  }

  // ----- processing a tree -----

  /**
   * `processOutcome`: at a leaf, the vectors of all its combinations gain
   * the probability of reaching it from the leaf's outcome index on; a
   * branch set goes to `DRBranchSet`. The result is the table and the error
   * raised, if any.
   */
  function DROutcome(ctx: Context, o: Outcome, decided: Combo, p: real, t: Table): (r: (Table, Option<string>))
    requires ContextOk(ctx) && WellKinded(o)
    decreases o, 1, 0
  {
    match o
    case Leaf(v) =>
      if v !in ctx.values then (t, Some(UnknownValueMessage(ctx.decision, v)))
      else (LeafUpdate(t, Combos(ctx.depends, ctx.dvm, decided), IndexOf(ctx.values, v), p, |ctx.values|), None)
    case BranchSet(_, _) => DRBranchSet(ctx, o, decided, p, t)
  }

  /**
   * `processBranches`: "p" branches when they are allowed, whose
   * probabilities must then sum to 1 within 0.001; otherwise branches on a
   * listed dependency, which must name each of its values once.
   */
  function DRBranchSet(ctx: Context, o: Outcome, decided: Combo, p: real, t: Table): (r: (Table, Option<string>))
    requires ContextOk(ctx) && WellKinded(o) && o.BranchSet?
    decreases o, 0, |o.branches| + 1
  {
    var d := o.decision;
    if ctx.allowP && d == "p" then
      var r := DRProbBranches(ctx, o, 0, decided, p, t);
      if r.1.None? && !SumNearOne(ProbSum(o, |o.branches|)) then (r.0, Some(ProbSumMessage(ctx.decision)))
      else r
    else if d !in ctx.depends then (t, Some(NotListedMessage(ctx.decision, d)))
    else DRValueBranches(ctx, o, 0, decided, p, (set n | n in ctx.dvm[d]), t)
  }

  function UnknownValueMessage(decision: string, v: string): string
  {
    "decision tree " + decision + ": unknown value " + v
  }

  function ProbSumMessage(decision: string): string
  {
    "decision tree " + decision + ": expected probability sum to be 1.0"
  }

  function NotListedMessage(decision: string, d: string): string
  {
    "decision tree " + decision + ": " + d + " not listed as a dependency"
  }

  function NotAnOutcomeMessage(decision: string, d: string, n: string): string
  {
    "decision tree " + decision + ": " + d + "(" + n + ") encountered: " + n + " is not an outcome of " + d
  }

  function MissingBranchesMessage(decision: string): string
  {
    "decision tree " + decision + ": expected branches"
  }

  /** The check on the probabilities of a set of "p" branches: their sum lies in [0.999, 1.001]. */
  predicate SumNearOne(cum: real)
  {
    !(cum < 0.999 || cum > 1.001)
  }

  /** The probability of reaching a "p" branch's child: p times the branch's probability. */
  function ReachP(p: real, q: real): real
  {
    p * q
  }

  /** The sum of the probabilities of the first k "p" branches. */
  function ProbSum(o: Outcome, k: nat): real
    requires WellKinded(o) && o.BranchSet? && o.decision == "p" && k <= |o.branches|
  {
    if k == 0 then 0.0
    else
      assert KindFits(o.decision, o.branches[k - 1].decValue);
      ProbSum(o, k - 1) + o.branches[k - 1].decValue.p
  }

  /**
   * "p" branches from the k-th on: each child is reached with p times its
   * branch's probability. The check that the probabilities sum to 1 follows
   * in `DROutcome`, after all children.
   */
  function DRProbBranches(ctx: Context, o: Outcome, k: nat, decided: Combo, p: real, t: Table): (r: (Table, Option<string>))
    requires ContextOk(ctx) && WellKinded(o) && o.BranchSet? && o.decision == "p" && k <= |o.branches|
    decreases o, 0, |o.branches| - k
  {
    if k == |o.branches| then (t, None)
    else
      var b := o.branches[k];
      assert KindFits(o.decision, b.decValue) && WellKinded(b.outcome);
      var child := DROutcome(ctx, b.outcome, decided, ReachP(p, b.decValue.p), t);
      if child.1.Some? then child
      else DRProbBranches(ctx, o, k + 1, decided, p, child.0)
  }

  /**
   * Branches on a dependency from the k-th on, with the values not yet
   * branched on: each branch must name one of them and decides it for its
   * child; none may be left at the end.
   */
  function DRValueBranches(ctx: Context, o: Outcome, k: nat, decided: Combo, p: real, remaining: set<string>, t: Table): (r: (Table, Option<string>))
    requires ContextOk(ctx) && WellKinded(o) && o.BranchSet? && o.decision in ctx.depends
    requires !(ctx.allowP && o.decision == "p") && k <= |o.branches|
    decreases o, 0, |o.branches| - k
  {
    if k == |o.branches| then
      (t, if remaining != {} then Some(MissingBranchesMessage(ctx.decision)) else None)
    else
      var b := o.branches[k];
      var d := o.decision;
      assert KindFits(d, b.decValue) && WellKinded(b.outcome);
      var n := b.decValue.name;
      if n !in remaining then
        (t, Some(NotAnOutcomeMessage(ctx.decision, d, n)))
      else
        var (t1, err) := DROutcome(ctx, b.outcome, decided[d := n], p, t);
        if err.Some? then (t1, err)
        else DRValueBranches(ctx, o, k + 1, decided, p, remaining - {n}, t1)
  }

  /** One vector after `checkProbabilities`: its entry n - 1, the last outcome's, becomes 1.0. */
  function Forced(v: seq<real>, n: nat): (r: seq<real>)
    ensures |r| == |v|
    ensures 0 < n <= |v| ==> r[n - 1] == 1.0
    ensures forall j :: 0 <= j < |v| && j != n - 1 ==> r[j] == v[j]
  {
    if 0 < n <= |v| then v[n - 1 := 1.0] else v
  }

  /** `checkProbabilities` on a table for n outcomes. */
  function ForceLast(t: Table, n: nat): (r: Table)
    ensures r.Keys == t.Keys
  {
    map c | c in t :: Forced(t[c], n)
  }

  /**
   * `process`: the tree from the root with nothing decided and probability
   * 1, then `checkProbabilities`, which is not reached after an error.
   */
  function DRProcess(ctx: Context, tree: Outcome, t: Table): (r: (Table, Option<string>))
    requires ContextOk(ctx) && WellKinded(tree)
  {
    var (t1, err) := DROutcome(ctx, tree, map[], 1.0, t);
    if err.Some? then (t1, err) else (ForceLast(t1, |ctx.values|), None)
  }

  // ----- what processing guarantees -----

  /** Every vector has one entry per outcome value, and there is at least one value. */
  predicate Lengths(t: Table, n: nat)
  {
    forall c :: c in t ==> |t[c]| == n > 0
  }

  /** Every key is a full input combination. */
  predicate KeysAreInputs(ctx: Context, t: Table)
    requires ContextOk(ctx)
  {
    forall c :: c in t ==> IsInput(ctx, c)
  }

  /** The values a branch set on d leaves to decide are values of d. */
  predicate RemainingOk(ctx: Context, d: string, remaining: set<string>)
    requires d in ctx.dvm
  {
    forall n :: n in remaining ==> n in ctx.dvm[d]
  }

  /** Deciding d as the value a completion already gives it keeps it a completion. */
  lemma CompletesDecide(c: Combo, deps: seq<string>, dvm: map<string, seq<string>>, decided: Combo, d: string)
    requires forall x :: x in deps ==> x in dvm
    requires Completes(c, deps, dvm, decided) && d in deps && d in c
    ensures Completes(c, deps, dvm, decided[d := c[d]])
  {
  }

  /** Processing removes no combination from the table. */
  lemma {:induction false} OutcomeGrows(ctx: Context, o: Outcome, decided: Combo, p: real, t: Table)
    requires ContextOk(ctx) && WellKinded(o)
    ensures t.Keys <= DROutcome(ctx, o, decided, p, t).0.Keys
    decreases o, 1, 0
  {
    match o
    case Leaf(v) =>
    case BranchSet(d, bs) =>
      if ctx.allowP && d == "p" {
        ProbBranchesGrow(ctx, o, 0, decided, p, t);
      } else if d in ctx.depends {
        ValueBranchesGrow(ctx, o, 0, decided, p, (set n | n in ctx.dvm[d]), t);
      }
  }

  lemma {:induction false} ProbBranchesGrow(ctx: Context, o: Outcome, k: nat, decided: Combo, p: real, t: Table)
    requires ContextOk(ctx) && WellKinded(o) && o.BranchSet? && o.decision == "p" && k <= |o.branches|
    ensures t.Keys <= DRProbBranches(ctx, o, k, decided, p, t).0.Keys
    decreases o, 0, |o.branches| - k
  {
    if k < |o.branches| {
      var b := o.branches[k];
      assert KindFits(o.decision, b.decValue) && WellKinded(b.outcome);
      OutcomeGrows(ctx, b.outcome, decided, ReachP(p, b.decValue.p), t);
      var child := DROutcome(ctx, b.outcome, decided, ReachP(p, b.decValue.p), t);
      if child.1.None? {
        ProbBranchesGrow(ctx, o, k + 1, decided, p, child.0);
        var r := DRProbBranches(ctx, o, k + 1, decided, p, child.0);
        assert DRProbBranches(ctx, o, k, decided, p, t) == r;
        assert t.Keys <= child.0.Keys <= r.0.Keys;
      } else {
        assert DRProbBranches(ctx, o, k, decided, p, t) == child;
      }
    }
  }

  lemma {:induction false} ValueBranchesGrow(ctx: Context, o: Outcome, k: nat, decided: Combo, p: real, remaining: set<string>, t: Table)
    requires ContextOk(ctx) && WellKinded(o) && o.BranchSet? && o.decision in ctx.depends
    requires !(ctx.allowP && o.decision == "p") && k <= |o.branches|
    ensures t.Keys <= DRValueBranches(ctx, o, k, decided, p, remaining, t).0.Keys
    decreases o, 0, |o.branches| - k
  {
    if k < |o.branches| {
      var b := o.branches[k];
      var d := o.decision;
      assert KindFits(d, b.decValue) && WellKinded(b.outcome);
      var n := b.decValue.name;
      if n in remaining {
        OutcomeGrows(ctx, b.outcome, decided[d := n], p, t);
        var child := DROutcome(ctx, b.outcome, decided[d := n], p, t);
        if child.1.None? {
          ValueBranchesGrow(ctx, o, k + 1, decided, p, remaining - {n}, child.0);
        }
      }
    }
  }

  /** A leaf keeps one entry per outcome in every vector and adds only full input combinations. */
  lemma LeafKeeps(ctx: Context, decided: Combo, v: string, p: real, t: Table)
    requires ContextOk(ctx) && v in ctx.values && DecidedOk(ctx, decided)
    requires Lengths(t, |ctx.values|) && KeysAreInputs(ctx, t)
    ensures var r := LeafUpdate(t, Combos(ctx.depends, ctx.dvm, decided), IndexOf(ctx.values, v), p, |ctx.values|);
            Lengths(r, |ctx.values|) && KeysAreInputs(ctx, r)
  {
    var combos := Combos(ctx.depends, ctx.dvm, decided);
    forall c | c in combos
      ensures IsInput(ctx, c)
    {
      CombosSound(ctx.depends, ctx.dvm, decided, c);
      CompletionIsInput(ctx, decided, c);
    }
  }

  /** Processing keeps one entry per outcome in every vector and adds only full input combinations. */
  lemma {:induction false} OutcomeKeeps(ctx: Context, o: Outcome, decided: Combo, p: real, t: Table)
    requires ContextOk(ctx) && WellKinded(o) && DecidedOk(ctx, decided)
    requires Lengths(t, |ctx.values|) && KeysAreInputs(ctx, t)
    ensures Lengths(DROutcome(ctx, o, decided, p, t).0, |ctx.values|)
    ensures KeysAreInputs(ctx, DROutcome(ctx, o, decided, p, t).0)
    decreases o, 1, 0
  {
    match o
    case Leaf(v) =>
      if v in ctx.values {
        LeafKeeps(ctx, decided, v, p, t);
      }
    case BranchSet(d, bs) =>
      if ctx.allowP && d == "p" {
        ProbBranchesKeep(ctx, o, 0, decided, p, t);
      } else if d in ctx.depends {
        ValueBranchesKeep(ctx, o, 0, decided, p, (set n | n in ctx.dvm[d]), t);
      }
  }

  lemma {:induction false} ProbBranchesKeep(ctx: Context, o: Outcome, k: nat, decided: Combo, p: real, t: Table)
    requires ContextOk(ctx) && WellKinded(o) && o.BranchSet? && o.decision == "p" && k <= |o.branches|
    requires DecidedOk(ctx, decided) && Lengths(t, |ctx.values|) && KeysAreInputs(ctx, t)
    ensures Lengths(DRProbBranches(ctx, o, k, decided, p, t).0, |ctx.values|)
    ensures KeysAreInputs(ctx, DRProbBranches(ctx, o, k, decided, p, t).0)
    decreases o, 0, |o.branches| - k
  {
    if k < |o.branches| {
      var b := o.branches[k];
      assert KindFits(o.decision, b.decValue) && WellKinded(b.outcome);
      OutcomeKeeps(ctx, b.outcome, decided, ReachP(p, b.decValue.p), t);
      var child := DROutcome(ctx, b.outcome, decided, ReachP(p, b.decValue.p), t);
      if child.1.None? {
        ProbBranchesKeep(ctx, o, k + 1, decided, p, child.0);
      }
    }
  }

  lemma {:induction false} ValueBranchesKeep(ctx: Context, o: Outcome, k: nat, decided: Combo, p: real, remaining: set<string>, t: Table)
    requires ContextOk(ctx) && WellKinded(o) && o.BranchSet? && o.decision in ctx.depends
    requires !(ctx.allowP && o.decision == "p") && k <= |o.branches|
    requires DecidedOk(ctx, decided) && RemainingOk(ctx, o.decision, remaining)
    requires Lengths(t, |ctx.values|) && KeysAreInputs(ctx, t)
    ensures Lengths(DRValueBranches(ctx, o, k, decided, p, remaining, t).0, |ctx.values|)
    ensures KeysAreInputs(ctx, DRValueBranches(ctx, o, k, decided, p, remaining, t).0)
    decreases o, 0, |o.branches| - k
  {
    if k < |o.branches| {
      var b := o.branches[k];
      var d := o.decision;
      assert KindFits(d, b.decValue) && WellKinded(b.outcome);
      var n := b.decValue.name;
      if n in remaining {
        assert DecidedOk(ctx, decided[d := n]);
        OutcomeKeeps(ctx, b.outcome, decided[d := n], p, t);
        var child := DROutcome(ctx, b.outcome, decided[d := n], p, t);
        if child.1.None? {
          ValueBranchesKeep(ctx, o, k + 1, decided, p, remaining - {n}, child.0);
        }
      }
    }
  }

  /** When processing succeeds, every completion of what was decided above has a vector. */
  lemma {:induction false} OutcomeCovers(ctx: Context, o: Outcome, decided: Combo, p: real, t: Table)
    requires ContextOk(ctx) && WellKinded(o) && DecidedOk(ctx, decided)
    requires DROutcome(ctx, o, decided, p, t).1.None?
    ensures forall c :: Completes(c, ctx.depends, ctx.dvm, decided) ==> c in DROutcome(ctx, o, decided, p, t).0
    decreases o, 1, 0
  {
    match o
    case Leaf(v) =>
      forall c | Completes(c, ctx.depends, ctx.dvm, decided)
        ensures c in Combos(ctx.depends, ctx.dvm, decided)
      {
        CombosComplete(ctx.depends, ctx.dvm, decided, c);
      }
    case BranchSet(d, bs) =>
      if ctx.allowP && d == "p" {
        assert !SumNearOne(ProbSum(o, 0));
        ProbBranchesCover(ctx, o, 0, decided, p, t);
      } else {
        var remaining := set n | n in ctx.dvm[d];
        ValueBranchesCover(ctx, o, 0, decided, p, remaining, t);
        forall c | Completes(c, ctx.depends, ctx.dvm, decided)
          ensures d in c && c[d] in remaining
        {
        }
      }
  }

  lemma {:induction false} ProbBranchesCover(ctx: Context, o: Outcome, k: nat, decided: Combo, p: real, t: Table)
    requires ContextOk(ctx) && WellKinded(o) && o.BranchSet? && o.decision == "p" && k <= |o.branches|
    requires DecidedOk(ctx, decided) && DRProbBranches(ctx, o, k, decided, p, t).1.None?
    requires k < |o.branches|
    ensures forall c :: Completes(c, ctx.depends, ctx.dvm, decided) ==> c in DRProbBranches(ctx, o, k, decided, p, t).0
    decreases o, 0, |o.branches| - k
  {
    var b := o.branches[k];
    assert KindFits(o.decision, b.decValue) && WellKinded(b.outcome);
    var child := DROutcome(ctx, b.outcome, decided, ReachP(p, b.decValue.p), t);
    assert child.1.None?;
    var r := DRProbBranches(ctx, o, k + 1, decided, p, child.0);
    assert DRProbBranches(ctx, o, k, decided, p, t) == r;
    OutcomeCovers(ctx, b.outcome, decided, ReachP(p, b.decValue.p), t);
    ProbBranchesGrow(ctx, o, k + 1, decided, p, child.0);
    forall c | Completes(c, ctx.depends, ctx.dvm, decided)
      ensures c in r.0
    {
      assert c in child.0;
    }
  }

  lemma {:induction false} ValueBranchesCover(ctx: Context, o: Outcome, k: nat, decided: Combo, p: real, remaining: set<string>, t: Table)
    requires ContextOk(ctx) && WellKinded(o) && o.BranchSet? && o.decision in ctx.depends
    requires !(ctx.allowP && o.decision == "p") && k <= |o.branches|
    requires DecidedOk(ctx, decided) && RemainingOk(ctx, o.decision, remaining)
    requires DRValueBranches(ctx, o, k, decided, p, remaining, t).1.None?
    ensures forall c :: Completes(c, ctx.depends, ctx.dvm, decided) && o.decision in c && c[o.decision] in remaining ==>
              c in DRValueBranches(ctx, o, k, decided, p, remaining, t).0
    decreases o, 0, |o.branches| - k
  {
    if k < |o.branches| {
      var b := o.branches[k];
      var d := o.decision;
      assert KindFits(d, b.decValue) && WellKinded(b.outcome);
      var n := b.decValue.name;
      var decided' := decided[d := n];
      assert DecidedOk(ctx, decided');
      var child := DROutcome(ctx, b.outcome, decided', p, t);
      OutcomeCovers(ctx, b.outcome, decided', p, t);
      ValueBranchesCover(ctx, o, k + 1, decided, p, remaining - {n}, child.0);
      ValueBranchesGrow(ctx, o, k + 1, decided, p, remaining - {n}, child.0);
      forall c | Completes(c, ctx.depends, ctx.dvm, decided) && d in c && c[d] == n
        ensures c in child.0
      {
        CompletesDecide(c, ctx.depends, ctx.dvm, decided, d);
      }
    }
  }

  /** The name the j-th branch of a branch set on a decision other than "p" and "age" gives. */
  function BranchName(o: Outcome, j: nat): string
    requires WellKinded(o) && o.BranchSet? && o.decision != "p" && o.decision != "age" && j < |o.branches|
  {
    assert KindFits(o.decision, o.branches[j].decValue);
    o.branches[j].decValue.name
  }

  /** The branches from the k-th on name every value in `remaining` exactly once, and nothing else. */
  predicate NamesEachOnce(o: Outcome, k: nat, remaining: set<string>)
    requires WellKinded(o) && o.BranchSet? && o.decision != "p" && o.decision != "age" && k <= |o.branches|
  {
    && (forall j :: k <= j < |o.branches| ==> BranchName(o, j) in remaining)
    && (forall i, j :: k <= i < j < |o.branches| ==> BranchName(o, i) != BranchName(o, j))
    && (forall n :: n in remaining ==> exists j :: k <= j < |o.branches| && BranchName(o, j) == n)
  }

  /** Branches on a dependency that are processed without error name each remaining value once. */
  lemma {:induction false} ValueBranchesExact(ctx: Context, o: Outcome, k: nat, decided: Combo, p: real, remaining: set<string>, t: Table)
    requires ContextOk(ctx) && WellKinded(o) && o.BranchSet? && o.decision in ctx.depends
    requires !(ctx.allowP && o.decision == "p") && k <= |o.branches|
    requires DRValueBranches(ctx, o, k, decided, p, remaining, t).1.None?
    ensures NamesEachOnce(o, k, remaining)
    decreases |o.branches| - k
  {
    if k < |o.branches| {
      var b := o.branches[k];
      var d := o.decision;
      assert KindFits(d, b.decValue) && WellKinded(b.outcome);
      var n := b.decValue.name;
      assert n == BranchName(o, k);
      var child := DROutcome(ctx, b.outcome, decided[d := n], p, t);
      assert n in remaining && child.1.None?;
      assert DRValueBranches(ctx, o, k, decided, p, remaining, t)
          == DRValueBranches(ctx, o, k + 1, decided, p, remaining - {n}, child.0);
      ValueBranchesExact(ctx, o, k + 1, decided, p, remaining - {n}, child.0);
      forall m | m in remaining
        ensures exists j :: k <= j < |o.branches| && BranchName(o, j) == m
      {
        if m != n {
          assert m in remaining - {n};
          var j :| k + 1 <= j < |o.branches| && BranchName(o, j) == m;
        }
      }
    }
  }

  /**
   * A branch set processed without error: "p" branches have probabilities
   * summing to 1 within 0.001; any other branch set is on a listed
   * dependency and names each of its outcomes exactly once.
   */
  lemma BranchSetMeaning(ctx: Context, o: Outcome, decided: Combo, p: real, t: Table)
    requires ContextOk(ctx) && WellKinded(o) && o.BranchSet?
    requires DRBranchSet(ctx, o, decided, p, t).1.None?
    ensures ctx.allowP && o.decision == "p" ==> SumNearOne(ProbSum(o, |o.branches|))
    ensures !(ctx.allowP && o.decision == "p") ==>
              o.decision in ctx.depends && NamesEachOnce(o, 0, (set n | n in ctx.dvm[o.decision]))
  {
    if !(ctx.allowP && o.decision == "p") {
      ValueBranchesExact(ctx, o, 0, decided, p, (set n | n in ctx.dvm[o.decision]), t);
    }
  }

  /**
   * A leaf changes the probability of its own outcome alone in each of its
   * combinations' vectors: outcome i gains p, a vector that was missing
   * starts from all zeros.
   */
  lemma LeafAddsToItsOutcome(t: Table, combos: set<Combo>, i: nat, p: real, n: nat, c: Combo, j: nat)
    requires c in combos && j < n && (c in t ==> |t[c]| == n)
    ensures |LeafUpdate(t, combos, i, p, n)[c]| == n
    ensures ProbOf(LeafUpdate(t, combos, i, p, n)[c], j)
         == (if c in t then ProbOf(t[c], j) else 0.0) + (if j == i then p else 0.0)
  {
    var w := Resize(Get(t, c), n);
    AddFromAddsToOneOutcome(w, i, p, j);
    if c in t {
      assert w == t[c];
    }
  }

  /** Every vector has one entry per outcome, the last of them 1.0. */
  predicate TableOk(t: Table, n: nat)
  {
    forall c :: c in t ==> |t[c]| == n > 0 && t[c][n - 1] == 1.0
  }

  /**
   * When a tree is processed without error, the table holds a vector for
   * exactly the full input combinations, each with one entry per outcome and
   * the last entry 1.0.
   */
  lemma DRProcessMeaning(ctx: Context, tree: Outcome)
    requires ContextOk(ctx) && WellKinded(tree)
    requires DRProcess(ctx, tree, map[]).1.None?
    ensures forall c :: c in DRProcess(ctx, tree, map[]).0 <==> IsInput(ctx, c)
    ensures TableOk(DRProcess(ctx, tree, map[]).0, |ctx.values|)
  {
    var none: Combo := map[];
    var t0: Table := map[];
    OutcomeKeeps(ctx, tree, none, 1.0, t0);
    OutcomeCovers(ctx, tree, none, 1.0, t0);
  }

  /** The first outcome index whose cumulative probability exceeds the sample. */
  predicate FirstExceeding(v: seq<real>, sample: real, i: nat)
  {
    i < |v| && v[i] > sample && forall j :: 0 <= j < i ==> v[j] <= sample
  }

  /** A tree that is a single leaf gives every input combination that leaf's value, whatever the sample. */
  lemma LeafTreeGivesItsValue(ctx: Context, v: string, c: Combo, sample: real)
    requires ContextOk(ctx) && v in ctx.values
    requires c in DRProcess(ctx, Leaf(v), map[]).0 && 0.0 <= sample < 1.0
    ensures DRProcess(ctx, Leaf(v), map[]).1.None?
    ensures FirstExceeding(DRProcess(ctx, Leaf(v), map[]).0[c], sample, IndexOf(ctx.values, v))
  {
    var n := |ctx.values|;
    var i := IndexOf(ctx.values, v);
    var t0: Table := map[];
    var none: Combo := map[];
    var t1 := LeafUpdate(t0, Combos(ctx.depends, ctx.dvm, none), i, 1.0, n);
    assert DROutcome(ctx, Leaf(v), none, 1.0, t0) == (t1, None);
    var w := Resize(Get(t0, c), n);
    assert t1[c] == AddFrom(w, i, 1.0);
    assert DRProcess(ctx, Leaf(v), map[]).0[c] == Forced(t1[c], n);
    LeafVectorExceedsAt(w, i, n, sample);
  }

  /** A zero vector given 1.0 from index i on, its last entry forced to 1.0, first exceeds a sample below 1 at i. */
  lemma LeafVectorExceedsAt(w: seq<real>, i: nat, n: nat, sample: real)
    requires |w| == n && i < n && 0.0 <= sample < 1.0
    requires forall j :: 0 <= j < n ==> w[j] == 0.0
    ensures FirstExceeding(Forced(AddFrom(w, i, 1.0), n), sample, i)
  {
  }

  /** A decision `create` makes from non-age dependencies has a context the processor accepts. */
  lemma CreatedContextOk(name: string, depends: seq<string>, values: seq<string>, dvm: map<string, seq<string>>)
    requires Create(name, depends).Ok? && !Create(name, depends).value.AgeKind?
    requires forall d :: d in Create(name, depends).value.depends ==> d in dvm
    ensures var kind := Create(name, depends).value;
            ContextOk(Context(name, values, kind.depends, dvm, kind.RandomKind?))
  {
    CreateMeaning(name, depends);
  }

  // ----- the imperative processor -----

  /** `ESDecisionDeterministic` and `ESDecisionRandom`: a value decision with its `map_cum_p`. */
  class ValueDecision {
    const decision: string
    const values: seq<string>
    const depends: seq<string>
    const random: bool
    var mapCumP: Table

    /** What a processed tree leaves: one vector per input, each ending at 1.0. */
    predicate Valid()
      reads this
    {
      TableOk(mapCumP, |values|)
    }

    /** `ESDecisionValueBase`: the decision's name, its outcome values and its dependencies, with an empty table. */
    constructor (decision: string, values: seq<string>, depends: seq<string>, random: bool)
      ensures this.decision == decision && this.values == values
      ensures this.depends == depends && this.random == random
      ensures mapCumP == map[]
    {
      this.decision := decision;
      this.values := values;
      this.depends := depends;
      this.random := random;
      mapCumP := map[];
    }

    /** The sample compared with the vector: the uniform draw when random, 0.5 otherwise. */
    function Sample(draw: real): real
    {
      if random then draw else 0.5
    }

    /**
     * `determineImpl`: the first outcome whose cumulative probability exceeds
     * the sample, for the given input combination; an input missing from the
     * table is an error.
     */
    method Determine(input: Combo, draw: real) returns (r: Result<string>)
      requires Valid() && 0.0 <= draw < 1.0
      ensures input !in mapCumP <==> r.Err?
      ensures r.Err? ==> r.msg == "ESDecisionRandom: input combination not found in map (code error)"
      ensures r.Ok? ==> exists i: nat :: FirstExceeding(mapCumP[input], Sample(draw), i) && r.value == values[i]
    {
      if input !in mapCumP {
        return Err("ESDecisionRandom: input combination not found in map (code error)");
      }
      var v := mapCumP[input];
      var sample := Sample(draw);
      var i := 0;
      while v[i] <= sample
        invariant 0 <= i < |v|
        invariant forall j :: 0 <= j < i ==> v[j] <= sample
        decreases |v| - i
      {
        i := i + 1;
      }
      assert FirstExceeding(v, sample, i);
      r := Ok(values[i]);
    }
  }

  /** `DR_processor`: fills a value decision's `map_cum_p` from a parsed tree. */
  class DRProcessor {
    const dvm: map<string, seq<string>>
    const dR: ValueDecision
    const allowP: bool

    function Ctx(): Context
    {
      Context(dR.decision, dR.values, dR.depends, dvm, allowP)
    }

    constructor (dvm: map<string, seq<string>>, dR: ValueDecision, allowP: bool)
      ensures this.dvm == dvm && this.dR == dR && this.allowP == allowP
    {
      this.dvm := dvm;
      this.dR := dR;
      this.allowP := allowP;
    }

    /** `process`: the whole tree, then `checkProbabilities` when no error was raised. */
    method Process(tree: Outcome) returns (err: Option<string>)
      requires ContextOk(Ctx()) && WellKinded(tree)
      modifies dR
      ensures (dR.mapCumP, err) == DRProcess(Ctx(), tree, old(dR.mapCumP))
    {
      err := ProcessOutcome(tree, map[], 1.0);
      if err.None? {
        CheckProbabilities();
      }
    }

    /** `processOutcome`: a leaf adds to its combinations' vectors; a branch set is processed by `ProcessBranches`. */
    method ProcessOutcome(o: Outcome, decided: Combo, p: real) returns (err: Option<string>)
      requires ContextOk(Ctx()) && WellKinded(o)
      modifies dR
      ensures (dR.mapCumP, err) == DROutcome(Ctx(), o, decided, p, old(dR.mapCumP))
      decreases o, 1
    {
      match o
      case Leaf(v) =>
        if v !in dR.values {
          return Some(UnknownValueMessage(dR.decision, v));
        }
        var i := ValueIndex(v);
        var combos := InputCombos(decided);
        AddLeaf(combos, i, p);
        err := None;
      case BranchSet(_, _) =>
        err := ProcessBranches(o, decided, p);
    }

    /** `processBranches`, on "p" branches or on branches over a dependency. */
    method ProcessBranches(o: Outcome, decided: Combo, p: real) returns (err: Option<string>)
      requires ContextOk(Ctx()) && WellKinded(o) && o.BranchSet?
      modifies dR
      ensures (dR.mapCumP, err) == DRBranchSet(Ctx(), o, decided, p, old(dR.mapCumP))
      decreases o, 0, 2
    {
      if allowP && o.decision == "p" {
        err := ProcessProbBranches(o, decided, p);
      } else if o.decision !in dR.depends {
        return Some(NotListedMessage(dR.decision, o.decision));
      } else {
        err := ProcessValueBranches(o, decided, p);
      }
    }

    /** The "p" half of `processBranches`: each branch under its probability, which must sum to 1. */
    method ProcessProbBranches(o: Outcome, decided: Combo, p: real) returns (err: Option<string>)
      requires ContextOk(Ctx()) && WellKinded(o) && o.BranchSet? && o.decision == "p"
      modifies dR
      ensures var r := DRProbBranches(Ctx(), o, 0, decided, p, old(dR.mapCumP));
              (dR.mapCumP, err) == if r.1.None? && !SumNearOne(ProbSum(o, |o.branches|)) then (r.0, Some(ProbSumMessage(dR.decision))) else r
      decreases o, 0, 1
    {
      var bs := o.branches;
      ghost var whole := DRProbBranches(Ctx(), o, 0, decided, p, dR.mapCumP);
      var cum := 0.0;
      var k := 0;
      while k < |bs|
        invariant 0 <= k <= |bs|
        invariant cum == ProbSum(o, k)
        invariant whole == DRProbBranches(Ctx(), o, k, decided, p, dR.mapCumP)
      {
        cum := cum + bs[k].decValue.p;
        err := ProbBranch(o, k, decided, p, whole);
        if err.Some? {
          return;
        }
        k := k + 1;
      }
      if !SumNearOne(cum) {
        return Some(ProbSumMessage(dR.decision));
      }
      err := None;
    }

    /** One "p" branch: its outcome under the probability of reaching it. */
    method ProbBranch(o: Outcome, k: nat, decided: Combo, p: real, ghost whole: (Table, Option<string>)) returns (err: Option<string>)
      requires ContextOk(Ctx()) && WellKinded(o) && o.BranchSet? && o.decision == "p" && k < |o.branches|
      requires whole == DRProbBranches(Ctx(), o, k, decided, p, dR.mapCumP)
      modifies dR
      ensures err.None? ==> whole == DRProbBranches(Ctx(), o, k + 1, decided, p, dR.mapCumP)
      ensures err.Some? ==> (dR.mapCumP, err) == whole
      decreases o, 0, 0
    {
      var b := o.branches[k];
      assert KindFits(o.decision, b.decValue) && WellKinded(b.outcome);
      err := ProcessOutcome(b.outcome, decided, ReachP(p, b.decValue.p));
    }

    /** The dependency half of `processBranches`: each branch once per value, and every value covered. */
    method ProcessValueBranches(o: Outcome, decided: Combo, p: real) returns (err: Option<string>)
      requires ContextOk(Ctx()) && WellKinded(o) && o.BranchSet? && o.decision in dR.depends
      requires !(allowP && o.decision == "p")
      modifies dR
      ensures (dR.mapCumP, err) == DRValueBranches(Ctx(), o, 0, decided, p, (set n | n in dvm[o.decision]), old(dR.mapCumP))
      decreases o, 0, 1
    {
      var bs := o.branches;
      ghost var t0 := dR.mapCumP;
      var remaining := set n | n in dvm[o.decision];
      ghost var r0 := remaining;
      var k := 0;
      while k < |bs|
        invariant 0 <= k <= |bs|
        invariant DRValueBranches(Ctx(), o, 0, decided, p, r0, t0)
               == DRValueBranches(Ctx(), o, k, decided, p, remaining, dR.mapCumP)
      {
        err, remaining := ValueBranch(o, k, decided, p, remaining, r0, t0);
        if err.Some? {
          return;
        }
        k := k + 1;
      }
      if remaining != {} {
        return Some(MissingBranchesMessage(dR.decision));
      }
      err := None;
    }

    /** One branch over a dependency: its value must still be uncovered, and its outcome is processed with it decided. */
    method ValueBranch(o: Outcome, k: nat, decided: Combo, p: real, remaining: set<string>, ghost r0: set<string>, ghost t0: Table)
      returns (err: Option<string>, remaining': set<string>)
      requires ContextOk(Ctx()) && WellKinded(o) && o.BranchSet? && o.decision in dR.depends && k < |o.branches|
      requires !(allowP && o.decision == "p")
      requires DRValueBranches(Ctx(), o, 0, decided, p, r0, t0) == DRValueBranches(Ctx(), o, k, decided, p, remaining, dR.mapCumP)
      modifies dR
      ensures err.None? ==>
                DRValueBranches(Ctx(), o, 0, decided, p, r0, t0) == DRValueBranches(Ctx(), o, k + 1, decided, p, remaining', dR.mapCumP)
      ensures err.Some? ==> (dR.mapCumP, err) == DRValueBranches(Ctx(), o, 0, decided, p, r0, t0)
      decreases o, 0, 0
    {
      var d := o.decision;
      var b := o.branches[k];
      assert KindFits(d, b.decValue) && WellKinded(b.outcome);
      var n := b.decValue.name;
      if n !in remaining {
        return Some(NotAnOutcomeMessage(dR.decision, d, n)), remaining;
      }
      err := ProcessOutcome(b.outcome, decided[d := n], p);
      remaining' := remaining - {n};
    }

    /** The index of a leaf's value among the decision's values. */
    method ValueIndex(v: string) returns (i: nat)
      requires v in dR.values
      ensures i == IndexOf(dR.values, v)
    {
      var values := dR.values;
      i := 0;
      while values[i] != v
        invariant i < |values| && v !in values[..i]
        decreases |values| - i
      {
        assert values[..i + 1] == values[..i] + [values[i]];
        assert values == values[..i + 1] + values[i + 1..];
        i := i + 1;
      }
      IndexIsFirst(values, v, i);
    }

    /**
     * The input combinations of a leaf: what was decided on the way down,
     * with every undecided dependency taking each of its values. The union
     * of the value sets does not depend on the order the dependencies are
     * visited in; this loop visits them from the last.
     */
    method InputCombos(decided: Combo) returns (combos: set<Combo>)
      requires ContextOk(Ctx())
      ensures combos == Combos(dR.depends, dvm, decided)
    {
      var deps := dR.depends;
      combos := {decided};
      var k := |deps|;
      while k > 0
        invariant 0 <= k <= |deps|
        invariant combos == Combos(deps[k..], dvm, decided)
      {
        k := k - 1;
        assert deps[k..][1..] == deps[k + 1..];
        if deps[k] !in decided {
          combos := set c, v | c in combos && v in dvm[deps[k]] :: c[deps[k] := v];
        }
      }
    }

    /** Every combination's vector is resized to one entry per outcome and gains p from index i on. */
    method AddLeaf(combos: set<Combo>, i: nat, p: real)
      requires i < |dR.values|
      modifies dR
      ensures dR.mapCumP == LeafUpdate(old(dR.mapCumP), combos, i, p, |dR.values|)
    {
      dR.mapCumP := AddLeafTo(dR.mapCumP, combos, i, p, |dR.values|);
    }

    /** The loop over the leaf's combinations, on the table's contents. */
    static method AddLeafTo(t0: Table, combos: set<Combo>, i: nat, p: real, n: nat) returns (t: Table)
      requires i < n
      ensures t == LeafUpdate(t0, combos, i, p, n)
    {
      t := t0;
      var todo := combos;
      while todo != {}
        invariant todo <= combos
        invariant t.Keys == t0.Keys + (combos - todo)
        invariant forall c :: c in t ==>
                    t[c] == if c in combos - todo then AddFrom(Resize(Get(t0, c), n), i, p) else t0[c]
        decreases todo
      {
        t, todo := AddLeafNext(t, todo, t0, combos, i, p, n);
      }
      LeafUpdateReached(t, t0, combos, i, p, n);
    }

    /** One combination of the leaf: its vector, resized, gains p from index i on. */
    static method AddLeafNext(t: Table, todo: set<Combo>, ghost t0: Table, ghost combos: set<Combo>, i: nat, p: real, n: nat)
      returns (t': Table, todo': set<Combo>)
      requires todo != {} && todo <= combos
      requires t.Keys == t0.Keys + (combos - todo)
      requires forall c :: c in t ==>
                 t[c] == if c in combos - todo then AddFrom(Resize(Get(t0, c), n), i, p) else t0[c]
      ensures todo' < todo
      ensures t'.Keys == t0.Keys + (combos - todo')
      ensures forall c :: c in t' ==>
                t'[c] == if c in combos - todo' then AddFrom(Resize(Get(t0, c), n), i, p) else t0[c]
    {
      var c :| c in todo;
      assert Get(t, c) == Get(t0, c);
      var v := AddFromLoop(Resize(Get(t, c), n), i, p);
      t' := t[c := v];
      todo' := todo - {c};
    }

    /** With every combination done, the table is the leaf's update. */
    static lemma LeafUpdateReached(t: Table, t0: Table, combos: set<Combo>, i: nat, p: real, n: nat)
      requires t.Keys == t0.Keys + combos
      requires forall c :: c in t ==> t[c] == if c in combos then AddFrom(Resize(Get(t0, c), n), i, p) else t0[c]
      ensures t == LeafUpdate(t0, combos, i, p, n)
    {
    }

    /** The inner loop: p is added to each entry from index i on. */
    static method AddFromLoop(w: seq<real>, i: nat, p: real) returns (v: seq<real>)
      ensures v == AddFrom(w, i, p)
    {
      v := w;
      var j := i;
      while j < |v|
        invariant |v| == |w| && (i <= |w| ==> i <= j <= |w|)
        invariant forall x :: 0 <= x < |w| ==> v[x] == if i <= x < j then w[x] + p else w[x]
      {
        v := v[j := v[j] + p];
        j := j + 1;
      }
    }

    /** `checkProbabilities`: the entry of the last outcome becomes 1.0 in every vector. */
    method CheckProbabilities()
      modifies dR
      ensures dR.mapCumP == ForceLast(old(dR.mapCumP), |dR.values|)
    {
      var n := |dR.values|;
      ghost var t0 := dR.mapCumP;
      var todo := dR.mapCumP.Keys;
      while todo != {}
        invariant todo <= t0.Keys && dR.mapCumP.Keys == t0.Keys
        invariant forall c :: c in t0 ==> dR.mapCumP[c] == if c in todo then t0[c] else Forced(t0[c], n)
        decreases todo
      {
        var c :| c in todo;
        var v := dR.mapCumP[c];
        if 0 < n <= |v| {
          v := v[n - 1 := 1.0];
        }
        dR.mapCumP := dR.mapCumP[c := v];
        todo := todo - {c};
      }
    }
  }

  /** The index a search from the front stops at is the first index holding x. */
  lemma IndexIsFirst(s: seq<string>, x: string, i: nat)
    requires i < |s| && s[i] == x && x !in s[..i]
    ensures i == IndexOf(s, x)
  {
    var r := IndexOf(s, x);
    assert forall j :: 0 <= j < i ==> s[..i][j] == s[j];
    assert forall j :: 0 <= j < r ==> s[..r][j] == s[j];
  }

  /**
   * The `ESDecisionDeterministic` and `ESDecisionRandom` constructors: a new
   * decision whose table is filled by the processor, "p" branches being
   * allowed in random decisions only.
   */
  method NewValueDecision(decision: string, values: seq<string>, depends: seq<string>,
                          dvm: map<string, seq<string>>, random: bool, tree: Outcome)
    returns (dR: ValueDecision, err: Option<string>)
    requires ContextOk(Context(decision, values, depends, dvm, random)) && WellKinded(tree)
    ensures fresh(dR)
    ensures dR.decision == decision && dR.values == values && dR.depends == depends && dR.random == random
    ensures (dR.mapCumP, err) == DRProcess(Context(decision, values, depends, dvm, random), tree, map[])
    ensures err.None? ==> dR.Valid()
    ensures err.None? ==> forall c :: c in dR.mapCumP <==> IsInput(Context(decision, values, depends, dvm, random), c)
  {
    dR := new ValueDecision(decision, values, depends, random);
    var processor := new DRProcessor(dvm, dR, random);
    err := processor.Process(tree);
    if err.None? {
      DRProcessMeaning(Context(decision, values, depends, dvm, random), tree);
    }
  }
}
