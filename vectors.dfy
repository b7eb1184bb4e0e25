/** In-place vector utilities of `util::vectors` (`vector<double>` as `array<real>`). */
module Vectors {
  import opened Wrappers

  /** Every element multiplied by `a`. */
  function Scaled(s: seq<real>, a: real): (r: seq<real>)
    ensures |r| == |s|
  {
    if s == [] then [] else [s[0] * a] + Scaled(s[1..], a)
  }

  lemma {:induction false} ScaledAt(s: seq<real>, a: real, i: nat)
    requires i < |s|
    ensures Scaled(s, a)[i] == s[i] * a
  {
    if i > 0 { ScaledAt(s[1..], a, i - 1); }
  }

  /** Left-to-right sum, starting from 0.0. */
  function Sum(s: seq<real>): real
  {
    if s == [] then 0.0 else Sum(s[..|s| - 1]) + s[|s| - 1]
  }

  lemma {:induction false} SumAppend(s: seq<real>, t: seq<real>)
    ensures Sum(s + t) == Sum(s) + Sum(t)
  {
    if t == [] {
      assert s + t == s;
    } else {
      assert (s + t)[..|s + t| - 1] == s + t[..|t| - 1];
      SumAppend(s, t[..|t| - 1]);
    }
  }

  /** The sum of a constant vector is its length times the constant. */
  lemma {:induction false} SumConstant(s: seq<real>, c: real)
    requires forall i :: 0 <= i < |s| ==> s[i] == c
    ensures Sum(s) == |s| as real * c
  {
    if s != [] { SumConstant(s[..|s| - 1], c); }
  }

  /** Summing a scaled vector scales the sum. */
  lemma {:induction false} SumScaled(s: seq<real>, a: real)
    ensures Sum(Scaled(s, a)) == Sum(s) * a
  {
    if s != [] {
      var t := s[1..];
      assert Scaled(s, a) == [s[0] * a] + Scaled(t, a);
      assert s == [s[0]] + t;
      SumScaled(t, a);
      SumAppend([s[0] * a], Scaled(t, a));
      SumAppend([s[0]], t);
      assert Sum([s[0] * a]) == s[0] * a by { assert [s[0] * a][..0] == []; }
      assert Sum([s[0]]) == s[0] by { assert [s[0]][..0] == []; }
      calc {
        Sum(Scaled(s, a));
        s[0] * a + Sum(Scaled(t, a));
        s[0] * a + Sum(t) * a;
        (s[0] + Sum(t)) * a;
        Sum(s) * a;
      }
    }
  }

  /** `scale`: multiplies every element of `vec` by `a` in place. */
  method Scale(vec: array<real>, a: real)
    modifies vec
    ensures vec[..] == Scaled(old(vec[..]), a)
  {
    var i := 0;
    while i < vec.Length
      invariant 0 <= i <= vec.Length
      invariant forall k :: 0 <= k < i ==> vec[k] == old(vec[k]) * a
      invariant forall k :: i <= k < vec.Length ==> vec[k] == old(vec[k])
    {
      vec[i] := vec[i] * a;
      i := i + 1;
    }
    ghost var was := old(vec[..]);
    forall k | 0 <= k < vec.Length ensures vec[..][k] == Scaled(was, a)[k] {
      ScaledAt(was, a, k);
    }
  }

  /** `sum`: the sum of the elements, 0.0 for an empty vector. */
  method SumOf(vec: array<real>) returns (r: real)
    ensures r == Sum(vec[..])
  {
    r := 0.0;
    var i := 0;
    while i < vec.Length
      invariant 0 <= i <= vec.Length
      invariant r == Sum(vec[..i])
    {
      assert vec[..i + 1][..i] == vec[..i];
      r := r + vec[i];
      i := i + 1;
    }
    assert vec[..vec.Length] == vec[..];
  }

  /** Element-wise sum of two equal-length sequences. */
  function Added(x: seq<real>, y: seq<real>): (r: seq<real>)
    requires |x| == |y|
    ensures |r| == |x|
  {
    if x == [] then [] else [x[0] + y[0]] + Added(x[1..], y[1..])
  }

  lemma {:induction false} AddedAt(x: seq<real>, y: seq<real>, i: nat)
    requires |x| == |y| && i < |x|
    ensures Added(x, y)[i] == x[i] + y[i]
  {
    if i > 0 { AddedAt(x[1..], y[1..], i - 1); }
  }

  /** The sum of an element-wise sum is the sum of the sums. */
  lemma {:induction false} SumAdded(x: seq<real>, y: seq<real>)
    requires |x| == |y|
    ensures Sum(Added(x, y)) == Sum(x) + Sum(y)
  {
    if x != [] {
      SumAdded(x[1..], y[1..]);
      assert x == [x[0]] + x[1..];
      assert y == [y[0]] + y[1..];
      SumAppend([x[0] + y[0]], Added(x[1..], y[1..]));
      SumAppend([x[0]], x[1..]);
      SumAppend([y[0]], y[1..]);
      assert Sum([x[0] + y[0]]) == x[0] + y[0] by { assert [x[0] + y[0]][..0] == []; }
      assert Sum([x[0]]) == x[0] by { assert [x[0]][..0] == []; }
      assert Sum([y[0]]) == y[0] by { assert [y[0]][..0] == []; }
    }
  }

  /** `addTo`: x[i] += y[i] for every i; the source asserts equal lengths. */
  /**
   * `addTo`: x[i] += y[i] in place. The two may be the same vector, in which
   * case each element is doubled: y[i] is read before x[i] is written.
   */
  method AddTo(x: array<real>, y: array<real>)
    requires x.Length == y.Length
    modifies x
    ensures x[..] == Added(old(x[..]), old(y[..]))
    ensures x != y ==> y[..] == old(y[..])
  {
    var i := 0;
    while i < x.Length
      invariant 0 <= i <= x.Length
      invariant forall k :: 0 <= k < i ==> x[k] == old(x[k]) + old(y[k])
      invariant forall k :: i <= k < x.Length ==> x[k] == old(x[k])
      invariant forall k :: i <= k < y.Length ==> y[k] == old(y[k])
      invariant x != y ==> y[..] == old(y[..])
    {
      x[i] := x[i] + y[i];
      i := i + 1;
    }
    ghost var was, with := old(x[..]), old(y[..]);
    forall k | 0 <= k < x.Length ensures x[..][k] == Added(was, with)[k] {
      AddedAt(was, with, k);
    }
  }

  /** Adding a vector to itself doubles it. */
  lemma AddToSelfDoubles(x: seq<real>, k: nat)
    requires k < |x|
    ensures Added(x, x)[k] == 2.0 * x[k]
  {
    AddedAt(x, x, k);
  }

  function Abs(a: real): real { if a < 0.0 then -a else a }
  function Max(a: real, b: real): real { if a < b then b else a }

  /** Scalar `approxEqual`: |a - b| is within `limFact` times the larger magnitude. */
  predicate ApproxEqual(a: real, b: real, limFact: real)
  {
    Abs(a - b) <= Max(Abs(a), Abs(b)) * limFact
  }

  lemma ApproxEqualReflexive(a: real, limFact: real)
    requires limFact >= 0.0
    ensures ApproxEqual(a, a, limFact)
  {
    assert Abs(a - a) == 0.0;
    assert Max(Abs(a), Abs(a)) >= 0.0;
  }

  lemma ApproxEqualSymmetric(a: real, b: real, limFact: real)
    ensures ApproxEqual(a, b, limFact) <==> ApproxEqual(b, a, limFact)
  {
    assert Abs(a - b) == Abs(b - a);
    assert Max(Abs(a), Abs(b)) == Max(Abs(b), Abs(a));
  }

  /** Vector `approxEqual`: false on a length mismatch, else element-wise. */
  method ApproxEqualVec(v1: array<real>, v2: array<real>, limFact: real) returns (b: bool)
    ensures b <==> v1.Length == v2.Length &&
                   forall i :: 0 <= i < v1.Length ==> ApproxEqual(v1[i], v2[i], limFact)
  {
    if v1.Length != v2.Length {
      return false;
    }
    var i := 0;
    while i < v1.Length
      invariant 0 <= i <= v1.Length
      invariant forall k :: 0 <= k < i ==> ApproxEqual(v1[k], v2[k], limFact)
    {
      if !ApproxEqual(v1[i], v2[i], limFact) {
        return false;
      }
      i := i + 1;
    }
    return true;
  }

  /** `std2gsl`: a copy of the vector, or an error when its size is not `length`. */
  method Std2Gsl(vec: array<real>, length: nat) returns (r: Result<seq<real>>)
    ensures r.Err? <==> vec.Length != length
    ensures r.Ok? ==> r.value == vec[..] && |r.value| == length
  {
    if vec.Length != length {
      return Err("vectorStd2Gsl: vec has incorrect length");
    }
    return Ok(vec[..]);
  }

  /** n zeros: a value-initialised `vector<double>` of size n. */
  function Zeros(n: nat): (r: seq<real>)
    ensures |r| == n && forall k :: 0 <= k < n ==> r[k] == 0.0
  {
    seq(n, k requires 0 <= k < n => 0.0)
  }

  /** `vector::resize`: the first n elements are kept, and any new ones are 0. */
  function Resized(s: seq<real>, n: nat): (r: seq<real>)
    ensures |r| == n
    ensures forall k :: 0 <= k < n && k < |s| ==> r[k] == s[k]
    ensures forall k :: |s| <= k < n ==> r[k] == 0.0
  {
    if n <= |s| then s[..n] else s + Zeros(n - |s|)
  }
}
