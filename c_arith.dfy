/**
 * C++ integer arithmetic on the values the simulator uses: `/` and `%`
 * truncate toward zero, and converting a `double` to `int` truncates.
 */
module CArith {
  function Abs(a: int): nat { if a < 0 then -a else a }

  /** C++ `a / b`: the quotient rounded toward zero. */
  function CDiv(a: int, b: int): int
    requires b != 0
  {
    if a >= 0 then
      (if b > 0 then a / b else -(a / -b))
    else
      (if b > 0 then -((-a) / b) else (-a) / (-b))
  }

  /** C++ `a % b`: the remainder whose sign follows a. */
  function CMod(a: int, b: int): int
    requires b != 0
  {
    a - b * CDiv(a, b)
  }

  /** Quotient and remainder of C++ satisfy the usual identity, and the remainder is smaller than b in magnitude with a's sign. */
  lemma CDivModLaw(a: int, b: int)
    requires b != 0
    ensures CDiv(a, b) * b + CMod(a, b) == a
    ensures Abs(CMod(a, b)) < Abs(b)
    ensures a >= 0 ==> CMod(a, b) >= 0
    ensures a < 0 ==> CMod(a, b) <= 0
  {
    var na: int, nb: int := Abs(a), Abs(b);
    var q: int, r: int := na / nb, na % nb;
    assert na == nb * q + r && 0 <= r < nb;
    if a >= 0 && b > 0 {
      assert CDiv(a, b) == q;
      assert CMod(a, b) == r;
    } else if a >= 0 {
      assert CDiv(a, b) == -q;
      assert b * CDiv(a, b) == nb * q;
      assert CMod(a, b) == r;
    } else if b > 0 {
      assert CDiv(a, b) == -q;
      assert b * CDiv(a, b) == -(nb * q);
      assert CMod(a, b) == -r;
    } else {
      assert CDiv(a, b) == q;
      assert b * CDiv(a, b) == -(nb * q);
      assert CMod(a, b) == -r;
    }
  }

  /** For a non-negative dividend and positive divisor, C++ and Dafny agree. */
  lemma CDivNonNegative(a: int, b: int)
    requires a >= 0 && b > 0
    ensures CDiv(a, b) == a / b && CMod(a, b) == a % b
  {
  }

  /** For a negative dividend they differ unless b divides a: -99 / 5 is -19 in C++. */
  lemma CDivNegativeExample()
    ensures CDiv(-99, 5) == -19 && -99 / 5 == -20
  {
  }

  /** `int(x)` for a `double` x: truncation toward zero. */
  function Trunc(x: real): int
  {
    if x >= 0.0 then x.Floor else -((-x).Floor)
  }

  lemma TruncBounds(x: real)
    ensures x >= 0.0 ==> Trunc(x) as real <= x < Trunc(x) as real + 1.0
    ensures x < 0.0 ==> Trunc(x) as real - 1.0 < x <= Trunc(x) as real
  {
  }

  /** A positive multiple of n is at least n. */
  lemma {:induction false} MulAtLeast(d: int, n: int)
    requires d >= 1 && n > 0
    ensures d * n >= n
    decreases d
  {
    if d > 1 {
      MulAtLeast(d - 1, n);
      assert d * n == (d - 1) * n + n;
    }
  }
  /** Euclidean remainders are unique. */
  lemma ModUnique(x: int, n: int, q: int, r: int)
    requires n > 0 && 0 <= r < n && x == q * n + r
    ensures x % n == r
  {
    var q', r' := x / n, x % n;
    assert (q - q') * n == r' - r by {
      assert q * n - q' * n == (q - q') * n;
    }
    if q > q' {
      MulAtLeast(q - q', n);
    } else if q < q' {
      MulAtLeast(q' - q, n);
    }
  }
  /** Adding the modulus leaves the remainder unchanged. */
  lemma ModShift(s: int, n: int)
    requires n > 0
    ensures (s + n) % n == s % n
  {
    assert s + n == (s / n + 1) * n + s % n;
    ModUnique(s + n, n, s / n + 1, s % n);
  }
}
