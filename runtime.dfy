/** Arithmetic as the Python source performs it, stated over Dafny's unbounded
    integers and exact reals, and the exceptions the source raises. */
module Runtime {

  /** `math.pi`, written out to the precision of a double. */
  const Pi: real := 3.141592653589793

  /** The exceptions the modelled code raises. */
  datatype Error =
    | ValueError(message: string)
    | ZeroDivisionError
    | OverflowError

  datatype Result<T> = Ok(value: T) | Err(error: Error)

  datatype Option<T> = None | Some(value: T)

  /** The end of an operation that returns nothing: normally or by an exception. */
  datatype Outcome = Success | Failure(error: Error)

  function Abs(n: int): (r: nat)
    ensures r == n || r == -n
  {
    if n < 0 then -n else n
  }

  function RealAbs(r: real): (a: real)
    ensures a >= 0.0 && (a == r || a == -r)
  {
    if r < 0.0 then -r else r
  }

  /** `int(a / b)` for a positive divisor: the quotient rounded toward zero
      (Dafny's own `/` rounds toward negative infinity). */
  function TruncDiv(a: int, b: int): (q: int)
    requires b > 0
    ensures a >= 0 ==> q * b <= a < q * b + b
    ensures a < 0 ==> q * b - b < a <= q * b
  {
    if a >= 0 then a / b else -((-a) / b)
  }

  /** Truncating division never reverses the order of two dividends. */
  lemma TruncDivMonotone(a1: int, a2: int, b: int)
    requires b > 0 && a1 <= a2
    ensures TruncDiv(a1, b) <= TruncDiv(a2, b)
  {
    var q1, q2 := TruncDiv(a1, b), TruncDiv(a2, b);
    if a1 >= 0 || a2 < 0 {
      // in both cases q1 * b < (q2 + 1) * b
      MulCancel(q1, q2 + 1, b);
    } else {
      MulCancel(q1, 1, b);
      MulCancel(-1, q2, b);
    }
  }

  /** Cancelling a positive factor from a strict inequality. */
  lemma MulCancel(x: int, y: int, b: int)
    requires b > 0 && x * b < y * b
    ensures x < y
  {
  }

  /** Adding one period leaves the remainder unchanged. */
  lemma ModPeriod(m: int, p: int)
    requires p > 0
    ensures (m + p) % p == m % p
  {
    var q, r := m / p, m % p;
    assert m + p == (q + 1) * p + r;
    ModUnique(m + p, q + 1, r, p);
  }

  /** The remainder is the r of any decomposition n == a * p + r with 0 <= r < p. */
  lemma ModUnique(n: int, a: int, r: int, p: int)
    requires p > 0 && 0 <= r < p && n == a * p + r
    ensures n % p == r
  {
    var q, r' := n / p, n % p;
    assert n == q * p + r';
    assert (q - a) * p == q * p - a * p;
    assert (a - q) * p == a * p - q * p;
    MulCancel(q - a, 1, p);
    MulCancel(a - q, 1, p);
  }

  /** `int(r)` for a real: truncation toward zero. */
  function Trunc(r: real): (n: int)
    ensures r >= 0.0 ==> n as real <= r < n as real + 1.0
    ensures r < 0.0 ==> n as real - 1.0 < r <= n as real
  {
    if r >= 0.0 then r.Floor else -((-r).Floor)
  }

  /** `a % m` on floats for a positive modulus m: what is left of a after
      taking off a whole number of m, in [0, m), as Python's floored modulo
      gives it. */
  function FloorMod(a: real, m: real): (r: real)
    requires m > 0.0
    ensures 0.0 <= r < m
    ensures ((a - r) / m).Floor as real == (a - r) / m
  {
    var f := (a / m).Floor;
    var q := f as real;
    RemainderBounds(a, m, q);
    WholeQuotient(q, m, f);
    assert a - (a - q * m) == q * m;
    a - q * m
  }

  /** Taking off q times m, for q the floor of a / m, leaves a remainder in
      [0, m). */
  lemma RemainderBounds(a: real, m: real, q: real)
    requires m > 0.0 && q <= a / m < q + 1.0
    ensures 0.0 <= a - q * m < m
  {
    var x := a / m;
    assert x * m == a;
    MulOrder(q, x, m);
    MulOrder(x, q + 1.0, m);
    MulSucc(q, m);
    calc {
      a;
    ==
      x * m;
    <
      (q + 1.0) * m;
    ==
      q * m + m;
    }
  }

  /** A whole number of m divided by m is that whole number. */
  lemma WholeQuotient(q: real, m: real, f: int)
    requires m > 0.0 && q == f as real
    ensures ((q * m) / m).Floor as real == (q * m) / m
  {
    MulDiv(q, m);
    FloorIs(q, f);
  }

  /** When a lies between k and k + 1 multiples of m, the floored modulo
      takes off exactly k of them. */
  lemma FloorModWhole(a: real, m: real, k: int)
    requires m > 0.0
    requires (k as real) * m <= a < (k as real) * m + m
    ensures FloorMod(a, m) == a - (k as real) * m
  {
    var q := k as real;
    var q1 := q + 1.0;
    MulSucc(q, m);
    DivCompare(q * m, a, m);
    DivCompare(a, q1 * m, m);
    MulDiv(q, m);
    MulDiv(q1, m);
    FloorIs(a / m, k);
  }

  /** Multiplying and then dividing by the same positive factor gives back q. */
  lemma MulDiv(q: real, m: real)
    requires m > 0.0
    ensures (q * m) / m == q
  {
  }

  /** The floor of x is the integer k with k <= x < k + 1. */
  lemma FloorIs(x: real, k: int)
    requires k as real <= x < k as real + 1.0
    ensures x.Floor == k
  {
    var f := x.Floor;
    assert f as real <= x < f as real + 1.0;
  }

  /** The number of values `numpy.arange(start, stop, step)` yields for a
      positive step: the ceiling of `(stop - start) / step`, or none. */
  function ArangeLength(start: real, stop: real, step: real): (n: nat)
    requires step > 0.0
    ensures start + (n as real) * step >= stop
    ensures n > 0 ==> start + ((n - 1) as real) * step < stop
  {
    if stop <= start then 0
    else
      var q := (stop - start) / step;
      var c := -((-q).Floor);
      assert q * step == stop - start;
      assert c as real >= q && (c - 1) as real < q;
      CeilingScaled(q, c, step);
      assert start + ((c - 1) as real) * step < stop;
      c
  }

  /** Multiplying `n - 1 < q <= n` by a positive step keeps both bounds. */
  lemma CeilingScaled(q: real, n: int, step: real)
    requires step > 0.0 && (n - 1) as real < q <= n as real
    ensures (n as real) * step >= q * step
    ensures ((n - 1) as real) * step < q * step
  {
  }

  /** The position of the k-th value `numpy.arange(start, stop, step)`
      yields lies in `[start, stop)` exactly when k is below the length. */
  lemma {:induction false} ArangeValueInRange(start: real, stop: real, step: real, k: nat)
    requires step > 0.0
    ensures k < ArangeLength(start, stop, step) <==> start + (k as real) * step < stop
  {
    var n := ArangeLength(start, stop, step);
    ArangeIndex(start, stop, step, n, k);
  }

  /** The same, for any n with the properties of the length: the index
      facts do not need how the length is computed. */
  lemma ArangeIndex(start: real, stop: real, step: real, n: nat, k: nat)
    requires step > 0.0
    requires start + (n as real) * step >= stop
    requires n > 0 ==> start + ((n - 1) as real) * step < stop
    ensures k < n <==> start + (k as real) * step < stop
  {
    if k < n {
      MulOrder(k as real, (n - 1) as real, step);
      Below(start, stop, (k as real) * step, ((n - 1) as real) * step);
    } else {
      MulOrder(n as real, k as real, step);
      Below(start, stop, (n as real) * step, (k as real) * step);
    }
  }

  /** Moving further than a point that is already past the stop stays past
      it; moving less than a point before the stop stays before it. */
  lemma Below(start: real, stop: real, a: real, b: real)
    requires a <= b
    ensures start + a >= stop ==> start + b >= stop
    ensures start + b < stop ==> start + a < stop
  {
  }

  /** Multiplying by a positive factor keeps and reflects the order. */
  lemma MulOrder(a: real, b: real, d: real)
    requires d > 0.0
    ensures a < b <==> a * d < b * d
    ensures a <= b <==> a * d <= b * d
  {
    if a < b {
      assert (b - a) * d > 0.0;
    } else {
      assert (a - b) * d >= 0.0;
    }
  }

  /** Dividing by a positive divisor keeps and reflects the order. */
  lemma DivCompare(n: real, m: real, d: real)
    requires d > 0.0
    ensures n / d < m / d <==> n < m
    ensures n / d <= m / d <==> n <= m
  {
    assert (n / d) * d == n;
    assert (m / d) * d == m;
    MulOrder(n / d, m / d, d);
  }

  /** A factor at most `n / d` times a positive d stays at most n. */
  lemma MulBelowDiv(a: real, n: real, d: real)
    requires d > 0.0 && a <= n / d
    ensures a * d <= n
  {
    assert (n / d) * d == n;
    MulOrder(a, n / d, d);
  }

  lemma MulSucc(k: real, d: real)
    ensures (k + 1.0) * d == k * d + d
  {
  }
}
