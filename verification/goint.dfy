/** Go's integer semantics, written out where they differ from Dafny's:
    Go's `/` and `%` truncate toward zero, and `int` is 64 bits wide. */
module GoInt {

  function Abs(x: int): (r: nat)
    ensures r == x || r == -x
  {
    if x < 0 then -x else x
  }

  /** Go's `a / b`: the quotient truncated toward zero. */
  function GoDiv(a: int, b: int): (q: int)
    requires b != 0
    ensures Abs(q) == Abs(a) / Abs(b)
    ensures q == 0 || ((q < 0) <==> ((a < 0) != (b < 0)))
  {
    var d := Abs(a) / Abs(b);
    DivNonNegative(Abs(a), Abs(b));
    if (a < 0) != (b < 0) then -d else d
  }

  lemma DivNonNegative(x: nat, y: nat)
    requires y > 0
    ensures x / y >= 0
  {
  }

  /** Go's `a % b`: the remainder that goes with the truncated quotient. */
  function GoRem(a: int, b: int): (r: int)
    requires b != 0
    ensures GoDiv(a, b) * b + r == a
  {
    a - GoDiv(a, b) * b
  }

  /** The remainder is smaller than the divisor in magnitude and is zero or
      carries the sign of the dividend; this is where it differs from
      Dafny's Euclidean `%`, whose result is never negative. */
  lemma GoRemSign(a: int, b: int)
    requires b != 0
    ensures Abs(GoRem(a, b)) < Abs(b)
    ensures GoRem(a, b) == 0 || ((GoRem(a, b) < 0) <==> (a < 0))
  {
    var A: int, B: int := Abs(a), Abs(b);
    var d: int, m: int := A / B, A % B;
    assert A == d * B + m && 0 <= m < B;
    var r := GoRem(a, b);
    if a < 0 {
      assert a == -A;
      if b > 0 {
        assert b == B && GoDiv(a, b) == -d;
        assert GoDiv(a, b) * b == -(d * B);
      } else {
        assert b == -B && GoDiv(a, b) == d;
        assert GoDiv(a, b) * b == -(d * B);
      }
      assert r == -m;
    } else {
      assert a == A;
      if b > 0 {
        assert b == B && GoDiv(a, b) == d;
        assert GoDiv(a, b) * b == d * B;
      } else {
        assert b == -B && GoDiv(a, b) == -d;
        assert GoDiv(a, b) * b == d * B;
      }
      assert r == m;
    }
  }

  /** On a non-negative dividend and a positive divisor Go's operators agree
      with Dafny's. */
  lemma GoAgreesOnNatural(a: int, b: int)
    requires a >= 0 && b > 0
    ensures GoDiv(a, b) == a / b && GoRem(a, b) == a % b
  {
  }

  /** Counterexample showing the difference: -7 / 2 is -3 with remainder -1
      in Go, while Dafny gives -4 with remainder 1. */
  lemma GoDiffersOnNegative()
    ensures GoDiv(-7, 2) == -3 && GoRem(-7, 2) == -1
    ensures (-7) / 2 == -4 && (-7) % 2 == 1
  {
  }

  const MinInt64: int := -0x8000_0000_0000_0000
  const MaxInt64: int := 0x7fff_ffff_ffff_ffff

  predicate IsInt64(x: int) {
    MinInt64 <= x <= MaxInt64
  }

  /** Two's-complement wrap-around of a mathematical integer into Go's int. */
  function Wrap64(x: int): (r: int)
    ensures IsInt64(r)
    ensures (r - x) % 0x1_0000_0000_0000_0000 == 0
    ensures IsInt64(x) ==> r == x
  {
    var m := (x - MinInt64) % 0x1_0000_0000_0000_0000;
    m + MinInt64
  }

  /** Go's `int(x)` conversion of a float: truncation toward zero. */
  function Trunc(x: real): (r: int)
    ensures 0.0 <= x ==> r as real <= x < r as real + 1.0
    ensures x < 0.0 ==> r as real - 1.0 < x <= r as real
  {
    if x >= 0.0 then x.Floor else -((-x).Floor)
  }

  /** Shifting by a whole number of periods keeps the residue. */
  lemma ModShift(v: int, n: int, k: int)
    requires n > 0
    ensures (v + k * n) % n == v % n
  {
    var q, r := v / n, v % n;
    assert v == q * n + r && 0 <= r < n;
    assert v + k * n == (q + k) * n + r;
    ModUnique(v + k * n, n, q + k, r);
  }

  lemma ModSmall(v: int, n: int)
    requires 0 <= v < n
    ensures v % n == v
  {
    ModUnique(v, n, 0, v);
  }

  /** The quotient and remainder are unique. */
  lemma ModUnique(a: int, n: int, q: int, r: int)
    requires n > 0 && 0 <= r < n && a == q * n + r
    ensures a % n == r
  {
    var q0, r0 := a / n, a % n;
    assert a == q0 * n + r0 && 0 <= r0 < n;
    assert (q - q0) * n == r0 - r;
    if q > q0 {
      MulAtLeast(q - q0, n);
    } else if q < q0 {
      MulAtLeast(q0 - q, n);
    }
  }

  lemma MulAtLeast(k: int, n: int)
    requires k >= 1 && n > 0
    ensures k * n >= n
  {
  }
}
