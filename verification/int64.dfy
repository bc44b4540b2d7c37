/** Go `int64` arithmetic on unbounded integers: two's-complement wrap-around for
    `+ - *` and negation, and division that truncates toward zero. */
module Int64 {

  const Min: int := -0x8000_0000_0000_0000
  const Max: int := 0x7fff_ffff_ffff_ffff
  const Modulus: int := 0x1_0000_0000_0000_0000

  type Int64 = x: int | Min <= x <= Max

  /** The int64 a mathematical integer wraps to. */
  function Wrap(x: int): (r: Int64)
    ensures (r - x) % Modulus == 0
    ensures Min <= x <= Max ==> r == x
  {
    var r := (x - Min) % Modulus + Min;
    assert r - x == (x - Min) % Modulus - (x - Min);
    r
  }

  /** Two integers that differ by a multiple of 2^64 wrap to the same int64. */
  lemma WrapCongruent(x: int, y: int)
    requires (x - y) % Modulus == 0
    ensures Wrap(x) == Wrap(y)
  {
    var k := (x - y) / Modulus;
    assert x - Min == (y - Min) + k * Modulus;
    ModAddMultiple(y - Min, k);
  }

  lemma ModAddMultiple(a: int, k: int)
    ensures (a + k * Modulus) % Modulus == a % Modulus
  {
    var q := a / Modulus;
    var r := a % Modulus;
    assert a == q * Modulus + r;
    assert a + k * Modulus == (q + k) * Modulus + r;
  }

  /** `a + b`, `a - b`, `a * b` on int64: the exact result when it fits, otherwise the int64
      that is congruent to it modulo 2^64. */
  function Add(a: Int64, b: Int64): (r: Int64)
    ensures (r - (a + b)) % Modulus == 0
    ensures Min <= a + b <= Max ==> r == a + b
  {
    Wrap(a + b)
  }

  function Sub(a: Int64, b: Int64): (r: Int64)
    ensures (r - (a - b)) % Modulus == 0
    ensures Min <= a - b <= Max ==> r == a - b
  {
    Wrap(a - b)
  }

  function Mul(a: Int64, b: Int64): (r: Int64)
    ensures (r - (a * b)) % Modulus == 0
    ensures Min <= a * b <= Max ==> r == a * b
  {
    Wrap(a * b)
  }

  function Neg(a: Int64): (r: Int64)
    ensures a != Min ==> r == -a
    ensures a == Min ==> r == Min
  {
    Wrap(-(a as int))
  }

  /** Go's `/` on int64: the quotient truncated toward zero, so the remainder `a - q * b` is
      smaller than `b` in magnitude and is zero or has the sign of `a`; `Min / -1` overflows
      and wraps back to `Min`. */
  function Div(a: Int64, b: Int64): (r: Int64)
    requires b != 0
    ensures !(a == Min && b == -1) ==>
              var rem := a - r * b;
              Abs(rem) < Abs(b) && (rem == 0 || (rem < 0) == (a < 0))
    ensures a == Min && b == -1 ==> r == Min
  {
    var q := if (a < 0) == (b < 0) then Abs(a) / Abs(b) else -(Abs(a) / Abs(b));
    if a == Min && b == -1 then Wrap(q)
    else
      TruncatedQuotient(a, b);
      q
  }

  function Abs(x: int): nat {
    if x < 0 then -x else x
  }

  lemma TruncatedQuotient(a: Int64, b: Int64)
    requires b != 0
    requires !(a == Min && b == -1)
    ensures var q := if (a < 0) == (b < 0) then Abs(a) / Abs(b) else -(Abs(a) / Abs(b));
            var rem := a - q * b;
            Min <= q <= Max && Abs(rem) < Abs(b) && (rem == 0 || (rem < 0) == (a < 0))
  {
    var A, B := Abs(a), Abs(b);
    var n, m := A / B, A % B;
    assert A == n * B + m && 0 <= m < B;
    QuotientFits(a, b);
    if (a < 0) == (b < 0) {
      if a < 0 {
        assert a - n * b == -A + n * B == -m;
      } else {
        assert a - n * b == A - n * B == m;
      }
    } else {
      if a < 0 {
        assert a - (-n) * b == -A + n * B == -m;
      } else {
        assert a - (-n) * b == A - n * B == m;
      }
    }
  }

  lemma QuotientFits(a: Int64, b: Int64)
    requires b != 0
    requires !(a == Min && b == -1)
    ensures var n := Abs(a) / Abs(b);
            Min <= (if (a < 0) == (b < 0) then n else -n) <= Max
  {
    var A, B := Abs(a), Abs(b);
    if B == 1 {
      assert A / B == A;
    } else {
      DivMonotone(A, B);
    }
  }

  lemma DivMonotone(A: nat, B: nat)
    requires B >= 2
    ensures A / B <= A / 2
  {
    var n := A / B;
    assert n * B <= A;
    assert n * 2 <= n * B;
  }

  /** Mathematical power. */
  function Power(a: int, n: nat): int {
    if n == 0 then 1 else Power(a, n - 1) * a
  }

  /** Multiplying by a wrapped factor wraps like multiplying by the exact factor. */
  lemma MulWrapped(x: int, a: Int64)
    ensures Mul(Wrap(x), a) == Wrap(x * a)
  {
    var w := Wrap(x);
    var k := (w - x) / Modulus;
    assert w - x == k * Modulus;
    assert w * a - x * a == (k * a) * Modulus;
    assert (w * a - x * a) % Modulus == 0 by {
      ModAddMultiple(0, k * a);
    }
    WrapCongruent(w * a, x * a);
  }
}
