/** Go's integer operators where they differ from Dafny's. Go's `/` truncates toward zero and
    its `%` takes the sign of the dividend; Dafny's are Euclidean. Go's int64 arithmetic wraps. */
module GoInt {

  function Abs(a: int): nat { if a < 0 then -a else a }

  /** The Euclidean remainder `x mod n`, in [0, n), computed by repeated subtraction or
      addition of `n` so that it carries no nonlinear arithmetic into the proofs that use it. */
  function Mod(x: int, n: int): (r: int)
    requires n > 0
    ensures 0 <= r < n
    decreases if x < 0 then n - x else x
  {
    if 0 <= x < n then x else if x >= n then Mod(x - n, n) else Mod(x + n, n)
  }

  /** The quotient of `x` by `n`, rounded down, for a non-negative `x`. */
  function Div(x: int, n: int): (q: nat)
    requires x >= 0 && n > 0
    decreases x
  {
    if x < n then 0 else 1 + Div(x - n, n)
  }

  /** Any quotient and remainder in range determine `Mod`. */
  lemma {:induction false} ModOf(x: int, n: int, q: int, m: int)
    requires n > 0 && x == q * n + m && 0 <= m < n
    ensures Mod(x, n) == m
    decreases if q < 0 then -q else q
  {
    if q > 0 {
      assert x - n == (q - 1) * n + m;
      ModOf(x - n, n, q - 1, m);
    } else if q < 0 {
      assert x + n == (q + 1) * n + m;
      ModOf(x + n, n, q + 1, m);
    }
  }

  /** `Mod` is Dafny's (Euclidean) `%`. */
  lemma ModMatches(x: int, n: int)
    requires n > 0
    ensures Mod(x, n) == x % n
  {
    ModOf(x, n, x / n, x % n);
  }

  /** `Div` and `Mod` split a non-negative `x`. */
  lemma {:induction false} DivMod(x: int, n: int)
    requires x >= 0 && n > 0
    ensures Div(x, n) * n + Mod(x, n) == x
    decreases x
  {
    if x >= n {
      DivMod(x - n, n);
      assert (1 + Div(x - n, n)) * n == n + Div(x - n, n) * n;
    }
  }

  /** Any quotient whose multiples bracket a non-negative `x` is `Div`. */
  lemma {:induction false} DivOf(x: int, n: int, q: nat)
    requires n > 0 && q * n <= x < (q + 1) * n
    ensures Div(x, n) == q
    decreases q
  {
    if q > 0 {
      assert (q - 1) * n <= x - n < q * n;
      DivOf(x - n, n, q - 1);
    }
  }

  /** Go's `a / b`: the quotient truncated toward zero. */
  function Quot(a: int, b: int): (q: int)
    requires b != 0
  {
    var q0: int := Div(Abs(a), Abs(b));
    if (a >= 0) == (b > 0) then q0 else -q0
  }

  /** Go's `a % b`: the remainder of the truncated division, with the sign of the dividend. */
  function Rem(a: int, b: int): (r: int)
    requires b != 0
    ensures a >= 0 ==> 0 <= r < Abs(b)
    ensures a < 0 ==> -(Abs(b) as int) < r <= 0
  {
    if a >= 0 then Mod(a, Abs(b)) else -Mod(-a, Abs(b))
  }

  /** Go's division identity: `(a / b) * b + a % b == a`. */
  lemma QuotRem(a: int, b: int)
    requires b != 0
    ensures Quot(a, b) * b + Rem(a, b) == a
  {
    var q0, m := Div(Abs(a), Abs(b)), Mod(Abs(a), Abs(b));
    DivMod(Abs(a), Abs(b));
    assert q0 * Abs(b) + m == Abs(a);
    NegMul(q0, Abs(b));
    assert Quot(a, b) * b == (if a >= 0 then q0 * Abs(b) else -(q0 * Abs(b)));
  }

  lemma NegMul(x: int, y: int)
    ensures (-x) * y == -(x * y) && x * (-y) == -(x * y) && (-x) * (-y) == x * y
  {
  }

  /** The int64 value Go keeps of the mathematical integer `x` (two's-complement wrap-around). */
  function Wrap64(x: int): (r: int)
    ensures -0x8000_0000_0000_0000 <= r < 0x8000_0000_0000_0000
    ensures (r - x) % 0x1_0000_0000_0000_0000 == 0
    ensures -0x8000_0000_0000_0000 <= x < 0x8000_0000_0000_0000 ==> r == x
  {
    var m := x % 0x1_0000_0000_0000_0000;
    if m >= 0x8000_0000_0000_0000 then m - 0x1_0000_0000_0000_0000 else m
  }
}
