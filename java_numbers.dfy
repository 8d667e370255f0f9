/** Java's fixed-width integer semantics, as far as the controller relies on them:
    the wrap-around of `++` and `--` on an `int` counter, and the truncating
    remainder operator `%`. */
module JavaNumbers {

  const MIN_INT: int := -0x8000_0000
  const MAX_INT: int := 0x7fff_ffff
  const MAX_LONG: int := 0x7fff_ffff_ffff_ffff

  /** A Java `int`. */
  newtype int32 = x: int | -0x8000_0000 <= x <= 0x7fff_ffff

  /** A Java `long`. */
  newtype int64 = x: int | -0x8000_0000_0000_0000 <= x <= 0x7fff_ffff_ffff_ffff

  /** `x++` on a Java `int`: one more, except that the largest value wraps to the smallest. */
  function Inc32(x: int32): (r: int32)
    ensures x as int < MAX_INT ==> r as int == x as int + 1
    ensures x as int == MAX_INT ==> r as int == MIN_INT
  {
    if x == 0x7fff_ffff then -0x8000_0000 else x + 1
  }

  /** `x--` on a Java `int`: one less, except that the smallest value wraps to the largest. */
  function Dec32(x: int32): (r: int32)
    ensures x as int > MIN_INT ==> r as int == x as int - 1
    ensures x as int == MIN_INT ==> r as int == MAX_INT
  {
    if x == -0x8000_0000 then 0x7fff_ffff else x - 1
  }

  /** A decrement undoes an increment, across the wrap-around too. */
  lemma DecUndoesInc(x: int32)
    ensures Dec32(Inc32(x)) == x
    ensures Inc32(Dec32(x)) == x
  {
  }

  function Abs(x: int): nat
  {
    if x < 0 then -x else x
  }

  /** Java's `a % b`: the remainder of the division truncated toward zero,
      which takes the sign of the dividend (Dafny's own `%` is Euclidean). */
  function JavaRem(a: int, b: int): (r: int)
    requires b != 0
    ensures Abs(r) < Abs(b)
    ensures a >= 0 ==> r >= 0
    ensures a <= 0 ==> r <= 0
    ensures r == 0 <==> a % Abs(b) == 0
  {
    if a >= 0 then
      a % Abs(b)
    else
      NegatedRemZero(a, Abs(b));
      -((-a) % Abs(b))
  }

  /** Java's `(long) x` for a double: the value truncated toward zero (the
      saturation at the ends of the `long` range is not modelled). */
  function TruncateReal(x: real): (r: int)
    ensures x >= 0.0 ==> r as real <= x < r as real + 1.0
    ensures x < 0.0 ==> r as real - 1.0 < x <= r as real
    ensures r < 0 <==> x <= -1.0
  {
    if x >= 0.0 then x.Floor else -((-x).Floor)
  }

  /** Every `n`-th value, starting at 0, leaves no remainder; the values in between do. */
  lemma {:induction false} RemZeroExactlyAtMultiples(k: nat, j: nat, n: int)
    requires n != 0 && j < Abs(n)
    ensures JavaRem(k * Abs(n) + j, n) == 0 <==> j == 0
  {
    if k == 0 {
      assert k * Abs(n) + j == j;
      ModUnique(j, Abs(n), 0, j);
    } else {
      RemZeroExactlyAtMultiples(k - 1, j, n);
      assert k * Abs(n) + j == ((k - 1) * Abs(n) + j) + Abs(n);
      ModShift((k - 1) * Abs(n) + j, Abs(n));
    }
  }

  lemma {:induction false} MulAtLeast(m: int, d: int)
    requires m > 0 && d >= 1
    ensures m * d >= m
  {
    assert m * d == m + m * (d - 1);
    if d > 1 {
      MulAtLeast(m, d - 1);
    }
  }

  /** Euclidean division has a unique quotient and remainder. */
  lemma ModUnique(x: int, m: int, q: int, r: int)
    requires m > 0 && 0 <= r < m && x == m * q + r
    ensures x % m == r
  {
    var q', r' := x / m, x % m;
    assert x == m * q' + r';
    if q' < q {
      MulAtLeast(m, q - q');
      assert false;
    } else if q < q' {
      MulAtLeast(m, q' - q);
      assert false;
    }
  }

  lemma ModShift(x: int, m: int)
    requires m > 0
    ensures (x + m) % m == x % m
  {
    var q := x / m;
    assert x + m == m * (q + 1) + x % m;
    ModUnique(x + m, m, q + 1, x % m);
  }

  lemma NegatedRemZero(x: int, m: int)
    requires m > 0
    ensures (-x) % m == 0 <==> x % m == 0
  {
    if x % m == 0 {
      assert -x == m * (-(x / m)) + 0;
      ModUnique(-x, m, -(x / m), 0);
    }
    if (-x) % m == 0 {
      assert x == m * (-((-x) / m)) + 0;
      ModUnique(x, m, -((-x) / m), 0);
    }
  }

  /** Adding a multiple of `m` does not change the remainder. */
  lemma ModAddMultiple(z: int, m: int, q: int)
    requires m > 0
    ensures (m * q + z) % m == z % m
  {
    var q', r := z / m, z % m;
    assert z == m * q' + r;
    assert m * q + z == m * (q + q') + r;
    ModUnique(m * q + z, m, q + q', r);
  }

  /** Reducing a summand first does not change the remainder of a sum. */
  lemma ModOfSum(x: int, y: int, m: int)
    requires m > 0
    ensures ((x % m) + y) % m == (x + y) % m
  {
    var q := x / m;
    assert x + y == m * q + ((x % m) + y);
    ModAddMultiple((x % m) + y, m, q);
  }
}
