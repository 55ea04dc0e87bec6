/** Kotlin numeric conversions and the few error kinds the core can raise,
    stated over exact reals (the app uses `Float`; rounding error is not modelled). */
module Numerics {

  /** The exceptions the modelled code can throw. */
  datatype Failure =
    | IllegalArgument   // `require(...)` failed
    | NoSuchElement     // `first()` on an empty list

  /** The outcome of a call that can throw. */
  datatype Result<+T> = Ok(value: T) | Err(failure: Failure)

  /** One full turn, in degrees. */
  const Turn: real := 360.0

  /** `y` is a whole number. */
  predicate IsWhole(y: real) {
    y.Floor as real == y
  }

  /** `a` and `b` denote the same direction: they differ by whole turns. */
  predicate SameDirection(a: real, b: real) {
    IsWhole((a - b) / Turn)
  }

  /** Kotlin `Float.toInt()`: truncation toward zero. */
  function Trunc(x: real): (r: int)
    ensures 0.0 <= x ==> 0 <= r && r as real <= x < r as real + 1.0
    ensures x < 0.0 ==> r <= 0 && r as real - 1.0 < x <= r as real
  {
    if x >= 0.0 then x.Floor else -((-x).Floor)
  }

  /** Kotlin `Float.roundToInt()`: nearest integer, ties toward positive infinity. */
  function RoundHalfUp(x: real): (r: int)
    ensures x - 0.5 < r as real <= x + 0.5
  {
    (x + 0.5).Floor
  }

  /** Kotlin `x % 360f`: the truncated remainder, whose sign follows the dividend. */
  function Rem360(x: real): (r: real)
    ensures 0.0 <= x ==> 0.0 <= r < Turn
    ensures x < 0.0 ==> -Turn < r <= 0.0
    ensures SameDirection(r, x)
  {
    var y := x / Turn;
    var q := Trunc(y);
    assert x == y * Turn;
    var r := x - q as real * Turn;
    assert r == (y - q as real) * Turn;
    assert r - x == -(q as real) * Turn;
    assert (r - x) / Turn == (-q) as real;
    WholeOfInt(-q);
    r
  }

  /** Kotlin `coerceIn(lo, hi)`, which throws unless `lo <= hi`. */
  function Clamp(x: real, lo: real, hi: real): (r: real)
    requires lo <= hi
    ensures lo <= r <= hi
    ensures lo <= x <= hi ==> r == x
    ensures x < lo ==> r == lo
    ensures hi < x ==> r == hi
  {
    if x < lo then lo else if hi < x then hi else x
  }

  /** An integer is a whole number. */
  lemma WholeOfInt(k: int)
    ensures IsWhole(k as real)
  {
  }

  /** Two directions inside one turn are the same only if they are equal. */
  lemma SameDirectionWithinTurn(a: real, b: real)
    requires 0.0 <= a < Turn && 0.0 <= b < Turn
    requires SameDirection(a, b)
    ensures a == b
  {
    var k := ((a - b) / Turn).Floor;
    assert -1.0 < (a - b) / Turn < 1.0;
    assert k == 0;
  }

  /** Being the same direction is transitive. */
  lemma SameDirectionTrans(a: real, b: real, c: real)
    requires SameDirection(a, b) && SameDirection(b, c)
    ensures SameDirection(a, c)
  {
    var m := ((a - b) / Turn).Floor;
    var n := ((b - c) / Turn).Floor;
    assert (a - c) / Turn == (m + n) as real;
  }

  /** Adding a whole number of turns keeps the direction. */
  lemma SameDirectionShift(a: real, k: int)
    ensures SameDirection(a + k as real * Turn, a)
  {
    assert (a + k as real * Turn - a) / Turn == k as real;
  }

  /** A non-negative angle in the `k`-th turn reduces to its offset in that turn. */
  lemma Rem360InTurn(x: real, k: nat)
    requires k as real * Turn <= x < (k + 1) as real * Turn
    ensures Rem360(x) == x - k as real * Turn
  {
    assert k as real <= x / Turn < (k + 1) as real;
    assert Trunc(x / Turn) == k;
  }
}
