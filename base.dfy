/**
 * Python semantics that the genetic-algorithm model relies on: the exceptions
 * the code can raise, clamped slicing, floor modulo, powers of two and
 * `int.bit_length`.
 */
module Base {

  /** The Python exceptions that the modelled code raises. */
  datatype Error =
    | ValueError         // bad literal for int(), empty randrange, wrong unpack count
    | TypeError          // unrecognised crossover or selection method name
    | KeyError           // unknown dictionary key
    | IndexError         // indexing an empty list
    | ZeroDivisionError  // division or modulo by zero
    | OverflowError      // int() of an infinite float

  /** A value, or the exception that the Python code raises instead. */
  datatype Result<+T> = Ok(value: T) | Err(error: Error)

  /** The outcome of a statement that returns nothing: it completes or raises. */
  datatype Status = Done | Raised(error: Error)

  function Min(a: int, b: int): int { if a <= b then a else b }

  function Max(a: int, b: int): int { if a <= b then b else a }

  /** Python's `s[:k]` for `k >= 0`: a bound past the end is clamped. */
  function Take<T>(s: seq<T>, k: nat): (r: seq<T>)
    ensures |r| == Min(k, |s|)
    ensures forall i :: 0 <= i < |r| ==> r[i] == s[i]
  {
    if k <= |s| then s[..k] else s
  }

  /** Python's `s[k:]` for `k >= 0`: empty once `k` passes the end. */
  function Drop<T>(s: seq<T>, k: nat): (r: seq<T>)
    ensures |r| == |s| - Min(k, |s|)
    ensures forall i :: 0 <= i < |r| ==> r[i] == s[k + i]
  {
    if k <= |s| then s[k..] else []
  }

  /** Python's `s[a:b]` for `a, b >= 0`: empty when `b <= a`, clamped at the end. */
  function Slice<T>(s: seq<T>, a: nat, b: nat): (r: seq<T>)
    ensures a <= b <= |s| ==> r == s[a..b]
  {
    if b <= a then [] else Take(Drop(s, a), b - a)
  }

  /**
   * Python's `a % b`: the result has the sign of the divisor, and
   * `a == (a // b) * b + a % b` with `//` rounding down. Dafny's `%` is
   * Euclidean, which agrees with Python only for a positive divisor; for a
   * negative one the floor quotient is `-(a / -b)`, less one unless the
   * division is exact.
   */
  function PyMod(a: int, b: int): (r: int)
    requires b != 0
    ensures b > 0 ==> 0 <= r < b
    ensures b < 0 ==> b < r <= 0
    ensures b > 0 ==> r == a % b
    ensures b < 0 ==> a == (-(a / -b) - (if r == 0 then 0 else 1)) * b + r
  {
    if b > 0 then a % b
    else
      var m := a % -b;
      if m == 0 then 0 else m + b
  }

  function Pow2(n: nat): (r: nat)
    ensures r >= 1
  {
    if n == 0 then 1 else 2 * Pow2(n - 1)
  }

  function Abs(x: int): nat { if x < 0 then -x else x }

  /**
   * Python's `x.bit_length()`: the number of binary digits of `|x|`, so
   * `0` has none and `(-1).bit_length() == 1`.
   */
  function BitLength(x: int): (r: nat)
    decreases Abs(x)
  {
    if x == 0 then 0 else 1 + BitLength(Abs(x) / 2)
  }

  /**
   * `bit_length` is the least width that can hold the number:
   * `2^(k-1) <= |x| < 2^k` for `k = x.bit_length()`.
   */
  lemma {:induction false} BitLengthBounds(x: int)
    ensures Abs(x) < Pow2(BitLength(x))
    ensures x != 0 ==> Pow2(BitLength(x) - 1) <= Abs(x)
    decreases Abs(x)
  {
    if x != 0 {
      BitLengthBounds(Abs(x) / 2);
    }
  }
}
