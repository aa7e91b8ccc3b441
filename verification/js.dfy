/** JavaScript values and conversions shared by the model: the errors the code
    throws, a result type for operations that may throw, bytes, and the
    integer conversions behind `x >>> 0` and `x | 0`. */
module Js {

  /** One byte of an ArrayBuffer. */
  type byte = x: int | 0 <= x < 256

  /** The exceptions the modelled code can throw. */
  datatype JsError =
    | TypeError(message: string)     // `new TypeError(message)`
    | PlainError(message: string)    // `new Error(message)`
    | RangeError                     // a typed-array constructor given a window outside its buffer
    | InvalidStateError              // the ImageData constructor given an empty pixel array

  /** Either the value an operation returns or the exception it throws. */
  datatype Result<T> = Ok(value: T) | Err(error: JsError)

  datatype Option<T> = None | Some(value: T)

  const TWO_32: int := 0x1_0000_0000
  const TWO_31: int := 0x8000_0000

  /** Truncation toward zero of a finite number (the first step of ToUint32 and ToInt32). */
  function Trunc(x: real): (r: int)
    ensures 0.0 <= x ==> r as real <= x < r as real + 1.0
    ensures x <= 0.0 ==> r as real - 1.0 < x <= r as real
  {
    if x >= 0.0 then x.Floor else -((-x).Floor)
  }

  /** `n >>> 0` for an integral number n: the unique value in [0, 2^32) congruent to n. */
  function ToUint32(n: int): (r: int)
    ensures 0 <= r < TWO_32
    ensures (n - r) % TWO_32 == 0
    ensures 0 <= n < TWO_32 ==> r == n
  {
    n % TWO_32
  }

  /** `n | 0` for an integral number n: the unique value in [-2^31, 2^31) congruent to n. */
  function ToInt32(n: int): (r: int)
    ensures -TWO_31 <= r < TWO_31
    ensures (n - r) % TWO_32 == 0
    ensures -TWO_31 <= n < TWO_31 ==> r == n
  {
    var u := n % TWO_32;
    if u >= TWO_31 then u - TWO_32 else u
  }

  /** The sign of a product with a positive factor is the other factor's sign. */
  lemma ProductSign(x: real, y: real)
    requires y > 0.0
    ensures x * y > 0.0 ==> x > 0.0
    ensures x * y >= 0.0 ==> x >= 0.0
  {
  }

  /** Dividing q * b + m by b, for 0 <= m < b, leaves q plus a fraction below one. */
  lemma QuotientBounds(a: real, b: real, q: real, m: real)
    requires b > 0.0 && a == q * b + m && 0.0 <= m < b
    ensures q <= a / b < q + 1.0
  {
    var f := m / b;
    assert f * b == m;
    assert a / b == q + f;
    assert b - m > 0.0;
    assert (1.0 - f) * b == b - m;
    ProductSign(f, b);
    ProductSign(1.0 - f, b);
  }

  /** The truncated quotient of two naturals is their integer quotient; this is
      what `a / b >>> 0` computes for the small operands the code uses. */
  lemma {:induction false} TruncQuotient(a: nat, b: nat)
    requires b > 0
    ensures Trunc(a as real / b as real) == a / b
  {
    var q, m := a / b, a % b;
    assert a == q * b + m;
    assert a as real == q as real * b as real + m as real;
    QuotientBounds(a as real, b as real, q as real, m as real);
  }
}
