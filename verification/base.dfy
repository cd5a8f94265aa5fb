/** Small shared vocabulary: the failure-compatible result of an operation guarded
    by the engine's debug assertions, an option type, and C's integer division. */
module Base {

  /** `dbg_assert` ends the process when its condition is false. The model records
      that outcome as `Failed`, carrying the assertion's message, instead of
      continuing in a state the engine never reaches. */
  datatype Result<+T> = Ok(value: T) | Failed(message: string) {

    predicate IsFailure() {
      Failed?
    }

    function PropagateFailure<U>(): Result<U>
      requires Failed?
    {
      Failed(message)
    }

    function Extract(): T
      requires Ok?
    {
      value
    }
  }

  datatype Option<+T> = None | Some(value: T)

  /** Pixel formats of an image (the engine's `CImageInfo` formats). */
  datatype Format = Auto | RGB | RGBA | Alpha

  /** C's `/` on `int`: the quotient is truncated toward zero. */
  function CDiv(a: int, b: int): (q: int)
    requires b > 0
    ensures a >= 0 ==> q == a / b
    ensures a < 0 ==> q == -((-a) / b)
  {
    if a >= 0 then a / b else -((-a) / b)
  }

  /** C's `%` on `int`: the remainder takes the sign of the dividend. */
  function CMod(a: int, b: int): (m: int)
    requires b > 0
    ensures a == CDiv(a, b) * b + m
    ensures -b < m < b
    ensures a >= 0 ==> 0 <= m
    ensures a < 0 ==> m <= 0
  {
    a - CDiv(a, b) * b
  }

  lemma MulMonotone(a: int, b: int, c: int)
    requires a <= b && c >= 0
    ensures a * c <= b * c
  {
  }

  lemma MulSucc(a: int, n: int)
    ensures a * (n + 1) == a + a * n
  {
  }

  /** Dividing `q * d + r` by `d` gives back `q` and `r` when `r` is a remainder. */
  lemma DivModOf(q: int, r: int, d: int)
    requires d > 0 && 0 <= r < d
    ensures (q * d + r) / d == q && (q * d + r) % d == r
  {
    var a := q * d + r;
    var q', r' := a / d, a % d;
    assert (q' - q) * d == r - r';
    if q' > q {
      MulMonotone(1, q' - q, d);
    } else if q' < q {
      MulMonotone(1, q - q', d);
    }
  }

  /** The quotient is the largest multiple of `d` not above `a`. */
  lemma DivFloor(a: int, d: int)
    requires d > 0
    ensures (a / d) * d <= a < (a / d + 1) * d
  {
    assert a == (a / d) * d + a % d;
    assert (a / d + 1) * d == (a / d) * d + d;
  }

  lemma DivMonotone(x: int, y: int, d: int)
    requires x <= y && d > 0
    ensures x / d <= y / d
  {
    if x / d > y / d {
      MulMonotone(y / d + 1, x / d, d);
    }
  }
}
