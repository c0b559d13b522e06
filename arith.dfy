/** Integer renderings of the JavaScript `Math` helpers the UI uses. */
module Arith {
  /** `Math.floor(a / b)` for `b != 0` (Dafny's own `/` is Euclidean). */
  function FloorDiv(a: int, b: int): (q: int)
    requires b != 0
    ensures b > 0 ==> q * b <= a < q * b + b
    ensures b < 0 ==> q * b >= a > q * b + b
  {
    if b > 0 then a / b else (-a) / (-b)
  }

  /** `Math.ceil(a / b)` for `b > 0`. */
  function CeilDiv(a: int, b: int): (q: int)
    requires b > 0
    ensures q * b - b < a <= q * b
  {
    -((-a) / b)
  }

  /** JavaScript's `a % b` for `b > 0`: the remainder takes the sign of `a`. */
  function JsRem(a: int, b: int): (r: int)
    requires b > 0
    ensures a >= 0 ==> r == a % b
    ensures a < 0 ==> -b < r <= 0 && -r == (-a) % b
  {
    if a >= 0 then a % b else -((-a) % b)
  }

  /** `Math.max(lo, Math.min(hi, x))`. */
  function Clamp(x: int, lo: int, hi: int): (r: int)
    requires lo <= hi
    ensures lo <= r <= hi
    ensures lo <= x <= hi ==> r == x
    ensures x < lo ==> r == lo
    ensures x > hi ==> r == hi
  {
    if x < lo then lo else if x > hi then hi else x
  }

  /** `Math.max(0, x)`. */
  function NonNegative(x: int): (r: nat)
    ensures r >= x && (x >= 0 ==> r == x)
  {
    if x < 0 then 0 else x
  }

  function Abs(x: int): (r: nat)
    ensures r == x || r == -x
  {
    if x < 0 then -x else x
  }

  /** A positive multiple of a positive `b` is at least `b`. */
  lemma {:induction false} MulAtLeast(x: int, b: int)
    requires x >= 1 && b > 0
    ensures x * b >= b
    decreases x
  {
    if x > 1 {
      MulAtLeast(x - 1, b);
      assert x * b == (x - 1) * b + b;
    }
  }

  /** Euclidean division is unique: a quotient and remainder that rebuild `a` are `a / b` and `a % b`. */
  lemma DivUnique(a: int, b: int, q: int, r: int)
    requires b > 0 && 0 <= r < b && a == q * b + r
    ensures a / b == q && a % b == r
  {
    var q', r' := a / b, a % b;
    assert a == q' * b + r';
    if q > q' {
      MulAtLeast(q - q', b);
    } else if q < q' {
      MulAtLeast(q' - q, b);
    }
  }

  lemma Distribute(a: int, b: int, c: int)
    ensures (a + b) * c == a * c + b * c
    ensures (a - b) * c == a * c - b * c
  {
  }
  /**
   * Counting one further: the quotient steps up exactly when the next number
   * is a multiple, and otherwise the remainder steps up.
   */
  lemma DivStep(k: nat, b: int)
    requires b > 0
    ensures (k + 1) % b == 0 ==> (k + 1) / b == k / b + 1
    ensures (k + 1) % b != 0 ==> (k + 1) / b == k / b && (k + 1) % b == k % b + 1
  {
    var q, r := k / b, k % b;
    if r == b - 1 {
      DivUnique(k + 1, b, q + 1, 0);
    } else {
      DivUnique(k + 1, b, q, r + 1);
    }
  }
}
