/**
 * JavaScript number idioms used by the app: `Number(x) || d`, `x || d`,
 * `Math.max`/`Math.min`, and truncating `%`.
 */
module Numbers {
  import opened Wrappers

  /** `Number(x) || d`: a missing value and zero are both falsy and give the default. */
  function NumberOr(o: Option<int>, d: int): (r: int)
    ensures o.Some? && o.value != 0 ==> r == o.value
    ensures o.None? || o.value == 0 ==> r == d
  {
    if o.Some? && o.value != 0 then o.value else d
  }

  function Max(a: int, b: int): (r: int)
    ensures r >= a && r >= b && (r == a || r == b)
  {
    if a >= b then a else b
  }

  function Min(a: int, b: int): (r: int)
    ensures r <= a && r <= b && (r == a || r == b)
  {
    if a <= b then a else b
  }

  function MaxReal(a: real, b: real): (r: real)
    ensures r >= a && r >= b && (r == a || r == b)
  {
    if a >= b then a else b
  }

  function MinReal(a: real, b: real): (r: real)
    ensures r <= a && r <= b && (r == a || r == b)
  {
    if a <= b then a else b
  }

  /** `Math.max(...s)` over a non-empty list of ids. */
  function MaxOf(s: seq<int>): (m: int)
    requires |s| > 0
    ensures m in s
    ensures forall x :: x in s ==> x <= m
  {
    if |s| == 1 then s[0]
    else
      var rest := MaxOf(s[1..]);
      assert forall x :: x in s ==> x == s[0] || x in s[1..];
      Max(s[0], rest)
  }

  /** `Math.max(...s, 0)`: the largest id, or 0 for an empty list. */
  function MaxOrZero(s: seq<int>): (m: int)
    ensures m >= 0
    ensures forall x :: x in s ==> x <= m
    ensures |s| > 0 && MaxOf(s) >= 0 ==> m == MaxOf(s)
  {
    if |s| == 0 then 0 else Max(MaxOf(s), 0)
  }

  /** JavaScript `a % b` for b > 0: truncates toward zero, so the sign follows `a`. */
  function JsRem(a: int, b: int): (r: int)
    requires b > 0
    ensures a >= 0 ==> r == a % b
    ensures a < 0 ==> -b < r <= 0 && r == -((-a) % b)
  {
    if a >= 0 then a % b else -((-a) % b)
  }

  /** `Math.round(x)`: the nearest integer, halves rounded up. */
  function Round(x: real): (r: int)
    ensures r as real - 0.5 <= x < r as real + 0.5
  {
    (x + 0.5).Floor
  }

  /** `Math.ceil(a / b)` for b > 0. */
  function CeilDiv(a: int, b: int): (q: int)
    requires b > 0
    ensures b * (q - 1) < a <= b * q
  {
    (a + b - 1) / b
  }

  /** A quotient by a positive number keeps the side of 0 and of 1 its numerator has relative to 0 and to the divisor. */
  lemma RatioBounds(e: real, i: real)
    requires i > 0.0
    ensures e <= 0.0 ==> e / i <= 0.0
    ensures e >= i ==> e / i >= 1.0
  {
    assert (e / i) * i == e;
  }
}
