/** Values shared by all components: optional values, raised exceptions, trade sides and
    the numeric conversions that Python's `int`, `max`, `min` and `abs` perform. */
module Common {
  datatype Option<+T> = None | Some(value: T)

  /** `Raised` stands for a Python exception leaving the call. */
  datatype Result<+T> = Raised | Ok(value: T)

  /** The program compares direction strings with "LONG" and "SHORT" only; any other string
      behaves alike and is `OtherSide`. */
  datatype Side = Long | Short | OtherSide

  /** Profit direction of a side: everything that is not LONG counts as short. */
  function Multiplier(side: Side): real { if side == Long then 1.0 else -1.0 }

  function Max(a: real, b: real): real { if a > b then a else b }

  function Min(a: real, b: real): real { if a < b then a else b }

  function Abs(a: real): real { if a < 0.0 then -a else a }

  /** `int(x)` truncates toward zero. */
  function Truncate(x: real): int { if x >= 0.0 then x.Floor else -(-x).Floor }

  /** Truncation drops the fraction on either side of zero. */
  lemma {:induction false} TruncateDropsFraction(x: real)
    ensures x >= 0.0 ==> Truncate(x) as real <= x < Truncate(x) as real + 1.0
    ensures x <= 0.0 ==> Truncate(x) as real - 1.0 < x <= Truncate(x) as real
  {
  }

  function Sum(s: seq<real>): real
  {
    if s == [] then 0.0 else Sum(s[..|s| - 1]) + s[|s| - 1]
  }

  lemma {:induction false} SumAppend(s: seq<real>, x: real)
    ensures Sum(s + [x]) == Sum(s) + x
  {
    assert (s + [x])[..|s|] == s;
  }

  lemma {:induction false} QuotientIs(a: real, b: real, q: real)
    requires b != 0.0 && q * b == a
    ensures a / b == q
  {
  }

  /** Multiplying by a nonnegative factor keeps an inequality. */
  lemma {:induction false} ScaleLe(a: real, b: real, c: real)
    requires a <= b && c >= 0.0
    ensures a * c <= b * c && c * a <= c * b
  {
  }

  lemma {:induction false} OrderScales(a: real, b: real, c: real)
    requires c > 0.0
    ensures a < b <==> a * c < b * c
  {
    var d := b - a;
    assert d * c == b * c - a * c;
  }

  lemma {:induction false} IntOrderScales(a: int, b: int, c: int)
    requires c > 0
    ensures a < b <==> a * c < b * c
  {
    var d := b - a;
    assert d * c == b * c - a * c;
  }

  lemma {:induction false} MultipleOf(k: int, d: int)
    requires d > 0
    ensures (k * d) % d == 0
  {
    var q, r := (k * d) / d, (k * d) % d;
    assert k * d == q * d + r;
    assert (k - q) * d == r;
    if k - q >= 1 {
    } else if k - q <= -1 {
    }
  }
}
