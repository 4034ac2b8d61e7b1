/**
 * Typed cell and attribute values, with Python's `str()` of each.
 * `Dec(units, places)` is the decimal `units / 10^places` as Django's
 * DecimalField stores it.
 */
module Values {

  import opened Strings

  datatype Value = Null | Str(s: string) | Int(i: int) | Bool(b: bool) | Dec(units: int, places: nat)

  function Pow10(n: nat): (r: nat)
    ensures r >= 1
  {
    if n == 0 then 1 else 10 * Pow10(n - 1)
  }

  /** `n` written with at least `width` digits, zero-padded on the left. */
  function PadDigits(n: nat, width: nat): (r: string)
    ensures |r| >= width
  {
    var d := NatStr(n);
    if |d| >= width then d else Zeros(width - |d|) + d
  }

  function Zeros(k: nat): (r: string)
    ensures |r| == k && forall i :: 0 <= i < k ==> r[i] == '0'
  {
    if k == 0 then "" else "0" + Zeros(k - 1)
  }

  /** `str(Decimal)` for a decimal with a fixed number of places. */
  function DecStr(units: int, places: nat): string
  {
    var sign := if units < 0 then "-" else "";
    var mag: nat := if units < 0 then -units else units;
    if places == 0 then sign + NatStr(mag)
    else sign + NatStr(WholePart(mag, places)) + "." + PadDigits(FractionPart(mag, places), places)
  }

  function WholePart(mag: nat, places: nat): nat
  {
    var p := Pow10(places);
    assert mag / p >= 0 by { DivNonNegative(mag, p); }
    mag / p
  }

  function FractionPart(mag: nat, places: nat): nat
  {
    mag % Pow10(places)
  }

  lemma DivNonNegative(a: nat, b: nat)
    requires b > 0
    ensures a / b >= 0
  {
  }

  /** Python's `str(value)`. */
  function PyStr(v: Value): (r: string)
    ensures v.Null? ==> r == "None"
    ensures v.Str? ==> r == v.s
    ensures v.Bool? ==> r == (if v.b then "True" else "False")
  {
    match v
    case Null => "None"
    case Str(s) => s
    case Int(i) => IntStr(i)
    case Bool(b) => if b then "True" else "False"
    case Dec(u, p) => DecStr(u, p)
  }

  /** Python truthiness of a value. */
  predicate Truthy(v: Value)
  {
    match v
    case Null => false
    case Str(s) => s != ""
    case Int(i) => i != 0
    case Bool(b) => b
    case Dec(u, _) => u != 0
  }

  /** Two decimals compared by value, whatever their places: `a <= b`. */
  predicate DecLe(a: Value, b: Value)
    requires a.Dec? && b.Dec?
  {
    a.units * Pow10(b.places) <= b.units * Pow10(a.places)
  }

  /**
   * `n / d` rounded to the nearest integer, ties to even: Python's `round()` on an
   * exact decimal quotient.
   */
  function RoundHalfEven(n: int, d: nat): (r: int)
    requires d > 0
    ensures 2 * (n - r * d) <= d && 2 * (r * d - n) <= d
    ensures (2 * (n - r * d) == d || 2 * (r * d - n) == d) ==> r % 2 == 0
  {
    var q := n / d;
    var m := n % d;
    assert n == q * d + m;
    if 2 * m < d then q
    else if 2 * m > d then (assert (q + 1) * d == q * d + d; q + 1)
    else if q % 2 == 0 then q
    else (assert (q + 1) * d == q * d + d; q + 1)
  }

  /** `n / d` truncated toward zero, as `int()` and `'%d'` do for decimals. */
  function TruncDiv(n: int, d: nat): (r: int)
    requires d > 0
    ensures n >= 0 ==> r >= 0 && 0 <= n - r * d < d
    ensures n < 0 ==> r <= 0 && 0 < n - r * d + d && n - r * d <= 0
  {
    if n >= 0 then (DivBounds(n, d); n / d)
    else (DivBounds(-n, d); NegMul((-n) / d, d); -((-n) / d))
  }

  lemma DivBounds(a: nat, d: nat)
    requires d > 0
    ensures a / d >= 0 && 0 <= a - (a / d) * d < d
  {
  }

  lemma NegMul(q: int, d: int)
    ensures (-q) * d == -(q * d)
  {
  }
}
