/** Values shared by every part of the ledger model: optional values, results,
    JavaScript numbers as the budget holds them, sums, and decimal text. */
module Values {

  /** `null` / `undefined` versus a present value. The model does not tell the
      two JavaScript absences apart. */
  datatype Option<+T> = None | Some(value: T) {
    function GetOr(default: T): T {
      if Some? then value else default
    }
  }

  /** The outcome of an operation that either yields a value or throws an
      `Error` carrying a message. */
  datatype Result<+T> = Ok(value: T) | Err(message: string)

  /** A JavaScript number as far as the budget needs it: a finite value, one of
      the two infinities, or NaN. */
  datatype Num = Finite(v: real) | PosInf | NegInf | NaN

  /** `n < 0`; false for NaN. */
  predicate IsNegative(n: Num) {
    n.NegInf? || (n.Finite? && n.v < 0.0)
  }

  /** `n > 0`; false for NaN. */
  predicate IsPositive(n: Num) {
    n.PosInf? || (n.Finite? && n.v > 0.0)
  }

  /** `n >= 0`; false for NaN. */
  predicate IsNonNegative(n: Num) {
    n.PosInf? || (n.Finite? && n.v >= 0.0)
  }

  /** `n - t` for a finite `t`. */
  function Minus(n: Num, t: real): (r: Num)
    ensures r.Finite? <==> n.Finite?
    ensures r.Finite? ==> r.v + t == n.v
    ensures !n.Finite? ==> r == n
  {
    match n
    case Finite(v) => Finite(v - t)
    case _ => n
  }

  /** `Math.abs(n)`. */
  function Abs(n: Num): (r: Num)
    ensures r.NaN? <==> n.NaN?
    ensures r.Finite? <==> n.Finite?
    ensures r.Finite? ==> r.v >= 0.0 && (r.v == n.v || r.v == -n.v)
    ensures n.PosInf? || n.NegInf? ==> r.PosInf?
  {
    match n
    case Finite(v) => Finite(if v < 0.0 then -v else v)
    case NaN => NaN
    case _ => PosInf
  }

  /** `s || fallback` for a string value: the empty string is falsy. */
  function OrElse(s: string, fallback: string): (r: string)
    ensures s != "" ==> r == s
    ensures s == "" ==> r == fallback
  {
    if s != "" then s else fallback
  }

  /** Truthiness of an optional string (`undefined`, `null` and `""` are falsy). */
  predicate Truthy(s: Option<string>) {
    s.Some? && s.value != ""
  }

  /** The sum `xs.reduce((s, x) => s + x, 0)`. */
  function SumSeq(xs: seq<real>): real {
    if xs == [] then 0.0 else SumSeq(xs[..|xs| - 1]) + xs[|xs| - 1]
  }

  predicate IsDigit(c: char) {
    '0' <= c <= '9'
  }

  function DigitValue(c: char): nat
    requires IsDigit(c)
  {
    (c as int) - ('0' as int)
  }

  function DigitChar(d: nat): (c: char)
    requires d < 10
    ensures IsDigit(c) && DigitValue(c) == d
  {
    (('0' as int) + d) as char
  }

  /** The value of a run of decimal digits, most significant first. */
  function DigitsValue(s: string): nat
    requires forall i :: 0 <= i < |s| ==> IsDigit(s[i])
  {
    if s == [] then 0 else 10 * DigitsValue(s[..|s| - 1]) + DigitValue(s[|s| - 1])
  }

  /** `String(n)` for a natural number: its shortest decimal text. */
  function NatToString(n: nat): (s: string)
    ensures |s| >= 1
    ensures forall i :: 0 <= i < |s| ==> IsDigit(s[i])
    ensures DigitsValue(s) == n
    ensures |s| > 1 ==> s[0] != '0'
  {
    if n < 10 then [DigitChar(n)]
    else
      var s := NatToString(n / 10) + [DigitChar(n % 10)];
      assert s[..|s| - 1] == NatToString(n / 10);
      s
  }
}
