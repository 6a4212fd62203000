/** Python's decimal values beyond the finite ones, and the operations the ingestion rules use on them in
    the default context, where an invalid operation raises. Finite arithmetic is exact here. */
module Decimals {
  import opened Wrappers
  import opened RealSums

  datatype Decimal = Finite(value: real) | Infinity(negative: bool) | QuietNaN | SignallingNaN

  /** The nearest integer, halves to the even neighbour: the decimal context's default. */
  function RoundHalfEven(x: real): (k: int)
    ensures -0.5 <= x - k as real <= 0.5
    ensures x - k as real == 0.5 || x - k as real == -0.5 ==> k % 2 == 0
  {
    var below := x.Floor;
    var part := x - below as real;
    if part < 0.5 || (part == 0.5 && below % 2 == 0) then below else below + 1
  }

  function ToPence(x: real): real {
    RoundHalfEven(x * 100.0) as real / 100.0
  }

  /** Multiplication by a rate; none if it raises. */
  function TimesRate(a: Decimal, rate: real): Option<Decimal> {
    match a
    case Finite(x) => Some(Finite(x * rate))
    case Infinity(negative) => if rate == 0.0 then None else Some(Infinity(negative != (rate < 0.0)))
    case QuietNaN => Some(QuietNaN)
    case SignallingNaN => None
  }

  function QuantizePence(a: Decimal): Option<Decimal> {
    match a
    case Finite(x) => Some(Finite(ToPence(x)))
    case Infinity(_) => None
    case QuietNaN => Some(QuietNaN)
    case SignallingNaN => None
  }

  function Negated(a: Decimal): Decimal {
    match a
    case Finite(x) => Finite(-x)
    case Infinity(negative) => Infinity(!negative)
    case _ => a
  }

  function Added(a: Decimal, b: Decimal): Option<Decimal> {
    if a.SignallingNaN? || b.SignallingNaN? then None
    else if a.QuietNaN? || b.QuietNaN? then Some(QuietNaN)
    else if a.Infinity? && b.Infinity? then if a == b then Some(a) else None
    else if a.Infinity? then Some(a)
    else if b.Infinity? then Some(b)
    else Some(Finite(a.value + b.value))
  }

  function Subtracted(a: Decimal, b: Decimal): Option<Decimal> {
    Added(a, Negated(b))
  }

  function Absolute(a: Decimal): Option<Decimal> {
    match a
    case Finite(x) => Some(Finite(Magnitude(x)))
    case Infinity(_) => Some(Infinity(false))
    case QuietNaN => Some(QuietNaN)
    case SignallingNaN => None
  }

  /** An order comparison with any not-a-number raises. */
  function Exceeds(a: Decimal, bound: real): Option<bool> {
    match a
    case Finite(x) => Some(x > bound)
    case Infinity(negative) => Some(!negative)
    case _ => None
  }

  /** An equality comparison raises for a signalling one only. */
  function Differs(a: Decimal, x: real): Option<bool> {
    if a.SignallingNaN? then None else Some(a != Finite(x))
  }
}
