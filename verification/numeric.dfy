/**
 * Number handling of the ARXML reader. Values read through `float_factory`
 * (by default Python's `decimal.Decimal`) are modelled as exact reals, and
 * Python's `int(x)` on such a value as truncation toward zero.
 */
module Numeric {

  /**
   * The text of an element that is read through `float_factory`: a number, or a
   * text `decimal.Decimal` refuses (InvalidOperation for non-numeric text,
   * TypeError for an element without text). Decimal's infinities and NaN
   * ("Infinity", "-INF", "NaN", ...) are not modelled.
   */
  datatype DecimalText = Decimal(num: real) | NotANumber

  /** Python `int(x)` for a Decimal `x`: the integer part, rounded toward zero. */
  function Trunc(x: real): (r: int)
    ensures 0.0 <= x ==> r as real <= x < r as real + 1.0
    ensures x < 0.0 ==> r as real - 1.0 < x <= r as real
  {
    if 0.0 <= x then x.Floor else -((-x).Floor)
  }

  /** Seconds, as AUTOSAR timing elements give them, to whole milliseconds: `int(seconds * 1000)`. */
  function Millis(seconds: real): (ms: int)
    ensures 0.0 <= seconds ==> 0 <= ms && ms as real <= seconds * 1000.0 < ms as real + 1.0
    ensures seconds < 0.0 ==> ms <= 0 && ms as real - 1.0 < seconds * 1000.0 <= ms as real
  {
    Trunc(seconds * 1000.0)
  }

  /** Truncation is symmetric around zero, unlike Dafny's floor division: int(-x) == -int(x). */
  lemma TruncOdd(x: real)
    ensures Trunc(-x) == -Trunc(x)
  {
  }

  /** Whole seconds and exact milliseconds convert without loss. */
  lemma MillisExact(ms: int)
    ensures Millis(ms as real / 1000.0) == ms
  {
  }
}
