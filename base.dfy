/** Small shared types: an optional value and a double that may be NaN. */
module Base {

  datatype Option<+T> = None | Some(value: T)

  /** A C++ `double` as the player sees it: a real number or NaN.
      Infinities and rounding are not part of the model. */
  datatype Float = NaN | Num(val: real)

  /** Text for display: exact text, or a double printed with a fixed number
      of decimals and followed by a space and a unit
      (`QString("%1 unit").arg(value, 0, 'f', decimals)`), whose digits are
      not modelled. */
  datatype Rendered = Plain(text: string) | Fixed(value: Float, decimals: nat, unit: string)

  /** `a < b` on doubles: false whenever either side is NaN. */
  predicate Less(a: Float, b: Float) {
    a.Num? && b.Num? && a.val < b.val
  }

  /** `x > 0` on a double. */
  predicate Positive(x: Float) {
    x.Num? && x.val > 0.0
  }

  /** Qt's `qMin(a, b)`, which is `(a < b) ? a : b`. */
  function QMin(a: Float, b: Float): Float {
    if Less(a, b) then a else b
  }

  /** Qt's `qMax(a, b)`, which is `(a < b) ? b : a`. */
  function QMax(a: Float, b: Float): Float {
    if Less(a, b) then b else a
  }

  /** Qt's `qBound(lo, x, hi)`, which is `qMax(lo, qMin(hi, x))`; a NaN input comes out as `lo`. */
  function QBound(lo: real, x: Float, hi: real): (r: Float)
    requires lo <= hi
    ensures r.Num? && lo <= r.val <= hi
    ensures x.Num? && lo <= x.val <= hi ==> r == x
    ensures x.NaN? ==> r == Num(lo)
  {
    QMax(Num(lo), QMin(Num(hi), x))
  }

  /** Qt's `qBound` on integers. */
  function ClampInt(lo: int, x: int, hi: int): (r: int)
    requires lo <= hi
    ensures lo <= r <= hi
    ensures lo <= x <= hi ==> r == x
    ensures x < lo ==> r == lo
    ensures x > hi ==> r == hi
  {
    if hi < x then hi else if x < lo then lo else x
  }

  const TwoTo31: int := 0x8000_0000
  const TwoTo32: int := 0x1_0000_0000

  predicate IsInt32(x: int) {
    -TwoTo31 <= x < TwoTo31
  }

  /** `static_cast<int>` of a 64-bit integer: keeps the low 32 bits, two's complement. */
  function Wrap32(x: int): (r: int)
    ensures IsInt32(r)
    ensures (r - x) % TwoTo32 == 0
    ensures IsInt32(x) ==> r == x
  {
    (x + TwoTo31) % TwoTo32 - TwoTo31
  }
}
