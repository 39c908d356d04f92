/** The signal printed beside each period of the exposure summary: whether
    the change in net 13F exposure and the next quarter's price return point
    the same way. */
module ExposureSignal {

  /** A Python float as far as the rule can tell: a number (an infinity
      compares like any number of its sign) or NaN, which is neither zero nor
      above nor below it. */
  datatype Float = Num(r: real) | NaN

  predicate IsZero(x: Float)
  {
    x.Num? && x.r == 0.0
  }

  predicate Positive(x: Float)
  {
    x.Num? && x.r > 0.0
  }

  predicate Negative(x: Float)
  {
    x.Num? && x.r < 0.0
  }

  datatype Signal = Neutral | Match | Mismatch

  /** NEUTRAL when either side is zero, MATCH when both are positive or both
      negative, MISMATCH otherwise. */
  function SignalOf(netExp: Float, ret: Float): (s: Signal)
    ensures s == Neutral <==> IsZero(netExp) || IsZero(ret)
    ensures s == Match <==> (Positive(netExp) && Positive(ret)) || (Negative(netExp) && Negative(ret))
    ensures s == Mismatch <==>
      !IsZero(netExp) && !IsZero(ret) && !(Positive(netExp) && Positive(ret)) && !(Negative(netExp) && Negative(ret))
  {
    if IsZero(netExp) || IsZero(ret) then Neutral
    else if (Positive(netExp) && Positive(ret)) || (Negative(netExp) && Negative(ret)) then Match
    else Mismatch
  }

  /** On numbers, MISMATCH is exactly "both non-zero with opposite signs". */
  lemma MismatchOnNumbers(a: real, b: real)
    ensures SignalOf(Num(a), Num(b)) == Mismatch <==> (a > 0.0 && b < 0.0) || (a < 0.0 && b > 0.0)
  {
  }

  /** A NaN on either side, against anything but zero, reads as MISMATCH. */
  lemma NaNIsMismatch(x: Float)
    requires !IsZero(x)
    ensures SignalOf(NaN, x) == Mismatch && SignalOf(x, NaN) == Mismatch
  {
  }

  lemma SignalSymmetric(x: Float, y: Float)
    ensures SignalOf(x, y) == SignalOf(y, x)
  {
  }

  lemma MulSign(a: real, b: real)
    ensures a * b > 0.0 <==> (a > 0.0 && b > 0.0) || (a < 0.0 && b < 0.0)
    ensures a * b < 0.0 <==> (a > 0.0 && b < 0.0) || (a < 0.0 && b > 0.0)
    ensures a * b == 0.0 <==> a == 0.0 || b == 0.0
  {
    if a > 0.0 && b > 0.0 {
      assert a * b > 0.0;
    } else if a < 0.0 && b < 0.0 {
      assert (-a) * (-b) > 0.0;
    } else if a > 0.0 && b < 0.0 {
      assert a * (-b) > 0.0;
    } else if a < 0.0 && b > 0.0 {
      assert (-a) * b > 0.0;
    }
  }

  /** On numbers the signal is the sign of the product. */
  lemma SignalIsSignOfProduct(a: real, b: real)
    ensures SignalOf(Num(a), Num(b)) == if a * b > 0.0 then Match else if a * b < 0.0 then Mismatch else Neutral
  {
    MulSign(a, b);
  }

  /** Scaling either side by a positive factor (a change of units, say)
      leaves the signal unchanged. */
  lemma SignalScaleInvariant(a: real, b: real, c: real)
    requires c > 0.0
    ensures SignalOf(Num(c * a), Num(b)) == SignalOf(Num(a), Num(b))
    ensures SignalOf(Num(a), Num(c * b)) == SignalOf(Num(a), Num(b))
  {
    MulSign(c, a);
    MulSign(c, b);
  }

  function Flip(s: Signal): Signal
  {
    match s
    case Neutral => Neutral
    case Match => Mismatch
    case Mismatch => Match
  }

  /** Reversing the direction of the exposure change swaps MATCH and
      MISMATCH and keeps NEUTRAL. */
  lemma SignalNegate(a: real, b: real)
    ensures SignalOf(Num(-a), Num(b)) == Flip(SignalOf(Num(a), Num(b)))
  {
  }
}
