/** Quantifier bounds, read from the digits of their numbers. */
module BreQuantity {
  import opened BreProgram

  /** The quantifier's rule: `*`, one number, a number and a comma, or two numbers. */
  datatype Form = StarForm | ExactForm | OpenForm | BoundedForm

  datatype Bounds = BadBounds | TooLarge | Bounds(min: nat, max: nat)

  /** The value of decimal digits. */
  function Decimal(digits: seq<nat>): nat {
    if digits == [] then 0 else Decimal(digits[..|digits| - 1]) * 10 + digits[|digits| - 1]
  }

  /** A value only grows with its digits, so a prefix above a limit settles it. */
  lemma {:induction false} DecimalGrows(digits: seq<nat>, n: nat)
    requires n <= |digits|
    ensures Decimal(digits[..n]) <= Decimal(digits)
    decreases |digits| - n
  {
    if n < |digits| {
      DecimalGrows(digits, n + 1);
      assert digits[..n + 1][..n] == digits[..n];
    } else {
      assert digits[..n] == digits;
    }
  }

  /** What a quantifier with these numbers means: a number above the limit is
      met first, the third number is read before it is one too many. */
  function BoundsOf(form: Form, numbers: seq<seq<nat>>, maxRepeat: nat): (b: Bounds)
    ensures b.Bounds? ==>
              b.min <= maxRepeat && (b.max == NONE || b.max <= maxRepeat)
              && (maxRepeat <= NONE ==> b.min <= b.max <= NONE)
  {
    if form.StarForm? then Bounds(0, NONE)
    else if exists i :: 0 <= i < |numbers| && i < 3 && Decimal(numbers[i]) > maxRepeat then TooLarge
    else if |numbers| == 0 || |numbers| > 2 then BadBounds
    else
      match form
      case ExactForm => Bounds(Decimal(numbers[0]), Decimal(numbers[0]))
      case BoundedForm =>
        if |numbers| != 2 || Decimal(numbers[0]) > Decimal(numbers[1]) then BadBounds
        else Bounds(Decimal(numbers[0]), Decimal(numbers[1]))
      case _ => Bounds(Decimal(numbers[0]), NONE)
  }
}
