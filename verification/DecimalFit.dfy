/**
 The planner's exact-fit test for decimals: a captured coefficient and scale is accepted for a fixed
 target precision and scale only when no rounding and no overflow can happen. The source decides on
 digit strings; here the decision is related to the number the digits stand for.
 */
module DecimalFit {
  import opened Outcomes

  /** The parameters a plan carries for a decimal range check; None is a missing or unparsable one. */
  datatype DecimalPlan = DecimalPlan(
    sourcePrecision: Option<nat>, sourceScale: Option<int>,
    targetPrecision: Option<nat>, targetScale: Option<int>, targetIntegerDigits: Option<nat>,
    specialValues: set<string>)

  /** `LogicalValue::Decimal`. */
  datatype Decimal = Decimal(unscaled: string, scale: int)

  datatype DecimalError =
    | RangeMissing | RangeInvalid | ScaleMismatch | InvalidCoefficient | SpecialUnsupported
    | RoundingRequired | Overflow

  predicate IsDigit(c: char) { '0' <= c <= '9' }

  predicate AllDigits(s: string) {
    forall i :: 0 <= i < |s| ==> IsDigit(s[i])
  }

  function Digits(unscaled: string): string {
    if |unscaled| > 0 && (unscaled[0] == '-' || unscaled[0] == '+') then unscaled[1..] else unscaled
  }

  /** A finite coefficient: an optional sign and at least one decimal digit. */
  predicate Finite(unscaled: string) {
    Digits(unscaled) != "" && AllDigits(Digits(unscaled))
  }

  predicate Special(unscaled: string) {
    unscaled in {"NaN", "Infinity", "-Infinity"}
  }

  function SkipZeros(s: string): (r: string)
    ensures |r| <= |s|
    ensures AllDigits(s) ==> AllDigits(r)
  {
    if |s| > 0 && s[0] == '0' then SkipZeros(s[1..]) else s
  }

  function Zeros(n: nat): (s: string)
    ensures |s| == n
  {
    seq(n, _ => '0')
  }

  /** A coefficient shorter than the dropped width is padded with zeros on the left. */
  function Padded(digits: string, width: nat): string {
    (if |digits| < width then Zeros(width - |digits|) else "") + digits
  }

  predicate DropsOnlyZeros(digits: string, discarded: nat) {
    var padded := Padded(digits, discarded);
    forall i :: |padded| - discarded <= i < |padded| ==> padded[i] == '0'
  }

  /** Significant digits left of the decimal point. */
  function IntegerDigits(digits: string, scale: int): nat {
    if scale >= 0 then
      |SkipZeros(digits[..if |digits| >= scale then |digits| - scale else 0])|
    else
      var significant := |SkipZeros(digits)|;
      if significant == 0 then 0 else significant - scale
  }

  function Validate(plan: DecimalPlan, value: Decimal): Result<(), DecimalError> {
    if plan.sourcePrecision.None? || plan.sourceScale.None? then Err(RangeMissing)
    else if plan.sourcePrecision.value == 0 || !(-1000 <= plan.sourceScale.value <= 1000) then Err(RangeInvalid)
    else if value.scale != plan.sourceScale.value && !(plan.sourceScale.value < 0 && value.scale == 0)
            && value.unscaled != "NaN" then Err(ScaleMismatch)
    else if plan.targetPrecision.None? || plan.targetScale.None? || plan.targetIntegerDigits.None?
    then Err(RangeMissing)
    else
      var precision, targetScale := plan.targetPrecision.value, plan.targetScale.value;
      var expected := if precision - targetScale > 0 then precision - targetScale else 0;
      if precision == 0 || !(-1000 <= targetScale <= 1000) || expected != plan.targetIntegerDigits.value
      then Err(RangeInvalid)
      else if Special(value.unscaled) then
        if value.unscaled == "NaN" && value.scale != 0 then Err(InvalidCoefficient)
        else if value.unscaled in plan.specialValues then Ok(()) else Err(SpecialUnsupported)
      else if !Finite(value.unscaled) then Err(InvalidCoefficient)
      else if value.scale > targetScale && !DropsOnlyZeros(Digits(value.unscaled), value.scale - targetScale)
      then Err(RoundingRequired)
      else if IntegerDigits(Digits(value.unscaled), value.scale) > plan.targetIntegerDigits.value then Err(Overflow)
      else Ok(())
  }

  // ---------------------------------------------------------------- the number a coefficient stands for

  function Pow10(n: nat): (p: int)
    ensures p > 0
  {
    if n == 0 then 1 else 10 * Pow10(n - 1)
  }

  function Magnitude(digits: string): (m: int)
    requires AllDigits(digits)
    ensures m >= 0
  {
    if digits == "" then 0
    else 10 * Magnitude(digits[..|digits| - 1]) + (digits[|digits| - 1] as int - '0' as int)
  }

  function Coefficient(unscaled: string): int
    requires Finite(unscaled)
  {
    if unscaled[0] == '-' then -Magnitude(Digits(unscaled)) else Magnitude(Digits(unscaled))
  }

  /** `a * 10^-s == b * 10^-t`, over the integers. */
  predicate SameNumber(a: int, s: int, b: int, t: int) {
    if s >= t then a == b * Pow10(s - t) else a * Pow10(t - s) == b
  }

  /** Some integer of at most `precision` digits, read at `targetScale`, is exactly the value. */
  ghost predicate FitsExactly(coefficient: int, scale: int, precision: nat, targetScale: int) {
    exists k: int :: -Pow10(precision) < k < Pow10(precision) && SameNumber(k, targetScale, coefficient, scale)
  }

  // ---------------------------------------------------------------- powers of ten

  lemma {:induction false} Pow10Add(a: nat, b: nat)
    ensures Pow10(a + b) == Pow10(a) * Pow10(b)
  {
    if a > 0 {
      Pow10Add(a - 1, b);
      assert Pow10(a + b) == 10 * Pow10(a - 1 + b);
    }
  }

  lemma {:induction false} Cancel(a: int, b: int, c: int)
    requires c > 0
    ensures a * c == b * c <==> a == b
    ensures a * c < b * c <==> a < b
  {
    if a < b {
      assert (b - a) * c > 0;
    } else if a > b {
      assert (a - b) * c > 0;
    }
  }

  /** Both sides of `SameNumber` lifted to one common scale. */
  lemma {:induction false} SameNumberAt(a: int, s: int, b: int, t: int, common: int)
    requires common >= s && common >= t
    ensures SameNumber(a, s, b, t) <==> a * Pow10(common - s) == b * Pow10(common - t)
  {
    if s >= t {
      Pow10Add(s - t, common - s);
      Cancel(a, b * Pow10(s - t), Pow10(common - s));
      assert b * Pow10(common - t) == b * Pow10(s - t) * Pow10(common - s);
    } else {
      Pow10Add(t - s, common - t);
      Cancel(a * Pow10(t - s), b, Pow10(common - t));
      assert a * Pow10(common - s) == a * Pow10(t - s) * Pow10(common - t);
    }
  }

  // ---------------------------------------------------------------- digit strings and their magnitude

  lemma {:induction false} MagnitudeBound(digits: string)
    requires AllDigits(digits)
    ensures Magnitude(digits) < Pow10(|digits|)
  {
    if digits != "" {
      MagnitudeBound(digits[..|digits| - 1]);
    }
  }

  lemma {:induction false} MagnitudeSplit(digits: string, k: nat)
    requires AllDigits(digits) && k <= |digits|
    ensures Magnitude(digits) == Magnitude(digits[..k]) * Pow10(|digits| - k) + Magnitude(digits[k..])
  {
    if k == |digits| {
      assert digits[..k] == digits;
    } else {
      var front := digits[..|digits| - 1];
      var tail := digits[k..];
      MagnitudeSplit(front, k);
      assert front[..k] == digits[..k];
      assert tail[..|tail| - 1] == front[k..] && tail[|tail| - 1] == digits[|digits| - 1];
      assert Magnitude(tail) == 10 * Magnitude(front[k..]) + (digits[|digits| - 1] as int - '0' as int);
      Regroup(Magnitude(digits[..k]), Pow10(|front| - k), Pow10(|digits| - k));
    }
  }

  lemma {:induction false} Regroup(a: int, unit: int, next: int)
    requires next == 10 * unit
    ensures 10 * (a * unit) == a * next
  {
  }

  lemma {:induction false} ZeroMagnitude(digits: string)
    requires AllDigits(digits)
    ensures Magnitude(digits) == 0 <==> forall i :: 0 <= i < |digits| ==> digits[i] == '0'
  {
    if digits != "" {
      var front := digits[..|digits| - 1];
      ZeroMagnitude(front);
      assert forall i :: 0 <= i < |front| ==> front[i] == digits[i];
    }
  }

  lemma {:induction false} Pow10Grows(a: nat, b: nat)
    requires a <= b
    ensures Pow10(a) <= Pow10(b)
  {
    Pow10Add(a, b - a);
    Scale(Pow10(a), Pow10(b - a));
  }

  lemma {:induction false} FirstDigit(digits: string)
    requires AllDigits(digits) && digits != ""
    ensures
      var head := digits[0] as int - '0' as int;
      Magnitude(digits) == head * Pow10(|digits| - 1) + Magnitude(digits[1..])
  {
    MagnitudeSplit(digits, 1);
    assert Magnitude(digits[..1]) == digits[0] as int - '0' as int by { assert digits[..1][..0] == ""; }
  }

  /** Without a leading zero, the number of digits fixes the power of ten below the number. */
  lemma {:induction false} NoLeadingZero(digits: string)
    requires AllDigits(digits) && digits != "" && digits[0] != '0'
    ensures Pow10(|digits| - 1) <= Magnitude(digits) < Pow10(|digits|)
  {
    FirstDigit(digits);
    MagnitudeBound(digits);
    LeadingDigit(digits[0] as int - '0' as int, Pow10(|digits| - 1), Magnitude(digits));
  }

  /** Leading zeros carry no magnitude, and what is left counts the digits of the number. */
  lemma {:induction false} SignificantDigits(digits: string, width: nat)
    requires AllDigits(digits)
    ensures |SkipZeros(digits)| <= width <==> Magnitude(digits) < Pow10(width)
    ensures SkipZeros(digits) == "" <==> Magnitude(digits) == 0
  {
    if digits != "" {
      if digits[0] == '0' {
        FirstDigit(digits);
        SignificantDigits(digits[1..], width);
      } else {
        NoLeadingZero(digits);
        if |digits| <= width {
          Pow10Grows(|digits|, width);
        } else {
          Pow10Grows(width, |digits| - 1);
        }
      }
    }
  }

  lemma {:induction false} LeadingDigit(head: int, unit: int, total: int)
    requires head >= 1 && unit >= 0 && total >= head * unit
    ensures total >= unit
  {
    assert head * unit == unit + (head - 1) * unit;
  }

  lemma {:induction false} Scale(a: int, b: int)
    requires a >= 0 && b >= 1
    ensures a <= a * b
  {
    assert a * b == a + a * (b - 1);
  }

  lemma {:induction false} PaddedMagnitude(digits: string, width: nat)
    requires AllDigits(digits)
    ensures AllDigits(Padded(digits, width)) && Magnitude(Padded(digits, width)) == Magnitude(digits)
  {
    var pad := if |digits| < width then Zeros(width - |digits|) else "";
    assert AllDigits(pad + digits);
    MagnitudeSplit(pad + digits, |pad|);
    assert (pad + digits)[..|pad|] == pad && (pad + digits)[|pad|..] == digits;
    ZeroMagnitude(pad);
  }

  lemma {:induction false} LowDigits(digits: string, width: nat)
    requires AllDigits(digits) && width <= |digits|
    ensures Magnitude(digits[|digits| - width..]) == 0
            <==> forall i :: |digits| - width <= i < |digits| ==> digits[i] == '0'
  {
    var cut := |digits| - width;
    var tail := digits[cut..];
    ZeroMagnitude(tail);
    assert forall i :: 0 <= i < width ==> tail[i] == digits[cut + i];
    assert forall i :: cut <= i < |digits| ==> digits[i] == tail[i - cut];
  }

  /** Dropping only zeros is divisibility by the dropped power of ten. */
  lemma {:induction false} DropIsDivisible(digits: string, discarded: nat)
    requires AllDigits(digits)
    ensures DropsOnlyZeros(digits, discarded) <==> Divisible(Magnitude(digits), Pow10(discarded))
  {
    var padded := Padded(digits, discarded);
    PaddedMagnitude(digits, discarded);
    var cut := |padded| - discarded;
    MagnitudeSplit(padded, cut);
    MagnitudeBound(padded[cut..]);
    LowDigits(padded, discarded);
    Divides(Magnitude(digits), Magnitude(padded[..cut]), Magnitude(padded[cut..]), Pow10(discarded));
  }

  predicate IsMultiple(m: int, k: int, d: int) { m == k * d }

  ghost predicate Divisible(m: int, d: int) {
    exists k: int :: IsMultiple(m, k, d)
  }

  lemma {:induction false} Divides(total: int, high: int, low: int, d: int)
    requires 0 <= low < d && total == high * d + low
    ensures low == 0 <==> Divisible(total, d)
  {
    if low == 0 {
      assert IsMultiple(total, high, d);
    }
    forall k: int | IsMultiple(total, k, d)
      ensures low == 0
    {
      Remainder(high, k, low, d);
    }
  }

  lemma {:induction false} Remainder(q: int, k: int, r: int, d: int)
    requires 0 <= r < d && q * d + r == k * d
    ensures r == 0
  {
    assert (k - q) * d == k * d - q * d;
    Cancel(k - q, 1, d);
    Cancel(k - q, 0, d);
  }

  lemma {:induction false} WholePart(digits: string, scale: nat, cut: nat)
    requires AllDigits(digits) && cut == if |digits| >= scale then |digits| - scale else 0
    ensures
      var low := Magnitude(digits[cut..]);
      Magnitude(digits) == Magnitude(digits[..cut]) * Pow10(scale) + low && low < Pow10(scale)
  {
    MagnitudeSplit(digits, cut);
    MagnitudeBound(digits[cut..]);
    Pow10Grows(|digits| - cut, scale);
    if |digits| < scale {
      assert digits[..cut] == "" && digits[cut..] == digits;
    }
  }

  lemma {:induction false} FractionBound(digits: string, scale: nat, width: nat, common: nat)
    requires AllDigits(digits) && common >= scale
    ensures IntegerDigits(digits, scale) <= width <==> Magnitude(digits) * Pow10(common - scale) < Pow10(common + width)
  {
    var m := Magnitude(digits);
    var cut := if |digits| >= scale then |digits| - scale else 0;
    SignificantDigits(digits[..cut], width);
    WholePart(digits, scale, cut);
    Floor(Magnitude(digits[..cut]), Pow10(width), Magnitude(digits[cut..]), Pow10(scale));
    Pow10Add(width, scale);
    Pow10Add(width + scale, common - scale);
    Cancel(m, Pow10(width + scale), Pow10(common - scale));
  }

  /** The integer-digit count bounds the value, at any common scale. */
  lemma {:induction false} IntegerDigitsBound(digits: string, scale: int, width: nat, common: nat)
    requires AllDigits(digits) && common >= scale
    ensures IntegerDigits(digits, scale) <= width <==> Magnitude(digits) * Pow10(common - scale) < Pow10(common + width)
  {
    var m := Magnitude(digits);
    if scale >= 0 {
      FractionBound(digits, scale, width, common);
    } else {
      SignificantDigits(digits, if width >= -scale then width + scale else 0);
      Pow10Add(-scale, common);
      if width >= -scale {
        Pow10Add(width + scale, common - scale);
        Cancel(m, Pow10(width + scale), Pow10(common - scale));
      } else if m > 0 {
        Pow10Add(common + width, -scale - width);
        Scale(Pow10(common + width), Pow10(-scale - width));
        LeadingDigit(m, Pow10(common - scale), m * Pow10(common - scale));
      }
    }
  }

  lemma {:induction false} Floor(q: int, bound: int, r: int, d: int)
    requires 0 <= r < d
    ensures q < bound <==> q * d + r < bound * d
  {
    assert (q + 1) * d == q * d + d;
    if q < bound {
      Cancel(q + 1, bound, d);
    } else {
      Cancel(bound, q, d);
    }
  }

  // ---------------------------------------------------------------- the fit

  /** A plan whose parameters are complete and consistent, and a finite value at a scale the plan expects. */
  predicate Applicable(plan: DecimalPlan, value: Decimal) {
    && plan.sourcePrecision.Some? && plan.sourcePrecision.value > 0
    && plan.sourceScale.Some? && -1000 <= plan.sourceScale.value <= 1000
    && plan.targetPrecision.Some? && plan.targetPrecision.value > 0
    && plan.targetScale.Some? && -1000 <= plan.targetScale.value <= 1000
    && plan.targetIntegerDigits == Some(IntegerWidth(plan))
    && Finite(value.unscaled)
    && (value.scale == plan.sourceScale.value || (plan.sourceScale.value < 0 && value.scale == 0))
  }

  function IntegerWidth(plan: DecimalPlan): nat
    requires plan.targetPrecision.Some? && plan.targetScale.Some?
  {
    var width := plan.targetPrecision.value - plan.targetScale.value;
    if width > 0 then width else 0
  }

  /** Nothing else is ever accepted, but the special values that the plan lists. */
  lemma {:induction false} AcceptedIsApplicable(plan: DecimalPlan, value: Decimal)
    ensures Validate(plan, value).Ok? ==>
              Applicable(plan, value) || (Special(value.unscaled) && value.unscaled in plan.specialValues)
  {
    if value.unscaled == "NaN" {
      assert !IsDigit(value.unscaled[0]);
    }
  }

  /**
   A special value is accepted exactly when the plan lists it, under a plan that could accept a zero: NaN at
   scale zero, an infinity at a scale the plan expects.
   */
  lemma {:induction false} SpecialIsAcceptedIffListed(plan: DecimalPlan, value: Decimal)
    requires value.unscaled in {"NaN", "Infinity", "-Infinity"}
    requires plan.sourceScale.Some? && Applicable(plan, Decimal("0", plan.sourceScale.value))
    ensures Validate(plan, value).Ok?
            <==> value.unscaled in plan.specialValues
                 && (if value.unscaled == "NaN" then value.scale == 0
                     else value.scale == plan.sourceScale.value || (plan.sourceScale.value < 0 && value.scale == 0))
  {
    assert value.unscaled == "NaN" || (value.unscaled != "NaN" && Special(value.unscaled));
  }

  /** The value has an exact form at the target scale exactly when nothing but zeros is dropped. */
  lemma {:induction false} ExactForm(unscaled: string, scale: int, targetScale: int)
    requires Finite(unscaled)
    ensures scale <= targetScale || DropsOnlyZeros(Digits(unscaled), scale - targetScale)
            <==> exists k: int :: SameNumber(k, targetScale, Coefficient(unscaled), scale)
  {
    var c := Coefficient(unscaled);
    if scale <= targetScale {
      assert SameNumber(c * Pow10(targetScale - scale), targetScale, c, scale);
    } else {
      DropIsDivisible(Digits(unscaled), scale - targetScale);
      SignedMultiple(c, Magnitude(Digits(unscaled)), Pow10(scale - targetScale));
      SameNumberIsMultiple(c, scale, targetScale);
    }
  }

  lemma {:induction false} SameNumberIsMultiple(c: int, scale: int, targetScale: int)
    requires scale > targetScale
    ensures (exists k: int :: SameNumber(k, targetScale, c, scale)) <==> Divisible(c, Pow10(scale - targetScale))
  {
    var unit := Pow10(scale - targetScale);
    if k: int :| IsMultiple(c, k, unit) {
      assert SameNumber(k, targetScale, c, scale);
    }
    if k: int :| SameNumber(k, targetScale, c, scale) {
      assert IsMultiple(c, k, unit);
    }
  }

  lemma {:induction false} SignedMultiple(c: int, m: int, unit: int)
    requires m == c || m == -c
    ensures Divisible(m, unit) <==> Divisible(c, unit)
  {
    if k: int :| IsMultiple(m, k, unit) {
      Negate(k, unit);
      assert IsMultiple(c, if c == m then k else -k, unit);
    }
    if k: int :| IsMultiple(c, k, unit) {
      Negate(k, unit);
      assert IsMultiple(m, if c == m then k else -k, unit);
    }
  }

  lemma {:induction false} Negate(a: int, b: int)
    ensures (-a) * b == -(a * b)
  {
  }

  /** What acceptance means for every applicable plan and value: an exact form, below `10^integerWidth`. */
  lemma {:induction false} AcceptanceMeaning(plan: DecimalPlan, value: Decimal, common: nat)
    requires Applicable(plan, value) && common >= 1000
    ensures
      var m := Magnitude(Digits(value.unscaled));
      Validate(plan, value).Ok? <==>
      && (exists k: int :: SameNumber(k, plan.targetScale.value, Coefficient(value.unscaled), value.scale))
      && m * Pow10(common - value.scale) < Pow10(common + IntegerWidth(plan))
  {
    ExactForm(value.unscaled, value.scale, plan.targetScale.value);
    IntegerDigitsBound(Digits(value.unscaled), value.scale, IntegerWidth(plan), common);
  }

  /** The magnitude of the exact form, compared with `10^precision` at a common scale. */
  lemma {:induction false} ExactFormBound(k: int, targetScale: int, c: int, scale: int, precision: nat, common: nat)
    requires common >= scale && common >= targetScale && SameNumber(k, targetScale, c, scale)
    requires common + precision - targetScale >= 0
    ensures
      var m := if c < 0 then -c else c;
      -Pow10(precision) < k < Pow10(precision)
      <==> m * Pow10(common - scale) < Pow10(common + precision - targetScale)
  {
    SameNumberAt(k, targetScale, c, scale, common);
    Pow10Add(precision, common - targetScale);
    CompareLifted(k, Pow10(common - targetScale), c, Pow10(common - scale), Pow10(precision));
  }

  lemma {:induction false} CompareLifted(k: int, unit: int, c: int, lift: int, bound: int)
    requires unit > 0 && lift > 0 && k * unit == c * lift
    ensures -bound < k < bound <==> (if c < 0 then -c else c) * lift < bound * unit
  {
    Cancel(k, bound, unit);
    Cancel(-k, bound, unit);
    assert (-k) * unit == -(k * unit) && (-c) * lift == -(c * lift);
    Cancel(c, 0, lift);
    Cancel(k, 0, unit);
  }

  /** Without fractional digits of its own, a value is below any bound of at most one only when it is zero. */
  lemma {:induction false} BelowOne(m: nat, scale: int, common: nat, bound: nat)
    requires scale <= 0 && bound <= common
    ensures m * Pow10(common - scale) < Pow10(common) <==> m == 0
    ensures m * Pow10(common - scale) < Pow10(bound) <==> m == 0
  {
    Pow10Add(common, -scale);
    Scale(Pow10(common), Pow10(-scale));
    Pow10Add(bound, common - bound);
    Scale(Pow10(bound), Pow10(common - bound));
    if m > 0 {
      LeadingDigit(m, Pow10(common - scale), m * Pow10(common - scale));
    }
  }

  /**
   Inside the limits of the theorem below, the exact form stays within the precision when the value stays
   below `10^width`.
   */
  lemma {:induction false} WithinPrecision(k: int, targetScale: int, unscaled: string, scale: int,
                                           precision: nat, width: nat)
    requires Finite(unscaled) && scale <= 1000 && -1000 <= targetScale <= 1000
    requires SameNumber(k, targetScale, Coefficient(unscaled), scale)
    requires width == if precision > targetScale then precision - targetScale else 0
    requires targetScale <= precision || scale <= 0
    ensures -Pow10(precision) < k < Pow10(precision)
            <==> Magnitude(Digits(unscaled)) * Pow10(1000 - scale) < Pow10(1000 + width)
  {
    ExactFormBound(k, targetScale, Coefficient(unscaled), scale, precision, 1000);
    if targetScale > precision {
      BelowOne(Magnitude(Digits(unscaled)), scale, 1000, 1000 + precision - targetScale);
    }
  }

  /**
   Accepted if and only if the value fits exactly, for finite coefficients of any length, whenever the
   target scale is at most the target precision or the value has no fractional digits of its own.
   */
  lemma {:induction false} AcceptedIffFits(plan: DecimalPlan, value: Decimal)
    requires Applicable(plan, value)
    requires plan.targetScale.value <= plan.targetPrecision.value || value.scale <= 0
    ensures Validate(plan, value).Ok?
            <==> FitsExactly(Coefficient(value.unscaled), value.scale, plan.targetPrecision.value,
                             plan.targetScale.value)
  {
    var precision, targetScale := plan.targetPrecision.value, plan.targetScale.value;
    var c := Coefficient(value.unscaled);
    AcceptanceMeaning(plan, value, 1000);
    if FitsExactly(c, value.scale, precision, targetScale) {
      var k: int :| -Pow10(precision) < k < Pow10(precision) && SameNumber(k, targetScale, c, value.scale);
      WithinPrecision(k, targetScale, value.unscaled, value.scale, precision, IntegerWidth(plan));
    } else if Validate(plan, value).Ok? {
      var k: int :| SameNumber(k, targetScale, c, value.scale);
      WithinPrecision(k, targetScale, value.unscaled, value.scale, precision, IntegerWidth(plan));
    }
  }

  /** The exact limit of that condition: in every other plan some accepted value does not fit. */
  lemma {:induction false} AcceptedWithoutFit(plan: DecimalPlan)
    requires plan.sourceScale.Some? && Applicable(plan, Decimal("0", plan.sourceScale.value))
    requires plan.sourceScale.value > 0 && plan.targetScale.value > plan.targetPrecision.value
    ensures exists value: Decimal ::
              && Applicable(plan, value)
              && Validate(plan, value).Ok?
              && !FitsExactly(Coefficient(value.unscaled), value.scale, plan.targetPrecision.value,
                              plan.targetScale.value)
  {
    var precision, targetScale, scale := plan.targetPrecision.value, plan.targetScale.value, plan.sourceScale.value;
    var value := Decimal("1" + Zeros(scale - 1), scale);
    var c := Coefficient(value.unscaled);
    MagnitudeSplit(value.unscaled, 1);
    assert value.unscaled[..1] == "1" && value.unscaled[1..] == Zeros(scale - 1);
    assert Magnitude("1") == 1 by { assert "1"[..0] == ""; }
    ZeroMagnitude(Zeros(scale - 1));
    assert c == Pow10(scale - 1);
    assert value.unscaled[..0] == "";
    forall k: int | SameNumber(k, targetScale, c, scale)
      ensures !(-Pow10(precision) < k < Pow10(precision))
    {
      ExactFormBound(k, targetScale, c, scale, precision, 1000);
      Pow10Add(scale - 1, 1000 - scale);
      Pow10Add(1000 + precision - targetScale, targetScale - precision - 1);
      Scale(Pow10(1000 + precision - targetScale), Pow10(targetScale - precision - 1));
    }
    if scale > targetScale {
      assert DropsOnlyZeros(value.unscaled, scale - targetScale);
    }
    assert IntegerDigits(Digits(value.unscaled), scale) == 0;
  }
}
