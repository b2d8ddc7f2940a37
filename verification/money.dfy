/** Money: an exact decimal amount at two fractional digits plus an upper-case
    currency code. The amount is held as an integer count of hundredths. */
module Money {
  import opened Wrappers
  import opened Text
  import opened JavaHash
  import opened DomainErrors

  /** Number of fractional digits every amount is stored with. */
  const Scale: nat := 2

  /** A `java.math.BigDecimal`: the number `unscaled × 10^(-scale)`. */
  datatype Decimal = Decimal(unscaled: int, scale: int)

  /** An amount of `cents` hundredths of `currency`. */
  datatype Money = Money(cents: int, currency: string)

  /** What every value built by `Of` satisfies: a non-negative amount and a
      non-blank currency without lower-case letters. */
  predicate Valid(m: Money)
  {
    m.cents >= 0 && !IsBlank(m.currency) && NoLowerCase(m.currency)
  }

  function Pow10(n: nat): (r: nat)
    ensures r >= 1
  {
    if n == 0 then 1 else 10 * Pow10(n - 1)
  }

  lemma {:induction false} Pow10Add(a: nat, b: nat)
    ensures Pow10(a + b) == Pow10(a) * Pow10(b)
  {
    if a > 0 {
      Pow10Add(a - 1, b);
      assert Pow10(a + b) == 10 * Pow10(a - 1 + b);
      assert 10 * (Pow10(a - 1) * Pow10(b)) == (10 * Pow10(a - 1)) * Pow10(b);
    }
  }

  function Abs(x: int): nat
  {
    if x < 0 then -x else x
  }

  /** The value of a decimal as the fraction `Numerator(d) / Denominator(d)`. */
  function Numerator(d: Decimal): int
  {
    if d.scale >= 0 then d.unscaled else d.unscaled * Pow10(-d.scale)
  }

  function Denominator(d: Decimal): nat
  {
    if d.scale >= 0 then Pow10(d.scale) else 1
  }

  /** `amount.compareTo(BigDecimal.ZERO) < 0`. */
  predicate IsNegative(d: Decimal)
  {
    d.unscaled < 0
  }

  /** `c` hundredths is the HALF_UP rounding of a non-negative `d`: the integer
      with `c - 1/2 <= 100·d < c + 1/2`, so a tie goes up. */
  ghost predicate IsHalfUpRounding(d: Decimal, c: int)
  {
    (2 * c - 1) * Denominator(d) <= 200 * Numerator(d) < (2 * c + 1) * Denominator(d)
  }

  /** `BigDecimal.setScale(2, RoundingMode.HALF_UP)`, as the unscaled value at
      scale 2: exact when `d` has at most two fractional digits, otherwise the
      magnitude goes to the nearest hundredth with ties away from zero. */
  function SetScale2(d: Decimal): (c: int)
  {
    if d.scale <= Scale then d.unscaled * Pow10(Scale - d.scale)
    else
      var mag: int := RoundedQuotient(Abs(d.unscaled), Pow10(d.scale - Scale));
      if d.unscaled < 0 then -mag else mag
  }

  /** `m / p` with a remainder of at least half of `p` rounded up. */
  function RoundedQuotient(m: nat, p: nat): nat
    requires p >= 1
  {
    if 2 * (m % p) >= p then m / p + 1 else m / p
  }

  /** A value that already has two fractional digits is left as it is, so
      `add` and `multiply` lose nothing. */
  lemma SetScaleExact(c: int)
    ensures SetScale2(Decimal(c, Scale)) == c
  {
  }

  /** HALF_UP is symmetric about zero. */
  lemma SetScaleOdd(d: Decimal)
    ensures SetScale2(Decimal(-d.unscaled, d.scale)) == -SetScale2(d)
  {
  }

  lemma MulSign(x: int, y: int)
    requires y >= 0
    ensures x >= 0 ==> x * y >= 0
    ensures x <= 0 ==> x * y <= 0
  {
  }

  /** Rounding keeps the sign of the amount, so a non-negative input gives a
      non-negative stored amount. */
  lemma SetScaleKeepsSign(d: Decimal)
    ensures d.unscaled >= 0 ==> SetScale2(d) >= 0
    ensures d.unscaled <= 0 ==> SetScale2(d) <= 0
  {
    if d.scale <= Scale {
      var k := Pow10(Scale - d.scale);
      MulSign(d.unscaled, k);
    }
  }

  /** Integer core of HALF_UP: dividing `u >= 0` by `p` and rounding a remainder
      of at least half up lands within half a unit of `u / p`. */
  lemma RoundingBounds(u: int, p: int, c: int)
    requires u >= 0 && p >= 1
    requires c == RoundedQuotient(u, p)
    ensures (2 * c - 1) * p <= 2 * u < (2 * c + 1) * p
  {
    var q, r := u / p, u % p;
    assert u == q * p + r && 0 <= r < p;
    if 2 * r >= p {
      assert (2 * c - 1) * p == 2 * (q * p) + p;
      assert (2 * c + 1) * p == 2 * (q * p) + 3 * p;
    } else {
      assert (2 * c - 1) * p == 2 * (q * p) - p;
      assert (2 * c + 1) * p == 2 * (q * p) + p;
    }
  }

  lemma ScaleBounds(a: int, b: int, x: int, p: int)
    requires a * p <= x < b * p
    ensures a * (100 * p) <= 100 * x < b * (100 * p)
  {
    assert a * (100 * p) == 100 * (a * p);
    assert b * (100 * p) == 100 * (b * p);
  }

  /** Exact case with `0 <= scale <= 2`: `100·d` is the integer `c`. */
  lemma HalfUpSmallScale(d: Decimal)
    requires 0 <= d.scale <= Scale
    ensures 2 * SetScale2(d) * Denominator(d) == 200 * Numerator(d)
  {
    var u, s := d.unscaled, d.scale;
    Pow10Add(Scale - s, s);
    assert Pow10(Scale) == 100;
    calc {
      2 * SetScale2(d) * Denominator(d);
      2 * (u * Pow10(Scale - s)) * Pow10(s);
      { assert (u * Pow10(Scale - s)) * Pow10(s) == u * (Pow10(Scale - s) * Pow10(s)); }
      2 * u * 100;
    }
  }

  /** Exact case with a negative scale: the value is an integer multiple of 10^(-scale). */
  lemma HalfUpNegativeScale(d: Decimal)
    requires d.scale < 0
    ensures 2 * SetScale2(d) == 200 * Numerator(d)
  {
    var u, s := d.unscaled, d.scale;
    Pow10Add(Scale, -s);
    assert Pow10(Scale - s) == 100 * Pow10(-s);
    assert u * (100 * Pow10(-s)) == 100 * (u * Pow10(-s));
  }

  /** Rounding case: with `p = 10^(scale-2)`, `c` is within half a `p` of the
      unscaled value divided by `p`, ties going up. */
  lemma HalfUpLargeScale(d: Decimal)
    requires d.scale > Scale && d.unscaled >= 0
    ensures IsHalfUpRounding(d, SetScale2(d))
  {
    var u, c := d.unscaled, SetScale2(d);
    var p := Pow10(d.scale - Scale);
    Pow10Add(Scale, d.scale - Scale);
    assert Denominator(d) == 100 * p;
    RoundingBounds(u, p, c);
    ScaleBounds(2 * c - 1, 2 * c + 1, 2 * u, p);
  }

  /** On non-negative input `SetScale2` is HALF_UP rounding to hundredths. */
  lemma SetScaleIsHalfUp(d: Decimal)
    requires d.unscaled >= 0
    ensures IsHalfUpRounding(d, SetScale2(d))
  {
    var c, k := SetScale2(d), Denominator(d);
    if d.scale > Scale {
      HalfUpLargeScale(d);
    } else {
      if d.scale >= 0 {
        HalfUpSmallScale(d);
      } else {
        HalfUpNegativeScale(d);
      }
      assert 2 * c * k == 200 * Numerator(d);
      assert (2 * c - 1) * k == 2 * c * k - k;
      assert (2 * c + 1) * k == 2 * c * k + k;
    }
  }

  lemma MulStrict(x: int, y: int, k: int)
    requires k > 0 && x * k < y * k
    ensures x < y
  {
  }

  /** There is only one HALF_UP rounding, so `IsHalfUpRounding` pins the stored
      amount down. */
  lemma HalfUpUnique(d: Decimal, c1: int, c2: int)
    requires IsHalfUpRounding(d, c1) && IsHalfUpRounding(d, c2)
    ensures c1 == c2
  {
    var k := Denominator(d);
    MulStrict(2 * c1 - 1, 2 * c2 + 1, k);
    MulStrict(2 * c2 - 1, 2 * c1 + 1, k);
  }

  /** The private constructor: round the amount to two fractional digits and
      keep the currency as given. */
  function Make(amount: Decimal, currency: string): Money
  {
    Money(SetScale2(amount), currency)
  }

  /** `Money.of`: reject a null amount, then a null or blank currency, then a
      negative amount (before any rounding); otherwise round HALF_UP to two
      digits and upper-case the currency. */
  function Of(amount: Option<Decimal>, currency: Option<string>): (r: Result<Money, DomainError>)
    ensures r.Success? <==> amount.Some? && currency.Some? && !IsBlank(currency.value) && !IsNegative(amount.value)
    ensures amount.None? ==> r == Failure(InvalidArgument(AmountRequired))
    ensures amount.Some? && (currency.None? || IsBlank(currency.value)) ==>
              r == Failure(InvalidArgument(CurrencyRequired))
    ensures amount.Some? && currency.Some? && !IsBlank(currency.value) && IsNegative(amount.value) ==>
              r == Failure(InvalidArgument(AmountNotNegative))
    ensures r.Success? ==> Valid(r.value)
    ensures r.Success? ==> IsHalfUpRounding(amount.value, r.value.cents)
    ensures r.Success? ==> r.value.currency == ToUpper(currency.value)
  {
    if amount.None? then Failure(InvalidArgument(AmountRequired))
    else if currency.None? || IsBlank(currency.value) then Failure(InvalidArgument(CurrencyRequired))
    else if IsNegative(amount.value) then Failure(InvalidArgument(AmountNotNegative))
    else
      SetScaleIsHalfUp(amount.value);
      SetScaleKeepsSign(amount.value);
      ToUpperKeepsBlank(currency.value);
      Success(Make(amount.value, ToUpper(currency.value)))
  }

  /** `Money.zero`: amount zero, with the same currency validation as `Of`. */
  function Zero(currency: Option<string>): (r: Result<Money, DomainError>)
    ensures r.Success? <==> currency.Some? && !IsBlank(currency.value)
    ensures r.Failure? ==> r.error == InvalidArgument(CurrencyRequired)
    ensures r.Success? ==> Valid(r.value) && r.value.cents == 0 && r.value.currency == ToUpper(currency.value)
  {
    Of(Some(Decimal(0, 0)), currency)
  }

  /** Binary operations require identical currency codes. */
  function ValidateSameCurrency(a: Money, b: Money): (r: Result<(), DomainError>)
    ensures r.Success? <==> a.currency == b.currency
    ensures r.Failure? ==> r.error == CurrencyMismatch(a.currency, b.currency)
  {
    if a.currency != b.currency then Failure(CurrencyMismatch(a.currency, b.currency)) else Success(())
  }

  /** `add`: the exact sum in the receiver's currency, or a mismatch error. */
  function Add(a: Money, b: Money): (r: Result<Money, DomainError>)
    ensures r.Success? <==> a.currency == b.currency
    ensures r.Failure? ==> r.error == CurrencyMismatch(a.currency, b.currency)
    ensures r.Success? ==> r.value.cents == a.cents + b.cents && r.value.currency == a.currency
    ensures r.Success? && Valid(a) && Valid(b) ==> Valid(r.value)
  {
    match ValidateSameCurrency(a, b)
    case Failure(e) => Failure(e)
    case Success(_) =>
      SetScaleExact(a.cents + b.cents);
      Success(Make(Decimal(a.cents + b.cents, Scale), a.currency))
  }

  /** `multiply(int)`: the exact product in the same currency. The sign of the
      factor is not checked, so validity is kept only for factors `n >= 0`. */
  function Multiply(m: Money, n: Int32): (r: Money)
    ensures r.cents == m.cents * n && r.currency == m.currency
    ensures Valid(m) && n >= 0 ==> Valid(r)
  {
    SetScaleExact(m.cents * n);
    Make(Decimal(m.cents * n, Scale), m.currency)
  }

  /** `isGreaterThan`: strict comparison of amounts, or a mismatch error. */
  function IsGreaterThan(a: Money, b: Money): (r: Result<bool, DomainError>)
    ensures r.Success? <==> a.currency == b.currency
    ensures r.Failure? ==> r.error == CurrencyMismatch(a.currency, b.currency)
    ensures r.Success? ==> (r.value <==> a.cents > b.cents)
  {
    match ValidateSameCurrency(a, b)
    case Failure(e) => Failure(e)
    case Success(_) => Success(a.cents > b.cents)
  }

  /** `equals`: numerically equal amounts and equal currencies. */
  function Equals(a: Money, b: Money): (r: bool)
    ensures r <==> a == b
  {
    a.cents == b.cents && a.currency == b.currency
  }

  /** `stripTrailingZeros`: the same number with the fewest fractional digits;
      zero becomes `0` at scale 0. */
  function StripTrailingZeros(d: Decimal): (r: Decimal)
    ensures d.unscaled == 0 ==> r == Decimal(0, 0)
    ensures d.unscaled != 0 ==> r.scale <= d.scale && r.unscaled * Pow10(d.scale - r.scale) == d.unscaled
    ensures r.unscaled % 10 != 0 || r.unscaled == 0
    decreases Abs(d.unscaled)
  {
    if d.unscaled == 0 then Decimal(0, 0)
    else if d.unscaled % 10 == 0 then StripTrailingZeros(Decimal(d.unscaled / 10, d.scale - 1))
    else d
  }

  /** `BigDecimal.hashCode`: `31 * unscaledValue.hashCode() + scale`. */
  function DecimalHash(d: Decimal): Int32
  {
    Wrap(31 * BigIntegerHash(d.unscaled) + d.scale)
  }

  /** `hashCode`: `Objects.hash(amount.stripTrailingZeros(), currency)`. */
  function Hash(m: Money): Int32
  {
    Combine([DecimalHash(StripTrailingZeros(Decimal(m.cents, Scale))), StringHash(m.currency)])
  }

  /** Equal values have equal hash codes. */
  lemma HashConsistent(a: Money, b: Money)
    requires Equals(a, b)
    ensures Hash(a) == Hash(b)
  {
  }

  /** `m.add(m).add(m)...` with `n` operands. */
  function RepeatedAdd(m: Money, n: nat): Result<Money, DomainError>
    requires n >= 1
  {
    if n == 1 then Success(m)
    else match RepeatedAdd(m, n - 1)
      case Failure(e) => Failure(e)
      case Success(acc) => Add(acc, m)
  }

  /** Multiplying by `n >= 1` is adding the value to itself `n` times. */
  lemma {:induction false} MultiplyIsRepeatedAdd(m: Money, n: Int32)
    requires n >= 1
    ensures RepeatedAdd(m, n) == Success(Multiply(m, n))
  {
    if n > 1 {
      MultiplyIsRepeatedAdd(m, n - 1);
      assert m.cents * (n - 1) + m.cents == m.cents * n;
    }
  }

  /** A negative factor drives a positive amount below zero: `multiply` alone
      does not keep the non-negative invariant. */
  lemma MultiplyByNegative(m: Money, n: Int32)
    requires m.cents > 0 && n < 0
    ensures Multiply(m, n).cents < 0
  {
  }

  lemma AddCommutes(a: Money, b: Money)
    requires a.currency == b.currency
    ensures Add(a, b) == Add(b, a)
  {
  }

  lemma AddAssociates(a: Money, b: Money, c: Money)
    requires a.currency == b.currency == c.currency
    ensures Add(a, b).Success? && Add(b, c).Success?
    ensures Add(Add(a, b).value, c) == Add(a, Add(b, c).value)
  {
  }

  /** `zero(c)` is a neutral element for values in currency `c`. */
  lemma ZeroIsNeutral(a: Money)
    requires Valid(a)
    ensures Zero(Some(a.currency)).Success?
    ensures Add(a, Zero(Some(a.currency)).value) == Success(a)
    ensures Add(Zero(Some(a.currency)).value, a) == Success(a)
  {
    ToUpperFixesUpper(a.currency);
  }

  /** `isGreaterThan` is irreflexive, asymmetric and transitive. */
  lemma GreaterThanIsStrictOrder(a: Money, b: Money, c: Money)
    requires a.currency == b.currency == c.currency
    ensures IsGreaterThan(a, a) == Success(false)
    ensures IsGreaterThan(a, b) == Success(true) ==> IsGreaterThan(b, a) == Success(false)
    ensures IsGreaterThan(a, b) == Success(true) && IsGreaterThan(b, c) == Success(true) ==>
              IsGreaterThan(a, c) == Success(true)
  {
  }

  /** Adding a positive amount gives a strictly greater one. */
  lemma AddPositiveIsGreater(a: Money, b: Money)
    requires a.currency == b.currency && b.cents > 0
    ensures IsGreaterThan(Add(a, b).value, a) == Success(true)
  {
  }

  /** Upper-casing makes codes that differ only in letter case agree, so such
      values can be added. */
  lemma CurrencyCaseIsIgnored(x: Decimal, y: Decimal, c1: string, c2: string)
    requires !IsNegative(x) && !IsNegative(y) && !IsBlank(c1) && ToUpper(c1) == ToUpper(c2)
    ensures Of(Some(x), Some(c1)).Success? && Of(Some(y), Some(c2)).Success?
    ensures Add(Of(Some(x), Some(c1)).value, Of(Some(y), Some(c2)).value).Success?
  {
    ToUpperKeepsBlank(c1);
    ToUpperKeepsBlank(c2);
  }
}
