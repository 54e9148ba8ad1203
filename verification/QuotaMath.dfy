/** Converting computed quotas to 32-bit integers: rounding, saturation and the clamp report.
    A float is a real number, an infinity or NaN; its own rounding is not modelled. */
module QuotaMath {

  datatype Float = NaN | NegInf | Finite(value: real) | PosInf

  const MAX_QUOTA := 0x7FFF_FFFF
  const MIN_QUOTA := -0x8000_0000

  datatype Kind = Overflow | Underflow | NotANumber

  datatype Clamp = NoClamp | Clamped(kind: Kind, original: Float)

  datatype Quota = Quota(value: int, clamp: Clamp)

  /** Conversion to an integer drops the fraction. */
  function Truncate(x: real): int {
    if x >= 0.0 then x.Floor else -((-x).Floor)
  }

  /** Rounds half away from zero. */
  function Round(x: real): int {
    if x >= 0.0 then (x + 0.5).Floor else -((-x + 0.5).Floor)
  }

  function RoundFloat(x: Float): Float {
    if x.Finite? then Finite(Round(x.value) as real) else x
  }

  predicate AtLeast(x: Float, bound: int) {
    x.PosInf? || (x.Finite? && x.value >= bound as real)
  }

  predicate AtMost(x: Float, bound: int) {
    x.NegInf? || (x.Finite? && x.value <= bound as real)
  }

  function Saturate(x: Float): Quota {
    if x.NaN? then Quota(0, Clamped(NotANumber, x))
    else if AtLeast(x, MAX_QUOTA) then Quota(MAX_QUOTA, Clamped(Overflow, x))
    else if AtMost(x, MIN_QUOTA) then Quota(MIN_QUOTA, Clamped(Underflow, x))
    else Quota(Truncate(x.value), NoClamp)
  }

  function FromFloat(x: Float): Quota { Saturate(x) }

  function FromRounded(x: Float): Quota { Saturate(RoundFloat(x)) }

  /** A decimal is a coefficient over a power of ten. Rounding it works on integers. */
  datatype Decimal = Decimal(coefficient: int, digits: nat)

  function PowerOfTen(n: nat): (p: int)
    ensures p >= 1
  {
    if n == 0 then 1 else 10 * PowerOfTen(n - 1)
  }

  function Value(d: Decimal): real {
    d.coefficient as real / PowerOfTen(d.digits) as real
  }

  /** Half away from zero: add half of the divisor to the magnitude and divide. */
  function RoundDecimal(d: Decimal): int {
    var p := PowerOfTen(d.digits);
    var magnitude := if d.coefficient >= 0 then d.coefficient else -d.coefficient;
    var rounded := (2 * magnitude + p) / (2 * p);
    if d.coefficient >= 0 then rounded else -rounded
  }

  function FromDecimal(d: Decimal): Quota { Saturate(Finite(RoundDecimal(d) as real)) }

  /** Strict conversions fail instead of saturating. */
  datatype Strict = Ok(quota: int) | Err(clamp: Clamp)

  function StrictQuota(q: Quota): Strict {
    if q.clamp.Clamped? then Err(q.clamp) else Ok(q.value)
  }

  // ---- What the conversions guarantee ----

  /** The order of floats; NaN is not comparable. */
  predicate LessEq(x: Float, y: Float) {
    && !x.NaN? && !y.NaN?
    && (x.NegInf? || y.PosInf? || (x.Finite? && y.Finite? && x.value <= y.value))
  }

  lemma RoundIsNearest(x: real, n: int)
    ensures Round(x) as real - x <= 0.5 && x - Round(x) as real <= 0.5
    ensures Round(-x) == -Round(x)
    ensures x == n as real ==> Round(x) == n
  {
    if x == n as real {
      assert (x + 0.5).Floor as real <= x + 0.5 && (-x + 0.5).Floor as real <= -x + 0.5;
    }
  }

  lemma RoundMonotone(x: real, y: real)
    requires x <= y
    ensures Round(x) <= Round(y) && Truncate(x) <= Truncate(y)
  {
  }

  lemma TruncateTowardZero(x: real)
    ensures x >= 0.0 ==> 0.0 <= Truncate(x) as real <= x < Truncate(x) as real + 1.0
    ensures x <= 0.0 ==> Truncate(x) as real - 1.0 < x <= Truncate(x) as real <= 0.0
  {
  }

  /** A number that was rounded already is not changed by truncation. */
  lemma TruncateWhole(n: int)
    ensures Truncate(n as real) == n
  {
    TruncateTowardZero(n as real);
  }

  predicate InRange(n: int) { MIN_QUOTA <= n <= MAX_QUOTA }

  /** Whether a conversion reports a clamp: exactly when the value is NaN or its integer
      form reaches a bound of the range; the result is that integer form otherwise. */
  lemma SaturateExact(x: Float)
    ensures InRange(Saturate(x).value)
    ensures Saturate(x).clamp.Clamped? <==>
            x.NaN? || x.PosInf? || x.NegInf? || Truncate(x.value) >= MAX_QUOTA || Truncate(x.value) <= MIN_QUOTA
    ensures Saturate(x).clamp.NoClamp? ==> Saturate(x).value == Truncate(x.value)
    ensures x.Finite? && Saturate(x).clamp.Clamped? ==>
              Saturate(x).value == if Truncate(x.value) >= MAX_QUOTA then MAX_QUOTA else MIN_QUOTA
    ensures StrictQuota(Saturate(x)).Err? <==> Saturate(x).clamp.Clamped?
  {
    if x.Finite? {
      TruncateTowardZero(x.value);
    }
  }

  lemma SaturateMonotone(x: Float, y: Float)
    requires LessEq(x, y)
    ensures Saturate(x).value <= Saturate(y).value
  {
    SaturateExact(x);
    SaturateExact(y);
    if x.Finite? && y.Finite? {
      RoundMonotone(x.value, y.value);
    }
  }

  /** Both float conversions preserve order and never turn a charge into a credit. */
  lemma ConversionsMonotone(x: Float, y: Float)
    requires LessEq(x, y)
    ensures FromFloat(x).value <= FromFloat(y).value
    ensures FromRounded(x).value <= FromRounded(y).value
  {
    SaturateMonotone(x, y);
    if x.Finite? && y.Finite? {
      RoundMonotone(x.value, y.value);
    }
    SaturateMonotone(RoundFloat(x), RoundFloat(y));
  }

  lemma SignKept(x: Float)
    ensures LessEq(Finite(0.0), x) ==> FromFloat(x).value >= 0 && FromRounded(x).value >= 0
    ensures LessEq(x, Finite(0.0)) ==> FromFloat(x).value <= 0 && FromRounded(x).value <= 0
  {
    TruncateWhole(0);
    RoundIsNearest(0.0, 0);
    if LessEq(Finite(0.0), x) {
      ConversionsMonotone(Finite(0.0), x);
    }
    if LessEq(x, Finite(0.0)) {
      ConversionsMonotone(x, Finite(0.0));
    }
  }

  /** Rounding in range: the nearest integer, symmetric around zero. */
  lemma RoundedExact(x: Float)
    ensures x.Finite? && FromRounded(x).clamp.NoClamp? ==>
              FromRounded(x).value == Round(x.value) && MIN_QUOTA < Round(x.value) < MAX_QUOTA
    ensures FromRounded(x).clamp.Clamped? <==>
            !x.Finite? || Round(x.value) >= MAX_QUOTA || Round(x.value) <= MIN_QUOTA
  {
    if x.Finite? {
      TruncateWhole(Round(x.value));
    }
    SaturateExact(RoundFloat(x));
  }

  lemma RoundedSymmetric(x: real)
    requires FromRounded(Finite(x)).clamp.NoClamp? && FromRounded(Finite(-x)).clamp.NoClamp?
    ensures FromRounded(Finite(-x)).value == -FromRounded(Finite(x)).value
    ensures FromRounded(Finite(x)).value as real - x <= 0.5 && x - FromRounded(Finite(x)).value as real <= 0.5
  {
    RoundedExact(Finite(x));
    RoundedExact(Finite(-x));
    RoundIsNearest(x, 0);
  }

  lemma DivisionBounds(a: int, b: int)
    requires b > 0
    ensures a / b * b <= a < a / b * b + b
  {
  }

  lemma ValueBySign(d: Decimal, m: int, p: int)
    requires p == PowerOfTen(d.digits) && m == (if d.coefficient >= 0 then d.coefficient else -d.coefficient)
    ensures Value(d) == if d.coefficient >= 0 then m as real / p as real else -(m as real / p as real)
    ensures m as real / p as real >= 0.0 && (m as real / p as real == 0.0 <==> m == 0)
  {
    if d.coefficient < 0 {
      NegatedQuotient(m, p);
    }
    NonNegativeQuotient(m, p);
  }

  /** The integer rule for decimals computes the same rounding as the rule for reals. */
  lemma RoundDecimalIsRound(d: Decimal)
    ensures RoundDecimal(d) == Round(Value(d))
  {
    var p := PowerOfTen(d.digits);
    var m := if d.coefficient >= 0 then d.coefficient else -d.coefficient;
    var q := (2 * m + p) / (2 * p);
    DivisionBounds(2 * m + p, 2 * p);
    HalfUpQuotient(m, p, q);
    ValueBySign(d, m, p);
  }

  lemma NonNegativeQuotient(m: int, p: int)
    requires m >= 0 && p >= 1
    ensures m as real / p as real >= 0.0
    ensures m as real / p as real == 0.0 <==> m == 0
  {
    var x := m as real / p as real;
    assert x * p as real == m as real;
  }

  lemma NegatedQuotient(m: int, p: int)
    requires p >= 1
    ensures (-m) as real / p as real == -(m as real / p as real)
  {
    var x, y := m as real / p as real, (-m) as real / p as real;
    assert x * p as real == m as real && y * p as real == -(m as real);
    assert (x + y) * p as real == 0.0;
  }

  lemma ProductOrder(a: real, b: real, p: real)
    requires p > 0.0
    ensures Product(a, p) <= Product(b, p) <==> a <= b
    ensures Product(a, p) < Product(b, p) <==> a < b
  {
  }

  lemma QuotientProduct(m: int, p: int)
    requires p >= 1
    ensures Product(m as real / p as real, p as real) == m as real
  {
  }

  lemma TwiceProduct(x: real, y: real, p: real)
    ensures Product(2.0 * x + y, p) == 2.0 * Product(x, p) + Product(y, p)
    ensures Product(1.0, p) == p && Product(2.0, p) == 2.0 * p && Product(0.0, p) == 0.0
  {
  }

  lemma IntProduct(q: int, p: int)
    ensures (q * (2 * p)) as real == 2.0 * Product(q as real, p as real)
  {
    assert q * (2 * p) == 2 * (q * p);
  }

  lemma HalfBounds(m: int, p: int, q: int)
    requires p >= 1 && q * (2 * p) <= 2 * m + p < q * (2 * p) + 2 * p
    ensures
      var x, pr, qr := m as real / p as real, p as real, q as real;
      Product(2.0 * qr + 0.0, pr) <= Product(2.0 * x + 1.0, pr) < Product(2.0 * qr + 2.0, pr)
  {
    var x, pr, qr := m as real / p as real, p as real, q as real;
    QuotientProduct(m, p);
    IntProduct(q, p);
    TwiceProduct(x, 1.0, pr);
    TwiceProduct(qr, 0.0, pr);
    TwiceProduct(qr, 2.0, pr);
  }

  lemma HalfUpQuotient(m: int, p: int, q: int)
    requires m >= 0 && p >= 1 && q * (2 * p) <= 2 * m + p < q * (2 * p) + 2 * p
    ensures (m as real / p as real + 0.5).Floor == q
  {
    var x, pr, qr := m as real / p as real, p as real, q as real;
    HalfBounds(m, p, q);
    assert 2.0 * qr <= 2.0 * x + 1.0 < 2.0 * qr + 2.0 by {
      ProductOrder(2.0 * qr + 0.0, 2.0 * x + 1.0, pr);
      ProductOrder(2.0 * x + 1.0, 2.0 * qr + 2.0, pr);
    }
  }

  /** The float path and the decimal path agree on every exact value. */
  lemma PathsAgree(d: Decimal)
    ensures FromDecimal(d).value == FromRounded(Finite(Value(d))).value
    ensures FromDecimal(d).clamp.Clamped? == FromRounded(Finite(Value(d))).clamp.Clamped?
  {
    RoundDecimalIsRound(d);
  }

  /** The largest quota is representable, yet it is reported as clamped and the strict
      conversions reject it: the bounds themselves count as out of range. */
  lemma BoundsAreRejected()
    ensures InRange(MAX_QUOTA) && FromFloat(Finite(MAX_QUOTA as real)).value == MAX_QUOTA
    ensures StrictQuota(FromFloat(Finite(MAX_QUOTA as real))).Err?
    ensures StrictQuota(FromFloat(Finite(MIN_QUOTA as real))).Err?
    ensures forall n :: MIN_QUOTA < n < MAX_QUOTA ==> StrictQuota(FromFloat(Finite(n as real))) == Ok(n)
  {
    forall n | MIN_QUOTA < n < MAX_QUOTA
      ensures StrictQuota(FromFloat(Finite(n as real))) == Ok(n)
    {
      TruncateWhole(n);
    }
  }

  // ---- The quota of a channel test ----

  /** Ratio-based settlement: two roundings and a minimum of one. */
  method SettleTestQuota(prompt: int, completion: int, completionRatio: real, modelRatio: real) returns (quota: int)
    ensures quota == TestQuota(prompt, completion, completionRatio, modelRatio)
  {
    quota := prompt + Round(Product(completion as real, completionRatio));
    quota := Round(Product(quota as real, modelRatio));
    if modelRatio != 0.0 && quota <= 0 {
      quota := 1;
    }
  }

  function Product(a: real, b: real): real { a * b }

  /** A product of a count and a ratio, rounded. */
  function Scaled(count: int, ratio: real): int {
    Round(Product(count as real, ratio))
  }

  function RoundedQuota(prompt: int, completion: int, completionRatio: real, modelRatio: real): int {
    Scaled(prompt + Scaled(completion, completionRatio), modelRatio)
  }

  function AtLeastOne(quota: int, modelRatio: real): int {
    if modelRatio != 0.0 && quota <= 0 then 1 else quota
  }

  function TestQuota(prompt: int, completion: int, completionRatio: real, modelRatio: real): int {
    AtLeastOne(RoundedQuota(prompt, completion, completionRatio, modelRatio), modelRatio)
  }

  function ExactQuota(prompt: int, completion: int, completionRatio: real, modelRatio: real): real {
    Product(prompt as real + Product(completion as real, completionRatio), modelRatio)
  }

  lemma ProductMonotone(a: real, b: real, k: real)
    requires a <= b && k >= 0.0
    ensures Product(a, k) <= Product(b, k)
  {
  }

  lemma ScaledMonotone(a: int, b: int, ratio: real)
    requires a <= b && ratio >= 0.0
    ensures Scaled(a, ratio) <= Scaled(b, ratio)
  {
    ProductMonotone(a as real, b as real, ratio);
    RoundMonotone(Product(a as real, ratio), Product(b as real, ratio));
  }

  /** More tokens never cost less. */
  lemma TestQuotaMonotone(p1: int, c1: int, p2: int, c2: int, completionRatio: real, modelRatio: real)
    requires 0 <= p1 <= p2 && 0 <= c1 <= c2 && completionRatio >= 0.0 && modelRatio >= 0.0
    ensures TestQuota(p1, c1, completionRatio, modelRatio) <= TestQuota(p2, c2, completionRatio, modelRatio)
  {
    ScaledMonotone(c1, c2, completionRatio);
    ScaledMonotone(p1 + Scaled(c1, completionRatio), p2 + Scaled(c2, completionRatio), modelRatio);
  }

  lemma ProductWithin(exact: real, near: real, k: real)
    requires k >= 0.0 && exact - 0.5 <= near <= exact + 0.5
    ensures Product(exact, k) - k / 2.0 <= Product(near, k) <= Product(exact, k) + k / 2.0
  {
    ProductMonotone(exact - 0.5, near, k);
    ProductMonotone(near, exact + 0.5, k);
    assert Product(exact - 0.5, k) == Product(exact, k) - k / 2.0;
    assert Product(exact + 0.5, k) == Product(exact, k) + k / 2.0;
  }

  lemma ScaledError(exact: real, near: int, ratio: real)
    requires ratio >= 0.0 && exact - 0.5 <= near as real <= exact + 0.5
    ensures -(0.5 + ratio / 2.0) <= Scaled(near, ratio) as real - Product(exact, ratio) <= 0.5 + ratio / 2.0
  {
    ProductWithin(exact, near as real, ratio);
    RoundIsNearest(Product(near as real, ratio), 0);
  }

  lemma ExactNonNegative(prompt: int, completion: int, completionRatio: real, modelRatio: real)
    requires prompt >= 0 && completion >= 0 && completionRatio >= 0.0 && modelRatio >= 0.0
    ensures ExactQuota(prompt, completion, completionRatio, modelRatio) >= 0.0
  {
    ProductMonotone(0.0, completion as real, completionRatio);
    ProductMonotone(0.0, prompt as real + Product(completion as real, completionRatio), modelRatio);
  }

  /** The two roundings cost at most half a unit plus half the model ratio; the minimum of
      one adds at most another half. */
  lemma TestQuotaAccurate(prompt: int, completion: int, completionRatio: real, modelRatio: real)
    requires prompt >= 0 && completion >= 0 && completionRatio >= 0.0 && modelRatio >= 0.0
    ensures
      var exact := ExactQuota(prompt, completion, completionRatio, modelRatio);
      var rounded := RoundedQuota(prompt, completion, completionRatio, modelRatio) as real;
      var quota := TestQuota(prompt, completion, completionRatio, modelRatio) as real;
      && -(0.5 + modelRatio / 2.0) <= rounded - exact <= 0.5 + modelRatio / 2.0
      && -(0.5 + modelRatio / 2.0) <= quota - exact <= 1.0 + modelRatio / 2.0
  {
    var c := Product(completion as real, completionRatio);
    RoundIsNearest(c, 0);
    ScaledError(prompt as real + c, prompt + Scaled(completion, completionRatio), modelRatio);
    ExactNonNegative(prompt, completion, completionRatio, modelRatio);
  }
}
