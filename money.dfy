/**
 * Fixed-point money (package `money` of the checkout service): a `Money` is a whole number of
 * `units` plus a fraction `nanos` in billionths, with Go's field widths (int64 and int32).
 */
module Money {
  import opened Wrappers

  const NanosMin: int := -999_999_999
  const NanosMax: int := 999_999_999
  const NanosMod: int := 1_000_000_000

  datatype Money = Money(currencyCode: string, units: int64, nanos: int32)

  /** Go's zero value `pb.Money{}`. */
  const Zero: Money := Money("", 0, 0)

  datatype MoneyError = ErrInValidValue

  /** The amount a Money stands for, in billionths of a unit. */
  function Value(m: Money): int {
    m.units as int * NanosMod + m.nanos as int
  }

  /** Go's `n / nanosMod`, which truncates toward zero. */
  function NanosQuot(n: int): (q: int)
    ensures n >= 0 ==> 0 <= q && q * NanosMod <= n < q * NanosMod + NanosMod
    ensures n < 0 ==> q <= 0 && q * NanosMod - NanosMod < n <= q * NanosMod
  {
    if n >= 0 then n / NanosMod else -((-n) / NanosMod)
  }

  /** Go's `n % nanosMod`, whose sign follows the dividend. */
  function NanosRem(n: int): (rem: int)
    ensures n == NanosQuot(n) * NanosMod + rem
    ensures -NanosMod < rem < NanosMod
    ensures n >= 0 ==> rem >= 0
    ensures n <= 0 ==> rem <= 0
  {
    if n >= 0 then n % NanosMod else -((-n) % NanosMod)
  }

  /** Units and nanos are not of strictly opposite signs. */
  predicate SignMatches(m: Money)
    ensures SignMatches(m) <==> m.units as int * m.nanos as int >= 0
  {
    SignProduct(m.units as int, m.nanos as int);
    m.nanos == 0 || m.units == 0 || (m.nanos < 0) == (m.units < 0)
  }

  lemma SignProduct(u: int, n: int)
    ensures u * n >= 0 <==> (n == 0 || u == 0 || (n < 0) == (u < 0))
  {
  }

  /** The fraction lies strictly within one unit. */
  predicate ValidNanos(nanos: int32)
    ensures ValidNanos(nanos) <==> -NanosMod < nanos as int < NanosMod
  {
    NanosMin <= nanos as int <= NanosMax
  }

  predicate IsValid(m: Money)
    ensures IsValid(m) <==>
      NanosMin <= m.nanos as int <= NanosMax && !(m.units > 0 && m.nanos < 0) && !(m.units < 0 && m.nanos > 0)
  {
    SignMatches(m) && ValidNanos(m.nanos)
  }

  /** A valid Money is exactly the truncated-division decomposition of its value into units and nanos. */
  lemma ValidIsCanonical(m: Money)
    ensures IsValid(m) <==>
      (m.units as int == NanosQuot(Value(m)) && m.nanos as int == NanosRem(Value(m)))
  {
  }

  /** Two valid Money values with the same amount have the same units and nanos. */
  lemma ValidUnique(a: Money, b: Money)
    requires IsValid(a) && IsValid(b) && Value(a) == Value(b)
    ensures a.units == b.units && a.nanos == b.nanos
  {
  }

  /** The outcome of a call that either returns a value or panics. */
  datatype Returned<+T> = Returned(value: T) | Panicked(reason: MoneyError)

  /** `Must(val, err)`: returns `val`, or panics when there is an error. */
  function Must(val: Money, err: Option<MoneyError>): (r: Returned<Money>)
    ensures err.None? ==> r == Returned(val)
    ensures err.Some? ==> r == Panicked(err.value)
  {
    if err.Some? then Panicked(err.value) else Returned(val)
  }

  function RawUnits(l: Money, r: Money): int { l.units as int + r.units as int }
  function RawNanos(l: Money, r: Money): int { l.nanos as int + r.nanos as int }

  /** An amount some valid Money can hold: its whole-unit part fits int64. */
  predicate Representable(v: int) {
    MinInt64 <= NanosQuot(v) <= MaxInt64
  }

  /** The raw unit sum leaves room for a carry or borrow of one unit inside int64. */
  predicate UnitsInRange(l: Money, r: Money) {
    MinInt64 < RawUnits(l, r) < MaxInt64
  }

  /**
   * `Sum(l, r)` as written: add the fields (with Go's wrap-around), then either move whole billions
   * from nanos to units (same sign) or borrow one unit (different sign). A successful sum is always in
   * "USD"; an invalid operand gives the zero Money, whose currency code is empty.
   */
  function Sum(l: Money, r: Money): (res: (Money, Option<MoneyError>))
    ensures !IsValid(l) || !IsValid(r) ==> res == (Zero, Some(ErrInValidValue))
    ensures IsValid(l) && IsValid(r) ==> res.1 == None && res.0.currencyCode == "USD"
  {
    if !IsValid(l) || !IsValid(r) then (Zero, Some(ErrInValidValue))
    else
      var units := Wrap64(l.units as int + r.units as int);
      var nanos := Wrap32(l.nanos as int + r.nanos as int);
      var (u, n) :=
        if (units == 0 && nanos == 0) || (units > 0 && nanos >= 0) || (units < 0 && nanos <= 0) then
          (Wrap64(units + NanosQuot(nanos)), NanosRem(nanos))
        else if units > 0 then
          (units - 1, Wrap32(nanos + NanosMod))
        else
          (Wrap64(units + 1), Wrap32(nanos - NanosMod));
      (Money("USD", u as int64, n as int32), None)
  }

  /**
   * For valid operands, Sum is exact (valid and value-preserving) if and only if the exact total is
   * representable and the unit sum is non-zero, the nanos sum is zero, or the nanos sum reaches a whole unit.
   */
  lemma SumExactIff(l: Money, r: Money)
    requires IsValid(l) && IsValid(r)
    ensures var m := Sum(l, r).0;
      (IsValid(m) && Value(m) == Value(l) + Value(r)) <==>
      Representable(Value(l) + Value(r)) &&
      (RawUnits(l, r) != 0 || RawNanos(l, r) == 0 || RawNanos(l, r) >= NanosMod)
  {
  }

  /** When the unit sum fits, value is preserved unless the int32 subtraction on the units-0 path wraps. */
  lemma SumValueIff(l: Money, r: Money)
    requires IsValid(l) && IsValid(r) && UnitsInRange(l, r)
    ensures Value(Sum(l, r).0) == Value(l) + Value(r) <==>
      !(RawUnits(l, r) == 0 && RawNanos(l, r) - NanosMod < MinInt32)
  {
  }

  /** The zero-units path: the result has units 1 whatever the sign of the nanos sum. */
  lemma SumZeroUnits(l: Money, r: Money)
    requires IsValid(l) && IsValid(r) && RawUnits(l, r) == 0 && RawNanos(l, r) != 0
    ensures var m := Sum(l, r).0;
      m.units == 1 &&
      m.nanos as int == Wrap32(RawNanos(l, r) - NanosMod) &&
      (IsValid(m) <==> RawNanos(l, r) >= NanosMod) &&
      (Value(m) == Value(l) + Value(r) <==> RawNanos(l, r) - NanosMod >= MinInt32)
  {
  }

  /** `{0, 5e8} + {0, 3e8}` gives `{1, -2e8}`, which is not a valid Money. */
  lemma SumZeroUnitsCounterexample()
    ensures var (m, err) := Sum(Money("USD", 0, 500_000_000), Money("USD", 0, 300_000_000));
      err == None && m == Money("USD", 1, -200_000_000) && !IsValid(m)
  {
  }

  /** A nanos sum of at least a whole unit is carried: `{0, 9e8} + {0, 9e8}` gives `{1, 8e8}`. */
  lemma SumCarryExample()
    ensures Sum(Money("USD", 0, 900_000_000), Money("USD", 0, 900_000_000)) == (Money("USD", 1, 800_000_000), None)
  {
  }

  /** `{1, -5e8}` mixes signs, so it is rejected as an operand rather than borrowed from. */
  lemma SumRejectsMixedSignExample()
    ensures Sum(Money("USD", 1, -500_000_000), Money("USD", 0, 700_000_000)) == (Zero, Some(ErrInValidValue))
  {
  }

  /** `Must(Sum(l, r))` returns the sum when both operands are valid and panics otherwise. */
  lemma MustSum(l: Money, r: Money)
    ensures var (m, err) := Sum(l, r);
      (Must(m, err).Returned? <==> IsValid(l) && IsValid(r)) &&
      (Must(m, err).Returned? ==> Must(m, err).value.currencyCode == "USD") &&
      (Must(m, err).Panicked? ==> Must(m, err).reason == ErrInValidValue)
  {
  }

  /** Adding a zero amount returns the operand's units and nanos, provided its units are non-zero or its nanos are zero. */
  lemma SumZeroRight(m: Money, z: Money)
    requires IsValid(m) && z.units == 0 && z.nanos == 0
    requires m.units != 0 || m.nanos == 0
    ensures Sum(m, z).0.units == m.units && Sum(m, z).0.nanos == m.nanos
  {
  }

  /** Operand order never matters. */
  lemma SumCommutes(l: Money, r: Money)
    ensures Sum(l, r) == Sum(r, l)
  {
  }

  /** Sum as written is not associative: grouping decides whether the zero-units path is taken. */
  lemma SumNotAssociative()
    ensures var a, b, c := Money("USD", 0, 500_000_000), Money("USD", 0, 300_000_000), Money("USD", 1, 0);
      Sum(Sum(a, b).0, c) == (Zero, Some(ErrInValidValue)) &&
      Sum(a, Sum(b, c).0) == (Money("USD", 1, 800_000_000), None)
  {
  }

  /** Adding zero to `{0, 5e8}` gives `{1, -5e8}`, so zero is not an identity for Sum as written. */
  lemma SumZeroRightCounterexample()
    ensures Sum(Money("USD", 0, 500_000_000), Money("USD", 0, 0)) == (Money("USD", 1, -500_000_000), None)
  {
  }

  /**
   * The evident intent of `Sum`: a zero unit sum already agrees in sign with any nanos sum, so it is
   * normalised like the same-sign case instead of being given units 1.
   */
  function SumCorrected(l: Money, r: Money): (res: (Money, Option<MoneyError>))
    ensures !IsValid(l) || !IsValid(r) ==> res == (Zero, Some(ErrInValidValue))
    ensures IsValid(l) && IsValid(r) ==>
      res.1 == None && res.0.currencyCode == "USD" &&
      (IsValid(res.0) && Value(res.0) == Value(l) + Value(r) <==> Representable(Value(l) + Value(r)))
  {
    if !IsValid(l) || !IsValid(r) then (Zero, Some(ErrInValidValue))
    else
      var (u, n) := CorrectedFields(l, r);
      (Money("USD", u as int64, n as int32), None)
  }

  /**
   * The corrected sum's units and nanos: add the fields with Go's wrap-around, then normalise a pair that
   * agrees in sign (zero agreeing with both) or borrow one unit from a pair that does not.
   */
  function CorrectedFields(l: Money, r: Money): (f: (int, int))
    ensures MinInt64 <= f.0 <= MaxInt64 && MinInt32 <= f.1 <= MaxInt32
    ensures IsValid(l) && IsValid(r) ==>
      (IsValid(Money("USD", f.0 as int64, f.1 as int32)) && f.0 * NanosMod + f.1 == Value(l) + Value(r) <==>
       Representable(Value(l) + Value(r)))
  {
    var units := Wrap64(l.units as int + r.units as int);
    var nanos := Wrap32(l.nanos as int + r.nanos as int);
    if (units >= 0 && nanos >= 0) || (units <= 0 && nanos <= 0) then
      (Wrap64(units + NanosQuot(nanos)), NanosRem(nanos))
    else if units > 0 then
      (units - 1, Wrap32(nanos + NanosMod))
    else
      (Wrap64(units + 1), Wrap32(nanos - NanosMod))
  }

  /** Outside the zero-units path the code as written and the corrected version agree. */
  lemma SumAgreesWithCorrected(l: Money, r: Money)
    requires Wrap64(RawUnits(l, r)) != 0 || RawNanos(l, r) == 0
    ensures Sum(l, r) == SumCorrected(l, r)
  {
  }

  /** Adding a zero amount to any valid Money returns its units and nanos. */
  lemma SumCorrectedZeroRight(m: Money, z: Money)
    requires IsValid(m) && z.units == 0 && z.nanos == 0
    ensures SumCorrected(m, z).0.units == m.units && SumCorrected(m, z).0.nanos == m.nanos
  {
  }

  /** Units small enough that no sum of three such amounts can overflow int64. */
  predicate WellInRange(m: Money) {
    -0x2000_0000_0000_0000 < m.units as int < 0x2000_0000_0000_0000
  }

  /** The corrected sum is associative for valid amounts whose units are well inside int64. */
  lemma SumCorrectedAssociative(a: Money, b: Money, c: Money)
    requires IsValid(a) && IsValid(b) && IsValid(c)
    requires WellInRange(a) && WellInRange(b) && WellInRange(c)
    ensures SumCorrected(SumCorrected(a, b).0, c) == SumCorrected(a, SumCorrected(b, c).0)
  {
    var ab, bc := SumCorrected(a, b).0, SumCorrected(b, c).0;
    assert UnitsInRange(ab, c) && UnitsInRange(a, bc);
    ValidUnique(SumCorrected(ab, c).0, SumCorrected(a, bc).0);
  }
}
