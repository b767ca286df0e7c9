/** Scaling a Pyth quote to nine decimals. */
module PythScaling {
  import opened MachineIntegers
  import opened Wrappers

  /** A quote: the price is absent when its text is not an unsigned 64-bit number. */
  datatype PriceInfo = PriceInfo(price: Option<uint64>, expo: int32, publishTime: uint64)

  function Pow10(n: nat): (p: nat)
    ensures p >= 1
  {
    if n == 0 then 1 else 10 * Pow10(n - 1)
  }

  function Abs(x: int): nat {
    if x < 0 then -x else x
  }

  /** `(9 - expo.abs()) as u32`: a negative difference becomes a huge exponent. */
  function ExpoDiff(build: Build, expo: int32): Result<uint32, Panic> {
    var diff := 9 - Abs(expo);
    if expo == -0x8000_0000 && build.Debug? then Failure(Panic)
    else Success(if diff < 0 then diff + TWO_32 else diff)
  }

  function Quotient(a: uint64, b: uint64): uint64
    requires b != 0
  {
    a / b
  }

  function ToFixedPrecision(build: Build, info: PriceInfo): Result<uint64, Panic> {
    match (ExpoDiff(build, info.expo), info.price)
    case (Success(diff), Some(price)) =>
      (match Fit(build, Pow10(diff))
       case Failure(e) => Failure(e)
       case Success(pow) =>
         if info.expo < 0 then Fit(build, price * pow)
         else if pow == 0 then Failure(Panic) else Success(Quotient(price, pow)))
    case _ => Failure(Panic)
  }

  // ----- What the scaling is for: the quote price * 10^expo with nine decimals

  /** price * 10^expo * 10^9, rounded down. */
  function NineDecimals(price: nat, expo: int): int {
    if expo >= -9 then price * Pow10(9 + expo) else price / Pow10(-expo - 9)
  }

  function RealPow10(e: int): real
    decreases if e < 0 then -e else e
  {
    if e == 0 then 1.0 else if e > 0 then 10.0 * RealPow10(e - 1) else RealPow10(e + 1) / 10.0
  }

  lemma {:induction false} RealShift(e: int, n: nat)
    ensures RealPow10(e + n) == RealPow10(e) * (Pow10(n) as real)
    decreases n
  {
    if n > 0 {
      RealShift(e, n - 1);
      var r := e + n;
      assert RealPow10(r) == 10.0 * RealPow10(r - 1);
    }
  }

  lemma Billionth(low: int)
    requires low == -9
    ensures RealPow10(low) * 1000000000.0 == 1.0
  {
    var nine: nat := 9;
    RealShift(low, nine);
    Pow10Small(nine);
  }

  lemma Reorder(x: real, p: real)
    ensures x * p * 1000000000.0 == p * (x * 1000000000.0)
  {
  }

  lemma ShiftedFromBillionth(expo: int, shift: nat)
    requires expo == shift - 9
    ensures RealPow10(expo) * 1000000000.0 == Pow10(shift) as real
  {
    var low := -9;
    Billionth(low);
    RealShift(low, shift);
    Reorder(RealPow10(low), Pow10(shift) as real);
  }

  lemma RealProduct(product: int, a: nat, b: nat, y: real)
    requires product == a * b && y == b as real
    ensures product as real == a as real * y
  {
  }

  lemma Shifted(price: nat, expo: int, shift: nat)
    requires expo == shift - 9
    ensures NineDecimals(price, expo) == price * Pow10(shift)
  {
  }

  lemma ProductIsExact(price: nat, expo: int, shift: nat)
    requires expo == shift - 9
    ensures (price * Pow10(shift)) as real == price as real * (RealPow10(expo) * 1000000000.0)
  {
    ShiftedFromBillionth(expo, shift);
    RealProduct(price * Pow10(shift), price, Pow10(shift), RealPow10(expo) * 1000000000.0);
  }

  /** From the exponent -9 on nothing is lost: the nine decimals are the quoted real number. */
  lemma NineDecimalsAreExact(price: nat, expo: int)
    requires expo >= -9
    ensures NineDecimals(price, expo) as real == price as real * (RealPow10(expo) * 1000000000.0)
  {
    var shift: nat := 9 + expo;
    Shifted(price, expo, shift);
    ProductIsExact(price, expo, shift);
  }

  lemma {:induction false} Pow10Add(a: nat, b: nat)
    ensures Pow10(a + b) == Pow10(a) * Pow10(b)
  {
    if a > 0 {
      Pow10Add(a - 1, b);
      assert 10 * (Pow10(a - 1) * Pow10(b)) == 10 * Pow10(a - 1) * Pow10(b);
    }
  }

  lemma Pow10Double(n: nat, value: nat)
    requires Pow10(n) == value
    ensures Pow10(n + n) == value * value
  {
    Pow10Add(n, n);
  }

  lemma Pow10At64(n: nat)
    requires n == 64
    ensures Pow10(n) == 10000000000000000000000000000000000000000000000000000000000000000
  {
    var eight: nat := 8;
    Pow10Small(eight);
    Pow10Double(eight, 100000000);
    Pow10Double(eight + eight, 10000000000000000);
    Pow10Double(eight + eight + eight + eight, 100000000000000000000000000000000);
  }

  lemma TenTimes(x: nat)
    requires x % TWO_64 == 0
    ensures (10 * x) % TWO_64 == 0
  {
  }

  lemma {:induction false} Pow10Vanishes(n: nat)
    requires n >= 64
    ensures Pow10(n) % TWO_64 == 0
  {
    if n == 64 {
      Pow10At64(n);
    } else {
      Pow10Vanishes(n - 1);
      TenTimes(Pow10(n - 1));
    }
  }

  lemma Pow10Small(n: nat)
    requires n <= 9
    ensures Pow10(n) <= 1000000000
    ensures n == 9 ==> Pow10(n) == 1000000000
    ensures n == 8 ==> Pow10(n) == 100000000
  {
    assert Pow10(9) == 1000000000 && Pow10(8) == 100000000 && Pow10(7) == 10000000 && Pow10(6) == 1000000;
    assert Pow10(5) == 100000 && Pow10(4) == 10000 && Pow10(3) == 1000 && Pow10(2) == 100 && Pow10(1) == 10;
  }

  /** What the machine computes, for every price and exponent. */
  lemma Computed(build: Build, price: uint64, expo: int32, time: uint64)
    ensures
      var r := ToFixedPrecision(build, PriceInfo(Some(price), expo, time));
      && (-9 <= expo < 0 ==> r == Fit(build, price * Pow10(9 + expo)))
      && (0 <= expo <= 9 ==> r == Success(price / Pow10(9 - expo)))
      && (expo < -9 ==> r == if build.Debug? then Failure(Panic) else Success(0))
      && (expo > 9 ==> r == Failure(Panic))
  {
    var e := Abs(expo);
    if e <= 9 {
      Pow10Small(9 - e);
    } else {
      var diff := 9 - e + TWO_32;
      Pow10Vanishes(diff);
    }
  }

  /** What a scaled price is in terms of its quote: the nine decimals in 64 bits below exponent 0, the quotient
      up to 9, and zero below -9. */
  predicate IsScaled(price: uint64, expo: int32, v: uint64) {
    && (-9 <= expo < 0 ==> v == NineDecimals(price, expo) % TWO_64)
    && (-9 <= expo < 0 && price <= U64_MAX / Pow10(9 + expo) ==> v == NineDecimals(price, expo))
    && (0 <= expo <= 9 ==> v == price / Pow10(9 - expo))
    && (expo < -9 ==> v == 0)
    && expo <= 9
  }

  lemma ScalingMeaning(build: Build, info: PriceInfo)
    ensures
      match ToFixedPrecision(build, info)
      case Success(v) => info.price.Some? && IsScaled(info.price.value, info.expo, v)
      case Failure(_) => true
  {
    if info.price.Some? {
      var price, expo := info.price.value, info.expo;
      Computed(build, price, expo, info.publishTime);
      if -9 <= expo < 0 {
        FitMeaning(build, price * Pow10(9 + expo));
        Bounded(price, Pow10(9 + expo), U64_MAX);
      }
    }
  }

  lemma FitMeaning(build: Build, x: nat)
    ensures Fit(build, x).Success? ==> Fit(build, x).value == x % TWO_64 && (x < TWO_64 ==> Fit(build, x).value == x)
  {
  }

  lemma Bounded(a: nat, pow: nat, max: nat)
    requires pow > 0
    ensures a * pow <= max <==> a <= max / pow
  {
    if a <= max / pow {
      assert a * pow <= max / pow * pow <= max;
    } else {
      assert a * pow >= (max / pow + 1) * pow;
    }
  }

  /** Exactly when the code meets its promise of nine decimals, in either build: for the exponents -9 to -1
      when the product fits 64 bits; for 0 to 9, where it divides instead of multiplying, only for the price
      zero; below -9 only in a release build and for prices that vanish; above 9 never. */
  lemma ScaledExactlyWhen(build: Build, price: uint64, expo: int32, time: uint64)
    ensures
      ToFixedPrecision(build, PriceInfo(Some(price), expo, time)) == Success(NineDecimals(price, expo)) <==>
        || (-9 <= expo < 0 && price <= U64_MAX / Pow10(9 + expo))
        || (0 <= expo <= 9 && price == 0)
        || (expo < -9 && build.Release? && price < Pow10(Abs(expo) - 9))
  {
    Computed(build, price, expo, time);
    if -9 <= expo < 0 {
      Bounded(price, Pow10(9 + expo), U64_MAX);
    } else if 0 <= expo <= 9 {
      assert Pow10(9 + expo) == 10 * Pow10(8 + expo);
      DivisionShrinks(price, Pow10(9 - expo), Pow10(9 + expo));
    } else if expo < -9 {
      Vanishes(price, Pow10(Abs(expo) - 9));
    }
  }

  /** A price of 1 with exponent 0 is scaled to 0 instead of a billion. */
  lemma ScalingMisses(build: Build, time: uint64)
    ensures ToFixedPrecision(build, PriceInfo(Some(1), 0, time)) == Success(0)
    ensures NineDecimals(1, 0) == 1000000000
  {
    Computed(build, 1, 0, time);
    var nine: nat := 9;
    Pow10Small(nine);
  }

  lemma Vanishes(price: nat, pow: nat)
    requires pow > 0
    ensures price / pow == 0 <==> price < pow
  {
  }

  lemma QuotientShrinks(price: nat, d: nat)
    requires d > 0
    ensures price / d <= price
  {
    var q := price / d;
    assert price == d * q + price % d;
    MulMonotone(q, 1, d);
  }

  lemma DivisionShrinks(price: nat, d: nat, m: nat)
    requires d > 0 && m >= 10
    ensures price / d == price * m <==> price == 0
  {
    if price > 0 {
      QuotientShrinks(price, d);
      MulMonotone(price, 10, m);
    }
  }

  lemma MoveTen(price: nat, pow: nat)
    ensures price * (10 * pow) == 10 * price * pow
  {
  }

  /** (p, e) and (10p, e - 1) are the same quote, and scale alike wherever both are in range. */
  lemma RescalingIsNeutral(build: Build, price: uint64, expo: int32, time: uint64)
    requires -8 <= expo < 0 && 10 * price < TWO_64
    ensures ToFixedPrecision(build, PriceInfo(Some(price), expo, time)) ==
            ToFixedPrecision(build, PriceInfo(Some(10 * price), expo - 1, time))
  {
    Computed(build, price, expo, time);
    Computed(build, 10 * price, expo - 1, time);
    MoveTen(price, Pow10(8 + expo));
  }

  /** Quotes with different exponents keep their order. */
  lemma OrderIsKept(build: Build, p: uint64, e: int32, q: uint64, f: int32, time: uint64)
    requires -9 <= e < 0 && -9 <= f < 0
    requires p <= U64_MAX / Pow10(9 + e) && q <= U64_MAX / Pow10(9 + f)
    ensures
      var a := ToFixedPrecision(build, PriceInfo(Some(p), e, time));
      var b := ToFixedPrecision(build, PriceInfo(Some(q), f, time));
      && a.Success? && b.Success?
      && (a.value <= b.value <==> p as real * RealPow10(e) <= q as real * RealPow10(f))
  {
    ScaledExactlyWhen(build, p, e, time);
    ScaledExactlyWhen(build, q, f, time);
    NineDecimalsAreExact(p, e);
    NineDecimalsAreExact(q, f);
  }
}
