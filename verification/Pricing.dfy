/** The price of an order: the Pyth price, averaged with the Coinbase price when there is one. */
module Pricing {
  import opened MachineIntegers
  import opened Wrappers
  import opened Addresses
  import opened Coinbase

  /** The last step of `get_price`, after the Pyth price arrived. The checked addition is unwrapped. */
  function Combine(pyth: uint64, coinbase: Option<uint64>): Result<uint64, Panic> {
    match coinbase
    case Some(c) => if c + pyth < TWO_64 then Success((c + pyth) / 2) else Failure(Panic)
    case None => Success(pyth)
  }

  /** The two rounding stages lose no more than one floor. */
  lemma TwoFloorsAreOne(total: nat, count: nat, pyth: nat)
    requires count > 0
    ensures (total / count + pyth) / 2 == (total + count * pyth) / (2 * count)
  {
    var q, r := total / count, total % count;
    var k, b := (q + pyth) / 2, (q + pyth) % 2;
    calc {
      total + count * pyth;
      count * q + r + count * pyth;
      count * (q + pyth) + r;
      count * (2 * k + b) + r;
      (2 * count) * k + (count * b + r);
    }
    assert b == 0 || b == 1;
    Quotient(total + count * pyth, 2 * count, k, count * b + r);
  }

  lemma OneMoreTerm(n: nat, x: nat)
    ensures (n + 1) * x == n * x + x
  {
  }

  lemma {:induction false} TotalBetween(ticks: seq<Tick>, low: nat, high: nat)
    requires forall t :: t in ticks ==> low <= t.price <= high
    ensures |ticks| * low <= Total(ticks) <= |ticks| * high
  {
    if ticks != [] {
      TotalBetween(ticks[..|ticks| - 1], low, high);
      OneMoreTerm(|ticks| - 1, low);
      OneMoreTerm(|ticks| - 1, high);
    }
  }

  lemma MeanBetween(total: nat, count: nat, low: nat, high: nat)
    requires count > 0 && count * low <= total <= count * high
    ensures low <= total / count <= high
  {
    var q := total / count;
    assert total == count * q + total % count;
    MulMonotone(count, q + 1, low);
    MulMonotone(count, high + 1, q);
  }

  lemma Between(total: nat, count: nat, pyth: nat, low: nat, high: nat)
    requires count > 0 && low <= pyth <= high && count * low <= total <= count * high
    ensures low <= (total + count * pyth) / (2 * count) <= high
  {
    MeanBetween(total, count, low, high);
    TwoFloorsAreOne(total, count, pyth);
  }

  /** The exact average of the Pyth price and the mean of the ticks, rounded down once. */
  predicate FlooredOnce(ticks: seq<Tick>, pyth: nat, price: nat) {
    ticks != [] && price == (Total(ticks) + |ticks| * pyth) / (2 * |ticks|)
  }

  ghost predicate AllBetween(ticks: seq<Tick>, low: nat, high: nat) {
    forall t :: t in ticks ==> low <= t.price <= high
  }

  /** The submitted price over the exact mean of any ticks: a panic exactly when mean and Pyth price do not
      fit 64 bits together; otherwise one floor of the exact two-source average, between the smallest and
      the largest of the Pyth price and the ticks. */
  lemma CombinedPrice(ticks: seq<Tick>, mean: uint64, pyth: uint64, low: nat, high: nat)
    requires ticks != [] && mean == Total(ticks) / |ticks|
    ensures Combine(pyth, Some(mean)).Success? <==> mean + pyth < TWO_64
    ensures Combine(pyth, Some(mean)).Success? ==>
              FlooredOnce(ticks, pyth, Combine(pyth, Some(mean)).value)
    ensures Combine(pyth, Some(mean)).Success? && low <= pyth <= high && AllBetween(ticks, low, high) ==>
              low <= Combine(pyth, Some(mean)).value <= high
  {
    TwoFloorsAreOne(Total(ticks), |ticks|, pyth);
    if low <= pyth <= high && AllBetween(ticks, low, high) {
      TotalBetween(ticks, low, high);
      Between(Total(ticks), |ticks|, pyth, low, high);
    }
  }

  function Published(build: Build, messages: seq<Message>, market: MarketType, ts: int64, at: nat): Option<uint64>
    requires Play(build, NO_TICKS, messages).Success?
  {
    TtlGet(Play(build, NO_TICKS, messages).value.At(market).cache, ts, CACHE_TTL, at)
  }

  /** The submitted price over what the Coinbase feed publishes at any instant of any stream, as long as the
      ticks behind it fit the machine integers, which in a debug build they always do. */
  lemma PublishedPriceCombined(build: Build, messages: seq<Message>, market: MarketType, ts: int64, at: nat,
                               pyth: uint64, low: nat, high: nat)
    requires InOrder(messages) && Play(build, NO_TICKS, messages).Success?
    requires build.Release? ==> FitsMachine(Segment(messages, market, ts))
    requires Published(build, messages, market, ts, at).Some?
    ensures
      var ticks, price := Segment(messages, market, ts), Combine(pyth, Published(build, messages, market, ts, at));
      price.Success? ==>
        && FlooredOnce(ticks, pyth, price.value)
        && (low <= pyth <= high && AllBetween(ticks, low, high) ==> low <= price.value <= high)
  {
    PublishedMean(build, messages, market, ts, at);
    MeanIsExact(Segment(messages, market, ts));
    CombinedPrice(Segment(messages, market, ts), Published(build, messages, market, ts, at).value, pyth, low, high);
  }
}
