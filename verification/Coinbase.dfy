/** The ticker loop of the Coinbase provider: a running mean per product and second, kept in an
    accumulator that expires after one minute and published in a cache that expires after one hour. */
module Coinbase {
  import opened MachineIntegers
  import opened Wrappers
  import opened Addresses

  /** A cache entry and the instant, in milliseconds, of its last `set`. Hypothesis about the cache
      library: `set` renews the expiry and `get` hides an entry that has outlived it. */
  datatype Timed<T> = Timed(value: T, setAt: nat)

  type TtlCache<T> = map<int64, Timed<T>>

  function TtlGet<T>(cache: TtlCache<T>, key: int64, ttl: nat, now: nat): Option<T> {
    if key in cache && now <= cache[key].setAt + ttl then Some(cache[key].value) else None
  }

  const STORE_TTL: nat := 60_000
  const CACHE_TTL: nat := 3_600_000

  /** The running total and the number of prices in it, as the machine holds them. */
  datatype Totals = Totals(total: uint64, count: uint32)

  datatype Product = Product(store: TtlCache<Totals>, cache: TtlCache<uint64>)

  type Feed = PerMarket<Product>

  const NO_TICKS := PerMarket(Product(map[], map[]), Product(map[], map[]), Product(map[], map[]))

  /** A parsed ticker message; the price is absent when `to_u64_price` fails. */
  datatype Ticker = Ticker(product: string, timestamp: int64, price: Option<uint64>)

  /** A received message and its arrival; `ticker` is absent when the text does not parse. */
  datatype Message = Message(arrival: nat, ticker: Option<Ticker>)

  function MarketOf(product: string): Option<MarketType> {
    if product == "BTC-USD" then Some(Btc)
    else if product == "ETH-USD" then Some(Eth)
    else if product == "SOL-USD" then Some(Sol)
    else None
  }

  /** The two additions. */
  function Add(build: Build, entry: Totals, price: uint64): Result<Totals, Panic> {
    match (Fit(build, entry.total + price), Fit32(build, entry.count + 1))
    case (Success(total), Success(count)) => Success(Totals(total, count))
    case _ => Failure(Panic)
  }

  function Mean(entry: Totals): uint64
    requires entry.count != 0
  {
    entry.total / entry.count
  }

  /** One price of one product. The division panics when the wrapped count is zero. */
  function Accumulate(build: Build, p: Product, ts: int64, price: uint64, now: nat): Result<Product, Panic> {
    match TtlGet(p.store, ts, STORE_TTL, now)
    case Some(entry) =>
      (match Add(build, entry, price)
       case Failure(e) => Failure(e)
       case Success(next) =>
         if next.count == 0 then Failure(Panic)
         else Success(Product(p.store[ts := Timed(next, now)], p.cache[ts := Timed(Mean(next), now)])))
    case None =>
      Success(Product(p.store[ts := Timed(Totals(price, 1), now)], p.cache[ts := Timed(price, now)]))
  }

  function OnMessage(build: Build, feed: Feed, m: Message): Result<Feed, Panic> {
    if m.ticker.None? || MarketOf(m.ticker.value.product).None? || m.ticker.value.price.None? then Success(feed)
    else
      var t := m.ticker.value;
      var market := MarketOf(t.product).value;
      match Accumulate(build, feed.At(market), t.timestamp, t.price.value, m.arrival)
      case Success(p) => Success(feed.Put(market, p))
      case Failure(e) => Failure(e)
  }

  function Play(build: Build, start: Feed, messages: seq<Message>): Result<Feed, Panic> {
    if messages == [] then Success(start)
    else
      match Play(build, start, messages[..|messages| - 1])
      case Success(feed) => OnMessage(build, feed, messages[|messages| - 1])
      case Failure(e) => Failure(e)
  }

  /** The specification: select the prices of one product and second, cut at the last silence that
      outlives the accumulator, and average. */
  datatype Tick = Tick(price: uint64, at: nat)

  function TickOf(m: Message, market: MarketType, ts: int64): Option<Tick> {
    if m.ticker.Some? && MarketOf(m.ticker.value.product) == Some(market)
       && m.ticker.value.timestamp == ts && m.ticker.value.price.Some?
    then Some(Tick(m.ticker.value.price.value, m.arrival)) else None
  }

  function TicksOf(messages: seq<Message>, market: MarketType, ts: int64): seq<Tick> {
    if messages == [] then []
    else
      var tick := TickOf(messages[|messages| - 1], market, ts);
      TicksOf(messages[..|messages| - 1], market, ts) + if tick.Some? then [tick.value] else []
  }

  /** Which messages are ticks of a market and second: those for its product with a price, and no others. */
  lemma TickMeaning(m: Message, market: MarketType, ts: int64, price: uint64, at: nat)
    ensures TickOf(m, market, ts) == Some(Tick(price, at)) <==>
              && m.ticker.Some? && m.ticker.value.timestamp == ts && m.ticker.value.price == Some(price) && m.arrival == at
              && (market.Btc? ==> m.ticker.value.product == "BTC-USD")
              && (market.Eth? ==> m.ticker.value.product == "ETH-USD")
              && (market.Sol? ==> m.ticker.value.product == "SOL-USD")
  {
  }

  lemma OneMessage(m: Message, market: MarketType, ts: int64)
    ensures TicksOf([m], market, ts) == if TickOf(m, market, ts).Some? then [TickOf(m, market, ts).value] else []
  {
    assert [m][..0] == [];
    assert TicksOf([m], market, ts) ==
           TicksOf([m][..0], market, ts) + if TickOf(m, market, ts).Some? then [TickOf(m, market, ts).value] else [];
  }

  /** The ticks of a stream are those of its messages, in order. */
  lemma {:induction false} TicksInOrder(a: seq<Message>, b: seq<Message>, market: MarketType, ts: int64)
    ensures TicksOf(a + b, market, ts) == TicksOf(a, market, ts) + TicksOf(b, market, ts)
    decreases |b|
  {
    if b == [] {
      assert a + b == a;
    } else {
      var all, init := a + b, b[..|b| - 1];
      assert all[..|all| - 1] == a + init && all[|all| - 1] == b[|b| - 1];
      TicksInOrder(a, init, market, ts);
      var more := if TickOf(b[|b| - 1], market, ts).Some? then [TickOf(b[|b| - 1], market, ts).value] else [];
      Associate(TicksOf(a, market, ts), TicksOf(init, market, ts), more);
    }
  }

  lemma Associate(a: seq<Tick>, b: seq<Tick>, c: seq<Tick>)
    ensures a + b + c == a + (b + c)
  {
  }

  /** A stream is handled message by message. */
  lemma {:induction false} PlayInOrder(build: Build, start: Feed, a: seq<Message>, b: seq<Message>)
    ensures Play(build, start, a + b) ==
            match Play(build, start, a)
            case Success(feed) => Play(build, feed, b)
            case Failure(e) => Failure(e)
    decreases |b|
  {
    if b == [] {
      assert a + b == a;
    } else {
      assert (a + b)[..|a + b| - 1] == a + b[..|b| - 1];
      PlayInOrder(build, start, a, b[..|b| - 1]);
    }
  }

  /** Where the last segment starts: no tick behind it comes more than a minute after its predecessor, and if
      it is not the first tick it does itself. */
  lemma SegmentMeaning(ticks: seq<Tick>, i: nat)
    requires i < |ticks|
    ensures Cut(ticks) < |ticks|
    ensures i == Cut(ticks) > 0 ==> ticks[i].at > ticks[i - 1].at + 60_000
    ensures i > Cut(ticks) ==> ticks[i].at <= ticks[i - 1].at + 60_000
  {
    if i > Cut(ticks) {
      assert !Gap(ticks, i);
    } else if i == Cut(ticks) > 0 {
      assert Gap(ticks, i);
    }
  }

  lemma TotalOfOne(t: Tick)
    ensures Total([t]) == t.price
  {
    assert [t][..0] == [];
    assert Total([t]) == Total([t][..0]) + t.price;
  }

  lemma {:induction false} TotalOfBoth(a: seq<Tick>, b: seq<Tick>)
    ensures Total(a + b) == Total(a) + Total(b)
    decreases |b|
  {
    if b == [] {
      assert a + b == a;
    } else {
      var all, init := a + b, b[..|b| - 1];
      assert all[..|all| - 1] == a + init && all[|all| - 1] == b[|b| - 1];
      TotalOfBoth(a, init);
    }
  }

  /** Whether the accumulator expired just before tick i. */
  predicate Gap(ticks: seq<Tick>, i: nat)
    requires i < |ticks|
  {
    i > 0 && ticks[i].at > ticks[i - 1].at + STORE_TTL
  }

  /** Where the last segment without a gap starts. */
  function Cut(ticks: seq<Tick>): (cut: nat)
    ensures ticks != [] ==> cut < |ticks|
    ensures 0 < cut < |ticks| ==> Gap(ticks, cut)
    ensures forall i :: cut < i < |ticks| ==> !Gap(ticks, i)
  {
    if |ticks| <= 1 || Gap(ticks, |ticks| - 1) then (if ticks == [] then 0 else |ticks| - 1)
    else
      var init := ticks[..|ticks| - 1];
      var cut := Cut(init);
      assert cut > 0 ==> Gap(init, cut);
      assert forall i :: cut < i < |ticks| ==> !Gap(ticks, i) by {
        forall i | cut < i < |ticks| ensures !Gap(ticks, i) {
          if i < |init| { assert !Gap(init, i); }
        }
      }
      cut
  }

  function Segment(messages: seq<Message>, market: MarketType, ts: int64): seq<Tick> {
    var ticks := TicksOf(messages, market, ts);
    ticks[Cut(ticks)..]
  }

  function Total(ticks: seq<Tick>): nat {
    if ticks == [] then 0 else Total(ticks[..|ticks| - 1]) + ticks[|ticks| - 1].price
  }

  predicate InOrder(messages: seq<Message>) {
    forall i, j :: 0 <= i < j < |messages| ==> messages[i].arrival <= messages[j].arrival
  }

  /** The exact total and number of the ticks, as the machine integers keep them. */
  function Machine(ticks: seq<Tick>): Totals {
    Totals(Total(ticks) % TWO_64, |ticks| % TWO_32)
  }

  /** The total fits 64 bits and the number 32. */
  predicate FitsMachine(ticks: seq<Tick>) {
    Total(ticks) < TWO_64 && |ticks| < TWO_32
  }

  /** The last tick is one too many for its segment: in a debug build the total or the number no longer
      fits, in a release build the number wraps to zero. */
  predicate Overflows(build: Build, ticks: seq<Tick>) {
    var segment := ticks[Cut(ticks)..];
    if build.Debug? then !FitsMachine(segment) else |segment| % TWO_32 == 0
  }

  /** What the provider holds for one product and second, in terms of the selected ticks. */
  ghost predicate Holds(build: Build, p: Product, ts: int64, ticks: seq<Tick>) {
    if ticks == [] then ts !in p.store && ts !in p.cache
    else
      var segment, last := ticks[Cut(ticks)..], ticks[|ticks| - 1].at;
      var totals := Machine(segment);
      && totals.count != 0 && (build.Debug? ==> FitsMachine(segment))
      && ts in p.store && p.store[ts] == Timed(totals, last)
      && ts in p.cache && p.cache[ts] == Timed(Mean(totals), last)
  }

  lemma DropAppend(ticks: seq<Tick>, tick: Tick, n: nat)
    requires n <= |ticks|
    ensures (ticks + [tick])[n..] == ticks[n..] + [tick]
  {
  }

  lemma CutGrows(ticks: seq<Tick>, tick: Tick)
    requires ticks != []
    ensures Cut(ticks + [tick]) == if tick.at > ticks[|ticks| - 1].at + STORE_TTL then |ticks| else Cut(ticks)
  {
    var more := ticks + [tick];
    assert more[|more| - 1] == tick && more[|more| - 2] == ticks[|ticks| - 1] && more[..|more| - 1] == ticks;
  }

  lemma SegmentGrows(ticks: seq<Tick>, tick: Tick)
    ensures
      var more := ticks + [tick];
      && (ticks == [] || tick.at > ticks[|ticks| - 1].at + STORE_TTL ==> more[Cut(more)..] == [tick])
      && (ticks != [] && tick.at <= ticks[|ticks| - 1].at + STORE_TTL ==>
            more[Cut(more)..] == ticks[Cut(ticks)..] + [tick])
  {
    if ticks != [] {
      CutGrows(ticks, tick);
      DropAppend(ticks, tick, if tick.at > ticks[|ticks| - 1].at + STORE_TTL then |ticks| else Cut(ticks));
    }
  }

  /** A price that arrives while the accumulator lives joins the segment. */
  lemma HoldsContinue(build: Build, p: Product, ts: int64, ticks: seq<Tick>, tick: Tick)
    requires Holds(build, p, ts, ticks) && ticks != []
    requires ticks[|ticks| - 1].at <= tick.at <= ticks[|ticks| - 1].at + STORE_TTL
    ensures
      match Accumulate(build, p, ts, tick.price, tick.at)
      case Success(q) => Holds(build, q, ts, ticks + [tick])
      case Failure(_) => Overflows(build, ticks + [tick])
  {
    SegmentGrows(ticks, tick);
    var segment, more := ticks[Cut(ticks)..], ticks + [tick];
    AddIsExact(build, segment, tick);
    assert more[|more| - 1] == tick && more[Cut(more)..] == segment + [tick];
    assert TtlGet(p.store, ts, STORE_TTL, tick.at) == Some(Machine(segment));
  }

  /** The first price, or one after a gap, starts a segment. */
  lemma HoldsStart(build: Build, p: Product, ts: int64, ticks: seq<Tick>, tick: Tick)
    requires Holds(build, p, ts, ticks)
    requires ticks != [] ==> tick.at > ticks[|ticks| - 1].at + STORE_TTL
    ensures Accumulate(build, p, ts, tick.price, tick.at).Success?
    ensures Holds(build, Accumulate(build, p, ts, tick.price, tick.at).value, ts, ticks + [tick])
  {
    SegmentGrows(ticks, tick);
    var more := ticks + [tick];
    SingleTick(tick);
    assert more[|more| - 1] == tick && Machine(more[Cut(more)..]) == Totals(tick.price, 1);
    assert Mean(Totals(tick.price, 1)) == tick.price;
    assert TtlGet(p.store, ts, STORE_TTL, tick.at).None?;
  }

  lemma HoldsStep(build: Build, p: Product, ts: int64, ticks: seq<Tick>, tick: Tick)
    requires Holds(build, p, ts, ticks)
    requires ticks != [] ==> ticks[|ticks| - 1].at <= tick.at
    ensures
      match Accumulate(build, p, ts, tick.price, tick.at)
      case Success(q) => Holds(build, q, ts, ticks + [tick])
      case Failure(_) => Overflows(build, ticks + [tick])
  {
    if ticks != [] && tick.at <= ticks[|ticks| - 1].at + STORE_TTL {
      HoldsContinue(build, p, ts, ticks, tick);
    } else {
      HoldsStart(build, p, ts, ticks, tick);
    }
  }

  lemma TotalGrows(ticks: seq<Tick>, tick: Tick)
    ensures Total(ticks + [tick]) == Total(ticks) + tick.price
  {
    assert (ticks + [tick])[..|ticks|] == ticks;
  }

  lemma AddWraps(total: nat, price: nat)
    ensures (total % TWO_64 + price) % TWO_64 == (total + price) % TWO_64
  {
  }

  lemma CountWraps(count: nat)
    ensures (count % TWO_32 + 1) % TWO_32 == (count + 1) % TWO_32
  {
  }

  lemma AddIsExact(build: Build, ticks: seq<Tick>, tick: Tick)
    requires build.Debug? ==> FitsMachine(ticks)
    ensures
      match Add(build, Machine(ticks), tick.price)
      case Success(next) => next == Machine(ticks + [tick]) && (build.Debug? ==> FitsMachine(ticks + [tick]))
      case Failure(_) => build.Debug? && !FitsMachine(ticks + [tick])
  {
    TotalGrows(ticks, tick);
    Small(Total(ticks), |ticks|);
    Small(Total(ticks) % TWO_64 + tick.price, |ticks| % TWO_32 + 1);
    Small(Total(ticks + [tick]), |ticks| + 1);
    AddWraps(Total(ticks), tick.price);
    CountWraps(|ticks|);
  }

  lemma SingleTick(tick: Tick)
    ensures Machine([tick]) == Totals(tick.price, 1) && FitsMachine([tick])
  {
    TotalGrows([], tick);
    assert [] + [tick] == [tick];
  }

  lemma Small(total: nat, count: nat)
    ensures total < TWO_64 ==> total % TWO_64 == total
    ensures count < TWO_32 ==> count % TWO_32 == count
  {
  }

  /** While total and number fit, the machine's mean is the exact one, rounded down. */
  lemma MeanIsExact(ticks: seq<Tick>)
    requires ticks != [] && FitsMachine(ticks)
    ensures Machine(ticks) == Totals(Total(ticks), |ticks|) && Mean(Machine(ticks)) == Total(ticks) / |ticks|
  {
    Small(Total(ticks), |ticks|);
  }

  lemma {:induction false} TicksHaveArrived(messages: seq<Message>, market: MarketType, ts: int64)
    requires InOrder(messages)
    ensures TicksOf(messages, market, ts) != [] ==>
              messages != [] && TicksOf(messages, market, ts)[|TicksOf(messages, market, ts)| - 1].at <= messages[|messages| - 1].arrival
  {
    if messages != [] {
      TicksHaveArrived(messages[..|messages| - 1], market, ts);
    }
  }

  /** After any stream of messages, over all products and seconds, every entry is the one the selected
      ticks determine. */
  lemma {:induction false} StreamHolds(build: Build, messages: seq<Message>, market: MarketType, ts: int64)
    requires InOrder(messages) && Play(build, NO_TICKS, messages).Success?
    ensures Holds(build, Play(build, NO_TICKS, messages).value.At(market), ts, TicksOf(messages, market, ts))
  {
    if messages != [] {
      var init, m := messages[..|messages| - 1], messages[|messages| - 1];
      StreamHolds(build, init, market, ts);
      TicksHaveArrived(init, market, ts);
      HoldsAfter(build, Play(build, NO_TICKS, init).value, m, market, ts, TicksOf(init, market, ts));
    }
  }

  lemma HoldsAfter(build: Build, feed: Feed, m: Message, market: MarketType, ts: int64, ticks: seq<Tick>)
    requires OnMessage(build, feed, m).Success? && Holds(build, feed.At(market), ts, ticks)
    requires ticks != [] ==> ticks[|ticks| - 1].at <= m.arrival
    ensures
      var tick := TickOf(m, market, ts);
      Holds(build, OnMessage(build, feed, m).value.At(market), ts, ticks + if tick.Some? then [tick.value] else [])
  {
    var tick := TickOf(m, market, ts);
    if tick.Some? {
      HoldsStep(build, feed.At(market), ts, ticks, tick.value);
    } else {
      Untouched(build, feed, m, market, ts);
      assert ticks + [] == ticks;
    }
  }

  lemma Untouched(build: Build, feed: Feed, m: Message, market: MarketType, ts: int64)
    requires OnMessage(build, feed, m).Success? && TickOf(m, market, ts).None?
    ensures
      var p, q := feed.At(market), OnMessage(build, feed, m).value.At(market);
      && (ts in q.store <==> ts in p.store) && (ts in p.store ==> q.store[ts] == p.store[ts])
      && (ts in q.cache <==> ts in p.cache) && (ts in p.cache ==> q.cache[ts] == p.cache[ts])
  {
  }

  predicate NoGaps(ticks: seq<Tick>) {
    forall i :: 0 <= i < |ticks| ==> !Gap(ticks, i)
  }

  /** Without a gap no tick of the second is left out. */
  lemma WithoutGapsAllTicksCount(messages: seq<Message>, market: MarketType, ts: int64)
    requires NoGaps(TicksOf(messages, market, ts))
    ensures Segment(messages, market, ts) == TicksOf(messages, market, ts)
  {
    var ticks := TicksOf(messages, market, ts);
    if ticks != [] && Cut(ticks) > 0 {
      assert false;
    }
  }

  lemma HeldPrice(build: Build, p: Product, ts: int64, ticks: seq<Tick>, now: nat)
    requires Holds(build, p, ts, ticks)
    ensures
      var published, segment := TtlGet(p.cache, ts, CACHE_TTL, now), ticks[Cut(ticks)..];
      && (published.Some? <==> ticks != [] && now <= ticks[|ticks| - 1].at + CACHE_TTL)
      && (published.Some? ==>
            && segment != [] && Machine(segment).count != 0 && published.value == Mean(Machine(segment))
            && (build.Debug? ==> FitsMachine(segment)))
  {
    if ticks != [] {
      var totals := Machine(ticks[Cut(ticks)..]);
      assert p.cache[ts] == Timed(Mean(totals), ticks[|ticks| - 1].at);
    }
  }

  /** The published price: a live entry is the mean, rounded down, of exactly that product's ticks of that
      second since the last expiry of the accumulator, as the machine integers give it. */
  lemma PublishedMean(build: Build, messages: seq<Message>, market: MarketType, ts: int64, now: nat)
    requires InOrder(messages) && Play(build, NO_TICKS, messages).Success?
    ensures
      var published := TtlGet(Play(build, NO_TICKS, messages).value.At(market).cache, ts, CACHE_TTL, now);
      var ticks, segment := TicksOf(messages, market, ts), Segment(messages, market, ts);
      && (published.Some? <==> ticks != [] && now <= ticks[|ticks| - 1].at + 3_600_000)
      && (published.Some? ==>
            && segment != [] && Machine(segment).count != 0 && published.value == Mean(Machine(segment))
            && (build.Debug? ==> FitsMachine(segment)))
  {
    StreamHolds(build, messages, market, ts);
    HeldPrice(build, Play(build, NO_TICKS, messages).value.At(market), ts, TicksOf(messages, market, ts), now);
  }

  /** Filter, then average: while the sums fit, as in a debug build they always do, a live entry is the exact
      mean, rounded down, of the ticks since the last expiry of the accumulator; and of all the ticks of the
      second when it never expired. */
  lemma LivePriceIsTheFloorMean(build: Build, messages: seq<Message>, market: MarketType, ts: int64, now: nat)
    requires InOrder(messages) && Play(build, NO_TICKS, messages).Success?
    requires build.Release? ==> FitsMachine(Segment(messages, market, ts))
    ensures
      var published := TtlGet(Play(build, NO_TICKS, messages).value.At(market).cache, ts, CACHE_TTL, now);
      var ticks, segment := TicksOf(messages, market, ts), Segment(messages, market, ts);
      published.Some? ==>
        && segment != [] && published.value == Total(segment) / |segment|
        && (NoGaps(ticks) ==> segment == ticks)
  {
    PublishedMean(build, messages, market, ts, now);
    var segment := Segment(messages, market, ts);
    if segment != [] && FitsMachine(segment) {
      MeanIsExact(segment);
    }
    if NoGaps(TicksOf(messages, market, ts)) {
      WithoutGapsAllTicksCount(messages, market, ts);
    }
  }

  /** The ticks of a second that carry a product's name. */
  function NamedTicks(messages: seq<Message>, product: string, ts: int64): seq<Tick> {
    if messages == [] then []
    else
      var m := messages[0];
      (if m.ticker.Some? && m.ticker.value.product == product && m.ticker.value.timestamp == ts && m.ticker.value.price.Some?
       then [Tick(m.ticker.value.price.value, m.arrival)] else [])
      + NamedTicks(messages[1..], product, ts)
  }

  lemma {:induction false} TicksAreNamed(messages: seq<Message>, market: MarketType, product: string, ts: int64)
    requires product == match market case Btc => "BTC-USD" case Eth => "ETH-USD" case Sol => "SOL-USD"
    ensures TicksOf(messages, market, ts) == NamedTicks(messages, product, ts)
  {
    if messages != [] {
      assert messages == [messages[0]] + messages[1..];
      TicksInOrder([messages[0]], messages[1..], market, ts);
      OneMessage(messages[0], market, ts);
      TicksAreNamed(messages[1..], market, product, ts);
    }
  }

  /** A cache entry is live exactly for an hour after the last of the ticks, and is the mean of those since
      the accumulator last expired. */
  ghost predicate LiveMean(cache: TtlCache<uint64>, ticks: seq<Tick>, ts: int64, now: nat) {
    var published, segment := TtlGet(cache, ts, 3_600_000, now), ticks[Cut(ticks)..];
    && (published.Some? <==> ticks != [] && now <= ticks[|ticks| - 1].at + 3_600_000)
    && (published.Some? ==>
          segment != [] && Machine(segment).count != 0 && published.value == Mean(Machine(segment)))
  }

  lemma NamedMean(build: Build, messages: seq<Message>, market: MarketType, product: string, ts: int64, now: nat)
    requires InOrder(messages) && Play(build, NO_TICKS, messages).Success?
    requires product == match market case Btc => "BTC-USD" case Eth => "ETH-USD" case Sol => "SOL-USD"
    ensures LiveMean(Play(build, NO_TICKS, messages).value.At(market).cache, NamedTicks(messages, product, ts), ts, now)
  {
    PublishedMean(build, messages, market, ts, now);
    TicksAreNamed(messages, market, product, ts);
  }

  /** Each of the three caches holds the means of exactly its own product. */
  lemma EachCacheHasItsProduct(build: Build, messages: seq<Message>, ts: int64, now: nat)
    requires InOrder(messages) && Play(build, NO_TICKS, messages).Success?
    ensures
      var feed := Play(build, NO_TICKS, messages).value;
      && LiveMean(feed.btc.cache, NamedTicks(messages, "BTC-USD", ts), ts, now)
      && LiveMean(feed.eth.cache, NamedTicks(messages, "ETH-USD", ts), ts, now)
      && LiveMean(feed.sol.cache, NamedTicks(messages, "SOL-USD", ts), ts, now)
  {
    NamedMean(build, messages, Btc, "BTC-USD", ts, now);
    NamedMean(build, messages, Eth, "ETH-USD", ts, now);
    NamedMean(build, messages, Sol, "SOL-USD", ts, now);
  }

  /** A mean of prices of at most `bound`, in numbers for which their sum fits 64 bits, never wraps. */
  lemma {:induction false} TotalBound(ticks: seq<Tick>, bound: nat)
    requires forall t :: t in ticks ==> t.price <= bound
    ensures Total(ticks) <= |ticks| * bound
  {
    if ticks != [] {
      TotalBound(ticks[..|ticks| - 1], bound);
    }
  }

  /** Few enough ticks of bounded price: every sum of them fits 64 bits, and their number 32. */
  ghost predicate Fits(ticks: seq<Tick>, bound: nat) {
    |ticks| < TWO_32 && |ticks| * bound < TWO_64 && forall t :: t in ticks ==> t.price <= bound
  }

  /** With bounded prices the stream never panics, and every total and count that the machine holds is
      the exact one, at every point of the stream. */
  lemma {:induction false} MachineArithmeticIsExact(build: Build, messages: seq<Message>, bound: nat)
    requires InOrder(messages)
    requires forall market, ts: int64 :: Fits(TicksOf(messages, market, ts), bound)
    ensures Play(build, NO_TICKS, messages).Success?
    ensures forall market, ts: int64 :: TicksOf(messages, market, ts) != [] ==>
              ExactTotals(Play(build, NO_TICKS, messages).value.At(market), ts, Segment(messages, market, ts))
  {
    if messages != [] {
      var init, m := messages[..|messages| - 1], messages[|messages| - 1];
      forall market, ts: int64 ensures Fits(TicksOf(init, market, ts), bound) {
        assert Fits(TicksOf(messages, market, ts), bound);
        FewerTicks(|TicksOf(init, market, ts)|, |TicksOf(messages, market, ts)|, bound);
      }
      MachineArithmeticIsExact(build, init, bound);
      assert init + [m] == messages;
      NoPanic(build, init, m, bound);
      forall market, ts: int64 | TicksOf(messages, market, ts) != []
        ensures ExactTotals(Play(build, NO_TICKS, messages).value.At(market), ts, Segment(messages, market, ts))
      {
        assert Fits(TicksOf(messages, market, ts), bound);
        ExactAt(build, messages, market, ts, bound);
      }
    }
  }

  lemma ExactAt(build: Build, messages: seq<Message>, market: MarketType, ts: int64, bound: nat)
    requires InOrder(messages) && Play(build, NO_TICKS, messages).Success?
    requires Fits(TicksOf(messages, market, ts), bound) && TicksOf(messages, market, ts) != []
    ensures ExactTotals(Play(build, NO_TICKS, messages).value.At(market), ts, Segment(messages, market, ts))
  {
    StreamHolds(build, messages, market, ts);
    var ticks, segment := TicksOf(messages, market, ts), Segment(messages, market, ts);
    SegmentFits(ticks, bound);
    MeanIsExact(segment);
  }

  ghost predicate ExactTotals(p: Product, ts: int64, segment: seq<Tick>) {
    && ts in p.store
    && p.store[ts].value.total == Total(segment) && p.store[ts].value.count == |segment|
  }

  lemma FewerTicks(a: nat, b: nat, bound: nat)
    requires a <= b
    ensures a * bound <= b * bound
  {
  }

  /** Exactly when a message makes the loop panic: it carries the price with which, in a debug build, the total
      or the number of ticks since the last expiry overflows, and in a release build their number wraps to zero. */
  lemma PanicsExactlyWhen(build: Build, init: seq<Message>, m: Message)
    requires InOrder(init + [m]) && Play(build, NO_TICKS, init).Success?
    ensures Play(build, NO_TICKS, init + [m]).Failure? <==>
            exists market, ts: int64 :: TickOf(m, market, ts).Some? && Overflows(build, TicksOf(init + [m], market, ts))
  {
    var messages := init + [m];
    assert messages[..|init|] == init;
    if m.ticker.Some? && MarketOf(m.ticker.value.product).Some? && m.ticker.value.price.Some? {
      TickPanicsExactlyWhen(build, init, m, MarketOf(m.ticker.value.product).value, m.ticker.value.timestamp);
    }
  }

  /** Everything heard up to an instant, and in order. */
  ghost predicate HeardBy(messages: seq<Message>, instant: nat) {
    InOrder(messages) && forall i :: 0 <= i < |messages| ==> messages[i].arrival <= instant
  }

  lemma HeardNext(messages: seq<Message>, m: Message, instant: nat)
    requires HeardBy(messages, instant) && m.arrival == instant
    ensures HeardBy(messages + [m], instant)
  {
  }

  lemma InOrderBefore(init: seq<Message>, m: Message)
    requires InOrder(init + [m])
    ensures InOrder(init) && (init != [] ==> init[|init| - 1].arrival <= m.arrival)
  {
    var messages := init + [m];
    assert forall i :: 0 <= i < |init| ==> messages[i] == init[i];
    if init != [] {
      assert messages[|init| - 1].arrival <= messages[|init|].arrival;
    }
  }

  lemma OnTick(build: Build, feed: Feed, m: Message, market: MarketType, ts: int64)
    requires TickOf(m, market, ts).Some?
    ensures
      var tick := TickOf(m, market, ts).value;
      OnMessage(build, feed, m).Failure? <==> Accumulate(build, feed.At(market), ts, tick.price, tick.at).Failure?
  {
  }

  lemma TickPanicsExactlyWhen(build: Build, init: seq<Message>, m: Message, market: MarketType, ts: int64)
    requires InOrder(init + [m]) && Play(build, NO_TICKS, init).Success? && TickOf(m, market, ts).Some?
    ensures OnMessage(build, Play(build, NO_TICKS, init).value, m).Failure? <==> Overflows(build, TicksOf(init + [m], market, ts))
  {
    InOrderBefore(init, m);
    StreamHolds(build, init, market, ts);
    TicksHaveArrived(init, market, ts);
    var ticks, tick := TicksOf(init, market, ts), TickOf(m, market, ts).value;
    OneMoreTick(init, m, market, ts);
    OnTick(build, Play(build, NO_TICKS, init).value, m, market, ts);
    AccumulateFailsWhen(build, Play(build, NO_TICKS, init).value.At(market), ts, ticks, tick);
  }

  lemma OneMoreTick(init: seq<Message>, m: Message, market: MarketType, ts: int64)
    requires TickOf(m, market, ts).Some?
    ensures TicksOf(init + [m], market, ts) == TicksOf(init, market, ts) + [TickOf(m, market, ts).value]
  {
    assert (init + [m])[..|init|] == init;
  }

  lemma AccumulateFailsWhen(build: Build, p: Product, ts: int64, ticks: seq<Tick>, tick: Tick)
    requires Holds(build, p, ts, ticks) && (ticks != [] ==> ticks[|ticks| - 1].at <= tick.at)
    ensures Accumulate(build, p, ts, tick.price, tick.at).Failure? <==> Overflows(build, ticks + [tick])
  {
    HoldsStep(build, p, ts, ticks, tick);
  }

  lemma SegmentFits(ticks: seq<Tick>, bound: nat)
    requires Fits(ticks, bound)
    ensures FitsMachine(ticks[Cut(ticks)..])
  {
    var segment := ticks[Cut(ticks)..];
    TotalBound(segment, bound);
    FewerTicks(|segment|, |ticks|, bound);
  }

  lemma FewNeverOverflow(build: Build, ticks: seq<Tick>, bound: nat)
    requires ticks != [] && Fits(ticks, bound)
    ensures !Overflows(build, ticks)
  {
    SegmentFits(ticks, bound);
    Small(Total(ticks[Cut(ticks)..]), |ticks[Cut(ticks)..]|);
  }

  lemma NoPanic(build: Build, init: seq<Message>, m: Message, bound: nat)
    requires InOrder(init + [m]) && Play(build, NO_TICKS, init).Success?
    requires forall market, ts: int64 :: Fits(TicksOf(init + [m], market, ts), bound)
    ensures Play(build, NO_TICKS, init + [m]).Success?
  {
    PanicsExactlyWhen(build, init, m);
    if market, ts: int64 :| TickOf(m, market, ts).Some? && Overflows(build, TicksOf(init + [m], market, ts)) {
      OneMoreTick(init, m, market, ts);
      FewNeverOverflow(build, TicksOf(init + [m], market, ts), bound);
    }
  }

  /** The provider with its three published caches. */
  class CoinbaseProvider {
    var btc: TtlCache<uint64>
    var eth: TtlCache<uint64>
    var sol: TtlCache<uint64>

    constructor ()
      ensures btc == map[] && eth == map[] && sol == map[]
    {
      btc, eth, sol := map[], map[], map[];
    }

    /** One price: the running mean in the temporary store, published in the cache. */
    static method Record(build: Build, store: TtlCache<Totals>, cache: TtlCache<uint64>,
                         timestamp: int64, price: uint64, now: nat)
      returns (newStore: TtlCache<Totals>, newCache: TtlCache<uint64>, panicked: bool)
      ensures
        match Accumulate(build, Product(store, cache), timestamp, price, now)
        case Success(p) => !panicked && newStore == p.store && newCache == p.cache
        case Failure(_) => panicked
    {
      newStore, newCache := store, cache;
      var average := price;
      var entry := TtlGet(store, timestamp, STORE_TTL, now);
      if entry.Some? {
        var total, count := Fit(build, entry.value.total + price), Fit32(build, entry.value.count + 1);
        if total.Failure? || count.Failure? { return newStore, newCache, true; }
        newStore := newStore[timestamp := Timed(Totals(total.value, count.value), now)];
        if count.value == 0 { return newStore, newCache, true; }
        average := Mean(Totals(total.value, count.value));
      } else {
        newStore := newStore[timestamp := Timed(Totals(price, 1), now)];
      }
      newCache := newCache[timestamp := Timed(average, now)];
      panicked := false;
    }

    /** The receive loop, with its three temporary stores, over the messages received. */
    method Watch(build: Build, messages: seq<Message>) returns (panicked: bool)
      modifies this
      ensures
        var start := PerMarket(Product(map[], old(btc)), Product(map[], old(eth)), Product(map[], old(sol)));
        match Play(build, start, messages)
        case Success(feed) => !panicked && btc == feed.btc.cache && eth == feed.eth.cache && sol == feed.sol.cache
        case Failure(_) => panicked
    {
      ghost var start := PerMarket(Product(map[], btc), Product(map[], eth), Product(map[], sol));
      var btcStore: TtlCache<Totals>, ethStore: TtlCache<Totals>, solStore: TtlCache<Totals> := map[], map[], map[];
      for i := 0 to |messages|
        invariant Play(build, start, messages[..i]) ==
                  Success(PerMarket(Product(btcStore, btc), Product(ethStore, eth), Product(solStore, sol)))
      {
        var m := messages[i];
        assert messages[..i + 1][..i] == messages[..i];
        StopsAt(build, start, messages, i + 1);
        if m.ticker.None? { continue; }
        var ticker := m.ticker.value;
        var store: TtlCache<Totals>, cache: TtlCache<uint64>;
        if ticker.product == "BTC-USD" {
          store, cache := btcStore, btc;
        } else if ticker.product == "ETH-USD" {
          store, cache := ethStore, eth;
        } else if ticker.product == "SOL-USD" {
          store, cache := solStore, sol;
        } else {
          continue;
        }
        if ticker.price.None? { continue; }
        var ended;
        store, cache, ended := Record(build, store, cache, ticker.timestamp, ticker.price.value, m.arrival);
        if ended { return true; }
        if ticker.product == "BTC-USD" {
          btcStore, btc := store, cache;
        } else if ticker.product == "ETH-USD" {
          ethStore, eth := store, cache;
        } else {
          solStore, sol := store, cache;
        }
      }
      assert messages[..|messages|] == messages;
      panicked := false;
    }
  }

  /** A panic ends the run: nothing received later matters. */
  lemma {:induction false} StopsAt(build: Build, start: Feed, messages: seq<Message>, n: nat)
    requires n <= |messages|
    ensures Play(build, start, messages[..n]).Failure? ==> Play(build, start, messages).Failure?
    decreases |messages|
  {
    if n < |messages| {
      var init := messages[..|messages| - 1];
      StopsAt(build, start, init, n);
      assert init[..n] == messages[..n];
    } else {
      assert messages[..n] == messages;
    }
  }
}
