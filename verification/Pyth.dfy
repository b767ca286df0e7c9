/** The loop of the Pyth provider that stores fetched prices in the cache of their market. */
module Pyth {
  import opened MachineIntegers
  import opened Wrappers
  import opened Addresses
  import opened PythScaling
  import TimestampCache

  const BTC_FEED := "e6" + "2df6c8b4a85fe1a67db44dc12de5db330f7ac66b72dc658afedf0f4a415b43"
  const ETH_FEED := "ff" + "61491a931112ddf1bd8147cd1b641375f79f5825126d665480874634fd0ace"
  const SOL_FEED := "ef" + "0d8b6fda2ceba41da15d4095d1da392a0d2f8ed0c6c7bc0f4cfac8c280b56d"

  function FeedOf(m: MarketType): string {
    match m
    case Btc => BTC_FEED
    case Eth => ETH_FEED
    case Sol => SOL_FEED
  }

  /** What a request for one price brings: an unsuccessful status, or a quote. */
  datatype Answer = Refused | Answered(info: PriceInfo)

  /** What fetching one price gives to the cache, or the panic of the scaling. */
  function FetchPrice(build: Build, answer: Answer): Result<TimestampCache.Fetched, Panic> {
    match answer
    case Refused => Success(Failure(TimestampCache.NetworkError))
    case Answered(info) =>
      match ToFixedPrecision(build, info)
      case Success(v) => Success(Success(v))
      case Failure(e) => Failure(e)
  }

  datatype ApiPrice = ApiPrice(id: string, info: PriceInfo)

  /** Whether handling a price panics: its time does not fit a signed number, or its scaling panics. */
  predicate Panics(build: Build, price: ApiPrice) {
    price.info.publishTime >= TWO_63 || ToFixedPrecision(build, price.info).Failure?
  }

  predicate AnyPanics(build: Build, prices: seq<ApiPrice>) {
    exists p :: p in prices && Panics(build, p)
  }

  /** The text is not a number, the exponent is above 9, or, in a debug build only, it is below -9 or the
      product does not fit 64 bits. */
  predicate Unscalable(build: Build, info: PriceInfo) {
    || info.price.None? || info.expo > 9
    || (build.Debug? && (info.expo < -9 || (info.expo < 0 && info.price.value > U64_MAX / Pow10(9 + info.expo))))
  }

  lemma ScalingPanicsExactlyWhen(build: Build, info: PriceInfo)
    ensures ToFixedPrecision(build, info).Failure? <==> Unscalable(build, info)
  {
    if info.price.Some? {
      Computed(build, info.price.value, info.expo, info.publishTime);
      if -9 <= info.expo < 0 {
        Bounded(info.price.value, Pow10(9 + info.expo), U64_MAX);
      }
    }
  }

  /** The identifiers of the three feeds. */
  lemma FeedIds()
    ensures FeedOf(Btc) == "e6" + "2df6c8b4a85fe1a67db44dc12de5db330f7ac66b72dc658afedf0f4a415b43"
    ensures FeedOf(Eth) == "ff" + "61491a931112ddf1bd8147cd1b641375f79f5825126d665480874634fd0ace"
    ensures FeedOf(Sol) == "ef" + "0d8b6fda2ceba41da15d4095d1da392a0d2f8ed0c6c7bc0f4cfac8c280b56d"
  {
  }

  predicate IsScaledQuote(info: PriceInfo, v: uint64) {
    info.price.Some? && IsScaled(info.price.value, info.expo, v)
  }

  /** What fetching one price gives: nothing but an error for a refused request; for a quote its scaled price,
      or a panic exactly when it cannot be scaled. */
  lemma FetchMeaning(build: Build, answer: Answer)
    ensures answer.Refused? ==> FetchPrice(build, answer) == Success(Failure(TimestampCache.NetworkError))
    ensures answer.Answered? ==>
              match FetchPrice(build, answer)
              case Failure(_) => Unscalable(build, answer.info)
              case Success(fetched) =>
                !Unscalable(build, answer.info) && fetched.Success? && IsScaledQuote(answer.info, fetched.value)
  {
    if answer.Answered? {
      ScalingPanicsExactlyWhen(build, answer.info);
      ScalingMeaning(build, answer.info);
    }
  }

  /** The `set` calls that a response makes on the cache of one feed, in order. */
  function SetsOf(build: Build, prices: seq<ApiPrice>, id: string): (sets: seq<TimestampCache.Action>)
    requires !AnyPanics(build, prices)
    ensures forall a :: a in sets ==> a.Set?
  {
    if prices == [] then []
    else
      var last := prices[|prices| - 1];
      assert last in prices && !Panics(build, last);
      SetsOf(build, prices[..|prices| - 1], id)
      + if last.id == id then [TimestampCache.Set(last.info.publishTime, ToFixedPrecision(build, last.info).value)] else []
  }

  /** One quote makes one call with its own second and its scaled price on the cache of its own feed. */
  lemma OneQuote(build: Build, p: ApiPrice, id: string)
    requires !Panics(build, p)
    ensures !AnyPanics(build, [p])
    ensures
      var sets := SetsOf(build, [p], id);
      if p.id == id then
        |sets| == 1 && sets[0].timestamp == p.info.publishTime && IsScaledQuote(p.info, sets[0].value)
      else sets == []
  {
    ScalingMeaning(build, p.info);
    assert [p][..0] == [];
  }

  /** The calls of two responses in a row are those of the first and then those of the second. */
  lemma {:induction false} QuotesInOrder(build: Build, a: seq<ApiPrice>, b: seq<ApiPrice>, id: string)
    requires !AnyPanics(build, a + b)
    ensures !AnyPanics(build, a) && !AnyPanics(build, b)
    ensures SetsOf(build, a + b, id) == SetsOf(build, a, id) + SetsOf(build, b, id)
    decreases |b|
  {
    assert (forall p :: p in a ==> p in a + b) && (forall p :: p in b ==> p in a + b);
    if b == [] {
      assert a + b == a;
    } else {
      assert (a + b)[..|a + b| - 1] == a + b[..|b| - 1];
      QuotesInOrder(build, a, b[..|b| - 1], id);
    }
  }

  function SetsFor(build: Build, prices: seq<ApiPrice>, m: MarketType): (sets: seq<TimestampCache.Action>)
    requires !AnyPanics(build, prices)
    ensures forall a :: a in sets ==> a.Set?
  {
    SetsOf(build, prices, FeedOf(m))
  }

  function AfterSets(s: TimestampCache.State, sets: seq<TimestampCache.Action>): TimestampCache.State
    requires forall a :: a in sets ==> a.Set?
  {
    if sets == [] then s
    else TimestampCache.Next(AfterSets(s, sets[..|sets| - 1]), sets[|sets| - 1])
  }

  /** After a response, each second that it quotes for a feed holds the last such quote, in a cell that was
      born full; no read that was waiting is disturbed. */
  lemma {:induction false} LastQuoteWins(s: TimestampCache.State, sets: seq<TimestampCache.Action>, i: nat)
    requires forall a :: a in sets ==> a.Set?
    requires i < |sets| && forall j :: i < j < |sets| ==> sets[j].timestamp != sets[i].timestamp
    ensures
      var t := AfterSets(s, sets);
      && sets[i].timestamp in t.data && t.data[sets[i].timestamp] < |t.cells|
      && t.cells[t.data[sets[i].timestamp]] ==
         TimestampCache.Cell(sets[i].timestamp, TimestampCache.Full, Some(sets[i].value), None)
      && t.gets == s.gets && |t.cells| >= |s.cells| && t.cells[..|s.cells|] == s.cells
    decreases |sets|
  {
    var init := sets[..|sets| - 1];
    SetsKeep(s, init);
    if i < |init| {
      LastQuoteWins(s, init, i);
    }
  }

  /** Every call stands for a quote of the response. */
  lemma {:induction false} EachSetIsAQuote(build: Build, prices: seq<ApiPrice>, id: string, i: nat)
    requires !AnyPanics(build, prices) && i < |SetsOf(build, prices, id)|
    ensures
      var call := SetsOf(build, prices, id)[i];
      exists p :: p in prices && p.id == id && p.info.publishTime == call.timestamp && IsScaledQuote(p.info, call.value)
    decreases |prices|
  {
    var init, last := prices[..|prices| - 1], prices[|prices| - 1];
    assert last in prices && forall p :: p in init ==> p in prices;
    if i < |SetsOf(build, init, id)| {
      EachSetIsAQuote(build, init, id, i);
    } else {
      ScalingMeaning(build, last.info);
    }
  }

  /** The calls add one full cell each, in order. */
  lemma {:induction false} NewCells(s: TimestampCache.State, sets: seq<TimestampCache.Action>, i: nat)
    requires (forall a :: a in sets ==> a.Set?) && i < |sets|
    ensures
      var cells := AfterSets(s, sets).cells;
      && |cells| == |s.cells| + |sets|
      && cells[|s.cells| + i] == TimestampCache.Cell(sets[i].timestamp, TimestampCache.Full, Some(sets[i].value), None)
    decreases |sets|
  {
    var init := sets[..|sets| - 1];
    CellCount(s, init);
    if i < |init| {
      NewCells(s, init, i);
    }
  }

  lemma {:induction false} CellCount(s: TimestampCache.State, sets: seq<TimestampCache.Action>)
    requires forall a :: a in sets ==> a.Set?
    ensures |AfterSets(s, sets).cells| == |s.cells| + |sets|
    decreases |sets|
  {
    if sets != [] {
      CellCount(s, sets[..|sets| - 1]);
    }
  }

  /** A cell after a response is an old one, or stands for one of its quotes. */
  lemma CellAfterResponse(build: Build, s: TimestampCache.State, prices: seq<ApiPrice>, id: string, c: nat)
    requires !AnyPanics(build, prices) && c < |AfterSets(s, SetsOf(build, prices, id)).cells|
    ensures
      var cell := AfterSets(s, SetsOf(build, prices, id)).cells[c];
      || (c < |s.cells| && cell == s.cells[c])
      || (cell.value.Some?
          && exists p :: p in prices && p.id == id && p.info.publishTime == cell.timestamp && IsScaledQuote(p.info, cell.value.value))
  {
    var sets := SetsOf(build, prices, id);
    SetsKeep(s, sets);
    CellCount(s, sets);
    if c < |s.cells| {
      assert AfterSets(s, sets).cells[..|s.cells|][c] == s.cells[c];
    } else {
      NewCells(s, sets, c - |s.cells|);
      EachSetIsAQuote(build, prices, id, c - |s.cells|);
    }
  }

  /** After a response each second that it quotes for a feed holds the scaled price of the last such quote. */
  lemma {:induction false} LastPriceWins(build: Build, s: TimestampCache.State, prices: seq<ApiPrice>, id: string, i: nat)
    requires !AnyPanics(build, prices) && i < |prices| && prices[i].id == id
    requires forall j :: i < j < |prices| && prices[j].id == id ==> prices[j].info.publishTime != prices[i].info.publishTime
    ensures
      var t, ts := AfterSets(s, SetsOf(build, prices, id)), prices[i].info.publishTime;
      && 0 <= ts < TWO_63 && ts in t.data && t.data[ts] < |t.cells|
      && t.cells[t.data[ts]].value.Some? && IsScaledQuote(prices[i].info, t.cells[t.data[ts]].value.value)
    decreases |prices|
  {
    var init, last := prices[..|prices| - 1], prices[|prices| - 1];
    assert last in prices && !Panics(build, last) && forall p :: p in init ==> p in prices;
    LastStep(build, s, init, last, id);
    assert init + [last] == prices;
    if i < |init| {
      LastPriceWins(build, s, init, id, i);
    } else {
      ScalingMeaning(build, last.info);
    }
  }

  lemma LastStep(build: Build, s: TimestampCache.State, init: seq<ApiPrice>, last: ApiPrice, id: string)
    requires !AnyPanics(build, init) && !AnyPanics(build, init + [last]) && !Panics(build, last)
    ensures
      var before, after := AfterSets(s, SetsOf(build, init, id)), AfterSets(s, SetsOf(build, init + [last], id));
      after == if last.id == id
               then TimestampCache.Next(before, TimestampCache.Set(last.info.publishTime, ToFixedPrecision(build, last.info).value))
               else before
  {
    var prices := init + [last];
    assert prices[..|init|] == init && prices[|init|] == last;
    var sets, more := SetsOf(build, init, id), SetsOf(build, prices, id);
    if last.id == id {
      assert more[..|more| - 1] == sets;
    } else {
      assert sets + [] == sets;
    }
  }

  lemma {:induction false} SetsKeep(s: TimestampCache.State, sets: seq<TimestampCache.Action>)
    requires forall a :: a in sets ==> a.Set?
    ensures
      var t := AfterSets(s, sets);
      t.gets == s.gets && |t.cells| >= |s.cells| && t.cells[..|s.cells|] == s.cells
    decreases |sets|
  {
    if sets != [] {
      SetsKeep(s, sets[..|sets| - 1]);
    }
  }

  /** The calls of a response are sections of the cache's run, and keep its invariant. */
  lemma {:induction false} SetsRun(run: seq<TimestampCache.Action>, sets: seq<TimestampCache.Action>)
    requires TimestampCache.After(run).Some? && TimestampCache.Inv(TimestampCache.After(run).value)
    requires forall a :: a in sets ==> a.Set?
    ensures TimestampCache.After(run + sets) == Some(AfterSets(TimestampCache.After(run).value, sets))
    ensures TimestampCache.Inv(AfterSets(TimestampCache.After(run).value, sets))
    decreases |sets|
  {
    if sets == [] {
      assert run + sets == run;
    } else {
      var init, last := sets[..|sets| - 1], sets[|sets| - 1];
      SetsRun(run, init);
      assert (run + sets)[..|run + sets| - 1] == run + init;
      TimestampCache.InvStep(AfterSets(TimestampCache.After(run).value, init), last);
    }
  }

  function Stored(s: TimestampCache.State, same: bool, timestamp: int64, value: uint64): TimestampCache.State {
    if same then TimestampCache.Next(s, TimestampCache.Set(timestamp, value)) else s
  }

  /** The provider with its three caches. */
  class PythProvider {
    const btc: TimestampCache.Cache
    const eth: TimestampCache.Cache
    const sol: TimestampCache.Cache

    constructor ()
      ensures fresh(btc) && fresh(eth) && fresh(sol) && btc != eth && btc != sol && eth != sol
      ensures btc.View() == eth.View() == sol.View() == TimestampCache.EMPTY_CACHE
    {
      btc := new TimestampCache.Cache();
      eth := new TimestampCache.Cache();
      sol := new TimestampCache.Cache();
    }

    /** A quote goes to the cache of its feed, and to no other. */
    method Store(id: string, timestamp: int64, value: uint64)
      requires btc != eth && btc != sol && eth != sol
      modifies btc, eth, sol
      ensures btc.View() == Stored(old(btc.View()), id == FeedOf(Btc), timestamp, value)
      ensures eth.View() == Stored(old(eth.View()), id == FeedOf(Eth), timestamp, value)
      ensures sol.View() == Stored(old(sol.View()), id == FeedOf(Sol), timestamp, value)
    {
      assert BTC_FEED[..2] == "e6" && ETH_FEED[..2] == "ff" && SOL_FEED[..2] == "ef";
      if id == BTC_FEED {
        btc.Set(timestamp, value);
      } else if id == ETH_FEED {
        eth.Set(timestamp, value);
      } else if id == SOL_FEED {
        sol.Set(timestamp, value);
      }
    }

    /** The loop over a response. It stops with a panic at the first price that it cannot handle; otherwise
        every cache has exactly the `set` calls of its own feed. */
    method Fetch(build: Build, prices: seq<ApiPrice>) returns (panicked: bool)
      requires btc != eth && btc != sol && eth != sol
      modifies btc, eth, sol
      ensures panicked <==> AnyPanics(build, prices)
      ensures !panicked ==>
                && btc.View() == AfterSets(old(btc.View()), SetsFor(build, prices, Btc))
                && eth.View() == AfterSets(old(eth.View()), SetsFor(build, prices, Eth))
                && sol.View() == AfterSets(old(sol.View()), SetsFor(build, prices, Sol))
    {
      for i := 0 to |prices|
        invariant !AnyPanics(build, prices[..i])
        invariant btc.View() == AfterSets(old(btc.View()), SetsFor(build, prices[..i], Btc))
        invariant eth.View() == AfterSets(old(eth.View()), SetsFor(build, prices[..i], Eth))
        invariant sol.View() == AfterSets(old(sol.View()), SetsFor(build, prices[..i], Sol))
      {
        var price := prices[i];
        assert price in prices;
        if price.info.publishTime >= TWO_63 { return true; }
        var value := ToFixedPrecision(build, price.info);
        if value.Failure? { return true; }
        OneMore(build, old(btc.View()), prices, i, FeedOf(Btc));
        OneMore(build, old(eth.View()), prices, i, FeedOf(Eth));
        OneMore(build, old(sol.View()), prices, i, FeedOf(Sol));
        Store(price.id, price.info.publishTime, value.value);
      }
      assert prices[..|prices|] == prices;
      panicked := false;
    }
  }

  lemma OneMore(build: Build, s: TimestampCache.State, prices: seq<ApiPrice>, i: nat, id: string)
    requires i < |prices| && !AnyPanics(build, prices[..i]) && !Panics(build, prices[i])
    ensures !AnyPanics(build, prices[..i + 1])
    ensures
      var before, after := SetsOf(build, prices[..i], id), SetsOf(build, prices[..i + 1], id);
      var value := ToFixedPrecision(build, prices[i].info).value;
      AfterSets(s, after) == Stored(AfterSets(s, before), prices[i].id == id, prices[i].info.publishTime, value)
  {
    var now := prices[..i + 1];
    assert now[..|now| - 1] == prices[..i] && now[|now| - 1] == prices[i];
    forall p | p in now ensures !Panics(build, p) {
      assert p in prices[..i] || p == prices[i];
    }
    var before, after := SetsOf(build, prices[..i], id), SetsOf(build, now, id);
    if prices[i].id == id {
      assert after[..|after| - 1] == before;
    } else {
      assert before + [] == before;
    }
  }
}
