/** Where the price of a closed order comes from. */
module PriceTheorems {
  import opened MachineIntegers
  import opened Wrappers
  import opened Addresses
  import opened BackfillProgram
  import opened ProgramHistory
  import opened ProgramTheorems
  import opened WorkerClaims
  import opened FulfilmentSystem
  import opened SystemInvariants
  import CacheRuns
  import Coinbase
  import Pricing

  /** The claim behind a transaction names the order's opening time for sure: it came from a poll, or from
      the logs of a transaction that was executed. */
  predicate TrustedOrigin(s: System, origin: Origin) {
    match origin
    case Polled => true
    case Delivered(e) => e < |s.emitted| && s.emitted[e].committed
  }

  /** The claim was polled, or the event that it came from names this time. */
  predicate NamesTime(s: System, origin: Origin, time: int64) {
    match origin
    case Polled => true
    case Delivered(e) => e < |s.emitted| && s.emitted[e].event.timestamp == time
  }

  /** Transaction n of the worker closed the order with a quote for the order's own market. */
  ghost predicate ClosedWithQuote(cfg: Config, s: System, k: Pubkey, n: nat) {
    && n < |s.sent| && s.sent[n].order == k && s.sent[n].status.Executed?
    && HasOrder(Accounts(cfg, s.log), k)
    && s.sent[n].quote < |s.quotes| && QuoteInv(cfg, s, s.sent[n].quote)
    && var order, quote := Accounts(cfg, s.log)[k].order, s.quotes[s.sent[n].quote];
       && order.openOrder == 0 && order.oraclePrice == quote.price && ForMarket(cfg.book, order, quote.market)
       && OriginInv(s, k, quote.market, quote.timestamp, s.sent[n].origin)
  }

  /** An order that was fulfilled while the worker's key was the registered signer holds a price that
      `get_price` returned for the order's own market, whichever loop claimed it. It is for the order's own
      opening time exactly when the claim was polled or its event names that time; events of executed
      transactions do. */
  lemma ClosingPriceIsAQuote(cfg: Config, s: System, k: Pubkey, j: nat) returns (n: nat)
    requires ValidConfig(cfg) && Inv(cfg, s) && j < |s.log| && IsFulfill(s.log[j], k)
    requires LastSigner(s.log[..j], CurrentOracle(s.log[..j])) == cfg.signer
    ensures ClosedWithQuote(cfg, s, k, n)
    ensures s.quotes[s.sent[n].quote].timestamp == Accounts(cfg, s.log)[k].order.openTimestamp <==>
              NamesTime(s, s.sent[n].origin, Accounts(cfg, s.log)[k].order.openTimestamp)
    ensures TrustedOrigin(s, s.sent[n].origin) ==>
              s.quotes[s.sent[n].quote].timestamp == Accounts(cfg, s.log)[k].order.openTimestamp
  {
    FulfilmentsAreAuthorised(cfg.book, s.log, j, k);
    assert OwnWork(cfg, s, j);
    n :| 0 <= n < |s.sent| && s.sent[n].status.Executed? && s.log[j].tx == Fulfilment(cfg, s.sent[n]);
    var t := s.sent[n];
    assert SentInv(cfg, s, n) && QuoteInv(cfg, s, t.quote);
    CreatedOnceFulfilledOnce(cfg.book, s.log, k, j, j);
    var c :| 0 <= c < j && IsCreate(s.log[c], k) && s.log[c].tx.instruction.marketType == t.market;
    CreationDecides(cfg, s, k, c);
    if t.origin.Polled? {
      UniqueCreation(cfg, s, k, c, t.market, t.timestamp);
    } else {
      assert EmissionInv(s, t.origin.emission);
      if s.emitted[t.origin.emission].committed {
        UniqueCreation(cfg, s, k, c, t.market, t.timestamp);
      }
    }
  }

  lemma CreationDecides(cfg: Config, s: System, k: Pubkey, c: nat)
    requires Inv(cfg, s) && c < |s.log| && IsCreate(s.log[c], k)
    ensures HasOrder(Accounts(cfg, s.log), k)
    ensures ForMarket(cfg.book, Accounts(cfg, s.log)[k].order, s.log[c].tx.instruction.marketType)
    ensures Accounts(cfg, s.log)[k].order.openTimestamp == s.log[c].clock.timestamp
  {
    CreatedOnceFulfilledOnce(cfg.book, s.log, k, c, c);
    OrdersNameAMarket(cfg.book, s.log, k);
    var d :| 0 <= d < |s.log| && IsCreate(s.log[d], k)
             && s.log[d].tx.instruction.marketType == TryFrom(Accounts(cfg, s.log)[k].order.marketName).value;
    CreatedOnceFulfilledOnce(cfg.book, s.log, k, c, d);
  }

  lemma UniqueCreation(cfg: Config, s: System, k: Pubkey, c: nat, m: MarketType, ts: int64)
    requires Inv(cfg, s) && c < |s.log| && IsCreate(s.log[c], k) && Created(s.log, k, m, ts)
    ensures s.log[c].clock.timestamp == ts
  {
    var d :| 0 <= d < |s.log| && IsCreate(s.log[d], k)
             && s.log[d].tx.instruction.marketType == m && s.log[d].clock.timestamp == ts;
    CreatedOnceFulfilledOnce(cfg.book, s.log, k, c, d);
  }

  /** What the Coinbase feed contributes to a quote: nothing exactly when it has no ticks of that second, or
      the last of them is more than an hour old; otherwise the machine's mean of the ticks since the
      accumulator last expired. While total and number of these fit, as in a debug build they always do, the
      price is one floor of the exact two-source average, between the smallest and the largest of the Pyth
      price and these ticks. */
  ghost predicate CoinbaseMeaning(build: Build, quote: Quote, heard: seq<Coinbase.Message>, low: nat, high: nat) {
    var ticks, segment := Coinbase.TicksOf(heard, quote.market, quote.timestamp),
                          Coinbase.Segment(heard, quote.market, quote.timestamp);
    && (quote.coinbase.Some? <==> ticks != [] && quote.at <= ticks[|ticks| - 1].at + Coinbase.CACHE_TTL)
    && (quote.coinbase.None? ==> quote.price == quote.pyth)
    && (quote.coinbase.Some? ==>
          && Coinbase.Machine(segment).count != 0
          && quote.price == (Coinbase.Mean(Coinbase.Machine(segment)) + quote.pyth) / 2)
    && (quote.coinbase.Some? && (build.Debug? || Coinbase.FitsMachine(segment)) ==>
          && Pricing.FlooredOnce(segment, quote.pyth, quote.price)
          && (low <= quote.pyth <= high && Pricing.AllBetween(segment, low, high) ==> low <= quote.price <= high))
  }

  /** What a quote is worth. The Pyth part is the latest value that was set for that second when the read
      took its cell, or else the one value that was ever fetched for it; the Coinbase part is as above. */
  lemma QuoteMeaning(cfg: Config, s: System, q: nat, low: nat, high: nat)
    requires Inv(cfg, s) && q < |s.quotes|
    ensures
      var quote := s.quotes[q];
      var run := s.pyth.At(quote.market);
      && quote.get < |CacheRuns.Takes(run)| && CacheRuns.Takes(run)[quote.get].timestamp == quote.timestamp
      && CacheRuns.Answer(run, quote.get) == Some(quote.pyth)
    ensures s.quotes[q].heard <= |s.messages|
    ensures CoinbaseMeaning(cfg.build, s.quotes[q], s.messages[..s.quotes[q].heard], low, high)
  {
    var quote := s.quotes[q];
    assert QuoteInv(cfg, s, q);
    var run := s.pyth.At(quote.market);
    CacheRuns.RunMatches(run);
    CacheRuns.WhatGetsReturn(run, quote.get);
    assert CacheRuns.TakeMatches(CacheAt(s, quote.market), quote.get, CacheRuns.Takes(run)[quote.get]);
    CoinbasePart(cfg, s, q, low, high);
  }

  lemma CoinbasePart(cfg: Config, s: System, q: nat, low: nat, high: nat)
    requires FeedInv(cfg, s) && q < |s.quotes| && QuoteInv(cfg, s, q)
    ensures CoinbaseMeaning(cfg.build, s.quotes[q], s.messages[..s.quotes[q].heard], low, high)
  {
    var quote := s.quotes[q];
    var heard := s.messages[..quote.heard];
    Coinbase.StopsAt(cfg.build, Coinbase.NO_TICKS, s.messages, quote.heard);
    assert quote.coinbase == Pricing.Published(cfg.build, heard, quote.market, quote.timestamp, quote.at);
    Coinbase.PublishedMean(cfg.build, heard, quote.market, quote.timestamp, quote.at);
    if quote.coinbase.Some? && (cfg.build.Debug? || Coinbase.FitsMachine(Coinbase.Segment(heard, quote.market, quote.timestamp))) {
      Pricing.PublishedPriceCombined(cfg.build, heard, quote.market, quote.timestamp, quote.at, quote.pyth, low, high);
    }
  }

  /** Exactly when a fulfilment of the worker is accepted, in any reachable state: the order exists and is
      open, the attempt names the order's market, and the worker's oracle and key are the current ones. The
      worker's market key always meets the program's checks. */
  lemma WorkerFulfilmentAccepted(cfg: Config, s: System, t: Sent)
    requires ValidConfig(cfg) && Inv(cfg, s)
    ensures
      Execute(cfg.book, Accounts(cfg, s.log), s.now, Fulfilment(cfg, t)).Success? <==>
        && HasOrder(Accounts(cfg, s.log), t.order) && !Closed(s.log, t.order)
        && TryFrom(Accounts(cfg, s.log)[t.order].order.marketName) == Some(t.market)
        && CurrentOracle(s.log) == cfg.book.oracle(cfg.payer).key
        && LastSigner(s.log, CurrentOracle(s.log)) == cfg.signer
  {
    FulfilmentAccepted(cfg.book, s.log, s.now, Fulfilment(cfg, t).instruction, Fulfilment(cfg, t).signers);
    assert cfg.payer in cfg.book.authorities;
  }
}
