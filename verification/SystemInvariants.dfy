/** What every action of the protocol keeps. */
module SystemInvariants {
  import opened MachineIntegers
  import opened Wrappers
  import opened Addresses
  import opened BackfillProgram
  import opened ProgramHistory
  import opened ProgramTheorems
  import opened WorkerClaims
  import opened FulfilmentSystem
  import TimestampCache
  import Coinbase
  import Pricing
  import Pyth

  /** The order was created for that market at that time. */
  predicate Created(log: Log, k: Pubkey, m: MarketType, ts: int64) {
    exists c :: 0 <= c < |log| && IsCreate(log[c], k)
                && log[c].tx.instruction.marketType == m && log[c].clock.timestamp == ts
  }

  // ----- Growth: what was recorded stays recorded

  ghost predicate CacheGrows(c: TimestampCache.State, d: TimestampCache.State) {
    && |c.gets| <= |d.gets|
    && forall g :: 0 <= g < |c.gets| ==>
         && d.gets[g].timestamp == c.gets[g].timestamp
         && (c.gets[g].phase.Returned? ==> d.gets[g] == c.gets[g])
  }

  ghost predicate SentGrows(s: System, t: System) {
    && |s.sent| <= |t.sent|
    && forall n :: 0 <= n < |s.sent| ==>
         && t.sent[n] == s.sent[n].(status := t.sent[n].status)
         && (s.sent[n].status.Executed? ==> t.sent[n].status.Executed?)
  }

  ghost predicate Grows(s: System, t: System) {
    && s.log <= t.log && s.emitted <= t.emitted && s.quotes <= t.quotes && s.messages <= t.messages
    && SentGrows(s, t)
    && forall m :: CacheGrows(CacheAt(s, m), CacheAt(t, m))
  }

  lemma LogGrows(log: Log, more: Log, k: Pubkey, m: MarketType, ts: int64)
    requires log <= more
    ensures Created(log, k, m, ts) ==> Created(more, k, m, ts)
    ensures Closed(log, k) ==> Closed(more, k)
  {
    if Created(log, k, m, ts) {
      var c :| 0 <= c < |log| && IsCreate(log[c], k)
               && log[c].tx.instruction.marketType == m && log[c].clock.timestamp == ts;
      assert IsCreate(more[c], k);
    }
    if Closed(log, k) {
      var j :| 0 <= j < |log| && IsFulfill(log[j], k);
      assert IsFulfill(more[j], k);
    }
  }

  /** Only a valid section extends the run of a cache, and then its state moves by that section. */
  lemma CacheMoves(s: System, m: MarketType, section: TimestampCache.Action, n: MarketType)
    requires TimestampCache.After(s.pyth.At(m)).Some? && TimestampCache.Enabled(CacheAt(s, m), section)
    ensures TimestampCache.After(Extended(s, m, section).pyth.At(m)).Some?
    ensures CacheAt(Extended(s, m, section), n) ==
            if n == m then TimestampCache.Next(CacheAt(s, m), section) else CacheAt(s, n)
  {
    var run := s.pyth.At(m);
    assert (run + [section])[..|run|] == run;
  }

  lemma SectionGrows(c: TimestampCache.State, section: TimestampCache.Action)
    requires TimestampCache.Enabled(c, section)
    ensures CacheGrows(c, TimestampCache.Next(c, section))
  {
  }

  ghost predicate CachesRun(s: System) {
    forall m :: TimestampCache.After(s.pyth.At(m)).Some? && TimestampCache.Inv(CacheAt(s, m))
  }

  /** The section that an action runs in a cache, if it runs one. */
  function SectionOf(cfg: Config, s: System, a: Action): Option<(MarketType, TimestampCache.Action)> {
    match a
    case CacheSection(m, section) => Some((m, section))
    case FetchAnswers(m, g, answer) =>
      var fetched := Pyth.FetchPrice(cfg.build, answer);
      if fetched.Success? then Some((m, TimestampCache.FetchReturns(g, fetched.value))) else None
    case StartPricing(slot) =>
      if HasClaim(s, slot) then
        Some((ClaimAt(s, slot).market, TimestampCache.TakeCell(ClaimAt(s, slot).timestamp))) else None
    case _ => None
  }

  /** The runs of the caches after an action. */
  lemma RunsAfter(cfg: Config, s: System, a: Action)
    requires Enabled(cfg, s, a)
    ensures SectionOf(cfg, s, a).Some? ==>
              var (n, section) := SectionOf(cfg, s, a).value;
              TimestampCache.Enabled(CacheAt(s, n), section) && Next(cfg, s, a).pyth == Extended(s, n, section).pyth
    ensures a.Refresh? && !Pyth.AnyPanics(cfg.build, a.prices) ==> Next(cfg, s, a) == Refreshed(cfg, s, a.prices)
    ensures SectionOf(cfg, s, a).None? && !(a.Refresh? && !Pyth.AnyPanics(cfg.build, a.prices)) ==>
              Next(cfg, s, a).pyth == s.pyth
  {
  }

  lemma RefreshedCache(cfg: Config, s: System, prices: seq<Pyth.ApiPrice>, m: MarketType)
    requires CachesRun(s) && !Pyth.AnyPanics(cfg.build, prices)
    ensures
      var t := Refreshed(cfg, s, prices);
      && TimestampCache.After(t.pyth.At(m)).Some? && TimestampCache.Inv(CacheAt(t, m))
      && CacheAt(t, m).gets == CacheAt(s, m).gets
  {
    var sets := Pyth.SetsFor(cfg.build, prices, m);
    assert Refreshed(cfg, s, prices).pyth.At(m) == s.pyth.At(m) + sets;
    Pyth.SetsRun(s.pyth.At(m), sets);
    Pyth.SetsKeep(CacheAt(s, m), sets);
  }

  lemma CachesStep(cfg: Config, s: System, a: Action, m: MarketType)
    requires Enabled(cfg, s, a) && CachesRun(s)
    ensures
      var t := Next(cfg, s, a);
      && TimestampCache.After(t.pyth.At(m)).Some? && TimestampCache.Inv(CacheAt(t, m))
      && CacheGrows(CacheAt(s, m), CacheAt(t, m))
      && (SectionOf(cfg, s, a).None? || SectionOf(cfg, s, a).value.0 != m ==> CacheAt(t, m).gets == CacheAt(s, m).gets)
      && (SectionOf(cfg, s, a).Some? && SectionOf(cfg, s, a).value.0 == m ==>
            && TimestampCache.Enabled(CacheAt(s, m), SectionOf(cfg, s, a).value.1)
            && CacheAt(t, m) == TimestampCache.Next(CacheAt(s, m), SectionOf(cfg, s, a).value.1))
  {
    var t := Next(cfg, s, a);
    RunsAfter(cfg, s, a);
    CacheStep(cfg, s, a, t, m);
  }

  lemma CacheStep(cfg: Config, s: System, a: Action, t: System, m: MarketType)
    requires CachesRun(s)
    requires SectionOf(cfg, s, a).Some? ==>
               var (n, section) := SectionOf(cfg, s, a).value;
               TimestampCache.Enabled(CacheAt(s, n), section) && t.pyth == Extended(s, n, section).pyth
    requires a.Refresh? && !Pyth.AnyPanics(cfg.build, a.prices) ==> t == Refreshed(cfg, s, a.prices)
    requires SectionOf(cfg, s, a).None? && !(a.Refresh? && !Pyth.AnyPanics(cfg.build, a.prices)) ==> t.pyth == s.pyth
    ensures TimestampCache.After(t.pyth.At(m)).Some? && TimestampCache.Inv(CacheAt(t, m))
    ensures CacheGrows(CacheAt(s, m), CacheAt(t, m))
    ensures SectionOf(cfg, s, a).None? || SectionOf(cfg, s, a).value.0 != m ==> CacheAt(t, m).gets == CacheAt(s, m).gets
    ensures SectionOf(cfg, s, a).Some? && SectionOf(cfg, s, a).value.0 == m ==>
              && TimestampCache.Enabled(CacheAt(s, m), SectionOf(cfg, s, a).value.1)
              && CacheAt(t, m) == TimestampCache.Next(CacheAt(s, m), SectionOf(cfg, s, a).value.1)
  {
    var section := SectionOf(cfg, s, a);
    if section.Some? {
      var (n, act) := section.value;
      CacheMoves(s, n, act, m);
      assert CacheAt(t, m) == CacheAt(Extended(s, n, act), m);
      SectionGrows(CacheAt(s, n), act);
      TimestampCache.InvStep(CacheAt(s, n), act);
    } else if a.Refresh? && !Pyth.AnyPanics(cfg.build, a.prices) {
      RefreshedCache(cfg, s, a.prices, m);
    }
  }

  lemma LogGrowsBy(cfg: Config, s: System, a: Action)
    requires Enabled(cfg, s, a)
    ensures s.log <= Next(cfg, s, a).log && s.emitted <= Next(cfg, s, a).emitted
  {
  }

  lemma QuotesGrowBy(cfg: Config, s: System, a: Action)
    requires Enabled(cfg, s, a)
    ensures s.quotes <= Next(cfg, s, a).quotes && s.messages <= Next(cfg, s, a).messages
  {
  }

  lemma SentGrowsBy(cfg: Config, s: System, a: Action)
    requires Enabled(cfg, s, a)
    ensures SentGrows(s, Next(cfg, s, a))
  {
  }

  lemma GrowsStep(cfg: Config, s: System, a: Action)
    requires Enabled(cfg, s, a) && CachesRun(s)
    ensures Grows(s, Next(cfg, s, a)) && CachesRun(Next(cfg, s, a))
  {
    LogGrowsBy(cfg, s, a);
    QuotesGrowBy(cfg, s, a);
    SentGrowsBy(cfg, s, a);
    forall m { CachesStep(cfg, s, a, m); }
  }

  // ----- The chain

  ghost predicate ChainInv(cfg: Config, s: System) {
    && ValidLog(cfg.book, s.log)
    && 0 <= s.now.timestamp
    && (forall i :: 0 <= i < |s.log| ==> NotBefore(s.log[i].clock, s.now))
  }

  lemma ChainExtends(cfg: Config, s: System, tx: Transaction, t: System)
    requires ChainInv(cfg, s) && Execute(cfg.book, Accounts(cfg, s.log), s.now, tx).Success?
    requires KnownAuthority(cfg.book, tx) && forall k :: k in tx.signers ==> !cfg.book.Derived(k)
    requires t.log == s.log + [Entry(s.now, tx)] && t.now == s.now
    ensures ChainInv(cfg, t)
  {
    ExtendLedger(cfg.book, s.log, Entry(s.now, tx));
    ValidLogExtends(cfg.book, s.log, Entry(s.now, tx));
  }

  lemma ChainKept(cfg: Config, s: System, t: System)
    requires ChainInv(cfg, s) && t.log == s.log && NotBefore(s.now, t.now)
    ensures ChainInv(cfg, t)
  {
  }

  /** The transaction that an action executes, if any. */
  ghost function Executes(cfg: Config, s: System, a: Action): Option<Transaction> {
    match a
    case Commit(tx) => Some(tx)
    case Land(n) =>
      if n < |s.sent| && Execute(cfg.book, Accounts(cfg, s.log), s.now, Fulfilment(cfg, s.sent[n])).Success?
      then Some(Fulfilment(cfg, s.sent[n])) else None
    case _ => None
  }

  lemma LogAfter(cfg: Config, s: System, a: Action)
    requires Enabled(cfg, s, a)
    ensures
      var t := Next(cfg, s, a);
      match Executes(cfg, s, a)
      case Some(tx) =>
        Execute(cfg.book, Accounts(cfg, s.log), s.now, tx).Success? && t.log == s.log + [Entry(s.now, tx)] && t.now == s.now
      case None => t.log == s.log && NotBefore(s.now, t.now)
  {
  }

  lemma ChainStep(cfg: Config, s: System, a: Action)
    requires ValidConfig(cfg) && Enabled(cfg, s, a) && ChainInv(cfg, s)
    ensures ChainInv(cfg, Next(cfg, s, a))
  {
    LogAfter(cfg, s, a);
    var tx := Executes(cfg, s, a);
    if tx.Some? {
      ChainExtends(cfg, s, tx.value, Next(cfg, s, a));
    } else {
      ChainKept(cfg, s, Next(cfg, s, a));
    }
  }

  // ----- Events: a committed emission tells of a creation

  ghost predicate EmissionInv(s: System, e: nat)
    requires e < |s.emitted|
  {
    var event := s.emitted[e].event;
    s.emitted[e].committed ==> Created(s.log, event.order, event.market, event.timestamp)
  }

  lemma EmissionStep(cfg: Config, s: System, a: Action, e: nat)
    requires Enabled(cfg, s, a) && CachesRun(s)
    requires e < |Next(cfg, s, a).emitted| && (e < |s.emitted| ==> EmissionInv(s, e))
    ensures EmissionInv(Next(cfg, s, a), e)
  {
    GrowsStep(cfg, s, a);
    var t := Next(cfg, s, a);
    var event := t.emitted[e].event;
    LogGrows(s.log, t.log, event.order, event.market, event.timestamp);
    if e >= |s.emitted| && a.Commit? {
      assert IsCreate(t.log[|s.log|], event.order);
    }
  }

  // ----- Attempts, quotes and transactions

  /** A polled attempt is about an order as it was created; a delivered one repeats its event. */
  ghost predicate OriginInv(s: System, order: Pubkey, m: MarketType, ts: int64, origin: Origin) {
    match origin
    case Polled => Created(s.log, order, m, ts)
    case Delivered(e) =>
      e < |s.emitted| && var event := s.emitted[e].event; event.order == order && event.market == m && event.timestamp == ts
  }

  ghost predicate ClaimInv(s: System, c: Claim) {
    && OriginInv(s, c.order, c.market, c.timestamp, c.origin)
    && match c.phase
       case Queued => true
       case Awaiting(g) => g < |CacheAt(s, c.market).gets| && CacheAt(s, c.market).gets[g].timestamp == c.timestamp
       case Quoted(q) => q < |s.quotes| && s.quotes[q].market == c.market && s.quotes[q].timestamp == c.timestamp
       case Sending(n) => n < |s.sent| && s.sent[n].order == c.order
       case Settled(ok) => ok ==> Closed(s.log, c.order)
  }

  /** A quote combines a value that the Pyth cache returned for its timestamp with what the Coinbase feed
      published for it at that instant. */
  ghost predicate QuoteInv(cfg: Config, s: System, q: nat)
    requires q < |s.quotes|
  {
    var quote := s.quotes[q];
    var gets := CacheAt(s, quote.market).gets;
    && quote.get < |gets| && gets[quote.get].timestamp == quote.timestamp
    && gets[quote.get].phase == TimestampCache.Returned(Success(quote.pyth))
    && quote.heard <= |s.messages|
    && quote.coinbase == PublishedPrice(cfg.build, s.messages[..quote.heard], quote.market, quote.timestamp, quote.at)
    && Pricing.Combine(quote.pyth, quote.coinbase) == Success(quote.price)
  }

  ghost predicate InLog(cfg: Config, log: Log, t: Sent) {
    exists i :: 0 <= i < |log| && log[i].tx == Fulfilment(cfg, t)
  }

  ghost predicate SentInv(cfg: Config, s: System, n: nat)
    requires n < |s.sent|
  {
    var t := s.sent[n];
    && OriginInv(s, t.order, t.market, t.timestamp, t.origin)
    && t.quote < |s.quotes|
    && s.quotes[t.quote].market == t.market && s.quotes[t.quote].timestamp == t.timestamp && s.quotes[t.quote].price == t.price
    && (t.status.Executed? ==> InLog(cfg, s.log, t))
  }

  lemma OriginKept(s: System, t: System, order: Pubkey, m: MarketType, ts: int64, origin: Origin)
    requires Grows(s, t) && OriginInv(s, order, m, ts, origin)
    ensures OriginInv(t, order, m, ts, origin)
  {
    LogGrows(s.log, t.log, order, m, ts);
  }

  lemma ClaimKept(s: System, t: System, c: Claim)
    requires Grows(s, t) && ClaimInv(s, c)
    ensures ClaimInv(t, c)
  {
    OriginKept(s, t, c.order, c.market, c.timestamp, c.origin);
    LogGrows(s.log, t.log, c.order, c.market, c.timestamp);
    assert CacheGrows(CacheAt(s, c.market), CacheAt(t, c.market));
  }

  lemma QuoteKept(cfg: Config, s: System, t: System, q: nat)
    requires Grows(s, t) && q < |s.quotes| && QuoteInv(cfg, s, q)
    ensures q < |t.quotes| && QuoteInv(cfg, t, q)
  {
    assert CacheGrows(CacheAt(s, s.quotes[q].market), CacheAt(t, s.quotes[q].market));
    assert t.messages[..s.quotes[q].heard] == s.messages[..s.quotes[q].heard];
  }

  lemma SentKept(cfg: Config, s: System, t: System, n: nat)
    requires Grows(s, t) && n < |s.sent| && SentInv(cfg, s, n)
    requires t.sent[n].status.Executed? ==> s.sent[n].status.Executed? || InLog(cfg, t.log, t.sent[n])
    ensures SentInv(cfg, t, n)
  {
    var x := s.sent[n];
    OriginKept(s, t, x.order, x.market, x.timestamp, x.origin);
    if x.status.Executed? {
      var i :| 0 <= i < |s.log| && s.log[i].tx == Fulfilment(cfg, x);
      assert t.log[i].tx == Fulfilment(cfg, x);
    }
  }

  ghost predicate WorkInv(cfg: Config, s: System) {
    && (forall e :: 0 <= e < |s.emitted| ==> EmissionInv(s, e))
    && (forall slot :: HasClaim(s, slot) ==> ClaimInv(s, ClaimAt(s, slot)))
    && (forall q :: 0 <= q < |s.quotes| ==> QuoteInv(cfg, s, q))
    && (forall n :: 0 <= n < |s.sent| ==> SentInv(cfg, s, n))
  }

  /** Listed entries are orders as created, so the code of each names its market. */
  lemma ListedIsCreated(cfg: Config, s: System, l: Listed)
    requires ChainInv(cfg, s) && WasOpen(cfg, s, l)
    ensures TryFrom(l.order.marketName).Some?
    ensures Created(s.log, l.key, TryFrom(l.order.marketName).value, l.order.openTimestamp)
  {
    var n :| 0 <= n <= |s.log| && HasOrder(Accounts(cfg, s.log[..n]), l.key)
             && Accounts(cfg, s.log[..n])[l.key].order == l.order && l.order.openOrder == 1;
    Prefix(cfg.book, s.log, n);
    OrdersNameAMarket(cfg.book, s.log[..n], l.key);
    assert Created(s.log[..n], l.key, TryFrom(l.order.marketName).value, l.order.openTimestamp);
    LogGrows(s.log[..n], s.log, l.key, TryFrom(l.order.marketName).value, l.order.openTimestamp);
  }

  lemma PollClaims(cfg: Config, s: System, a: Action)
    requires Enabled(cfg, s, a) && a.Poll? && ChainInv(cfg, s)
    ensures ClaimAll(s.active, a.listing).Success?
    ensures forall c :: c in ClaimAll(s.active, a.listing).value ==> ClaimInv(s, c)
  {
    forall l | l in a.listing
      ensures TryFrom(l.order.marketName).Some?
      ensures Created(s.log, l.key, TryFrom(l.order.marketName).value, l.order.openTimestamp)
    {
      ListedIsCreated(cfg, s, l);
    }
    ClaimsSucceed(s.active, a.listing);
    ClaimsExactlyTheNew(s.active, a.listing);
    forall c | c in ClaimAll(s.active, a.listing).value ensures ClaimInv(s, c) {
      assert FromListing(c, a.listing);
    }
  }

  /** The attempt that an action moves, if it moves one. */
  function Moves(a: Action): Option<Slot> {
    match a
    case StartPricing(slot) => Some(slot)
    case FinishPricing(slot) => Some(slot)
    case Send(slot) => Some(slot)
    case Abandon(slot) => Some(slot)
    case Report(slot, _) => Some(slot)
    case _ => None
  }

  /** An attempt after an action is a new one, the one that the action moves, or unchanged. */
  lemma ClaimsAfter(cfg: Config, s: System, a: Action, slot: Slot)
    requires Enabled(cfg, s, a) && HasClaim(Next(cfg, s, a), slot)
    ensures a.Deliver? || a.Poll? || HasClaim(s, slot)
    ensures HasClaim(s, slot) && Moves(a) != Some(slot) ==> ClaimAt(Next(cfg, s, a), slot) == ClaimAt(s, slot)
    ensures HasClaim(s, slot) && Moves(a) == Some(slot) ==>
              ClaimAt(Next(cfg, s, a), slot) == ClaimAt(s, slot).(phase := ClaimAt(Next(cfg, s, a), slot).phase)
    ensures !HasClaim(s, slot) && a.Deliver? ==>
              slot == EventSlot && ClaimAt(Next(cfg, s, a), slot).origin == Delivered(a.emission)
              && OriginInv(s, ClaimAt(Next(cfg, s, a), slot).order, ClaimAt(Next(cfg, s, a), slot).market,
                           ClaimAt(Next(cfg, s, a), slot).timestamp, Delivered(a.emission))
              && ClaimAt(Next(cfg, s, a), slot).phase.Queued?
    ensures !HasClaim(s, slot) && a.Poll? ==>
              slot.BatchSlot? && ClaimAll(s.active, a.listing).Success?
              && ClaimAt(Next(cfg, s, a), slot) in ClaimAll(s.active, a.listing).value
  {
  }

  lemma StartedClaim(cfg: Config, s: System, a: Action)
    requires Enabled(cfg, s, a) && CachesRun(s) && a.StartPricing? && ClaimInv(s, ClaimAt(s, a.slot))
    ensures HasClaim(Next(cfg, s, a), a.slot) && ClaimInv(Next(cfg, s, a), ClaimAt(Next(cfg, s, a), a.slot))
  {
    CachesStep(cfg, s, a, ClaimAt(s, a.slot).market);
  }

  lemma MovedClaim(cfg: Config, s: System, a: Action, slot: Slot)
    requires Enabled(cfg, s, a) && Moves(a) == Some(slot) && !a.StartPricing?
    requires ClaimInv(s, ClaimAt(s, slot))
    requires forall n :: 0 <= n < |s.sent| ==> SentInv(cfg, s, n)
    ensures HasClaim(Next(cfg, s, a), slot) && ClaimInv(Next(cfg, s, a), ClaimAt(Next(cfg, s, a), slot))
  {
    if a.Report? {
      ReportedClaim(cfg, s, a);
    }
  }

  lemma ReportedClaim(cfg: Config, s: System, a: Action)
    requires Enabled(cfg, s, a) && a.Report? && ClaimInv(s, ClaimAt(s, a.slot))
    requires forall n :: 0 <= n < |s.sent| ==> SentInv(cfg, s, n)
    ensures
      var t := Next(cfg, s, a);
      && HasClaim(t, a.slot) && ClaimInv(t, ClaimAt(t, a.slot))
  {
    if a.ok {
      assert SentInv(cfg, s, ClaimAt(s, a.slot).phase.tx);
      ReportedIsClosed(cfg, s, ClaimAt(s, a.slot));
    }
  }

  /** A fulfilment that was executed has closed its order. */
  lemma ReportedIsClosed(cfg: Config, s: System, c: Claim)
    requires ClaimInv(s, c) && c.phase.Sending? && SentInv(cfg, s, c.phase.tx) && s.sent[c.phase.tx].status.Executed?
    ensures Closed(s.log, c.order)
  {
    var i :| 0 <= i < |s.log| && s.log[i].tx == Fulfilment(cfg, s.sent[c.phase.tx]);
    assert IsFulfill(s.log[i], c.order);
  }

  lemma ClaimStep(cfg: Config, s: System, a: Action, slot: Slot)
    requires Enabled(cfg, s, a) && ChainInv(cfg, s) && CachesRun(s) && WorkInv(cfg, s)
    requires HasClaim(Next(cfg, s, a), slot)
    ensures ClaimInv(Next(cfg, s, a), ClaimAt(Next(cfg, s, a), slot))
  {
    var t := Next(cfg, s, a);
    GrowsStep(cfg, s, a);
    ClaimsAfter(cfg, s, a, slot);
    if HasClaim(s, slot) {
      assert ClaimInv(s, ClaimAt(s, slot));
      if Moves(a) == Some(slot) && a.StartPricing? {
        StartedClaim(cfg, s, a);
      } else if Moves(a) == Some(slot) {
        MovedClaim(cfg, s, a, slot);
      } else {
        ClaimKept(s, t, ClaimAt(s, slot));
      }
    } else if a.Deliver? {
      var c := ClaimAt(t, slot);
      OriginKept(s, t, c.order, c.market, c.timestamp, c.origin);
    } else {
      PollClaims(cfg, s, a);
      ClaimKept(s, t, ClaimAt(t, slot));
    }
  }

  lemma QuoteStep(cfg: Config, s: System, a: Action, q: nat)
    requires Enabled(cfg, s, a) && CachesRun(s) && WorkInv(cfg, s)
    requires q < |Next(cfg, s, a).quotes|
    ensures QuoteInv(cfg, Next(cfg, s, a), q)
  {
    var t := Next(cfg, s, a);
    GrowsStep(cfg, s, a);
    if q < |s.quotes| {
      QuoteKept(cfg, s, t, q);
    } else {
      assert ClaimInv(s, ClaimAt(s, a.slot));
      assert t.messages[..|s.messages|] == s.messages;
      CachesStep(cfg, s, a, ClaimAt(s, a.slot).market);
    }
  }

  /** A transaction after an action is the one just sent, or an old one, which only an execution completes. */
  lemma SentAfter(cfg: Config, s: System, a: Action, n: nat)
    requires Enabled(cfg, s, a) && n < |Next(cfg, s, a).sent|
    ensures
      var t := Next(cfg, s, a);
      && (n < |s.sent| && t.sent[n].status.Executed? && !s.sent[n].status.Executed? ==>
            |t.log| == |s.log| + 1 && t.log[|s.log|].tx == Fulfilment(cfg, t.sent[n]))
      && (n >= |s.sent| ==>
            && a.Send? && !t.sent[n].status.Executed?
            && t.sent[n] == SentFor(s, a.slot))
  {
  }

  function SentFor(s: System, slot: Slot): Sent
    requires HasClaim(s, slot) && ClaimAt(s, slot).phase.Quoted? && ClaimAt(s, slot).phase.quote < |s.quotes|
  {
    var c := ClaimAt(s, slot);
    Sent(c.order, c.market, c.timestamp, c.origin, c.phase.quote, s.quotes[c.phase.quote].price, InFlight)
  }

  lemma NewSent(cfg: Config, s: System, t: System, slot: Slot, n: nat)
    requires Grows(s, t) && HasClaim(s, slot) && ClaimAt(s, slot).phase.Quoted? && ClaimInv(s, ClaimAt(s, slot))
    requires n < |t.sent| && t.sent[n] == SentFor(s, slot)
    ensures SentInv(cfg, t, n)
  {
    var c := ClaimAt(s, slot);
    OriginKept(s, t, c.order, c.market, c.timestamp, c.origin);
  }

  lemma SentStep(cfg: Config, s: System, a: Action, n: nat)
    requires Enabled(cfg, s, a) && CachesRun(s) && WorkInv(cfg, s)
    requires n < |Next(cfg, s, a).sent|
    ensures SentInv(cfg, Next(cfg, s, a), n)
  {
    GrowsStep(cfg, s, a);
    SentAfter(cfg, s, a, n);
    if n < |s.sent| {
      SentKept(cfg, s, Next(cfg, s, a), n);
    } else {
      NewSent(cfg, s, Next(cfg, s, a), a.slot, n);
    }
  }

  lemma WorkStep(cfg: Config, s: System, a: Action)
    requires Enabled(cfg, s, a) && ChainInv(cfg, s) && CachesRun(s) && WorkInv(cfg, s)
    ensures WorkInv(cfg, Next(cfg, s, a))
  {
    var t := Next(cfg, s, a);
    forall e | 0 <= e < |t.emitted| ensures EmissionInv(t, e) { EmissionStep(cfg, s, a, e); }
    forall slot | HasClaim(t, slot) ensures ClaimInv(t, ClaimAt(t, slot)) { ClaimStep(cfg, s, a, slot); }
    forall q | 0 <= q < |t.quotes| ensures QuoteInv(cfg, t, q) { QuoteStep(cfg, s, a, q); }
    forall n | 0 <= n < |t.sent| ensures SentInv(cfg, t, n) { SentStep(cfg, s, a, n); }
  }

  // ----- Fulfilments signed by the worker are the worker's own

  ghost predicate OwnWork(cfg: Config, s: System, i: nat)
    requires i < |s.log|
  {
    s.log[i].tx.instruction.FulfillOrder? && cfg.signer in s.log[i].tx.signers ==>
      exists n :: 0 <= n < |s.sent| && s.sent[n].status.Executed? && s.log[i].tx == Fulfilment(cfg, s.sent[n])
  }

  lemma OwnWorkStep(cfg: Config, s: System, a: Action, i: nat)
    requires Enabled(cfg, s, a) && CachesRun(s)
    requires i < |Next(cfg, s, a).log| && (i < |s.log| ==> OwnWork(cfg, s, i))
    ensures OwnWork(cfg, Next(cfg, s, a), i)
  {
    var t := Next(cfg, s, a);
    GrowsStep(cfg, s, a);
    if i < |s.log| {
      if s.log[i].tx.instruction.FulfillOrder? && cfg.signer in s.log[i].tx.signers {
        var n :| 0 <= n < |s.sent| && s.sent[n].status.Executed? && s.log[i].tx == Fulfilment(cfg, s.sent[n]);
        assert t.sent[n].status.Executed? && t.log[i].tx == Fulfilment(cfg, t.sent[n]);
      }
    } else if a.Land? {
      assert t.log[i].tx == Fulfilment(cfg, t.sent[a.sent]);
    }
  }

  // ----- The shared set of active orders

  function EventOrders(s: System): set<Pubkey> {
    if s.event.Some? then {s.event.value.order} else {}
  }

  function BatchOrders(s: System): set<Pubkey> {
    if s.batch.Some? then Orders(s.batch.value) else {}
  }

  /** `active_orders` is the disjoint union of the order of the event attempt, the orders of the batch, all
      different, and the confirmed orders; a confirmed order is closed. */
  ghost predicate KeysInv(s: System) {
    && s.active == EventOrders(s) + BatchOrders(s) + s.confirmed
    && EventOrders(s) !! BatchOrders(s) && EventOrders(s) !! s.confirmed && BatchOrders(s) !! s.confirmed
    && (s.batch.Some? ==> Distinct(s.batch.value))
    && (forall k :: k in s.confirmed ==> Closed(s.log, k))
  }

  /** Moving an attempt to another phase changes no order. */
  lemma PutPhaseKeepsOrders(s: System, slot: Slot, phase: Phase)
    requires HasClaim(s, slot)
    ensures EventOrders(PutPhase(s, slot, phase)) == EventOrders(s)
    ensures BatchOrders(PutPhase(s, slot, phase)) == BatchOrders(s)
    ensures s.batch.Some? && Distinct(s.batch.value) ==>
              PutPhase(s, slot, phase).batch.Some? && Distinct(PutPhase(s, slot, phase).batch.value)
  {
    var t := PutPhase(s, slot, phase);
    if slot.BatchSlot? {
      var before, after := s.batch.value, t.batch.value;
      assert forall i :: 0 <= i < |before| ==> after[i].order == before[i].order;
      forall k ensures k in Orders(after) <==> k in Orders(before) {
        if k in Orders(after) {
          var i :| 0 <= i < |after| && after[i].order == k;
          assert before[i] in before;
        }
        if k in Orders(before) {
          var i :| 0 <= i < |before| && before[i].order == k;
          assert after[i] in after;
        }
      }
    }
  }

  /** When the batch is done, its orders are its failed and its confirmed ones, and these are disjoint. */
  lemma SettledOrders(claims: seq<Claim>)
    requires Distinct(claims) && forall c :: c in claims ==> c.phase.Settled?
    ensures Orders(claims) == FailedOrders(claims) + ConfirmedOrders(claims)
    ensures FailedOrders(claims) !! ConfirmedOrders(claims)
  {
    forall k | k in Orders(claims) ensures k in FailedOrders(claims) + ConfirmedOrders(claims) {
      var c :| c in claims && c.order == k;
      assert c.phase == Settled(c.phase.ok);
    }
  }

  lemma KeysAfterFinish(cfg: Config, s: System, a: Action)
    requires Enabled(cfg, s, a) && (a.FinishBatch? || a.FinishEvent?) && KeysInv(s) && WorkInv(cfg, s)
    ensures KeysInv(Next(cfg, s, a))
  {
    var t := Next(cfg, s, a);
    if a.FinishBatch? {
      var claims := s.batch.value;
      SettledOrders(claims);
      forall k | k in ConfirmedOrders(claims) ensures Closed(s.log, k) {
        var i :| 0 <= i < |claims| && claims[i].order == k && claims[i].phase == Settled(true);
        assert ClaimInv(s, ClaimAt(s, BatchSlot(i)));
      }
      assert t.active == EventOrders(t) + BatchOrders(t) + t.confirmed;
    } else {
      assert ClaimInv(s, ClaimAt(s, EventSlot));
      assert t.active == EventOrders(t) + BatchOrders(t) + t.confirmed;
    }
  }

  lemma KeysAfterClaim(cfg: Config, s: System, a: Action)
    requires Enabled(cfg, s, a) && (a.Poll? || a.Deliver?) && KeysInv(s) && ChainInv(cfg, s)
    ensures KeysInv(Next(cfg, s, a))
  {
    var t := Next(cfg, s, a);
    if a.Poll? {
      PollClaims(cfg, s, a);
      ClaimsExactlyTheNew(s.active, a.listing);
      assert t.active == EventOrders(t) + BatchOrders(t) + t.confirmed;
    } else {
      assert t.active == EventOrders(t) + BatchOrders(t) + t.confirmed;
    }
  }

  lemma KeysKept(s: System, t: System)
    requires KeysInv(s) && s.log <= t.log && t.active == s.active && t.confirmed == s.confirmed
    requires EventOrders(t) == EventOrders(s) && BatchOrders(t) == BatchOrders(s)
    requires t.batch.Some? ==> Distinct(t.batch.value)
    ensures KeysInv(t)
  {
    forall k | k in s.confirmed ensures Closed(t.log, k) {
      LogGrows(s.log, t.log, k, Btc, 0);
    }
  }

  lemma KeysAfterOther(cfg: Config, s: System, a: Action)
    requires Enabled(cfg, s, a) && !a.FinishBatch? && !a.FinishEvent? && !a.Poll? && !a.Deliver?
    ensures Next(cfg, s, a).active == s.active && Next(cfg, s, a).confirmed == s.confirmed
    ensures Moves(a).None? ==> Next(cfg, s, a).event == s.event && Next(cfg, s, a).batch == s.batch
    ensures s.batch.None? ==> Next(cfg, s, a).batch.None?
  {
  }

  lemma KeysStep(cfg: Config, s: System, a: Action)
    requires Enabled(cfg, s, a) && KeysInv(s) && ChainInv(cfg, s) && WorkInv(cfg, s)
    ensures KeysInv(Next(cfg, s, a))
  {
    if a.FinishBatch? || a.FinishEvent? {
      KeysAfterFinish(cfg, s, a);
    } else if a.Poll? || a.Deliver? {
      KeysAfterClaim(cfg, s, a);
    } else {
      KeysAfterOther(cfg, s, a);
      if Moves(a).Some? {
        MovedOrders(cfg, s, a);
      }
      LogGrowsBy(cfg, s, a);
      KeysKept(s, Next(cfg, s, a));
    }
  }

  lemma MovedOrders(cfg: Config, s: System, a: Action)
    requires Enabled(cfg, s, a) && Moves(a).Some?
    ensures EventOrders(Next(cfg, s, a)) == EventOrders(s) && BatchOrders(Next(cfg, s, a)) == BatchOrders(s)
    ensures s.batch.Some? && Distinct(s.batch.value) ==> Next(cfg, s, a).batch.Some? && Distinct(Next(cfg, s, a).batch.value)
  {
    var t := Next(cfg, s, a);
    if !t.halted {
      var phase := ClaimAt(t, a.slot).phase;
      PutPhaseKeepsOrders(s, a.slot, phase);
      assert t.event == PutPhase(s, a.slot, phase).event && t.batch == PutPhase(s, a.slot, phase).batch;
    }
  }

  // ----- The feed

  ghost predicate FeedInv(cfg: Config, s: System) {
    Coinbase.HeardBy(s.messages, s.instant) && Coinbase.Play(cfg.build, Coinbase.NO_TICKS, s.messages).Success?
  }

  lemma FeedAfterOther(cfg: Config, s: System, a: Action)
    requires Enabled(cfg, s, a) && !a.Hear?
    ensures Next(cfg, s, a).messages == s.messages && s.instant <= Next(cfg, s, a).instant
  {
  }

  lemma FeedAfterMessage(cfg: Config, s: System, message: Coinbase.Message, t: System)
    requires FeedInv(cfg, s) && message.arrival == s.instant
    requires Coinbase.Play(cfg.build, Coinbase.NO_TICKS, s.messages + [message]).Success?
    requires t == s.(messages := s.messages + [message])
    ensures FeedInv(cfg, t)
  {
    Coinbase.HeardNext(s.messages, message, s.instant);
  }

  lemma FeedStep(cfg: Config, s: System, a: Action)
    requires Enabled(cfg, s, a) && FeedInv(cfg, s)
    ensures FeedInv(cfg, Next(cfg, s, a))
  {
    if !a.Hear? {
      FeedAfterOther(cfg, s, a);
    } else if Coinbase.Play(cfg.build, Coinbase.NO_TICKS, s.messages + [a.message]).Success? {
      FeedAfterMessage(cfg, s, a.message, Next(cfg, s, a));
    }
  }

  // ----- All together

  ghost predicate Inv(cfg: Config, s: System) {
    && ChainInv(cfg, s) && CachesRun(s) && FeedInv(cfg, s) && WorkInv(cfg, s) && KeysInv(s)
    && forall i :: 0 <= i < |s.log| ==> OwnWork(cfg, s, i)
  }

  lemma Initially(cfg: Config)
    requires ValidConfig(cfg)
    ensures Inv(cfg, START)
  {
  }

  /** Every action of every interleaving keeps the invariant. */
  lemma InvStep(cfg: Config, s: System, a: Action)
    requires ValidConfig(cfg) && Inv(cfg, s) && Enabled(cfg, s, a)
    ensures Inv(cfg, Next(cfg, s, a))
  {
    var t := Next(cfg, s, a);
    ChainStep(cfg, s, a);
    GrowsStep(cfg, s, a);
    FeedStep(cfg, s, a);
    WorkStep(cfg, s, a);
    KeysStep(cfg, s, a);
    forall i | 0 <= i < |t.log| ensures OwnWork(cfg, t, i) { OwnWorkStep(cfg, s, a, i); }
  }

  lemma StepAt(cfg: Config, states: seq<System>, actions: seq<Action>, n: nat)
    requires IsRun(cfg, states, actions) && n < |actions|
    ensures Enabled(cfg, states[n], actions[n]) && states[n + 1] == Next(cfg, states[n], actions[n])
  {
  }

  /** Every state of every run satisfies the invariant. */
  lemma {:induction false} Reachable(cfg: Config, states: seq<System>, actions: seq<Action>, i: nat)
    requires ValidConfig(cfg) && IsRun(cfg, states, actions) && i < |states|
    ensures Inv(cfg, states[i])
  {
    if i == 0 {
      Initially(cfg);
    } else {
      Reachable(cfg, states, actions, i - 1);
      assert states[i] == Next(cfg, states[i - 1], actions[i - 1]);
      InvStep(cfg, states[i - 1], actions[i - 1]);
    }
  }
}
