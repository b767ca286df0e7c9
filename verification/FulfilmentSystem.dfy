/** The whole order-fulfilment protocol as one state machine: the chain, the worker's two claiming loops,
    its three Pyth caches, its Coinbase feed and the transactions it has sent. An action is what runs
    between two awaits, or one thing the environment does. */
module FulfilmentSystem {
  import opened MachineIntegers
  import opened Wrappers
  import opened Addresses
  import opened BackfillProgram
  import opened ProgramHistory
  import opened WorkerClaims
  import TimestampCache
  import CacheRuns
  import Coinbase
  import Pricing
  import Pyth

  /** The deployment: the program's addresses, the worker's payer and enclave keys, and its build. */
  datatype Config = Config(book: AddressBook, payer: Pubkey, signer: Pubkey, build: Build)

  /** A requested-price event in the logs of a transaction that was executed, or of one that failed later. */
  datatype Emission = Emission(event: PriceRequested, committed: bool)

  /** One price that `get_price` returned: the Pyth read it used, and the Coinbase price that was published
      at that instant, after the first `heard` messages. */
  datatype Quote = Quote(market: MarketType, timestamp: int64, get: nat, pyth: uint64,
                         heard: nat, at: nat, coinbase: Option<uint64>, price: uint64)

  datatype TxStatus = InFlight | Executed | Rejected

  /** A fulfilment that the worker sent. It may land at any time, also after the worker saw an error. */
  datatype Sent = Sent(order: Pubkey, market: MarketType, timestamp: int64, origin: Origin,
                       quote: nat, price: uint64, status: TxStatus)

  /** `confirmed` are the orders whose attempt was reported as fulfilled. The caches and the feed are given
      by their runs. `halted` says that the worker has panicked. */
  datatype System = System(
    log: Log, now: Clock, emitted: seq<Emission>,
    active: set<Pubkey>, confirmed: set<Pubkey>, event: Option<Claim>, batch: Option<seq<Claim>>,
    pyth: PerMarket<CacheRuns.Run>, messages: seq<Coinbase.Message>, instant: nat,
    quotes: seq<Quote>, sent: seq<Sent>, halted: bool)

  const START := System([], Clock(0, 0), [], {}, {}, None, None, PerMarket([], [], []), [], 0, [], [], false)

  /** The event loop has one attempt at a time, the poll loop a batch of them. */
  datatype Slot = EventSlot | BatchSlot(i: nat)

  datatype Action =
    | Commit(tx: Transaction)
    | RollBack(requested: PriceRequested)
    | Advance(clock: Clock, instant: nat)
    | Hear(message: Coinbase.Message)
    | Refresh(prices: seq<Pyth.ApiPrice>)
    | CacheSection(market: MarketType, section: TimestampCache.Action)
    | FetchAnswers(market: MarketType, get: nat, answer: Pyth.Answer)
    | Deliver(emission: nat)
    | Poll(listing: seq<Listed>)
    | StartPricing(slot: Slot)
    | FinishPricing(slot: Slot)
    | Send(slot: Slot)
    | Abandon(slot: Slot)
    | Land(sent: nat)
    | Report(slot: Slot, ok: bool)
    | FinishEvent
    | FinishBatch

  function Accounts(cfg: Config, log: Log): Ledger {
    match LedgerAfter(cfg.book, log) case Some(accounts) => accounts case None => map[]
  }

  function CacheAt(s: System, m: MarketType): TimestampCache.State {
    match TimestampCache.After(s.pyth.At(m)) case Some(state) => state case None => TimestampCache.EMPTY_CACHE
  }

  function PublishedPrice(build: Build, messages: seq<Coinbase.Message>, m: MarketType, ts: int64, at: nat)
    : Option<uint64>
  {
    if Coinbase.Play(build, Coinbase.NO_TICKS, messages).Success? then Pricing.Published(build, messages, m, ts, at)
    else None
  }

  /** The worker's registration of its signer. */
  function Registration(cfg: Config): Transaction {
    Transaction(
      RegisterOracle(cfg.book.program.key, cfg.book.oracle(cfg.payer).key, cfg.signer, cfg.payer),
      {cfg.payer, cfg.signer})
  }

  /** The fulfilment transaction that the worker builds. */
  function Fulfilment(cfg: Config, t: Sent): Transaction {
    Transaction(
      FulfillOrder(t.order, cfg.book.program.key, cfg.book.market(t.market).key, cfg.book.oracle(cfg.payer).key,
                   cfg.signer, t.market, t.price),
      {cfg.payer, cfg.signer})
  }

  predicate HasClaim(s: System, slot: Slot) {
    match slot
    case EventSlot => s.event.Some?
    case BatchSlot(i) => s.batch.Some? && i < |s.batch.value|
  }

  function ClaimAt(s: System, slot: Slot): Claim
    requires HasClaim(s, slot)
  {
    match slot
    case EventSlot => s.event.value
    case BatchSlot(i) => s.batch.value[i]
  }

  function PutPhase(s: System, slot: Slot, phase: Phase): System
    requires HasClaim(s, slot)
  {
    match slot
    case EventSlot => s.(event := Some(s.event.value.(phase := phase)))
    case BatchSlot(i) => s.(batch := Some(s.batch.value[i := s.batch.value[i].(phase := phase)]))
  }

  /** A listed entry shows an order as it was open in some earlier ledger: polls may be stale. */
  ghost predicate WasOpen(cfg: Config, s: System, l: Listed) {
    exists n :: 0 <= n <= |s.log| && HasOrder(Accounts(cfg, s.log[..n]), l.key)
                && Accounts(cfg, s.log[..n])[l.key].order == l.order && l.order.openOrder == 1
  }

  /** A transaction of others. Only the worker signs with its enclave key. */
  ghost predicate MayCommit(cfg: Config, s: System, tx: Transaction) {
    && Execute(cfg.book, Accounts(cfg, s.log), s.now, tx).Success?
    && KnownAuthority(cfg.book, tx) && (forall k :: k in tx.signers ==> !cfg.book.Derived(k))
    && (cfg.signer in tx.signers ==> tx == Registration(cfg))
  }

  function PriceOf(build: Build, s: System, slot: Slot): Result<Quote, Panic>
    requires HasClaim(s, slot) && ClaimAt(s, slot).phase.Awaiting?
    requires Returned(s, slot) && ReturnedPrice(s, slot).Success?
  {
    var c := ClaimAt(s, slot);
    var pyth := ReturnedPrice(s, slot).value;
    var coinbase := PublishedPrice(build, s.messages, c.market, c.timestamp, s.instant);
    match Pricing.Combine(pyth, coinbase)
    case Success(price) =>
      Success(Quote(c.market, c.timestamp, c.phase.get, pyth, |s.messages|, s.instant, coinbase, price))
    case Failure(e) => Failure(e)
  }

  predicate Returned(s: System, slot: Slot)
    requires HasClaim(s, slot) && ClaimAt(s, slot).phase.Awaiting?
  {
    var cache, g := CacheAt(s, ClaimAt(s, slot).market), ClaimAt(s, slot).phase.get;
    g < |cache.gets| && cache.gets[g].phase.Returned?
  }

  function ReturnedPrice(s: System, slot: Slot): TimestampCache.Fetched
    requires HasClaim(s, slot) && ClaimAt(s, slot).phase.Awaiting? && Returned(s, slot)
  {
    CacheAt(s, ClaimAt(s, slot).market).gets[ClaimAt(s, slot).phase.get].phase.result
  }

  /** What goes on without the worker. */
  predicate OfTheChain(a: Action) {
    a.Commit? || a.RollBack? || a.Advance? || a.Land?
  }

  /** A panic of the worker does not stop the chain; a transaction in flight may still land. */
  ghost predicate Enabled(cfg: Config, s: System, a: Action) {
    && (s.halted ==> OfTheChain(a))
    && match a
       case Commit(tx) => MayCommit(cfg, s, tx)
       case RollBack(requested) => requested.timestamp == s.now.timestamp && requested.slot == s.now.slot
       case Advance(clock, instant) => NotBefore(s.now, clock) && s.instant <= instant
       case Hear(message) => message.arrival == s.instant
       case Refresh(_) => true
       case CacheSection(m, section) =>
         (section.ReadCheck? || section.LockWrite? || section.Recheck?) && TimestampCache.Enabled(CacheAt(s, m), section)
       case FetchAnswers(m, g, _) => TimestampCache.InPhase(CacheAt(s, m), g, TimestampCache.Fetching)
       case Deliver(e) => s.event.None? && e < |s.emitted|
       case Poll(listing) => s.batch.None? && forall l :: l in listing ==> WasOpen(cfg, s, l)
       case StartPricing(slot) => HasClaim(s, slot) && ClaimAt(s, slot).phase.Queued?
       case FinishPricing(slot) => HasClaim(s, slot) && ClaimAt(s, slot).phase.Awaiting? && Returned(s, slot)
       case Send(slot) =>
         HasClaim(s, slot) && ClaimAt(s, slot).phase.Quoted? && ClaimAt(s, slot).phase.quote < |s.quotes|
       case Abandon(slot) => HasClaim(s, slot) && ClaimAt(s, slot).phase.Quoted?
       case Land(n) => n < |s.sent| && s.sent[n].status.InFlight?
       case Report(slot, ok) =>
         && HasClaim(s, slot) && ClaimAt(s, slot).phase.Sending? && ClaimAt(s, slot).phase.tx < |s.sent|
         && (ok ==> s.sent[ClaimAt(s, slot).phase.tx].status.Executed?)
       case FinishEvent => s.event.Some? && s.event.value.phase.Settled?
       case FinishBatch => s.batch.Some? && forall c :: c in s.batch.value ==> c.phase.Settled?
  }

  /** A response of the Pyth provider's loop: the `set` calls on each of the three caches. */
  function Refreshed(cfg: Config, s: System, prices: seq<Pyth.ApiPrice>): System
    requires !Pyth.AnyPanics(cfg.build, prices)
  {
    s.(pyth := PerMarket(s.pyth.btc + Pyth.SetsFor(cfg.build, prices, Btc),
                         s.pyth.eth + Pyth.SetsFor(cfg.build, prices, Eth),
                         s.pyth.sol + Pyth.SetsFor(cfg.build, prices, Sol)))
  }

  function Extended(s: System, m: MarketType, section: TimestampCache.Action): System {
    s.(pyth := s.pyth.Put(m, s.pyth.At(m) + [section]))
  }

  ghost function Next(cfg: Config, s: System, a: Action): System
    requires Enabled(cfg, s, a)
  {
    match a
    case Commit(tx) =>
      var emissions := if tx.instruction.CreateOrder?
        then [Emission(Execute(cfg.book, Accounts(cfg, s.log), s.now, tx).value.events[0].requested, true)] else [];
      s.(log := s.log + [Entry(s.now, tx)], emitted := s.emitted + emissions)
    case RollBack(requested) => s.(emitted := s.emitted + [Emission(requested, false)])
    case Advance(clock, instant) => s.(now := clock, instant := instant)
    case Hear(message) =>
      if Coinbase.Play(cfg.build, Coinbase.NO_TICKS, s.messages + [message]).Failure? then s.(halted := true)
      else s.(messages := s.messages + [message])
    case Refresh(prices) =>
      if Pyth.AnyPanics(cfg.build, prices) then s.(halted := true) else Refreshed(cfg, s, prices)
    case CacheSection(m, section) => Extended(s, m, section)
    case FetchAnswers(m, g, answer) =>
      var fetched := Pyth.FetchPrice(cfg.build, answer);
      if fetched.Failure? then s.(halted := true)
      else Extended(s, m, TimestampCache.FetchReturns(g, fetched.value))
    case Deliver(e) =>
      var event := s.emitted[e].event;
      if event.order in s.active then s
      else s.(active := s.active + {event.order},
              event := Some(Claim(event.order, event.market, event.timestamp, Delivered(e), Queued)))
    case Poll(listing) =>
      var claims := ClaimAll(s.active, listing);
      if claims.Failure? then s.(halted := true)
      else s.(active := s.active + Orders(claims.value), batch := Some(claims.value))
    case StartPricing(slot) =>
      var c := ClaimAt(s, slot);
      PutPhase(Extended(s, c.market, TimestampCache.TakeCell(c.timestamp)), slot, Awaiting(|CacheAt(s, c.market).gets|))
    case FinishPricing(slot) =>
      if ReturnedPrice(s, slot).Failure? then PutPhase(s, slot, Settled(false))
      else
        var quote := PriceOf(cfg.build, s, slot);
        if quote.Failure? then s.(halted := true)
        else PutPhase(s.(quotes := s.quotes + [quote.value]), slot, Quoted(|s.quotes|))
    case Send(slot) =>
      var c := ClaimAt(s, slot);
      var tx := Sent(c.order, c.market, c.timestamp, c.origin, c.phase.quote, s.quotes[c.phase.quote].price, InFlight);
      PutPhase(s.(sent := s.sent + [tx]), slot, Sending(|s.sent|))
    case Abandon(slot) => PutPhase(s, slot, Settled(false))
    case Land(n) =>
      var t := s.sent[n];
      if Execute(cfg.book, Accounts(cfg, s.log), s.now, Fulfilment(cfg, t)).Success?
      then s.(log := s.log + [Entry(s.now, Fulfilment(cfg, t))], sent := s.sent[n := t.(status := Executed)])
      else s.(sent := s.sent[n := t.(status := Rejected)])
    case Report(slot, ok) => PutPhase(s, slot, Settled(ok))
    case FinishEvent =>
      var c := s.event.value;
      if c.phase.ok then s.(event := None, confirmed := s.confirmed + {c.order})
      else s.(event := None, active := s.active - {c.order})
    case FinishBatch =>
      s.(batch := None, active := s.active - FailedOrders(s.batch.value),
         confirmed := s.confirmed + ConfirmedOrders(s.batch.value))
  }

  /** The hypotheses about the deployment. */
  ghost predicate ValidConfig(cfg: Config) {
    && cfg.book.Valid() && cfg.payer in cfg.book.authorities
    && !cfg.book.Derived(cfg.payer) && !cfg.book.Derived(cfg.signer)
  }

  /** A run: states joined by enabled actions, from the start. */
  ghost predicate IsRun(cfg: Config, states: seq<System>, actions: seq<Action>) {
    && |states| == |actions| + 1 && states[0] == START
    && forall i :: 0 <= i < |actions| ==>
         Enabled(cfg, states[i], actions[i]) && states[i + 1] == Next(cfg, states[i], actions[i])
  }
}
