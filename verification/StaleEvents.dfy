/** The worker also acts on events in the logs of failed transactions. This is why a closing price need not
    be for the order's own opening time when its claim came from such a log: for every market and order and
    any two times there is a run in which it is not. */
module StaleEvents {
  import opened MachineIntegers
  import opened Wrappers
  import opened Addresses
  import opened BackfillProgram
  import opened ProgramHistory
  import opened ProgramTheorems
  import opened WorkerClaims
  import opened FulfilmentSystem
  import opened SystemInvariants
  import PriceTheorems
  import Pyth
  import PythScaling
  import TimestampCache

  ghost predicate CanReach(cfg: Config, s: System) {
    exists states, actions :: IsRun(cfg, states, actions) && states[|actions|] == s
  }

  lemma CanStart(cfg: Config)
    ensures CanReach(cfg, START)
  {
    var none: seq<Action> := [];
    assert IsRun(cfg, [START], none) && [START][|none|] == START;
  }

  lemma ExtendedStep(cfg: Config, states: seq<System>, actions: seq<Action>, a: Action, t: System, i: nat)
    requires IsRun(cfg, states, actions) && Enabled(cfg, states[|actions|], a) && t == Next(cfg, states[|actions|], a)
    requires i <= |actions|
    ensures Enabled(cfg, (states + [t])[i], (actions + [a])[i])
    ensures (states + [t])[i + 1] == Next(cfg, (states + [t])[i], (actions + [a])[i])
  {
    if i < |actions| {
      StepAt(cfg, states, actions, i);
    }
  }

  lemma RunExtends(cfg: Config, states: seq<System>, actions: seq<Action>, a: Action, t: System)
    requires IsRun(cfg, states, actions) && Enabled(cfg, states[|actions|], a) && t == Next(cfg, states[|actions|], a)
    ensures IsRun(cfg, states + [t], actions + [a])
  {
    forall i | 0 <= i < |actions + [a]|
      ensures Enabled(cfg, (states + [t])[i], (actions + [a])[i])
      ensures (states + [t])[i + 1] == Next(cfg, (states + [t])[i], (actions + [a])[i])
    {
      ExtendedStep(cfg, states, actions, a, t, i);
    }
  }

  lemma CanStep(cfg: Config, s: System, a: Action) returns (t: System)
    requires CanReach(cfg, s) && Enabled(cfg, s, a)
    ensures t == Next(cfg, s, a) && CanReach(cfg, t)
  {
    t := Next(cfg, s, a);
    var states, actions :| IsRun(cfg, states, actions) && states[|actions|] == s;
    RunExtends(cfg, states, actions, a, t);
    assert (states + [t])[|actions + [a]|] == t;
  }

  lemma ReachableInv(cfg: Config, s: System)
    requires ValidConfig(cfg) && CanReach(cfg, s)
    ensures Inv(cfg, s)
  {
    var states, actions :| IsRun(cfg, states, actions) && states[|actions|] == s;
    Reachable(cfg, states, actions, |actions|);
  }

  /** The order's key is an ordinary one, and so are the worker's, which differ. */
  ghost predicate Ordinary(cfg: Config, k: Pubkey) {
    ValidConfig(cfg) && cfg.payer != cfg.signer && k != cfg.signer && !cfg.book.Derived(k)
  }

  /** There are such deployments and orders: the hypotheses can all be met at once. */
  lemma HypothesesCanBeMet(build: Build) returns (cfg: Config, k: Pubkey)
    ensures Ordinary(cfg, k) && cfg.build == build
  {
    cfg := Config(BookOf(SampleDerivation, {Key(1)}), Key(1), Key(2), build);
    k := Key(3);
    AddressHypothesesCanBeMet(Key(1));
    SampleIsNot(Key(1), 1);
    SampleIsNot(Key(1), 2);
    SampleIsNot(Key(1), 3);
    KeysDiffer(1, 2);
    KeysDiffer(2, 3);
  }

  function Initialization(cfg: Config): Transaction {
    Transaction(
      Initialize(cfg.book.program.key, cfg.book.market(Btc).key, cfg.book.market(Eth).key, cfg.book.market(Sol).key, cfg.payer),
      {cfg.payer})
  }

  function Creation(cfg: Config, k: Pubkey, m: MarketType): Transaction {
    Transaction(CreateOrder(k, cfg.book.program.key, cfg.book.market(m).key, cfg.payer, m), {cfg.payer, k})
  }

  /** The ledger once the program is initialized and the worker registered. */
  ghost predicate Deployed(cfg: Config, accounts: Ledger) {
    && HasProgram(accounts, cfg.book.program.key)
    && accounts[cfg.book.program.key].program.bump == cfg.book.program.bump
    && accounts[cfg.book.program.key].program.oracle == cfg.book.oracle(cfg.payer).key
    && (forall m :: HasMarket(accounts, cfg.book.market(m).key)
                    && accounts[cfg.book.market(m).key].market.bump == cfg.book.market(m).bump)
    && accounts.Keys == {cfg.book.program.key, cfg.book.market(Btc).key, cfg.book.market(Eth).key,
                         cfg.book.market(Sol).key, cfg.book.oracle(cfg.payer).key}
  }

  lemma InitializationRuns(cfg: Config, clock: Clock)
    requires ValidConfig(cfg)
    ensures Execute(cfg.book, map[], clock, Initialization(cfg)).Success?
    ensures
      var accounts := Execute(cfg.book, map[], clock, Initialization(cfg)).value.accounts;
      && Execute(cfg.book, accounts, clock, Registration(cfg)).Success?
      && Deployed(cfg, Execute(cfg.book, accounts, clock, Registration(cfg)).value.accounts)
  {
    var accounts := Execute(cfg.book, map[], clock, Initialization(cfg)).value.accounts;
    var after := Execute(cfg.book, accounts, clock, Registration(cfg)).value.accounts;
    forall m
      ensures HasMarket(after, cfg.book.market(m).key)
      ensures after[cfg.book.market(m).key].market.bump == cfg.book.market(m).bump
    {
      match m case Btc => case Eth => case Sol =>
    }
  }

  lemma CreationRuns(cfg: Config, accounts: Ledger, clock: Clock, k: Pubkey, m: MarketType)
    requires Ordinary(cfg, k) && Deployed(cfg, accounts)
    ensures Execute(cfg.book, accounts, clock, Creation(cfg, k, m)).Success?
    ensures Execute(cfg.book, accounts, clock, Creation(cfg, k, m)).value.events ==
            [Requested(PriceRequested(m, cfg.book.oracle(cfg.payer).key, k, clock.timestamp, clock.slot))]
  {
  }

  /** The log of the deployment. */
  function DeploymentLog(cfg: Config, clock: Clock): Log {
    [Entry(clock, Initialization(cfg))] + [Entry(clock, Registration(cfg))]
  }

  lemma DeploymentIsLogged(cfg: Config, clock: Clock)
    requires ValidConfig(cfg)
    ensures LedgerAfter(cfg.book, [Entry(clock, Initialization(cfg))]).Some?
    ensures Execute(cfg.book, Accounts(cfg, [Entry(clock, Initialization(cfg))]), clock, Registration(cfg)).Success?
    ensures Deployed(cfg, Accounts(cfg, DeploymentLog(cfg, clock)))
  {
    InitializationRuns(cfg, clock);
    var one, two := Entry(clock, Initialization(cfg)), Entry(clock, Registration(cfg));
    ExtendLedger(cfg.book, [], one);
    assert [] + [one] == [one];
    ExtendLedger(cfg.book, [one], two);
  }

  lemma DeploymentOracle(cfg: Config, clock: Clock)
    ensures CurrentOracle(DeploymentLog(cfg, clock)) == cfg.book.oracle(cfg.payer).key
    ensures LastSigner(DeploymentLog(cfg, clock), cfg.book.oracle(cfg.payer).key) == cfg.signer
  {
    Extend([Entry(clock, Initialization(cfg))], Entry(clock, Registration(cfg)));
  }

  /** A reachable state in which the program is deployed at a given time and nothing else has happened. */
  lemma Deploy(cfg: Config, t1: int64) returns (s: System)
    requires ValidConfig(cfg) && cfg.payer != cfg.signer && 0 <= t1
    ensures CanReach(cfg, s) && s == START.(log := s.log, now := Clock(1, t1))
    ensures Deployed(cfg, Accounts(cfg, s.log))
    ensures CurrentOracle(s.log) == cfg.book.oracle(cfg.payer).key
    ensures LastSigner(s.log, CurrentOracle(s.log)) == cfg.signer
  {
    s := DeploySteps(cfg, t1);
    DeploymentIsLogged(cfg, Clock(1, t1));
    DeploymentOracle(cfg, Clock(1, t1));
  }

  lemma DeploySteps(cfg: Config, t1: int64) returns (s: System)
    requires ValidConfig(cfg) && cfg.payer != cfg.signer && 0 <= t1
    ensures CanReach(cfg, s) && s == START.(log := DeploymentLog(cfg, Clock(1, t1)), now := Clock(1, t1))
  {
    var clock := Clock(1, t1);
    s := FirstSteps(cfg, t1);
    DeploymentIsLogged(cfg, clock);
    MayRegister(cfg, s);
    s := CanCommit(cfg, s, Registration(cfg));
  }

  lemma CanCommit(cfg: Config, s: System, tx: Transaction) returns (t: System)
    requires CanReach(cfg, s) && !s.halted && MayCommit(cfg, s, tx) && !tx.instruction.CreateOrder?
    ensures CanReach(cfg, t) && t == s.(log := s.log + [Entry(s.now, tx)])
  {
    t := CanStep(cfg, s, Commit(tx));
  }

  lemma CanAdvance(cfg: Config, s: System, clock: Clock) returns (t: System)
    requires CanReach(cfg, s) && !s.halted && NotBefore(s.now, clock)
    ensures CanReach(cfg, t) && t == s.(now := clock)
  {
    t := CanStep(cfg, s, Advance(clock, s.instant));
  }

  lemma MayInitialize(cfg: Config, s: System)
    requires ValidConfig(cfg) && cfg.payer != cfg.signer && Accounts(cfg, s.log) == map[]
    ensures MayCommit(cfg, s, Initialization(cfg))
  {
    InitializationRuns(cfg, s.now);
  }

  lemma MayRegister(cfg: Config, s: System)
    requires ValidConfig(cfg) && Execute(cfg.book, Accounts(cfg, s.log), s.now, Registration(cfg)).Success?
    ensures MayCommit(cfg, s, Registration(cfg))
  {
  }

  lemma FirstSteps(cfg: Config, t1: int64) returns (s: System)
    requires ValidConfig(cfg) && cfg.payer != cfg.signer && 0 <= t1
    ensures CanReach(cfg, s)
    ensures s == START.(log := [Entry(Clock(1, t1), Initialization(cfg))], now := Clock(1, t1))
  {
    var clock := Clock(1, t1);
    CanStart(cfg);
    s := CanAdvance(cfg, START, clock);
    assert Accounts(cfg, s.log) == map[];
    MayInitialize(cfg, s);
    s := CanCommit(cfg, s, Initialization(cfg));
  }

  lemma CanCreate(cfg: Config, s: System, k: Pubkey, m: MarketType) returns (t: System)
    requires CanReach(cfg, s) && !s.halted && Ordinary(cfg, k) && Deployed(cfg, Accounts(cfg, s.log))
    ensures CanReach(cfg, t) && |t.emitted| == |s.emitted| + 1 && s.emitted <= t.emitted
    ensures t == s.(log := s.log + [Entry(s.now, Creation(cfg, k, m))], emitted := t.emitted)
  {
    CreationRuns(cfg, Accounts(cfg, s.log), s.now, k, m);
    t := CanStep(cfg, s, Commit(Creation(cfg, k, m)));
  }

  /** The rolled-back creation at t1 would have been accepted; the committed one at t2 is. */
  lemma CreateTwice(cfg: Config, k: Pubkey, m: MarketType, t1: int64, t2: int64) returns (s: System)
    requires Ordinary(cfg, k) && 0 <= t1 < t2
    ensures CanReach(cfg, s) && Created(s.log, k, m, t2)
    ensures s == START.(log := s.log, now := Clock(2, t2), emitted := s.emitted)
    ensures |s.emitted| == 2 && !s.emitted[0].committed
    ensures s.emitted[0].event.order == k && s.emitted[0].event.market == m && s.emitted[0].event.timestamp == t1
    ensures CurrentOracle(s.log) == cfg.book.oracle(cfg.payer).key
    ensures LastSigner(s.log, CurrentOracle(s.log)) == cfg.signer
    ensures !Closed(s.log, k)
  {
    s := RollBackFirst(cfg, k, m, t1, t2);
    var before, e := s.log, Entry(Clock(2, t2), Creation(cfg, k, m));
    ReachableInv(cfg, s);
    NotYet(cfg, before, k);
    s := CanCreate(cfg, s, k, m);
    Extend(before, e);
    assert s.log == before + [e] && IsCreate(s.log[|before|], k);
  }

  lemma RollBackFirst(cfg: Config, k: Pubkey, m: MarketType, t1: int64, t2: int64) returns (s: System)
    requires Ordinary(cfg, k) && 0 <= t1 < t2
    ensures CanReach(cfg, s) && Deployed(cfg, Accounts(cfg, s.log))
    ensures s == START.(log := s.log, now := Clock(2, t2),
                        emitted := [Emission(PriceRequested(m, cfg.book.oracle(cfg.payer).key, k, t1, 1), false)])
    ensures CurrentOracle(s.log) == cfg.book.oracle(cfg.payer).key
    ensures LastSigner(s.log, CurrentOracle(s.log)) == cfg.signer
    ensures Execute(cfg.book, Accounts(cfg, s.log), Clock(1, t1), Creation(cfg, k, m)).Success?
  {
    s := Deploy(cfg, t1);
    CreationRuns(cfg, Accounts(cfg, s.log), s.now, k, m);
    s := CanStep(cfg, s, RollBack(PriceRequested(m, cfg.book.oracle(cfg.payer).key, k, t1, 1)));
    s := CanAdvance(cfg, s, Clock(2, t2));
  }

  lemma NotYet(cfg: Config, log: Log, k: Pubkey)
    requires ValidLog(cfg.book, log) && k !in Accounts(cfg, log)
    ensures !Closed(log, k)
  {
    if Closed(log, k) {
      var j :| 0 <= j < |log| && IsFulfill(log[j], k);
      CreatedOnceFulfilledOnce(cfg.book, log, k, j, j);
    }
  }

  /** The event loop takes the rolled-back event, and a fresh cache lets the fetch answer. */
  lemma PriceIt(cfg: Config, before: System, m: MarketType, p: uint64) returns (s: System)
    requires CanReach(cfg, before) && before == START.(log := before.log, now := before.now, emitted := before.emitted)
    requires |before.emitted| > 0 && before.emitted[0].event.market == m
    ensures CanReach(cfg, s) && !s.halted && s.log == before.log && s.now == before.now && s.emitted == before.emitted
    ensures |s.quotes| == 1 && s.quotes[0].market == m && s.quotes[0].timestamp == before.emitted[0].event.timestamp
    ensures s.quotes[0].price == p && s.sent == []
    ensures s.event == Some(Claim(before.emitted[0].event.order, m, before.emitted[0].event.timestamp, Delivered(0), Quoted(0)))
  {
    s := TakeIt(cfg, before, m);
    s := FetchIsAnswered(cfg, s, m, before.emitted[0].event.timestamp, p);
    NothingHeard(cfg.build, m, before.emitted[0].event.timestamp);
    s := CanStep(cfg, s, FinishPricing(EventSlot));
  }

  lemma NothingHeard(build: Build, m: MarketType, ts: int64)
    ensures PublishedPrice(build, [], m, ts, 0) == None
  {
  }

  lemma TakeIt(cfg: Config, before: System, m: MarketType) returns (s: System)
    requires CanReach(cfg, before) && before == START.(log := before.log, now := before.now, emitted := before.emitted)
    requires |before.emitted| > 0 && before.emitted[0].event.market == m
    ensures CanReach(cfg, s) && TimestampCache.After(s.pyth.At(m)).Some?
    ensures
      var event := before.emitted[0].event;
      && s == before.(active := {event.order}, pyth := s.pyth,
                      event := Some(Claim(event.order, m, event.timestamp, Delivered(0), Awaiting(0))))
      && CacheAt(s, m) == TimestampCache.Next(TimestampCache.EMPTY_CACHE, TimestampCache.TakeCell(event.timestamp))
  {
    var ts := before.emitted[0].event.timestamp;
    s := CanStep(cfg, before, Deliver(0));
    assert CacheAt(s, m) == TimestampCache.EMPTY_CACHE;
    CacheMoves(s, m, TimestampCache.TakeCell(ts), m);
    s := CanStep(cfg, s, StartPricing(EventSlot));
  }

  /** A cache with a single read, alone on its cell. */
  function OneRead(ts: int64, phase: TimestampCache.Phase, writer: Option<nat>): TimestampCache.State {
    TimestampCache.State([TimestampCache.Cell(ts, TimestampCache.Empty, None, writer)], map[ts := 0],
                         [TimestampCache.Reader(ts, 0, phase)])
  }

  lemma AloneOnItsCell(ts: int64)
    ensures TimestampCache.Next(TimestampCache.EMPTY_CACHE, TimestampCache.TakeCell(ts)) == OneRead(ts, TimestampCache.Took, None)
    ensures TimestampCache.Next(OneRead(ts, TimestampCache.Took, None), TimestampCache.ReadCheck(0)) ==
            OneRead(ts, TimestampCache.Missed, None)
    ensures TimestampCache.Next(OneRead(ts, TimestampCache.Missed, None), TimestampCache.LockWrite(0)) ==
            OneRead(ts, TimestampCache.Locked, Some(0))
    ensures TimestampCache.Next(OneRead(ts, TimestampCache.Locked, Some(0)), TimestampCache.Recheck(0)) ==
            OneRead(ts, TimestampCache.Fetching, Some(0))
  {
  }

  /** It goes through its sections and returns what the fetch gives. */
  lemma FetchIsAnswered(cfg: Config, before: System, m: MarketType, ts: int64, p: uint64) returns (s: System)
    requires CanReach(cfg, before) && !before.halted && TimestampCache.After(before.pyth.At(m)).Some?
    requires CacheAt(before, m) == TimestampCache.Next(TimestampCache.EMPTY_CACHE, TimestampCache.TakeCell(ts))
    ensures CanReach(cfg, s) && s == before.(pyth := s.pyth)
    ensures CacheAt(s, m).gets == [TimestampCache.Reader(ts, 0, TimestampCache.Returned(Success(p)))]
  {
    AloneOnItsCell(ts);
    s := Section(cfg, before, m, TimestampCache.ReadCheck(0));
    s := Section(cfg, s, m, TimestampCache.LockWrite(0));
    s := Section(cfg, s, m, TimestampCache.Recheck(0));
    s := CanAnswer(cfg, s, m, ts, p);
  }

  lemma CanAnswer(cfg: Config, before: System, m: MarketType, ts: int64, p: uint64) returns (s: System)
    requires CanReach(cfg, before) && !before.halted && TimestampCache.After(before.pyth.At(m)).Some?
    requires CacheAt(before, m) == OneRead(ts, TimestampCache.Fetching, Some(0))
    ensures CanReach(cfg, s) && s == before.(pyth := s.pyth)
    ensures CacheAt(s, m).gets == [TimestampCache.Reader(ts, 0, TimestampCache.Returned(Success(p)))]
  {
    PlainQuote(cfg.build, p);
    CacheMoves(before, m, TimestampCache.FetchReturns(0, Success(p)), m);
    s := CanStep(cfg, before, FetchAnswers(m, 0, Pyth.Answered(PythScaling.PriceInfo(Some(p), -9, 0))));
  }

  /** A quote with nine decimals is taken as it is. */
  lemma PlainQuote(build: Build, p: uint64)
    ensures Pyth.FetchPrice(build, Pyth.Answered(PythScaling.PriceInfo(Some(p), -9, 0))) == Success(Success(p))
  {
    PythScaling.Computed(build, p, -9, 0);
  }

  lemma Section(cfg: Config, s: System, m: MarketType, section: TimestampCache.Action) returns (t: System)
    requires CanReach(cfg, s) && !s.halted && (section.ReadCheck? || section.LockWrite? || section.Recheck?)
    requires TimestampCache.After(s.pyth.At(m)).Some?
    requires TimestampCache.Enabled(CacheAt(s, m), section)
    ensures CanReach(cfg, t) && t == s.(pyth := t.pyth) && TimestampCache.After(t.pyth.At(m)).Some?
    ensures CacheAt(t, m) == TimestampCache.Next(CacheAt(s, m), section)
  {
    CacheMoves(s, m, section, m);
    t := CanStep(cfg, s, CacheSection(m, section));
  }

  /** For every market, order, price and any two times there is a run in which the order, opened at the
      later time, is closed by the worker with a price that was quoted only for the earlier time. */
  lemma RolledBackEventsMisprice(cfg: Config, k: Pubkey, m: MarketType, t1: int64, t2: int64, p: uint64)
    returns (s: System)
    requires Ordinary(cfg, k) && 0 <= t1 < t2
    ensures CanReach(cfg, s)
    ensures exists n: nat :: PriceTheorems.ClosedWithQuote(cfg, s, k, n)
    ensures |s.sent| == 1 && !PriceTheorems.TrustedOrigin(s, s.sent[0].origin)
    ensures HasOrder(Accounts(cfg, s.log), k) && Accounts(cfg, s.log)[k].order.openTimestamp == t2
    ensures |s.quotes| == 1 && s.quotes[0].timestamp == t1 && s.quotes[0].price == p
  {
    s := CreateTwice(cfg, k, m, t1, t2);
    var log := s.log;
    s := PriceIt(cfg, s, m, p);
    s := SendIt(cfg, s, k, m, t2);
    assert s.log[..|log|] == log && IsFulfill(s.log[|log|], k);
    LogGrows(log, s.log, k, m, t2);
    OpenedAt(cfg, s, k, m, t2);
    ClosedByTheWorker(cfg, s, k, |log|);
  }

  lemma OpenedAt(cfg: Config, s: System, k: Pubkey, m: MarketType, ts: int64)
    requires ValidConfig(cfg) && CanReach(cfg, s) && Created(s.log, k, m, ts)
    ensures HasOrder(Accounts(cfg, s.log), k) && Accounts(cfg, s.log)[k].order.openTimestamp == ts
  {
    ReachableInv(cfg, s);
    var c :| 0 <= c < |s.log| && IsCreate(s.log[c], k)
             && s.log[c].tx.instruction.marketType == m && s.log[c].clock.timestamp == ts;
    PriceTheorems.CreationDecides(cfg, s, k, c);
  }

  lemma ClosedByTheWorker(cfg: Config, s: System, k: Pubkey, j: nat)
    requires ValidConfig(cfg) && CanReach(cfg, s) && j < |s.log| && IsFulfill(s.log[j], k)
    requires LastSigner(s.log[..j], CurrentOracle(s.log[..j])) == cfg.signer
    ensures exists n: nat :: PriceTheorems.ClosedWithQuote(cfg, s, k, n)
  {
    ReachableInv(cfg, s);
    var n := PriceTheorems.ClosingPriceIsAQuote(cfg, s, k, j);
  }

  /** The quoted attempt is sent, and lands. */
  lemma SendIt(cfg: Config, before: System, k: Pubkey, m: MarketType, t2: int64) returns (s: System)
    requires ValidConfig(cfg) && CanReach(cfg, before) && !before.halted && before.sent == []
    requires before.event.Some? && before.event.value.order == k && before.event.value.market == m
    requires before.event.value.phase == Quoted(0) && |before.quotes| > 0
    requires Created(before.log, k, m, t2) && !Closed(before.log, k)
    requires CurrentOracle(before.log) == cfg.book.oracle(cfg.payer).key
    requires LastSigner(before.log, CurrentOracle(before.log)) == cfg.signer
    ensures CanReach(cfg, s)
    ensures s == before.(log := s.log, event := s.event, sent := s.sent)
    ensures |s.sent| == 1 && s.sent[0].origin == before.event.value.origin && s.sent[0].quote == 0
    ensures s.log == before.log + [Entry(before.now, Fulfilment(cfg, s.sent[0]))]
    ensures s.sent[0].order == k
  {
    var c :| 0 <= c < |before.log| && IsCreate(before.log[c], k)
             && before.log[c].tx.instruction.marketType == m && before.log[c].clock.timestamp == t2;
    s := CanStep(cfg, before, Send(EventSlot));
    ReachableInv(cfg, s);
    PriceTheorems.CreationDecides(cfg, s, k, c);
    PriceTheorems.WorkerFulfilmentAccepted(cfg, s, s.sent[0]);
    s := CanLand(cfg, s);
  }

  lemma CanLand(cfg: Config, s: System) returns (t: System)
    requires CanReach(cfg, s) && !s.halted && |s.sent| > 0 && s.sent[0].status.InFlight?
    requires Execute(cfg.book, Accounts(cfg, s.log), s.now, Fulfilment(cfg, s.sent[0])).Success?
    ensures CanReach(cfg, t)
    ensures t == s.(log := s.log + [Entry(s.now, Fulfilment(cfg, s.sent[0]))],
                    sent := s.sent[0 := s.sent[0].(status := Executed)])
  {
    t := CanStep(cfg, s, Land(0));
  }

  /** Such a run exists. */
  lemma MispricingHappens(build: Build, m: MarketType, t1: int64, t2: int64, p: uint64)
    returns (cfg: Config, k: Pubkey, s: System)
    requires 0 <= t1 < t2
    ensures ValidConfig(cfg) && cfg.build == build && CanReach(cfg, s) && Inv(cfg, s)
    ensures HasOrder(Accounts(cfg, s.log), k) && Accounts(cfg, s.log)[k].order.openTimestamp == t2
    ensures exists n: nat :: PriceTheorems.ClosedWithQuote(cfg, s, k, n)
    ensures |s.quotes| == 1 && s.quotes[0].timestamp == t1 && s.quotes[0].price == p
  {
    cfg, k := HypothesesCanBeMet(build);
    s := RolledBackEventsMisprice(cfg, k, m, t1, t2, p);
    ReachableInv(cfg, s);
  }
}
