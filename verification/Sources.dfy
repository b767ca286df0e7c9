/** Where the worker's data comes from: every Pyth value that it quotes is the scaled price of an answer, the
    feed is exactly what was heard, and every creation is told. */
module Sources {
  import opened MachineIntegers
  import opened Wrappers
  import opened Addresses
  import opened BackfillProgram
  import opened ProgramHistory
  import opened ProgramTheorems
  import opened ProgramAcceptance
  import opened FulfilmentSystem
  import opened SystemInvariants
  import opened Endings
  import TimestampCache
  import Coinbase
  import Pyth

  // ----- What an answer does to the cache

  /** A fetch that is answered with a quote returns its scaled price, which the cell then holds; one that is
      refused returns the error and stores nothing. */
  lemma FetchStores(cfg: Config, s: System, a: Action)
    requires Inv(cfg, s) && Enabled(cfg, s, a) && a.FetchAnswers? && !Next(cfg, s, a).halted
    ensures
      var before, after := CacheAt(s, a.market), CacheAt(Next(cfg, s, a), a.market);
      && a.get < |before.gets| && a.get < |after.gets| && after.gets[a.get].phase.Returned?
      && before.gets[a.get].cell < |before.cells| == |after.cells|
      && (var cell, result := before.gets[a.get].cell, after.gets[a.get].phase.result;
          match a.answer
          case Refused => result == Failure(TimestampCache.NetworkError) && after.cells[cell].value == before.cells[cell].value
          case Answered(info) =>
            result.Success? && Pyth.IsScaledQuote(info, result.value) && after.cells[cell].value == Some(result.value))
  {
    Pyth.FetchMeaning(cfg.build, a.answer);
    FetchRuns(cfg, s, a);
    CachesStep(cfg, s, a, a.market);
  }

  lemma FetchRuns(cfg: Config, s: System, a: Action)
    requires Enabled(cfg, s, a) && a.FetchAnswers? && !Next(cfg, s, a).halted
    ensures Pyth.FetchPrice(cfg.build, a.answer).Success?
    ensures SectionOf(cfg, s, a) ==
            Some((a.market, TimestampCache.FetchReturns(a.get, Pyth.FetchPrice(cfg.build, a.answer).value)))
  {
  }

  /** After a response each second that it quotes for a market holds the scaled price of its last quote. */
  lemma RefreshStores(cfg: Config, s: System, a: Action, m: MarketType, i: nat)
    requires Inv(cfg, s) && Enabled(cfg, s, a) && a.Refresh? && !Next(cfg, s, a).halted
    requires i < |a.prices| && a.prices[i].id == Pyth.FeedOf(m)
    requires forall j :: i < j < |a.prices| && a.prices[j].id == Pyth.FeedOf(m) ==>
               a.prices[j].info.publishTime != a.prices[i].info.publishTime
    ensures
      var cache, ts := CacheAt(Next(cfg, s, a), m), a.prices[i].info.publishTime;
      && 0 <= ts < TWO_63 && ts in cache.data && cache.data[ts] < |cache.cells|
      && cache.cells[cache.data[ts]].value.Some?
      && Pyth.IsScaledQuote(a.prices[i].info, cache.cells[cache.data[ts]].value.value)
  {
    RefreshRuns(cfg, s, a);
    RefreshedBy(cfg, s, a.prices, m);
    Pyth.LastPriceWins(cfg.build, CacheAt(s, m), a.prices, Pyth.FeedOf(m), i);
  }

  lemma RefreshRuns(cfg: Config, s: System, a: Action)
    requires Enabled(cfg, s, a) && a.Refresh? && !Next(cfg, s, a).halted
    ensures !Pyth.AnyPanics(cfg.build, a.prices) && Next(cfg, s, a) == Refreshed(cfg, s, a.prices)
  {
  }

  lemma RefreshedBy(cfg: Config, s: System, prices: seq<Pyth.ApiPrice>, m: MarketType)
    requires CachesRun(s) && !Pyth.AnyPanics(cfg.build, prices)
    ensures CacheAt(Refreshed(cfg, s, prices), m) == Pyth.AfterSets(CacheAt(s, m), Pyth.SetsFor(cfg.build, prices, m))
  {
    var sets := Pyth.SetsFor(cfg.build, prices, m);
    assert Refreshed(cfg, s, prices).pyth.At(m) == s.pyth.At(m) + sets;
    Pyth.SetsRun(s.pyth.At(m), sets);
  }

  // ----- Every quoted Pyth value was answered

  /** The action brings this value for this market and second: as a quote of a response, or as the answer to
      a fetch for that second. */
  ghost predicate Brings(s: System, a: Action, m: MarketType, ts: int64, v: uint64) {
    match a
    case Refresh(prices) =>
      exists p :: p in prices && p.id == Pyth.FeedOf(m) && p.info.publishTime == ts && Pyth.IsScaledQuote(p.info, v)
    case FetchAnswers(n, g, answer) =>
      && n == m && g < |CacheAt(s, m).gets| && CacheAt(s, m).gets[g].timestamp == ts
      && answer.Answered? && Pyth.IsScaledQuote(answer.info, v)
    case _ => false
  }

  /** Some action of the run before state i brought it. */
  ghost predicate Brought(states: seq<System>, actions: seq<Action>, i: nat, m: MarketType, ts: int64, v: uint64)
    requires i < |states| == |actions| + 1
  {
    exists j :: 0 <= j < i && Brings(states[j], actions[j], m, ts, v)
  }

  ghost predicate Holds(s: System, m: MarketType, ts: int64, v: uint64) {
    exists c: nat :: c < |CacheAt(s, m).cells| && CacheAt(s, m).cells[c].timestamp == ts && CacheAt(s, m).cells[c].value == Some(v)
  }

  lemma SectionBrings(cfg: Config, s: System, a: Action, m: MarketType, c: nat)
    requires Inv(cfg, s) && Enabled(cfg, s, a) && SectionOf(cfg, s, a).Some? && SectionOf(cfg, s, a).value.0 == m
    requires c < |CacheAt(Next(cfg, s, a), m).cells| && CacheAt(Next(cfg, s, a), m).cells[c].value.Some?
    ensures
      var cell := CacheAt(Next(cfg, s, a), m).cells[c];
      Holds(s, m, cell.timestamp, cell.value.value) || Brings(s, a, m, cell.timestamp, cell.value.value)
  {
    CachesStep(cfg, s, a, m);
    var before, section := CacheAt(s, m), SectionOf(cfg, s, a).value.1;
    if c < |before.cells| {
      TimestampCache.CellsAreWriteOnce(before, section, c);
      if before.cells[c].value.None? {
        TimestampCache.Mover(before, section);
        assert a.FetchAnswers?;
        Pyth.FetchMeaning(cfg.build, a.answer);
      }
    }
  }

  lemma RefreshBrings(cfg: Config, s: System, a: Action, m: MarketType, c: nat)
    requires Inv(cfg, s) && a.Refresh? && !Pyth.AnyPanics(cfg.build, a.prices)
    requires c < |CacheAt(Refreshed(cfg, s, a.prices), m).cells| && CacheAt(Refreshed(cfg, s, a.prices), m).cells[c].value.Some?
    ensures
      var cell := CacheAt(Refreshed(cfg, s, a.prices), m).cells[c];
      Holds(s, m, cell.timestamp, cell.value.value) || Brings(s, a, m, cell.timestamp, cell.value.value)
  {
    RefreshedBy(cfg, s, a.prices, m);
    Pyth.CellAfterResponse(cfg.build, CacheAt(s, m), a.prices, Pyth.FeedOf(m), c);
  }

  /** The run of a market's cache changes by a section of it or by a response only. */
  lemma CacheChanges(cfg: Config, s: System, a: Action, m: MarketType)
    requires Enabled(cfg, s, a)
    ensures
      || (SectionOf(cfg, s, a).Some? && SectionOf(cfg, s, a).value.0 == m)
      || (a.Refresh? && !Pyth.AnyPanics(cfg.build, a.prices) && Next(cfg, s, a) == Refreshed(cfg, s, a.prices))
      || CacheAt(Next(cfg, s, a), m) == CacheAt(s, m)
  {
    RunsAfter(cfg, s, a);
  }

  lemma CellsStep(cfg: Config, s: System, a: Action, m: MarketType, ts: int64, v: uint64)
    requires Inv(cfg, s) && Enabled(cfg, s, a) && Holds(Next(cfg, s, a), m, ts, v)
    ensures Holds(s, m, ts, v) || Brings(s, a, m, ts, v)
  {
    CacheChanges(cfg, s, a, m);
    var t := Next(cfg, s, a);
    var c: nat :| c < |CacheAt(t, m).cells| && CacheAt(t, m).cells[c].timestamp == ts && CacheAt(t, m).cells[c].value == Some(v);
    if CacheAt(t, m) == CacheAt(s, m) {
      assert Holds(s, m, ts, v);
    } else if SectionOf(cfg, s, a).Some? && SectionOf(cfg, s, a).value.0 == m {
      SectionBrings(cfg, s, a, m, c);
    } else {
      RefreshBrings(cfg, s, a, m, c);
    }
  }

  lemma {:induction false} HeldWasBrought(cfg: Config, states: seq<System>, actions: seq<Action>, i: nat,
                                          m: MarketType, ts: int64, v: uint64)
    requires ValidConfig(cfg) && IsRun(cfg, states, actions) && i < |states| && Holds(states[i], m, ts, v)
    ensures Brought(states, actions, i, m, ts, v)
  {
    if i > 0 {
      Reachable(cfg, states, actions, i - 1);
      StepAt(cfg, states, actions, i - 1);
      CellsStep(cfg, states[i - 1], actions[i - 1], m, ts, v);
      if Holds(states[i - 1], m, ts, v) {
        HeldWasBrought(cfg, states, actions, i - 1, m, ts, v);
        var j :| 0 <= j < i - 1 && Brings(states[j], actions[j], m, ts, v);
        assert Brings(states[j], actions[j], m, ts, v);
      }
    }
  }

  /** The Pyth part of every quote is the scaled price of a quote that an earlier response gave for that second,
      or of the answer to an earlier fetch for it. */
  lemma QuotedPriceWasBrought(cfg: Config, states: seq<System>, actions: seq<Action>, i: nat, q: nat)
    requires ValidConfig(cfg) && IsRun(cfg, states, actions) && i < |states| && q < |states[i].quotes|
    ensures
      var quote := states[i].quotes[q];
      Brought(states, actions, i, quote.market, quote.timestamp, quote.pyth)
  {
    Reachable(cfg, states, actions, i);
    var s, quote := states[i], states[i].quotes[q];
    assert QuoteInv(cfg, s, q) && TimestampCache.Inv(CacheAt(s, quote.market));
    assert TimestampCache.GetInv(CacheAt(s, quote.market), quote.get);
    HeldWasBrought(cfg, states, actions, i, quote.market, quote.timestamp, quote.pyth);
  }

  // ----- The feed is what was heard

  function HeardIn(actions: seq<Action>): seq<Coinbase.Message> {
    if actions == [] then []
    else
      var last := actions[|actions| - 1];
      HeardIn(actions[..|actions| - 1]) + if last.Hear? then [last.message] else []
  }

  lemma MessagesStep(cfg: Config, s: System, a: Action)
    requires Enabled(cfg, s, a) && !Next(cfg, s, a).halted
    ensures Next(cfg, s, a).messages == s.messages + if a.Hear? then [a.message] else []
    ensures a.Hear? ==> a.message.arrival == s.instant
  {
  }

  /** As long as the worker runs, the feed has handled exactly the messages that were heard, in order. */
  lemma {:induction false} FeedIsWhatWasHeard(cfg: Config, states: seq<System>, actions: seq<Action>, i: nat)
    requires IsRun(cfg, states, actions) && i < |states| && !states[i].halted
    ensures states[i].messages == HeardIn(actions[..i])
  {
    if i > 0 {
      StepAt(cfg, states, actions, i - 1);
      AliveBefore(cfg, states[i - 1], actions[i - 1]);
      FeedIsWhatWasHeard(cfg, states, actions, i - 1);
      MessagesStep(cfg, states[i - 1], actions[i - 1]);
      assert actions[..i][..i - 1] == actions[..i - 1];
    }
  }

  /** The clock and the instant are those of the last advance. */
  lemma TimeStep(cfg: Config, s: System, a: Action)
    requires Enabled(cfg, s, a)
    ensures Next(cfg, s, a).now == if a.Advance? then a.clock else s.now
    ensures Next(cfg, s, a).instant == if a.Advance? then a.instant else s.instant
  {
  }

  // ----- Every creation is told

  /** A committed event names the creation: its market, key, time and slot. */
  ghost predicate NamesCreation(emission: Emission, k: Pubkey, e: Entry)
    requires e.tx.instruction.CreateOrder?
  {
    && emission.committed && emission.event.market == e.tx.instruction.marketType && emission.event.order == k
    && emission.event.timestamp == e.clock.timestamp && emission.event.slot == e.clock.slot
  }

  ghost predicate Told(s: System, k: Pubkey, e: Entry)
    requires e.tx.instruction.CreateOrder?
  {
    exists n: nat :: n < |s.emitted| && NamesCreation(s.emitted[n], k, e)
  }

  lemma CommitEmits(cfg: Config, s: System, a: Action)
    requires Enabled(cfg, s, a) && a.Commit? && a.tx.instruction.CreateOrder?
    ensures
      var effect := Execute(cfg.book, Accounts(cfg, s.log), s.now, a.tx).value;
      && |effect.events| > 0 && effect.events[0].Requested?
      && Next(cfg, s, a).emitted == s.emitted + [Emission(effect.events[0].requested, true)]
  {
  }

  lemma CommitTells(cfg: Config, s: System, a: Action)
    requires Inv(cfg, s) && Enabled(cfg, s, a) && a.Commit? && a.tx.instruction.CreateOrder?
    ensures Told(Next(cfg, s, a), a.tx.instruction.order, Entry(s.now, a.tx))
  {
    CommitEmits(cfg, s, a);
    CommitSucceeds(cfg, s, a);
    AfterCreation(cfg.book, s.log, s.now, a.tx.instruction, a.tx.signers);
    assert NamesCreation(Next(cfg, s, a).emitted[|s.emitted|], a.tx.instruction.order, Entry(s.now, a.tx));
  }

  lemma CommitSucceeds(cfg: Config, s: System, a: Action)
    requires Enabled(cfg, s, a) && a.Commit?
    ensures Execute(cfg.book, Accounts(cfg, s.log), s.now, a.tx).Success?
    ensures a.tx == Transaction(a.tx.instruction, a.tx.signers)
  {
  }

  lemma ToldStays(s: System, t: System, k: Pubkey, e: Entry)
    requires e.tx.instruction.CreateOrder? && Told(s, k, e) && s.emitted <= t.emitted
    ensures Told(t, k, e)
  {
    var n: nat :| n < |s.emitted| && NamesCreation(s.emitted[n], k, e);
    assert NamesCreation(t.emitted[n], k, e);
  }

  lemma OnlyCommitsCreate(cfg: Config, s: System, a: Action, k: Pubkey)
    requires Enabled(cfg, s, a) && |s.log| < |Next(cfg, s, a).log| && IsCreate(Next(cfg, s, a).log[|s.log|], k)
    ensures a.Commit? && a.tx.instruction.CreateOrder? && a.tx.instruction.order == k
    ensures Next(cfg, s, a).log == s.log + [Entry(s.now, a.tx)]
  {
    LogAfter(cfg, s, a);
  }

  lemma CreationStep(cfg: Config, s: System, a: Action, c: nat, k: Pubkey)
    requires Inv(cfg, s) && Enabled(cfg, s, a) && c < |Next(cfg, s, a).log| && IsCreate(Next(cfg, s, a).log[c], k)
    requires c < |s.log| && IsCreate(s.log[c], k) ==> Told(s, k, s.log[c])
    ensures Told(Next(cfg, s, a), k, Next(cfg, s, a).log[c])
  {
    LogGrowsBy(cfg, s, a);
    if c < |s.log| {
      ToldStays(s, Next(cfg, s, a), k, s.log[c]);
    } else {
      AddsOne(cfg, s, a);
      OnlyCommitsCreate(cfg, s, a, k);
      CommitTells(cfg, s, a);
    }
  }

  lemma AddsOne(cfg: Config, s: System, a: Action)
    requires Enabled(cfg, s, a)
    ensures |Next(cfg, s, a).log| <= |s.log| + 1
  {
    LogAfter(cfg, s, a);
  }

  lemma {:induction false} AllTold(cfg: Config, states: seq<System>, actions: seq<Action>, i: nat, c: nat, k: Pubkey)
    requires ValidConfig(cfg) && IsRun(cfg, states, actions) && i < |states|
    ensures c < |states[i].log| && IsCreate(states[i].log[c], k) ==> Told(states[i], k, states[i].log[c])
    decreases i
  {
    if i > 0 {
      AllTold(cfg, states, actions, i - 1, c, k);
      Reachable(cfg, states, actions, i - 1);
      StepAt(cfg, states, actions, i - 1);
      if c < |states[i].log| && IsCreate(states[i].log[c], k) {
        CreationStep(cfg, states[i - 1], actions[i - 1], c, k);
      }
    }
  }

  /** No creation goes untold: each one in the log has its event, with its own market, time and slot. */
  lemma EveryCreationIsTold(cfg: Config, states: seq<System>, actions: seq<Action>, i: nat, c: nat, k: Pubkey)
    requires ValidConfig(cfg) && IsRun(cfg, states, actions) && i < |states|
    requires c < |states[i].log| && IsCreate(states[i].log[c], k)
    ensures Told(states[i], k, states[i].log[c])
  {
    AllTold(cfg, states, actions, i, c, k);
  }
}
