/** Every attempt ends: a measure of the work ahead never grows once the orders are claimed, and as long as
    an attempt is not settled some step makes the measure smaller. */
module Progress {
  import opened Wrappers
  import opened Addresses
  import opened ProgramHistory
  import opened WorkerClaims
  import opened FulfilmentSystem
  import opened SystemInvariants
  import Pyth
  import TimestampCache

  function GetRank(phase: TimestampCache.Phase): nat {
    match phase
    case Took => 4
    case Missed => 3
    case Locked => 2
    case Fetching => 1
    case Returned(_) => 0
  }

  /** How many steps an attempt has still to go at most. */
  function Rank(s: System, c: Claim): nat {
    match c.phase
    case Queued => 8
    case Awaiting(g) =>
      var gets := CacheAt(s, c.market).gets;
      3 + if g < |gets| then GetRank(gets[g].phase) else 0
    case Quoted(_) => 2
    case Sending(_) => 1
    case Settled(_) => 0
  }

  function Sum(ranks: seq<nat>): nat {
    if ranks == [] then 0 else Sum(ranks[..|ranks| - 1]) + ranks[|ranks| - 1]
  }

  function BatchRanks(s: System, t: System): seq<nat> {
    if t.batch.Some? then seq(|t.batch.value|, i requires 0 <= i < |t.batch.value| => Rank(s, t.batch.value[i])) else []
  }

  function EventRank(s: System): nat {
    if s.event.Some? then Rank(s, s.event.value) else 0
  }

  /** The work ahead of all attempts. */
  function Work(s: System): nat {
    EventRank(s) + Sum(BatchRanks(s, s))
  }

  lemma {:induction false} SumMonotone(a: seq<nat>, b: seq<nat>)
    requires |a| == |b| && forall i :: 0 <= i < |a| ==> a[i] <= b[i]
    ensures Sum(a) <= Sum(b)
    ensures forall i :: 0 <= i < |a| && a[i] < b[i] ==> Sum(a) < Sum(b)
  {
    if a != [] {
      SumMonotone(a[..|a| - 1], b[..|b| - 1]);
      forall i | 0 <= i < |a| && a[i] < b[i] ensures Sum(a) < Sum(b) {
        if i < |a| - 1 {
          assert a[..|a| - 1][i] < b[..|b| - 1][i];
        }
      }
    }
  }

  /** The attempts of two states, slot by slot, and their work. */
  lemma WorkFalls(s: System, t: System, slot: Slot)
    requires s.event.Some? <==> t.event.Some?
    requires s.batch.Some? <==> t.batch.Some?
    requires s.batch.Some? ==> |s.batch.value| == |t.batch.value|
    requires forall x :: HasClaim(s, x) ==> Rank(t, ClaimAt(t, x)) <= Rank(s, ClaimAt(s, x))
    ensures Work(t) <= Work(s)
    ensures HasClaim(s, slot) && Rank(t, ClaimAt(t, slot)) < Rank(s, ClaimAt(s, slot)) ==> Work(t) < Work(s)
  {
    var a, b := BatchRanks(t, t), BatchRanks(s, s);
    assert s.event.Some? ==> HasClaim(s, EventSlot);
    forall i | 0 <= i < |a| ensures a[i] <= b[i] {
      assert HasClaim(s, BatchSlot(i));
    }
    SumMonotone(a, b);
    if HasClaim(s, slot) && Rank(t, ClaimAt(t, slot)) < Rank(s, ClaimAt(s, slot)) && slot.BatchSlot? {
      assert a[slot.i] < b[slot.i];
    }
  }

  /** The `get` that a section moves. */
  function MovesGet(section: TimestampCache.Action): Option<nat> {
    match section
    case Set(_, _) => None
    case TakeCell(_) => None
    case ReadCheck(g) => Some(g)
    case LockWrite(g) => Some(g)
    case Recheck(g) => Some(g)
    case FetchReturns(g, _) => Some(g)
  }

  /** The read that an action moves, by its market and number. */
  function ReadMoved(cfg: Config, s: System, a: Action): Option<(MarketType, nat)> {
    match SectionOf(cfg, s, a)
    case Some((m, section)) =>
      (match MovesGet(section)
       case Some(g) => Some((m, g))
       case None => None)
    case None => None
  }

  lemma GetRankFalls(c: TimestampCache.State, section: TimestampCache.Action, g: nat)
    requires TimestampCache.Enabled(c, section) && g < |c.gets|
    ensures
      var after := TimestampCache.Next(c, section).gets;
      && g < |after| && GetRank(after[g].phase) <= GetRank(c.gets[g].phase)
      && (MovesGet(section) == Some(g) ==> GetRank(after[g].phase) < GetRank(c.gets[g].phase))
  {
  }

  lemma ReadRankFalls(cfg: Config, s: System, a: Action, m: MarketType, g: nat)
    requires Enabled(cfg, s, a) && CachesRun(s) && g < |CacheAt(s, m).gets|
    ensures
      var before, after := CacheAt(s, m).gets, CacheAt(Next(cfg, s, a), m).gets;
      && g < |after| && GetRank(after[g].phase) <= GetRank(before[g].phase)
      && (ReadMoved(cfg, s, a) == Some((m, g)) ==> GetRank(after[g].phase) < GetRank(before[g].phase))
  {
    CachesStep(cfg, s, a, m);
    if SectionOf(cfg, s, a).Some? && SectionOf(cfg, s, a).value.0 == m {
      GetRankFalls(CacheAt(s, m), SectionOf(cfg, s, a).value.1, g);
    }
  }

  /** The action that ends the attempts of the slot's loop. */
  function LoopEnd(slot: Slot): Action {
    match slot
    case EventSlot => FinishEvent
    case BatchSlot(_) => FinishBatch
  }

  /** Nothing adds to the rank of an attempt until its loop ends it. */
  lemma RankFalls(cfg: Config, s: System, a: Action, slot: Slot)
    requires Enabled(cfg, s, a) && CachesRun(s) && HasClaim(s, slot) && ClaimInv(s, ClaimAt(s, slot))
    requires a != LoopEnd(slot)
    ensures
      var t := Next(cfg, s, a);
      && HasClaim(t, slot) && Rank(t, ClaimAt(t, slot)) <= Rank(s, ClaimAt(s, slot))
      && (Moves(a) == Some(slot) && !t.halted ==> Rank(t, ClaimAt(t, slot)) < Rank(s, ClaimAt(s, slot)))
      && (ClaimAt(s, slot).phase.Awaiting?
          && ReadMoved(cfg, s, a) == Some((ClaimAt(s, slot).market, ClaimAt(s, slot).phase.get))
          ==> Rank(t, ClaimAt(t, slot)) < Rank(s, ClaimAt(s, slot)))
  {
    if Moves(a) == Some(slot) {
      MovedRankFalls(cfg, s, a, slot);
    } else {
      StaysPut(cfg, s, a, slot);
      if ClaimAt(s, slot).phase.Awaiting? {
        ReadRankFalls(cfg, s, a, ClaimAt(s, slot).market, ClaimAt(s, slot).phase.get);
      }
    }
  }

  lemma MovedRankFalls(cfg: Config, s: System, a: Action, slot: Slot)
    requires Enabled(cfg, s, a) && CachesRun(s) && Moves(a) == Some(slot)
    ensures
      var t := Next(cfg, s, a);
      && HasClaim(t, slot) && Rank(t, ClaimAt(t, slot)) <= Rank(s, ClaimAt(s, slot))
      && (!t.halted ==> Rank(t, ClaimAt(t, slot)) < Rank(s, ClaimAt(s, slot)))
  {
    CachesStep(cfg, s, a, ClaimAt(s, slot).market);
  }

  lemma StaysPut(cfg: Config, s: System, a: Action, slot: Slot)
    requires Enabled(cfg, s, a) && HasClaim(s, slot)
    requires Moves(a) != Some(slot) && a != LoopEnd(slot)
    ensures HasClaim(Next(cfg, s, a), slot) && ClaimAt(Next(cfg, s, a), slot) == ClaimAt(s, slot)
  {
  }

  ghost predicate Owned(s: System, m: MarketType, g: nat) {
    exists slot :: HasClaim(s, slot) && ClaimAt(s, slot).market == m && ClaimAt(s, slot).phase == Awaiting(g)
  }

  /** Every read that has not returned belongs to an attempt, so nobody can hold a lock for ever. */
  ghost predicate OwnersInv(s: System) {
    forall m, g :: 0 <= g < |CacheAt(s, m).gets| && !CacheAt(s, m).gets[g].phase.Returned? ==> Owned(s, m, g)
  }

  /** An attempt that waits for a read which has not returned stays where it is. */
  lemma WaitingStays(cfg: Config, s: System, a: Action, slot: Slot)
    requires Enabled(cfg, s, a) && HasClaim(s, slot) && ClaimAt(s, slot).phase.Awaiting?
    requires !Returned(s, slot)
    ensures HasClaim(Next(cfg, s, a), slot) && ClaimAt(Next(cfg, s, a), slot) == ClaimAt(s, slot)
  {
    if a != LoopEnd(slot) {
      StaysPut(cfg, s, a, slot);
    }
  }

  lemma NewReadIsOwned(cfg: Config, s: System, a: Action, m: MarketType, g: nat)
    requires Enabled(cfg, s, a) && CachesRun(s)
    requires |CacheAt(s, m).gets| <= g < |CacheAt(Next(cfg, s, a), m).gets|
    ensures Owned(Next(cfg, s, a), m, g)
  {
    CachesStep(cfg, s, a, m);
    var t := Next(cfg, s, a);
    assert a.StartPricing?;
    assert HasClaim(t, a.slot) && ClaimAt(t, a.slot).market == m && ClaimAt(t, a.slot).phase == Awaiting(g);
  }

  lemma OwnerStep(cfg: Config, s: System, a: Action, m: MarketType, g: nat)
    requires Enabled(cfg, s, a) && CachesRun(s) && OwnersInv(s)
    requires g < |CacheAt(Next(cfg, s, a), m).gets| && !CacheAt(Next(cfg, s, a), m).gets[g].phase.Returned?
    ensures Owned(Next(cfg, s, a), m, g)
  {
    if g < |CacheAt(s, m).gets| {
      CachesStep(cfg, s, a, m);
      assert Owned(s, m, g);
      var slot :| HasClaim(s, slot) && ClaimAt(s, slot).market == m && ClaimAt(s, slot).phase == Awaiting(g);
      WaitingStays(cfg, s, a, slot);
    } else {
      NewReadIsOwned(cfg, s, a, m, g);
    }
  }

  lemma OwnersStep(cfg: Config, s: System, a: Action)
    requires Enabled(cfg, s, a) && CachesRun(s) && OwnersInv(s)
    ensures OwnersInv(Next(cfg, s, a))
  {
    var t := Next(cfg, s, a);
    forall m, g | 0 <= g < |CacheAt(t, m).gets| && !CacheAt(t, m).gets[g].phase.Returned? ensures Owned(t, m, g) {
      OwnerStep(cfg, s, a, m, g);
    }
  }

  lemma {:induction false} OwnersReachable(cfg: Config, states: seq<System>, actions: seq<Action>, i: nat)
    requires ValidConfig(cfg) && IsRun(cfg, states, actions) && i < |states|
    ensures OwnersInv(states[i])
  {
    if i > 0 {
      OwnersReachable(cfg, states, actions, i - 1);
      Reachable(cfg, states, actions, i - 1);
      assert states[i] == Next(cfg, states[i - 1], actions[i - 1]);
      OwnersStep(cfg, states[i - 1], actions[i - 1]);
    }
  }

  /** A read that has not returned can move, or the holder of its cell's lock can. */
  lemma SomeSection(c: TimestampCache.State, g: nat) returns (section: TimestampCache.Action)
    requires TimestampCache.Inv(c) && g < |c.gets| && !c.gets[g].phase.Returned?
    ensures TimestampCache.Enabled(c, section) && !section.TakeCell?
    ensures MovesGet(section).Some? && MovesGet(section).value < |c.gets|
    ensures !c.gets[MovesGet(section).value].phase.Returned?
  {
    assert TimestampCache.GetInv(c, g);
    var cell := c.gets[g].cell;
    assert TimestampCache.CellInv(c, cell);
    var h := if c.cells[cell].writer.Some? then c.cells[cell].writer.value else g;
    assert TimestampCache.GetInv(c, h);
    match c.gets[h].phase
    case Took => section := TimestampCache.ReadCheck(h);
    case Missed => section := TimestampCache.LockWrite(h);
    case Locked => section := TimestampCache.Recheck(h);
    case Fetching => section := TimestampCache.FetchReturns(h, Failure(TimestampCache.NetworkError));
  }

  predicate KeepsSlots(a: Action) {
    !a.Deliver? && !a.Poll? && !a.FinishEvent? && !a.FinishBatch?
  }

  lemma SlotsKept(cfg: Config, s: System, a: Action)
    requires Enabled(cfg, s, a) && KeepsSlots(a)
    ensures
      var t := Next(cfg, s, a);
      && (s.event.Some? <==> t.event.Some?) && (s.batch.Some? <==> t.batch.Some?)
      && (s.batch.Some? ==> |s.batch.value| == |t.batch.value|)
  {
  }

  lemma WorkFallsBy(cfg: Config, s: System, a: Action, slot: Slot)
    requires Inv(cfg, s) && Enabled(cfg, s, a) && KeepsSlots(a)
    ensures Work(Next(cfg, s, a)) <= Work(s)
    ensures HasClaim(s, slot) ==> HasClaim(Next(cfg, s, a), slot)
    ensures HasClaim(s, slot) && Rank(Next(cfg, s, a), ClaimAt(Next(cfg, s, a), slot)) < Rank(s, ClaimAt(s, slot)) ==>
              Work(Next(cfg, s, a)) < Work(s)
  {
    var t := Next(cfg, s, a);
    SlotsKept(cfg, s, a);
    forall x | HasClaim(s, x) ensures HasClaim(t, x) && Rank(t, ClaimAt(t, x)) <= Rank(s, ClaimAt(s, x)) {
      assert ClaimInv(s, ClaimAt(s, x));
      RankFalls(cfg, s, a, x);
    }
    WorkFalls(s, t, slot);
  }

  /** The steps that move an attempt, or a read of one. */
  predicate Helps(cfg: Config, s: System, a: Action) {
    Moves(a).Some? || ReadMoved(cfg, s, a).Some?
  }

  lemma HelpingKeepsSlots(cfg: Config, s: System, a: Action)
    requires Enabled(cfg, s, a) && Helps(cfg, s, a)
    ensures KeepsSlots(a)
    ensures ReadMoved(cfg, s, a).Some? ==>
              var (m, g) := ReadMoved(cfg, s, a).value;
              g < |CacheAt(s, m).gets| && !CacheAt(s, m).gets[g].phase.Returned?
  {
  }

  /** Every such step makes the work ahead smaller, or ends the run in a panic. */
  lemma HelpingStep(cfg: Config, s: System, a: Action)
    requires Inv(cfg, s) && OwnersInv(s) && Enabled(cfg, s, a) && Helps(cfg, s, a)
    ensures Next(cfg, s, a).halted || Work(Next(cfg, s, a)) < Work(s)
  {
    HelpingKeepsSlots(cfg, s, a);
    var slot: Slot;
    if Moves(a).Some? {
      slot := Moves(a).value;
      MoverHasClaim(cfg, s, a);
    } else {
      var (m, g) := ReadMoved(cfg, s, a).value;
      assert Owned(s, m, g);
      slot :| HasClaim(s, slot) && ClaimAt(s, slot).market == m && ClaimAt(s, slot).phase == Awaiting(g);
    }
    assert ClaimInv(s, ClaimAt(s, slot));
    RankFalls(cfg, s, a, slot);
    WorkFallsBy(cfg, s, a, slot);
  }

  lemma MoverHasClaim(cfg: Config, s: System, a: Action)
    requires Enabled(cfg, s, a) && Moves(a).Some?
    ensures HasClaim(s, Moves(a).value)
  {
  }

  /** As long as an attempt is not settled, some step that helps is enabled: nothing deadlocks, whoever
      holds the locks. */
  lemma SomeStepHelps(cfg: Config, s: System, slot: Slot) returns (a: Action)
    requires Inv(cfg, s) && !s.halted && HasClaim(s, slot) && !ClaimAt(s, slot).phase.Settled?
    ensures Enabled(cfg, s, a) && Helps(cfg, s, a)
  {
    var c := ClaimAt(s, slot);
    assert ClaimInv(s, c);
    match c.phase
    case Queued => a := StartPricing(slot);
    case Awaiting(g) =>
      if Returned(s, slot) {
        a := FinishPricing(slot);
      } else {
        a := ReadStep(cfg, s, c.market, g);
      }
    case Quoted(_) => a := Send(slot);
    case Sending(_) => a := Report(slot, false);
  }

  lemma ReadStep(cfg: Config, s: System, m: MarketType, g: nat) returns (a: Action)
    requires CachesRun(s) && !s.halted && g < |CacheAt(s, m).gets| && !CacheAt(s, m).gets[g].phase.Returned?
    ensures Enabled(cfg, s, a) && ReadMoved(cfg, s, a).Some?
  {
    var section := SomeSection(CacheAt(s, m), g);
    match section
    case FetchReturns(h, _) => a := FetchAnswers(m, h, Pyth.Refused);
    case _ => a := CacheSection(m, section);
  }

  lemma EndsLeaveRanks(cfg: Config, s: System, a: Action)
    requires Enabled(cfg, s, a) && (a.FinishEvent? || a.FinishBatch?)
    ensures Work(Next(cfg, s, a)) <= Work(s)
  {
    var t := Next(cfg, s, a);
    assert forall c :: Rank(t, c) == Rank(s, c);
    if a.FinishEvent? {
      assert BatchRanks(t, t) == BatchRanks(s, s);
    }
  }

  /** Only claiming adds work: every other action leaves it as it is or makes it smaller. */
  lemma WorkNeverGrows(cfg: Config, s: System, a: Action)
    requires Inv(cfg, s) && Enabled(cfg, s, a) && !a.Deliver? && !a.Poll?
    ensures Work(Next(cfg, s, a)) <= Work(s)
  {
    if a.FinishEvent? || a.FinishBatch? {
      EndsLeaveRanks(cfg, s, a);
    } else {
      WorkFallsBy(cfg, s, a, EventSlot);
    }
  }

  /** How many orders an action claims. */
  function Claims(s: System, a: Action): nat {
    match a
    case Deliver(e) => if e < |s.emitted| && s.emitted[e].event.order in s.active then 0 else 1
    case Poll(listing) =>
      (match ClaimAll(s.active, listing)
       case Success(claims) => |claims|
       case Failure(_) => 0)
    case _ => 0
  }

  lemma {:induction false} SumOfQueued(ranks: seq<nat>)
    requires forall i :: 0 <= i < |ranks| ==> ranks[i] == 8
    ensures Sum(ranks) == 8 * |ranks|
  {
    if ranks != [] {
      SumOfQueued(ranks[..|ranks| - 1]);
    }
  }

  /** The claiming actions of either loop and what they leave alone. */
  lemma AfterDeliver(cfg: Config, s: System, a: Action)
    requires Enabled(cfg, s, a) && a.Deliver?
    ensures
      var t := Next(cfg, s, a);
      && t.batch == s.batch && t.pyth == s.pyth && !t.halted && s.event.None?
      && if Claims(s, a) == 0 then t.event.None? else t.event.Some? && t.event.value.phase.Queued?
  {
  }

  lemma AfterPoll(cfg: Config, s: System, a: Action)
    requires Enabled(cfg, s, a) && a.Poll? && ClaimAll(s.active, a.listing).Success?
    ensures
      var t := Next(cfg, s, a);
      t.event == s.event && t.pyth == s.pyth && s.batch.None? && t.batch == Some(ClaimAll(s.active, a.listing).value)
  {
  }

  lemma PolledWork(s: System, t: System)
    requires t.event == s.event && t.pyth == s.pyth && s.batch.None? && t.batch.Some?
    requires forall c :: c in t.batch.value ==> c.phase.Queued?
    ensures Work(t) == Work(s) + 8 * |t.batch.value|
  {
    SumOfQueued(BatchRanks(t, t));
    assert BatchRanks(s, s) == [];
  }

  lemma DeliveredWork(s: System, t: System)
    requires t.batch == s.batch && t.pyth == s.pyth && s.event.None?
    requires t.event.Some? ==> t.event.value.phase.Queued?
    ensures Work(t) == Work(s) + if t.event.Some? then 8 else 0
  {
    assert BatchRanks(t, t) == BatchRanks(s, s);
  }

  /** A claim adds eight steps. */
  lemma ClaimsAddWork(cfg: Config, s: System, a: Action)
    requires Inv(cfg, s) && Enabled(cfg, s, a) && (a.Deliver? || a.Poll?)
    ensures Work(Next(cfg, s, a)) == Work(s) + 8 * Claims(s, a)
  {
    if a.Deliver? {
      AfterDeliver(cfg, s, a);
      DeliveredWork(s, Next(cfg, s, a));
    } else {
      PollClaims(cfg, s, a);
      ClaimsExactlyTheNew(s.active, a.listing);
      AfterPoll(cfg, s, a);
      forall c | c in ClaimAll(s.active, a.listing).value ensures c.phase.Queued? {
        assert FromListing(c, a.listing);
      }
      PolledWork(s, Next(cfg, s, a));
    }
  }

  /** The attempts of the slot's own loop are settled. */
  predicate LoopSettled(s: System, slot: Slot)
    requires HasClaim(s, slot)
  {
    match slot
    case EventSlot => s.event.value.phase.Settled?
    case BatchSlot(_) => forall c :: c in s.batch.value ==> c.phase.Settled?
  }

  /** Once the attempts of a loop are settled, whatever the other loop does, its end is enabled, and each of
      them then ends in closure or release: its order is closed on chain, or no longer active. */
  lemma AttemptsEnd(cfg: Config, s: System, slot: Slot)
    requires Inv(cfg, s) && !s.halted && HasClaim(s, slot) && LoopSettled(s, slot)
    ensures
      var order := ClaimAt(s, slot).order;
      && Enabled(cfg, s, LoopEnd(slot))
      && (Closed(Next(cfg, s, LoopEnd(slot)).log, order) || order !in Next(cfg, s, LoopEnd(slot)).active)
  {
    var c := ClaimAt(s, slot);
    assert ClaimInv(s, c);
    assert slot.BatchSlot? ==> c in s.batch.value;
    assert c.phase == Settled(c.phase.ok);
  }
}
