/** Every attempt ends: the paths on which it does, and a bound on all others. */
module Endings {
  import opened Wrappers
  import opened ProgramHistory
  import opened FulfilmentSystem
  import opened SystemInvariants
  import opened Progress

  /** States joined by enabled actions. */
  ghost predicate IsPath(cfg: Config, states: seq<System>, actions: seq<Action>) {
    && |states| == |actions| + 1
    && forall i :: 0 <= i < |actions| ==>
         Enabled(cfg, states[i], actions[i]) && states[i + 1] == Next(cfg, states[i], actions[i])
  }

  function Last(states: seq<System>): System
    requires states != []
  {
    states[|states| - 1]
  }

  lemma PathPrefix(cfg: Config, states: seq<System>, actions: seq<Action>)
    requires IsPath(cfg, states, actions) && actions != []
    ensures
      var n := |actions| - 1;
      && IsPath(cfg, states[..n + 1], actions[..n])
      && states[..n + 1][0] == states[0] && Last(states[..n + 1]) == states[n]
      && Enabled(cfg, states[n], actions[n]) && Last(states) == Next(cfg, states[n], actions[n])
  {
    var n := |actions| - 1;
    assert states[n + 1] == Next(cfg, states[n], actions[n]);
  }

  // ----- A bound on every schedule

  /** How many steps of a path move an attempt or a read of one. */
  function Helping(cfg: Config, states: seq<System>, actions: seq<Action>): nat
    requires |states| == |actions| + 1
    decreases |actions|
  {
    if actions == [] then 0
    else
      var n := |actions| - 1;
      Helping(cfg, states[..n + 1], actions[..n]) + if Helps(cfg, states[n], actions[n]) then 1 else 0
  }

  /** How many orders a path claims. */
  function Claimed(states: seq<System>, actions: seq<Action>): nat
    requires |states| == |actions| + 1
    decreases |actions|
  {
    if actions == [] then 0
    else
      var n := |actions| - 1;
      Claimed(states[..n + 1], actions[..n]) + Claims(states[n], actions[n])
  }

  function One(b: bool): nat {
    if b then 1 else 0
  }

  /** A panic changes nothing else, and is not followed by steps of the worker. */
  lemma AfterPanic(cfg: Config, s: System, a: Action)
    requires Enabled(cfg, s, a) && Next(cfg, s, a).halted
    ensures s.halted ==> !Helps(cfg, s, a) && !a.Deliver? && !a.Poll?
    ensures !s.halted ==> Next(cfg, s, a) == s.(halted := true)
    ensures !s.halted && Helps(cfg, s, a) ==> Claims(s, a) == 0
  {
  }

  lemma ScheduleStep(cfg: Config, s: System, a: Action)
    requires Inv(cfg, s) && OwnersInv(s) && Enabled(cfg, s, a)
    ensures Work(Next(cfg, s, a)) + One(Helps(cfg, s, a)) + One(s.halted) <=
            Work(s) + 8 * Claims(s, a) + One(Next(cfg, s, a).halted)
  {
    if Next(cfg, s, a).halted {
      AfterPanic(cfg, s, a);
    } else {
      AliveBefore(cfg, s, a);
    }
    if a.Deliver? || a.Poll? {
      ClaimsAddWork(cfg, s, a);
    } else {
      WorkNeverGrows(cfg, s, a);
      if Helps(cfg, s, a) {
        HelpingStep(cfg, s, a);
      }
    }
  }

  lemma AliveBefore(cfg: Config, s: System, a: Action)
    requires Enabled(cfg, s, a) && !Next(cfg, s, a).halted
    ensures !s.halted
  {
  }

  /** Under every schedule, new claims included, the attempts are moved at most as often as the work ahead says
      and eight times more for each order that is claimed on the way. */
  lemma {:induction false} EveryScheduleEnds(cfg: Config, states: seq<System>, actions: seq<Action>)
    requires ValidConfig(cfg) && IsPath(cfg, states, actions) && Inv(cfg, states[0]) && OwnersInv(states[0])
    ensures Inv(cfg, Last(states)) && OwnersInv(Last(states))
    ensures Helping(cfg, states, actions) + Work(Last(states)) + One(states[0].halted) <=
            Work(states[0]) + 8 * Claimed(states, actions) + One(Last(states).halted)
    decreases |actions|
  {
    if actions != [] {
      var n := |actions| - 1;
      PathPrefix(cfg, states, actions);
      EveryScheduleEnds(cfg, states[..n + 1], actions[..n]);
      InvStep(cfg, states[n], actions[n]);
      OwnersStep(cfg, states[n], actions[n]);
      ScheduleStep(cfg, states[n], actions[n]);
    }
  }

  // ----- A bound on every attempt

  /** The action moves the attempt in the slot, or the read that it waits for. */
  predicate MovesAttempt(cfg: Config, s: System, a: Action, slot: Slot) {
    HasClaim(s, slot)
    && (|| Moves(a) == Some(slot)
        || (ClaimAt(s, slot).phase.Awaiting?
            && ReadMoved(cfg, s, a) == Some((ClaimAt(s, slot).market, ClaimAt(s, slot).phase.get))))
  }

  /** How many steps of a path do. */
  function AttemptMoves(cfg: Config, states: seq<System>, actions: seq<Action>, slot: Slot): nat
    requires |states| == |actions| + 1
    decreases |actions|
  {
    if actions == [] then 0
    else
      var n := |actions| - 1;
      AttemptMoves(cfg, states[..n + 1], actions[..n], slot) + One(MovesAttempt(cfg, states[n], actions[n], slot))
  }

  lemma SameOrder(cfg: Config, s: System, a: Action, slot: Slot)
    requires Enabled(cfg, s, a) && HasClaim(s, slot) && a != LoopEnd(slot)
    ensures HasClaim(Next(cfg, s, a), slot) && ClaimAt(Next(cfg, s, a), slot).order == ClaimAt(s, slot).order
  {
    if Moves(a) != Some(slot) {
      StaysPut(cfg, s, a, slot);
    }
  }

  lemma AttemptStep(cfg: Config, s: System, a: Action, slot: Slot)
    requires Inv(cfg, s) && Enabled(cfg, s, a) && HasClaim(s, slot) && a != LoopEnd(slot)
    ensures HasClaim(Next(cfg, s, a), slot) && ClaimAt(Next(cfg, s, a), slot).order == ClaimAt(s, slot).order
    ensures Rank(Next(cfg, s, a), ClaimAt(Next(cfg, s, a), slot)) + One(MovesAttempt(cfg, s, a, slot)) + One(s.halted) <=
            Rank(s, ClaimAt(s, slot)) + One(Next(cfg, s, a).halted)
  {
    assert ClaimInv(s, ClaimAt(s, slot));
    SameOrder(cfg, s, a, slot);
    RankFalls(cfg, s, a, slot);
    if Next(cfg, s, a).halted {
      AfterPanic(cfg, s, a);
    } else {
      AliveBefore(cfg, s, a);
    }
  }

  /** Until its loop ends it, whatever else is claimed in the meantime, an attempt of either loop and its read
      are moved at most as often as its rank says: at most eight times. */
  lemma {:induction false} EveryAttemptIsBounded(cfg: Config, states: seq<System>, actions: seq<Action>, slot: Slot)
    requires ValidConfig(cfg) && IsPath(cfg, states, actions) && Inv(cfg, states[0]) && HasClaim(states[0], slot)
    requires LoopEnd(slot) !in actions
    ensures Inv(cfg, Last(states)) && HasClaim(Last(states), slot)
    ensures ClaimAt(Last(states), slot).order == ClaimAt(states[0], slot).order
    ensures AttemptMoves(cfg, states, actions, slot) + Rank(Last(states), ClaimAt(Last(states), slot)) + One(states[0].halted) <=
            Rank(states[0], ClaimAt(states[0], slot)) + One(Last(states).halted)
    ensures Rank(states[0], ClaimAt(states[0], slot)) <= 8
    decreases |actions|
  {
    if actions != [] {
      var n := |actions| - 1;
      PathPrefix(cfg, states, actions);
      assert actions[n] in actions;
      EveryAttemptIsBounded(cfg, states[..n + 1], actions[..n], slot);
      InvStep(cfg, states[n], actions[n]);
      AttemptStep(cfg, states[n], actions[n], slot);
    }
  }

  // ----- The paths on which attempts end

  /** A path on which no order is claimed. */
  ghost predicate ClaimFree(cfg: Config, states: seq<System>, actions: seq<Action>) {
    && |states| == |actions| + 1
    && forall i :: 0 <= i < |actions| ==>
         && !actions[i].Deliver? && !actions[i].Poll?
         && Enabled(cfg, states[i], actions[i]) && states[i + 1] == Next(cfg, states[i], actions[i])
  }

  ghost predicate AllSettled(s: System) {
    forall slot :: HasClaim(s, slot) ==> ClaimAt(s, slot).phase.Settled?
  }

  /** The same attempts, perhaps in other phases. */
  ghost predicate SameAttempts(s: System, t: System) {
    forall slot :: HasClaim(s, slot) ==> HasClaim(t, slot) && ClaimAt(t, slot).order == ClaimAt(s, slot).order
  }

  lemma HelpingKeepsAttempts(cfg: Config, s: System, a: Action)
    requires Enabled(cfg, s, a) && KeepsSlots(a)
    ensures SameAttempts(s, Next(cfg, s, a))
  {
    forall slot | HasClaim(s, slot)
      ensures HasClaim(Next(cfg, s, a), slot) && ClaimAt(Next(cfg, s, a), slot).order == ClaimAt(s, slot).order
    {
      SlotsKept(cfg, s, a);
      ClaimsAfter(cfg, s, a, slot);
    }
  }

  lemma Prepend(cfg: Config, s: System, a: Action, states: seq<System>, actions: seq<Action>)
    requires Enabled(cfg, s, a) && !a.Deliver? && !a.Poll?
    requires ClaimFree(cfg, states, actions) && states[0] == Next(cfg, s, a)
    ensures ClaimFree(cfg, [s] + states, [a] + actions) && Last([s] + states) == Last(states)
  {
    var longer, more := [s] + states, [a] + actions;
    forall i | 0 <= i < |more|
      ensures !more[i].Deliver? && !more[i].Poll? && Enabled(cfg, longer[i], more[i])
      ensures longer[i + 1] == Next(cfg, longer[i], more[i])
    {
      if i > 0 {
        assert Enabled(cfg, states[i - 1], actions[i - 1]) && states[i] == Next(cfg, states[i - 1], actions[i - 1]);
      }
    }
  }

  lemma OneStep(cfg: Config, s: System, slot: Slot) returns (a: Action)
    requires ValidConfig(cfg) && Inv(cfg, s) && OwnersInv(s) && !s.halted
    requires HasClaim(s, slot) && !ClaimAt(s, slot).phase.Settled?
    ensures Enabled(cfg, s, a) && !a.Deliver? && !a.Poll? && Work(s) > 0
    ensures Next(cfg, s, a).halted || Ahead(cfg, s, Next(cfg, s, a))
  {
    a := SomeStepHelps(cfg, s, slot);
    HelpingKeepsSlots(cfg, s, a);
    InvStep(cfg, s, a);
    OwnersStep(cfg, s, a);
    HelpingStep(cfg, s, a);
    HelpingKeepsAttempts(cfg, s, a);
    WorkAhead(s, slot);
  }

  /** The same attempts with less work ahead. */
  ghost predicate Ahead(cfg: Config, s: System, t: System) {
    Inv(cfg, t) && OwnersInv(t) && Work(t) < Work(s) && SameAttempts(s, t)
  }

  ghost predicate SettledFrom(cfg: Config, s: System, t: System) {
    Inv(cfg, t) && AllSettled(t) && SameAttempts(s, t)
  }

  lemma SettledFurther(cfg: Config, s: System, t: System, u: System)
    requires SameAttempts(s, t) && SettledFrom(cfg, t, u)
    ensures SettledFrom(cfg, s, u)
  {
  }

  /** From every reachable state no more steps than the work ahead settle all attempts, or end in a panic. */
  lemma {:induction false} AttemptsSettle(cfg: Config, s: System) returns (states: seq<System>, actions: seq<Action>)
    requires ValidConfig(cfg) && Inv(cfg, s) && OwnersInv(s) && !s.halted
    ensures ClaimFree(cfg, states, actions) && states[0] == s && |actions| <= Work(s)
    ensures Last(states).halted || SettledFrom(cfg, s, Last(states))
    decreases Work(s), 1
  {
    if slot :| HasClaim(s, slot) && !ClaimAt(s, slot).phase.Settled? {
      var a := OneStep(cfg, s, slot);
      states, actions := FirstStep(cfg, s, a);
    } else {
      states, actions := [s], [];
      assert SettledFrom(cfg, s, s);
    }
  }

  lemma {:induction false} FirstStep(cfg: Config, s: System, a: Action) returns (states: seq<System>, actions: seq<Action>)
    requires ValidConfig(cfg) && Enabled(cfg, s, a) && !a.Deliver? && !a.Poll? && Work(s) > 0
    requires Next(cfg, s, a).halted || Ahead(cfg, s, Next(cfg, s, a))
    ensures ClaimFree(cfg, states, actions) && states[0] == s && |actions| <= Work(s)
    ensures Last(states).halted || SettledFrom(cfg, s, Last(states))
    decreases Work(s), 0
  {
    var t := Next(cfg, s, a);
    states, actions := [t], [];
    if !t.halted {
      states, actions := AttemptsSettle(cfg, t);
      if !Last(states).halted {
        SettledFurther(cfg, s, t, Last(states));
      }
    }
    Prepend(cfg, s, a, states, actions);
    states, actions := [s] + states, [a] + actions;
  }

  /** An attempt that is not settled is work ahead. */
  lemma WorkAhead(s: System, slot: Slot)
    requires HasClaim(s, slot) && !ClaimAt(s, slot).phase.Settled?
    ensures Work(s) > 0
  {
    if slot.BatchSlot? {
      var ranks := BatchRanks(s, s);
      SumMonotone(seq(|ranks|, _ => 0), ranks);
      assert 0 < ranks[slot.i];
    }
  }

  lemma Append(cfg: Config, states: seq<System>, actions: seq<Action>, a: Action)
    requires ClaimFree(cfg, states, actions) && Enabled(cfg, Last(states), a) && !a.Deliver? && !a.Poll?
    ensures ClaimFree(cfg, states + [Next(cfg, Last(states), a)], actions + [a])
  {
    var longer, more := states + [Next(cfg, Last(states), a)], actions + [a];
    forall i | 0 <= i < |more|
      ensures !more[i].Deliver? && !more[i].Poll? && Enabled(cfg, longer[i], more[i])
      ensures longer[i + 1] == Next(cfg, longer[i], more[i])
    {
      if i < |actions| {
        assert Enabled(cfg, states[i], actions[i]) && states[i + 1] == Next(cfg, states[i], actions[i]);
      }
    }
  }

  /** Every attempt of every reachable state can end, without new claims and in at most one step more than
      the work ahead: then its order is closed on chain or no longer active, or the worker has panicked. */
  lemma EveryAttemptCanEnd(cfg: Config, s: System, slot: Slot) returns (states: seq<System>, actions: seq<Action>)
    requires ValidConfig(cfg) && Inv(cfg, s) && OwnersInv(s) && !s.halted && HasClaim(s, slot)
    ensures ClaimFree(cfg, states, actions) && states[0] == s && |actions| <= Work(s) + 1
    ensures Last(states).halted || Closed(Last(states).log, ClaimAt(s, slot).order)
            || ClaimAt(s, slot).order !in Last(states).active
  {
    states, actions := AttemptsSettle(cfg, s);
    var t := Last(states);
    if !t.halted {
      assert HasClaim(t, slot) && ClaimAt(t, slot).order == ClaimAt(s, slot).order;
      SettledLoops(t, slot);
      AttemptsEnd(cfg, t, slot);
      Append(cfg, states, actions, LoopEnd(slot));
      states, actions := states + [Next(cfg, t, LoopEnd(slot))], actions + [LoopEnd(slot)];
    }
  }

  lemma SettledLoops(s: System, slot: Slot)
    requires AllSettled(s) && HasClaim(s, slot)
    ensures LoopSettled(s, slot)
  {
    if slot.BatchSlot? {
      forall c | c in s.batch.value ensures c.phase.Settled? {
        var i :| 0 <= i < |s.batch.value| && s.batch.value[i] == c;
        assert HasClaim(s, BatchSlot(i));
      }
    }
  }
}
