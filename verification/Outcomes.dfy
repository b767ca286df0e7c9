/** What the reports of sent transactions mean for `active_orders`: whatever happens in between, an order
    stays in the set after its attempt exactly when its fulfilment was reported as confirmed. */
module Outcomes {
  import opened Wrappers
  import opened Addresses
  import opened ProgramHistory
  import opened WorkerClaims
  import opened FulfilmentSystem
  import opened SystemInvariants
  import opened Progress
  import opened Endings

  ghost predicate Succeeded(s: System, slot: Slot) {
    HasClaim(s, slot) && ClaimAt(s, slot).phase == Settled(true)
  }

  /** A report settles its attempt as it says, and changes nothing else of it. */
  lemma ReportSettles(cfg: Config, s: System, a: Action)
    requires Enabled(cfg, s, a) && a.Report?
    ensures HasClaim(Next(cfg, s, a), a.slot)
    ensures ClaimAt(Next(cfg, s, a), a.slot) == ClaimAt(s, a.slot).(phase := Settled(a.ok))
  {
  }

  lemma MovedSuccess(cfg: Config, s: System, a: Action, slot: Slot)
    requires Enabled(cfg, s, a) && HasClaim(s, slot) && Moves(a) == Some(slot)
    ensures Succeeded(Next(cfg, s, a), slot) <==> a == Report(slot, true)
    ensures !ClaimAt(s, slot).phase.Settled?
  {
  }

  /** Until its loop ends it an attempt is successful exactly since it was reported as confirmed; once it is
      settled it stays as it is. */
  lemma OnlyReportsSucceed(cfg: Config, s: System, a: Action, slot: Slot)
    requires Enabled(cfg, s, a) && HasClaim(s, slot) && a != LoopEnd(slot)
    ensures HasClaim(Next(cfg, s, a), slot) && ClaimAt(Next(cfg, s, a), slot).order == ClaimAt(s, slot).order
    ensures Succeeded(Next(cfg, s, a), slot) <==> Succeeded(s, slot) || a == Report(slot, true)
    ensures ClaimAt(s, slot).phase.Settled? ==> ClaimAt(Next(cfg, s, a), slot) == ClaimAt(s, slot)
  {
    SameOrder(cfg, s, a, slot);
    if Moves(a) == Some(slot) {
      MovedSuccess(cfg, s, a, slot);
    } else {
      StaysPut(cfg, s, a, slot);
    }
  }

  lemma LastOrBefore(actions: seq<Action>, a: Action)
    requires actions != []
    ensures a in actions <==> a in actions[..|actions| - 1] || actions[|actions| - 1] == a
  {
    assert actions == actions[..|actions| - 1] + [actions[|actions| - 1]];
  }

  lemma {:induction false} PathSucceeds(cfg: Config, states: seq<System>, actions: seq<Action>, slot: Slot)
    requires IsPath(cfg, states, actions) && HasClaim(states[0], slot) && LoopEnd(slot) !in actions
    ensures HasClaim(Last(states), slot) && ClaimAt(Last(states), slot).order == ClaimAt(states[0], slot).order
    ensures Succeeded(Last(states), slot) <==> Succeeded(states[0], slot) || Report(slot, true) in actions
    ensures ClaimAt(states[0], slot).phase.Settled? ==> ClaimAt(Last(states), slot) == ClaimAt(states[0], slot)
    decreases |actions|
  {
    if actions != [] {
      var n := |actions| - 1;
      PathPrefix(cfg, states, actions);
      LastOrBefore(actions, Report(slot, true));
      LastOrBefore(actions, LoopEnd(slot));
      PathSucceeds(cfg, states[..n + 1], actions[..n], slot);
      OnlyReportsSucceed(cfg, states[n], actions[n], slot);
    }
  }

  /** Where the order of an attempt is after the end of its loop. */
  ghost predicate Outcome(t: System, k: Pubkey, ok: bool) {
    (k in t.active <==> ok) && (k in t.confirmed <==> ok)
  }

  lemma EndDecides(cfg: Config, s: System, slot: Slot)
    requires Inv(cfg, s) && HasClaim(s, slot) && Enabled(cfg, s, LoopEnd(slot))
    ensures Outcome(Next(cfg, s, LoopEnd(slot)), ClaimAt(s, slot).order, Succeeded(s, slot))
  {
    if slot.BatchSlot? {
      BatchEndDecides(cfg, s, slot.i);
    } else {
      EventEndDecides(cfg, s);
    }
  }

  lemma EventEndDecides(cfg: Config, s: System)
    requires Inv(cfg, s) && Enabled(cfg, s, FinishEvent)
    ensures Outcome(Next(cfg, s, FinishEvent), s.event.value.order, s.event.value.phase == Settled(true))
  {
    var k := s.event.value.order;
    assert k in EventOrders(s) && k !in s.confirmed && k in s.active;
  }

  lemma BatchEndDecides(cfg: Config, s: System, i: nat)
    requires Inv(cfg, s) && Enabled(cfg, s, FinishBatch) && i < |s.batch.value|
    ensures Outcome(Next(cfg, s, FinishBatch), s.batch.value[i].order, s.batch.value[i].phase == Settled(true))
  {
    OwnPhaseDecides(s.batch.value, i);
    var k := s.batch.value[i].order;
    assert k in BatchOrders(s) && k !in s.confirmed && k in s.active;
  }

  lemma OwnPhaseDecides(claims: seq<Claim>, i: nat)
    requires Distinct(claims) && i < |claims| && forall c :: c in claims ==> c.phase.Settled?
    ensures claims[i].order in Orders(claims)
    ensures claims[i].order in ConfirmedOrders(claims) <==> claims[i].phase == Settled(true)
    ensures claims[i].order in FailedOrders(claims) <==> claims[i].phase != Settled(true)
  {
    assert claims[i] in claims && claims[i].phase == Settled(claims[i].phase.ok);
    forall c | c in claims && c.order == claims[i].order ensures c == claims[i] {
      var j :| 0 <= j < |claims| && claims[j] == c;
    }
  }

  lemma Segment(cfg: Config, states: seq<System>, actions: seq<Action>, i: nat, j: nat)
    requires IsRun(cfg, states, actions) && i <= j < |states|
    ensures IsPath(cfg, states[i..j + 1], actions[i..j])
    ensures states[i..j + 1][0] == states[i] && Last(states[i..j + 1]) == states[j]
  {
    var part, steps := states[i..j + 1], actions[i..j];
    forall n | 0 <= n < |steps| ensures Enabled(cfg, part[n], steps[n]) && part[n + 1] == Next(cfg, part[n], steps[n]) {
      StepAt(cfg, states, actions, i + n);
    }
  }

  /** A fulfilment of the attempt was reported as confirmed in between. */
  ghost predicate Confirmed(actions: seq<Action>, i: nat, j: nat, slot: Slot)
    requires i <= j <= |actions|
  {
    exists l :: i <= l < j && actions[l] == Report(slot, true)
  }

  lemma ConfirmedIn(actions: seq<Action>, i: nat, j: nat, slot: Slot)
    requires i <= j <= |actions|
    ensures Confirmed(actions, i, j, slot) <==> Report(slot, true) in actions[i..j]
  {
    if l :| i <= l < j && actions[l] == Report(slot, true) {
      assert actions[i..j][l - i] == Report(slot, true);
    }
    if n :| 0 <= n < |actions[i..j]| && actions[i..j][n] == Report(slot, true) {
      assert actions[i + n] == Report(slot, true);
    }
  }

  /** From any moment at which an attempt is not settled to the end of its loop: its order is then in the set,
      and confirmed, exactly when a report in between confirmed it; otherwise it is in neither. */
  lemma AttemptOutcome(cfg: Config, states: seq<System>, actions: seq<Action>, i: nat, j: nat, slot: Slot)
    requires ValidConfig(cfg) && IsRun(cfg, states, actions) && i <= j < |actions|
    requires HasClaim(states[i], slot) && !Succeeded(states[i], slot)
    requires actions[j] == LoopEnd(slot) && forall n :: i <= n < j ==> actions[n] != LoopEnd(slot)
    ensures Outcome(states[j + 1], ClaimAt(states[i], slot).order, Confirmed(actions, i, j, slot))
  {
    Segment(cfg, states, actions, i, j);
    NoEndBetween(actions, i, j, LoopEnd(slot));
    PathSucceeds(cfg, states[i..j + 1], actions[i..j], slot);
    ConfirmedIn(actions, i, j, slot);
    Reachable(cfg, states, actions, j);
    assert Enabled(cfg, states[j], actions[j]) && states[j + 1] == Next(cfg, states[j], actions[j]);
    EndDecides(cfg, states[j], slot);
  }

  lemma NoEndBetween(actions: seq<Action>, i: nat, j: nat, end: Action)
    requires i <= j <= |actions| && forall n :: i <= n < j ==> actions[n] != end
    ensures end !in actions[i..j]
  {
  }

  /** After a report and the end of its loop, the order is in the set and confirmed exactly when the report
      said so. */
  lemma ReportDecides(cfg: Config, states: seq<System>, actions: seq<Action>, l: nat, j: nat)
    requires ValidConfig(cfg) && IsRun(cfg, states, actions) && l < j < |actions| && actions[l].Report?
    requires actions[j] == LoopEnd(actions[l].slot) && forall n :: l < n < j ==> actions[n] != LoopEnd(actions[l].slot)
    ensures HasClaim(states[l], actions[l].slot)
    ensures Outcome(states[j + 1], ClaimAt(states[l], actions[l].slot).order, actions[l].ok)
  {
    var slot := actions[l].slot;
    assert Enabled(cfg, states[l], actions[l]) && states[l + 1] == Next(cfg, states[l], actions[l]);
    ReportSettles(cfg, states[l], actions[l]);
    Segment(cfg, states, actions, l + 1, j);
    NoEndBetween(actions, l + 1, j, LoopEnd(slot));
    PathSucceeds(cfg, states[l + 1..j + 1], actions[l + 1..j], slot);
    Reachable(cfg, states, actions, j);
    assert Enabled(cfg, states[j], actions[j]) && states[j + 1] == Next(cfg, states[j], actions[j]);
    EndDecides(cfg, states[j], slot);
  }

  /** The net effect of the event route: an event that claims its order leaves it in the set exactly when a
      fulfilment was reported as confirmed. */
  lemma EventNetEffect(cfg: Config, states: seq<System>, actions: seq<Action>, i: nat, j: nat)
    requires ValidConfig(cfg) && IsRun(cfg, states, actions) && i < j < |actions|
    requires actions[i].Deliver? && actions[i].emission < |states[i].emitted|
    requires states[i].emitted[actions[i].emission].event.order !in states[i].active
    requires actions[j].FinishEvent? && forall n :: i < n < j ==> !actions[n].FinishEvent?
    ensures Outcome(states[j + 1], states[i].emitted[actions[i].emission].event.order, Confirmed(actions, i + 1, j, EventSlot))
  {
    assert Enabled(cfg, states[i], actions[i]) && states[i + 1] == Next(cfg, states[i], actions[i]);
    DeliverClaims(cfg, states[i], actions[i]);
    AttemptOutcome(cfg, states, actions, i + 1, j, EventSlot);
  }

  lemma DeliverClaims(cfg: Config, s: System, a: Action)
    requires Enabled(cfg, s, a) && a.Deliver? && s.emitted[a.emission].event.order !in s.active
    ensures
      var t, event := Next(cfg, s, a), s.emitted[a.emission].event;
      && HasClaim(t, EventSlot) && ClaimAt(t, EventSlot).order == event.order && ClaimAt(t, EventSlot).phase.Queued?
      && t.active == s.active + {event.order}
  {
  }
}
