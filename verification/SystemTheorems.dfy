/** The main results about the whole protocol, over every reachable state of every interleaving. */
module SystemTheorems {
  import opened MachineIntegers
  import opened Wrappers
  import opened Addresses
  import opened BackfillProgram
  import opened ProgramHistory
  import opened ProgramTheorems
  import opened WorkerClaims
  import opened FulfilmentSystem
  import opened SystemInvariants
  import opened Outcomes
  import Coinbase
  import Pyth

  // ----- Each order is closed once, for good

  lemma LogGrowsAt(cfg: Config, states: seq<System>, actions: seq<Action>, j: nat)
    requires ValidConfig(cfg) && IsRun(cfg, states, actions) && j < |actions|
    ensures states[j].log <= states[j + 1].log
  {
    assert Enabled(cfg, states[j], actions[j]) && states[j + 1] == Next(cfg, states[j], actions[j]);
    Reachable(cfg, states, actions, j);
    GrowsStep(cfg, states[j], actions[j]);
  }

  ghost predicate LogsKept(states: seq<System>) {
    forall i :: 0 <= i < |states| - 1 ==> states[i].log <= states[i + 1].log
  }

  lemma {:induction false} KeptLogsGrow(states: seq<System>, i: nat, j: nat)
    requires LogsKept(states) && i <= j < |states|
    ensures states[i].log <= states[j].log
    decreases j - i
  {
    if i < j {
      KeptLogsGrow(states, i, j - 1);
      assert states[j - 1].log <= states[j - 1 + 1].log;
    }
  }

  lemma LogsGrow(cfg: Config, states: seq<System>, actions: seq<Action>, i: nat, j: nat)
    requires ValidConfig(cfg) && IsRun(cfg, states, actions) && i <= j < |states|
    ensures states[i].log <= states[j].log
  {
    forall n | 0 <= n < |states| - 1 ensures states[n].log <= states[n + 1].log {
      LogGrowsAt(cfg, states, actions, n);
    }
    KeptLogsGrow(states, i, j);
  }

  /** Over every interleaving of creations, lost or repeated events, stale polls, retries and sends that
      land although they were reported as failed, an order is fulfilled at most once, and once closed its
      account never changes again. */
  lemma ClosedOnceForGood(cfg: Config, states: seq<System>, actions: seq<Action>, i: nat, j: nat, k: Pubkey)
    requires ValidConfig(cfg) && IsRun(cfg, states, actions) && i <= j < |states|
    ensures
      var before, after := Accounts(cfg, states[i].log), Accounts(cfg, states[j].log);
      HasOrder(before, k) && before[k].order.openOrder == 0 ==> k in after && after[k] == before[k]
    ensures forall x, y :: 0 <= x < y < |states[j].log| ==>
              !(IsFulfill(states[j].log[x], k) && IsFulfill(states[j].log[y], k))
  {
    LogsGrow(cfg, states, actions, i, j);
    Reachable(cfg, states, actions, i);
    Reachable(cfg, states, actions, j);
    var log := states[j].log;
    assert log[..|states[i].log|] == states[i].log;
    if HasOrder(Accounts(cfg, states[i].log), k) && Accounts(cfg, states[i].log)[k].order.openOrder == 0 {
      ClosedForever(cfg.book, log, |states[i].log|, k);
    }
    forall x, y | 0 <= x < y < |log| ensures !(IsFulfill(log[x], k) && IsFulfill(log[y], k)) {
      CreatedOnceFulfilledOnce(cfg.book, log, k, x, y);
    }
  }

  // ----- The shared set

  /** The orders with an attempt that is pending or in flight. */
  ghost function LiveOrders(s: System): set<Pubkey> {
    (if s.event.Some? && !s.event.value.phase.Settled? then {s.event.value.order} else {})
    + (if s.batch.Some? then set c | c in s.batch.value && !c.phase.Settled? :: c.order else {})
  }

  /** The orders whose attempt has failed and not yet been released. */
  ghost function FailedNotReleased(s: System): set<Pubkey> {
    (if s.event.Some? && s.event.value.phase == Settled(false) then {s.event.value.order} else {})
    + (if s.batch.Some? then FailedOrders(s.batch.value) else {})
  }

  ghost function ConfirmedSoFar(s: System): set<Pubkey> {
    s.confirmed
    + (if s.event.Some? && s.event.value.phase == Settled(true) then {s.event.value.order} else {})
    + (if s.batch.Some? then ConfirmedOrders(s.batch.value) else {})
  }

  lemma BatchPartition(claims: seq<Claim>)
    requires Distinct(claims)
    ensures
      var live := set c | c in claims && !c.phase.Settled? :: c.order;
      && Orders(claims) == live + FailedOrders(claims) + ConfirmedOrders(claims)
      && live !! FailedOrders(claims) && live !! ConfirmedOrders(claims) && FailedOrders(claims) !! ConfirmedOrders(claims)
  {
    var live := set c | c in claims && !c.phase.Settled? :: c.order;
    forall k | k in Orders(claims) ensures k in live + FailedOrders(claims) + ConfirmedOrders(claims) {
      var c :| c in claims && c.order == k;
      assert c.phase.Settled? ==> c.phase == Settled(c.phase.ok);
    }
    forall c, d | c in claims && d in claims && c.order == d.order ensures c == d {
      var i :| 0 <= i < |claims| && claims[i] == c;
      var j :| 0 <= j < |claims| && claims[j] == d;
      assert i == j;
    }
  }

  /** In every reachable state `active_orders` is the disjoint union of the pending or in-flight orders,
      the failed ones not yet released, and the confirmed ones; and no two attempts, in whichever loop,
      are for the same order. */
  lemma ActiveOrdersPartition(cfg: Config, s: System, slot: Slot, other: Slot)
    requires Inv(cfg, s)
    ensures s.active == LiveOrders(s) + FailedNotReleased(s) + ConfirmedSoFar(s)
    ensures LiveOrders(s) !! FailedNotReleased(s) && LiveOrders(s) !! ConfirmedSoFar(s)
    ensures FailedNotReleased(s) !! ConfirmedSoFar(s)
    ensures HasClaim(s, slot) && HasClaim(s, other) && ClaimAt(s, slot).order == ClaimAt(s, other).order ==> slot == other
  {
    if s.batch.Some? {
      BatchPartition(s.batch.value);
    }
    if s.event.Some? && s.event.value.phase.Settled? {
      assert s.event.value.phase == Settled(s.event.value.phase.ok);
    }
  }

  /** No order is lost: an order that is open on chain and active has an attempt in one of the loops. */
  lemma NoOrderIsLost(cfg: Config, s: System, k: Pubkey)
    requires Inv(cfg, s) && HasOrder(Accounts(cfg, s.log), k) && Accounts(cfg, s.log)[k].order.openOrder == 1
    ensures k in s.active <==> exists slot :: HasClaim(s, slot) && ClaimAt(s, slot).order == k
  {
    OrdersAreTheCreatedOnes(cfg.book, s.log, k);
    if k in EventOrders(s) {
      assert HasClaim(s, EventSlot) && ClaimAt(s, EventSlot).order == k;
    }
    if k in BatchOrders(s) {
      var i :| 0 <= i < |s.batch.value| && s.batch.value[i].order == k;
      assert HasClaim(s, BatchSlot(i)) && ClaimAt(s, BatchSlot(i)).order == k;
    }
    if slot :| HasClaim(s, slot) && ClaimAt(s, slot).order == k {
      assert slot.EventSlot? ==> k in EventOrders(s);
      assert slot.BatchSlot? ==> ClaimAt(s, slot) in s.batch.value;
    }
  }

  /** What `ClaimAll` claims for an entry that is not active. */
  lemma ClaimOf(cfg: Config, s: System, a: Action, l: Listed) returns (i: nat)
    requires Inv(cfg, s) && Enabled(cfg, s, a) && a.Poll? && l in a.listing && l.key !in s.active
    ensures ClaimAll(s.active, a.listing).Success?
    ensures
      var claims := ClaimAll(s.active, a.listing).value;
      && i < |claims| && claims[i].order == l.key && claims[i].phase.Queued?
      && Created(s.log, l.key, claims[i].market, claims[i].timestamp)
  {
    PollClaims(cfg, s, a);
    ClaimsExactlyTheNew(s.active, a.listing);
    var claims := ClaimAll(s.active, a.listing).value;
    i :| 0 <= i < |claims| && claims[i].order == l.key;
    assert ClaimInv(s, claims[i]) && FromListing(claims[i], a.listing);
  }

  /** The next poll that lists an open order outside the set starts an attempt at it, with the order's own
      market and opening time; and no poll ever panics on a market code. */
  lemma NextPollRetries(cfg: Config, s: System, a: Action, l: Listed)
    requires Inv(cfg, s) && Enabled(cfg, s, a) && a.Poll?
    ensures !Next(cfg, s, a).halted
    ensures l in a.listing && l.key !in s.active ==>
              exists slot :: HasClaim(Next(cfg, s, a), slot)
                && var c := ClaimAt(Next(cfg, s, a), slot);
                   c.order == l.key && c.phase.Queued? && Created(s.log, c.order, c.market, c.timestamp)
  {
    PollClaims(cfg, s, a);
    if l in a.listing && l.key !in s.active {
      var i := ClaimOf(cfg, s, a, l);
      var t := Next(cfg, s, a);
      assert HasClaim(t, BatchSlot(i)) && ClaimAt(t, BatchSlot(i)) == ClaimAll(s.active, a.listing).value[i];
    }
  }

  /** The price sum of the attempt does not fit 64 bits. */
  ghost predicate SumOverflows(cfg: Config, s: System, slot: Slot)
    requires HasClaim(s, slot) && ClaimAt(s, slot).phase.Awaiting? && Returned(s, slot)
  {
    var c := ClaimAt(s, slot);
    var published := PublishedPrice(cfg.build, s.messages, c.market, c.timestamp, s.instant);
    && ReturnedPrice(s, slot).Success? && published.Some?
    && published.value + ReturnedPrice(s, slot).value >= TWO_64
  }

  ghost predicate TicksOverflow(cfg: Config, s: System, message: Coinbase.Message) {
    exists m, ts: int64 ::
      Coinbase.TickOf(message, m, ts).Some?
      && Coinbase.Overflows(cfg.build, Coinbase.TicksOf(s.messages + [message], m, ts))
  }

  predicate Unusable(cfg: Config, price: Pyth.ApiPrice) {
    price.info.publishTime >= TWO_63 || Pyth.Unscalable(cfg.build, price.info)
  }

  ghost predicate Panics(cfg: Config, s: System, a: Action)
    requires Enabled(cfg, s, a)
  {
    match a
    case FinishPricing(slot) => SumOverflows(cfg, s, slot)
    case Hear(message) => TicksOverflow(cfg, s, message)
    case Refresh(prices) => exists p :: p in prices && Unusable(cfg, p)
    case FetchAnswers(_, _, answer) => answer.Answered? && Pyth.Unscalable(cfg.build, answer.info)
    case _ => false
  }

  lemma PythPanicsExactlyWhen(cfg: Config, prices: seq<Pyth.ApiPrice>)
    ensures Pyth.AnyPanics(cfg.build, prices) <==> exists p :: p in prices && Unusable(cfg, p)
  {
    forall p: Pyth.ApiPrice ensures Pyth.Panics(cfg.build, p) <==> Unusable(cfg, p) {
      Pyth.ScalingPanicsExactlyWhen(cfg.build, p.info);
    }
  }

  lemma PricingPanicsExactlyWhen(cfg: Config, s: System, a: Action)
    requires Enabled(cfg, s, a) && a.FinishPricing? && !s.halted
    ensures Next(cfg, s, a).halted <==> SumOverflows(cfg, s, a.slot)
  {
  }

  lemma FetchPanicsExactlyWhen(cfg: Config, s: System, a: Action)
    requires Enabled(cfg, s, a) && a.FetchAnswers?
    ensures Next(cfg, s, a).halted <==> a.answer.Answered? && Pyth.Unscalable(cfg.build, a.answer.info)
  {
    if a.answer.Answered? {
      Pyth.ScalingPanicsExactlyWhen(cfg.build, a.answer.info);
    }
  }

  lemma OthersGoOn(cfg: Config, s: System, a: Action)
    requires Enabled(cfg, s, a)
    requires !a.FinishPricing? && !a.FetchAnswers? && !a.Hear? && !a.Refresh? && !a.Poll?
    ensures Next(cfg, s, a).halted == s.halted
  {
  }

  /** Exactly when a step of the worker panics: on a price sum that does not fit 64 bits; on a tick with which
      the total or the count of an accumulator overflows in a debug build, or the count wraps to zero in a
      release build; and on a Pyth price whose text, exponent or time the scaling and the loop cannot handle.
      In particular no claim, poll, send or release ever panics. */
  lemma PanicsExactlyWhen(cfg: Config, s: System, a: Action)
    requires Inv(cfg, s) && Enabled(cfg, s, a)
    ensures Next(cfg, s, a).halted <==> s.halted || Panics(cfg, s, a)
  {
    match a
    case FinishPricing(_) => PricingPanicsExactlyWhen(cfg, s, a);
    case FetchAnswers(_, _, _) => FetchPanicsExactlyWhen(cfg, s, a);
    case Hear(message) => HearPanicsExactlyWhen(cfg, s, message);
    case Refresh(prices) => PythPanicsExactlyWhen(cfg, prices);
    case Poll(_) => PollClaims(cfg, s, a);
    case _ => OthersGoOn(cfg, s, a);
  }

  lemma HearPanicsExactlyWhen(cfg: Config, s: System, message: Coinbase.Message)
    requires FeedInv(cfg, s) && message.arrival == s.instant
    ensures Coinbase.Play(cfg.build, Coinbase.NO_TICKS, s.messages + [message]).Failure? <==> TicksOverflow(cfg, s, message)
  {
    Coinbase.HeardNext(s.messages, message, s.instant);
    Coinbase.PanicsExactlyWhen(cfg.build, s.messages, message);
  }

  // ----- A batch

  ghost predicate SameOrders(c: seq<Claim>, d: seq<Claim>) {
    |c| == |d| && forall i :: 0 <= i < |c| ==> c[i].order == d[i].order
  }

  /** Nothing but the end of a batch removes it or changes its orders. */
  lemma BatchStep(cfg: Config, states: seq<System>, actions: seq<Action>, j: nat)
    requires IsRun(cfg, states, actions) && j < |actions| && states[j].batch.Some? && !actions[j].FinishBatch?
    ensures states[j + 1].batch.Some? && SameOrders(states[j + 1].batch.value, states[j].batch.value)
  {
    assert Enabled(cfg, states[j], actions[j]) && states[j + 1] == Next(cfg, states[j], actions[j]);
  }

  lemma PollStarts(cfg: Config, states: seq<System>, actions: seq<Action>, i: nat)
    requires ValidConfig(cfg) && IsRun(cfg, states, actions) && i < |actions| && actions[i].Poll?
    ensures ClaimAll(states[i].active, actions[i].listing).Success?
    ensures states[i + 1].batch == Some(ClaimAll(states[i].active, actions[i].listing).value)
  {
    assert Enabled(cfg, states[i], actions[i]) && states[i + 1] == Next(cfg, states[i], actions[i]);
    Reachable(cfg, states, actions, i);
    PollClaims(cfg, states[i], actions[i]);
  }

  ghost predicate BatchesKept(states: seq<System>, i: nat, j: nat)
    requires i <= j < |states|
  {
    forall n :: i <= n < j && states[n].batch.Some? ==>
      states[n + 1].batch.Some? && SameOrders(states[n + 1].batch.value, states[n].batch.value)
  }

  lemma {:induction false} KeptBatchStays(states: seq<System>, i: nat, j: nat)
    requires i <= j < |states| && BatchesKept(states, i, j) && states[i].batch.Some?
    ensures states[j].batch.Some? && SameOrders(states[j].batch.value, states[i].batch.value)
    decreases j - i
  {
    if i < j {
      KeptBatchStays(states, i, j - 1);
      assert states[j - 1].batch.Some?;
    }
  }

  /** Between its claim and its end, a batch keeps its orders in order. */
  lemma BatchStaysClaimed(cfg: Config, states: seq<System>, actions: seq<Action>, i: nat, j: nat)
    requires ValidConfig(cfg) && IsRun(cfg, states, actions) && i < j < |states|
    requires actions[i].Poll? && forall n :: i < n < j ==> !actions[n].FinishBatch?
    ensures states[j].batch.Some? && ClaimAll(states[i].active, actions[i].listing).Success?
    ensures SameOrders(states[j].batch.value, ClaimAll(states[i].active, actions[i].listing).value)
  {
    PollStarts(cfg, states, actions, i);
    forall n | i + 1 <= n < j && states[n].batch.Some?
      ensures states[n + 1].batch.Some? && SameOrders(states[n + 1].batch.value, states[n].batch.value)
    {
      BatchStep(cfg, states, actions, n);
    }
    KeptBatchStays(states, i + 1, j);
  }

  /** Releasing the failed orders of a finished batch leaves exactly its successful ones. */
  lemma ReleaseLeavesTheSuccessful(active: set<Pubkey>, claims: seq<Claim>, claimed: seq<Claim>)
    requires Distinct(claims) && SameOrders(claims, claimed) && Orders(claims) <= active
    requires forall c :: c in claims ==> c.phase.Settled?
    ensures forall k :: k !in Orders(claimed) ==> (k in active - FailedOrders(claims) <==> k in active)
    ensures forall n :: 0 <= n < |claimed| ==>
              (claimed[n].order in active - FailedOrders(claims) <==> claims[n].phase == Settled(true))
  {
    BatchPartition(claims);
    forall n | 0 <= n < |claimed|
      ensures claims[n].order in FailedOrders(claims) <==> claims[n].phase == Settled(false)
      ensures claims[n].order in active && claimed[n].order == claims[n].order
      ensures claims[n].phase == Settled(claims[n].phase.ok)
    {
      assert claims[n] in claims;
    }
    forall k | k in FailedOrders(claims) ensures k in Orders(claimed) {
      var n :| 0 <= n < |claims| && claims[n].order == k;
      assert claimed[n] in claimed;
    }
  }

  lemma FinishReleases(cfg: Config, s: System)
    requires Inv(cfg, s) && Enabled(cfg, s, FinishBatch)
    ensures Next(cfg, s, FinishBatch).active == s.active - FailedOrders(s.batch.value)
    ensures Distinct(s.batch.value) && Orders(s.batch.value) <= s.active
    ensures forall c :: c in s.batch.value ==> c.phase.Settled?
  {
  }

  /** The net effect of a batch of any size, with any outcomes, under any interleaving: none of its orders
      was active before, result i belongs to key i, and when it ends exactly its successful orders are left
      in the set, those whose fulfilment was reported as confirmed in between, while every other order is as
      the event route left it. */
  lemma BatchNetEffect(cfg: Config, states: seq<System>, actions: seq<Action>, i: nat, j: nat)
    requires ValidConfig(cfg) && IsRun(cfg, states, actions) && i < j < |actions|
    requires actions[i].Poll? && actions[j].FinishBatch? && forall n :: i < n < j ==> !actions[n].FinishBatch?
    ensures ClaimAll(states[i].active, actions[i].listing).Success? && states[j].batch.Some?
    ensures
      var claimed, before, after := ClaimAll(states[i].active, actions[i].listing).value, states[j], states[j + 1];
      && Distinct(claimed) && Orders(claimed) !! states[i].active
      && SameOrders(before.batch.value, claimed)
      && (forall k :: k !in Orders(claimed) ==> (k in after.active <==> k in before.active))
      && (forall n :: 0 <= n < |claimed| ==>
            (claimed[n].order in after.active <==> before.batch.value[n].phase == Settled(true)))
      && (forall n: nat :: n < |claimed| ==> Outcome(after, claimed[n].order, Confirmed(actions, i + 1, j, BatchSlot(n))))
  {
    BatchStaysClaimed(cfg, states, actions, i, j);
    ClaimsExactlyTheNew(states[i].active, actions[i].listing);
    Reachable(cfg, states, actions, j);
    assert Enabled(cfg, states[j], actions[j]) && states[j + 1] == Next(cfg, states[j], actions[j]);
    FinishReleases(cfg, states[j]);
    ReleaseLeavesTheSuccessful(states[j].active, states[j].batch.value,
                               ClaimAll(states[i].active, actions[i].listing).value);
    forall n: nat | n < |ClaimAll(states[i].active, actions[i].listing).value|
      ensures Outcome(states[j + 1], ClaimAll(states[i].active, actions[i].listing).value[n].order,
                      Confirmed(actions, i + 1, j, BatchSlot(n)))
    {
      PolledOutcome(cfg, states, actions, i, j, n);
    }
  }

  lemma PolledOutcome(cfg: Config, states: seq<System>, actions: seq<Action>, i: nat, j: nat, n: nat)
    requires ValidConfig(cfg) && IsRun(cfg, states, actions) && i < j < |actions|
    requires actions[i].Poll? && actions[j].FinishBatch? && forall x :: i < x < j ==> !actions[x].FinishBatch?
    requires ClaimAll(states[i].active, actions[i].listing).Success?
    requires n < |ClaimAll(states[i].active, actions[i].listing).value|
    ensures Outcome(states[j + 1], ClaimAll(states[i].active, actions[i].listing).value[n].order,
                    Confirmed(actions, i + 1, j, BatchSlot(n)))
  {
    PollStarts(cfg, states, actions, i);
    ClaimsExactlyTheNew(states[i].active, actions[i].listing);
    var claims := ClaimAll(states[i].active, actions[i].listing).value;
    assert FromListing(claims[n], actions[i].listing);
    assert ClaimAt(states[i + 1], BatchSlot(n)) == claims[n];
    AttemptOutcome(cfg, states, actions, i + 1, j, BatchSlot(n));
  }
}
