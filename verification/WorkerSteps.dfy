/** The methods of the worker make the changes to `active_orders` that the composed protocol specifies. */
module WorkerSteps {
  import opened Wrappers
  import opened Addresses
  import opened BackfillProgram
  import opened WorkerClaims
  import opened FulfilmentSystem
  import opened SystemInvariants

  /** Handling an event up to its first await is the protocol's step `Deliver`. */
  method DeliverStep(ghost cfg: Config, ghost s: System, ghost e: nat, worker: OracleWorker, event: PriceRequested)
    returns (claimed: bool)
    requires Enabled(cfg, s, Deliver(e)) && event == s.emitted[e].event && worker.activeOrders == s.active
    modifies worker
    ensures worker.activeOrders == Next(cfg, s, Deliver(e)).active
    ensures claimed <==> Next(cfg, s, Deliver(e)).event.Some?
  {
    claimed := worker.ClaimEvent(event);
  }

  /** What follows its attempt is `FinishEvent`. */
  method FinishEventStep(ghost cfg: Config, ghost s: System, worker: OracleWorker, event: PriceRequested, ok: bool)
    requires Enabled(cfg, s, FinishEvent) && worker.activeOrders == s.active
    requires event.order == s.event.value.order && s.event.value.phase == Settled(ok)
    modifies worker
    ensures worker.activeOrders == Next(cfg, s, FinishEvent).active
  {
    worker.SettleEvent(event, ok);
  }

  /** The claiming loop over a poll response is `Poll`: it starts exactly the batch, and does not panic. */
  method PollStep(ghost cfg: Config, ghost s: System, worker: OracleWorker, openOrders: seq<Listed>)
    returns (panicked: bool, futures: seq<Claim>, orderKeys: seq<Pubkey>)
    requires Inv(cfg, s) && Enabled(cfg, s, Poll(openOrders)) && worker.activeOrders == s.active
    modifies worker
    ensures !panicked && worker.activeOrders == Next(cfg, s, Poll(openOrders)).active
    ensures Next(cfg, s, Poll(openOrders)).batch == Some(futures) && Keys(futures, orderKeys)
  {
    PollClaims(cfg, s, Poll(openOrders));
    panicked, futures, orderKeys := worker.ClaimOpenOrders(openOrders);
  }

  ghost predicate Keys(claims: seq<Claim>, orderKeys: seq<Pubkey>) {
    |orderKeys| == |claims| && forall i :: 0 <= i < |claims| ==> orderKeys[i] == claims[i].order
  }

  ghost predicate Results(claims: seq<Claim>, results: seq<bool>) {
    |results| == |claims| && forall i :: 0 <= i < |claims| ==> claims[i].phase == Settled(results[i])
  }

  /** The loop over the results of the batch is `FinishBatch`. */
  method FinishBatchStep(ghost cfg: Config, ghost s: System, worker: OracleWorker, orderKeys: seq<Pubkey>, results: seq<bool>)
    requires Enabled(cfg, s, FinishBatch) && worker.activeOrders == s.active
    requires Keys(s.batch.value, orderKeys) && Results(s.batch.value, results)
    modifies worker
    ensures worker.activeOrders == Next(cfg, s, FinishBatch).active
  {
    worker.ProcessResults(orderKeys, results);
    ResultsMatchKeys(s.batch.value, orderKeys, results);
  }
}
