/** How the two loops of the worker claim orders in the shared set `active_orders` and release them. */
module WorkerClaims {
  import opened MachineIntegers
  import opened Wrappers
  import opened Addresses
  import opened BackfillProgram

  /** Which loop claimed: the account poll, or the event stream with the number of the emission. */
  datatype Origin = Polled | Delivered(emission: nat)

  /** Where an attempt stands. The numbers point to the cache read, the quote and the transaction. */
  datatype Phase = Queued | Awaiting(get: nat) | Quoted(quote: nat) | Sending(tx: nat) | Settled(ok: bool)

  /** An attempt to fulfil an order that its loop has claimed. */
  datatype Claim = Claim(order: Pubkey, market: MarketType, timestamp: int64, origin: Origin, phase: Phase)

  /** An entry of a poll response. */
  datatype Listed = Listed(key: Pubkey, order: OrderAccount)

  /** The claiming loop of the poll: one attempt per listed order that is not active yet. Unwrapping an
      unknown market code panics. */
  function ClaimAll(active: set<Pubkey>, listing: seq<Listed>): Result<seq<Claim>, Panic> {
    if listing == [] then Success([])
    else
      var init, last := listing[..|listing| - 1], listing[|listing| - 1];
      match ClaimAll(active, init)
      case Failure(e) => Failure(e)
      case Success(claims) =>
        if last.key in active + Orders(claims) then Success(claims)
        else match TryFrom(last.order.marketName)
          case None => Failure(Panic)
          case Some(m) => Success(claims + [Claim(last.key, m, last.order.openTimestamp, Polled, Queued)])
  }

  function Orders(claims: seq<Claim>): set<Pubkey> {
    set c | c in claims :: c.order
  }

  /** The orders whose attempt has failed. */
  function FailedOrders(claims: seq<Claim>): set<Pubkey> {
    set c | c in claims && c.phase == Settled(false) :: c.order
  }

  function ConfirmedOrders(claims: seq<Claim>): set<Pubkey> {
    set c | c in claims && c.phase == Settled(true) :: c.order
  }

  ghost predicate Distinct(claims: seq<Claim>) {
    forall i, j :: 0 <= i < j < |claims| ==> claims[i].order != claims[j].order
  }

  predicate FromListing(c: Claim, listing: seq<Listed>) {
    && c.origin.Polled? && c.phase.Queued?
    && exists l :: l in listing && c.order == l.key && c.timestamp == l.order.openTimestamp
                   && TryFrom(l.order.marketName) == Some(c.market)
  }

  lemma ListedBefore(c: Claim, listing: seq<Listed>, last: Listed)
    requires FromListing(c, listing)
    ensures FromListing(c, listing + [last])
  {
    var l :| l in listing && c.order == l.key && c.timestamp == l.order.openTimestamp
             && TryFrom(l.order.marketName) == Some(c.market);
    assert l in listing + [last];
  }

  lemma OneMoreClaim(claims: seq<Claim>, c: Claim)
    ensures Orders(claims + [c]) == Orders(claims) + {c.order}
    ensures Distinct(claims) && c.order !in Orders(claims) ==> Distinct(claims + [c])
  {
    assert forall d :: d in claims + [c] <==> d in claims || d == c;
    assert forall d :: d in claims ==> d.order in Orders(claims);
  }

  /** A poll claims exactly the listed orders that are not active, each once, with the market and opening
      timestamp of its own entry. */
  lemma {:induction false} ClaimsExactlyTheNew(active: set<Pubkey>, listing: seq<Listed>)
    requires ClaimAll(active, listing).Success?
    ensures
      var claims := ClaimAll(active, listing).value;
      && Distinct(claims) && Orders(claims) !! active
      && (forall l :: l in listing ==> l.key in active + Orders(claims))
      && (forall c :: c in claims ==> FromListing(c, listing))
  {
    if listing != [] {
      var init, last := listing[..|listing| - 1], listing[|listing| - 1];
      ClaimsExactlyTheNew(active, init);
      var before, claims := ClaimAll(active, init).value, ClaimAll(active, listing).value;
      assert listing == init + [last];
      forall c | c in before ensures FromListing(c, listing) {
        ListedBefore(c, init, last);
      }
      if claims != before {
        var c := claims[|before|];
        assert claims == before + [c];
        OneMoreClaim(before, c);
        assert last in listing && FromListing(c, listing);
      }
    }
  }

  /** The claiming loop panics only on an entry with an unknown market code. */
  lemma {:induction false} ClaimsSucceed(active: set<Pubkey>, listing: seq<Listed>)
    requires forall l :: l in listing ==> TryFrom(l.order.marketName).Some?
    ensures ClaimAll(active, listing).Success?
  {
    if listing != [] {
      ClaimsSucceed(active, listing[..|listing| - 1]);
    }
  }

  /** The part of the worker's state that the two loops share. */
  class OracleWorker {
    var activeOrders: set<Pubkey>

    constructor ()
      ensures activeOrders == {}
    {
      activeOrders := {};
    }

    /** `DashSet::insert`: whether the key was new. */
    method Insert(key: Pubkey) returns (isNew: bool)
      modifies this
      ensures isNew <==> key !in old(activeOrders)
      ensures activeOrders == old(activeOrders) + {key}
    {
      isNew := key !in activeOrders;
      activeOrders := activeOrders + {key};
    }

    method Remove(key: Pubkey)
      modifies this
      ensures activeOrders == old(activeOrders) - {key}
    {
      activeOrders := activeOrders - {key};
    }

    /** The loop of the poll that claims orders and starts their attempts. */
    method ClaimOpenOrders(openOrders: seq<Listed>)
      returns (panicked: bool, futures: seq<Claim>, orderKeys: seq<Pubkey>)
      modifies this
      ensures panicked <==> ClaimAll(old(activeOrders), openOrders).Failure?
      ensures !panicked ==> futures == ClaimAll(old(activeOrders), openOrders).value
      ensures !panicked ==> |orderKeys| == |futures| && forall i :: 0 <= i < |futures| ==> orderKeys[i] == futures[i].order
      ensures !panicked ==> activeOrders == old(activeOrders) + Orders(futures)
    {
      futures, orderKeys := [], [];
      for n := 0 to |openOrders|
        invariant ClaimAll(old(activeOrders), openOrders[..n]) == Success(futures)
        invariant |orderKeys| == |futures| && forall i :: 0 <= i < |futures| ==> orderKeys[i] == futures[i].order
        invariant activeOrders == old(activeOrders) + Orders(futures)
      {
        assert openOrders[..n + 1][..n] == openOrders[..n];
        var l := openOrders[n];
        ghost var before := futures;
        var isNew := Insert(l.key);
        if isNew {
          var market := TryFrom(l.order.marketName);
          if market.None? {
            PanicStays(old(activeOrders), openOrders, n + 1);
            return true, futures, orderKeys;
          }
          futures := futures + [Claim(l.key, market.value, l.order.openTimestamp, Polled, Queued)];
          orderKeys := orderKeys + [l.key];
          OneMoreClaim(before, futures[|before|]);
        }
      }
      assert openOrders[..|openOrders|] == openOrders;
      panicked := false;
    }

    /** The loop of the poll over the results of its batch: the i-th result releases the i-th key. */
    method ProcessResults(orderKeys: seq<Pubkey>, results: seq<bool>)
      requires |results| == |orderKeys|
      modifies this
      ensures activeOrders == old(activeOrders) - set i | 0 <= i < |results| && !results[i] :: orderKeys[i]
    {
      for n := 0 to |results|
        invariant activeOrders == old(activeOrders) - set i | 0 <= i < n && !results[i] :: orderKeys[i]
      {
        if !results[n] {
          Remove(orderKeys[n]);
        }
      }
    }

    /** The event route up to its first await: claim the order, unless it is active. */
    method ClaimEvent(event: PriceRequested) returns (claimed: bool)
      modifies this
      ensures claimed <==> event.order !in old(activeOrders)
      ensures activeOrders == old(activeOrders) + {event.order}
    {
      claimed := Insert(event.order);
    }

    /** The event route after its attempt: a failure releases the order at once. */
    method SettleEvent(event: PriceRequested, ok: bool)
      modifies this
      ensures activeOrders == if ok then old(activeOrders) else old(activeOrders) - {event.order}
    {
      if !ok {
        Remove(event.order);
      }
    }
  }

  lemma {:induction false} PanicStays(active: set<Pubkey>, listing: seq<Listed>, n: nat)
    requires n <= |listing| && ClaimAll(active, listing[..n]).Failure?
    ensures ClaimAll(active, listing).Failure?
    decreases |listing|
  {
    if n < |listing| {
      var init := listing[..|listing| - 1];
      assert init[..n] == listing[..n];
      PanicStays(active, init, n);
    } else {
      assert listing[..n] == listing;
    }
  }

  /** Releasing by position is releasing the failed attempts: result i belongs to key i. */
  lemma ResultsMatchKeys(claims: seq<Claim>, orderKeys: seq<Pubkey>, results: seq<bool>)
    requires |results| == |orderKeys| == |claims|
    requires forall i :: 0 <= i < |claims| ==> orderKeys[i] == claims[i].order && claims[i].phase == Settled(results[i])
    ensures (set i | 0 <= i < |results| && !results[i] :: orderKeys[i]) == FailedOrders(claims)
  {
    var released := set i | 0 <= i < |results| && !results[i] :: orderKeys[i];
    forall k | k in FailedOrders(claims) ensures k in released {
      var i :| 0 <= i < |claims| && claims[i].order == k && claims[i].phase == Settled(false);
      assert !results[i] && orderKeys[i] == k;
    }
    forall k | k in released ensures k in FailedOrders(claims) {
      var i :| 0 <= i < |results| && !results[i] && orderKeys[i] == k;
      assert claims[i] in claims;
    }
  }
}
