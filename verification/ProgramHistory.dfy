/** Whole runs of the on-chain program. A run is the log of the executed transactions; these lemmas say
    what the ledger holds after any log, in terms of the log alone. */
module ProgramHistory {
  import opened Wrappers
  import opened Addresses
  import opened BackfillProgram

  datatype Entry = Entry(clock: Clock, tx: Transaction)

  type Log = seq<Entry>

  /** The ledger after executing every transaction of the log, if all of them are accepted. */
  function LedgerAfter(book: AddressBook, log: Log): Option<Ledger> {
    if log == [] then Some(map[])
    else
      var last := log[|log| - 1];
      match LedgerAfter(book, log[..|log| - 1])
      case None => None
      case Some(accounts) =>
        match Execute(book, accounts, last.clock, last.tx)
        case Success(effect) => Some(effect.accounts)
        case Failure(_) => None
  }

  predicate NotBefore(c: Clock, d: Clock) {
    c.slot <= d.slot && c.timestamp <= d.timestamp
  }

  /** Only the authorities of the address book register oracles. */
  predicate KnownAuthority(book: AddressBook, tx: Transaction) {
    tx.instruction.RegisterOracle? ==> tx.instruction.authority in book.authorities
  }

  ghost predicate ClocksInOrder(log: Log) {
    && (forall i :: 0 <= i < |log| ==> 0 <= log[i].clock.timestamp)
    && (forall i, j :: 0 <= i < j < |log| ==> NotBefore(log[i].clock, log[j].clock))
  }

  ghost predicate OrdinarySigners(book: AddressBook, log: Log) {
    && (forall i, k :: 0 <= i < |log| && k in log[i].tx.signers ==> !book.Derived(k))
    && (forall i :: 0 <= i < |log| ==> KnownAuthority(book, log[i].tx))
  }

  /** Hypotheses about the chain: only accepted transactions are logged, the clock never goes back
      and starts at a non-negative timestamp, and a derived address signs nothing. */
  ghost predicate ValidLog(book: AddressBook, log: Log) {
    book.Valid() && LedgerAfter(book, log).Some? && ClocksInOrder(log) && OrdinarySigners(book, log)
  }

  predicate IsCreate(e: Entry, k: Pubkey) {
    e.tx.instruction.CreateOrder? && e.tx.instruction.order == k
  }

  predicate IsFulfill(e: Entry, k: Pubkey) {
    e.tx.instruction.FulfillOrder? && e.tx.instruction.order == k
  }

  predicate IsRegister(e: Entry, oracle: Pubkey) {
    e.tx.instruction.RegisterOracle? && e.tx.instruction.oracle == oracle
  }

  predicate Closed(log: Log, k: Pubkey) {
    exists j :: 0 <= j < |log| && IsFulfill(log[j], k)
  }

  predicate Registered(log: Log, oracle: Pubkey) {
    exists i :: 0 <= i < |log| && IsRegister(log[i], oracle)
  }

  /** The oracle account whose first registration is the most recent one in the log. */
  function CurrentOracle(log: Log): Pubkey {
    if log == [] then DEFAULT_PUBKEY
    else
      var before, ix := log[..|log| - 1], log[|log| - 1].tx.instruction;
      if ix.RegisterOracle? && !Registered(before, ix.oracle) then ix.oracle else CurrentOracle(before)
  }

  /** The signer that the latest registration of an oracle account names. */
  function LastSigner(log: Log, oracle: Pubkey): Pubkey {
    if log == [] then DEFAULT_PUBKEY
    else if IsRegister(log[|log| - 1], oracle) then log[|log| - 1].tx.instruction.enclaveSigner
    else LastSigner(log[..|log| - 1], oracle)
  }

  predicate OpenedBy(order: OrderAccount, e: Entry)
    requires e.tx.instruction.CreateOrder?
  {
    var ix := e.tx.instruction;
    && order.authority == ix.authority && order.market == ix.market && order.marketName == ix.marketType.ToBytes()
    && order.openTimestamp == e.clock.timestamp && order.openSlot == e.clock.slot
  }

  predicate ClosedBy(order: OrderAccount, e: Entry)
    requires e.tx.instruction.FulfillOrder?
  {
    && order.openOrder == 0 && order.oraclePrice == e.tx.instruction.price
    && order.closeTimestamp == e.clock.timestamp && order.closeSlot == e.clock.slot
  }

  /** The order names one of the three markets by its code and holds that market's address. */
  predicate ForMarket(book: AddressBook, order: OrderAccount, m: MarketType) {
    TryFrom(order.marketName) == Some(m) && order.market == book.market(m).key
  }

  /** What may stand at an address, in terms of the log. */
  ghost predicate AccountMatches(book: AddressBook, log: Log, k: Pubkey, account: Account) {
    match account
    case Program(p) =>
      k == book.program.key && p.bump == book.program.bump && p.oracle == CurrentOracle(log)
    case Market(m) =>
      && TryFrom(m.name).Some? && k == book.market(TryFrom(m.name).value).key
      && m == NewMarket(book, TryFrom(m.name).value)
    case Oracle(o) =>
      && o.authority in book.authorities && k == book.oracle(o.authority).key && o.bump == book.oracle(o.authority).bump
      && o.enclaveSigner == LastSigner(log, k)
    case Order(o) =>
      !book.Derived(k) && TryFrom(o.marketName).Some? && ForMarket(book, o, TryFrom(o.marketName).value)
  }

  ghost predicate AccountsMatch(book: AddressBook, log: Log, accounts: Ledger) {
    forall k :: k in accounts ==> AccountMatches(book, log, k, accounts[k])
  }

  ghost predicate ProgramExists(book: AddressBook, log: Log, accounts: Ledger) {
    if HasProgram(accounts, book.program.key) then
      && HasMarket(accounts, book.market(Btc).key) && HasMarket(accounts, book.market(Eth).key)
      && HasMarket(accounts, book.market(Sol).key)
    else CurrentOracle(log) == DEFAULT_PUBKEY
  }

  /** Which accounts exist, in terms of the log. */
  ghost predicate AccountsExist(book: AddressBook, log: Log, accounts: Ledger) {
    && ProgramExists(book, log, accounts)
    && (forall k :: Registered(log, k) <==> HasOracle(accounts, k))
    && (CurrentOracle(log) != DEFAULT_PUBKEY ==> HasOracle(accounts, CurrentOracle(log)))
  }

  /** What every order account holds, in terms of the log: each order is created once and fulfilled at
      most once, its opening fields are those of the creation, and it is closed exactly when the log has
      a fulfilment, whose price and clock it holds. */
  ghost predicate OrdersMatch(log: Log, accounts: Ledger) {
    && (forall i, k {:trigger IsCreate(log[i], k)} :: 0 <= i < |log| && IsCreate(log[i], k) ==>
          HasOrder(accounts, k) && OpenedBy(accounts[k].order, log[i]))
    && (forall j, k {:trigger IsFulfill(log[j], k)} :: 0 <= j < |log| && IsFulfill(log[j], k) ==>
          HasOrder(accounts, k) && ClosedBy(accounts[k].order, log[j]))
    && (forall k :: HasOrder(accounts, k) ==>
          && (exists i :: 0 <= i < |log| && IsCreate(log[i], k))
          && accounts[k].order.openOrder in {0, 1}
          && (accounts[k].order.openOrder == 0 ==> Closed(log, k)))
    && (forall i, j, k {:trigger IsCreate(log[i], k), IsCreate(log[j], k)} ::
          0 <= i < j < |log| ==> !(IsCreate(log[i], k) && IsCreate(log[j], k)))
    && (forall i, j, k {:trigger IsFulfill(log[i], k), IsFulfill(log[j], k)} ::
          0 <= i < j < |log| ==> !(IsFulfill(log[i], k) && IsFulfill(log[j], k)))
  }

  lemma ExtendLedger(book: AddressBook, log: Log, e: Entry)
    ensures LedgerAfter(book, log + [e]) ==
            if LedgerAfter(book, log).None? then None
            else match Execute(book, LedgerAfter(book, log).value, e.clock, e.tx)
              case Success(effect) => Some(effect.accounts)
              case Failure(_) => None
  {
    assert (log + [e])[..|log|] == log && (log + [e])[|log|] == e;
  }

  lemma ClocksExtend(log: Log, e: Entry)
    requires ClocksInOrder(log) && 0 <= e.clock.timestamp
    requires forall i :: 0 <= i < |log| ==> NotBefore(log[i].clock, e.clock)
    ensures ClocksInOrder(log + [e])
  {
    var more := log + [e];
    forall i, j | 0 <= i < j < |more| ensures NotBefore(more[i].clock, more[j].clock) {
      if j < |log| { assert NotBefore(log[i].clock, log[j].clock); } else { assert more[j] == e; }
    }
  }

  lemma SignersExtend(book: AddressBook, log: Log, e: Entry)
    requires OrdinarySigners(book, log) && KnownAuthority(book, e.tx)
    requires forall k :: k in e.tx.signers ==> !book.Derived(k)
    ensures OrdinarySigners(book, log + [e])
  {
    var more := log + [e];
    forall i | 0 <= i < |more|
      ensures KnownAuthority(book, more[i].tx) && forall k :: k in more[i].tx.signers ==> !book.Derived(k)
    {
      assert i < |log| ==> more[i] == log[i];
    }
  }

  lemma ValidLogExtends(book: AddressBook, log: Log, e: Entry)
    requires ValidLog(book, log) && LedgerAfter(book, log + [e]).Some?
    requires 0 <= e.clock.timestamp && forall i :: 0 <= i < |log| ==> NotBefore(log[i].clock, e.clock)
    requires KnownAuthority(book, e.tx) && forall k :: k in e.tx.signers ==> !book.Derived(k)
    ensures ValidLog(book, log + [e])
  {
    ClocksExtend(log, e);
    SignersExtend(book, log, e);
  }

  /** What one more entry adds to each reading of the log. */
  lemma Extend(log: Log, e: Entry)
    ensures forall k :: LastSigner(log + [e], k) ==
                        if IsRegister(e, k) then e.tx.instruction.enclaveSigner else LastSigner(log, k)
    ensures CurrentOracle(log + [e]) ==
            if e.tx.instruction.RegisterOracle? && !Registered(log, e.tx.instruction.oracle)
            then e.tx.instruction.oracle else CurrentOracle(log)
    ensures forall k :: Registered(log + [e], k) <==> Registered(log, k) || IsRegister(e, k)
    ensures forall k :: Closed(log + [e], k) <==> Closed(log, k) || IsFulfill(e, k)
  {
    assert (log + [e])[..|log|] == log && (log + [e])[|log|] == e;
    forall k ensures Registered(log + [e], k) <==> Registered(log, k) || IsRegister(e, k) {
      if IsRegister(e, k) { assert IsRegister((log + [e])[|log|], k); }
      if Registered(log, k) {
        var i :| 0 <= i < |log| && IsRegister(log[i], k);
        assert IsRegister((log + [e])[i], k);
      }
    }
    forall k ensures Closed(log + [e], k) <==> Closed(log, k) || IsFulfill(e, k) {
      if IsFulfill(e, k) { assert IsFulfill((log + [e])[|log|], k); }
      if Closed(log, k) {
        var i :| 0 <= i < |log| && IsFulfill(log[i], k);
        assert IsFulfill((log + [e])[i], k);
      }
    }
  }

  /** The hypotheses of the step lemmas: a ledger that its log describes, and one more accepted transaction. */
  ghost predicate StepFrom(book: AddressBook, log: Log, accounts: Ledger, e: Entry) {
    && book.Valid() && AccountsMatch(book, log, accounts) && AccountsExist(book, log, accounts)
    && Execute(book, accounts, e.clock, e.tx).Success?
    && KnownAuthority(book, e.tx) && (forall x :: x in e.tx.signers ==> !book.Derived(x))
  }

  lemma MatchAfterInitialize(book: AddressBook, log: Log, accounts: Ledger, e: Entry, k: Pubkey)
    requires StepFrom(book, log, accounts, e) && e.tx.instruction.Initialize?
    requires k in Execute(book, accounts, e.clock, e.tx).value.accounts
    ensures AccountMatches(book, log + [e], k, Execute(book, accounts, e.clock, e.tx).value.accounts[k])
  {
    Extend(log, e);
    assert k in accounts ==> AccountMatches(book, log, k, accounts[k]);
    assert !HasProgram(accounts, book.program.key);
    var ix := e.tx.instruction;
    if k in {ix.btcMarket, ix.ethMarket, ix.solMarket} {
      MarketCodesRoundTrip(Btc, BTC_MARKET_BYTES);
      MarketCodesRoundTrip(Eth, ETH_MARKET_BYTES);
      MarketCodesRoundTrip(Sol, SOL_MARKET_BYTES);
    }
  }

  lemma MatchAfterRegister(book: AddressBook, log: Log, accounts: Ledger, e: Entry, k: Pubkey)
    requires StepFrom(book, log, accounts, e) && e.tx.instruction.RegisterOracle?
    requires k in Execute(book, accounts, e.clock, e.tx).value.accounts
    ensures AccountMatches(book, log + [e], k, Execute(book, accounts, e.clock, e.tx).value.accounts[k])
  {
    Extend(log, e);
    var ix := e.tx.instruction;
    assert k in accounts ==> AccountMatches(book, log, k, accounts[k]);
    assert AccountMatches(book, log, ix.program, accounts[ix.program]);
    assert ix.oracle in accounts ==> AccountMatches(book, log, ix.oracle, accounts[ix.oracle]);
    assert Registered(log, ix.oracle) <==> HasOracle(accounts, ix.oracle);
  }

  lemma MatchAfterCreate(book: AddressBook, log: Log, accounts: Ledger, e: Entry, k: Pubkey)
    requires StepFrom(book, log, accounts, e) && e.tx.instruction.CreateOrder?
    requires k in Execute(book, accounts, e.clock, e.tx).value.accounts
    ensures AccountMatches(book, log + [e], k, Execute(book, accounts, e.clock, e.tx).value.accounts[k])
  {
    Extend(log, e);
    assert k in accounts ==> AccountMatches(book, log, k, accounts[k]);
    MarketCodesRoundTrip(e.tx.instruction.marketType, BTC_MARKET_BYTES);
  }

  lemma MatchAfterFulfil(book: AddressBook, log: Log, accounts: Ledger, e: Entry, k: Pubkey)
    requires StepFrom(book, log, accounts, e) && e.tx.instruction.FulfillOrder?
    requires k in Execute(book, accounts, e.clock, e.tx).value.accounts
    ensures AccountMatches(book, log + [e], k, Execute(book, accounts, e.clock, e.tx).value.accounts[k])
  {
    Extend(log, e);
    assert k in accounts ==> AccountMatches(book, log, k, accounts[k]);
  }

  /** An accepted transaction removes no account, and only a registration adds an oracle. */
  lemma KindsKept(book: AddressBook, accounts: Ledger, e: Entry, k: Pubkey)
    requires Execute(book, accounts, e.clock, e.tx).Success?
    ensures
      var after := Execute(book, accounts, e.clock, e.tx).value.accounts;
      && (HasProgram(accounts, k) ==> HasProgram(after, k))
      && (HasMarket(accounts, k) ==> HasMarket(after, k))
      && (HasOracle(after, k) <==> HasOracle(accounts, k) || IsRegister(e, k))
  {
  }

  lemma OraclesAfter(book: AddressBook, log: Log, accounts: Ledger, e: Entry, k: Pubkey)
    requires StepFrom(book, log, accounts, e)
    ensures Registered(log + [e], k) <==> HasOracle(Execute(book, accounts, e.clock, e.tx).value.accounts, k)
  {
    Extend(log, e);
    KindsKept(book, accounts, e, k);
  }

  lemma ExistAfterInitialize(book: AddressBook, log: Log, accounts: Ledger, e: Entry)
    requires StepFrom(book, log, accounts, e) && e.tx.instruction.Initialize?
    ensures ProgramExists(book, log + [e], Execute(book, accounts, e.clock, e.tx).value.accounts)
  {
    Extend(log, e);
  }

  lemma ExistAfterRegister(book: AddressBook, log: Log, accounts: Ledger, e: Entry)
    requires StepFrom(book, log, accounts, e) && e.tx.instruction.RegisterOracle?
    ensures ProgramExists(book, log + [e], Execute(book, accounts, e.clock, e.tx).value.accounts)
  {
    assert HasProgram(accounts, book.program.key);
    KeepsProgram(book, accounts, e);
  }

  lemma ExistAfterOrder(book: AddressBook, log: Log, accounts: Ledger, e: Entry)
    requires StepFrom(book, log, accounts, e) && (e.tx.instruction.CreateOrder? || e.tx.instruction.FulfillOrder?)
    ensures ProgramExists(book, log + [e], Execute(book, accounts, e.clock, e.tx).value.accounts)
  {
    assert HasProgram(accounts, book.program.key);
    KeepsProgram(book, accounts, e);
  }

  lemma KeepsProgram(book: AddressBook, accounts: Ledger, e: Entry)
    requires Execute(book, accounts, e.clock, e.tx).Success?
    ensures
      var after := Execute(book, accounts, e.clock, e.tx).value.accounts;
      && (HasProgram(accounts, book.program.key) ==> HasProgram(after, book.program.key))
      && (forall m :: HasMarket(accounts, book.market(m).key) ==> HasMarket(after, book.market(m).key))
  {
    KindsKept(book, accounts, e, book.program.key);
    forall m { KindsKept(book, accounts, e, book.market(m).key); }
  }

  lemma CurrentExists(book: AddressBook, log: Log, accounts: Ledger, e: Entry)
    requires StepFrom(book, log, accounts, e) && CurrentOracle(log + [e]) != DEFAULT_PUBKEY
    ensures HasOracle(Execute(book, accounts, e.clock, e.tx).value.accounts, CurrentOracle(log + [e]))
  {
    Extend(log, e);
    KindsKept(book, accounts, e, CurrentOracle(log + [e]));
  }

  lemma ExistStep(book: AddressBook, log: Log, accounts: Ledger, e: Entry)
    requires StepFrom(book, log, accounts, e)
    ensures AccountsExist(book, log + [e], Execute(book, accounts, e.clock, e.tx).value.accounts)
  {
    var after := Execute(book, accounts, e.clock, e.tx).value.accounts;
    match e.tx.instruction {
      case Initialize(_, _, _, _, _) => ExistAfterInitialize(book, log, accounts, e);
      case RegisterOracle(_, _, _, _) => ExistAfterRegister(book, log, accounts, e);
      case _ => ExistAfterOrder(book, log, accounts, e);
    }
    forall k ensures Registered(log + [e], k) <==> HasOracle(after, k) {
      OraclesAfter(book, log, accounts, e, k);
    }
    if CurrentOracle(log + [e]) != DEFAULT_PUBKEY {
      CurrentExists(book, log, accounts, e);
    }
  }

  lemma AccountsStep(book: AddressBook, log: Log, accounts: Ledger, e: Entry)
    requires StepFrom(book, log, accounts, e)
    ensures AccountsMatch(book, log + [e], Execute(book, accounts, e.clock, e.tx).value.accounts)
    ensures AccountsExist(book, log + [e], Execute(book, accounts, e.clock, e.tx).value.accounts)
  {
    var after := Execute(book, accounts, e.clock, e.tx).value.accounts;
    forall k | k in after ensures AccountMatches(book, log + [e], k, after[k]) {
      match e.tx.instruction
      case Initialize(_, _, _, _, _) => MatchAfterInitialize(book, log, accounts, e, k);
      case RegisterOracle(_, _, _, _) => MatchAfterRegister(book, log, accounts, e, k);
      case CreateOrder(_, _, _, _, _) => MatchAfterCreate(book, log, accounts, e, k);
      case FulfillOrder(_, _, _, _, _, _, _) => MatchAfterFulfil(book, log, accounts, e, k);
    }
    ExistStep(book, log, accounts, e);
  }

  lemma CreatesStep(log: Log, accounts: Ledger, e: Entry, after: Ledger)
    requires OrdersMatch(log, accounts) && forall k :: OrderStep(accounts, e, after, k)
    ensures forall i, k {:trigger IsCreate((log + [e])[i], k)} :: 0 <= i <= |log| && IsCreate((log + [e])[i], k) ==>
              && HasOrder(after, k) && OpenedBy(after[k].order, (log + [e])[i])
              && forall j :: 0 <= j < i ==> !IsCreate((log + [e])[j], k)
  {
    var l := log + [e];
    assert forall i :: 0 <= i < |log| ==> l[i] == log[i];
    forall i, k | 0 <= i < |l| && IsCreate(l[i], k)
      ensures HasOrder(after, k) && OpenedBy(after[k].order, l[i])
      ensures forall j :: 0 <= j < i ==> !IsCreate(l[j], k)
    {
      assert OrderStep(accounts, e, after, k);
      if i < |log| { assert IsCreate(log[i], k); }
    }
  }

  lemma FulfilmentsStep(log: Log, accounts: Ledger, e: Entry, after: Ledger)
    requires OrdersMatch(log, accounts) && forall k :: OrderStep(accounts, e, after, k)
    ensures forall i, k {:trigger IsFulfill((log + [e])[i], k)} :: 0 <= i <= |log| && IsFulfill((log + [e])[i], k) ==>
              && HasOrder(after, k) && ClosedBy(after[k].order, (log + [e])[i])
              && forall j :: 0 <= j < i ==> !IsFulfill((log + [e])[j], k)
  {
    var l := log + [e];
    assert forall i :: 0 <= i < |log| ==> l[i] == log[i];
    forall i, k | 0 <= i < |l| && IsFulfill(l[i], k)
      ensures HasOrder(after, k) && ClosedBy(after[k].order, l[i])
      ensures forall j :: 0 <= j < i ==> !IsFulfill(l[j], k)
    {
      assert OrderStep(accounts, e, after, k);
      if i < |log| { assert IsFulfill(log[i], k); }
    }
  }

  /** The order clauses survive one more entry, given what it does to each order. */
  lemma OrdersStep(book: AddressBook, log: Log, accounts: Ledger, e: Entry, after: Ledger)
    requires OrdersMatch(log, accounts) && forall k :: OrderStep(accounts, e, after, k)
    ensures OrdersMatch(log + [e], after)
  {
    Extend(log, e);
    CreatesStep(log, accounts, e, after);
    FulfilmentsStep(log, accounts, e, after);
    var l := log + [e];
    forall k | HasOrder(after, k)
      ensures exists i :: 0 <= i < |l| && IsCreate(l[i], k)
      ensures after[k].order.openOrder in {0, 1}
      ensures after[k].order.openOrder == 0 ==> Closed(l, k)
    {
      assert OrderStep(accounts, e, after, k);
      if IsCreate(e, k) {
        assert IsCreate(l[|log|], k);
      } else {
        var i :| 0 <= i < |log| && IsCreate(log[i], k);
        assert IsCreate(l[i], k);
      }
    }
  }

  /** The effect of an accepted transaction on one order. */
  ghost predicate OrderStep(accounts: Ledger, e: Entry, after: Ledger, k: Pubkey) {
    && (HasOrder(accounts, k) ==> HasOrder(after, k))
    && (HasOrder(accounts, k) && !IsFulfill(e, k) ==> !IsCreate(e, k) && after[k] == accounts[k])
    && (HasOrder(after, k) && !HasOrder(accounts, k) ==>
          IsCreate(e, k) && after[k].order == OpenedOrder(e.tx.instruction, e.clock))
    && (IsCreate(e, k) ==> HasOrder(after, k))
    && (IsFulfill(e, k) ==>
          && HasOrder(accounts, k) && accounts[k].order.openOrder == 1
          && after[k].order == ClosedOrder(accounts[k].order, e.tx.instruction, e.clock))
  }

  lemma OrderEffect(book: AddressBook, accounts: Ledger, e: Entry, k: Pubkey)
    requires Execute(book, accounts, e.clock, e.tx).Success?
    ensures OrderStep(accounts, e, Execute(book, accounts, e.clock, e.tx).value.accounts, k)
  {
  }

  lemma Prefix(book: AddressBook, log: Log, n: nat)
    requires n <= |log| && ValidLog(book, log)
    ensures ValidLog(book, log[..n])
    decreases |log|
  {
    if n < |log| {
      var init := log[..|log| - 1];
      assert init[..n] == log[..n];
      Prefix(book, init, n);
    } else {
      assert log[..n] == log;
    }
  }

  /** The ledger after any run is the one its log describes. */
  lemma {:induction false} LedgerMatchesLog(book: AddressBook, log: Log)
    requires ValidLog(book, log)
    ensures AccountsMatch(book, log, LedgerAfter(book, log).value)
    ensures AccountsExist(book, log, LedgerAfter(book, log).value)
    ensures OrdersMatch(log, LedgerAfter(book, log).value)
  {
    if log != [] {
      var init, e := log[..|log| - 1], log[|log| - 1];
      assert log == init + [e];
      Prefix(book, log, |log| - 1);
      LedgerMatchesLog(book, init);
      var accounts := LedgerAfter(book, init).value;
      AccountsStep(book, init, accounts, e);
      forall k { OrderEffect(book, accounts, e, k); }
      OrdersStep(book, init, accounts, e, LedgerAfter(book, log).value);
    }
  }
}
