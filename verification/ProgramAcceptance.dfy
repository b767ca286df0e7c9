/** Exactly when each instruction is accepted on a reachable ledger, and what it leaves behind. */
module ProgramAcceptance {
  import opened MachineIntegers
  import opened Wrappers
  import opened Addresses
  import opened BackfillProgram
  import opened ProgramHistory
  import opened ProgramTheorems

  predicate Initialized(log: Log) {
    exists i :: 0 <= i < |log| && log[i].tx.instruction.Initialize?
  }

  lemma InitializedGrows(log: Log, e: Entry)
    ensures Initialized(log + [e]) <==> Initialized(log) || e.tx.instruction.Initialize?
  {
    if e.tx.instruction.Initialize? { assert (log + [e])[|log|].tx.instruction.Initialize?; }
    if Initialized(log) {
      var i :| 0 <= i < |log| && log[i].tx.instruction.Initialize?;
      assert (log + [e])[i].tx.instruction.Initialize?;
    }
  }

  // ----- Initialization

  /** Only an initialization adds a program or a market account. */
  lemma OnlyInitializeAdds(book: AddressBook, accounts: Ledger, e: Entry, k: Pubkey)
    requires Execute(book, accounts, e.clock, e.tx).Success? && !e.tx.instruction.Initialize?
    ensures
      var after := Execute(book, accounts, e.clock, e.tx).value.accounts;
      (HasProgram(after, k) ==> HasProgram(accounts, k)) && (HasMarket(after, k) ==> HasMarket(accounts, k))
  {
  }

  lemma {:induction false} AccountsNeedInitialize(book: AddressBook, log: Log, k: Pubkey)
    requires ValidLog(book, log)
    requires HasProgram(LedgerAfter(book, log).value, k) || HasMarket(LedgerAfter(book, log).value, k)
    ensures Initialized(log)
  {
    if log != [] {
      var init, e := log[..|log| - 1], log[|log| - 1];
      assert log == init + [e];
      InitializedGrows(init, e);
      Prefix(book, log, |init|);
      if !e.tx.instruction.Initialize? {
        OnlyInitializeAdds(book, LedgerAfter(book, init).value, e, k);
        AccountsNeedInitialize(book, init, k);
      }
    }
  }

  /** The program account at its address, with its authority and its markets. */
  ghost predicate ProgramIs(book: AddressBook, accounts: Ledger, authority: Pubkey) {
    && HasProgram(accounts, book.program.key)
    && accounts[book.program.key].program.authority == authority
    && accounts[book.program.key].program.markets == [Btc.ToBytes(), Eth.ToBytes(), Sol.ToBytes()]
  }

  lemma ProgramStays(book: AddressBook, accounts: Ledger, e: Entry, authority: Pubkey)
    requires Execute(book, accounts, e.clock, e.tx).Success? && ProgramIs(book, accounts, authority)
    ensures !e.tx.instruction.Initialize? && ProgramIs(book, Execute(book, accounts, e.clock, e.tx).value.accounts, authority)
  {
  }

  lemma ProgramCreated(book: AddressBook, accounts: Ledger, e: Entry)
    requires book.Valid() && Execute(book, accounts, e.clock, e.tx).Success? && e.tx.instruction.Initialize?
    ensures ProgramIs(book, Execute(book, accounts, e.clock, e.tx).value.accounts, e.tx.instruction.authority)
  {
  }

  lemma {:induction false} ProgramSince(book: AddressBook, log: Log, i: nat)
    requires ValidLog(book, log) && i < |log| && log[i].tx.instruction.Initialize?
    ensures ProgramIs(book, LedgerAfter(book, log).value, log[i].tx.instruction.authority)
    decreases |log|
  {
    var init, e := log[..|log| - 1], log[|log| - 1];
    Prefix(book, log, |init|);
    if i < |init| {
      ProgramSince(book, init, i);
      ProgramStays(book, LedgerAfter(book, init).value, e, log[i].tx.instruction.authority);
    } else {
      ProgramCreated(book, LedgerAfter(book, init).value, e);
    }
  }

  lemma NoSecondInitialize(book: AddressBook, log: Log, i: nat, j: nat)
    requires ValidLog(book, log) && i < j < |log| && log[i].tx.instruction.Initialize?
    ensures !log[j].tx.instruction.Initialize?
  {
    AcceptedAt(book, log, j);
    Prefix(book, log, j);
    ProgramSince(book, log[..j], i);
    ProgramStays(book, LedgerAfter(book, log[..j]).value, log[j], log[i].tx.instruction.authority);
  }

  /** There is one initialization in a run. The program account holds its authority and the three market
      codes from then on. */
  lemma InitializedOnce(book: AddressBook, log: Log, i: nat)
    requires ValidLog(book, log) && i < |log| && log[i].tx.instruction.Initialize?
    ensures ProgramIs(book, LedgerAfter(book, log).value, log[i].tx.instruction.authority)
    ensures forall j :: 0 <= j < |log| && log[j].tx.instruction.Initialize? ==> j == i
  {
    ProgramSince(book, log, i);
    forall j | 0 <= j < |log| && log[j].tx.instruction.Initialize? ensures j == i {
      if i < j { NoSecondInitialize(book, log, i, j); }
      if j < i { NoSecondInitialize(book, log, j, i); }
    }
  }

  /** Every market account of a reachable ledger has its market's code and address, nine decimals and a
      staleness threshold of thirty. */
  lemma MarketsAreAsCreated(book: AddressBook, log: Log, m: MarketType)
    requires ValidLog(book, log) && Initialized(log)
    ensures
      var accounts := LedgerAfter(book, log).value;
      && HasMarket(accounts, book.market(m).key)
      && accounts[book.market(m).key].market == MarketAccount(book.market(m).bump, m.ToBytes(), 9, 30)
  {
    var i :| 0 <= i < |log| && log[i].tx.instruction.Initialize?;
    InitializedOnce(book, log, i);
    LedgerMatchesLog(book, log);
    var accounts, k := LedgerAfter(book, log).value, book.market(m).key;
    match m case Btc => case Eth => case Sol =>
    assert AccountMatches(book, log, k, accounts[k]);
  }

  /** An address of the program is free until the initialization. */
  lemma FreeBefore(book: AddressBook, log: Log, m: MarketType)
    requires ValidLog(book, log) && !Initialized(log)
    ensures book.program.key !in LedgerAfter(book, log).value && book.market(m).key !in LedgerAfter(book, log).value
  {
    LedgerMatchesLog(book, log);
    var accounts := LedgerAfter(book, log).value;
    forall k | k in {book.program.key, book.market(m).key} && k in accounts ensures false {
      assert AccountMatches(book, log, k, accounts[k]);
      AccountsNeedInitialize(book, log, k);
    }
  }

  /** Exactly when an initialization is accepted: the four derived addresses are named, for the first time. */
  lemma InitializeAccepted(book: AddressBook, log: Log, clock: Clock, ix: Instruction, signers: set<Pubkey>)
    requires ValidLog(book, log) && ix.Initialize?
    ensures
      Execute(book, LedgerAfter(book, log).value, clock, Transaction(ix, signers)).Success? <==>
        && ix.program == book.program.key && ix.btcMarket == book.market(Btc).key
        && ix.ethMarket == book.market(Eth).key && ix.solMarket == book.market(Sol).key
        && !Initialized(log)
  {
    if Initialized(log) {
      var i :| 0 <= i < |log| && log[i].tx.instruction.Initialize?;
      InitializedOnce(book, log, i);
    } else {
      FreeBefore(book, log, Btc);
      FreeBefore(book, log, Eth);
      FreeBefore(book, log, Sol);
    }
  }

  // ----- Registration

  lemma OracleAddressIsItsOwn(book: AddressBook, log: Log, authority: Pubkey)
    requires ValidLog(book, log) && authority in book.authorities
    ensures
      var k := book.oracle(authority).key;
      k in LedgerAfter(book, log).value ==> HasOracle(LedgerAfter(book, log).value, k)
                                            && LedgerAfter(book, log).value[k].oracle.bump != 0
  {
    LedgerMatchesLog(book, log);
    var accounts, k := LedgerAfter(book, log).value, book.oracle(authority).key;
    if k in accounts {
      assert AccountMatches(book, log, k, accounts[k]);
    }
  }

  lemma ProgramReady(book: AddressBook, log: Log)
    requires ValidLog(book, log)
    ensures Initialized(log) <==> HasProgram(LedgerAfter(book, log).value, book.program.key)
    ensures Initialized(log) ==> ProgramSeeds(book, LedgerAfter(book, log).value, book.program.key)
    ensures HasProgram(LedgerAfter(book, log).value, book.program.key) ==>
              LedgerAfter(book, log).value[book.program.key].program.oracle == CurrentOracle(log)
  {
    LedgerMatchesLog(book, log);
    var accounts := LedgerAfter(book, log).value;
    if HasProgram(accounts, book.program.key) {
      AccountsNeedInitialize(book, log, book.program.key);
      assert AccountMatches(book, log, book.program.key, accounts[book.program.key]);
    }
    if Initialized(log) {
      var i :| 0 <= i < |log| && log[i].tx.instruction.Initialize?;
      InitializedOnce(book, log, i);
    }
  }

  ghost predicate MayRegister(book: AddressBook, log: Log, ix: Instruction, signers: set<Pubkey>)
    requires ix.RegisterOracle?
  {
    && Initialized(log) && ix.program == book.program.key && ix.oracle == book.oracle(ix.authority).key
    && ix.authority in signers && ix.enclaveSigner in signers
  }

  /** Exactly when a registration is accepted, the first one of an oracle account and every later one: the
      program is initialized, the oracle is that of the authority, and authority and enclave signer both sign. */
  lemma RegistrationAccepted(book: AddressBook, log: Log, clock: Clock, ix: Instruction, signers: set<Pubkey>)
    requires ValidLog(book, log) && ix.RegisterOracle? && ix.authority in book.authorities
    ensures
      Execute(book, LedgerAfter(book, log).value, clock, Transaction(ix, signers)).Success? <==>
        MayRegister(book, log, ix, signers)
  {
    ProgramReady(book, log);
    OracleAddressIsItsOwn(book, log, ix.authority);
  }

  lemma RegistrationEffect(book: AddressBook, accounts: Ledger, e: Entry)
    requires Execute(book, accounts, e.clock, e.tx).Success? && e.tx.instruction.RegisterOracle?
    requires HasOracle(accounts, e.tx.instruction.oracle) ==> accounts[e.tx.instruction.oracle].oracle.bump != 0
    ensures RegistrationLeaves(e.tx.instruction, accounts, Execute(book, accounts, e.clock, e.tx).value.accounts)
  {
  }

  /** The oracle account with the new signer, and the program pointing to it if it is new; an update of the
      signer does not move the program, and nothing else changes. */
  ghost predicate RegistrationLeaves(ix: Instruction, before: Ledger, after: Ledger)
    requires ix.RegisterOracle?
  {
    && HasOracle(after, ix.oracle) && after[ix.oracle].oracle.enclaveSigner == ix.enclaveSigner
    && HasProgram(before, ix.program) && HasProgram(after, ix.program)
    && after[ix.program].program.oracle ==
       (if HasOracle(before, ix.oracle) then before[ix.program].program.oracle else ix.oracle)
    && (HasOracle(before, ix.oracle) ==>
          after[ix.oracle].oracle == before[ix.oracle].oracle.(enclaveSigner := ix.enclaveSigner))
    && (forall k :: k != ix.oracle && k != ix.program ==>
          (k in after <==> k in before) && (k in before ==> after[k] == before[k]))
  }

  /** What an accepted registration leaves behind, on the ledger and for the log. */
  lemma AfterRegistration(book: AddressBook, log: Log, e: Entry)
    requires ValidLog(book, log) && ValidLog(book, log + [e]) && e.tx.instruction.RegisterOracle?
    ensures RegistrationLeaves(e.tx.instruction, LedgerAfter(book, log).value, LedgerAfter(book, log + [e]).value)
    ensures HasOracle(LedgerAfter(book, log).value, e.tx.instruction.oracle) <==> Registered(log, e.tx.instruction.oracle)
    ensures LastSigner(log + [e], e.tx.instruction.oracle) == e.tx.instruction.enclaveSigner
    ensures CurrentOracle(log + [e]) ==
            if Registered(log, e.tx.instruction.oracle) then CurrentOracle(log) else e.tx.instruction.oracle
  {
    ExtendLedger(book, log, e);
    Extend(log, e);
    OracleIsTheLatestFirstRegistered(book, log, e.tx.instruction.oracle);
    assert (log + [e])[|log|] == e && KnownAuthority(book, e.tx);
    OracleAddressIsItsOwn(book, log, e.tx.instruction.authority);
    RegistrationEffect(book, LedgerAfter(book, log).value, e);
  }

  /** Where an oracle account's fixed fields come from: its first registration. */
  ghost predicate OracleFrom(book: AddressBook, e: Entry, k: Pubkey, o: OracleAccount) {
    && IsRegister(e, k)
    && o.bump == book.oracle(e.tx.instruction.authority).bump && o.authority == e.tx.instruction.authority
    && o.verificationTimestamp == e.clock.timestamp && o.verificationSlot == e.clock.slot
    && o.validUntilSlot == 0xFFFF_FFFF_FFFF_FFFF
  }

  lemma OracleStep(book: AddressBook, accounts: Ledger, e: Entry, k: Pubkey)
    requires Execute(book, accounts, e.clock, e.tx).Success?
    requires HasOracle(Execute(book, accounts, e.clock, e.tx).value.accounts, k)
    requires HasOracle(accounts, k) ==> accounts[k].oracle.bump != 0
    ensures
      var o := Execute(book, accounts, e.clock, e.tx).value.accounts[k].oracle;
      if HasOracle(accounts, k) then o == accounts[k].oracle.(enclaveSigner := o.enclaveSigner)
      else OracleFrom(book, e, k, o)
  {
  }

  lemma FirstStays(log: Log, i: nat, n: nat)
    requires i < n <= |log| && FirstRegistration(log[..n], i)
    ensures FirstRegistration(log, i)
  {
    assert log[..n][..i] == log[..i];
  }

  /** Every oracle account holds the authority and the clock of its first registration. */
  lemma {:induction false} OraclesAreAsRegistered(book: AddressBook, log: Log, k: Pubkey)
    requires ValidLog(book, log) && HasOracle(LedgerAfter(book, log).value, k)
    ensures exists i :: 0 <= i < |log| && FirstRegistration(log, i)
                        && OracleFrom(book, log[i], k, LedgerAfter(book, log).value[k].oracle)
  {
    var init, e := log[..|log| - 1], log[|log| - 1];
    Prefix(book, log, |init|);
    var before := LedgerAfter(book, init).value;
    LedgerMatchesLog(book, init);
    assert HasOracle(before, k) ==> AccountMatches(book, init, k, before[k]);
    OracleStep(book, before, e, k);
    if HasOracle(before, k) {
      OraclesAreAsRegistered(book, init, k);
      var i :| 0 <= i < |init| && FirstRegistration(init, i) && OracleFrom(book, init[i], k, before[k].oracle);
      FirstStays(log, i, |init|);
      assert FirstRegistration(log, i) && OracleFrom(book, log[i], k, LedgerAfter(book, log).value[k].oracle);
    } else {
      assert !Registered(init, k);
      assert FirstRegistration(log, |init|);
    }
  }

  // ----- Creation

  ghost predicate MayCreate(book: AddressBook, log: Log, ix: Instruction, signers: set<Pubkey>)
    requires ix.CreateOrder? && LedgerAfter(book, log).Some?
  {
    && ix.program == book.program.key && ix.market == book.market(ix.marketType).key
    && CurrentOracle(log) != DEFAULT_PUBKEY
    && ix.order in signers && ix.order !in LedgerAfter(book, log).value
  }

  /** Exactly when a creation is accepted: the derived program and market are named, an oracle has been
      registered, and the order is a new account that signs. */
  lemma CreationAccepted(book: AddressBook, log: Log, clock: Clock, ix: Instruction, signers: set<Pubkey>)
    requires ValidLog(book, log) && ix.CreateOrder?
    ensures
      Execute(book, LedgerAfter(book, log).value, clock, Transaction(ix, signers)).Success? <==>
        MayCreate(book, log, ix, signers)
  {
    ProgramReady(book, log);
    MarketPresent(book, log, ix.marketType);
    if CurrentOracle(log) != DEFAULT_PUBKEY {
      OraclePresent(book, log);
    }
  }

  /** Before any registration a creation is refused for that reason. */
  lemma CreationNeedsAnOracle(book: AddressBook, log: Log, clock: Clock, ix: Instruction, signers: set<Pubkey>)
    requires ValidLog(book, log) && ix.CreateOrder? && Initialized(log) && CurrentOracle(log) == DEFAULT_PUBKEY
    requires ix.program == book.program.key && ix.market == book.market(ix.marketType).key
    requires ix.order in signers && ix.order !in LedgerAfter(book, log).value
    ensures Execute(book, LedgerAfter(book, log).value, clock, Transaction(ix, signers)) == Failure(OracleAlreadyRegistered)
  {
    ProgramReady(book, log);
    MarketsAreAsCreated(book, log, ix.marketType);
  }

  /** One open order with nothing of a closing in it, and nothing else changed. */
  ghost predicate CreationLeaves(book: AddressBook, ix: Instruction, clock: Clock, before: Ledger, after: Ledger)
    requires ix.CreateOrder?
  {
    && HasOrder(after, ix.order)
    && (var o := after[ix.order].order;
        && o.openOrder == 1 && o.authority == ix.authority && o.market == book.market(ix.marketType).key
        && o.marketName == ix.marketType.ToBytes()
        && o.openTimestamp == clock.timestamp && o.openSlot == clock.slot && NothingClosed(o))
    && (forall k :: k != ix.order ==> (k in after <==> k in before) && (k in before ==> after[k] == before[k]))
  }

  lemma CreationEffect(book: AddressBook, accounts: Ledger, clock: Clock, ix: Instruction, signers: set<Pubkey>)
    requires ix.CreateOrder? && Execute(book, accounts, clock, Transaction(ix, signers)).Success?
    ensures CreationLeaves(book, ix, clock, accounts, Execute(book, accounts, clock, Transaction(ix, signers)).value.accounts)
  {
  }

  /** What an accepted creation leaves behind and tells: the open order, and the request for its price at its
      own opening time and slot. */
  lemma AfterCreation(book: AddressBook, log: Log, clock: Clock, ix: Instruction, signers: set<Pubkey>)
    requires ValidLog(book, log) && ix.CreateOrder?
    requires Execute(book, LedgerAfter(book, log).value, clock, Transaction(ix, signers)).Success?
    ensures
      var effect := Execute(book, LedgerAfter(book, log).value, clock, Transaction(ix, signers)).value;
      && CreationLeaves(book, ix, clock, LedgerAfter(book, log).value, effect.accounts)
      && effect.events ==
         [Requested(PriceRequested(ix.marketType, CurrentOracle(log), ix.order, clock.timestamp, clock.slot))]
  {
    ProgramReady(book, log);
    CreationEffect(book, LedgerAfter(book, log).value, clock, ix, signers);
  }

  predicate NothingClosed(o: OrderAccount) {
    o.closeTimestamp == 0 && o.closeSlot == 0 && o.oraclePrice == 0 && forall i :: 0 <= i < 31 ==> o.reserved[i] == 0
  }

  /** The reserved bytes of an order are zero; an open order holds no closing time, slot or price. */
  lemma {:induction false} OpenOrdersAreBlank(book: AddressBook, log: Log, k: Pubkey)
    requires ValidLog(book, log) && HasOrder(LedgerAfter(book, log).value, k)
    ensures
      var o := LedgerAfter(book, log).value[k].order;
      && (forall i :: 0 <= i < 31 ==> o.reserved[i] == 0)
      && (o.openOrder == 1 ==> NothingClosed(o))
  {
    var init, e := log[..|log| - 1], log[|log| - 1];
    Prefix(book, log, |init|);
    OrderEffect(book, LedgerAfter(book, init).value, e, k);
    if HasOrder(LedgerAfter(book, init).value, k) {
      OpenOrdersAreBlank(book, init, k);
    }
  }

  // ----- Fulfilment

  /** The event of an accepted fulfilment: its order's creation, the time and slots since then, its own
      price, and nine decimals. */
  ghost predicate TellsOf(log: Log, clock: Clock, ix: Instruction, event: PriceFulfilled, c: nat)
    requires ix.FulfillOrder?
  {
    && c < |log| && IsCreate(log[c], ix.order)
    && event.market == ix.marketType && event.order == ix.order
    && event.openTimestamp == log[c].clock.timestamp && event.openSlot == log[c].clock.slot
    && event.latencySeconds == clock.timestamp - log[c].clock.timestamp
    && event.latencySlots == clock.slot - log[c].clock.slot
    && event.price == ix.price && event.decimals == 9
  }

  lemma FulfilmentTells(book: AddressBook, log: Log, clock: Clock, ix: Instruction, signers: set<Pubkey>, c: nat)
    requires ValidLog(book, log) && ix.FulfillOrder? && c < |log| && IsCreate(log[c], ix.order)
    requires Execute(book, LedgerAfter(book, log).value, clock, Transaction(ix, signers)).Success?
    ensures
      var events := Execute(book, LedgerAfter(book, log).value, clock, Transaction(ix, signers)).value.events;
      |events| == 1 && events[0].Fulfilled? && TellsOf(log, clock, ix, events[0].fulfilled, c)
  {
    CreatedOnceFulfilledOnce(book, log, ix.order, c, c);
    AccountsNeedInitialize(book, log, ix.market);
    MarketsAreAsCreated(book, log, ix.marketType);
  }

  /** A fulfilment of a closed order is refused for that reason. */
  lemma ClosedOrderIsRefused(book: AddressBook, log: Log, clock: Clock, ix: Instruction, signers: set<Pubkey>)
    requires ValidLog(book, log) && ix.FulfillOrder? && WellAddressed(book, log, clock, ix, signers)
    requires Closed(log, ix.order) && HasOracle(LedgerAfter(book, log).value, ix.oracle)
    requires HasOrder(LedgerAfter(book, log).value, ix.order)
    requires LedgerAfter(book, log).value[ix.order].order.market == ix.market
    ensures Execute(book, LedgerAfter(book, log).value, clock, Transaction(ix, signers)) == Failure(OrderAlreadyFulfilled)
  {
    OrdersAreTheCreatedOnes(book, log, ix.order);
    LedgerMatchesLog(book, log);
    var accounts := LedgerAfter(book, log).value;
    assert AccountMatches(book, log, ix.oracle, accounts[ix.oracle]);
    assert Registered(log, ix.oracle);
    RegisteredNeedsInitialize(book, log, ix.oracle);
    ProgramReady(book, log);
    MarketsAreAsCreated(book, log, ix.marketType);
  }

  lemma RegisteredNeedsInitialize(book: AddressBook, log: Log, oracle: Pubkey)
    requires ValidLog(book, log) && Registered(log, oracle)
    ensures Initialized(log)
  {
    var i :| 0 <= i < |log| && IsRegister(log[i], oracle);
    AcceptedAt(book, log, i);
    Prefix(book, log, i);
    AccountsNeedInitialize(book, log[..i], log[i].tx.instruction.program);
    var j :| 0 <= j < i && log[..i][j].tx.instruction.Initialize?;
    assert log[j].tx.instruction.Initialize?;
  }
}
