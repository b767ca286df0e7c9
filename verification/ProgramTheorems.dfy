/** The main results about whole runs of the on-chain program. */
module ProgramTheorems {
  import opened Wrappers
  import opened Addresses
  import opened BackfillProgram
  import opened ProgramHistory

  /** After any run, an order account exists exactly for the created orders, and it is closed exactly
      when the log has a fulfilment of it. */
  lemma OrdersAreTheCreatedOnes(book: AddressBook, log: Log, k: Pubkey)
    requires ValidLog(book, log)
    ensures
      var accounts := LedgerAfter(book, log).value;
      && (HasOrder(accounts, k) <==> exists c :: 0 <= c < |log| && IsCreate(log[c], k))
      && (HasOrder(accounts, k) ==> accounts[k].order.openOrder == if Closed(log, k) then 0 else 1)
  {
    LedgerMatchesLog(book, log);
  }

  /** An order is created at most once and fulfilled at most once in a whole run, and it holds the
      opening data of the one and the price and clock of the other. */
  lemma CreatedOnceFulfilledOnce(book: AddressBook, log: Log, k: Pubkey, i: nat, j: nat)
    requires ValidLog(book, log) && i < |log| && j < |log|
    ensures IsCreate(log[i], k) && IsCreate(log[j], k) ==> i == j
    ensures IsFulfill(log[i], k) && IsFulfill(log[j], k) ==> i == j
    ensures IsCreate(log[i], k) || IsFulfill(log[i], k) ==> HasOrder(LedgerAfter(book, log).value, k)
    ensures IsCreate(log[i], k) ==> OpenedBy(LedgerAfter(book, log).value[k].order, log[i])
    ensures IsFulfill(log[i], k) ==> ClosedBy(LedgerAfter(book, log).value[k].order, log[i])
  {
    LedgerMatchesLog(book, log);
  }

  /** Every logged transaction was accepted by the ledger before it. */
  lemma {:induction false} AcceptedAt(book: AddressBook, log: Log, i: nat)
    requires ValidLog(book, log) && i < |log|
    ensures LedgerAfter(book, log[..i]).Some?
    ensures Execute(book, LedgerAfter(book, log[..i]).value, log[i].clock, log[i].tx).Success?
    decreases |log|
  {
    var init := log[..|log| - 1];
    if i < |init| {
      Prefix(book, log, |init|);
      AcceptedAt(book, init, i);
      assert init[..i] == log[..i];
    }
  }

  /** A closed order never changes again, whatever is executed later. */
  lemma {:induction false} ClosedForever(book: AddressBook, log: Log, n: nat, k: Pubkey)
    requires ValidLog(book, log) && n <= |log| && LedgerAfter(book, log[..n]).Some?
    requires HasOrder(LedgerAfter(book, log[..n]).value, k)
    requires LedgerAfter(book, log[..n]).value[k].order.openOrder == 0
    ensures k in LedgerAfter(book, log).value
    ensures LedgerAfter(book, log).value[k] == LedgerAfter(book, log[..n]).value[k]
    decreases |log|
  {
    if n == |log| {
      assert log[..n] == log;
    } else {
      var init, e := log[..|log| - 1], log[|log| - 1];
      assert init[..n] == log[..n];
      Prefix(book, log, |log| - 1);
      ClosedForever(book, init, n, k);
      OrderEffect(book, LedgerAfter(book, init).value, e, k);
    }
  }

  /** Every accepted fulfilment is signed by the signer last registered for the oracle that is current
      at that step, and names the market under which the order was created. */
  lemma FulfilmentsAreAuthorised(book: AddressBook, log: Log, j: nat, k: Pubkey)
    requires ValidLog(book, log) && j < |log| && IsFulfill(log[j], k)
    ensures
      var ix := log[j].tx.instruction;
      && ix.oracle == CurrentOracle(log[..j])
      && ix.enclaveSigner == LastSigner(log[..j], CurrentOracle(log[..j]))
      && ix.enclaveSigner in log[j].tx.signers
      && exists c :: 0 <= c < j && IsCreate(log[c], k) && log[c].tx.instruction.marketType == ix.marketType
  {
    AcceptedAt(book, log, j);
    Prefix(book, log, j);
    LedgerMatchesLog(book, log[..j]);
    var accounts := LedgerAfter(book, log[..j]).value;
    var ix := log[j].tx.instruction;
    assert AccountMatches(book, log[..j], ix.oracle, accounts[ix.oracle]);
    assert AccountMatches(book, log[..j], ix.program, accounts[ix.program]);
    assert AccountMatches(book, log[..j], k, accounts[k]);
    var c :| 0 <= c < |log[..j]| && IsCreate(log[..j][c], k);
    assert IsCreate(log[c], k) && OpenedBy(accounts[k].order, log[c]);
    MarketCodesRoundTrip(log[c].tx.instruction.marketType, accounts[k].order.marketName);
  }

  /** Every reachable order carries one of the three market codes and that market's derived address,
      and its creation named that market. */
  lemma OrdersNameAMarket(book: AddressBook, log: Log, k: Pubkey)
    requires ValidLog(book, log) && HasOrder(LedgerAfter(book, log).value, k)
    ensures
      var order := LedgerAfter(book, log).value[k].order;
      && TryFrom(order.marketName).Some?
      && order.market == book.market(TryFrom(order.marketName).value).key
      && exists c :: 0 <= c < |log| && IsCreate(log[c], k)
                     && log[c].tx.instruction.marketType == TryFrom(order.marketName).value
                     && order.openTimestamp == log[c].clock.timestamp
  {
    LedgerMatchesLog(book, log);
    var accounts := LedgerAfter(book, log).value;
    assert AccountMatches(book, log, k, accounts[k]);
    var c :| 0 <= c < |log| && IsCreate(log[c], k);
    MarketCodesRoundTrip(log[c].tx.instruction.marketType, accounts[k].order.marketName);
  }

  /** The program account names the current oracle, and each oracle account its last signer. */
  lemma OracleIsTheLatestFirstRegistered(book: AddressBook, log: Log, oracle: Pubkey)
    requires ValidLog(book, log)
    ensures
      var accounts := LedgerAfter(book, log).value;
      && (HasProgram(accounts, book.program.key) ==> accounts[book.program.key].program.oracle == CurrentOracle(log))
      && (HasOracle(accounts, oracle) <==> Registered(log, oracle))
      && (HasOracle(accounts, oracle) ==> accounts[oracle].oracle.enclaveSigner == LastSigner(log, oracle))
  {
    LedgerMatchesLog(book, log);
    var accounts := LedgerAfter(book, log).value;
    assert HasOracle(accounts, oracle) ==> AccountMatches(book, log, oracle, accounts[oracle]);
    assert HasProgram(accounts, book.program.key) ==>
        AccountMatches(book, log, book.program.key, accounts[book.program.key]);
  }

  predicate FirstRegistration(log: Log, i: nat)
    requires i < |log|
  {
    log[i].tx.instruction.RegisterOracle? && !Registered(log[..i], log[i].tx.instruction.oracle)
  }

  /** What `CurrentOracle` means: the oracle of the last first registration, if there is any. Updates of
      a signer do not move it. */
  lemma {:induction false} CurrentOracleMeaning(log: Log, i: nat)
    requires i <= |log|
    requires i < |log| ==> FirstRegistration(log, i)
    requires forall j :: (if i < |log| then i + 1 else 0) <= j < |log| ==> !FirstRegistration(log, j)
    ensures CurrentOracle(log) == if i < |log| then log[i].tx.instruction.oracle else DEFAULT_PUBKEY
  {
    if log != [] && i != |log| - 1 {
      var before := log[..|log| - 1];
      assert forall j :: 0 <= j <= |before| ==> before[..j] == log[..j];
      assert forall j :: 0 <= j < |before| && FirstRegistration(before, j) ==> FirstRegistration(log, j);
      CurrentOracleMeaning(before, if i < |log| then i else |before|);
      assert !FirstRegistration(log, |before|);
    }
  }

  /** What `LastSigner` means: the signer of the last registration of that oracle. */
  lemma {:induction false} LastSignerMeaning(log: Log, oracle: Pubkey, i: nat)
    requires i < |log| && IsRegister(log[i], oracle)
    requires forall j :: i < j < |log| ==> !IsRegister(log[j], oracle)
    ensures LastSigner(log, oracle) == log[i].tx.instruction.enclaveSigner
  {
    if i < |log| - 1 {
      LastSignerMeaning(log[..|log| - 1], oracle, i);
    }
  }

  /** The checked latency arithmetic of a fulfilment never fails: clocks do not go back. */
  lemma LatencyAlwaysFits(book: AddressBook, log: Log, clock: Clock, k: Pubkey)
    requires ValidLog(book, log) && HasOrder(LedgerAfter(book, log).value, k)
    requires 0 <= clock.timestamp && forall i :: 0 <= i < |log| ==> NotBefore(log[i].clock, clock)
    ensures LatencyFits(LedgerAfter(book, log).value[k].order, clock)
  {
    LedgerMatchesLog(book, log);
    var c :| 0 <= c < |log| && IsCreate(log[c], k);
    assert OpenedBy(LedgerAfter(book, log).value[k].order, log[c]) && NotBefore(log[c].clock, clock);
  }

  /** Once an authority has registered an oracle account, every later registration of it, which sets its
      signer, is signed by the same authority. */
  lemma OneAuthorityPerOracle(book: AddressBook, log: Log, oracle: Pubkey, i: nat, j: nat)
    requires ValidLog(book, log) && i < |log| && j < |log|
    requires IsRegister(log[i], oracle) && IsRegister(log[j], oracle)
    ensures log[i].tx.instruction.authority == log[j].tx.instruction.authority
    ensures log[j].tx.instruction.authority in log[j].tx.signers
  {
    RegisteredBy(book, log, i);
    RegisteredBy(book, log, j);
  }

  lemma RegisteredBy(book: AddressBook, log: Log, i: nat)
    requires ValidLog(book, log) && i < |log| && log[i].tx.instruction.RegisterOracle?
    ensures
      var ix := log[i].tx.instruction;
      ix.oracle == book.oracle(ix.authority).key && ix.authority in log[i].tx.signers && ix.authority in book.authorities
  {
    AcceptedAt(book, log, i);
    assert KnownAuthority(book, log[i].tx);
  }

  /** Everything that a fulfilment needs, in terms of the log. */
  ghost predicate CanFulfil(book: AddressBook, log: Log, ix: Instruction)
    requires ix.FulfillOrder? && LedgerAfter(book, log).Some?
  {
    var accounts := LedgerAfter(book, log).value;
    && HasOrder(accounts, ix.order) && !Closed(log, ix.order)
    && TryFrom(accounts[ix.order].order.marketName) == Some(ix.marketType)
    && ix.oracle == CurrentOracle(log) != DEFAULT_PUBKEY
    && ix.enclaveSigner == LastSigner(log, ix.oracle)
  }

  /** A fulfilment that passes the program's own derived accounts, signed and not before the log. */
  ghost predicate WellAddressed(book: AddressBook, log: Log, clock: Clock, ix: Instruction, signers: set<Pubkey>)
    requires ix.FulfillOrder?
  {
    && 0 <= clock.timestamp && (forall i :: 0 <= i < |log| ==> NotBefore(log[i].clock, clock))
    && ix.program == book.program.key && ix.market == book.market(ix.marketType).key && ix.enclaveSigner in signers
  }

  lemma AcceptedCanFulfil(book: AddressBook, log: Log, clock: Clock, ix: Instruction, signers: set<Pubkey>)
    requires ValidLog(book, log) && ix.FulfillOrder? && WellAddressed(book, log, clock, ix, signers)
    requires ExecuteFulfillOrder(book, LedgerAfter(book, log).value, clock, ix, signers).Success?
    ensures CanFulfil(book, log, ix)
  {
    LedgerMatchesLog(book, log);
    var accounts := LedgerAfter(book, log).value;
    assert AccountMatches(book, log, ix.order, accounts[ix.order]);
    assert AccountMatches(book, log, ix.oracle, accounts[ix.oracle]);
    assert AccountMatches(book, log, ix.program, accounts[ix.program]);
    OrdersAreTheCreatedOnes(book, log, ix.order);
    OracleIsNotDefault(book, accounts, log, ix.oracle);
  }

  lemma OracleIsNotDefault(book: AddressBook, accounts: Ledger, log: Log, oracle: Pubkey)
    requires book.Valid() && HasOracle(accounts, oracle) && AccountMatches(book, log, oracle, accounts[oracle])
    ensures oracle != DEFAULT_PUBKEY
  {
  }

  lemma CanFulfilAccepted(book: AddressBook, log: Log, clock: Clock, ix: Instruction, signers: set<Pubkey>)
    requires ValidLog(book, log) && ix.FulfillOrder? && WellAddressed(book, log, clock, ix, signers)
    requires CanFulfil(book, log, ix)
    ensures ExecuteFulfillOrder(book, LedgerAfter(book, log).value, clock, ix, signers).Success?
  {
    LatencyAlwaysFits(book, log, clock, ix.order);
    OrdersAreTheCreatedOnes(book, log, ix.order);
    OrdersNameAMarket(book, log, ix.order);
    MarketPresent(book, log, ix.marketType);
    OraclePresent(book, log);
  }

  /** The current oracle has an account with its last signer, and the program account names it. */
  lemma OraclePresent(book: AddressBook, log: Log)
    requires ValidLog(book, log) && CurrentOracle(log) != DEFAULT_PUBKEY
    ensures
      var accounts := LedgerAfter(book, log).value;
      && HasProgram(accounts, book.program.key) && accounts[book.program.key].program.bump == book.program.bump
      && accounts[book.program.key].program.oracle == CurrentOracle(log)
      && HasOracle(accounts, CurrentOracle(log))
      && accounts[CurrentOracle(log)].oracle.enclaveSigner == LastSigner(log, CurrentOracle(log))
  {
    LedgerMatchesLog(book, log);
    var accounts := LedgerAfter(book, log).value;
    assert AccountMatches(book, log, CurrentOracle(log), accounts[CurrentOracle(log)]);
    assert AccountMatches(book, log, book.program.key, accounts[book.program.key]);
  }

  /** Exactly when a fulfilment that passes the program's own derived accounts is accepted, on any
      reachable ledger and at any later clock: the order exists and is open, the market named is the
      order's, and the oracle and signer named are the current ones. The latency arithmetic never fails. */
  lemma FulfilmentAccepted(book: AddressBook, log: Log, clock: Clock, ix: Instruction, signers: set<Pubkey>)
    requires ValidLog(book, log) && ix.FulfillOrder? && WellAddressed(book, log, clock, ix, signers)
    ensures
      ExecuteFulfillOrder(book, LedgerAfter(book, log).value, clock, ix, signers).Success? <==> CanFulfil(book, log, ix)
  {
    if ExecuteFulfillOrder(book, LedgerAfter(book, log).value, clock, ix, signers).Success? {
      AcceptedCanFulfil(book, log, clock, ix, signers);
    }
    if CanFulfil(book, log, ix) {
      CanFulfilAccepted(book, log, clock, ix, signers);
    }
  }

  lemma MarketPresent(book: AddressBook, log: Log, m: MarketType)
    requires ValidLog(book, log)
    ensures
      var accounts := LedgerAfter(book, log).value;
      CurrentOracle(log) != DEFAULT_PUBKEY ==>
        && HasProgram(accounts, book.program.key) && HasMarket(accounts, book.market(m).key)
        && accounts[book.market(m).key].market == NewMarket(book, m)
  {
    LedgerMatchesLog(book, log);
    var accounts := LedgerAfter(book, log).value;
    var k := book.market(m).key;
    if k in accounts && accounts[k].Market? {
      assert AccountMatches(book, log, k, accounts[k]);
    }
    match m case Btc => case Eth => case Sol =>
  }
}
