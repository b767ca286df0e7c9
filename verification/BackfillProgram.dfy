/** The on-chain program: its accounts, and its four instructions with their account constraints.
    `Execute` specifies one instruction on a ledger; the methods of `BackfillOracleProgram` run it
    the way the program does, account field by account field, and are proved against `Execute`. */
module BackfillProgram {
  import opened MachineIntegers
  import opened Wrappers
  import opened Addresses

  datatype ProgramError =
    | AccountInUse
    | AccountNotInitialized
    | MissingSigner
    | ConstraintSeeds
    | ConstraintHasOne
    | OracleAlreadyRegistered
    | OrderAlreadyFulfilled
    | ArithmeticOverflow

  datatype ProgramAccount = ProgramAccount(bump: byte, authority: Pubkey, oracle: Pubkey, markets: seq<Bytes8>)

  datatype MarketAccount = MarketAccount(bump: byte, name: Bytes8, decimals: uint32, stalenessThreshold: uint32)

  datatype OracleAccount = OracleAccount(
    bump: byte, authority: Pubkey, enclaveSigner: Pubkey,
    verificationTimestamp: int64, verificationSlot: uint64, validUntilSlot: uint64)

  datatype OrderAccount = OrderAccount(
    openOrder: byte, reserved: Bytes31, authority: Pubkey, market: Pubkey, marketName: Bytes8,
    openTimestamp: int64, openSlot: uint64, closeTimestamp: int64, closeSlot: uint64, oraclePrice: uint64)

  datatype Account =
    | Program(program: ProgramAccount)
    | Market(market: MarketAccount)
    | Oracle(oracle: OracleAccount)
    | Order(order: OrderAccount)

  type Ledger = map<Pubkey, Account>

  datatype Clock = Clock(slot: uint64, timestamp: int64)

  datatype Instruction =
    | Initialize(program: Pubkey, btcMarket: Pubkey, ethMarket: Pubkey, solMarket: Pubkey, authority: Pubkey)
    | RegisterOracle(program: Pubkey, oracle: Pubkey, enclaveSigner: Pubkey, authority: Pubkey)
    | CreateOrder(order: Pubkey, program: Pubkey, market: Pubkey, authority: Pubkey, marketType: MarketType)
    | FulfillOrder(order: Pubkey, program: Pubkey, market: Pubkey, oracle: Pubkey, enclaveSigner: Pubkey,
                   marketType: MarketType, price: uint64)

  datatype Transaction = Transaction(instruction: Instruction, signers: set<Pubkey>)

  datatype PriceRequested = PriceRequested(
    market: MarketType, oracle: Pubkey, order: Pubkey, timestamp: int64, slot: uint64)

  datatype PriceFulfilled = PriceFulfilled(
    market: MarketType, order: Pubkey, openTimestamp: int64, openSlot: uint64,
    latencySeconds: int64, latencySlots: uint64, price: uint64, decimals: uint32)

  datatype Event = Requested(requested: PriceRequested) | Fulfilled(fulfilled: PriceFulfilled)

  datatype Effect = Effect(accounts: Ledger, events: seq<Event>)

  const NO_FLAGS: Bytes31 := [0, 0, 0, 0, 0, 0, 0, 0, 0, 0, 0, 0, 0, 0, 0, 0, 0, 0, 0, 0, 0, 0, 0, 0, 0, 0, 0, 0, 0, 0, 0]

  const BLANK_PROGRAM := ProgramAccount(0, DEFAULT_PUBKEY, DEFAULT_PUBKEY, [])
  const BLANK_MARKET := MarketAccount(0, [0, 0, 0, 0, 0, 0, 0, 0], 0, 0)
  const BLANK_ORACLE := OracleAccount(0, DEFAULT_PUBKEY, DEFAULT_PUBKEY, 0, 0, 0)
  const BLANK_ORDER := OrderAccount(0, NO_FLAGS, DEFAULT_PUBKEY, DEFAULT_PUBKEY,
                                    [0, 0, 0, 0, 0, 0, 0, 0], 0, 0, 0, 0, 0)

  predicate HasProgram(accounts: Ledger, k: Pubkey) { k in accounts && accounts[k].Program? }
  predicate HasMarket(accounts: Ledger, k: Pubkey) { k in accounts && accounts[k].Market? }
  predicate HasOracle(accounts: Ledger, k: Pubkey) { k in accounts && accounts[k].Oracle? }
  predicate HasOrder(accounts: Ledger, k: Pubkey) { k in accounts && accounts[k].Order? }

  /** The seeds constraint on the program account: derived address and stored bump. */
  predicate ProgramSeeds(book: AddressBook, accounts: Ledger, k: Pubkey)
    requires HasProgram(accounts, k)
  {
    k == book.program.key && accounts[k].program.bump == book.program.bump
  }

  /** The seeds constraint on a market account, for the market named in the instruction. */
  predicate MarketSeeds(book: AddressBook, accounts: Ledger, k: Pubkey, m: MarketType)
    requires HasMarket(accounts, k)
  {
    k == book.market(m).key && accounts[k].market.bump == book.market(m).bump
  }

  function NewMarket(book: AddressBook, m: MarketType): MarketAccount {
    MarketAccount(book.market(m).bump, m.ToBytes(), 9, 30)
  }

  function ExecuteInitialize(book: AddressBook, accounts: Ledger, ix: Instruction): Result<Effect, ProgramError>
    requires ix.Initialize?
  {
    if !(ix.program == book.program.key && ix.btcMarket == book.market(Btc).key
         && ix.ethMarket == book.market(Eth).key && ix.solMarket == book.market(Sol).key)
    then Failure(ConstraintSeeds)
    else if {ix.program, ix.btcMarket, ix.ethMarket, ix.solMarket} !! accounts.Keys then
      Success(Effect(
        accounts[ix.program := Program(ProgramAccount(
                   book.program.bump, ix.authority, DEFAULT_PUBKEY, [BTC_MARKET_BYTES, ETH_MARKET_BYTES, SOL_MARKET_BYTES]))]
                [ix.btcMarket := Market(NewMarket(book, Btc))]
                [ix.ethMarket := Market(NewMarket(book, Eth))]
                [ix.solMarket := Market(NewMarket(book, Sol))],
        []))
    else Failure(AccountInUse)
  }

  function ExecuteRegisterOracle(book: AddressBook, accounts: Ledger, clock: Clock, ix: Instruction, signers: set<Pubkey>)
    : Result<Effect, ProgramError>
    requires ix.RegisterOracle?
  {
    if !HasProgram(accounts, ix.program) then Failure(AccountNotInitialized)
    else if !({ix.enclaveSigner, ix.authority} <= signers) then Failure(MissingSigner)
    else if ix.oracle != book.oracle(ix.authority).key then Failure(ConstraintSeeds)
    else if ix.oracle in accounts && !accounts[ix.oracle].Oracle? then Failure(AccountInUse)
    else if !ProgramSeeds(book, accounts, ix.program) then Failure(ConstraintSeeds)
    else
      var oracle := if ix.oracle in accounts then accounts[ix.oracle].oracle else BLANK_ORACLE;
      if oracle.bump == 0 then
        Success(Effect(
          accounts[ix.program := Program(accounts[ix.program].program.(oracle := ix.oracle))]
                  [ix.oracle := Oracle(OracleAccount(
                     book.oracle(ix.authority).bump, ix.authority, ix.enclaveSigner,
                     clock.timestamp, clock.slot, U64_MAX))],
          []))
      else
        Success(Effect(accounts[ix.oracle := Oracle(oracle.(enclaveSigner := ix.enclaveSigner))], []))
  }

  function OpenedOrder(ix: Instruction, clock: Clock): OrderAccount
    requires ix.CreateOrder?
  {
    BLANK_ORDER.(openOrder := 1, authority := ix.authority, market := ix.market,
                 marketName := ix.marketType.ToBytes(), openTimestamp := clock.timestamp, openSlot := clock.slot)
  }

  function ExecuteCreateOrder(book: AddressBook, accounts: Ledger, clock: Clock, ix: Instruction, signers: set<Pubkey>)
    : Result<Effect, ProgramError>
    requires ix.CreateOrder?
  {
    if !HasProgram(accounts, ix.program) || !HasMarket(accounts, ix.market) then Failure(AccountNotInitialized)
    else if ix.order !in signers then Failure(MissingSigner)
    else if ix.order in accounts then Failure(AccountInUse)
    else if !ProgramSeeds(book, accounts, ix.program) then Failure(ConstraintSeeds)
    else if accounts[ix.program].program.oracle == DEFAULT_PUBKEY then Failure(OracleAlreadyRegistered)
    else if !MarketSeeds(book, accounts, ix.market, ix.marketType) then Failure(ConstraintSeeds)
    else
      Success(Effect(
        accounts[ix.order := Order(OpenedOrder(ix, clock))],
        [Requested(PriceRequested(ix.marketType, accounts[ix.program].program.oracle, ix.order, clock.timestamp, clock.slot))]))
  }

  function ClosedOrder(order: OrderAccount, ix: Instruction, clock: Clock): OrderAccount
    requires ix.FulfillOrder?
  {
    order.(openOrder := 0, closeTimestamp := clock.timestamp, closeSlot := clock.slot, oraclePrice := ix.price)
  }

  /** The two latency subtractions are checked: the program is built with overflow checks. */
  predicate LatencyFits(order: OrderAccount, clock: Clock) {
    && -TWO_63 <= clock.timestamp - order.openTimestamp < TWO_63
    && order.openSlot <= clock.slot
  }

  function ExecuteFulfillOrder(book: AddressBook, accounts: Ledger, clock: Clock, ix: Instruction, signers: set<Pubkey>)
    : Result<Effect, ProgramError>
    requires ix.FulfillOrder?
  {
    if !HasOrder(accounts, ix.order) || !HasProgram(accounts, ix.program)
       || !HasMarket(accounts, ix.market) || !HasOracle(accounts, ix.oracle)
    then Failure(AccountNotInitialized)
    else if ix.enclaveSigner !in signers then Failure(MissingSigner)
    else
      var order := accounts[ix.order].order;
      if order.market != ix.market then Failure(ConstraintHasOne)
      else if order.openOrder != 1 then Failure(OrderAlreadyFulfilled)
      else if !ProgramSeeds(book, accounts, ix.program) then Failure(ConstraintSeeds)
      else if accounts[ix.program].program.oracle != ix.oracle then Failure(ConstraintHasOne)
      else if !MarketSeeds(book, accounts, ix.market, ix.marketType) then Failure(ConstraintSeeds)
      else if accounts[ix.oracle].oracle.enclaveSigner != ix.enclaveSigner then Failure(ConstraintHasOne)
      else if !LatencyFits(order, clock) then Failure(ArithmeticOverflow)
      else
        Success(Effect(
          accounts[ix.order := Order(ClosedOrder(order, ix, clock))],
          [Fulfilled(PriceFulfilled(
             ix.marketType, ix.order, order.openTimestamp, order.openSlot,
             clock.timestamp - order.openTimestamp, clock.slot - order.openSlot,
             ix.price, accounts[ix.market].market.decimals))]))
  }

  /** One transaction: what it leaves behind, or the error that undoes it. */
  function Execute(book: AddressBook, accounts: Ledger, clock: Clock, tx: Transaction): Result<Effect, ProgramError> {
    match tx.instruction
    case Initialize(_, _, _, _, _) => ExecuteInitialize(book, accounts, tx.instruction)
    case RegisterOracle(_, _, _, _) => ExecuteRegisterOracle(book, accounts, clock, tx.instruction, tx.signers)
    case CreateOrder(_, _, _, _, _) => ExecuteCreateOrder(book, accounts, clock, tx.instruction, tx.signers)
    case FulfillOrder(_, _, _, _, _, _, _) => ExecuteFulfillOrder(book, accounts, clock, tx.instruction, tx.signers)
  }

  /** The deployed program with its accounts and its event log. */
  class BackfillOracleProgram {
    const book: AddressBook
    var accounts: Ledger
    var events: seq<Event>

    constructor (book: AddressBook)
      ensures this.book == book && accounts == map[] && events == []
    {
      this.book := book;
      accounts := map[];
      events := [];
    }

    /** A transaction either has exactly the specified effect or leaves everything as it was. */
    ghost predicate Ran(before: Ledger, log: seq<Event>, clock: Clock, tx: Transaction, r: Result<(), ProgramError>)
      reads this
    {
      match Execute(book, before, clock, tx)
      case Success(effect) => r == Success(()) && accounts == effect.accounts && events == log + effect.events
      case Failure(e) => r == Failure(e) && accounts == before && events == log
    }

    method Initialize(clock: Clock, ix: Instruction, signers: set<Pubkey>) returns (r: Result<(), ProgramError>)
      requires ix.Initialize?
      modifies this
      ensures Ran(old(accounts), old(events), clock, Transaction(ix, signers), r)
    {
      if !(ix.program == book.program.key && ix.btcMarket == book.market(Btc).key
           && ix.ethMarket == book.market(Eth).key && ix.solMarket == book.market(Sol).key) {
        return Failure(ConstraintSeeds);
      }
      if ix.program in accounts || ix.btcMarket in accounts || ix.ethMarket in accounts || ix.solMarket in accounts {
        return Failure(AccountInUse);
      }
      var program := BLANK_PROGRAM;
      program := program.(bump := book.program.bump);
      program := program.(authority := ix.authority);

      program := program.(markets := program.markets + [BTC_MARKET_BYTES]);
      var btc := BLANK_MARKET;
      btc := btc.(bump := book.market(Btc).bump);
      btc := btc.(name := BTC_MARKET_BYTES, decimals := 9, stalenessThreshold := 30);

      program := program.(markets := program.markets + [ETH_MARKET_BYTES]);
      var eth := BLANK_MARKET;
      eth := eth.(bump := book.market(Eth).bump);
      eth := eth.(name := ETH_MARKET_BYTES, decimals := 9, stalenessThreshold := 30);

      program := program.(markets := program.markets + [SOL_MARKET_BYTES]);
      var sol := BLANK_MARKET;
      sol := sol.(bump := book.market(Sol).bump);
      sol := sol.(name := SOL_MARKET_BYTES, decimals := 9, stalenessThreshold := 30);

      assert program.markets == [BTC_MARKET_BYTES, ETH_MARKET_BYTES, SOL_MARKET_BYTES];
      accounts := accounts[ix.program := Program(program)];
      accounts := accounts[ix.btcMarket := Market(btc)];
      accounts := accounts[ix.ethMarket := Market(eth)];
      accounts := accounts[ix.solMarket := Market(sol)];
      r := Success(());
    }

    method RegisterOracle(clock: Clock, ix: Instruction, signers: set<Pubkey>) returns (r: Result<(), ProgramError>)
      requires ix.RegisterOracle?
      modifies this
      ensures Ran(old(accounts), old(events), clock, Transaction(ix, signers), r)
    {
      if !HasProgram(accounts, ix.program) { return Failure(AccountNotInitialized); }
      if ix.enclaveSigner !in signers || ix.authority !in signers { return Failure(MissingSigner); }
      if ix.oracle != book.oracle(ix.authority).key { return Failure(ConstraintSeeds); }
      var oracle := BLANK_ORACLE;
      if ix.oracle in accounts {
        if !accounts[ix.oracle].Oracle? { return Failure(AccountInUse); }
        oracle := accounts[ix.oracle].oracle;
      }
      if !ProgramSeeds(book, accounts, ix.program) { return Failure(ConstraintSeeds); }

      var program := accounts[ix.program].program;
      if oracle.bump == 0 {
        program := program.(oracle := ix.oracle);
        oracle := oracle.(bump := book.oracle(ix.authority).bump);
        oracle := oracle.(authority := ix.authority);
        oracle := oracle.(verificationTimestamp := clock.timestamp);
        oracle := oracle.(verificationSlot := clock.slot);
        oracle := oracle.(validUntilSlot := U64_MAX);
      }
      oracle := oracle.(enclaveSigner := ix.enclaveSigner);

      accounts := accounts[ix.program := Program(program)];
      accounts := accounts[ix.oracle := Oracle(oracle)];
      r := Success(());
    }

    method CreateOrder(clock: Clock, ix: Instruction, signers: set<Pubkey>) returns (r: Result<(), ProgramError>)
      requires ix.CreateOrder?
      modifies this
      ensures Ran(old(accounts), old(events), clock, Transaction(ix, signers), r)
    {
      if !HasProgram(accounts, ix.program) { return Failure(AccountNotInitialized); }
      if !HasMarket(accounts, ix.market) { return Failure(AccountNotInitialized); }
      if ix.order !in signers { return Failure(MissingSigner); }
      if ix.order in accounts { return Failure(AccountInUse); }
      var program := accounts[ix.program].program;
      if !ProgramSeeds(book, accounts, ix.program) { return Failure(ConstraintSeeds); }
      if program.oracle == DEFAULT_PUBKEY { return Failure(OracleAlreadyRegistered); }
      if !MarketSeeds(book, accounts, ix.market, ix.marketType) { return Failure(ConstraintSeeds); }

      var order := BLANK_ORDER;
      order := order.(openOrder := 1);
      order := order.(authority := ix.authority);
      order := order.(market := ix.market);
      order := order.(marketName := ix.marketType.ToBytes());
      order := order.(openTimestamp := clock.timestamp);
      order := order.(openSlot := clock.slot);

      events := events + [Requested(PriceRequested(
                            ix.marketType, program.oracle, ix.order, order.openTimestamp, order.openSlot))];
      accounts := accounts[ix.order := Order(order)];
      r := Success(());
    }

    method FulfillOrder(clock: Clock, ix: Instruction, signers: set<Pubkey>) returns (r: Result<(), ProgramError>)
      requires ix.FulfillOrder?
      modifies this
      ensures Ran(old(accounts), old(events), clock, Transaction(ix, signers), r)
    {
      if !HasOrder(accounts, ix.order) || !HasProgram(accounts, ix.program) { return Failure(AccountNotInitialized); }
      if !HasMarket(accounts, ix.market) || !HasOracle(accounts, ix.oracle) { return Failure(AccountNotInitialized); }
      if ix.enclaveSigner !in signers { return Failure(MissingSigner); }
      var order := accounts[ix.order].order;
      if order.market != ix.market { return Failure(ConstraintHasOne); }
      if order.openOrder != 1 { return Failure(OrderAlreadyFulfilled); }
      if !ProgramSeeds(book, accounts, ix.program) { return Failure(ConstraintSeeds); }
      if accounts[ix.program].program.oracle != ix.oracle { return Failure(ConstraintHasOne); }
      if !MarketSeeds(book, accounts, ix.market, ix.marketType) { return Failure(ConstraintSeeds); }
      if accounts[ix.oracle].oracle.enclaveSigner != ix.enclaveSigner { return Failure(ConstraintHasOne); }

      order := order.(openOrder := 0);
      order := order.(closeTimestamp := clock.timestamp);
      order := order.(closeSlot := clock.slot);
      order := order.(oraclePrice := ix.price);
      if !LatencyFits(order, clock) { return Failure(ArithmeticOverflow); }

      events := events + [Fulfilled(PriceFulfilled(
                            ix.marketType, ix.order, order.openTimestamp, order.openSlot,
                            order.closeTimestamp - order.openTimestamp, order.closeSlot - order.openSlot,
                            ix.price, accounts[ix.market].market.decimals))];
      accounts := accounts[ix.order := Order(order)];
      r := Success(());
    }
  }
}
