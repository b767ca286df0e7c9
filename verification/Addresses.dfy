/** Markets, account addresses and their derivation from seeds. */
module Addresses {
  import opened MachineIntegers
  import opened Wrappers

  datatype Pubkey = Pubkey(bytes: Bytes32)

  /** The key with a given first byte and zeros behind it. */
  function Key(n: byte): Pubkey {
    Pubkey(seq(32, i => if i == 0 then n else 0))
  }

  const DEFAULT_PUBKEY: Pubkey := Key(0)

  const BTC_MARKET_BYTES: Bytes8 := [66, 84, 67, 0, 0, 0, 0, 0]
  const ETH_MARKET_BYTES: Bytes8 := [69, 84, 72, 0, 0, 0, 0, 0]
  const SOL_MARKET_BYTES: Bytes8 := [83, 79, 76, 0, 0, 0, 0, 0]

  datatype MarketType = Btc | Eth | Sol {
    function ToBytes(): (r: Bytes8) {
      match this
      case Btc => BTC_MARKET_BYTES
      case Eth => ETH_MARKET_BYTES
      case Sol => SOL_MARKET_BYTES
    }
  }

  function TryFrom(bytes: Bytes8): Option<MarketType> {
    if bytes == BTC_MARKET_BYTES then Some(Btc)
    else if bytes == ETH_MARKET_BYTES then Some(Eth)
    else if bytes == SOL_MARKET_BYTES then Some(Sol)
    else None
  }

  /** The code of a market is accepted back, and nothing else is: the codes and the markets
      are in bijection. */
  lemma MarketCodesRoundTrip(m: MarketType, bytes: Bytes8)
    ensures TryFrom(m.ToBytes()) == Some(m)
    ensures TryFrom(bytes) == Some(m) <==> bytes == m.ToBytes()
    ensures m.ToBytes() == match m
            case Btc => ['B' as byte, 'T' as byte, 'C' as byte, 0, 0, 0, 0, 0]
            case Eth => ['E' as byte, 'T' as byte, 'H' as byte, 0, 0, 0, 0, 0]
            case Sol => ['S' as byte, 'O' as byte, 'L' as byte, 0, 0, 0, 0, 0]
  {
    assert BTC_MARKET_BYTES[0] == 66 && ETH_MARKET_BYTES[0] == 69 && SOL_MARKET_BYTES[0] == 83;
  }

  /** One value for each market, as the worker's three caches of each provider. */
  datatype PerMarket<T> = PerMarket(btc: T, eth: T, sol: T) {
    function At(m: MarketType): T {
      match m
      case Btc => btc
      case Eth => eth
      case Sol => sol
    }

    function Put(m: MarketType, value: T): PerMarket<T> {
      match m
      case Btc => this.(btc := value)
      case Eth => this.(eth := value)
      case Sol => this.(sol := value)
    }
  }

  /** A program-derived address and the bump that `find_program_address` returns with it. */
  datatype Pda = Pda(key: Pubkey, bump: byte)

  /** Every address the program derives. `authorities` are the accounts that ever register an oracle:
      any finite set of them. */
  datatype AddressBook = AddressBook(program: Pda, market: MarketType -> Pda, oracle: Pubkey -> Pda,
                                     authorities: set<Pubkey>) {
    /** The hypotheses about derived addresses: no two of them are the same, an oracle's is never the
        default key, and its bump is not zero. */
    ghost predicate Valid() {
      && (forall m :: market(m).key != program.key)
      && (forall m, n :: market(m).key == market(n).key ==> m == n)
      && (forall a :: a in authorities ==> oracle(a).key != program.key)
      && (forall m, a :: a in authorities ==> market(m).key != oracle(a).key)
      && (forall a, b :: a in authorities && b in authorities && oracle(a).key == oracle(b).key ==> a == b)
      && (forall a :: a in authorities ==> oracle(a).key != DEFAULT_PUBKEY && oracle(a).bump != 0)
    }

    ghost predicate Derived(k: Pubkey) {
      || k == program.key
      || (exists m :: k == market(m).key)
      || (exists a :: a in authorities && k == oracle(a).key)
    }
  }

  const PROGRAM_SEED: seq<byte> := [80, 82, 79, 71, 82, 65, 77]
  const ORACLE_SEED: seq<byte> := [79, 82, 65, 67, 76, 69]

  /** The address book that a derivation function yields for the seeds written in the source.
      `derive` takes the concatenated seeds, which is all that the address depends on. */
  function BookOf(derive: seq<byte> -> Pda, authorities: set<Pubkey>): AddressBook {
    AddressBook(
      derive(PROGRAM_SEED),
      (m: MarketType) => derive(derive(PROGRAM_SEED).key.bytes + m.ToBytes()),
      (a: Pubkey) => derive(ORACLE_SEED + a.bytes),
      authorities)
  }

  function MarketSeed(derive: seq<byte> -> Pda, m: MarketType): seq<byte> {
    derive(PROGRAM_SEED).key.bytes + m.ToBytes()
  }

  /** The concatenated seeds from which the program derives its addresses. */
  ghost predicate IsSeed(derive: seq<byte> -> Pda, authorities: set<Pubkey>, s: seq<byte>) {
    || s == PROGRAM_SEED
    || (exists m :: s == MarketSeed(derive, m))
    || (exists a :: a in authorities && s == ORACLE_SEED + a.bytes)
  }

  /** No two of these seeds derive the same address, and none the default one; no bump is zero. */
  ghost predicate NoCollisions(derive: seq<byte> -> Pda, authorities: set<Pubkey>) {
    && (forall s, t ::
          IsSeed(derive, authorities, s) && IsSeed(derive, authorities, t) && derive(s).key == derive(t).key ==> s == t)
    && (forall s :: IsSeed(derive, authorities, s) ==> derive(s).key != DEFAULT_PUBKEY && derive(s).bump != 0)
  }

  /** A derivation without collisions keeps the three kinds of address apart although only the
      concatenation of the seeds is hashed: their seeds have 7, 40 and 38 bytes. */
  lemma SeedsKeepAddressesApart(derive: seq<byte> -> Pda, authorities: set<Pubkey>)
    requires NoCollisions(derive, authorities)
    ensures BookOf(derive, authorities).Valid()
  {
    var book := BookOf(derive, authorities);
    assert IsSeed(derive, authorities, PROGRAM_SEED);
    forall m: MarketType ensures IsSeed(derive, authorities, MarketSeed(derive, m)) {
    }
    forall a | a in authorities ensures IsSeed(derive, authorities, ORACLE_SEED + a.bytes) {
    }
    forall m, n | book.market(m).key == book.market(n).key ensures m == n {
      assert MarketSeed(derive, m)[32..] == m.ToBytes() && MarketSeed(derive, n)[32..] == n.ToBytes();
      MarketCodesRoundTrip(m, n.ToBytes());
      MarketCodesRoundTrip(n, n.ToBytes());
    }
    forall a, b | a in authorities && b in authorities && book.oracle(a).key == book.oracle(b).key ensures a == b {
      assert (ORACLE_SEED + a.bytes)[6..] == a.bytes && (ORACLE_SEED + b.bytes)[6..] == b.bytes;
    }
    forall m ensures book.market(m).key != book.program.key {
      assert |MarketSeed(derive, m)| == 40;
    }
    forall a | a in authorities ensures book.oracle(a).key != book.program.key {
      assert |ORACLE_SEED + a.bytes| == 38;
    }
    forall m, a | a in authorities ensures book.market(m).key != book.oracle(a).key {
      assert |MarketSeed(derive, m)| == 40 && |ORACLE_SEED + a.bytes| == 38;
    }
  }

  lemma KeysDiffer(n: byte, k: byte)
    ensures Key(n) == Key(k) ==> n == k
    ensures Key(n) == DEFAULT_PUBKEY ==> n == 0
  {
    assert Key(n).bytes[0] == n && Key(k).bytes[0] == k;
  }

  function SampleCode(s: seq<byte>): byte {
    if |s| == 40 then s[32] else |s| % 256
  }

  /** A derivation that tells the seeds of the program apart for one authority. */
  function SampleDerivation(s: seq<byte>): Pda {
    Pda(Key(SampleCode(s)), 255)
  }

  function SampleMarketCode(m: MarketType): byte {
    match m case Btc => 66 case Eth => 69 case Sol => 83
  }

  lemma SampleCodes(authority: Pubkey, m: MarketType)
    ensures SampleCode(PROGRAM_SEED) == 7 && SampleCode(ORACLE_SEED + authority.bytes) == 38
    ensures SampleCode(MarketSeed(SampleDerivation, m)) == SampleMarketCode(m)
  {
    assert MarketSeed(SampleDerivation, m)[32] == m.ToBytes()[0];
  }

  /** Which seed it is can be told from the code. */
  lemma SampleSeed(authority: Pubkey, s: seq<byte>)
    requires IsSeed(SampleDerivation, {authority}, s)
    ensures SampleCode(s) >= 7
    ensures
      s == if SampleCode(s) == 7 then PROGRAM_SEED
           else if SampleCode(s) == 38 then ORACLE_SEED + authority.bytes
           else MarketSeed(SampleDerivation, if SampleCode(s) == 66 then Btc else if SampleCode(s) == 69 then Eth else Sol)
  {
    SampleCodes(authority, Btc);
    if m: MarketType :| s == MarketSeed(SampleDerivation, m) {
      SampleCodes(authority, m);
    }
  }

  /** The hypotheses about derived addresses can be met, whoever the authority is. */
  lemma AddressHypothesesCanBeMet(authority: Pubkey)
    ensures NoCollisions(SampleDerivation, {authority}) && BookOf(SampleDerivation, {authority}).Valid()
  {
    forall s, t | IsSeed(SampleDerivation, {authority}, s) && IsSeed(SampleDerivation, {authority}, t)
                  && SampleDerivation(s).key == SampleDerivation(t).key
      ensures s == t
    {
      KeysDiffer(SampleCode(s), SampleCode(t));
      SampleSeed(authority, s);
      SampleSeed(authority, t);
    }
    forall s | IsSeed(SampleDerivation, {authority}, s) ensures SampleDerivation(s).key != DEFAULT_PUBKEY {
      KeysDiffer(SampleCode(s), 0);
      SampleSeed(authority, s);
    }
    SeedsKeepAddressesApart(SampleDerivation, {authority});
  }

  lemma SampleAddresses(authority: Pubkey, m: MarketType)
    ensures
      var book := BookOf(SampleDerivation, {authority});
      && book.program.key == Key(7) && book.oracle(authority).key == Key(38)
      && book.market(m).key == Key(SampleMarketCode(m))
  {
    SampleCodes(authority, m);
    assert BookOf(SampleDerivation, {authority}).market(m) == SampleDerivation(MarketSeed(SampleDerivation, m));
  }

  lemma SampleIsNot(authority: Pubkey, n: byte)
    requires n < 7
    ensures !BookOf(SampleDerivation, {authority}).Derived(Key(n))
  {
    KeysDiffer(n, 7);
    KeysDiffer(n, 38);
    SampleAddresses(authority, Btc);
    forall m ensures BookOf(SampleDerivation, {authority}).market(m).key != Key(n) {
      SampleAddresses(authority, m);
      KeysDiffer(n, SampleMarketCode(m));
    }
  }

  /** The worker's own market table, built once from seeds that are spelled out market by market. */
  function MarketTable(derive: seq<byte> -> Pda): map<MarketType, Pubkey> {
    var program := derive(PROGRAM_SEED).key;
    map[
      Btc := derive(program.bytes + [66, 84, 67, 0, 0, 0, 0, 0]).key,
      Eth := derive(program.bytes + [69, 84, 72, 0, 0, 0, 0, 0]).key,
      Sol := derive(program.bytes + [83, 79, 76, 0, 0, 0, 0, 0]).key
    ]
  }

  /** Looking up a market in the table never fails, and gives the address that the program checks. */
  lemma TableMeetsProgramChecks(derive: seq<byte> -> Pda, m: MarketType)
    ensures m in MarketTable(derive) && MarketTable(derive)[m] == BookOf(derive, {}).market(m).key
  {
    var p := derive(PROGRAM_SEED).key.bytes;
    assert p + m.ToBytes() == p + if m.Btc? then [66, 84, 67, 0, 0, 0, 0, 0]
                                  else if m.Eth? then [69, 84, 72, 0, 0, 0, 0, 0] else [83, 79, 76, 0, 0, 0, 0, 0];
  }
}
