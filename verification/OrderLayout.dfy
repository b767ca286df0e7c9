/** The bytes of an order account, and the poll's query for open orders. */
module OrderLayout {
  import opened MachineIntegers
  import opened Wrappers
  import opened Addresses
  import opened BackfillProgram
  import opened ByteFields
  import opened WorkerClaims

  /** discriminator, open_order, reserved, authority, market, market_name, open_timestamp, open_slot,
      close_timestamp, close_slot, oracle_price */
  const ORDER_WIDTHS: seq<nat> := [8, 1, 31, 32, 32, 8, 8, 8, 8, 8, 8]

  function OrderFields(disc: Bytes8, o: OrderAccount): seq<Bytes> {
    [disc, [o.openOrder], o.reserved, o.authority.bytes, o.market.bytes, o.marketName,
     I64Bytes(o.openTimestamp), U64Bytes(o.openSlot), I64Bytes(o.closeTimestamp), U64Bytes(o.closeSlot),
     U64Bytes(o.oraclePrice)]
  }

  function Serialize(disc: Bytes8, o: OrderAccount): Bytes {
    Join(OrderFields(disc, o))
  }

  /** `try_deserialize`: check the discriminator, then read the fields; bytes after them are ignored. */
  function TryDeserialize(disc: Bytes8, data: Bytes): Option<OrderAccount> {
    match Cut(data, ORDER_WIDTHS)
    case None => None
    case Some((f, rest)) =>
      JoinCut(data, ORDER_WIDTHS);
      if f[0] != disc then None
      else Some(OrderAccount(f[1][0], f[2], Pubkey(f[3]), Pubkey(f[4]), f[5],
                             I64(f[6]), U64(f[7]), I64(f[8]), U64(f[9]), U64(f[10])))
  }

  /** The layout loses nothing: every order account reads back as itself, also with bytes after it. */
  lemma LayoutRoundTrips(disc: Bytes8, o: OrderAccount, rest: Bytes)
    ensures TryDeserialize(disc, Serialize(disc, o) + rest) == Some(o)
  {
    CutJoined(OrderFields(disc, o), ORDER_WIDTHS, rest);
    NumbersRoundTrip(o.openSlot, o.openTimestamp, 0);
    NumbersRoundTrip(o.closeSlot, o.closeTimestamp, 0);
    NumbersRoundTrip(o.oraclePrice, 0, 0);
  }

  /** And it is canonical: bytes that read as an order start with the serialization of that order. */
  lemma LayoutIsCanonical(disc: Bytes8, data: Bytes)
    requires TryDeserialize(disc, data).Some?
    ensures Serialize(disc, TryDeserialize(disc, data).value) <= data
  {
    JoinCut(data, ORDER_WIDTHS);
    var (f, rest) := Cut(data, ORDER_WIDTHS).value;
    var o := TryDeserialize(disc, data).value;
    forall i | 6 <= i < 11 ensures U64Bytes(U64(f[i])) == f[i] && I64Bytes(I64(f[i])) == f[i] {
      NumbersCanonical(f[i]);
    }
    assert f[1] == [o.openOrder];
    assert OrderFields(disc, o) == f;
  }

  /** Where the fields of an order stand in the 152 bytes of its account. */
  lemma FieldsOfAnOrder(disc: Bytes8, o: OrderAccount)
    ensures
      var data := Serialize(disc, o);
      && |data| == 152
      && data[0..8] == disc && data[8..9] == [o.openOrder] && data[9..40] == o.reserved
      && data[40..72] == o.authority.bytes && data[72..104] == o.market.bytes && data[104..112] == o.marketName
      && data[112..120] == I64Bytes(o.openTimestamp) && data[120..128] == U64Bytes(o.openSlot)
      && data[128..136] == I64Bytes(o.closeTimestamp) && data[136..144] == U64Bytes(o.closeSlot)
      && data[144..152] == U64Bytes(o.oraclePrice)
  {
    JoinedLength(OrderFields(disc, o), ORDER_WIDTHS);
    OrderOffsets();
    OrderFieldAt(disc, o, 0, 0, 8);
    OrderFieldAt(disc, o, 1, 8, 9);
    OrderFieldAt(disc, o, 2, 9, 40);
    OrderFieldAt(disc, o, 3, 40, 72);
    OrderFieldAt(disc, o, 4, 72, 104);
    OrderFieldAt(disc, o, 5, 104, 112);
    OrderFieldAt(disc, o, 6, 112, 120);
    OrderFieldAt(disc, o, 7, 120, 128);
    OrderFieldAt(disc, o, 8, 128, 136);
    OrderFieldAt(disc, o, 9, 136, 144);
    OrderFieldAt(disc, o, 10, 144, 152);
  }

  lemma OrderFieldAt(disc: Bytes8, o: OrderAccount, i: nat, low: nat, high: nat)
    requires i < 11 && low == Offset(ORDER_WIDTHS, i) && high == low + ORDER_WIDTHS[i]
    ensures high <= |Serialize(disc, o)| && Serialize(disc, o)[low..high] == OrderFields(disc, o)[i]
  {
    FieldAt(OrderFields(disc, o), ORDER_WIDTHS, i);
  }

  lemma OrderOffsets()
    ensures Offset(ORDER_WIDTHS, 0) == 0 && Offset(ORDER_WIDTHS, 1) == 8 && Offset(ORDER_WIDTHS, 2) == 9
    ensures Offset(ORDER_WIDTHS, 3) == 40 && Offset(ORDER_WIDTHS, 4) == 72 && Offset(ORDER_WIDTHS, 5) == 104
    ensures Offset(ORDER_WIDTHS, 6) == 112 && Offset(ORDER_WIDTHS, 7) == 120 && Offset(ORDER_WIDTHS, 8) == 128
    ensures Offset(ORDER_WIDTHS, 9) == 136 && Offset(ORDER_WIDTHS, 10) == 144 && Offset(ORDER_WIDTHS, 11) == 152
  {
  }

  /** An account of the program as the RPC node returns it. */
  datatype RawAccount = RawAccount(key: Pubkey, data: Bytes)

  /** The memcmp filter of the query: the discriminator and then the byte 1. */
  predicate MatchesFilter(disc: Bytes8, a: RawAccount) {
    disc + [1] <= a.data
  }

  predicate DecodesToOpen(disc: Bytes8, a: RawAccount) {
    TryDeserialize(disc, a.data).Some? && TryDeserialize(disc, a.data).value.openOrder == 1
  }

  /** On accounts that decode, the filter is exactly the open flag. */
  lemma FilterIsTheOpenFlag(disc: Bytes8, a: RawAccount)
    requires TryDeserialize(disc, a.data).Some?
    ensures MatchesFilter(disc, a) <==> TryDeserialize(disc, a.data).value.openOrder == 1
  {
    LayoutIsCanonical(disc, a.data);
    var o := TryDeserialize(disc, a.data).value;
    var fields := OrderFields(disc, o);
    assert fields[0] == disc && fields[1..][0] == [o.openOrder];
    assert Join(fields[1..]) == [o.openOrder] + Join(fields[1..][1..]);
    assert Join(fields) == disc + Join(fields[1..]);
    assert a.data[..8] == disc && a.data[8] == o.openOrder;
  }

  /** The open orders among some accounts, in order: the accounts that decode to an order with the flag 1. */
  function OpenOrders(disc: Bytes8, accounts: seq<RawAccount>): seq<Listed> {
    if accounts == [] then []
    else
      var last := accounts[|accounts| - 1];
      OpenOrders(disc, accounts[..|accounts| - 1])
      + if DecodesToOpen(disc, last) then [Listed(last.key, TryDeserialize(disc, last.data).value)] else []
  }

  /** The open orders among some accounts are those of each account, in order. */
  lemma {:induction false} OpenOrdersInOrder(disc: Bytes8, a: seq<RawAccount>, b: seq<RawAccount>)
    ensures OpenOrders(disc, a + b) == OpenOrders(disc, a) + OpenOrders(disc, b)
    decreases |b|
  {
    if b == [] {
      assert a + b == a;
    } else {
      assert (a + b)[..|a + b| - 1] == a + b[..|b| - 1];
      OpenOrdersInOrder(disc, a, b[..|b| - 1]);
    }
  }

  /** Nothing else is listed: an entry is the key of an account and the open order that its bytes start with. */
  lemma {:induction false} OpenOrdersAreOpen(disc: Bytes8, accounts: seq<RawAccount>, l: Listed)
    requires l in OpenOrders(disc, accounts)
    ensures l.order.openOrder == 1
    ensures exists a :: a in accounts && a.key == l.key && Serialize(disc, l.order) <= a.data
  {
    var init, last := accounts[..|accounts| - 1], accounts[|accounts| - 1];
    if l in OpenOrders(disc, init) {
      OpenOrdersAreOpen(disc, init, l);
    } else {
      LayoutIsCanonical(disc, last.data);
      assert last in accounts;
    }
  }

  /** The node's filter and the worker's decoding loop together select, from any accounts whatever, exactly
      those that decode to open orders. */
  method FetchOpenOrderAccounts(disc: Bytes8, accounts: seq<RawAccount>) returns (openOrders: seq<Listed>)
    ensures openOrders == OpenOrders(disc, accounts)
  {
    openOrders := [];
    for i := 0 to |accounts|
      invariant openOrders == OpenOrders(disc, accounts[..i])
    {
      assert accounts[..i + 1][..i] == accounts[..i];
      var a := accounts[i];
      if MatchesFilter(disc, a) {
        var order := TryDeserialize(disc, a.data);
        if order.Some? {
          FilterIsTheOpenFlag(disc, a);
          openOrders := openOrders + [Listed(a.key, order.value)];
        }
      } else if DecodesToOpen(disc, a) {
        FilterIsTheOpenFlag(disc, a);
      }
    }
    assert accounts[..|accounts|] == accounts;
  }

  /** Every open order serialized in some account is found, under its key. */
  lemma {:induction false} OpenOrdersAreFound(disc: Bytes8, accounts: seq<RawAccount>, i: nat, o: OrderAccount, rest: Bytes)
    requires i < |accounts| && accounts[i].data == Serialize(disc, o) + rest
    ensures o.openOrder == 1 ==> Listed(accounts[i].key, o) in OpenOrders(disc, accounts)
  {
    if i == |accounts| - 1 {
      LayoutRoundTrips(disc, o, rest);
    } else {
      OpenOrdersAreFound(disc, accounts[..|accounts| - 1], i, o, rest);
    }
  }
}
