/**
 * The market-data message of the binary protocol: its enumerations and the
 * fixed 31-byte little-endian record `MarketDataUpdate::to_bytes` packs.
 *
 * Layout (byte offsets):
 *   0..8   timestamp    u64, little-endian
 *   8      exchange id  Binance = 1, Bybit = 2, Coinbase = 3
 *   9..13  symbol id    u32, little-endian
 *   13     side         Buy = 1, Sell = 2
 *   14..22 price        i64, little-endian two's complement
 *   22..30 quantity     u64, little-endian
 *   30     is_snapshot  u8
 */
module SbeMessages {
  import opened LittleEndian

  datatype Side = Buy | Sell

  datatype ExchangeId = Binance | Bybit | Coinbase

  /** The `#[repr(u8)]` discriminant of a side. */
  function SideCode(s: Side): (r: Byte)
    ensures r == 1 || r == 2
  {
    match s
    case Buy => 1
    case Sell => 2
  }

  /** The `#[repr(u8)]` discriminant of an exchange. */
  function ExchangeCode(e: ExchangeId): (r: Byte)
    ensures 1 <= r <= 3
  {
    match e
    case Binance => 1
    case Bybit => 2
    case Coinbase => 3
  }

  /** Distinct sides have distinct codes, and so do distinct exchanges. */
  lemma CodesInjective(s1: Side, s2: Side, e1: ExchangeId, e2: ExchangeId)
    ensures SideCode(s1) == SideCode(s2) <==> s1 == s2
    ensures ExchangeCode(e1) == ExchangeCode(e2) <==> e1 == e2
  {
  }

  datatype MarketDataUpdate = MarketDataUpdate(
    timestamp: U64,
    exchangeId: ExchangeId,
    symbolId: U32,
    side: Side,
    price: I64,
    quantity: U64,
    isSnapshot: Byte)

  const MessageLength: nat := 31

  /** `MarketDataUpdate::to_bytes`: every field can be read back from its own slice. */
  function ToBytes(u: MarketDataUpdate): (r: seq<Byte>)
    ensures |r| == MessageLength
    ensures Decode(r[0..8]) == u.timestamp
    ensures r[8] == ExchangeCode(u.exchangeId)
    ensures Decode(r[9..13]) == u.symbolId
    ensures r[13] == SideCode(u.side)
    ensures DecodeI64(r[14..22]) == u.price
    ensures Decode(r[22..30]) == u.quantity
    ensures r[30] == u.isSnapshot
  {
    Pow256Widths();
    var r := Encode(u.timestamp, 8)
      + [ExchangeCode(u.exchangeId)]
      + Encode(u.symbolId, 4)
      + [SideCode(u.side)]
      + EncodeI64(u.price)
      + Encode(u.quantity, 8)
      + [u.isSnapshot];
    assert r[0..8] == Encode(u.timestamp, 8);
    assert r[9..13] == Encode(u.symbolId, 4);
    assert r[14..22] == EncodeI64(u.price);
    assert r[22..30] == Encode(u.quantity, 8);
    DecodeEncode(u.timestamp, 8);
    DecodeEncode(u.symbolId, 4);
    DecodeEncode(u.quantity, 8);
    DecodeI64EncodeI64(u.price);
    r
  }

  /** Two updates with the same encoding are the same update. */
  lemma ToBytesInjective(a: MarketDataUpdate, b: MarketDataUpdate)
    requires ToBytes(a) == ToBytes(b)
    ensures a == b
  {
    CodesInjective(a.side, b.side, a.exchangeId, b.exchangeId);
  }
}
