/**
 * `decode_market_data`, the browser-side reader of the 31-byte record, up to the
 * raw integers it extracts (the division by 10^8 into floating point is not modelled).
 */
module WasmClient {
  import opened Wrappers
  import opened LittleEndian
  import opened SbeMessages

  /** The decoded fields the client keeps; the others are skipped. */
  datatype DecodedUpdate = DecodedUpdate(
    timestamp: U64,
    side: string,
    priceRaw: I64,
    quantityRaw: U64)

  const DataTooShort: string := "Data too short"

  /** The side name for a side byte; an unrecognised byte is not an error. */
  function SideName(b: Byte): (r: string)
    ensures r == "Buy" <==> b == 1
    ensures r == "Sell" <==> b == 2
    ensures r == "Buy" || r == "Sell" || r == "Unknown"
  {
    if b == 1 then "Buy" else if b == 2 then "Sell" else "Unknown"
  }

  /** The name the encoder's side is decoded to. */
  function SideLabel(s: Side): string
  {
    match s
    case Buy => "Buy"
    case Sell => "Sell"
  }

  /** The side code the encoder writes is read back as the side's name. */
  lemma SideNameOfCode(s: Side)
    ensures SideName(SideCode(s)) == SideLabel(s)
    ensures SideName(SideCode(s)) != "Unknown"
  {
  }

  /** `decode_market_data`: fails only on short input; each field re-encodes to the slice it was read from. */
  function DecodeMarketData(data: seq<Byte>): (r: Result<DecodedUpdate, string>)
    ensures r.Failure? <==> |data| < MessageLength
    ensures r.Failure? ==> r.error == DataTooShort
    ensures r.Success? ==>
      && Encode(r.value.timestamp, 8) == data[0..8]
      && EncodeI64(r.value.priceRaw) == data[14..22]
      && Encode(r.value.quantityRaw, 8) == data[22..30]
    ensures r.Success? ==>
      && (r.value.side == "Buy" <==> data[13] == 1)
      && (r.value.side == "Sell" <==> data[13] == 2)
      && (r.value.side == "Unknown" <==> data[13] != 1 && data[13] != 2)
  {
    if |data| < MessageLength then Failure(DataTooShort)
    else Success(DecodedUpdate(
      DecodeU64(data[0..8]),
      SideName(data[13]),
      DecodeI64(data[14..22]),
      DecodeU64(data[22..30])))
  }

  /** Bytes outside the timestamp, side, price and quantity fields do not affect decoding. */
  lemma DecodeIgnoresOtherBytes(a: seq<Byte>, b: seq<Byte>)
    requires |a| >= MessageLength && |b| >= MessageLength
    requires a[0..8] == b[0..8] && a[13] == b[13] && a[14..30] == b[14..30]
    ensures DecodeMarketData(a) == DecodeMarketData(b)
  {
    assert a[14..22] == a[14..30][0..8] == b[14..30][0..8] == b[14..22];
    assert a[22..30] == a[14..30][8..16] == b[14..30][8..16] == b[22..30];
  }

  /** Round trip: decoding an encoded update, followed by any trailing bytes, yields its timestamp, side, raw price and raw quantity. */
  lemma {:induction false} DecodeToBytes(u: MarketDataUpdate, trailing: seq<Byte>)
    ensures DecodeMarketData(ToBytes(u) + trailing)
      == Success(DecodedUpdate(u.timestamp, SideLabel(u.side), u.price, u.quantity))
  {
    var bytes := ToBytes(u);
    var data := bytes + trailing;
    assert data[0..8] == bytes[0..8];
    assert data[14..22] == bytes[14..22];
    assert data[22..30] == bytes[22..30];
    Pow256Widths();
    EncodeDecode(bytes[0..8]);
    EncodeDecode(bytes[22..30]);
    DecodeI64EncodeI64(u.price);
    assert EncodeI64(u.price) == bytes[14..22];
  }
}
