/**
 * Fixed-width integers and their little-endian byte encodings, as produced by
 * Rust's `to_le_bytes` and read back by `from_le_bytes`.
 */
module LittleEndian {

  type Byte = b: int | 0 <= b < 0x100

  type U32 = x: int | 0 <= x < 0x1_0000_0000
  type U64 = x: int | 0 <= x < 0x1_0000_0000_0000_0000
  type I64 = x: int | -0x8000_0000_0000_0000 <= x < 0x8000_0000_0000_0000

  const I64Max: I64 := 0x7FFF_FFFF_FFFF_FFFF

  /** 256 to the power k: one more than the largest value k bytes can hold. */
  function Pow256(k: nat): (r: nat)
    ensures r > 0
  {
    if k == 0 then 1 else 256 * Pow256(k - 1)
  }

  /** The widths the wire format uses: 4-byte and 8-byte integers. */
  lemma Pow256Widths()
    ensures Pow256(4) == 0x1_0000_0000
    ensures Pow256(8) == 0x1_0000_0000_0000_0000
  {
    assert Pow256(2) == 0x1_0000;
    assert Pow256(4) == 0x1_0000_0000;
    assert Pow256(6) == 0x1_0000_0000_0000;
  }

  /** The k-byte little-endian encoding of n: least significant byte first. */
  function Encode(n: nat, k: nat): (r: seq<Byte>)
    requires n < Pow256(k)
    ensures |r| == k
  {
    if k == 0 then []
    else [n % 256] + Encode(n / 256, k - 1)
  }

  /** The unsigned value of a little-endian byte string. */
  function Decode(s: seq<Byte>): (r: nat)
    ensures r < Pow256(|s|)
  {
    if |s| == 0 then 0
    else
      var rest := Decode(s[1..]);
      assert rest <= Pow256(|s| - 1) - 1;
      assert 256 * rest <= 256 * Pow256(|s| - 1) - 256;
      s[0] + 256 * rest
  }

  /** Decoding an encoding gives back the number. */
  lemma {:induction false} DecodeEncode(n: nat, k: nat)
    requires n < Pow256(k)
    ensures Decode(Encode(n, k)) == n
  {
    if k > 0 {
      DecodeEncode(n / 256, k - 1);
      assert Encode(n, k)[1..] == Encode(n / 256, k - 1);
    }
  }

  /** Encoding a decoded byte string at its own width gives back the bytes. */
  lemma {:induction false} EncodeDecode(s: seq<Byte>)
    ensures Encode(Decode(s), |s|) == s
  {
    if |s| > 0 {
      EncodeDecode(s[1..]);
      var rest := Decode(s[1..]);
      assert Decode(s) == s[0] + 256 * rest;
      assert Decode(s) % 256 == s[0];
      assert Decode(s) / 256 == rest;
    }
  }

  /** Two byte strings of one width with the same value are the same bytes. */
  lemma DecodeInjective(a: seq<Byte>, b: seq<Byte>)
    requires |a| == |b|
    requires Decode(a) == Decode(b)
    ensures a == b
  {
    EncodeDecode(a);
    EncodeDecode(b);
  }

  /** The two's-complement bit pattern of a signed 64-bit value, read as unsigned (`as u64`). */
  function ToUnsigned64(x: I64): (r: U64)
    ensures ToSigned64(r) == x
    ensures x >= 0 <==> r < 0x8000_0000_0000_0000
  {
    if x >= 0 then x else x + 0x1_0000_0000_0000_0000
  }

  /** The signed 64-bit value of a two's-complement bit pattern (`as i64`). */
  function ToSigned64(u: U64): (r: I64)
  {
    if u < 0x8000_0000_0000_0000 then u else u - 0x1_0000_0000_0000_0000
  }

  /** Reading a bit pattern as signed and back is the identity. */
  lemma UnsignedSigned64(u: U64)
    ensures ToUnsigned64(ToSigned64(u)) == u
  {
  }

  /** `i64::to_le_bytes`: eight bytes holding x in two's complement. */
  function EncodeI64(x: I64): (r: seq<Byte>)
    ensures |r| == 8
  {
    Pow256Widths();
    Encode(ToUnsigned64(x), 8)
  }

  /** `i64::from_le_bytes`: the signed value of eight little-endian bytes. */
  function DecodeI64(s: seq<Byte>): (r: I64)
    requires |s| == 8
    ensures EncodeI64(r) == s
  {
    Pow256Widths();
    EncodeDecode(s);
    ToSigned64(Decode(s))
  }

  /** `u64::from_le_bytes`: the value of eight little-endian bytes. */
  function DecodeU64(s: seq<Byte>): (r: U64)
    requires |s| == 8
    ensures Encode(r, 8) == s
  {
    Pow256Widths();
    EncodeDecode(s);
    Decode(s)
  }

  /** `i64::from_le_bytes(i64::to_le_bytes(x)) == x`. */
  lemma DecodeI64EncodeI64(x: I64)
    ensures DecodeI64(EncodeI64(x)) == x
  {
    Pow256Widths();
    DecodeEncode(ToUnsigned64(x), 8);
  }
}
