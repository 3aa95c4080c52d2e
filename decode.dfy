/** Decoding of the values the meter returns: 32-bit values arrive as two
    16-bit registers with the low word first ("CDAB"), so both parsers first
    swap the words back into big-endian order ("ABCD"). The float itself
    (`struct.unpack('>f', ...)`) is not interpreted: a Float32 is its four
    big-endian bytes. */
module Decode {
  import opened Bytes

  /** Four bytes: the payload of a two-register read. */
  type Quad = s: seq<byte> | |s| == 4 witness [0, 0, 0, 0]

  /** The reorder `[b[2], b[3], b[0], b[1]]` of both parsers (connector.py:218-219, 228-229). */
  function WordSwap(b: Quad): Quad
  {
    [b[2], b[3], b[0], b[1]]
  }

  /** Swapping the words twice restores the bytes, so the same reorder also
      turns a big-endian value back into what the meter sends. */
  lemma WordSwapInvolution(b: Quad)
    ensures WordSwap(WordSwap(b)) == b
  {
  }

  /** An IEEE-754 single precision value, held as its big-endian bytes. */
  datatype Float32 = Float32(bigEndian: Quad)

  /** 0.0, whose bytes are all zero. */
  const Zero: Float32 := Float32([0, 0, 0, 0])

  /** `parse_float_inverse`: None unless given exactly four bytes. */
  function ParseFloatInverse(data: seq<byte>): (r: Option<Float32>)
    ensures r.Some? <==> |data| == 4
  {
    if |data| != 4 then None else Some(Float32(WordSwap(data)))
  }

  /** The bytes a meter sends for a float: its low word first. */
  function EncodeFloatInverse(f: Float32): Quad
  {
    WordSwap(f.bigEndian)
  }

  /** Parsing what the meter sends for a float gives that float back. */
  lemma FloatInverseRoundTrip(f: Float32)
    ensures ParseFloatInverse(EncodeFloatInverse(f)) == Some(f)
  {
    WordSwapInvolution(f.bigEndian);
  }

  /** Whatever parses as a float is exactly the encoding of that float, so
      no two payloads give the same float. */
  lemma FloatInverseExact(data: seq<byte>, f: Float32)
    requires ParseFloatInverse(data) == Some(f)
    ensures EncodeFloatInverse(f) == data
  {
    WordSwapInvolution(data);
  }

  /** The unsigned big-endian value of four bytes. */
  function BigEndian32(b: Quad): (n: int)
    ensures 0 <= n < 0x1_0000_0000
  {
    BigEndian16(b[0], b[1]) * 0x1_0000 + BigEndian16(b[2], b[3])
  }

  /** The four big-endian bytes of an unsigned 32-bit value. */
  function BytesOf32(u: int): Quad
    requires 0 <= u < 0x1_0000_0000
  {
    var hi := u / 0x1_0000;
    var lo := u % 0x1_0000;
    [HighByte(hi), LowByte(hi), HighByte(lo), LowByte(lo)]
  }

  lemma BigEndian32OfBytes(u: int)
    requires 0 <= u < 0x1_0000_0000
    ensures BigEndian32(BytesOf32(u)) == u
  {
    var hi := u / 0x1_0000;
    var lo := u % 0x1_0000;
    var b := BytesOf32(u);
    assert b[0] == HighByte(hi) && b[1] == LowByte(hi) && b[2] == HighByte(lo) && b[3] == LowByte(lo);
    WordSplit(hi);
    WordSplit(lo);
  }

  /** Euclidean division by 2^16 of `h * 2^16 + l`, with l below 2^16. */
  lemma DivMod16Bits(h: int, l: int)
    requires 0 <= l < 0x1_0000
    ensures (h * 0x1_0000 + l) / 0x1_0000 == h
    ensures (h * 0x1_0000 + l) % 0x1_0000 == l
  {
    var n := h * 0x1_0000 + l;
    var q := n / 0x1_0000;
    var r := n % 0x1_0000;
    assert (q - h) * 0x1_0000 == l - r;
  }

  lemma BytesOfBigEndian32(b: Quad)
    ensures BytesOf32(BigEndian32(b)) == b
  {
    var n := BigEndian32(b);
    var r := BytesOf32(n);
    assert r == [HighByte(n / 0x1_0000), LowByte(n / 0x1_0000), HighByte(n % 0x1_0000), LowByte(n % 0x1_0000)];
    var h := BigEndian16(b[0], b[1]);
    var l := BigEndian16(b[2], b[3]);
    DivMod16Bits(h, l);
    JoinSplit(b[0], b[1]);
    JoinSplit(b[2], b[3]);
    assert r[0] == b[0] && r[1] == b[1] && r[2] == b[2] && r[3] == b[3];
  }

  /** `struct.unpack('>l', ...)`: the two's-complement reading of an unsigned 32-bit value. */
  function ToInt32(u: int): (v: int)
    requires 0 <= u < 0x1_0000_0000
    ensures -0x8000_0000 <= v < 0x8000_0000
    ensures v % 0x1_0000_0000 == u
  {
    if u < 0x8000_0000 then u else u - 0x1_0000_0000
  }

  /** `parse_long_inverse`: None unless given exactly four bytes; otherwise a
      signed 32-bit value. */
  function ParseLongInverse(data: seq<byte>): (r: Option<int>)
    ensures r.Some? <==> |data| == 4
    ensures r.Some? ==> -0x8000_0000 <= r.value < 0x8000_0000
  {
    if |data| != 4 then None else Some(ToInt32(BigEndian32(WordSwap(data))))
  }

  /** The bytes a meter sends for a signed 32-bit value, low word first. */
  function EncodeLongInverse(v: int): Quad
    requires -0x8000_0000 <= v < 0x8000_0000
  {
    WordSwap(BytesOf32(v % 0x1_0000_0000))
  }

  /** Parsing what the meter sends for a long gives that long back. */
  lemma LongInverseRoundTrip(v: int)
    requires -0x8000_0000 <= v < 0x8000_0000
    ensures ParseLongInverse(EncodeLongInverse(v)) == Some(v)
  {
    var u := v % 0x1_0000_0000;
    assert u == if v >= 0 then v else v + 0x1_0000_0000;
    WordSwapInvolution(BytesOf32(u));
    BigEndian32OfBytes(u);
  }

  /** Every four-byte payload is the encoding of the long it parses to. */
  lemma LongInverseExact(data: seq<byte>)
    requires |data| == 4
    ensures EncodeLongInverse(ParseLongInverse(data).value) == data
  {
    var u := BigEndian32(WordSwap(data));
    BytesOfBigEndian32(WordSwap(data));
    WordSwapInvolution(data);
  }
}
