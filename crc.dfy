/** CRC16/MODBUS as every copy of `calculate_crc` computes it (connector.py,
    real_time_display.py, simple_reader.py, simple_connector.py): the register
    starts at 0xFFFF, each byte is XORed into it, then eight rounds shift it
    right one bit and XOR 0xA001 in whenever the bit shifted out was set
    (section 6.2.2 of the MODBUS over Serial Line Specification and
    Implementation Guide V1.02). */
module Crc16 {
  import opened Bytes

  const Initial: bv16 := 0xFFFF

  /** One round of the inner `for _ in range(8)` loop. */
  function Round(c: bv16): bv16
  {
    if c & 1 == 1 then (c >> 1) ^ 0xA001 else c >> 1
  }

  function Rounds(c: bv16, n: nat): bv16
    decreases n
  {
    if n == 0 then c else Rounds(Round(c), n - 1)
  }

  /** One pass of the outer loop: `crc ^= byte`, then eight rounds. */
  function Step(c: bv16, b: byte): bv16
  {
    Rounds(c ^ (b as bv16), 8)
  }

  /** The register after feeding `data` into a register holding `c`, first byte first. */
  function CrcFrom(c: bv16, data: seq<byte>): bv16
    decreases data
  {
    if data == [] then c else CrcFrom(Step(c, data[0]), data[1..])
  }

  /** `calculate_crc(data)` as a number. */
  function Crc(data: seq<byte>): int
  {
    CrcFrom(Initial, data) as int
  }

  /** The CRC is a left fold of Step: appending one byte performs one more Step. */
  lemma {:induction false} CrcFromSnoc(c: bv16, data: seq<byte>, b: byte)
    decreases data
    ensures CrcFrom(c, data + [b]) == Step(CrcFrom(c, data), b)
  {
    if data == [] {
      assert [b][1..] == [];
    } else {
      assert (data + [b])[1..] == data[1..] + [b];
      CrcFromSnoc(Step(c, data[0]), data[1..], b);
    }
  }

  /** Feeding two pieces one after the other is feeding their concatenation. */
  lemma {:induction false} CrcFromAppend(c: bv16, a: seq<byte>, b: seq<byte>)
    decreases a
    ensures CrcFrom(c, a + b) == CrcFrom(CrcFrom(c, a), b)
  {
    if a == [] {
      assert a + b == b;
    } else {
      assert (a + b)[0] == a[0] && (a + b)[1..] == a[1..] + b;
      CrcFromAppend(Step(c, a[0]), a[1..], b);
    }
  }

  lemma ShiftKeepsApart(x: bv16, y: bv16)
    requires x != y && x & 1 == y & 1
    ensures x >> 1 != y >> 1
  {
  }

  lemma ShiftXorKeepsApart(x: bv16, y: bv16)
    requires x != y && x & 1 == y & 1
    ensures (x >> 1) ^ 0xA001 != (y >> 1) ^ 0xA001
  {
  }

  lemma XorKeepsApart(x: bv16, y: bv16, k: bv16)
    requires x != y
    ensures x ^ k != y ^ k
  {
  }

  /** The top bit of a round's result is the bit it shifted out, since
      0xA001 has its top bit set and a right shift clears it. */
  lemma RoundTopBit(c: bv16)
    ensures Round(c) & 0x8000 == if c & 1 == 1 then 0x8000 else 0
  {
    assert (c >> 1) & 0x8000 == 0;
  }

  lemma RoundWhenLowBitSet(c: bv16)
    requires c & 1 == 1
    ensures Round(c) == (c >> 1) ^ 0xA001
  {
  }

  /** Two registers with low bit 1: the round shifts both and XORs the same
      constant into both. */
  lemma RoundKeepsApartLowBitSet(x: bv16, y: bv16)
    requires x != y && x & 1 == 1 && y & 1 == 1
    ensures Round(x) != Round(y)
  {
    ShiftXorKeepsApart(x, y);
    RoundWhenLowBitSet(x);
    RoundWhenLowBitSet(y);
  }

  /** Two registers with low bit 0: the round only shifts both. */
  lemma RoundKeepsApartLowBitClear(x: bv16, y: bv16)
    requires x != y && x & 1 == 0 && y & 1 == 0
    ensures Round(x) != Round(y)
  {
    ShiftKeepsApart(x, y);
    assert Round(x) == x >> 1 && Round(y) == y >> 1;
  }

  /** Two registers with different low bits: the results differ in the top bit. */
  lemma RoundKeepsApartOtherLowBit(x: bv16, y: bv16)
    requires x & 1 != y & 1
    ensures Round(x) != Round(y)
  {
    RoundTopBit(x);
    RoundTopBit(y);
  }

  /** A round never maps two registers to the same one. */
  lemma RoundKeepsApart(x: bv16, y: bv16)
    requires x != y
    ensures Round(x) != Round(y)
  {
    if x & 1 == 1 && y & 1 == 1 {
      RoundKeepsApartLowBitSet(x, y);
    } else if x & 1 == 0 && y & 1 == 0 {
      RoundKeepsApartLowBitClear(x, y);
    } else {
      RoundKeepsApartOtherLowBit(x, y);
    }
  }

  lemma {:induction false} RoundsKeepApart(x: bv16, y: bv16, n: nat)
    requires x != y
    decreases n
    ensures Rounds(x, n) != Rounds(y, n)
  {
    if n > 0 {
      RoundKeepsApart(x, y);
      RoundsKeepApart(Round(x), Round(y), n - 1);
    }
  }

  /** Two different registers stay different after absorbing the same byte. */
  lemma StepKeepsApart(c1: bv16, c2: bv16, b: byte)
    requires c1 != c2
    ensures Step(c1, b) != Step(c2, b)
  {
    XorKeepsApart(c1, c2, b as bv16);
    RoundsKeepApart(c1 ^ (b as bv16), c2 ^ (b as bv16), 8);
  }

  lemma Bv16RoundTrip(z: bv16)
    ensures (z as int) as bv16 == z
  {
  }

  /** A byte widened to 16 bits keeps its value. */
  lemma ByteAsBv16(b: byte)
    ensures (b as bv16) as int == b
  {
    assert b % 0x1_0000 == b;
  }

  lemma BytesStayApart(b1: byte, b2: byte)
    requires b1 != b2
    ensures b1 as bv16 != b2 as bv16
  {
    ByteAsBv16(b1);
    ByteAsBv16(b2);
  }

  /** Two different values XORed into one register stay apart through the
      eight rounds. */
  lemma XorRoundsKeepApart(c: bv16, x1: bv16, x2: bv16)
    requires x1 != x2
    ensures Rounds(c ^ x1, 8) != Rounds(c ^ x2, 8)
  {
    XorKeepsApart(x1, x2, c);
    assert c ^ x1 != c ^ x2;
    RoundsKeepApart(c ^ x1, c ^ x2, 8);
  }

  // The next three lemmas keep the byte-to-bit-vector conversion and the
  // eight rounds in separate proof obligations.

  lemma StepUnfolds(c: bv16, b: byte)
    ensures Step(c, b) == Rounds(c ^ (b as bv16), 8)
  {
  }

  lemma RoundsOfSameInput(c: bv16, b: byte, x: bv16, y: bv16)
    requires y == c ^ (b as bv16) && x == b as bv16
    ensures Rounds(y, 8) == Rounds(c ^ x, 8)
  {
  }

  lemma StepOfBits(c: bv16, b: byte, x: bv16)
    requires x == b as bv16
    ensures Step(c, b) == Rounds(c ^ x, 8)
  {
    StepUnfolds(c, b);
    RoundsOfSameInput(c, b, x, c ^ (b as bv16));
  }

  lemma StepsOfBitsApart(c: bv16, b1: byte, b2: byte, x1: bv16, x2: bv16)
    requires x1 == b1 as bv16 && x2 == b2 as bv16 && x1 != x2
    ensures Step(c, b1) != Step(c, b2)
  {
    XorRoundsKeepApart(c, x1, x2);
    StepOfBits(c, b1, x1);
    StepOfBits(c, b2, x2);
  }

  /** One register absorbing two different bytes gives two different registers. */
  lemma StepSeparatesBytes(c: bv16, b1: byte, b2: byte)
    requires b1 != b2
    ensures Step(c, b1) != Step(c, b2)
  {
    BytesStayApart(b1, b2);
    StepsOfBitsApart(c, b1, b2, b1 as bv16, b2 as bv16);
  }

  /** Two different registers stay different whatever data follows. */
  lemma {:induction false} CrcFromKeepsApart(c1: bv16, c2: bv16, data: seq<byte>)
    requires c1 != c2
    decreases data
    ensures CrcFrom(c1, data) != CrcFrom(c2, data)
  {
    if data != [] {
      StepKeepsApart(c1, c2, data[0]);
      CrcFromKeepsApart(Step(c1, data[0]), Step(c2, data[0]), data[1..]);
    }
  }

  /** The CRC detects every error confined to one byte: changing any one byte
      of the data changes its CRC. */
  lemma SingleByteErrorDetected(data: seq<byte>, i: nat, x: byte)
    requires i < |data| && x != data[i]
    ensures Crc(data[i := x]) != Crc(data)
  {
    var pre, post := data[..i], data[i + 1..];
    assert data == pre + ([data[i]] + post);
    assert data[i := x] == pre + ([x] + post);
    CrcFromAppend(Initial, pre, [data[i]] + post);
    CrcFromAppend(Initial, pre, [x] + post);
    var p := CrcFrom(Initial, pre);
    assert ([data[i]] + post)[1..] == post && ([x] + post)[1..] == post;
    assert CrcFrom(p, [data[i]] + post) == CrcFrom(Step(p, data[i]), post);
    assert CrcFrom(p, [x] + post) == CrcFrom(Step(p, x), post);
    StepSeparatesBytes(p, data[i], x);
    CrcFromKeepsApart(Step(p, data[i]), Step(p, x), post);
    var before, after := CrcFrom(Initial, data), CrcFrom(Initial, data[i := x]);
    assert before != after;
    Bv16RoundTrip(before);
    Bv16RoundTrip(after);
  }

  /** The CRC of no bytes is the initial register, and every CRC fits in 16 bits. */
  lemma CrcRange(data: seq<byte>)
    ensures 0 <= Crc(data) <= 0xFFFF
    ensures Crc([]) == 0xFFFF
  {
  }

  /** Python's `crc` is an unbounded integer; the two lemmas below show, on a
      32-bit register, that starting below 2^16 neither `crc ^= byte` nor a round
      (`crc >>= 1; crc ^= 0xA001`) ever leaves 16 bits, so a 16-bit register
      computes the same values. */
  lemma XorStaysIn16Bits(c: bv32, b: byte)
    requires c < 0x1_0000
    ensures c ^ (b as bv32) < 0x1_0000
    ensures (c ^ (b as bv32)) as bv16 == (c as bv16) ^ (b as bv16)
  {
  }

  lemma RoundStaysIn16Bits(c: bv32)
    requires c < 0x1_0000
    ensures (if c & 1 == 1 then (c >> 1) ^ 0xA001 else c >> 1) < 0x1_0000
    ensures (if c & 1 == 1 then (c >> 1) ^ 0xA001 else c >> 1) as bv16 == Round(c as bv16)
  {
  }

  /** The body of `calculate_crc`'s outer loop for one byte: `crc ^= byte`, then the
      inner `for _ in range(8)` loop (connector.py:20-26). */
  method AbsorbByte(crc0: bv16, b: byte) returns (crc: bv16)
    ensures crc == Step(crc0, b)
  {
    crc := crc0 ^ (b as bv16);
    ghost var left: nat := 8;
    for k := 0 to 8
      invariant left == 8 - k
      invariant Rounds(crc, left) == Step(crc0, b)
    {
      left := left - 1;
      if crc & 1 == 1 {
        crc := crc >> 1;
        crc := crc ^ 0xA001;
      } else {
        crc := crc >> 1;
      }
    }
  }

  /** `calculate_crc` (connector.py:16-27; real_time_display.py:40-51 and
      simple_reader.py:32-43 are the same code). The invariant says what is left
      to absorb: the register so far, fed the rest of the data, gives the CRC. */
  method CalculateCrc(data: seq<byte>) returns (crc: int)
    ensures crc == Crc(data)
    ensures 0 <= crc <= 0xFFFF
  {
    var c: bv16 := 0xFFFF;
    for i := 0 to |data|
      invariant CrcFrom(c, data[i..]) == CrcFrom(Initial, data)
    {
      assert data[i..][1..] == data[i + 1..];
      c := AbsorbByte(c, data[i]);
    }
    crc := c as int;
  }

  /** simple_connector.py writes a round as one assignment,
      `crc = (crc >> 1) ^ 0xA001` (simple_connector.py:43-48). */
  method AbsorbByteCombined(crc0: bv16, b: byte) returns (crc: bv16)
    ensures crc == Step(crc0, b)
  {
    crc := crc0 ^ (b as bv16);
    ghost var left: nat := 8;
    for k := 0 to 8
      invariant left == 8 - k
      invariant Rounds(crc, left) == Step(crc0, b)
    {
      left := left - 1;
      if crc & 1 == 1 {
        crc := (crc >> 1) ^ 0xA001;
      } else {
        crc := crc >> 1;
      }
    }
  }

  /** simple_connector.py's `calculate_crc` computes the same CRC as connector.py's
      (simple_connector.py:39-49). */
  method CalculateCrcCombined(data: seq<byte>) returns (crc: int)
    ensures crc == Crc(data)
    ensures 0 <= crc <= 0xFFFF
  {
    var c: bv16 := 0xFFFF;
    for i := 0 to |data|
      invariant CrcFrom(c, data[i..]) == CrcFrom(Initial, data)
    {
      assert data[i..][1..] == data[i + 1..];
      c := AbsorbByteCombined(c, data[i]);
    }
    crc := c as int;
  }

  /** Step written out as its eight rounds. */
  lemma StepUnrolled(c: bv16, b: byte)
    ensures Step(c, b) == Round(Round(Round(Round(Round(Round(Round(Round(c ^ (b as bv16)))))))))
  {
    var x := c ^ (b as bv16);
    assert Rounds(x, 8) == Rounds(Round(x), 7) == Rounds(Round(Round(x)), 6);
    assert Rounds(Round(Round(x)), 6) == Rounds(Round(Round(Round(x))), 5);
    assert Rounds(Round(Round(Round(x))), 5) == Rounds(Round(Round(Round(Round(x)))), 4);
    assert Rounds(Round(Round(Round(Round(x)))), 4) == Rounds(Round(Round(Round(Round(Round(x))))), 3);
    assert Rounds(Round(Round(Round(Round(Round(x))))), 3) == Rounds(Round(Round(Round(Round(Round(Round(x)))))), 2);
  }

  // The fixed request bodies that connection.py:25-29 sends, with their CRCs.

  /** Slave 1, read two input registers at 0x1010 (instantaneous flow). */
  lemma InstantFlowRequestCrc()
    ensures Crc([0x01, 0x04, 0x10, 0x10, 0x00, 0x02]) == 0xCE74
  {
    var d: seq<byte> := [0x01, 0x04, 0x10, 0x10, 0x00, 0x02];
    assert d[1..][1..][1..][1..][1..][1..] == [];
    StepUnrolled(0xFFFF, 0x01);
    assert Step(0xFFFF, 0x01) == 0x807E;
    StepUnrolled(0x807E, 0x04);
    assert Step(0x807E, 0x04) == 0xE301;
    StepUnrolled(0xE301, 0x10);
    assert Step(0xE301, 0x10) == 0x0C23;
    StepUnrolled(0x0C23, 0x10);
    assert Step(0x0C23, 0x10) == 0x154C;
    StepUnrolled(0x154C, 0x00);
    assert Step(0x154C, 0x00) == 0xF514;
    StepUnrolled(0xF514, 0x02);
    assert Step(0xF514, 0x02) == 0xCE74;
  }

  /** Slave 1, read two input registers at 0x1012 (total flow). */
  lemma TotalFlowRequestCrc()
    ensures Crc([0x01, 0x04, 0x10, 0x12, 0x00, 0x02]) == 0x0ED5
  {
    var d: seq<byte> := [0x01, 0x04, 0x10, 0x12, 0x00, 0x02];
    assert d[1..][1..][1..][1..][1..][1..] == [];
    StepUnrolled(0xFFFF, 0x01);
    assert Step(0xFFFF, 0x01) == 0x807E;
    StepUnrolled(0x807E, 0x04);
    assert Step(0x807E, 0x04) == 0xE301;
    StepUnrolled(0xE301, 0x10);
    assert Step(0xE301, 0x10) == 0x0C23;
    StepUnrolled(0x0C23, 0x12);
    assert Step(0x0C23, 0x12) == 0xD4CD;
    StepUnrolled(0xD4CD, 0x00);
    assert Step(0xD4CD, 0x00) == 0x9515;
    StepUnrolled(0x9515, 0x02);
    assert Step(0x9515, 0x02) == 0x0ED5;
  }

  /** Slave 1, read one input register at 0x1001 (flow direction). */
  lemma DirectionRequestCrc()
    ensures Crc([0x01, 0x04, 0x10, 0x01, 0x00, 0x01]) == 0xCA64
  {
    var d: seq<byte> := [0x01, 0x04, 0x10, 0x01, 0x00, 0x01];
    assert d[1..][1..][1..][1..][1..][1..] == [];
    StepUnrolled(0xFFFF, 0x01);
    assert Step(0xFFFF, 0x01) == 0x807E;
    StepUnrolled(0x807E, 0x04);
    assert Step(0x807E, 0x04) == 0xE301;
    StepUnrolled(0xE301, 0x10);
    assert Step(0xE301, 0x10) == 0x0C23;
    StepUnrolled(0x0C23, 0x01);
    assert Step(0x0C23, 0x01) == 0x198C;
    StepUnrolled(0x198C, 0x00);
    assert Step(0x198C, 0x00) == 0xA518;
    StepUnrolled(0xA518, 0x01);
    assert Step(0xA518, 0x01) == 0xCA64;
  }
}
