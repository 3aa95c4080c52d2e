/** The RTU frames the connector copies exchange with the meter: a read
    request (function 0x03 Read Holding Registers or 0x04 Read Input
    Registers, sections 6.3 and 6.4 of the MODBUS Application Protocol
    Specification V1.1b3) and the CRC check on a reply. Every copy appends the
    CRC low byte first and checks it the same way. */
module Frame {
  import opened Bytes
  import opened Crc16

  const ReadHoldingRegisters: byte := 0x03
  const ReadInputRegisters: byte := 0x04

  /** The six bytes a read request's CRC covers: slave address, function
      code, start address high/low, register count high/low. */
  function RequestBody(slave: byte, fc: byte, address: int, count: int): (body: seq<byte>)
    ensures |body| == 6
  {
    [slave, fc, HighByte(address), LowByte(address), HighByte(count), LowByte(count)]
  }

  /** `body` followed by its CRC, low byte first (`crc & 0xFF`, then `(crc >> 8) & 0xFF`). */
  function WithCrc(body: seq<byte>): (frame: seq<byte>)
    ensures |frame| == |body| + 2
    ensures frame[..|body|] == body
  {
    var crc := Crc(body);
    body + [LowByte(crc), HighByte(crc)]
  }

  /** The eight-byte request every copy writes. */
  function Request(slave: byte, fc: byte, address: int, count: int): seq<byte>
  {
    WithCrc(RequestBody(slave, fc, address, count))
  }

  /** Building a request as every copy does: the six header bytes in a
      bytearray, then `crc & 0xFF` and `(crc >> 8) & 0xFF` appended
      (connector.py:114-126, real_time_display.py:57-66, simple_reader.py:49-61). */
  method BuildRequest(slave: byte, fc: byte, address: int, count: int) returns (request: seq<byte>)
    ensures request == Request(slave, fc, address, count)
  {
    request := [slave, fc, HighByte(address), LowByte(address), HighByte(count), LowByte(count)];
    assert request == RequestBody(slave, fc, address, count);
    var crc := CalculateCrc(request);
    request := request + [LowByte(crc)];
    request := request + [HighByte(crc)];
  }

  /** The reply check: the last two bytes, read as `frame[-2] | (frame[-1] << 8)`,
      equal the CRC of everything before them. */
  predicate CrcMatches(frame: seq<byte>)
  {
    |frame| >= 2 && Word(frame[|frame| - 2], frame[|frame| - 1]) == Crc(frame[..|frame| - 2])
  }

  /** `response[3:-2]`: what follows slave, function code and byte count, minus the CRC. */
  function Payload(frame: seq<byte>): seq<byte>
    requires |frame| >= 5
  {
    frame[3..|frame| - 2]
  }

  /** A request is eight bytes: the six header bytes, then the CRC of those
      six, low byte first. */
  lemma RequestLayout(slave: byte, fc: byte, address: int, count: int)
    ensures var r := Request(slave, fc, address, count);
      |r| == 8 && r[..6] == RequestBody(slave, fc, address, count) &&
      r[0] == slave && r[1] == fc &&
      BigEndian16(r[2], r[3]) == address % 0x1_0000 &&
      BigEndian16(r[4], r[5]) == count % 0x1_0000 &&
      Word(r[6], r[7]) == Crc(r[..6])
  {
    var body := RequestBody(slave, fc, address, count);
    var r := Request(slave, fc, address, count);
    assert r[..6] == body;
    assert r[2] == HighByte(address) && r[3] == LowByte(address);
    assert r[4] == HighByte(count) && r[5] == LowByte(count);
    WithCrcPasses(body);
    SplitKeepsLow16(address);
    SplitKeepsLow16(count);
  }

  /** Appending a body's CRC produces a frame that passes the reply check. */
  lemma {:induction false} WithCrcPasses(body: seq<byte>)
    ensures CrcMatches(WithCrc(body))
  {
    var f := WithCrc(body);
    CrcRange(body);
    WordSplit(Crc(body));
    assert f[..|f| - 2] == body;
  }

  lemma CrcMatchesIff(frame: seq<byte>)
    requires |frame| >= 2
    ensures CrcMatches(frame) <==> frame == WithCrc(frame[..|frame| - 2])
  {
    var n := |frame|;
    var body := frame[..n - 2];
    assert frame == body + [frame[n - 2], frame[n - 1]];
    if CrcMatches(frame) {
      var crc := Crc(body);
      CrcRange(body);
      WordSplit(crc);
      WordInjective(frame[n - 2], frame[n - 1], LowByte(crc), HighByte(crc));
    }
    if frame == WithCrc(body) {
      WithCrcPasses(body);
    }
  }

  /** Every request passes the reply check: the CRC a sender appends is the
      one a receiver recomputes (connector.py:124-126 against 141-144). */
  lemma RequestPassesCrc(slave: byte, fc: byte, address: int, count: int)
    ensures CrcMatches(Request(slave, fc, address, count))
  {
    WithCrcPasses(RequestBody(slave, fc, address, count));
  }

  /** A device's reply to a read: slave address, function code, byte count,
      the register bytes, then the CRC. */
  function Reply(slave: byte, fc: byte, data: seq<byte>): seq<byte>
    requires |data| < 256
  {
    WithCrc([slave, fc, |data|] + data)
  }

  /** A well-formed reply passes the CRC check and its payload is exactly the
      register bytes the device framed. */
  lemma ReplyPayload(slave: byte, fc: byte, data: seq<byte>)
    requires |data| < 256
    ensures |Reply(slave, fc, data)| == |data| + 5
    ensures Reply(slave, fc, data)[0] == slave
    ensures CrcMatches(Reply(slave, fc, data))
    ensures Payload(Reply(slave, fc, data)) == data
  {
    var body := [slave, fc, |data|] + data;
    WithCrcPasses(body);
    assert WithCrc(body)[..|body|] == body;
  }

  /** A reply that passed the CRC check fails it once one of the bytes the
      CRC covers is changed. */
  lemma BodyByteErrorDetected(frame: seq<byte>, i: nat, x: byte)
    requires CrcMatches(frame)
    requires i < |frame| - 2 && x != frame[i]
    ensures !CrcMatches(frame[i := x])
  {
    var n := |frame|;
    var bad := frame[i := x];
    assert Word(bad[n - 2], bad[n - 1]) != Crc(bad[..n - 2]) by {
      var body := frame[..n - 2];
      assert bad[..n - 2] == body[i := x];
      SingleByteErrorDetected(body, i, x);
      assert bad[n - 2] == frame[n - 2] && bad[n - 1] == frame[n - 1];
    }
  }

  /** A reply that passed the CRC check fails it once one of its two CRC
      bytes is changed. */
  lemma CrcByteErrorDetected(frame: seq<byte>, i: nat, x: byte)
    requires CrcMatches(frame)
    requires |frame| - 2 <= i < |frame| && x != frame[i]
    ensures !CrcMatches(frame[i := x])
  {
    var n := |frame|;
    var bad := frame[i := x];
    assert bad[..n - 2] == frame[..n - 2];
    if Word(bad[n - 2], bad[n - 1]) == Word(frame[n - 2], frame[n - 1]) {
      WordInjective(bad[n - 2], bad[n - 1], frame[n - 2], frame[n - 1]);
    }
  }

  /** A reply that passed the CRC check fails it once any one of its bytes is
      changed. */
  lemma FrameByteErrorDetected(frame: seq<byte>, i: nat, x: byte)
    requires CrcMatches(frame)
    requires i < |frame| && x != frame[i]
    ensures !CrcMatches(frame[i := x])
  {
    if i < |frame| - 2 {
      BodyByteErrorDetected(frame, i, x);
    } else {
      CrcByteErrorDetected(frame, i, x);
    }
  }

  /** The values of the eight bits of a byte, least significant first. */
  const BitValues: seq<int> := [1, 2, 4, 8, 16, 32, 64, 128]

  /** Byte `b` with bit `k` (0 the least significant) inverted: the bit's
      value is subtracted when the bit is set and added when it is clear. */
  function FlipBit(b: byte, k: nat): (r: byte)
    requires k < 8
    ensures r != b
    ensures r == b + BitValues[k] || r == b - BitValues[k]
  {
    var m := BitValues[k];
    if (b / m) % 2 == 1 then b - m else b + m
  }

  /** The CRC check catches every single-bit transmission error in a reply. */
  lemma SingleBitFlipDetected(frame: seq<byte>, i: nat, k: nat)
    requires CrcMatches(frame)
    requires i < |frame| && k < 8
    ensures !CrcMatches(frame[i := FlipBit(frame[i], k)])
  {
    FrameByteErrorDetected(frame, i, FlipBit(frame[i], k));
  }
}
