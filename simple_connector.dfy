/** `SimpleFlowMeterReader` (simple_connector.py): a second minimal reader.
    Its request writes the register count as a single low byte after a zero
    high byte, and a reply passes with at least seven bytes, the right slave
    address and a matching CRC; the payload is handed back raw and decoded by
    the callers. The port is a queue of replies (`inbox`) and a log of
    written frames (`sent`). */
module SimpleConnector {
  import opened Bytes
  import opened Crc16
  import opened Frame
  import opened Decode

  /** The six bytes the request's CRC covers when the count fits in one byte. */
  function ShortBody(slave: byte, register: int, count: byte): (body: seq<byte>)
    ensures |body| == 6 && body[4] == 0 && body[5] == count
  {
    [slave, ReadInputRegisters, HighByte(register), LowByte(register), 0x00, count]
  }

  /** For a count up to 255 the `[0x00, count]` encoding is the high/low split
      every other copy writes, so the request is the same eight bytes. */
  lemma ShortRequestAgrees(slave: byte, register: int, count: byte)
    ensures WithCrc(ShortBody(slave, register, count)) == Request(slave, ReadInputRegisters, register, count)
  {
    assert ShortBody(slave, register, count) == RequestBody(slave, ReadInputRegisters, register, count);
  }

  /** read_register's checks (simple_connector.py:76-91): at least seven
      bytes, the first one the slave address, a matching CRC; then the bytes
      between the header and the CRC. */
  function Checked(response: seq<byte>, slave: byte): (r: Option<seq<byte>>)
    ensures r.Some? <==> |response| >= 7 && response[0] == slave && CrcMatches(response)
    ensures r.Some? ==> |r.value| >= 2 && r.value == Payload(response)
  {
    if |response| < 7 then None
    else if response[0] != slave then None
    else if !CrcMatches(response) then None
    else Some(Payload(response))
  }

  /** A reply the addressed slave frames with at least one register is
      accepted, and its payload is the register bytes. */
  lemma ReplyAccepted(slave: byte, fc: byte, data: seq<byte>)
    requires 2 <= |data| < 256
    ensures Checked(Reply(slave, fc, data), slave) == Some(data)
  {
    ReplyPayload(slave, fc, data);
  }

  /** A reply from any other slave is refused, whatever it carries. */
  lemma OtherSlaveRefused(slave: byte, other: byte, fc: byte, data: seq<byte>)
    requires |data| < 256 && other != slave
    ensures Checked(Reply(other, fc, data), slave) == None
  {
    ReplyPayload(other, fc, data);
  }

  /** `parse_float_inverse` (simple_connector.py:97-105): None for no bytes or
      for any length but four; four bytes are reordered CDAB to ABCD. */
  lemma ParseFloatInverseCases(data: seq<byte>)
    ensures data == [] ==> ParseFloatInverse(data) == None
    ensures |data| == 4 ==> ParseFloatInverse(data) == Some(Float32([data[2], data[3], data[0], data[1]]))
    ensures |data| != 4 ==> ParseFloatInverse(data) == None
  {
  }

  /** `read_instant_flow` (simple_connector.py:107-113) given what
      read_register returned: None for no payload, 0.0 for one that does not
      parse, the float otherwise. */
  function InstantFlow(payload: Option<seq<byte>>): (r: Option<Float32>)
    ensures r.None? <==> payload.None? || payload.value == []
    ensures r.Some? && |payload.value| == 4 ==> ParseFloatInverse(payload.value) == r
    ensures r.Some? && |payload.value| != 4 ==> r == Some(Zero)
  {
    if payload.Some? && payload.value != [] then
      var flow := ParseFloatInverse(payload.value);
      Some(if flow.Some? then flow.value else Zero)
    else None
  }

  /** Every payload read_register returns holds at least two bytes, so
      read_instant_flow returns None only when the read itself failed. */
  lemma InstantFlowOnlyFailsWithRead(response: seq<byte>, slave: byte)
    ensures InstantFlow(Checked(response, slave)).None? <==> Checked(response, slave).None?
  {
  }

  /** A value of the `data` dict of read_all_data. */
  datatype Field = FloatField(value: Option<Float32>) | Code(code: int)

  /** A float key is set when its read returned bytes, possibly to None. */
  function WithFloat(data: map<string, Field>, key: string, payload: Option<seq<byte>>): map<string, Field>
  {
    if payload.Some? && payload.value != [] then data[key := FloatField(ParseFloatInverse(payload.value))] else data
  }

  /** flow_direction is set when its read returned at least two bytes, to
      their big-endian value. */
  function WithDirection(data: map<string, Field>, payload: Option<seq<byte>>): map<string, Field>
  {
    if payload.Some? && payload.value != [] && |payload.value| >= 2 then
      data["flow_direction" := Code(BigEndian16(payload.value[0], payload.value[1]))]
    else data
  }

  /** `read_all_data` (simple_connector.py:115-144) given what the five reads
      returned: instant flow (0x1010), total (0x1012), velocity (0x1014),
      percentage (0x1016) and direction (0x1001, one register). */
  function AllData(flow: Option<seq<byte>>, total: Option<seq<byte>>, velocity: Option<seq<byte>>,
                   percent: Option<seq<byte>>, direction: Option<seq<byte>>): map<string, Field>
  {
    WithDirection(WithFloat(WithFloat(WithFloat(WithFloat(map[], "instant_flow", flow), "total_flow", total),
                                      "flow_velocity", velocity), "flow_percentage", percent), direction)
  }

  /** Each float key is present exactly when its read returned bytes and then
      holds their parse, which may be None; flow_direction is present exactly
      when its read returned at least two bytes and holds their big-endian
      value; no other key appears. */
  lemma AllDataKeys(flow: Option<seq<byte>>, total: Option<seq<byte>>, velocity: Option<seq<byte>>,
                    percent: Option<seq<byte>>, direction: Option<seq<byte>>)
    ensures var d := AllData(flow, total, velocity, percent, direction);
      d.Keys <= {"instant_flow", "total_flow", "flow_velocity", "flow_percentage", "flow_direction"} &&
      ("instant_flow" in d <==> flow.Some? && flow.value != []) &&
      (flow.Some? && flow.value != [] ==> d["instant_flow"] == FloatField(ParseFloatInverse(flow.value))) &&
      ("total_flow" in d <==> total.Some? && total.value != []) &&
      (total.Some? && total.value != [] ==> d["total_flow"] == FloatField(ParseFloatInverse(total.value))) &&
      ("flow_velocity" in d <==> velocity.Some? && velocity.value != []) &&
      (velocity.Some? && velocity.value != [] ==> d["flow_velocity"] == FloatField(ParseFloatInverse(velocity.value))) &&
      ("flow_percentage" in d <==> percent.Some? && percent.value != []) &&
      (percent.Some? && percent.value != [] ==> d["flow_percentage"] == FloatField(ParseFloatInverse(percent.value))) &&
      ("flow_direction" in d <==> direction.Some? && |direction.value| >= 2) &&
      (direction.Some? && |direction.value| >= 2 ==>
        d["flow_direction"] == Code(BigEndian16(direction.value[0], direction.value[1])))
  {
    var d1 := WithFloat(map[], "instant_flow", flow);
    var d2 := WithFloat(d1, "total_flow", total);
    var d3 := WithFloat(d2, "flow_velocity", velocity);
    var d4 := WithFloat(d3, "flow_percentage", percent);
    assert d1.Keys <= {"instant_flow"};
    assert d2.Keys <= {"instant_flow", "total_flow"};
    assert d3.Keys <= {"instant_flow", "total_flow", "flow_velocity"};
    assert d4.Keys <= {"instant_flow", "total_flow", "flow_velocity", "flow_percentage"};
  }

  class SimpleFlowMeterReader {
    var port: string
    var baudrate: nat
    var address: byte
    /** `self.serial` has been opened. */
    var isOpen: bool
    /** The replies the meter will give, oldest first. */
    var inbox: seq<seq<byte>>
    /** Every frame written, oldest first. */
    var sent: seq<seq<byte>>

    /** `__init__` (simple_connector.py:6-10): no port is opened yet. */
    constructor (port: string, baudrate: nat, address: byte, replies: seq<seq<byte>>)
      ensures this.port == port && this.baudrate == baudrate && this.address == address
      ensures !isOpen && inbox == replies && sent == []
    {
      this.port := port;
      this.baudrate := baudrate;
      this.address := address;
      isOpen := false;
      inbox := replies;
      sent := [];
    }

    /** What read_register(register, count) returns when it is the k-th read
        on the queue `inbox0`. */
    ghost function Seen(inbox0: seq<seq<byte>>, k: nat, count: nat): Option<seq<byte>>
      reads this`isOpen, this`address
    {
      if isOpen && count <= 255 then Checked(Prefix(Nth(inbox0, k), 7 + 2 * count), address) else None
    }

    /** The frame read_register(register, count) writes, if any. */
    ghost function Wrote(register: int, count: nat): seq<seq<byte>>
      reads this`isOpen, this`address
    {
      if isOpen && count <= 255 then [Request(address, ReadInputRegisters, register, count)] else []
    }

    /** Whether a read consumes a reply. */
    ghost function Reads(count: nat): bool
      reads this`isOpen
    {
      isOpen && count <= 255
    }

    /** `read_register` (simple_connector.py:51-95). A count above 255 does
        not fit `bytearray` and a port never opened has no `serial`: both
        raise before anything is written, and the exception becomes None. */
    method ReadRegister(register: int, count: nat) returns (data: Option<seq<byte>>)
      modifies this`inbox, this`sent
      ensures data == Seen(old(inbox), 0, count)
      ensures sent == old(sent) + Wrote(register, count)
      ensures inbox == if Reads(count) then Drop(old(inbox), 1) else old(inbox)
    {
      if count > 255 {
        return None;
      }
      var body := ShortBody(address, register, count);
      var crc := CalculateCrcCombined(body);
      var request := body + [LowByte(crc), HighByte(crc)];
      if !isOpen {
        return None;
      }
      assert request == Request(address, ReadInputRegisters, register, count) by {
        ShortRequestAgrees(address, register, count);
      }
      sent := sent + [request];
      var response := Prefix(Nth(inbox, 0), 7 + 2 * count);
      inbox := Drop(inbox, 1);
      ghost var expected := Checked(response, address);
      assert Seen(old(inbox), 0, count) == expected;
      if |response| < 7 {
        return None;
      }
      if response[0] != address {
        return None;
      }
      var n := |response|;
      var crcReceived := Word(response[n - 2], response[n - 1]);
      var crcCalculated := CalculateCrcCombined(response[..n - 2]);
      if crcReceived != crcCalculated {
        assert expected == None;
        return None;
      }
      assert expected == Some(response[3..n - 2]);
      return Some(response[3..n - 2]);
    }

    /** `connect` (simple_connector.py:12-37): `opens` says whether
        `serial.Serial(...)` succeeds; a test read of the instant flow must
        then return bytes. A port that opened stays open even when the test
        read fails. */
    method Connect(opens: bool) returns (ok: bool)
      modifies this`isOpen, this`inbox, this`sent
      ensures !opens ==> !ok && isOpen == old(isOpen) && inbox == old(inbox) && sent == old(sent)
      ensures opens ==> isOpen
      ensures opens ==> (ok <==> Checked(Prefix(Nth(old(inbox), 0), 11), address).Some?)
      ensures opens ==> sent == old(sent) + [Request(address, ReadInputRegisters, 0x1010, 2)]
      ensures opens ==> inbox == Drop(old(inbox), 1)
    {
      if !opens {
        return false;
      }
      isOpen := true;
      var testData := ReadRegister(0x1010, 2);
      ok := testData.Some? && testData.value != [];
    }

    /** `disconnect` (simple_connector.py:146-150). */
    method Disconnect()
      modifies this`isOpen
      ensures !isOpen
    {
      if isOpen {
        isOpen := false;
      }
    }

    /** `read_instant_flow` (simple_connector.py:107-113). */
    method ReadInstantFlow() returns (flow: Option<Float32>)
      modifies this`inbox, this`sent
      ensures flow == InstantFlow(Seen(old(inbox), 0, 2))
      ensures sent == old(sent) + Wrote(0x1010, 2)
      ensures inbox == if isOpen then Drop(old(inbox), 1) else old(inbox)
    {
      var data := ReadRegister(0x1010, 2);
      if data.Some? && data.value != [] {
        var parsed := ParseFloatInverse(data.value);
        return Some(if parsed.Some? then parsed.value else Zero);
      }
      return None;
    }

    /** The five reads of `read_all_data` (simple_connector.py:120-140), in order. */
    method ReadFive() returns (flow: Option<seq<byte>>, total: Option<seq<byte>>, velocity: Option<seq<byte>>,
                               percent: Option<seq<byte>>, direction: Option<seq<byte>>)
      modifies this`inbox, this`sent
      ensures flow == Seen(old(inbox), 0, 2) && total == Seen(old(inbox), 1, 2)
      ensures velocity == Seen(old(inbox), 2, 2) && percent == Seen(old(inbox), 3, 2)
      ensures direction == Seen(old(inbox), 4, 1)
      ensures sent == old(sent) + Wrote(0x1010, 2) + Wrote(0x1012, 2) + Wrote(0x1014, 2)
                                + Wrote(0x1016, 2) + Wrote(0x1001, 1)
      ensures inbox == if isOpen then Drop(old(inbox), 5) else old(inbox)
    {
      ghost var inbox0 := inbox;
      assert Drop(inbox0, 0) == inbox0;
      DropNth(inbox0, 0);
      flow := ReadRegister(0x1010, 2);
      DropNth(inbox0, 1);
      total := ReadRegister(0x1012, 2);
      DropNth(inbox0, 2);
      velocity := ReadRegister(0x1014, 2);
      DropNth(inbox0, 3);
      percent := ReadRegister(0x1016, 2);
      DropNth(inbox0, 4);
      direction := ReadRegister(0x1001, 1);
    }

    /** One `if x_data: data[key] = self.parse_float_inverse(x_data)` statement of
        read_all_data (simple_connector.py:121-137). */
    static method StoreFloat(data0: map<string, Field>, key: string, payload: Option<seq<byte>>)
      returns (data: map<string, Field>)
      ensures data == WithFloat(data0, key, payload)
    {
      data := data0;
      if payload.Some? && payload.value != [] {
        data := data[key := FloatField(ParseFloatInverse(payload.value))];
      }
    }

    /** The `flow_direction` statement of read_all_data (simple_connector.py:139-142). */
    static method StoreDirection(data0: map<string, Field>, payload: Option<seq<byte>>)
      returns (data: map<string, Field>)
      ensures data == WithDirection(data0, payload)
    {
      data := data0;
      if payload.Some? && payload.value != [] && |payload.value| >= 2 {
        data := data["flow_direction" := Code(BigEndian16(payload.value[0], payload.value[1]))];
      }
    }

    /** `read_all_data` (simple_connector.py:115-144). */
    method ReadAllData() returns (data: map<string, Field>)
      modifies this`inbox, this`sent
      ensures data == AllData(Seen(old(inbox), 0, 2), Seen(old(inbox), 1, 2), Seen(old(inbox), 2, 2),
                              Seen(old(inbox), 3, 2), Seen(old(inbox), 4, 1))
      ensures sent == old(sent) + Wrote(0x1010, 2) + Wrote(0x1012, 2) + Wrote(0x1014, 2)
                                + Wrote(0x1016, 2) + Wrote(0x1001, 1)
      ensures inbox == if isOpen then Drop(old(inbox), 5) else old(inbox)
    {
      var flowData, totalData, velocityData, percentData, dirData := ReadFive();
      data := map[];
      data := StoreFloat(data, "instant_flow", flowData);
      data := StoreFloat(data, "total_flow", totalData);
      data := StoreFloat(data, "flow_velocity", velocityData);
      data := StoreFloat(data, "flow_percentage", percentData);
      data := StoreDirection(data, dirData);
    }
  }
}
