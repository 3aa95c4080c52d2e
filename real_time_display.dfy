/** `FlowMeterDisplay` (real_time_display.py): the stand-alone console
    display. It reads with function 0x04 only and checks replies its own way:
    a float needs exactly nine bytes and a matching CRC, a ushort exactly
    seven bytes and no CRC check at all. As in the connector, the port is
    replaced by a queue of replies (`inbox`) and a log of written frames
    (`sent`). */
module RealTimeDisplay {
  import opened Bytes
  import opened Crc16
  import opened Frame
  import opened Decode

  /** The float check of `read_float_register` (real_time_display.py:74-86):
      exactly nine bytes whose CRC matches; the value is bytes 3..6 reordered
      CDAB to ABCD. */
  function FloatReply(response: seq<byte>): (r: Option<Float32>)
    ensures r.Some? <==> |response| == 9 && CrcMatches(response)
  {
    if |response| == 9 && CrcMatches(response) then
      Some(Float32([response[5], response[6], response[3], response[4]]))
    else None
  }

  /** The ushort check of `read_ushort_register` (real_time_display.py:112-114):
      exactly seven bytes; the CRC bytes are never looked at. */
  function UShortReply(response: seq<byte>): (r: Option<int>)
    ensures r.Some? <==> |response| == 7
    ensures r.Some? ==> 0 <= r.value < 0x1_0000
  {
    if |response| == 7 then Some(BigEndian16(response[3], response[4])) else None
  }

  /** A nine-byte reply is read as the float the connector's
      parse_float_inverse makes of the payload, and accepted exactly when
      the connector's check accepts it. */
  lemma FloatReplyAgreesWithConnector(response: seq<byte>)
    requires |response| == 9
    ensures FloatReply(response).Some? <==> |response| >= 5 && CrcMatches(response)
    ensures FloatReply(response).Some? ==> FloatReply(response) == ParseFloatInverse(Payload(response))
  {
  }

  /** A float the meter sends in a nine-byte reply that passes the CRC
      check is read back unchanged. */
  lemma FloatReplyRoundTrip(response: seq<byte>, f: Float32)
    requires |response| == 9 && CrcMatches(response)
    requires Payload(response) == EncodeFloatInverse(f)
    ensures FloatReply(response) == Some(f)
  {
    FloatInverseRoundTrip(f);
  }

  /** The ushort value does not depend on the two CRC bytes. */
  lemma UShortIgnoresCrc(response: seq<byte>, lo: byte, hi: byte)
    requires |response| == 7
    ensures UShortReply(response[..5] + [lo, hi]) == UShortReply(response)
  {
  }

  /** A reply corrupted only in its two CRC bytes fails the check the
      connector applies, yet read_ushort_register returns the same value as
      for the intact reply. */
  lemma CorruptedUShortAccepted(response: seq<byte>, corrupted: seq<byte>)
    requires |response| == 7 && CrcMatches(response)
    requires |corrupted| == 7 && corrupted[..5] == response[..5] && corrupted[5..] != response[5..]
    ensures !CrcMatches(corrupted)
    ensures UShortReply(corrupted) == UShortReply(response)
  {
    assert corrupted[3] == corrupted[..5][3] && corrupted[4] == corrupted[..5][4];
    assert response[3] == response[..5][3] && response[4] == response[..5][4];
    assert corrupted[5..] == [corrupted[5], corrupted[6]];
    assert response[5..] == [response[5], response[6]];
    if CrcMatches(corrupted) {
      WordInjective(corrupted[5], corrupted[6], response[5], response[6]);
    }
  }

  /** The `data` dict of `get_flow_data`: always exactly these eight keys. */
  datatype FlowData = FlowData(
    flow: Float32,
    total: Float32,
    velocity: Float32,
    direction: string,
    directionSymbol: string,
    percentage: Float32,
    alarm: int,
    hasAlarm: bool)

  /** A missing float reads as 0.0. */
  function OrZero(value: Option<Float32>): Float32
  {
    if value.Some? then value.value else Zero
  }

  /** The direction code's name and symbol (real_time_display.py:147-160). */
  function Direction(code: Option<int>): (string, string)
  {
    match code
    case None => ("unknown", "?")
    case Some(d) =>
      if d == 0 then ("forward", "→")
      else if d == 1 then ("reverse", "←")
      else ("stopped", "●")
  }

  /** `get_flow_data` (real_time_display.py:121-178) given what the six reads
      returned: flow, total, velocity, direction, percentage and alarm. */
  function FlowDataOf(flow: Option<Float32>, total: Option<Float32>, velocity: Option<Float32>,
                      direction: Option<int>, percentage: Option<Float32>, alarm: Option<int>): FlowData
  {
    var (name, symbol) := Direction(direction);
    FlowData(OrZero(flow), OrZero(total), OrZero(velocity), name, symbol, OrZero(percentage),
             if alarm.Some? then alarm.value else 0,
             alarm.Some? && alarm.value > 0)
  }

  /** Direction 0 is forward, 1 reverse, any other code stopped, and a
      failed read unknown. */
  lemma DirectionRules(code: Option<int>)
    ensures code == Some(0) ==> Direction(code) == ("forward", "→")
    ensures code == Some(1) ==> Direction(code) == ("reverse", "←")
    ensures code.Some? && code.value != 0 && code.value != 1 ==> Direction(code) == ("stopped", "●")
    ensures code.None? ==> Direction(code) == ("unknown", "?")
  {
  }

  /** has_alarm holds exactly when an alarm word was read and is positive; a
      failed read gives alarm 0 and no alarm. */
  lemma AlarmRules(flow: Option<Float32>, total: Option<Float32>, velocity: Option<Float32>,
                   direction: Option<int>, percentage: Option<Float32>, alarm: Option<int>)
    ensures var d := FlowDataOf(flow, total, velocity, direction, percentage, alarm);
      (d.hasAlarm <==> alarm.Some? && alarm.value > 0) &&
      (alarm.None? ==> d.alarm == 0 && !d.hasAlarm) &&
      (alarm.Some? ==> d.alarm == alarm.value)
  {
  }

  /** With every read failed, each float is 0.0, the direction unknown and no alarm. */
  lemma AllReadsFailed()
    ensures FlowDataOf(None, None, None, None, None, None) ==
      FlowData(Zero, Zero, Zero, "unknown", "?", Zero, 0, false)
  {
  }

/** The reply the k-th read of get_flow_data sees, truncated to the
      `length` bytes it asks for; nothing when the port is closed. */
  function Seen(inbox0: seq<seq<byte>>, open: bool, k: nat, length: nat): seq<byte>
  {
    Prefix(if open then Nth(inbox0, k) else [], length)
  }

  /** What get_flow_data returns when the six reads see the first six
      replies of `inbox0` (none when the port is closed). */
  function FlowDataRead(inbox0: seq<seq<byte>>, open: bool): FlowData
  {
    FlowDataOf(FloatReply(Seen(inbox0, open, 0, 9)), FloatReply(Seen(inbox0, open, 1, 9)),
               FloatReply(Seen(inbox0, open, 2, 9)), UShortReply(Seen(inbox0, open, 3, 7)),
               FloatReply(Seen(inbox0, open, 4, 9)), UShortReply(Seen(inbox0, open, 5, 7)))
  }

  /** The request get_flow_data writes for `register`, counting `count`
      registers; nothing when the port is closed. */
  function Sent(slave: byte, open: bool, register: int, count: nat): seq<seq<byte>>
  {
    if open then [Request(slave, ReadInputRegisters, register, count)] else []
  }

    class FlowMeterDisplay {
    var port: string
    var address: byte
    var baudrate: nat
    /** `self.serial` has been opened. */
    var isOpen: bool
    var connected: bool
    /** The replies the meter will give, oldest first. */
    var inbox: seq<seq<byte>>
    /** Every frame written, oldest first. */
    var sent: seq<seq<byte>>

    /** `__init__` (real_time_display.py:9-14): COM4, slave 1, 9600 baud, no port open. */
    constructor (replies: seq<seq<byte>>)
      ensures port == "COM4" && address == 1 && baudrate == 9600
      ensures !isOpen && !connected && inbox == replies && sent == []
    {
      port := "COM4";
      address := 1;
      baudrate := 9600;
      isOpen := false;
      connected := false;
      inbox := replies;
      sent := [];
    }

    /** `connect` (real_time_display.py:23-38); `opens` says whether
        `serial.Serial(...)` succeeds. A failure changes nothing. */
    method Connect(opens: bool) returns (ok: bool)
      modifies this`isOpen, this`connected
      ensures ok == opens
      ensures opens ==> isOpen && connected
      ensures !opens ==> isOpen == old(isOpen) && connected == old(connected)
    {
      if !opens {
        return false;
      }
      isOpen := true;
      connected := true;
      ok := true;
    }

    /** The request both read methods build and write, and the `length`
        bytes read back. A port never opened (`self.serial` is None) raises
        before anything is written, and the methods return None. */
    method Transact(register: int, count: nat, length: nat) returns (response: Option<seq<byte>>)
      modifies this`inbox, this`sent
      ensures response == if isOpen then Some(Prefix(Nth(old(inbox), 0), length)) else None
      ensures sent == old(sent) + (if isOpen then [Request(address, ReadInputRegisters, register, count)] else [])
      ensures inbox == if isOpen then Drop(old(inbox), 1) else old(inbox)
    {
      var request := BuildRequest(address, ReadInputRegisters, register, count);
      if !isOpen {
        return None;
      }
      sent := sent + [request];
      response := Some(Prefix(Nth(inbox, 0), length));
      inbox := Drop(inbox, 1);
    }

    /** `read_float_register` (real_time_display.py:53-91). */
    method ReadFloatRegister(register: int) returns (value: Option<Float32>)
      modifies this`inbox, this`sent
      ensures value == FloatReply(Prefix(if isOpen then Nth(old(inbox), 0) else [], 9))
      ensures sent == old(sent) + (if isOpen then [Request(address, ReadInputRegisters, register, 2)] else [])
      ensures inbox == if isOpen then Drop(old(inbox), 1) else old(inbox)
    {
      var response := Transact(register, 2, 9);
      if response.None? {
        return None;
      }
      var bytes := response.value;
      if |bytes| == 9 {
        var crcReceived := Word(bytes[7], bytes[8]);
        var crcCalculated := CalculateCrc(bytes[..7]);
        if crcReceived == crcCalculated {
          var data := bytes[3..7];
          return Some(Float32([data[2], data[3], data[0], data[1]]));
        }
      }
      return None;
    }

    /** `read_ushort_register` (real_time_display.py:93-119). */
    method ReadUShortRegister(register: int) returns (value: Option<int>)
      modifies this`inbox, this`sent
      ensures value == UShortReply(Prefix(if isOpen then Nth(old(inbox), 0) else [], 7))
      ensures sent == old(sent) + (if isOpen then [Request(address, ReadInputRegisters, register, 1)] else [])
      ensures inbox == if isOpen then Drop(old(inbox), 1) else old(inbox)
    {
      var response := Transact(register, 1, 7);
      if response.None? {
        return None;
      }
      var bytes := response.value;
      if |bytes| == 7 {
        var data := bytes[3..5];
        return Some(BigEndian16(data[0], data[1]));
      }
      return None;
    }

    /** The first three reads of `get_flow_data` (real_time_display.py:124-126):
        flow, total and velocity. */
    method ReadFlows() returns (flow: Option<Float32>, total: Option<Float32>, velocity: Option<Float32>)
      modifies this`inbox, this`sent
      ensures flow == FloatReply(Seen(old(inbox), isOpen, 0, 9))
      ensures total == FloatReply(Seen(old(inbox), isOpen, 1, 9))
      ensures velocity == FloatReply(Seen(old(inbox), isOpen, 2, 9))
      ensures sent == old(sent) + Sent(address, isOpen, 0x1010, 2) + Sent(address, isOpen, 0x1012, 2)
                                + Sent(address, isOpen, 0x1014, 2)
      ensures inbox == if isOpen then Drop(old(inbox), 3) else old(inbox)
    {
      ghost var inbox0 := inbox;
      assert Drop(inbox0, 0) == inbox0;
      DropNth(inbox0, 0);
      flow := ReadFloatRegister(0x1010);
      DropNth(inbox0, 1);
      total := ReadFloatRegister(0x1012);
      DropNth(inbox0, 2);
      velocity := ReadFloatRegister(0x1014);
    }

    /** The last three reads of `get_flow_data` (real_time_display.py:127-129):
        direction, percentage and alarm. */
    method ReadStatus() returns (direction: Option<int>, percentage: Option<Float32>, alarm: Option<int>)
      modifies this`inbox, this`sent
      ensures direction == UShortReply(Seen(old(inbox), isOpen, 0, 7))
      ensures percentage == FloatReply(Seen(old(inbox), isOpen, 1, 9))
      ensures alarm == UShortReply(Seen(old(inbox), isOpen, 2, 7))
      ensures sent == old(sent) + Sent(address, isOpen, 0x1016, 1) + Sent(address, isOpen, 0x1018, 2)
                                + Sent(address, isOpen, 0x1020, 1)
      ensures inbox == if isOpen then Drop(old(inbox), 3) else old(inbox)
    {
      ghost var inbox0 := inbox;
      assert Drop(inbox0, 0) == inbox0;
      DropNth(inbox0, 0);
      direction := ReadUShortRegister(0x1016);
      DropNth(inbox0, 1);
      percentage := ReadFloatRegister(0x1018);
      DropNth(inbox0, 2);
      alarm := ReadUShortRegister(0x1020);
    }

    /** The six reads of `get_flow_data` (real_time_display.py:124-129), in order. */
    method ReadSix() returns (flow: Option<Float32>, total: Option<Float32>, velocity: Option<Float32>,
                              direction: Option<int>, percentage: Option<Float32>, alarm: Option<int>)
      modifies this`inbox, this`sent
      ensures flow == FloatReply(Seen(old(inbox), isOpen, 0, 9))
      ensures total == FloatReply(Seen(old(inbox), isOpen, 1, 9))
      ensures velocity == FloatReply(Seen(old(inbox), isOpen, 2, 9))
      ensures direction == UShortReply(Seen(old(inbox), isOpen, 3, 7))
      ensures percentage == FloatReply(Seen(old(inbox), isOpen, 4, 9))
      ensures alarm == UShortReply(Seen(old(inbox), isOpen, 5, 7))
      ensures sent == old(sent) + Sent(address, isOpen, 0x1010, 2) + Sent(address, isOpen, 0x1012, 2)
                                + Sent(address, isOpen, 0x1014, 2) + Sent(address, isOpen, 0x1016, 1)
                                + Sent(address, isOpen, 0x1018, 2) + Sent(address, isOpen, 0x1020, 1)
      ensures inbox == if isOpen then Drop(old(inbox), 6) else old(inbox)
    {
      ghost var inbox0 := inbox;
      flow, total, velocity := ReadFlows();
      direction, percentage, alarm := ReadStatus();
      DropDrop(inbox0, 3, 3);
      NthDrop(inbox0, 3, 0);
      NthDrop(inbox0, 3, 1);
      NthDrop(inbox0, 3, 2);
    }

    /** The direction branch of get_flow_data (real_time_display.py:147-160). */
    static method DirectionName(direction: Option<int>) returns (name: string, symbol: string)
      ensures (name, symbol) == Direction(direction)
    {
      if direction.Some? {
        if direction.value == 0 {
          name, symbol := "forward", "→";
        } else if direction.value == 1 {
          name, symbol := "reverse", "←";
        } else {
          name, symbol := "stopped", "●";
        }
      } else {
        name, symbol := "unknown", "?";
      }
    }

    /** The dict get_flow_data builds from the six readings
        (real_time_display.py:130-176). */
    static method ToFlowData(flow: Option<Float32>, total: Option<Float32>, velocity: Option<Float32>,
                             direction: Option<int>, percentage: Option<Float32>, alarm: Option<int>)
      returns (data: FlowData)
      ensures data == FlowDataOf(flow, total, velocity, direction, percentage, alarm)
    {
      var name, symbol := DirectionName(direction);
      var alarmValue, hasAlarm := 0, false;
      if alarm.Some? {
        alarmValue, hasAlarm := alarm.value, alarm.value > 0;
      }
      data := FlowData(OrZero(flow), OrZero(total), OrZero(velocity), name, symbol, OrZero(percentage),
                       alarmValue, hasAlarm);
    }

    /** `get_flow_data` (real_time_display.py:121-178): six reads in a fixed
        order, then the mapping FlowDataOf. */
    method GetFlowData() returns (data: FlowData)
      modifies this`inbox, this`sent
      ensures data == FlowDataRead(old(inbox), isOpen)
      ensures sent == old(sent) + Sent(address, isOpen, 0x1010, 2) + Sent(address, isOpen, 0x1012, 2)
                                + Sent(address, isOpen, 0x1014, 2) + Sent(address, isOpen, 0x1016, 1)
                                + Sent(address, isOpen, 0x1018, 2) + Sent(address, isOpen, 0x1020, 1)
      ensures inbox == if isOpen then Drop(old(inbox), 6) else old(inbox)
    {
      var flow, total, velocity, direction, percentage, alarm := ReadSix();
      data := ToFlowData(flow, total, velocity, direction, percentage, alarm);
      assert FlowDataRead(old(inbox), isOpen) == FlowDataOf(flow, total, velocity, direction, percentage, alarm);
    }
  }
}
