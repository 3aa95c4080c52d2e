/** `ModbusRTUConnector` (connector.py): the MODBUS RTU master the dashboard
    uses. The serial port is replaced by two sequences: `inbox` holds the
    replies the meter will give, one per request written (an empty inbox is a
    read that times out and returns no bytes), and `sent` records every frame
    written. Time is an abstract clock in microseconds. */
module Connector {
  import opened Bytes
  import opened Crc16
  import opened Frame
  import opened Decode
  import opened Config

  /** `_ensure_delay`'s minimum gap between requests, 0.0035 s, in microseconds. */
  const MinDelay: nat := 3500

  /** The clock after `_ensure_delay`: if less than MinDelay has passed since
      the last request, it sleeps for the rest of it. */
  function Delayed(now: int, lastRequest: int): (t: int)
    ensures t >= now && t >= lastRequest + MinDelay
    ensures t == now || t == lastRequest + MinDelay
  {
    if now - lastRequest < MinDelay then lastRequest + MinDelay else now
  }

  /** The bytes the next `read` returns before truncation: the first queued
      reply, or none at all when the meter stays silent. */
  function Next(inbox: seq<seq<byte>>): seq<byte>
  {
    if inbox == [] then [] else inbox[0]
  }

  /** The queue after one reply has been consumed. */
  function Rest(inbox: seq<seq<byte>>): seq<seq<byte>>
  {
    if inbox == [] then [] else inbox[1..]
  }

  /** `5 + 2 * count + 2`, the number of bytes a read asks the port for. */
  function ReplyLength(count: nat): nat
  {
    7 + 2 * count
  }

  /** What `read_holding_register` returns when it does not return None: an
      integer for one register, otherwise the payload bytes. */
  datatype Reading = Single(value: int) | Registers(data: seq<byte>)

  /** `read_holding_register`'s decision on the bytes the port returned
      (connector.py:137-160). With count 1 a payload shorter than two bytes
      makes `data_bytes[1]` raise IndexError, which the method turns into None. */
  function HoldingReply(response: seq<byte>, count: int): (r: Option<Reading>)
    ensures r.Some? && count == 1 ==> r.value.Single? && 0 <= r.value.value < 0x1_0000
    ensures r.Some? && count != 1 ==> r.value.Registers? && |r.value.data| == |response| - 5
  {
    if |response| < 5 then None
    else if !CrcMatches(response) then None
    else
      var data := Payload(response);
      if count == 1 then
        if |data| < 2 then None else Some(Single(BigEndian16(data[0], data[1])))
      else Some(Registers(data))
  }

  /** `read_input_register`'s decision on the bytes the port returned
      (connector.py:195-206). */
  function InputReply(response: seq<byte>): (r: Option<seq<byte>>)
    ensures r.Some? ==> |r.value| == |response| - 5
  {
    if |response| < 5 then None
    else if !CrcMatches(response) then None
    else Some(Payload(response))
  }

  /** A holding-register read is accepted exactly when the reply has at least
      five bytes and a matching CRC and, for a single register, at least the
      two data bytes; so a CRC-valid five-byte frame read as one register gives None. */
  lemma HoldingReplyAccepts(response: seq<byte>, count: int)
    ensures HoldingReply(response, count).Some? <==>
      |response| >= 5 && CrcMatches(response) && (count == 1 ==> |response| >= 7)
  {
  }

  /** Where the reply passes its checks, a holding read of one register is the
      big-endian value of the first two payload bytes and any other read is
      the payload itself. */
  lemma HoldingReplyValue(response: seq<byte>, count: int)
    requires HoldingReply(response, count).Some?
    ensures count == 1 ==> HoldingReply(response, count) == Some(Single(BigEndian16(response[3], response[4])))
    ensures count != 1 ==> HoldingReply(response, count) == Some(Registers(response[3..|response| - 2]))
  {
  }

  /** Both read methods apply the same checks and, except for a single
      holding register, return the same bytes. */
  lemma HoldingAgreesWithInput(response: seq<byte>, count: int)
    requires count != 1
    ensures HoldingReply(response, count).None? <==> InputReply(response).None?
    ensures InputReply(response).Some? ==> HoldingReply(response, count) == Some(Registers(InputReply(response).value))
  {
  }

  /** A full-length frame that passes the CRC check is accepted by both
      read methods, which return its payload. */
  lemma AcceptedFrame(frame: seq<byte>, data: seq<byte>, count: nat)
    requires 1 <= count && |data| == 2 * count
    requires |frame| == |data| + 5 && CrcMatches(frame) && Payload(frame) == data
    ensures var response := Prefix(frame, ReplyLength(count));
      InputReply(response) == Some(data) &&
      HoldingReply(response, count) ==
        Some(if count == 1 then Single(BigEndian16(data[0], data[1])) else Registers(data))
  {
    assert Prefix(frame, ReplyLength(count)) == frame;
  }

  /** A complete, well-formed reply from the meter to a read of `count`
      registers comes back as exactly the register bytes it carried. */
  lemma DeviceReplyAccepted(slave: byte, fc: byte, data: seq<byte>, count: nat)
    requires 1 <= count && |data| == 2 * count && |data| < 256
    ensures var response := Prefix(Reply(slave, fc, data), ReplyLength(count));
      InputReply(response) == Some(data) &&
      HoldingReply(response, count) ==
        Some(if count == 1 then Single(BigEndian16(data[0], data[1])) else Registers(data))
  {
    ReplyPayload(slave, fc, data);
    AcceptedFrame(Reply(slave, fc, data), data, count);
  }

  /** `read_parameter`'s value: a ushort register's integer, a payload
      returned unparsed, a float, or decoded text. */
  datatype ParamValue = Number(n: int) | Raw(data: seq<byte>) | FloatValue(f: Float32) | Text(s: string)

  /** `config.get('length', 8)`. */
  function StringLength(spec: RegisterSpec): nat
  {
    if spec.length.Some? then spec.length.value else 8
  }

  /** How many registers `read_parameter` reads for a descriptor, or None when
      its format makes it return None without a request (connector.py:242-257). */
  function RequestCount(spec: RegisterSpec): (c: Option<nat>)
    ensures c.Some? <==> spec.format in {FloatInverse, UShort, AsciiString}
  {
    match spec.format
    case FloatInverse => Some(2)
    case UShort => Some(1)
    case AsciiString => Some((StringLength(spec) + 1) / 2)
    case _ => None
  }

  /** A 'string' parameter reads `(length + 1) // 2` registers: just enough
      for `length` bytes, with at most one byte to spare. */
  lemma StringRegisterCount(spec: RegisterSpec)
    requires spec.format == AsciiString
    ensures 2 * RequestCount(spec).value >= StringLength(spec)
    ensures 2 * RequestCount(spec).value <= StringLength(spec) + 1
    ensures spec.length.None? ==> RequestCount(spec) == Some(4)
  {
  }

  /** `bytes.decode('ascii', errors='ignore')`: bytes above 127 are dropped. */
  function AsciiDecode(data: seq<byte>): (s: string)
    ensures |s| <= |data|
    ensures forall i :: 0 <= i < |s| ==> s[i] as int < 128
    ensures (forall i :: 0 <= i < |data| ==> data[i] < 128) ==>
              |s| == |data| && forall i :: 0 <= i < |data| ==> s[i] == data[i] as char
    ensures (exists i :: 0 <= i < |data| && data[i] >= 128) ==> |s| < |data|
  {
    if data == [] then []
    else (if data[0] < 128 then [data[0] as char] else []) + AsciiDecode(data[1..])
  }

  /** Decoding works byte by byte: decoding two pieces and joining the text
      is decoding the joined bytes. */
  lemma {:induction false} AsciiDecodeAppend(a: seq<byte>, b: seq<byte>)
    ensures AsciiDecode(a + b) == AsciiDecode(a) + AsciiDecode(b)
  {
    if a != [] {
      assert (a + b)[0] == a[0] && (a + b)[1..] == a[1..] + b;
      AsciiDecodeAppend(a[1..], b);
      var head: string := if a[0] < 128 then [a[0] as char] else [];
      calc {
        AsciiDecode(a + b);
        head + AsciiDecode(a[1..] + b);
        head + (AsciiDecode(a[1..]) + AsciiDecode(b));
        (head + AsciiDecode(a[1..])) + AsciiDecode(b);
      }
    } else {
      assert a + b == b;
    }
  }

  /** `s.lstrip('\x00')`. */
  function DropLeadingNul(s: string): (r: string)
    ensures |r| <= |s| && r == s[|s| - |r|..]
    ensures r == [] || r[0] != '\0'
    ensures forall i :: 0 <= i < |s| - |r| ==> s[i] == '\0'
  {
    if s != [] && s[0] == '\0' then DropLeadingNul(s[1..]) else s
  }

  /** `s.rstrip('\x00')`. */
  function DropTrailingNul(s: string): (r: string)
    ensures |r| <= |s| && r == s[..|r|]
    ensures r == [] || r[|r| - 1] != '\0'
    ensures forall i :: |r| <= i < |s| ==> s[i] == '\0'
  {
    if s != [] && s[|s| - 1] == '\0' then DropTrailingNul(s[..|s| - 1]) else s
  }

  /** `data.decode('ascii', errors='ignore').strip('\x00')`. */
  function AsciiText(data: seq<byte>): string
  {
    DropTrailingNul(DropLeadingNul(AsciiDecode(data)))
  }

  /** Python truthiness of what `read_holding_register` returned: None, empty
      bytes and the integer 0 are false. */
  predicate Truthy(reading: Option<Reading>)
  {
    match reading
    case None => false
    case Some(Single(n)) => n != 0
    case Some(Registers(d)) => d != []
  }

  /** `parse_float_inverse(data)` on what `read_holding_register` returned; an
      integer has no `len`, so it raises TypeError. */
  function FloatResult(reading: Reading): Outcome<Option<ParamValue>>
  {
    match reading
    case Registers(d) =>
      var f := ParseFloatInverse(d);
      Returned(if f.Some? then Some(FloatValue(f.value)) else None)
    case Single(_) => Raised("TypeError")
  }

  /** `data.decode('ascii', errors='ignore').strip('\x00')` on what
      `read_holding_register` returned; an integer has no `decode`, so it
      raises AttributeError. */
  function TextResult(reading: Reading): Outcome<Option<ParamValue>>
  {
    match reading
    case Registers(d) => Returned(Some(Text(AsciiText(d))))
    case Single(_) => Raised("AttributeError")
  }

  /** A reading returned as is, as the ushort branch does. */
  function AsValue(reading: Reading): ParamValue
  {
    match reading
    case Single(n) => Number(n)
    case Registers(d) => Raw(d)
  }

  /** `read_parameter`'s result for a format, given what
      `read_holding_register` returned (connector.py:242-257). Floats and
      strings are decoded only when that result is truthy; nothing in
      read_parameter catches what decoding raises. */
  function ParameterOf(format: Format, reading: Option<Reading>): Outcome<Option<ParamValue>>
  {
    match format
    case FloatInverse => if Truthy(reading) then FloatResult(reading.value) else Returned(None)
    case UShort => Returned(if reading.None? then None else Some(AsValue(reading.value)))
    case AsciiString => if Truthy(reading) then TextResult(reading.value) else Returned(None)
    case _ => Returned(None)
  }

  /** What `read_holding_register` returns given whether the port is open and
      what the meter will answer; a closed or missing port makes the write
      raise, which the method turns into None. */
  function HoldingRead(open: bool, inbox: seq<seq<byte>>, count: nat): Option<Reading>
  {
    if open then HoldingReply(Prefix(Next(inbox), ReplyLength(count)), count) else None
  }

  /** A float the meter sends in a reply that passes the checks comes back
      from read_parameter unchanged. */
  lemma FloatParameterRoundTrip(f: Float32, inbox: seq<seq<byte>>)
    requires inbox != [] && |inbox[0]| == 9 && CrcMatches(inbox[0])
    requires Payload(inbox[0]) == EncodeFloatInverse(f)
    ensures ParameterOf(FloatInverse, HoldingRead(true, inbox, 2)) == Returned(Some(FloatValue(f)))
  {
    var data := EncodeFloatInverse(f);
    assert Prefix(Next(inbox), ReplyLength(2)) == inbox[0];
    assert ParameterOf(FloatInverse, Some(Registers(data))) == Returned(Some(FloatValue(f))) by {
      FloatInverseRoundTrip(f);
    }
  }

  /** A 16-bit value the meter sends in a reply that passes the checks comes
      back from read_parameter unchanged. */
  lemma UShortParameterRoundTrip(v: int, inbox: seq<seq<byte>>)
    requires 0 <= v < 0x1_0000
    requires inbox != [] && |inbox[0]| == 7 && CrcMatches(inbox[0])
    requires Payload(inbox[0]) == [HighByte(v), LowByte(v)]
    ensures ParameterOf(UShort, HoldingRead(true, inbox, 1)) == Returned(Some(Number(v)))
  {
    assert Prefix(Next(inbox), ReplyLength(1)) == inbox[0];
    WordSplit(v);
  }

  /** `read_parameter` for a descriptor, given whether the port is open and
      what the meter will answer. */
  function ParameterResult(spec: RegisterSpec, open: bool, inbox: seq<seq<byte>>): Outcome<Option<ParamValue>>
  {
    match RequestCount(spec)
    case None => Returned(None)
    case Some(c) => ParameterOf(spec.format, HoldingRead(open, inbox, c))
  }

  /** The replies left after `read_parameter` for a descriptor. */
  function InboxAfter(spec: RegisterSpec, open: bool, inbox: seq<seq<byte>>): seq<seq<byte>>
  {
    if open && RequestCount(spec).Some? then Rest(inbox) else inbox
  }

  /** The frames `read_parameter` writes for a descriptor. */
  function FramesFor(spec: RegisterSpec, slave: byte, open: bool): seq<seq<byte>>
  {
    if open && RequestCount(spec).Some? then [Request(slave, ReadHoldingRegisters, spec.address, RequestCount(spec).value)] else []
  }

  /** The state of a `read_all_parameters` sweep: the dict so far (or the
      exception that ended it), the replies left, and the frames written. */
  datatype Sweep = Sweep(result: Outcome<map<string, ParamValue>>, inbox: seq<seq<byte>>, frames: seq<seq<byte>>)

  /** `read_all_parameters` over `entries` (connector.py:259-268): each
      parameter is read in order, kept only when it is not None, and an
      exception from read_parameter ends the sweep. */
  function SweepOf(entries: seq<Entry>, slave: byte, open: bool, inbox: seq<seq<byte>>): Sweep
    decreases |entries|
  {
    if entries == [] then Sweep(Returned(map[]), inbox, [])
    else NextSweep(SweepOf(entries[..|entries| - 1], slave, open, inbox), entries[|entries| - 1], slave, open)
  }

  /** One iteration of the sweep: read the entry's parameter unless an
      earlier read has raised. */
  function NextSweep(prev: Sweep, entry: Entry, slave: byte, open: bool): Sweep
  {
    if prev.result.Raised? then prev
    else
      var (name, spec) := entry;
      var inbox' := InboxAfter(spec, open, prev.inbox);
      var frames' := prev.frames + FramesFor(spec, slave, open);
      match ParameterResult(spec, open, prev.inbox)
      case Raised(e) => Sweep(Raised(e), inbox', frames')
      case Returned(v) =>
        Sweep(Returned(if v.Some? then prev.result.value[name := v.value] else prev.result.value), inbox', frames')
  }

  /** The dict holds only names from the table. */
  lemma {:induction false} SweepKeys(entries: seq<Entry>, slave: byte, open: bool, inbox: seq<seq<byte>>)
    decreases |entries|
    ensures SweepOf(entries, slave, open, inbox).result.Returned? ==>
      SweepOf(entries, slave, open, inbox).result.value.Keys <= Names(entries)
  {
    if entries != [] {
      var init := entries[..|entries| - 1];
      SweepKeys(init, slave, open, inbox);
      assert Names(init) <= Names(entries) by {
        forall n | n in Names(init) ensures n in Names(entries) {
          var i :| 0 <= i < |init| && init[i].0 == n;
          assert entries[i].0 == n;
        }
      }
    }
  }

  /** Once read_parameter has raised, the rest of the table is not read. */
  lemma {:induction false} SweepStaysRaised(entries: seq<Entry>, k: nat, slave: byte, open: bool, inbox: seq<seq<byte>>)
    requires k <= |entries|
    requires SweepOf(entries[..k], slave, open, inbox).result.Raised?
    decreases |entries| - k
    ensures SweepOf(entries, slave, open, inbox) == SweepOf(entries[..k], slave, open, inbox)
  {
    if k < |entries| {
      assert entries[..k + 1][..k] == entries[..k];
      SweepStaysRaised(entries, k + 1, slave, open, inbox);
    } else {
      assert entries[..k] == entries;
    }
  }

  /** With no open port every read returns None: the sweep writes nothing,
      consumes nothing and, for a table of floats and ushorts, returns an
      empty dict. */
  lemma {:induction false} SweepClosed(entries: seq<Entry>, slave: byte, inbox: seq<seq<byte>>)
    requires forall i :: 0 <= i < |entries| ==> entries[i].1.format in {FloatInverse, UShort}
    decreases |entries|
    ensures SweepOf(entries, slave, false, inbox) == Sweep(Returned(map[]), inbox, [])
  {
    if entries != [] {
      SweepClosed(entries[..|entries| - 1], slave, inbox);
    }
  }

  /** On a table of floats and ushorts (as REGISTER_MAP is) the sweep never
      raises, and on an open port it writes one request per entry. */
  lemma {:induction false} SweepOfFloatsAndShorts(entries: seq<Entry>, slave: byte, open: bool, inbox: seq<seq<byte>>)
    requires forall i :: 0 <= i < |entries| ==> entries[i].1.format in {FloatInverse, UShort}
    decreases |entries|
    ensures SweepOf(entries, slave, open, inbox).result.Returned?
    ensures |SweepOf(entries, slave, open, inbox).frames| == if open then |entries| else 0
  {
    if entries != [] {
      SweepOfFloatsAndShorts(entries[..|entries| - 1], slave, open, inbox);
    }
  }

  /** In a table with distinct names, looking up an entry's own name finds that entry. */
  lemma LookupEntry(t: seq<Entry>, i: nat)
    requires DistinctNames(t) && i < |t|
    ensures Lookup(t, t[i].0) == Some(t[i].1)
  {
    var r := Lookup(t, t[i].0);
    assert r.Some?;
    var j :| 0 <= j < |t| && t[j] == (t[i].0, r.value);
  }

  /** A serial port as `comports()` lists it. */
  datatype PortInfo = PortInfo(device: string, description: string)

  const AdapterKeywords: seq<string> := ["USB", "RS485", "SERIAL", "CH340", "FTDI", "CP210"]

  /** Whether any of `keywords` occurs in `text`. */
  predicate AnyOccurs(keywords: seq<string>, text: string)
  {
    keywords != [] && (Contains(text, keywords[0]) || AnyOccurs(keywords[1..], text))
  }

  /** A port whose upper-cased description names a common RS-485 adapter. */
  predicate IsAdapter(p: PortInfo)
  {
    AnyOccurs(AdapterKeywords, Upper(p.description))
  }

  /** The index of the first adapter in `ports`, if any. */
  function FirstAdapter(ports: seq<PortInfo>): (r: Option<nat>)
    ensures r.Some? ==> r.value < |ports| && IsAdapter(ports[r.value])
    ensures r.Some? ==> forall j :: 0 <= j < r.value ==> !IsAdapter(ports[j])
    ensures r.None? ==> forall j :: 0 <= j < |ports| ==> !IsAdapter(ports[j])
  {
    if ports == [] then None
    else if IsAdapter(ports[0]) then Some(0)
    else
      var r := FirstAdapter(ports[1..]);
      if r.Some? then Some(r.value + 1) else None
  }

  /** The port `connect(port)` goes on to open, or None when no port is
      configured and `comports()` lists none (connector.py:43-63). */
  function SelectPort(configured: string, port: string, ports: seq<PortInfo>): Option<string>
  {
    var chosen := if port != "" then port else configured;
    if chosen != "" then Some(chosen)
    else if ports == [] then None
    else
      var found := FirstAdapter(ports);
      var detected := if found.Some? then ports[found.value].device else "";
      Some(if detected != "" then detected else ports[0].device)
  }

  /** Auto-detection happens only when no port is given or configured; it
      fails only on an empty port list; otherwise it takes the first adapter
      (FirstAdapter), or the first port when no description names an adapter
      or the adapter found has an empty device name. */
  lemma SelectPortRules(configured: string, port: string, ports: seq<PortInfo>)
    ensures port != "" ==> SelectPort(configured, port, ports) == Some(port)
    ensures port == "" && configured != "" ==> SelectPort(configured, port, ports) == Some(configured)
    ensures SelectPort(configured, port, ports).None? <==> port == "" && configured == "" && ports == []
    ensures port == "" && configured == "" && ports != [] ==>
      SelectPort(configured, port, ports) ==
        if FirstAdapter(ports).Some? && ports[FirstAdapter(ports).value].device != ""
        then Some(ports[FirstAdapter(ports).value].device)
        else Some(ports[0].device)
  {
  }

  class ModbusRtuConnector {
    /** `self.config`; only `port` changes, in `connect`. */
    var config: LinkConfig
    /** REGISTER_MAP, the table `read_parameter` consults. */
    const registers: seq<Entry>
    /** `self.serial` is an open port (false for None or a closed port). */
    var isOpen: bool
    var connected: bool
    /** `self.last_request`: when the last request was written. */
    var lastRequest: int
    /** The clock `time.time()` reads. */
    var now: int
    /** The replies the meter will give, oldest first. */
    var inbox: seq<seq<byte>>
    /** Every frame written, oldest first. */
    var sent: seq<seq<byte>>
    /** When each frame in `sent` was written. */
    ghost var sentAt: seq<int>

    /** Requests go out at least MinDelay apart, the last at `lastRequest`. */
    ghost predicate Valid()
      reads this`sent, this`sentAt, this`lastRequest
    {
      DistinctNames(registers) &&
      |sentAt| == |sent| &&
      (forall i :: 0 < i < |sentAt| ==> sentAt[i - 1] + MinDelay <= sentAt[i]) &&
      (|sentAt| > 0 ==> sentAt[|sentAt| - 1] == lastRequest)
    }

    /** `__init__`: no port open, not connected, no request yet. */
    constructor (config: LinkConfig, registers: seq<Entry>, clock: int, replies: seq<seq<byte>>)
      requires DistinctNames(registers)
      ensures Valid()
      ensures this.config == config && this.registers == registers
      ensures !isOpen && !connected && lastRequest == 0 && now == clock
      ensures inbox == replies && sent == []
    {
      this.config := config;
      this.registers := registers;
      isOpen := false;
      connected := false;
      lastRequest := 0;
      now := clock;
      inbox := replies;
      sent := [];
      sentAt := [];
    }

    /** The state after one request/reply exchange, from the state before it:
        on an open port the request is written once the delay has passed and
        one reply is consumed; on a closed port nothing is written. */
    ghost predicate Exchanged(fc: byte, address: int, count: nat, open0: bool, inbox0: seq<seq<byte>>,
                              sent0: seq<seq<byte>>, sentAt0: seq<int>, lastRequest0: int, now0: int)
      reads this
    {
      now == Delayed(now0, lastRequest0) &&
      if open0 then
        inbox == Rest(inbox0) && sent == sent0 + [Request(config.deviceAddress, fc, address, count)] &&
        sentAt == sentAt0 + [now] && lastRequest == now
      else
        inbox == inbox0 && sent == sent0 && sentAt == sentAt0 && lastRequest == lastRequest0
    }

    /** `_ensure_delay` (connector.py:101-106). */
    method EnsureDelay()
      modifies this`now
      ensures now == Delayed(old(now), lastRequest)
      ensures now - lastRequest >= MinDelay
    {
      var elapsed := now - lastRequest;
      if elapsed < MinDelay {
        now := now + (MinDelay - elapsed);
      }
    }

    /** `serial.write(request)` followed by `self.last_request = time.time()`. */
    method Write(request: seq<byte>)
      requires Valid()
      requires now >= lastRequest + MinDelay
      modifies this`sent, this`sentAt, this`lastRequest
      ensures Valid()
      ensures sent == old(sent) + [request] && sentAt == old(sentAt) + [now] && lastRequest == now
    {
      sent := sent + [request];
      sentAt := sentAt + [now];
      lastRequest := now;
    }

    /** The part both read methods share: wait, build the request, write it
        and read `5 + 2 * count + 2` bytes. None stands for the exception a
        missing or closed port raises. */
    method Exchange(fc: byte, address: int, count: nat) returns (response: Option<seq<byte>>)
      requires Valid()
      modifies this
      ensures Valid()
      ensures config == old(config) && isOpen == old(isOpen) && connected == old(connected)
      ensures Exchanged(fc, address, count, old(isOpen), old(inbox), old(sent), old(sentAt), old(lastRequest), old(now))
      ensures response == if old(isOpen) then Some(Prefix(Next(old(inbox)), ReplyLength(count))) else None
    {
      EnsureDelay();
      var request := BuildRequest(config.deviceAddress, fc, address, count);
      if !isOpen {
        return None;
      }
      Write(request);
      var reply := Next(inbox);
      inbox := Rest(inbox);
      response := Some(Prefix(reply, 5 + 2 * count + 2));
    }

    /** `read_holding_register` (connector.py:108-164), function 0x03. */
    method ReadHoldingRegister(address: int, count: nat) returns (r: Option<Reading>)
      requires Valid()
      modifies this
      ensures Valid()
      ensures config == old(config) && isOpen == old(isOpen) && connected == old(connected)
      ensures Exchanged(ReadHoldingRegisters, address, count, old(isOpen), old(inbox), old(sent), old(sentAt), old(lastRequest), old(now))
      ensures r == HoldingRead(old(isOpen), old(inbox), count)
    {
      var response := Exchange(ReadHoldingRegisters, address, count);
      if response.None? {
        return None;
      }
      var bytes := response.value;
      assert HoldingRead(old(isOpen), old(inbox), count) == HoldingReply(bytes, count);
      if |bytes| < 5 {
        return None;
      }
      var receivedCrc := Word(bytes[|bytes| - 2], bytes[|bytes| - 1]);
      var calculatedCrc := CalculateCrc(bytes[..|bytes| - 2]);
      assert receivedCrc == calculatedCrc <==> CrcMatches(bytes);
      if receivedCrc != calculatedCrc {
        return None;
      }
      var data := bytes[3..|bytes| - 2];
      if count == 1 {
        if |data| < 2 {
          return None;
        }
        r := Some(Single(BigEndian16(data[0], data[1])));
      } else {
        r := Some(Registers(data));
      }
    }

    /** `read_input_register` (connector.py:166-210), function 0x04. */
    method ReadInputRegister(address: int, count: nat) returns (r: Option<seq<byte>>)
      requires Valid()
      modifies this
      ensures Valid()
      ensures config == old(config) && isOpen == old(isOpen) && connected == old(connected)
      ensures Exchanged(ReadInputRegisters, address, count, old(isOpen), old(inbox), old(sent), old(sentAt), old(lastRequest), old(now))
      ensures r == if old(isOpen) then InputReply(Prefix(Next(old(inbox)), ReplyLength(count))) else None
    {
      var response := Exchange(ReadInputRegisters, address, count);
      if response.None? {
        return None;
      }
      var bytes := response.value;
      if |bytes| < 5 {
        return None;
      }
      var receivedCrc := Word(bytes[|bytes| - 2], bytes[|bytes| - 1]);
      var calculatedCrc := CalculateCrc(bytes[..|bytes| - 2]);
      assert receivedCrc == calculatedCrc <==> CrcMatches(bytes);
      if receivedCrc != calculatedCrc {
        return None;
      }
      r := Some(bytes[3..|bytes| - 2]);
    }

    /** `test_connection` (connector.py:92-99): the device answers a read of
        the one register at 0x1000. */
    method TestConnection() returns (ok: bool)
      requires Valid()
      modifies this
      ensures Valid()
      ensures config == old(config) && isOpen == old(isOpen) && connected == old(connected)
      ensures Exchanged(ReadHoldingRegisters, 0x1000, 1, old(isOpen), old(inbox), old(sent), old(sentAt), old(lastRequest), old(now))
      ensures ok <==> HoldingRead(old(isOpen), old(inbox), 1).Some?
    {
      var response := ReadHoldingRegister(0x1000, 1);
      ok := response.Some?;
    }

    /** The state after read_parameter for `spec`, from the state before. */
    ghost predicate Polled(spec: RegisterSpec, open0: bool, inbox0: seq<seq<byte>>, sent0: seq<seq<byte>>,
                           lastRequest0: int, now0: int)
      reads this
    {
      inbox == InboxAfter(spec, open0, inbox0) &&
      sent == sent0 + FramesFor(spec, config.deviceAddress, open0) &&
      now == (if RequestCount(spec).Some? then Delayed(now0, lastRequest0) else now0)
    }

    /** The body of `read_parameter` once the descriptor is found
        (connector.py:238-257): the format decides how many registers are
        read and how they are decoded. */
    method ReadDescribed(spec: RegisterSpec) returns (r: Outcome<Option<ParamValue>>)
      requires Valid()
      modifies this
      ensures Valid()
      ensures config == old(config) && isOpen == old(isOpen) && connected == old(connected)
      ensures r == ParameterResult(spec, old(isOpen), old(inbox))
      ensures Polled(spec, old(isOpen), old(inbox), old(sent), old(lastRequest), old(now))
    {
      match spec.format
      case FloatInverse =>
        assert RequestCount(spec) == Some(2);
        var data := ReadHoldingRegister(spec.address, 2);
        assert ParameterResult(spec, old(isOpen), old(inbox)) == ParameterOf(FloatInverse, data);
        assert FramesFor(spec, config.deviceAddress, old(isOpen)) == if old(isOpen) then [Request(config.deviceAddress, ReadHoldingRegisters, spec.address, 2)] else [];
        if Truthy(data) {
          return FloatResult(data.value);
        }
        return Returned(None);
      case UShort =>
        assert RequestCount(spec) == Some(1);
        var data := ReadHoldingRegister(spec.address, 1);
        assert ParameterResult(spec, old(isOpen), old(inbox)) == ParameterOf(UShort, data);
        assert FramesFor(spec, config.deviceAddress, old(isOpen)) == if old(isOpen) then [Request(config.deviceAddress, ReadHoldingRegisters, spec.address, 1)] else [];
        return Returned(if data.None? then None else Some(AsValue(data.value)));
      case AsciiString =>
        var length := StringLength(spec);
        var count := (length + 1) / 2;
        assert RequestCount(spec) == Some(count);
        var data := ReadHoldingRegister(spec.address, count);
        assert ParameterResult(spec, old(isOpen), old(inbox)) == ParameterOf(AsciiString, data);
        if Truthy(data) {
          return TextResult(data.value);
        }
        return Returned(None);
      case _ =>
        assert RequestCount(spec) == None;
        return Returned(None);
    }

    /** `read_parameter` (connector.py:233-257). A name missing from the
        table gives None without touching the port. */
    method ReadParameter(name: string) returns (r: Outcome<Option<ParamValue>>)
      requires Valid()
      modifies this
      ensures Valid()
      ensures config == old(config) && isOpen == old(isOpen) && connected == old(connected)
      ensures Lookup(registers, name).None? ==>
        r == Returned(None) && inbox == old(inbox) && sent == old(sent) && now == old(now)
      ensures Lookup(registers, name).Some? ==>
        r == ParameterResult(Lookup(registers, name).value, old(isOpen), old(inbox)) &&
        Polled(Lookup(registers, name).value, old(isOpen), old(inbox), old(sent), old(lastRequest), old(now))
    {
      var found := Lookup(registers, name);
      if found.None? {
        return Returned(None);
      }
      r := ReadDescribed(found.value);
    }

    /** `read_all_parameters` (connector.py:259-268), proved against SweepOf. */
    method ReadAllParameters() returns (r: Outcome<map<string, ParamValue>>)
      requires Valid()
      modifies this
      ensures Valid()
      ensures config == old(config) && isOpen == old(isOpen) && connected == old(connected)
      ensures var s := SweepOf(registers, config.deviceAddress, old(isOpen), old(inbox));
        r == s.result && inbox == s.inbox && sent == old(sent) + s.frames
      ensures now >= old(now)
    {
      var results: map<string, ParamValue> := map[];
      ghost var frames: seq<seq<byte>> := [];
      ghost var slave := config.deviceAddress;
      ghost var open := isOpen;
      for i := 0 to |registers|
        invariant Valid()
        invariant config == old(config) && isOpen == open && connected == old(connected)
        invariant SweepOf(registers[..i], slave, open, old(inbox)) == Sweep(Returned(results), inbox, frames)
        invariant sent == old(sent) + frames
        invariant now >= old(now)
      {
        ghost var prev := Sweep(Returned(results), inbox, frames);
        assert SweepOf(registers[..i + 1], slave, open, old(inbox)) == NextSweep(prev, registers[i], slave, open) by {
          assert registers[..i + 1][..i] == registers[..i];
        }
        var name := registers[i].0;
        LookupEntry(registers, i);
        ghost var sent0 := sent;
        var value := ReadParameter(name);
        ghost var step := FramesFor(registers[i].1, slave, open);
        assert sent == sent0 + step;
        assert sent == old(sent) + (frames + step) by {
          assert sent0 == old(sent) + frames;
          AppendAssociative(old(sent), frames, step);
        }
        frames := frames + step;
        if value.Raised? {
          SweepStaysRaised(registers, i + 1, slave, open, old(inbox));
          return Raised(value.error);
        }
        if value.value.Some? {
          results := results[name := value.value.value];
        }
      }
      assert registers[..|registers|] == registers;
      r := Returned(results);
    }

    /** The adapter search in `connect` (connector.py:54-59): the index of the
        first port whose description names an adapter. */
    method FindAdapter(ports: seq<PortInfo>) returns (found: Option<nat>)
      ensures found == FirstAdapter(ports)
    {
      for i := 0 to |ports|
        invariant forall j :: 0 <= j < i ==> !IsAdapter(ports[j])
      {
        if AnyOccurs(AdapterKeywords, Upper(ports[i].description)) {
          assert IsAdapter(ports[i]);
          return Some(i);
        }
      }
      found := None;
    }

    /** The port choice in `connect` (connector.py:43-63): an explicit port
        replaces the configured one; with neither, the first adapter found,
        else the first port listed. False when there is nothing to choose from. */
    method ChoosePort(port: string, ports: seq<PortInfo>) returns (chosen: bool)
      modifies this`config
      ensures chosen <==> SelectPort(old(config).port, port, ports).Some?
      ensures chosen ==> config == old(config).(port := SelectPort(old(config).port, port, ports).value)
      ensures !chosen ==> config == old(config)
    {
      if port != "" {
        config := config.(port := port);
      }
      if config.port == "" {
        if ports == [] {
          return false;
        }
        var found := FindAdapter(ports);
        if found.Some? {
          config := config.(port := ports[found.value].device);
        }
        if config.port == "" {
          config := config.(port := ports[0].device);
        }
      }
      chosen := true;
    }

    /** The rest of `connect` (connector.py:65-90): open the port (`opens`
        says whether `serial.Serial(...)` succeeds), then keep it open only
        if the meter answers the test read. */
    method OpenAndTest(opens: bool) returns (ok: bool)
      requires Valid()
      modifies this
      ensures Valid()
      ensures config == old(config)
      ensures !opens ==> !ok && !connected && isOpen == old(isOpen) &&
                         inbox == old(inbox) && sent == old(sent) && now == old(now)
      ensures opens ==>
        (ok <==> HoldingRead(true, old(inbox), 1).Some?) && connected == ok && isOpen == ok &&
        Exchanged(ReadHoldingRegisters, 0x1000, 1, true, old(inbox), old(sent), old(sentAt), old(lastRequest), old(now))
    {
      if !opens {
        connected := false;
        return false;
      }
      isOpen := true;
      ok := TestConnection();
      if ok {
        connected := true;
      } else {
        isOpen := false;
        connected := false;
      }
    }

    /** `connect(port)` (connector.py:40-90), with the list `comports()`
        would give as `ports` and whether `serial.Serial(...)` succeeds as
        `opens`. An empty port list returns False before anything is opened. */
    method Connect(port: string, ports: seq<PortInfo>, opens: bool) returns (ok: bool)
      requires Valid()
      modifies this
      ensures Valid()
      ensures var selected := SelectPort(old(config).port, port, ports);
        (selected.None? ==> !ok && config == old(config) && isOpen == old(isOpen) && connected == old(connected) &&
                            inbox == old(inbox) && sent == old(sent) && now == old(now)) &&
        (selected.Some? ==> config == old(config).(port := selected.value)) &&
        (selected.Some? && !opens ==> !ok && !connected && isOpen == old(isOpen) &&
                                      inbox == old(inbox) && sent == old(sent) && now == old(now)) &&
        (selected.Some? && opens ==>
          (ok <==> HoldingRead(true, old(inbox), 1).Some?) && connected == ok && isOpen == ok &&
          Exchanged(ReadHoldingRegisters, 0x1000, 1, true, old(inbox), old(sent), old(sentAt), old(lastRequest), old(now)))
    {
      var chosen := ChoosePort(port, ports);
      if !chosen {
        return false;
      }
      ok := OpenAndTest(opens);
    }

    /** `disconnect` (connector.py:270-276): an open port is closed and the
        connector marked disconnected; otherwise nothing changes. */
    method Disconnect()
      modifies this`isOpen, this`connected
      ensures !isOpen
      ensures connected == (if old(isOpen) then false else old(connected))
    {
      if isOpen {
        isOpen := false;
        connected := false;
      }
    }
  }
}
