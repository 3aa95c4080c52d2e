/** `FlowMeter` (models.py): the device object the dashboard polls. It owns a
    ModbusRtuConnector for connecting and disconnecting, and reads each value
    with a `read_register(address, format, count)` call. The connector class
    defines no such method, so the reader is kept abstract: `replies` holds
    what the successive calls answer (a number, None, or an exception) and
    `calls` records every call made. The wall clock `datetime.now()` is the
    integer field `now`. */
module FlowMeterModel {
  import opened Bytes
  import opened Config
  import opened Connector
  import opened Frame

  /** What one `read_register` call gives its caller. */
  datatype ReaderReply = Value(v: real) | NoValue | Fails(error: string)

  /** The arguments of one `read_register` call. */
  datatype ReadCall = ReadCall(address: int, format: Format, count: nat)

  /** The reader's answers still to come and the calls made so far. A reader
      with nothing left to say answers None. */
  datatype Reader = Reader(replies: seq<ReaderReply>, calls: seq<ReadCall>)

  /** One `read_register` call on the reader. */
  function Read(rd: Reader, call: ReadCall): (ReaderReply, Reader)
  {
    if rd.replies == [] then (NoValue, Reader([], rd.calls + [call]))
    else (rd.replies[0], Reader(rd.replies[1..], rd.calls + [call]))
  }

  /** Python's `value if value is not None`, for an answer that did not raise. */
  function ValueOf(reply: ReaderReply): Option<real>
  {
    if reply.Value? then Some(reply.v) else None
  }

  /** `_get_total_flow`'s arithmetic (models.py:22-27): no total unless both
      parts were read, and a negative sum reads as zero. */
  function TotalFlow(intPart: Option<real>, decPart: Option<real>): (r: Option<real>)
    ensures r.None? <==> intPart.None? || decPart.None?
    ensures r.Some? ==> r.value >= 0.0
    ensures r.Some? && intPart.value + decPart.value >= 0.0 ==> r.value == intPart.value + decPart.value
    ensures r.Some? && intPart.value + decPart.value < 0.0 ==> r.value == 0.0
  {
    if intPart.Some? && decPart.Some? then
      var total := intPart.value + decPart.value;
      Some(if total < 0.0 then 0.0 else total)
    else None
  }

  /** `_get_total_flow` (models.py:17-27) on the reader: the integer part is
      read as a long, then the decimal part as a float; an exception from
      either read escapes. */
  function TotalFlowRead(rd: Reader, intAddress: int, decAddress: int): (Outcome<Option<real>>, Reader)
  {
    var (a, rd1) := Read(rd, ReadCall(intAddress, LongInverse, 2));
    if a.Fails? then (Raised(a.error), rd1)
    else
      var (b, rd2) := Read(rd1, ReadCall(decAddress, FloatInverse, 2));
      if b.Fails? then (Raised(b.error), rd2)
      else (Returned(TotalFlow(ValueOf(a), ValueOf(b))), rd2)
  }

  /** A value in the result dict: a reading (possibly None) or the alarm flags. */
  datatype Field = Reading(value: Option<real>) | AlarmFlags(flags: map<string, bool>)

  /** The measurement loop leaves out 'alarms' and every name containing
      'total' (models.py:38-41). */
  predicate Skipped(name: string)
  {
    name == "alarms" || Contains(name, "total")
  }

  /** The limit applied to a reading before it is stored (models.py:51-55):
      flow_percentage is clamped into [0, 100], anything else is kept. */
  function Limit(name: string, v: real): (r: real)
    ensures name == "flow_percentage" ==> 0.0 <= r <= 100.0
    ensures name == "flow_percentage" && 0.0 <= v <= 100.0 ==> r == v
    ensures name != "flow_percentage" ==> r == v
  {
    if name == "flow_percentage" && v > 100.0 then 100.0
    else if name == "flow_percentage" && v < 0.0 then 0.0
    else v
  }

  /** The state of `read_all_parameters` between statements: the dict so far,
      the reader, and the exception that stopped it, if any. */
  datatype Scan = Scan(results: map<string, Field>, reader: Reader, error: Option<string>)

  /** One iteration of the measurement loop (models.py:37-57). */
  function MeasureStep(prev: Scan, entry: Entry): Scan
  {
    var (name, spec) := entry;
    if prev.error.Some? || Skipped(name) then prev
    else
      var (reply, rd) := Read(prev.reader, ReadCall(spec.address, spec.format, RegisterCount(spec.format)));
      if reply.Fails? then Scan(prev.results, rd, Some(reply.error))
      else
        var stored := if reply.Value? then Some(Limit(name, reply.v)) else None;
        Scan(prev.results[name := Reading(stored)], rd, None)
  }

  /** The measurement loop over `entries`, from an empty dict. */
  function MeasureScan(entries: seq<Entry>, rd: Reader): Scan
    decreases |entries|
  {
    if entries == [] then Scan(map[], rd, None)
    else MeasureStep(MeasureScan(entries[..|entries| - 1], rd), entries[|entries| - 1])
  }

  /** `results[key] = self._get_total_flow(REGISTER_MAP[intName]['address'],
      REGISTER_MAP[decName]['address'])` (models.py:60-67): a missing name
      raises KeyError before anything is read. */
  function TotalStep(prev: Scan, registers: seq<Entry>, key: string, intName: string, decName: string): Scan
  {
    if prev.error.Some? then prev
    else if Lookup(registers, intName).None? || Lookup(registers, decName).None? then
      prev.(error := Some("KeyError"))
    else
      var (total, rd) := TotalFlowRead(prev.reader, Lookup(registers, intName).value.address,
                                       Lookup(registers, decName).value.address);
      match total
      case Raised(e) => Scan(prev.results, rd, Some(e))
      case Returned(t) => Scan(prev.results[key := Reading(t)], rd, None)
  }

  /** `bool(alarm_value) if alarm_value is not None else False` (models.py:73). */
  function AlarmFlag(reply: ReaderReply): bool
    requires !reply.Fails?
  {
    match reply
    case Value(v) => v != 0.0
    case NoValue => false
  }

  /** The alarm loop's state: the flags so far, the reader, and the
      exception that stopped it, if any. */
  datatype AlarmScan = AlarmScan(flags: map<string, bool>, reader: Reader, error: Option<string>)

  /** The alarm loop (models.py:70-73) over the (alarm, address) pairs of
      REGISTER_MAP['alarms']: each is read as one ushort register. */
  function AlarmScanOf(table: seq<(string, int)>, rd: Reader): AlarmScan
    decreases |table|
  {
    if table == [] then AlarmScan(map[], rd, None)
    else
      var prev := AlarmScanOf(table[..|table| - 1], rd);
      var (alarm, address) := table[|table| - 1];
      if prev.error.Some? then prev
      else
        var (reply, rd') := Read(prev.reader, ReadCall(address, UShort, 1));
        if reply.Fails? then AlarmScan(prev.flags, rd', Some(reply.error))
        else AlarmScan(prev.flags[alarm := AlarmFlag(reply)], rd', None)
  }

  /** The alarm block (models.py:69-74). `alarms` is REGISTER_MAP['alarms'],
      None when the table has no such key, which raises KeyError. */
  function AlarmStep(prev: Scan, alarms: Option<seq<(string, int)>>): Scan
  {
    if prev.error.Some? then prev
    else if alarms.None? then prev.(error := Some("KeyError"))
    else
      var a := AlarmScanOf(alarms.value, prev.reader);
      if a.error.Some? then Scan(prev.results, a.reader, a.error)
      else Scan(prev.results["alarms" := AlarmFlags(a.flags)], a.reader, None)
  }

  /** Everything the `try` block of `read_all_parameters` does (models.py:35-76). */
  function Collect(registers: seq<Entry>, alarms: Option<seq<(string, int)>>, rd: Reader): Scan
  {
    var measured := MeasureScan(registers, rd);
    var positive := TotalStep(measured, registers, "positive_total", "positive_total_int", "positive_total_dec");
    var negative := TotalStep(positive, registers, "negative_total", "negative_total_int", "negative_total_dec");
    AlarmStep(negative, alarms)
  }

  /** The value `read_all_parameters` returns once the `try` block has ended
      (models.py:78-84): after an exception, None if nothing was collected,
      otherwise the partial dict. */
  function Finish(s: Scan): (r: Option<map<string, Field>>)
    ensures r.None? <==> s.error.Some? && s.results == map[]
    ensures r.Some? ==> r.value == s.results
  {
    if s.error.Some? && s.results == map[] then None else Some(s.results)
  }

  /** The measured names are the table's names that are not skipped. */
  lemma {:induction false} MeasureKeys(entries: seq<Entry>, rd: Reader)
    decreases |entries|
    ensures forall name :: name in MeasureScan(entries, rd).results ==> name in Names(entries) && !Skipped(name)
  {
    if entries != [] {
      var init := entries[..|entries| - 1];
      MeasureKeys(init, rd);
      assert Names(init) <= Names(entries) by {
        forall n | n in Names(init) ensures n in Names(entries) {
          var i :| 0 <= i < |init| && init[i].0 == n;
          assert entries[i].0 == n;
        }
      }
    }
  }

  /** When no read raises, every name that is not skipped gets a key, even
      when its reading is None. */
  lemma {:induction false} MeasureStoresEveryName(entries: seq<Entry>, rd: Reader)
    decreases |entries|
    ensures MeasureScan(entries, rd).error.None? ==>
      forall i :: 0 <= i < |entries| && !Skipped(entries[i].0) ==> entries[i].0 in MeasureScan(entries, rd).results
  {
    if entries != [] {
      var init := entries[..|entries| - 1];
      MeasureStoresEveryName(init, rd);
      var s := MeasureScan(entries, rd);
      if s.error.None? {
        assert MeasureScan(init, rd).error.None?;
        forall i | 0 <= i < |entries| && !Skipped(entries[i].0) ensures entries[i].0 in s.results {
          if i < |init| {
            assert init[i] == entries[i];
          }
        }
      }
    }
  }

  /** Every read the measurement loop makes asks for RegisterCount(format)
      registers: two for a float or a long, one otherwise. */
  lemma {:induction false} MeasureCounts(entries: seq<Entry>, rd: Reader)
    decreases |entries|
    ensures |MeasureScan(entries, rd).reader.calls| >= |rd.calls|
    ensures MeasureScan(entries, rd).reader.calls[..|rd.calls|] == rd.calls
    ensures forall k :: |rd.calls| <= k < |MeasureScan(entries, rd).reader.calls| ==>
      MeasureScan(entries, rd).reader.calls[k].count == RegisterCount(MeasureScan(entries, rd).reader.calls[k].format)
  {
    if entries != [] {
      MeasureCounts(entries[..|entries| - 1], rd);
    }
  }

  /** A stored flow_percentage is always within [0, 100]. */
  lemma {:induction false} PercentageClamped(entries: seq<Entry>, rd: Reader)
    decreases |entries|
    ensures var results := MeasureScan(entries, rd).results;
      "flow_percentage" in results && results["flow_percentage"].Reading? && results["flow_percentage"].value.Some? ==>
        0.0 <= results["flow_percentage"].value.value <= 100.0
  {
    if entries != [] {
      PercentageClamped(entries[..|entries| - 1], rd);
    }
  }

  /** Once a read has raised, the rest of the measurement loop does nothing. */
  lemma {:induction false} MeasureStaysFailed(entries: seq<Entry>, k: nat, rd: Reader)
    requires k <= |entries|
    requires MeasureScan(entries[..k], rd).error.Some?
    decreases |entries| - k
    ensures MeasureScan(entries, rd) == MeasureScan(entries[..k], rd)
  {
    if k < |entries| {
      assert entries[..k + 1][..k] == entries[..k];
      MeasureStaysFailed(entries, k + 1, rd);
    } else {
      assert entries[..k] == entries;
    }
  }

  /** A total statement adds at most its own key and changes no other. */
  lemma TotalStepKeeps(prev: Scan, registers: seq<Entry>, key: string, intName: string, decName: string)
    ensures var r := TotalStep(prev, registers, key, intName, decName).results;
      (forall n :: n in r ==> n in prev.results || n == key) &&
      (forall n :: n in prev.results && n != key ==> n in r && r[n] == prev.results[n])
  {
  }

  /** The alarm block adds at most the key 'alarms' and changes no other. */
  lemma AlarmStepKeeps(prev: Scan, alarms: Option<seq<(string, int)>>)
    ensures var r := AlarmStep(prev, alarms).results;
      (forall n :: n in r ==> n in prev.results || n == "alarms") &&
      (forall n :: n in prev.results && n != "alarms" ==> n in r && r[n] == prev.results[n])
  {
  }

  /** The whole `try` block keeps the measurement loop's keys and adds only
      'positive_total', 'negative_total' and 'alarms'; flow_percentage stays
      clamped. */
  lemma CollectKeys(registers: seq<Entry>, alarms: Option<seq<(string, int)>>, rd: Reader)
    ensures var results := Collect(registers, alarms, rd).results;
      (forall name :: name in results ==>
        (name in Names(registers) && !Skipped(name)) || name in {"positive_total", "negative_total", "alarms"}) &&
      ("flow_percentage" in results && results["flow_percentage"].Reading? && results["flow_percentage"].value.Some? ==>
        0.0 <= results["flow_percentage"].value.value <= 100.0)
  {
    var measured := MeasureScan(registers, rd);
    var positive := TotalStep(measured, registers, "positive_total", "positive_total_int", "positive_total_dec");
    var negative := TotalStep(positive, registers, "negative_total", "negative_total_int", "negative_total_dec");
    MeasureKeys(registers, rd);
    PercentageClamped(registers, rd);
    TotalStepKeeps(measured, registers, "positive_total", "positive_total_int", "positive_total_dec");
    TotalStepKeeps(positive, registers, "negative_total", "negative_total_int", "negative_total_dec");
    AlarmStepKeeps(negative, alarms);
  }

  /** A read that raises on the first measured entry leaves the dict empty, so
      `read_all_parameters` returns None. */
  lemma FirstReadFails(registers: seq<Entry>, alarms: Option<seq<(string, int)>>, rd: Reader)
    requires registers != [] && !Skipped(registers[0].0)
    requires rd.replies != [] && rd.replies[0].Fails?
    ensures Finish(Collect(registers, alarms, rd)) == None
  {
    assert registers[..1][..0] == [];
    MeasureStaysFailed(registers, 1, rd);
  }

  /** REGISTER_MAP's first entry, instant_flow, is measured. */
  lemma InstantFlowMeasured()
    ensures RegisterMap[0].0 == "instant_flow" && !Skipped("instant_flow")
  {
    var t := "instant_flow";
    ContainsAt(t, "total");
    forall i | OccursAt(t, "total", i) ensures false {
      NotOccursAt(t, "total", i, if i == 3 || i == 6 then 1 else 0);
    }
  }

  /** The key the first total is stored under contains 'total'. */
  lemma PositiveTotalSkipped()
    ensures Skipped("positive_total")
  {
    var p := "positive_";
    assert "positive_total" == p + "total";
    assert (p + "total")[|p|..|p| + 5] == "total";
    assert OccursAt("positive_total", "total", 9);
    ContainsAt("positive_total", "total");
  }

  /** models.py:44 calls a `read_register` that ModbusRTUConnector does not
      define, so the first call raises AttributeError; with REGISTER_MAP,
      read_all_parameters then returns None. */
  lemma AsWrittenReturnsNone(alarms: Option<seq<(string, int)>>, rd: Reader)
    requires rd.replies != [] && rd.replies[0] == Fails("AttributeError")
    ensures Finish(Collect(RegisterMap, alarms, rd)) == None
  {
    InstantFlowMeasured();
    FirstReadFails(RegisterMap, alarms, rd);
  }

  /** A reader none of whose answers raises keeps the measurement loop free of exceptions. */
  lemma {:induction false} MeasureWithoutFailures(entries: seq<Entry>, rd: Reader)
    requires forall i :: 0 <= i < |rd.replies| ==> !rd.replies[i].Fails?
    decreases |entries|
    ensures MeasureScan(entries, rd).error.None?
    ensures forall i :: 0 <= i < |MeasureScan(entries, rd).reader.replies| ==> !MeasureScan(entries, rd).reader.replies[i].Fails?
  {
    if entries != [] {
      var prev := MeasureScan(entries[..|entries| - 1], rd);
      MeasureWithoutFailures(entries[..|entries| - 1], rd);
      if prev.reader.replies != [] {
        assert forall i :: 0 <= i < |prev.reader.replies| - 1 ==> prev.reader.replies[1..][i] == prev.reader.replies[i + 1];
      }
    }
  }

  /** A table whose first entry is measured but which lacks
      'positive_total_int': with a reader that never raises, the measurements
      are read and then the lookup raises KeyError, so read_all_parameters
      returns the measurements alone, with no totals and no alarms. */
  lemma StopsAtTotals(registers: seq<Entry>, alarms: Option<seq<(string, int)>>, rd: Reader)
    requires registers != [] && !Skipped(registers[0].0)
    requires Lookup(registers, "positive_total_int") == None
    requires forall i :: 0 <= i < |rd.replies| ==> !rd.replies[i].Fails?
    ensures var s := Collect(registers, alarms, rd);
      s.error == Some("KeyError") && Finish(s) == Some(s.results) &&
      registers[0].0 in s.results && "positive_total" !in s.results && "alarms" !in s.results
  {
    var measured := MeasureScan(registers, rd);
    assert measured.error.None? by {
      MeasureWithoutFailures(registers, rd);
    }
    assert registers[0].0 in measured.results by {
      MeasureStoresEveryName(registers, rd);
    }
    assert "positive_total" !in measured.results && "alarms" !in measured.results by {
      MeasureKeys(registers, rd);
      PositiveTotalSkipped();
    }
    assert Collect(registers, alarms, rd) == measured.(error := Some("KeyError"));
  }

  /** REGISTER_MAP as it is: read_all_parameters never gets past the totals. */
  lemma RegisterMapStopsAtTotals(alarms: Option<seq<(string, int)>>, rd: Reader)
    requires forall i :: 0 <= i < |rd.replies| ==> !rd.replies[i].Fails?
    ensures var s := Collect(RegisterMap, alarms, rd);
      s.error == Some("KeyError") && Finish(s) == Some(s.results) &&
      "instant_flow" in s.results && "positive_total" !in s.results && "alarms" !in s.results
  {
    MissingKeys();
    InstantFlowMeasured();
    StopsAtTotals(RegisterMap, alarms, rd);
  }

  class FlowMeter {
    /** `self.connector`. */
    const connector: ModbusRtuConnector
    /** REGISTER_MAP, without its 'alarms' entry. */
    const registers: seq<Entry>
    /** REGISTER_MAP['alarms'] as (alarm, address) pairs; None when absent. */
    const alarms: Option<seq<(string, int)>>
    var connected: bool
    /** `self.last_read_time`; None until the first success. */
    var lastReadTime: Option<int>
    /** What `datetime.now()` reads. */
    var now: int
    /** The answers of the `read_register` calls still to come. */
    var replies: seq<ReaderReply>
    /** Every `read_register` call made, oldest first. */
    var calls: seq<ReadCall>

    ghost predicate Valid()
      reads connector`sent, connector`sentAt, connector`lastRequest
    {
      connector.Valid()
    }

    /** `__init__` (models.py:6-9): `config` None stands for the default link. */
    constructor (config: Option<LinkConfig>, registers: seq<Entry>, alarms: Option<seq<(string, int)>>,
                 clock: int, linkReplies: seq<seq<byte>>, readerReplies: seq<ReaderReply>)
      requires DistinctNames(registers)
      ensures Valid()
      ensures connector.config == (if config.Some? then config.value else FlowMeterConfig)
      ensures !connector.isOpen && !connector.connected && connector.inbox == linkReplies
      ensures this.registers == registers && this.alarms == alarms
      ensures !connected && lastReadTime == None && now == clock
      ensures replies == readerReplies && calls == []
    {
      connector := new ModbusRtuConnector(if config.Some? then config.value else FlowMeterConfig,
                                          registers, clock, linkReplies);
      this.registers := registers;
      this.alarms := alarms;
      connected := false;
      lastReadTime := None;
      now := clock;
      replies := readerReplies;
      calls := [];
    }

    /** `connect` (models.py:11-15): the connector chooses and opens a port
        (ModbusRtuConnector.Connect, with no port given), and a success
        stamps the read time. */
    method Connect(ports: seq<PortInfo>, opens: bool) returns (ok: bool)
      requires Valid()
      modifies this`connected, this`lastReadTime, connector
      ensures Valid()
      ensures connected == ok
      ensures ok <==> SelectPort(old(connector.config).port, "", ports).Some? && opens &&
                      HoldingRead(true, old(connector.inbox), 1).Some?
      ensures lastReadTime == if ok then Some(now) else old(lastReadTime)
      ensures var selected := SelectPort(old(connector.config).port, "", ports);
        (selected.None? ==> connector.config == old(connector.config) && connector.isOpen == old(connector.isOpen) &&
                            connector.connected == old(connector.connected) && connector.inbox == old(connector.inbox) &&
                            connector.sent == old(connector.sent) && connector.now == old(connector.now)) &&
        (selected.Some? ==> connector.config == old(connector.config).(port := selected.value)) &&
        (selected.Some? && !opens ==> !connector.connected && connector.isOpen == old(connector.isOpen) &&
                                      connector.inbox == old(connector.inbox) && connector.sent == old(connector.sent) &&
                                      connector.now == old(connector.now)) &&
        (selected.Some? && opens ==>
          connector.connected == ok && connector.isOpen == ok &&
          connector.Exchanged(ReadHoldingRegisters, 0x1000, 1, true, old(connector.inbox), old(connector.sent),
                              old(connector.sentAt), old(connector.lastRequest), old(connector.now)))
    {
      ok := connector.Connect("", ports, opens);
      connected := ok;
      if connected {
        lastReadTime := Some(now);
      }
    }

    /** `disconnect` (models.py:86-88). */
    method Disconnect()
      modifies this`connected, connector`isOpen, connector`connected
      ensures !connected && !connector.isOpen
      ensures connector.connected == (if old(connector.isOpen) then false else old(connector.connected))
    {
      connected := false;
      connector.Disconnect();
    }

    /** The `self.connector.read_register(address, format, count)` call. */
    method ReadRegister(address: int, format: Format, count: nat) returns (reply: ReaderReply)
      modifies this`replies, this`calls
      ensures (reply, Reader(replies, calls)) == Read(Reader(old(replies), old(calls)), ReadCall(address, format, count))
    {
      calls := calls + [ReadCall(address, format, count)];
      if replies == [] {
        return NoValue;
      }
      reply := replies[0];
      replies := replies[1..];
    }

    /** The measurement loop of `read_all_parameters` (models.py:37-57). */
    method Measure() returns (results: map<string, Field>, error: Option<string>)
      modifies this`replies, this`calls
      ensures MeasureScan(registers, Reader(old(replies), old(calls))) == Scan(results, Reader(replies, calls), error)
    {
      ghost var rd0 := Reader(replies, calls);
      results := map[];
      error := None;
      for i := 0 to |registers|
        invariant MeasureScan(registers[..i], rd0) == Scan(results, Reader(replies, calls), None)
      {
        assert registers[..i + 1][..i] == registers[..i];
        var (name, spec) := registers[i];
        if name != "alarms" && !Contains(name, "total") {
          var count := if spec.format == FloatInverse || spec.format == LongInverse then 2 else 1;
          var value := ReadRegister(spec.address, spec.format, count);
          if value.Fails? {
            error := Some(value.error);
            MeasureStaysFailed(registers, i + 1, rd0);
            return;
          }
          var stored: Option<real> := None;
          if value.Value? {
            var v := value.v;
            if name == "flow_percentage" && v > 100.0 {
              v := 100.0;
            } else if name == "flow_percentage" && v < 0.0 {
              v := 0.0;
            }
            stored := Some(v);
          }
          results := results[name := Reading(stored)];
        }
      }
      assert registers[..|registers|] == registers;
    }

    /** `_get_total_flow` (models.py:17-27). */
    method GetTotalFlow(intAddress: int, decAddress: int) returns (r: Outcome<Option<real>>)
      modifies this`replies, this`calls
      ensures (r, Reader(replies, calls)) == TotalFlowRead(Reader(old(replies), old(calls)), intAddress, decAddress)
    {
      var intPart := ReadRegister(intAddress, LongInverse, 2);
      if intPart.Fails? {
        return Raised(intPart.error);
      }
      var decPart := ReadRegister(decAddress, FloatInverse, 2);
      if decPart.Fails? {
        return Raised(decPart.error);
      }
      if intPart.Value? && decPart.Value? {
        var total := intPart.v + decPart.v;
        if total < 0.0 {
          total := 0.0;
        }
        return Returned(Some(total));
      }
      return Returned(None);
    }

    /** One `results[key] = self._get_total_flow(...)` statement (models.py:60-67). */
    method StoreTotal(results0: map<string, Field>, key: string, intName: string, decName: string)
      returns (results: map<string, Field>, error: Option<string>)
      modifies this`replies, this`calls
      ensures TotalStep(Scan(results0, Reader(old(replies), old(calls)), None), registers, key, intName, decName) ==
        Scan(results, Reader(replies, calls), error)
    {
      results := results0;
      var intSpec := Lookup(registers, intName);
      var decSpec := Lookup(registers, decName);
      if intSpec.None? || decSpec.None? {
        return results, Some("KeyError");
      }
      var total := GetTotalFlow(intSpec.value.address, decSpec.value.address);
      if total.Raised? {
        return results, Some(total.error);
      }
      results := results[key := Reading(total.value)];
      error := None;
    }

    /** The alarm block of `read_all_parameters` (models.py:69-74). */
    method ReadAlarms(results0: map<string, Field>) returns (results: map<string, Field>, error: Option<string>)
      modifies this`replies, this`calls
      ensures AlarmStep(Scan(results0, Reader(old(replies), old(calls)), None), alarms) ==
        Scan(results, Reader(replies, calls), error)
    {
      results := results0;
      if alarms.None? {
        return results, Some("KeyError");
      }
      var table := alarms.value;
      ghost var rd0 := Reader(replies, calls);
      var flags: map<string, bool> := map[];
      for i := 0 to |table|
        invariant AlarmScanOf(table[..i], rd0) == AlarmScan(flags, Reader(replies, calls), None)
      {
        assert table[..i + 1][..i] == table[..i];
        var (alarm, address) := table[i];
        var alarmValue := ReadRegister(address, UShort, 1);
        if alarmValue.Fails? {
          AlarmStaysFailed(table, i + 1, rd0);
          return results, Some(alarmValue.error);
        }
        flags := flags[alarm := if alarmValue.Value? then alarmValue.v != 0.0 else false];
      }
      assert table[..|table|] == table;
      results := results["alarms" := AlarmFlags(flags)];
      error := None;
    }

    /** `read_all_parameters` (models.py:29-84). Without a connection it
        raises ConnectionError; otherwise it returns what Collect and Finish
        describe, and only a run without exceptions stamps the read time. */
    method ReadAllParameters() returns (r: Outcome<Option<map<string, Field>>>)
      modifies this`replies, this`calls, this`lastReadTime
      ensures !connected ==> (r == Raised("ConnectionError") &&
        replies == old(replies) && calls == old(calls) && lastReadTime == old(lastReadTime))
      ensures connected ==> var s := Collect(registers, alarms, Reader(old(replies), old(calls)));
        r == Returned(Finish(s)) && Reader(replies, calls) == s.reader &&
        lastReadTime == (if s.error.None? then Some(now) else old(lastReadTime))
    {
      if !connected {
        return Raised("ConnectionError");
      }
      var results, error := Measure();
      if error.None? {
        results, error := StoreTotal(results, "positive_total", "positive_total_int", "positive_total_dec");
      }
      if error.None? {
        results, error := StoreTotal(results, "negative_total", "negative_total_int", "negative_total_dec");
      }
      if error.None? {
        results, error := ReadAlarms(results);
      }
      if error.None? {
        lastReadTime := Some(now);
      }
      if error.Some? && results == map[] {
        return Returned(None);
      }
      return Returned(Some(results));
    }
  }

  /** Once an alarm read has raised, the rest of the alarm loop does nothing. */
  lemma {:induction false} AlarmStaysFailed(table: seq<(string, int)>, k: nat, rd: Reader)
    requires k <= |table|
    requires AlarmScanOf(table[..k], rd).error.Some?
    decreases |table| - k
    ensures AlarmScanOf(table, rd) == AlarmScanOf(table[..k], rd)
  {
    if k < |table| {
      assert table[..k + 1][..k] == table[..k];
      AlarmStaysFailed(table, k + 1, rd);
    } else {
      assert table[..k] == table;
    }
  }

  /** The i-th answer the reader will give from now on: None once its
      answers have run out. */
  function ReplyAt(rd: Reader, i: nat): ReaderReply
  {
    if i < |rd.replies| then rd.replies[i] else NoValue
  }

  /** No answer of the reader raises. */
  predicate NeverRaises(rd: Reader)
  {
    forall i :: 0 <= i < |rd.replies| ==> !rd.replies[i].Fails?
  }

  /** No alarm name occurs twice in the table. */
  predicate DistinctAlarms(table: seq<(string, int)>)
  {
    forall i, j :: 0 <= i < j < |table| ==> table[i].0 != table[j].0
  }

  /** When no read raises, the alarm loop (models.py:70-73) ends without error
      and has used up one answer per alarm. */
  lemma {:induction false} AlarmScanReads(table: seq<(string, int)>, rd: Reader)
    requires NeverRaises(rd)
    decreases |table|
    ensures AlarmScanOf(table, rd).error.None?
    ensures AlarmScanOf(table, rd).reader.replies
              == if |table| <= |rd.replies| then rd.replies[|table|..] else []
  {
    if table != [] {
      var n := |table|;
      AlarmScanReads(table[..n - 1], rd);
      var prev := AlarmScanOf(table[..n - 1], rd);
      if n - 1 < |rd.replies| {
        assert prev.reader.replies[0] == rd.replies[n - 1];
      }
    }
  }

  /** When no read raises, the alarm flags are keyed by exactly the table's
      alarm names (models.py:72-73). */
  lemma {:induction false} AlarmScanKeys(table: seq<(string, int)>, rd: Reader)
    requires NeverRaises(rd)
    decreases |table|
    ensures AlarmScanOf(table, rd).flags.Keys == set i | 0 <= i < |table| :: table[i].0
  {
    if table != [] {
      var n := |table|;
      var front := table[..n - 1];
      AlarmScanKeys(front, rd);
      AlarmScanReads(front, rd);
      var prev := AlarmScanOf(front, rd);
      if n - 1 < |rd.replies| {
        assert prev.reader.replies[0] == rd.replies[n - 1];
      }
      var keys := AlarmScanOf(table, rd).flags.Keys;
      assert keys == prev.flags.Keys + {table[n - 1].0};
      forall name | name in keys
        ensures name in set i | 0 <= i < n :: table[i].0
      {
        if name != table[n - 1].0 {
          var j :| 0 <= j < n - 1 && front[j].0 == name;
          assert table[j].0 == name;
        }
      }
    }
  }

  /** With distinct alarm names and no read raising, the i-th alarm's flag is
      set exactly when the i-th read returned a nonzero value (models.py:72-73). */
  lemma {:induction false} AlarmScanFlags(table: seq<(string, int)>, rd: Reader)
    requires NeverRaises(rd)
    requires DistinctAlarms(table)
    decreases |table|
    ensures forall i :: 0 <= i < |table| ==> table[i].0 in AlarmScanOf(table, rd).flags
    ensures forall i :: 0 <= i < |table| ==>
              (AlarmScanOf(table, rd).flags[table[i].0] <==> ReplyAt(rd, i).Value? && ReplyAt(rd, i).v != 0.0)
  {
    if table != [] {
      var n := |table|;
      var front := table[..n - 1];
      AlarmScanFlags(front, rd);
      AlarmScanReads(front, rd);
      var prev := AlarmScanOf(front, rd);
      var reply := Read(prev.reader, ReadCall(table[n - 1].1, UShort, 1)).0;
      assert reply == ReplyAt(rd, n - 1) by {
        if n - 1 < |rd.replies| {
          assert prev.reader.replies[0] == rd.replies[n - 1];
        }
      }
      var flags := AlarmScanOf(table, rd).flags;
      assert flags == prev.flags[table[n - 1].0 := AlarmFlag(reply)];
      forall i | 0 <= i < n
        ensures table[i].0 in flags
        ensures flags[table[i].0] <==> ReplyAt(rd, i).Value? && ReplyAt(rd, i).v != 0.0
      {
        if i < n - 1 {
          assert front[i] == table[i];
        }
      }
    }
  }
}
