/** `SimpleFlowReader` (simple_reader.py): a minimal reader that always uses
    function 0x04. A reply passes with at least five bytes and a matching CRC;
    a two-register read of a four-byte payload becomes a float, anything else
    is handed back as the raw payload bytes. The port is a queue of replies
    (`inbox`) and a log of written frames (`sent`). */
module SimpleReader {
  import opened Bytes
  import opened Crc16
  import opened Frame
  import opened Decode

  /** What read_register hands back when a reply passes its check. */
  datatype Value = FloatValue(f: Float32) | Raw(bytes: seq<byte>)

  /** read_register's check and decoding of the bytes read (simple_reader.py:73-93). */
  function Decoded(response: seq<byte>, count: int): (r: Option<Value>)
    ensures r.Some? <==> |response| >= 5 && CrcMatches(response)
    ensures r.Some? && r.value.FloatValue? <==> r.Some? && count == 2 && |response| == 9
    ensures r.Some? && r.value.Raw? ==> r.value.bytes == Payload(response)
  {
    if |response| < 5 || !CrcMatches(response) then None
    else
      var data := Payload(response);
      if count == 2 && |data| == 4 then Some(FloatValue(Float32([data[2], data[3], data[0], data[1]])))
      else Some(Raw(data))
  }

  /** A two-register reply is read as the float parse_float_inverse makes of its payload. */
  lemma DecodedFloatIsInverse(response: seq<byte>)
    requires Decoded(response, 2).Some? && Decoded(response, 2).value.FloatValue?
    ensures ParseFloatInverse(Payload(response)) == Some(Decoded(response, 2).value.f)
  {
  }

  /** A float the meter frames in a two-register reply is read back unchanged. */
  lemma FloatReplyRoundTrip(slave: byte, fc: byte, f: Float32)
    ensures Decoded(Reply(slave, fc, EncodeFloatInverse(f)), 2) == Some(FloatValue(f))
  {
    var data := EncodeFloatInverse(f);
    ReplyPayload(slave, fc, data);
    FloatInverseRoundTrip(f);
  }

  /** Any other well-framed reply is handed back as its register bytes. */
  lemma RawReplyRoundTrip(slave: byte, fc: byte, data: seq<byte>, count: int)
    requires |data| < 256
    requires count != 2 || |data| != 4
    ensures Decoded(Reply(slave, fc, data), count) == Some(Raw(data))
  {
    ReplyPayload(slave, fc, data);
  }

  /** The table read_all_parameters walks, in its order (simple_reader.py:104-112). */
  const Registers: seq<(string, int)> := [
    ("instant_flow", 0x1010),
    ("total_flow", 0x1012),
    ("flow_velocity", 0x1014),
    ("flow_direction", 0x1016),
    ("flow_percentage", 0x1018),
    ("alarm_status", 0x1020),
    ("pipe_diameter", 0x1030)
  ]

  /** The names of a table. */
  function Names(table: seq<(string, int)>): (r: set<string>)
    ensures forall i :: 0 <= i < |table| ==> table[i].0 in r
    ensures forall name :: name in r ==> exists i :: 0 <= i < |table| && table[i].0 == name
  {
    if table == [] then {} else Names(table[..|table| - 1]) + {table[|table| - 1].0}
  }

  /** The reply the k-th read sees: 11 bytes are asked for (5 + 2 * 2 + 2),
      and a port never opened yields nothing. */
  function Seen(inbox: seq<seq<byte>>, open: bool, k: nat): seq<byte>
  {
    Prefix(if open then Nth(inbox, k) else [], 11)
  }

  /** What the first n two-register reads return, the k-th seeing the k-th queued reply. */
  function Outcomes(inbox: seq<seq<byte>>, open: bool, n: nat): seq<Option<Value>>
  {
    seq(n, k requires 0 <= k < n => Decoded(Seen(inbox, open, k), 2))
  }

  /** `results` once the entries of `table` have been read in order, the k-th
      read returning values[k]: a name is stored when its read returned something. */
  function Collected(table: seq<(string, int)>, values: seq<Option<Value>>): (r: map<string, Value>)
    requires |values| >= |table|
    ensures r.Keys <= Names(table)
  {
    if table == [] then map[]
    else
      var k := |table| - 1;
      var prev := Collected(table[..k], values);
      if values[k].Some? then prev[table[k].0 := values[k].value] else prev
  }

  lemma NotInNames(table: seq<(string, int)>, name: string)
    requires forall j :: 0 <= j < |table| ==> table[j].0 != name
    ensures name !in Names(table)
  {
  }

  predicate DistinctNames(table: seq<(string, int)>)
  {
    forall i, j :: 0 <= i < j < |table| ==> table[i].0 != table[j].0
  }

  /** With distinct names, each entry is present exactly when its read
      returned something, and then holds what that read returned. */
  lemma {:induction false} CollectedEntry(table: seq<(string, int)>, values: seq<Option<Value>>, i: nat)
    requires DistinctNames(table)
    requires |values| >= |table| && i < |table|
    decreases |table|
    ensures table[i].0 in Collected(table, values) <==> values[i].Some?
    ensures values[i].Some? ==> Collected(table, values)[table[i].0] == values[i].value
  {
    var k := |table| - 1;
    var prev := Collected(table[..k], values);
    var name := table[i].0;
    assert Collected(table, values) == if values[k].Some? then prev[table[k].0 := values[k].value] else prev;
    if i < k {
      assert DistinctNames(table[..k]) by {
        forall a, b | 0 <= a < b < k ensures table[..k][a].0 != table[..k][b].0 {
          assert table[..k][a] == table[a] && table[..k][b] == table[b];
        }
      }
      CollectedEntry(table[..k], values, i);
      assert table[..k][i] == table[i];
      assert name != table[k].0;
      assert name in Collected(table, values) <==> name in prev;
      assert name in prev ==> Collected(table, values)[name] == prev[name];
    } else {
      forall j | 0 <= j < k
        ensures table[..k][j].0 != table[i].0
      {
        assert table[..k][j] == table[j];
      }
      NotInNames(table[..k], name);
      assert name !in prev;
    }
  }

  /** Every read of a port never opened returns nothing, so no result is stored. */
  lemma {:induction false} ClosedCollectsNothing(table: seq<(string, int)>, inbox: seq<seq<byte>>)
    decreases |table|
    ensures Collected(table, Outcomes(inbox, false, |table|)) == map[]
  {
    if table != [] {
      var k := |table| - 1;
      var values := Outcomes(inbox, false, |table|);
      assert Collected(table[..k], values) == Collected(table[..k], Outcomes(inbox, false, k)) by {
        CollectedPrefix(table[..k], values, Outcomes(inbox, false, k));
      }
      ClosedCollectsNothing(table[..k], inbox);
      assert values[k] == Decoded(Seen(inbox, false, k), 2);
    }
  }

  /** Only the first |table| outcomes matter. */
  lemma {:induction false} CollectedPrefix(table: seq<(string, int)>, values: seq<Option<Value>>, others: seq<Option<Value>>)
    requires |values| >= |table| && |others| >= |table|
    requires values[..|table|] == others[..|table|]
    decreases |table|
    ensures Collected(table, values) == Collected(table, others)
  {
    if table != [] {
      var k := |table| - 1;
      assert values[k] == values[..|table|][k];
      assert others[k] == others[..|table|][k];
      assert values[..k] == values[..|table|][..k];
      assert others[..k] == others[..|table|][..k];
      CollectedPrefix(table[..k], values, others);
    }
  }

  /** The names of read_all_parameters' table are distinct, so each is
      present exactly when its read returned something; a port never opened
      gives no results. */
  lemma RegistersResults(inbox: seq<seq<byte>>, open: bool, i: nat)
    requires i < |Registers|
    ensures var v := Decoded(Seen(inbox, open, i), 2);
      var results := Collected(Registers, Outcomes(inbox, open, |Registers|));
      (Registers[i].0 in results <==> v.Some?) && (v.Some? ==> results[Registers[i].0] == v.value)
    ensures !open ==> Collected(Registers, Outcomes(inbox, open, |Registers|)) == map[]
  {
    assert DistinctNames(Registers);
    CollectedEntry(Registers, Outcomes(inbox, open, |Registers|), i);
    if !open {
      ClosedCollectsNothing(Registers, inbox);
    }
  }

  /** The requests a sweep over `table` writes, one per entry. */
  function Requests(slave: byte, table: seq<(string, int)>): (r: seq<seq<byte>>)
    ensures |r| == |table|
  {
    if table == [] then [] else Requests(slave, table[..|table| - 1]) + [Request(slave, ReadInputRegisters, table[|table| - 1].1, 2)]
  }

  /** Reading entry i extends the results for the entries before it. */
  lemma CollectedSnoc(table: seq<(string, int)>, values: seq<Option<Value>>, i: nat)
    requires i < |table| <= |values|
    ensures Collected(table[..i + 1], values) ==
      if values[i].Some? then Collected(table[..i], values)[table[i].0 := values[i].value]
      else Collected(table[..i], values)
  {
    assert table[..i + 1][..i] == table[..i];
  }

  /** Reading entry i writes one more request. */
  lemma RequestsSnoc(slave: byte, table: seq<(string, int)>, i: nat)
    requires i < |table|
    ensures Requests(slave, table[..i + 1]) == Requests(slave, table[..i]) + [Request(slave, ReadInputRegisters, table[i].1, 2)]
  {
    assert table[..i + 1][..i] == table[..i];
  }

  class SimpleFlowReader {
    var port: string
    var baudrate: nat
    var address: byte
    /** `self.serial` has been opened. */
    var isOpen: bool
    /** The replies the meter will give, oldest first. */
    var inbox: seq<seq<byte>>
    /** Every frame written, oldest first. */
    var sent: seq<seq<byte>>

    /** `__init__` (simple_reader.py:8-12): no port is opened yet. */
    constructor (port: string, baudrate: nat, address: byte, replies: seq<seq<byte>>)
      ensures this.port == port && this.baudrate == baudrate && this.address == address
      ensures !isOpen && inbox == replies && sent == []
    {
      this.port := port;
      this.baudrate := baudrate;
      this.address := address;
      isOpen := false;
      inbox := replies;
      sent := [];
    }

    /** `connect` (simple_reader.py:14-30); `opens` says whether
        `serial.Serial(...)` succeeds. A failure changes nothing. */
    method Connect(opens: bool) returns (ok: bool)
      modifies this`isOpen
      ensures ok == opens
      ensures isOpen == (opens || old(isOpen))
    {
      if !opens {
        return false;
      }
      isOpen := true;
      ok := true;
    }

    /** `disconnect` (simple_reader.py:172-176). */
    method Disconnect()
      modifies this`isOpen
      ensures !isOpen
    {
      if isOpen {
        isOpen := false;
      }
    }

    /** `read_register` (simple_reader.py:45-97). It writes the request and
        reads `5 + 2 * count + 2` bytes; a port never opened raises before
        anything is written and the exception becomes None. */
    method ReadRegister(register: int, count: nat) returns (value: Option<Value>)
      modifies this`inbox, this`sent
      ensures value == if isOpen then Decoded(Prefix(Nth(old(inbox), 0), 7 + 2 * count), count) else None
      ensures sent == old(sent) + (if isOpen then [Request(address, ReadInputRegisters, register, count)] else [])
      ensures inbox == if isOpen then Drop(old(inbox), 1) else old(inbox)
    {
      var request := BuildRequest(address, ReadInputRegisters, register, count);
      if !isOpen {
        return None;
      }
      sent := sent + [request];
      var response := Prefix(Nth(inbox, 0), 7 + 2 * count);
      inbox := Drop(inbox, 1);
      if |response| < 5 {
        return None;
      }
      var n := |response|;
      var receivedCrc := Word(response[n - 2], response[n - 1]);
      var calculatedCrc := CalculateCrc(response[..n - 2]);
      if receivedCrc != calculatedCrc {
        return None;
      }
      var dataBytes := response[3..n - 2];
      if count == 2 && |dataBytes| == 4 {
        return Some(FloatValue(Float32([dataBytes[2], dataBytes[3], dataBytes[0], dataBytes[1]])));
      }
      return Some(Raw(dataBytes));
    }

    /** The loop of `read_all_parameters` (simple_reader.py:114-119) over
        `table`: one two-register read per entry, keeping what came back. */
    method Sweep(table: seq<(string, int)>) returns (results: map<string, Value>)
      modifies this`inbox, this`sent
      ensures results == Collected(table, Outcomes(old(inbox), isOpen, |table|))
      ensures sent == old(sent) + (if isOpen then Requests(address, table) else [])
      ensures inbox == if isOpen then Drop(old(inbox), |table|) else old(inbox)
    {
      results := map[];
      ghost var inbox0 := inbox;
      ghost var values := Outcomes(inbox0, isOpen, |table|);
      assert Drop(inbox0, 0) == inbox0;
      for i := 0 to |table|
        invariant results == Collected(table[..i], values)
        invariant sent == old(sent) + (if isOpen then Requests(address, table[..i]) else [])
        invariant inbox == if isOpen then Drop(inbox0, i) else inbox0
      {
        var (name, addr) := table[i];
        DropNth(inbox0, i);
        ghost var before := if isOpen then Requests(address, table[..i]) else [];
        ghost var step := if isOpen then [Request(address, ReadInputRegisters, addr, 2)] else [];
        var value := ReadRegister(addr, 2);
        assert value == values[i];
        if value.Some? {
          results := results[name := value.value];
        }
        assert results == Collected(table[..i + 1], values) by {
          CollectedSnoc(table, values, i);
        }
        assert sent == old(sent) + (if isOpen then Requests(address, table[..i + 1]) else []) by {
          assert sent == old(sent) + before + step;
          RequestsSnoc(address, table, i);
          AppendAssociative(old(sent), before, step);
        }
      }
      assert table[..|table|] == table;
    }

    /** `read_all_parameters` (simple_reader.py:99-121) over its fixed table. */
    method ReadAllParameters() returns (results: map<string, Value>)
      modifies this`inbox, this`sent
      ensures results == Collected(Registers, Outcomes(old(inbox), isOpen, |Registers|))
      ensures sent == old(sent) + (if isOpen then Requests(address, Registers) else [])
      ensures inbox == if isOpen then Drop(old(inbox), |Registers|) else old(inbox)
    {
      results := Sweep(Registers);
    }
  }
}
