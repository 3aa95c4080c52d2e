/** The module-level tables of config.py, as immutable constants. Python dicts
    keep insertion order, so every table is an ordered sequence of
    (key, value) pairs with distinct keys. */
module Config {
  import opened Bytes

  /** FLOW_METER_CONFIG. The serial timeout (0.5 s) is kept in milliseconds;
      an empty `port` stands for a port that is not configured (None or ''). */
  datatype LinkConfig = LinkConfig(
    port: string,
    baudrate: nat,
    bytesize: nat,
    parity: char,
    stopbits: nat,
    timeoutMs: nat,
    deviceAddress: byte,
    retryAttempts: nat)

  const FlowMeterConfig: LinkConfig := LinkConfig("COM4", 9600, 8, 'N', 1, 500, 1, 5)

  /** The `format` strings the code dispatches on; any other string is `Unknown`. */
  datatype Format = UShort | FloatInverse | LongInverse | AsciiString | Unknown(name: string)

  /** One REGISTER_MAP descriptor. `decimals` and `length` are optional keys. */
  datatype RegisterSpec = RegisterSpec(
    address: int,
    format: Format,
    unit: string,
    decimals: Option<nat>,
    length: Option<nat>)

  type Entry = (string, RegisterSpec)

  /** A sequence of entries is a dict when no name occurs twice. */
  predicate DistinctNames(t: seq<Entry>)
  {
    forall i, j :: 0 <= i < j < |t| ==> t[i].0 != t[j].0
  }

  /** The keys of a table. */
  function Names(t: seq<Entry>): set<string>
  {
    set i | 0 <= i < |t| :: t[i].0
  }

  /** `REGISTER_MAP[name]` when `name in REGISTER_MAP`. */
  function Lookup(t: seq<Entry>, name: string): (r: Option<RegisterSpec>)
    ensures r.None? <==> name !in Names(t)
    ensures r.Some? ==> (name, r.value) in t
  {
    if t == [] then None
    else if t[0].0 == name then Some(t[0].1)
    else
      assert forall i :: 0 < i < |t| ==> t[1..][i - 1] == t[i];
      Lookup(t[1..], name)
  }

  /** How many 16-bit registers a value of this format occupies: a 4-byte
      float or long takes two, everything else one (config.py's comments,
      and models.py:43). */
  function RegisterCount(f: Format): nat
  {
    if f == FloatInverse || f == LongInverse then 2 else 1
  }

  /** REGISTER_MAP. */
  const RegisterMap: seq<Entry> := [
    ("instant_flow", RegisterSpec(0x1010, FloatInverse, "m\U{B3}/h", Some(3), None)),
    ("total_flow", RegisterSpec(0x1012, FloatInverse, "m\U{B3}", Some(3), None)),
    ("flow_velocity", RegisterSpec(0x1014, FloatInverse, "m/s", Some(3), None)),
    ("flow_percentage", RegisterSpec(0x1016, FloatInverse, "%", Some(1), None)),
    ("forward_total", RegisterSpec(0x1018, FloatInverse, "m\U{B3}", Some(3), None)),
    ("reverse_total", RegisterSpec(0x101A, FloatInverse, "m\U{B3}", Some(3), None)),
    ("pipe_diameter", RegisterSpec(0x1020, FloatInverse, "mm", Some(1), None)),
    ("status", RegisterSpec(0x1000, UShort, "", None, None)),
    ("flow_direction", RegisterSpec(0x1001, UShort, "", None, None)),
    ("alarm_status", RegisterSpec(0x1002, UShort, "", None, None))
  ]

  /** FLOW_DIRECTION: direction code to label. */
  const FlowDirection: seq<(int, string)> := [
    (0, "Forward \U{27A1}\U{FE0F}"),
    (1, "Reverse \U{2B05}\U{FE0F}"),
    (2, "Stopped \U{23F8}\U{FE0F}")
  ]

  /** STATUS_BITS: bit number to description. */
  const StatusBits: seq<(nat, string)> := [
    (0, "Power On"),
    (1, "Measuring"),
    (2, "Empty Pipe"),
    (3, "Signal Weak"),
    (4, "Over Range"),
    (5, "Reverse Flow"),
    (6, "Calibration"),
    (7, "System Error")
  ]

  /** The default link: slave 1 at 9600 baud, 8 data bits, no parity, 1 stop bit. */
  lemma DefaultLink()
    ensures FlowMeterConfig.deviceAddress == 1
    ensures FlowMeterConfig.baudrate == 9600 && FlowMeterConfig.bytesize == 8
    ensures FlowMeterConfig.parity == 'N' && FlowMeterConfig.stopbits == 1
    ensures FlowMeterConfig.port != ""
  {
  }

  /** Every descriptor is a float_inverse or a ushort. */
  lemma RegisterMapFormats()
    ensures forall i :: 0 <= i < |RegisterMap| ==>
      RegisterMap[i].1.format == FloatInverse || RegisterMap[i].1.format == UShort
  {
  }

  /** The register ranges [address, address + RegisterCount) of any two
      descriptors do not overlap, so in particular no two share an address. */
  lemma RegisterSpansDisjoint()
    ensures forall i, j :: 0 <= i < j < |RegisterMap| ==>
      RegisterMap[i].1.address + RegisterCount(RegisterMap[i].1.format) <= RegisterMap[j].1.address ||
      RegisterMap[j].1.address + RegisterCount(RegisterMap[j].1.format) <= RegisterMap[i].1.address
    ensures forall i, j :: 0 <= i < j < |RegisterMap| ==> RegisterMap[i].1.address != RegisterMap[j].1.address
  {
  }

  /** FLOW_DIRECTION's keys are exactly 0, 1 and 2. */
  lemma FlowDirectionKeys()
    ensures (set i | 0 <= i < |FlowDirection| :: FlowDirection[i].0) == {0, 1, 2}
  {
    assert FlowDirection[0].0 == 0 && FlowDirection[1].0 == 1 && FlowDirection[2].0 == 2;
  }

  /** STATUS_BITS' keys are exactly 0..7, in ascending order. */
  lemma StatusBitKeys()
    ensures |StatusBits| == 8
    ensures forall i :: 0 <= i < |StatusBits| ==> StatusBits[i].0 == i
  {
  }

  /** REGISTER_MAP is a dict: its ten names are distinct (length and first
      two characters already tell them apart). */
  lemma RegisterMapIsDict()
    ensures |RegisterMap| == 10
    ensures DistinctNames(RegisterMap)
  {
    assert forall i, j :: 0 <= i < j < |RegisterMap| ==>
      (|RegisterMap[i].0|, RegisterMap[i].0[0], RegisterMap[i].0[1]) !=
      (|RegisterMap[j].0|, RegisterMap[j].0[0], RegisterMap[j].0[1]);
  }

  predicate EndsWith(s: string, suffix: string)
  {
    |suffix| <= |s| && s[|s| - |suffix|..] == suffix
  }

  /** Names other code looks up but REGISTER_MAP does not define: main.py:57
      reads 'model_code', models.py:61 'positive_total_int' and models.py:71
      'alarms'. */
  lemma MissingKeys()
    ensures Lookup(RegisterMap, "model_code") == None
    ensures Lookup(RegisterMap, "alarms") == None
    ensures Lookup(RegisterMap, "positive_total_int") == None
  {
    assert forall i :: 0 <= i < |RegisterMap| ==>
      RegisterMap[i].0 != "alarms" && RegisterMap[i].0 != "model_code" && RegisterMap[i].0 != "positive_total_int";
  }

  /** models.py:60-67 reads the '*_total_int' and '*_total_dec' halves of the
      totals; REGISTER_MAP names none of them. */
  lemma NoTotalHalves()
    ensures forall i :: 0 <= i < |RegisterMap| ==>
      !EndsWith(RegisterMap[i].0, "_total_int") && !EndsWith(RegisterMap[i].0, "_total_dec")
  {
  }
}
