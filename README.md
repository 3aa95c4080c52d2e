# flowmeter_monitor: the MODBUS RTU frame engine, in Dafny

flowmeter_monitor reads an Aister ATLD-DN50-S electromagnetic flowmeter over
an RS-485 line. It does not use a MODBUS library for the core path. Several
classes build request frames by hand, append a CRC16/MODBUS checksum, write
the frame to a serial port, read a fixed number of bytes back, check the
reply's CRC and decode the register bytes. Multi-register values arrive low
word first (the "CDAB" order), and the code swaps the words before unpacking.

This project models that engine and the classes built on it:

- `Bytes`: the byte vocabulary. It covers Python's `(x >> 8) & 0xFF`,
  `x & 0xFF` and `lo | (hi << 8)`, truncating reads, substring search,
  ASCII `upper()` and `str.join`.
- `Crc16`: `calculate_crc` as a left fold over a 16-bit register, and the
  loop that computes it. Both the shift-then-xor variant and the one-line
  variant are modelled.
- `Frame`: request frames, the reply CRC check and the payload slice
  `response[3:-2]`. It also proves that the check rejects a reply in which
  any one byte, or any one bit, was corrupted.
- `Decode`: the CDAB float and long parsers, with their encoders.
- `Config`: `FLOW_METER_CONFIG`, `REGISTER_MAP`, `FLOW_DIRECTION` and
  `STATUS_BITS` as constants.
- `Connector`: `ModbusRTUConnector`, including:
  - the holding and input register reads;
  - `read_parameter` and `read_all_parameters`;
  - port auto-detection, `connect` and `disconnect`;
  - the inter-request delay.
- `FlowMeterModel`: `FlowMeter`, which polls the register map, adds up the
  totals and reads the alarm flags.
- `RealTimeDisplay`: `FlowMeterDisplay.get_flow_data` with its float and
  ushort reads.
- `SimpleReader`: `SimpleFlowReader`.
- `SimpleConnector`: `SimpleFlowMeterReader`.
- `Display`: the alarm and status bitmask decoding of the dashboard screen.

## How the serial port is modelled

The serial port is not modelled as a device. Instead, each class holds:

- `inbox`: the replies the meter will give, one per request written. A
  missing reply is a read that times out and returns no bytes.
- `sent`: every frame written, in order.
- `isOpen`: whether the port was opened.

`serial.read(n)` returns the first `n` bytes of the next reply.
`reset_input_buffer()` is modelled by each read consuming exactly one reply.

Each class that keeps state is a Dafny `class` whose methods update these
fields. Every method states its result and its new state in terms of
specification functions over the old state. The properties of those
functions are proved as lemmas, including:

- the round trips: a float or a 16-bit value the meter frames comes back
  unchanged;
- the acceptance conditions of each reply check, in both directions;
- which keys each result dict holds.

## Model

| member | source | states |
|---|---|---|
| Bytes.Word | connector.py:141 | the received CRC `lo \| (hi << 8)` is a 16-bit value |
| Bytes.BigEndian16 | connector.py:154 | `(d0 << 8) \| d1` is an unsigned 16-bit value |
| Bytes.WordSplit | connector.py:117-120 | splitting a 16-bit address or count into high and low bytes and joining them again gives the value back, in both byte orders |
| Bytes.SplitKeepsLow16 | connector.py:117-118 | the two request bytes of any integer address keep exactly its value modulo 65536 |
| Bytes.JoinSplit | connector.py:154 | the high and low bytes of a big-endian word are the two bytes it was built from |
| Bytes.WordInjective | connector.py:141-144 | two byte pairs give the same received CRC only if they are the same pair |
| Bytes.Prefix | connector.py:135 | a read of n bytes returns min(n, available) bytes and those are a prefix of the reply |
| Bytes.ContainsAt | connector.py:55-56 | `sub in text` holds exactly when sub occurs at some index of text |
| Bytes.NotOccursAt | connector.py:55-56 | one differing character rules out an occurrence at that index |
| Bytes.Upper | connector.py:55 | `upper()` keeps the length and maps every character through the ASCII upper-casing |
| Bytes.DropNth | real_time_display.py:124-176 | consuming j replies and then one more is consuming j + 1, and the next reply after j is the j-th |
| Config.Lookup | connector.py:235-238 | a lookup misses exactly when the name is not a key, and otherwise finds the entry the table holds under that name |
| Config.DefaultLink | config.py:2-11 | the default link is slave 1 at 9600 baud, 8 data bits, no parity, 1 stop bit, on a named port |
| Config.RegisterMapFormats | config.py:14-44 | every descriptor of the register map is a float_inverse or a ushort |
| Config.RegisterSpansDisjoint | config.py:14-44 | no two descriptors share a start address, and their register ranges do not overlap |
| Config.FlowDirectionKeys | config.py:47-51 | the direction codes are exactly 0, 1 and 2 |
| Config.StatusBitKeys | config.py:54-63 | the status table has eight entries, for bits 0 to 7 in ascending order |
| Config.RegisterMapIsDict | config.py:14-44 | the register map has ten distinct names |
| Config.MissingKeys | main.py:57 | 'model_code', 'alarms' and 'positive_total_int', which other code looks up, are not in the register map |
| Config.NoTotalHalves | models.py:60-67 | no register map name ends in '_total_int' or '_total_dec' |
| Crc16.CrcFromSnoc | connector.py:19-26 | appending a byte to the data performs exactly one more outer-loop pass on the register |
| Crc16.CrcFromAppend | connector.py:19-26 | feeding two pieces one after the other gives the register of feeding their concatenation |
| Crc16.RoundKeepsApart | connector.py:21-26 | one round never maps two different registers to the same register |
| Crc16.RoundsKeepApart | connector.py:21-26 | any number of rounds keeps two different registers different |
| Crc16.StepKeepsApart | connector.py:20-26 | two different registers absorbing the same byte stay different |
| Crc16.StepSeparatesBytes | connector.py:20-26 | one register absorbing two different bytes gives two different registers |
| Crc16.CrcFromKeepsApart | connector.py:19-26 | two different registers stay different whatever data follows |
| Crc16.SingleByteErrorDetected | connector.py:16-27 | changing any one byte of the data changes its CRC |
| Crc16.CrcRange | connector.py:16-27 | the CRC of no bytes is 0xFFFF, and every CRC fits in 16 bits |
| Crc16.XorStaysIn16Bits | connector.py:20 | `crc ^= byte` on an unbounded integer below 2^16 stays below 2^16 and agrees with the 16-bit xor |
| Crc16.RoundStaysIn16Bits | connector.py:22-26 | one shift-and-conditional-xor round on an unbounded integer stays below 2^16 and agrees with the 16-bit round |
| Crc16.AbsorbByte | connector.py:20-26 | the inner eight-round loop computes one step of the CRC fold |
| Crc16.CalculateCrc | connector.py:16-27 | the loop returns the CRC16/MODBUS of the data, a value in [0, 0xFFFF] |
| Crc16.AbsorbByteCombined | simple_connector.py:43-48 | the one-assignment round form computes the same step |
| Crc16.CalculateCrcCombined | simple_connector.py:39-49 | simple_connector's CRC equals connector's CRC on every input |
| Crc16.StepUnrolled | connector.py:20-26 | one byte step is the xor followed by exactly eight rounds |
| Crc16.InstantFlowRequestCrc | connection.py:25 | the request for two registers at 0x1010 from slave 1 has CRC 0xCE74 |
| Crc16.TotalFlowRequestCrc | connection.py:27 | the request for two registers at 0x1012 from slave 1 has CRC 0x0ED5 |
| Crc16.DirectionRequestCrc | connection.py:29 | the request for one register at 0x1001 from slave 1 has CRC 0xCA64 |
| Frame.RequestBody | connector.py:114-121 | a request header is six bytes |
| Frame.WithCrc | connector.py:124-126 | appending the CRC adds two bytes and keeps the body as the frame's prefix |
| Frame.BuildRequest | connector.py:114-126 | building the bytearray and appending the CRC gives the eight-byte request frame |
| Frame.RequestLayout | connector.py:114-126 | a request is slave, function code, address high and low, count high and low, then the CRC low byte first |
| Frame.WithCrcPasses | connector.py:124-126 | a frame built by appending its body's CRC passes the reply check |
| Frame.CrcMatchesIff | connector.py:141-144 | a reply passes the CRC check exactly when it is its own first bytes with their CRC appended |
| Frame.RequestPassesCrc | connector.py:114-126 | every request frame passes the CRC check a receiver applies |
| Frame.BodyByteErrorDetected | connector.py:141-146 | a reply that passed the CRC check fails it once one byte the CRC covers is changed |
| Frame.CrcByteErrorDetected | connector.py:141-146 | a reply that passed the CRC check fails it once one of its two CRC bytes is changed |
| Frame.FrameByteErrorDetected | connector.py:141-146 | a reply that passed the CRC check fails it once any one of its bytes is changed |
| Frame.SingleBitFlipDetected | connector.py:141-146 | the CRC check rejects every reply with exactly one bit inverted |
| Frame.ReplyPayload | connector.py:135-149 | a well-formed reply has five bytes more than its data, starts with the slave, passes the CRC check and has the data as payload |
| Decode.WordSwapInvolution | connector.py:218-219 | swapping the words twice restores the bytes |
| Decode.ParseFloatInverse | connector.py:212-221 | the float parser gives a value exactly when given four bytes |
| Decode.FloatInverseRoundTrip | connector.py:212-221 | parsing the low-word-first bytes of a float gives the float back |
| Decode.FloatInverseExact | connector.py:212-221 | whatever parses as a float is exactly that float's encoding |
| Decode.BigEndian32 | connector.py:228-229 | four big-endian bytes are an unsigned 32-bit value |
| Decode.BigEndian32OfBytes | connector.py:228-229 | encoding an unsigned 32-bit value and reading it back gives the value |
| Decode.DivMod16Bits | connector.py:228-229 | splitting `h * 2^16 + l` at 16 bits gives h and l back |
| Decode.BytesOfBigEndian32 | connector.py:228-229 | reading four bytes as a value and encoding it gives the bytes back |
| Decode.ToInt32 | connector.py:228-229 | the signed reading lies in the 32-bit range and is congruent to the unsigned value |
| Decode.ParseLongInverse | connector.py:223-231 | the long parser gives a value exactly when given four bytes, and the value is a signed 32-bit integer |
| Decode.LongInverseRoundTrip | connector.py:223-231 | parsing the low-word-first bytes of a signed 32-bit value gives it back |
| Decode.LongInverseExact | connector.py:223-231 | every four-byte payload is the encoding of the long it parses to |
| Connector.Delayed | connector.py:101-106 | after the delay the clock is at least MinDelay past the last request and has not gone back; it waits only when needed |
| Connector.HoldingReply | connector.py:137-160 | an accepted one-register read is a 16-bit number; any other accepted read is the payload |
| Connector.InputReply | connector.py:195-206 | an accepted input read is the reply minus its five framing bytes |
| Connector.HoldingReplyAccepts | connector.py:137-146 | a holding read is accepted exactly when the reply has at least five bytes (at least seven for a one-register read) and its CRC matches |
| Connector.HoldingReplyValue | connector.py:149-160 | an accepted one-register read is `(d[0] << 8) \| d[1]`; any other count returns `response[3:-2]` |
| Connector.HoldingAgreesWithInput | connector.py:137-160 | apart from a one-register read, function 0x03 and 0x04 accept the same replies and return the same bytes |
| Connector.AcceptedFrame | connector.py:135-160 | a full-length reply that passes the CRC check is accepted by both reads, with its data |
| Connector.DeviceReplyAccepted | connector.py:135-206 | the meter's well-formed reply to a read of n registers comes back as the register bytes it carried |
| Connector.RequestCount | connector.py:242-256 | read_parameter reads registers exactly for float_inverse, ushort and string descriptors |
| Connector.StringRegisterCount | connector.py:251-252 | a string reads `(length + 1) // 2` registers, just enough for its length; the default length 8 gives 4 |
| Connector.AsciiDecode | connector.py:255 | ignoring errors keeps only ASCII characters, never lengthens the text, drops at least one character when a byte is above 127, and decodes all-ASCII bytes character for character |
| Connector.AsciiDecodeAppend | connector.py:255 | decoding works byte by byte: the text of joined bytes is the joined texts |
| Connector.DropLeadingNul | connector.py:255 | stripping leading NULs removes exactly the leading NUL run |
| Connector.DropTrailingNul | connector.py:255 | stripping trailing NULs removes exactly the trailing NUL run |
| Connector.FloatParameterRoundTrip | connector.py:242-245 | a float the meter sends in a checked nine-byte reply is what read_parameter returns |
| Connector.UShortParameterRoundTrip | connector.py:247-248 | a 16-bit value the meter sends in a checked seven-byte reply is what read_parameter returns |
| Connector.SweepKeys | connector.py:259-268 | the result dict holds only names from the table |
| Connector.SweepStaysRaised | connector.py:259-268 | once read_parameter raises, the rest of the table is not read |
| Connector.SweepClosed | connector.py:259-268 | with no open port the sweep writes nothing, consumes nothing and returns an empty dict |
| Connector.SweepOfFloatsAndShorts | connector.py:259-268 | on a table of floats and ushorts the sweep never raises and writes one frame per entry when the port is open |
| Connector.LookupEntry | connector.py:238 | in a table with distinct names, an entry's own name finds that entry |
| Connector.FirstAdapter | connector.py:54-59 | the result is the first port whose description names an adapter, or none when no port does |
| Connector.SelectPortRules | connector.py:43-63 | an explicit port wins, then the configured one; otherwise the first adapter with a device name, else the first port; no port is chosen only when none is given, configured or listed |
| Connector.ModbusRtuConnector.constructor | connector.py:9-14 | a new connector has no port open, is not connected and has written nothing |
| Connector.ModbusRtuConnector.EnsureDelay | connector.py:101-106 | afterwards at least MinDelay has passed since the last request |
| Connector.ModbusRtuConnector.Write | connector.py:131-132 | the frame is logged with its time, which becomes last_request, and requests stay MinDelay apart |
| Connector.ModbusRtuConnector.Exchange | connector.py:110-135 | on an open port one request is written after the delay and one reply is read, truncated to `5 + 2 * count + 2` bytes; a closed port writes nothing |
| Connector.ModbusRtuConnector.ReadHoldingRegister | connector.py:108-164 | returns the holding-read decision on the truncated reply, writes the function-0x03 request and consumes one reply |
| Connector.ModbusRtuConnector.ReadInputRegister | connector.py:166-210 | returns the input-read decision on the truncated reply, writes the function-0x04 request and consumes one reply |
| Connector.ModbusRtuConnector.TestConnection | connector.py:92-99 | succeeds exactly when a one-register holding read of 0x1000 is accepted |
| Connector.ModbusRtuConnector.ReadDescribed | connector.py:240-257 | returns read_parameter's value for the descriptor and performs its reads |
| Connector.ModbusRtuConnector.ReadParameter | connector.py:233-257 | a name missing from the table gives None and leaves the port alone; otherwise the descriptor's reads and value |
| Connector.ModbusRtuConnector.ReadAllParameters | connector.py:259-268 | the dict, frames written and replies consumed are those of the sweep over the register map |
| Connector.ModbusRtuConnector.FindAdapter | connector.py:54-59 | the loop finds the first adapter port |
| Connector.ModbusRtuConnector.ChoosePort | connector.py:43-63 | the configured port becomes the selected one; with nothing to select the method fails and the config is unchanged |
| Connector.ModbusRtuConnector.OpenAndTest | connector.py:65-90 | a port that fails to open leaves the connector disconnected; an opened port stays open and connected exactly when the test read is accepted |
| Connector.ModbusRtuConnector.Connect | connector.py:40-90 | no port to select returns False untouched; otherwise the port is stored, and the result is connected exactly when it opens and the test read succeeds |
| Connector.ModbusRtuConnector.Disconnect | connector.py:270-276 | the port ends closed; the connected flag is cleared only when a port was open |
| FlowMeterModel.TotalFlow | models.py:17-27 | no total unless both parts were read; the total is their sum, floored at 0 |
| FlowMeterModel.Limit | models.py:50-55 | a stored flow_percentage lies in [0, 100] and is unchanged when already in range; other readings are unchanged |
| FlowMeterModel.Finish | models.py:78-84 | the method returns None exactly when an exception left the dict empty, and otherwise the partial or full dict |
| FlowMeterModel.MeasureKeys | models.py:37-57 | the measurement loop stores only table names other than 'alarms' and the totals |
| FlowMeterModel.MeasureStoresEveryName | models.py:37-57 | without exceptions every measured name gets a key, even when its reading is None |
| FlowMeterModel.MeasureCounts | models.py:43-48 | each read asks for two registers for a float or long and one otherwise, after the earlier calls |
| FlowMeterModel.PercentageClamped | models.py:50-57 | a stored flow_percentage is always within [0, 100] |
| FlowMeterModel.MeasureStaysFailed | models.py:35-57 | once a read raises, the rest of the loop does nothing |
| FlowMeterModel.TotalStepKeeps | models.py:60-67 | a total statement adds at most its own key |
| FlowMeterModel.AlarmStepKeeps | models.py:69-74 | the alarm block adds at most the key 'alarms' |
| FlowMeterModel.CollectKeys | models.py:35-76 | the dict holds measured names plus 'positive_total', 'negative_total' and 'alarms' only, and flow_percentage stays clamped |
| FlowMeterModel.FirstReadFails | models.py:78-82 | a failure on the first measured read returns None |
| FlowMeterModel.InstantFlowMeasured | config.py:16 | instant_flow, the first register map entry, is measured |
| FlowMeterModel.PositiveTotalSkipped | models.py:40 | the key 'positive_total' contains 'total' |
| FlowMeterModel.AsWrittenReturnsNone | models.py:44 | with the missing `read_register` raising on its first call, read_all_parameters on the register map returns None |
| FlowMeterModel.MeasureWithoutFailures | models.py:37-57 | a reader that never raises keeps the loop free of exceptions |
| FlowMeterModel.StopsAtTotals | models.py:60-63 | a table lacking 'positive_total_int' stops at the KeyError with the measurements kept, and no totals or alarms |
| FlowMeterModel.RegisterMapStopsAtTotals | models.py:59-74 | with the register map as written, read_all_parameters never gets past the totals |
| FlowMeterModel.AlarmStaysFailed | models.py:71-73 | once an alarm read raises, the rest of the alarm loop does nothing |
| FlowMeterModel.AlarmScanReads | models.py:70-73 | when no read raises, the alarm loop ends without error and uses one reader answer per alarm |
| FlowMeterModel.AlarmScanKeys | models.py:70-73 | when no read raises, the alarm flags are keyed by exactly the alarm names of the table |
| FlowMeterModel.AlarmScanFlags | models.py:70-73 | with distinct alarm names and no read raising, an alarm's flag is set exactly when its read returned a nonzero value; a read with no value gives False |
| FlowMeterModel.FlowMeter.constructor | models.py:6-9 | the connector gets the given or default config; not connected, no read time |
| FlowMeterModel.FlowMeter.Connect | models.py:11-15 | connected exactly when the connector connects; the read time is stamped only then; the connector's new port, open and connected flags, written test frame, consumed reply and clock are those of its own connect, and stay as they were when no port is chosen or the port fails to open |
| FlowMeterModel.FlowMeter.Disconnect | models.py:86-88 | the meter and the port end disconnected; the connector's own flag is cleared when the port was open and left as it was otherwise |
| FlowMeterModel.FlowMeter.ReadRegister | models.py:44-48 | one call to the reader, recorded with its arguments |
| FlowMeterModel.FlowMeter.Measure | models.py:37-57 | the loop produces the measurement scan's dict, reader state and error |
| FlowMeterModel.FlowMeter.GetTotalFlow | models.py:17-27 | reads the integer then the decimal part and returns their floored sum, or the exception |
| FlowMeterModel.FlowMeter.StoreTotal | models.py:60-67 | one total statement as the total step describes |
| FlowMeterModel.FlowMeter.ReadAlarms | models.py:69-74 | the alarm loop as the alarm step describes |
| FlowMeterModel.FlowMeter.ReadAllParameters | models.py:29-84 | without a connection raises ConnectionError and reads nothing; otherwise returns the collected dict and stamps the time only when nothing raised |
| RealTimeDisplay.FloatReply | real_time_display.py:74-86 | a float is returned exactly when nine bytes arrived and their CRC matches |
| RealTimeDisplay.UShortReply | real_time_display.py:112-114 | a ushort is returned exactly when seven bytes arrived, with no CRC check, and it is 16-bit |
| RealTimeDisplay.FloatReplyAgreesWithConnector | real_time_display.py:74-86 | on nine bytes the check and value agree with connector's CRC check and float parser |
| RealTimeDisplay.FloatReplyRoundTrip | real_time_display.py:74-86 | a float the meter sends in a checked nine-byte reply is returned unchanged |
| RealTimeDisplay.UShortIgnoresCrc | real_time_display.py:112-114 | the ushort does not depend on the two CRC bytes |
| RealTimeDisplay.CorruptedUShortAccepted | real_time_display.py:110-114 | a reply corrupted in its CRC fails the check yet gives the same ushort |
| RealTimeDisplay.DirectionRules | real_time_display.py:147-160 | code 0 is forward, 1 reverse, any other code stopped, and a failed read unknown, each with its symbol |
| RealTimeDisplay.AlarmRules | real_time_display.py:170-176 | has_alarm holds exactly when an alarm word was read and is positive; a failed read gives alarm 0 |
| RealTimeDisplay.AllReadsFailed | real_time_display.py:121-178 | with every read failed, each float is 0.0, the direction unknown and no alarm |
| RealTimeDisplay.FlowMeterDisplay.constructor | real_time_display.py:9-14 | COM4, slave 1, 9600 baud, no port open |
| RealTimeDisplay.FlowMeterDisplay.Connect | real_time_display.py:23-38 | returns whether the port opened, and a success marks it open and connected |
| RealTimeDisplay.FlowMeterDisplay.Transact | real_time_display.py:57-72 | on an open port writes one function-0x04 request and reads the next reply truncated to the length |
| RealTimeDisplay.FlowMeterDisplay.ReadFloatRegister | real_time_display.py:53-91 | the float check on the next reply truncated to 9 bytes, after writing a two-register request |
| RealTimeDisplay.FlowMeterDisplay.ReadUShortRegister | real_time_display.py:93-119 | the ushort check on the next reply truncated to 7 bytes, after writing a one-register request |
| RealTimeDisplay.FlowMeterDisplay.ReadSix | real_time_display.py:126-170 | the six reads see the six next replies in order and write the six requests in order |
| RealTimeDisplay.FlowMeterDisplay.GetFlowData | real_time_display.py:121-178 | the dict is the flow data of the six replies, with the frames and replies of the six reads |
| SimpleReader.Decoded | simple_reader.py:73-93 | a value is returned exactly when at least five bytes arrived with a matching CRC; it is a float exactly for a nine-byte two-register reply, otherwise the payload |
| SimpleReader.DecodedFloatIsInverse | simple_reader.py:86-91 | the float is the CDAB parse of the payload |
| SimpleReader.FloatReplyRoundTrip | simple_reader.py:73-91 | a float the meter frames in a two-register reply is read back unchanged |
| SimpleReader.RawReplyRoundTrip | simple_reader.py:73-93 | any other well-framed reply comes back as its register bytes |
| SimpleReader.Names | simple_reader.py:104-112 | every name of the table is a key, and every key is a name of the table |
| SimpleReader.Collected | simple_reader.py:114-117 | results hold only names of the table |
| SimpleReader.CollectedEntry | simple_reader.py:114-117 | with distinct names, an entry is present exactly when its read returned a value, and holds that value |
| SimpleReader.ClosedCollectsNothing | simple_reader.py:114-117 | with the port never opened, no result is stored |
| SimpleReader.CollectedPrefix | simple_reader.py:114-117 | only the first outcomes, one per entry, matter |
| SimpleReader.RegistersResults | simple_reader.py:104-117 | each of the seven names is present exactly when its read returned a value; a closed port gives no results |
| SimpleReader.Requests | simple_reader.py:114-115 | a sweep writes one request per entry |
| SimpleReader.CollectedSnoc | simple_reader.py:114-117 | reading entry i extends the results for the entries before it |
| SimpleReader.RequestsSnoc | simple_reader.py:114-115 | reading entry i writes one more two-register function-0x04 request |
| SimpleReader.SimpleFlowReader.constructor | simple_reader.py:8-12 | the given port, baud rate and slave, with no port open |
| SimpleReader.SimpleFlowReader.Connect | simple_reader.py:14-30 | returns whether the port opened; an open port stays open |
| SimpleReader.SimpleFlowReader.Disconnect | simple_reader.py:172-176 | the port ends closed |
| SimpleReader.SimpleFlowReader.ReadRegister | simple_reader.py:45-97 | on an open port writes the request, reads `5 + 2 * count + 2` bytes of the next reply and decodes them; a closed port gives None |
| SimpleReader.SimpleFlowReader.Sweep | simple_reader.py:114-119 | the results, frames and consumed replies of reading each entry in order |
| SimpleReader.SimpleFlowReader.ReadAllParameters | simple_reader.py:99-121 | the sweep over the seven fixed registers |
| SimpleConnector.ShortBody | simple_connector.py:55-62 | the header holds 0x00 and the count as its quantity bytes |
| SimpleConnector.ShortRequestAgrees | simple_connector.py:55-67 | for a count below 256 the request equals the one connector.py builds |
| SimpleConnector.Checked | simple_connector.py:76-91 | the payload is returned exactly when at least seven bytes arrived from the addressed slave with a matching CRC, and it holds at least two bytes |
| SimpleConnector.ReplyAccepted | simple_connector.py:76-91 | the addressed slave's framed reply with at least one register is returned as its data |
| SimpleConnector.OtherSlaveRefused | simple_connector.py:80-81 | a reply from any other slave is refused |
| SimpleConnector.ParseFloatInverseCases | simple_connector.py:97-105 | no bytes or a length other than four give None; four bytes give the CDAB float |
| SimpleConnector.InstantFlow | simple_connector.py:107-113 | None exactly when the read failed or returned no bytes; otherwise the parsed float, or 0.0 when it does not parse |
| SimpleConnector.InstantFlowOnlyFailsWithRead | simple_connector.py:107-113 | read_instant_flow returns None exactly when read_register did |
| SimpleConnector.AllDataKeys | simple_connector.py:115-144 | each key is present exactly when its read returned enough bytes and holds its decoding; no other key appears |
| SimpleConnector.SimpleFlowMeterReader.constructor | simple_connector.py:6-10 | the given port, baud rate and slave, with no port open |
| SimpleConnector.SimpleFlowMeterReader.ReadRegister | simple_connector.py:51-95 | a count above 255 fails before writing; otherwise an open port writes the request and applies the checks to the next reply |
| SimpleConnector.SimpleFlowMeterReader.Connect | simple_connector.py:12-37 | an opened port stays open, and the result is whether the test read of 0x1010 was accepted |
| SimpleConnector.SimpleFlowMeterReader.Disconnect | simple_connector.py:146-150 | the port ends closed |
| SimpleConnector.SimpleFlowMeterReader.ReadInstantFlow | simple_connector.py:107-113 | the instant flow of the next reply, after writing the request for 0x1010 |
| SimpleConnector.SimpleFlowMeterReader.ReadFive | simple_connector.py:120-140 | the five reads see the next five replies in order and write their requests in order |
| SimpleConnector.SimpleFlowMeterReader.ReadAllData | simple_connector.py:115-144 | the dict is the decoding of the five replies |
| Display.Pow2 | display.py:114 | `1 << b` is at least 1 |
| Display.SetBits | display.py:112-115 | the active descriptions are at most as many as the table's entries |
| Display.AlarmLine | display.py:107-116 | the loop computes the alarm text |
| Display.StatusLine | display.py:120-127 | the loop computes the status text over STATUS_BITS |
| Display.SetBitsMembers | display.py:112-115 | a description is listed exactly when its bit is set in the value |
| Display.SetBitsEmpty | display.py:122-127 | no description is listed exactly when no bit of the table is set |
| Display.SetBitsAgree | display.py:112-115 | two values that agree on the table's bits list the same descriptions |
| Display.AlarmStatusCases | display.py:107-116 | 0 reads NORMAL; a nonzero word shows the red marker and the first one or two active descriptions |
| Display.StatusStandby | display.py:120-127 | the status reads STANDBY exactly when no bit of the table is set |
| Display.JoinStartsWithFirst | display.py:116 | a join starts with its first part, followed by the separator when there is a second |
| Display.BitOfMod | display.py:114 | a bit depends only on the value modulo any higher power of two |
| Display.LowBitsClear | display.py:123-124 | the low n bits are clear exactly when the value is a multiple of 2^n |
| Display.ByteTableStandby | display.py:120-127 | for a table of bits 0 to 7, STANDBY exactly when the low byte is zero |
| Display.ByteTableIgnoresHighBits | display.py:120-127 | for a table of bits below 8, bits above bit 7 never change the status text |
| Display.StatusBitsLowByte | display.py:120-127 | with STATUS_BITS the status is STANDBY exactly when the low byte is 0, and depends only on the low byte |

## Left out

- Serial I/O. The port is replaced by a queue of replies and a log of written frames. Baud rate, parity, timeouts and `write_timeout` have no effect in the model. `reset_input_buffer()` is the rule that each read consumes one reply.
- Timing. `time.sleep` in simple_reader.py and the pauses between reads are not modelled. The connector's `_ensure_delay` is modelled on an abstract clock in microseconds.
- Threads. `threading.Lock` is left out. `connect` (connector.py:42) holds the lock while `test_connection` calls `read_holding_register` (connector.py:110), which takes it again. With a non-reentrant lock that call would block. The model treats the lock as reentrant.
- Floating point. A float is its four big-endian IEEE-754 bytes, and `struct.unpack('>f')` is taken as a bijection on those bytes. NaN, rounding and the printing of floats are not modelled. The totals of models.py and the clamp of flow_percentage use `real`.
- Exceptions from `struct.unpack` cannot happen on four bytes and are not modelled.
- `datetime.now()` is an abstract `now` field.
- Rendering and the CLI are not part of this model:
  - the screen drawing of display.py and real_time_display.py outside the alarm/status decoding;
  - `continuous_read` and `test_all_registers` of simple_reader.py;
  - the `main`/`run` functions.
- `DataLogger` (models.py:90-126) is not part of this model: it writes CSV files.
- The diagnostic scripts (check_ports, connection, register_scan, scanner, troubleshooter) and the pymodbus-based wrappers (modbus_client, flow_reader) are not part of this model.
- FlowMeterModel.FlowMeter.ReadRegister: models.py calls `self.connector.read_register`, which ModbusRTUConnector does not define. The reader is an abstract queue of answers, not the connector's reads.
- Display.AlarmLine: display.py imports ALARM_BITS from config.py, which does not define it. The alarm table is a parameter.
- A missing `alarm_status` or `device_status` key reads as 0. An explicit None, which would raise TypeError at `&`, is not modelled: values are integers.
- Bytes.Upper: only ASCII letters are upper-cased. Python's full Unicode case mapping is not modelled.
- The slave address is a byte. Python's ValueError for an address or count outside 0..255 in `bytearray` is not modelled, except that SimpleConnector.SimpleFlowMeterReader.ReadRegister gives None for a count above 255.
- Replies are not checked for the slave address (except in simple_connector.py), the function code, the byte count or MODBUS exception responses. This matches the source.
- An empty reply queue reads as zero bytes, as a timed-out read does.
- Connector.SweepKeys: it states only that the keys come from the table. Which names are present is stated per read by ReadParameter.
- SimpleReader.Requests: it states only the number of frames. Their contents are stated one at a time by RequestsSnoc.
