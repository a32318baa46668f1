# Vestwoods BMS protocol engine

A Dafny model of the Bluetooth protocol engine of the Vestwoods BMS Home
Assistant integration (`custom_components/vestwoodsbms/vestwoods_bms_client.py`).
The engine polls a battery management system over BLE. It collects the
notification chunks the device sends back in a byte buffer, cuts complete
frames out of that buffer, checks and decodes each one into a telemetry
record, and publishes every field of the record as an MQTT message. A run
loop reconnects after a failure.

The model has six modules, one file each:

- `Bytes`: bytes as integers in [0, 256) and the big-endian 16-bit word read (`struct.unpack('>H', …)`).
- `Crc16`: `calc_crc`. This is CRC-16/MODBUS from section 6.2.2 of the Modbus over Serial Line Specification V1.02: reflected polynomial 0xA001, initial value 0xFFFF, no final XOR. The model defines the register bit by bit (`Register`, `Crc`). The method `CalcCrc` with its two nested loops is proved equal to that definition.
- `Frame`: `parse_response`. There are five checks, in the source's order. They are followed by a sequential decode from offset 6 with two counted arrays (N cell voltages, M cell temperatures).
  - Each call has one of three outcomes: `Rejected(reason)` when the source returns `{}`; `Accepted(record)`; and `Raised` when a read runs past the end (an `IndexError` or `struct.error` in Python).
  - Scaled values are exact integers: millivolts, centi-units, and current as `raw - 30000` centiamps. Fault, alert and status bytes are kept raw.
- `Reassembly`: the `while self.notification_data` loop. `StepOf` gives one pass: strip noise before the first 0x7A, stop on a short header or a short body, drop one byte on a bad end sentinel, or hand over a `data[2] + 4`-byte candidate. `Drain` runs the loop to its end. The parser is a parameter, so the properties hold whatever it does; the source's loop is `Drain(buf, ParseRaises)`. `CutCandidate` is the imperative pass that `Drain` specifies.
- `Publish`: the publish loop. An accepted record becomes an ordered list of (topic, value) pairs: `prefix/key` for scalars, `prefix/cellVoltage_{i+1}` and `prefix/cellTemperature_{i+1}` for list elements. The scalar topics are the ones the sensors subscribe to (`custom_components/vestwoods_bms/sensor.py:110`).
- `Client`: the `VestwoodsBMSClient` class with its buffer, its client reference and its `_is_connected` flag. It covers `on_disconnect`, `connect`, `disconnect`, `_notification_handler`, `read_and_publish_data`, and one pass of `run`.
  - The radio and the clock are inputs. A `ConnectAttempt` says how scanning and connecting end. A `Capture` lists the notification chunks that arrive during the two-second window and says how the capture ends: completed, failed with a BLE error, or failed with any other exception.
  - Publications and sleeps are returned as lists instead of performed.

Behaviour of the code worth knowing:

- The buffer is created once in the constructor. It is never cleared on connect or on disconnect, so bytes from before a reconnect stay in it (`Connect` and `Disconnect` keep `buffer`).
- A frame whose declared N or M runs past its end is not treated as a rejected frame. The parser raises, and the loop stops before it removes the candidate. `run` catches the error, disconnects, and sleeps 60 seconds and then the refresh interval. The same candidate stays at the front of the buffer, so every later cycle raises again (`RaisedCandidateStays`).
- A BLE error during the capture is caught inside `read_and_publish_data`. That method disconnects, and `run` then sleeps only the refresh interval, with no 60-second backoff (`RunOnce`). Any other exception from the capture, a timeout say, reaches `run`, which disconnects and sleeps 60 seconds and then the refresh interval.
- A failed connect sleeps 60 seconds and then, through `finally`, the refresh interval as well.

## Model

| member | source | states |
|---|---|---|
| Bytes.U16 | custom_components/vestwoodsbms/vestwoods_bms_client.py:56-57 | a big-endian word is below 0x10000; its high byte is `s[i]` and its low byte is `s[i+1]` |
| Crc16.FeedByte | custom_components/vestwoodsbms/vestwoods_bms_client.py:27-32 | xoring in one byte and then eight conditional shifts with 0xA001 is exactly one step of the bitwise CRC register |
| Crc16.CalcCrc | custom_components/vestwoodsbms/vestwoods_bms_client.py:23-33 | the nested loops compute the CRC-16/MODBUS of the data, a value in [0, 0xFFFF] |
| Crc16.PollCommandChecksum | custom_components/vestwoodsbms/vestwoods_bms_client.py:21 | the CRC of `00 05 00 00 01` is 0x0CE5, the two checksum bytes written in the poll command |
| Crc16.CatalogueCheckValue | custom_components/vestwoodsbms/vestwoods_bms_client.py:23-33 | the CRC of the ASCII digits "123456789" is 0x4B37, the published check value of CRC-16/MODBUS |
| Frame.CrcSpan | custom_components/vestwoodsbms/vestwoods_bms_client.py:53 | the CRC covers every byte except the start sentinel, the two CRC bytes and the end sentinel |
| Frame.Validate | custom_components/vestwoodsbms/vestwoods_bms_client.py:37-68 | each rejection reason holds exactly when the earlier checks pass and its own check fails: too short, bad sentinels, bad length, bad CRC, bad command; a frame passes iff all five hold |
| Frame.Current | custom_components/vestwoodsbms/vestwoods_bms_client.py:107-108 | the current, `raw - 30000` centiamps from an unsigned word, lies in [-300.00 A, 355.35 A] |
| Frame.Temperature | custom_components/vestwoodsbms/vestwoods_bms_client.py:143-164 | every temperature is `raw - 50` and is never below -50 |
| Frame.CellVoltages | custom_components/vestwoodsbms/vestwoods_bms_client.py:83-88 | exactly N voltages; each is its word with the top bit masked off, so never above 32767 mV |
| Frame.CellTemperatures | custom_components/vestwoodsbms/vestwoods_bms_client.py:136-140 | exactly M temperatures; each is its word minus 50 |
| Frame.SummaryAt | custom_components/vestwoodsbms/vestwoods_bms_client.py:90-134 | max and min cell voltage are the unmasked words; current is in range; the temperature count is the byte after `nominalCapacity` |
| Frame.TrailerAt | custom_components/vestwoodsbms/vestwoods_bms_client.py:142-200 | the four temperatures are at least -50; cycle index, total voltage and status are read at their fixed offsets |
| Frame.Decode | custom_components/vestwoodsbms/vestwoods_bms_client.py:70-200 | the record has N = data[7] voltages, unmasked max/min, M temperatures with M the byte after `nominalCapacity`, the offset fields in range, and the status from the last byte read |
| Frame.ReadCellVoltages | custom_components/vestwoodsbms/vestwoods_bms_client.py:83-88 | the voltage loop succeeds iff its 2N bytes are present, and then it yields the N masked voltages |
| Frame.ReadCellTemperatures | custom_components/vestwoodsbms/vestwoods_bms_client.py:136-140 | the temperature loop succeeds iff its 2M bytes are present, and then it yields the M temperatures |
| Frame.ReadSummary | custom_components/vestwoodsbms/vestwoods_bms_client.py:90-134 | the offset-advancing reads after the voltages give the summary block at that offset |
| Frame.ReadTrailer | custom_components/vestwoodsbms/vestwoods_bms_client.py:142-200 | the offset-advancing reads after the temperatures give the trailer block at that offset |
| Frame.DecodeFields | custom_components/vestwoodsbms/vestwoods_bms_client.py:70-202 | the sequential decode accepts with the decoded record when every read is inside the data, and raises otherwise |
| Frame.ParseResponse | custom_components/vestwoodsbms/vestwoods_bms_client.py:35-202 | `parse_response` rejects with the first failing check, and otherwise accepts the decoded record or raises on overrun |
| Frame.CrcByteAltered | custom_components/vestwoodsbms/vestwoods_bms_client.py:52-61 | changing either CRC byte of a frame that passes the checks makes it rejected for a bad CRC |
| Frame.TrailerReadAsData | custom_components/vestwoodsbms/vestwoods_bms_client.py:190-200 | when the decode uses the whole frame, `totalVoltage` is the CRC field and `bmsStatus` is the end sentinel 0xA7 |
| Frame.DecodeCompletesIff | custom_components/vestwoodsbms/vestwoods_bms_client.py:70-200 | a valid frame is accepted iff 46 + 2N + 2M <= len, and the parser raises exactly when the reads do not fit |
| Publish.LeadingScalars | custom_components/vestwoodsbms/vestwoods_bms_client.py:74-81 | the two keys before the voltages are scalars |
| Publish.MiddleScalars | custom_components/vestwoodsbms/vestwoods_bms_client.py:90-134 | the eleven keys between the two lists are scalars |
| Publish.TrailingScalars | custom_components/vestwoodsbms/vestwoods_bms_client.py:142-200 | the fifteen keys after the temperatures are scalars |
| Publish.Decimal | custom_components/vestwoodsbms/vestwoods_bms_client.py:302 | the element index in a topic is a non-empty string of digits |
| Publish.DecimalValue | custom_components/vestwoodsbms/vestwoods_bms_client.py:302 | the index text is the numeral of the number: it denotes it and has no leading zero, as an f-string writes an integer |
| Publish.Enumerated | custom_components/vestwoodsbms/vestwoods_bms_client.py:301-307 | a list gives exactly one publication per element |
| Publish.PlanPublications | custom_components/vestwoodsbms/vestwoods_bms_client.py:297-310 | the publish loop emits the dictionary's publications in item order: list elements one by one, every other key once |
| Publish.ScalarsPublished | custom_components/vestwoodsbms/vestwoods_bms_client.py:308-310 | scalar entries go one to one, in order, to `prefix/key` with their own value |
| Publish.EnumeratedAt | custom_components/vestwoodsbms/vestwoods_bms_client.py:301-307 | the i-th element goes to `stem_{i+1}` with the i-th value |
| Publish.ElementsPublished | custom_components/vestwoodsbms/vestwoods_bms_client.py:301-307 | every element of a list goes to its 1-based numbered topic with its value |
| Publish.ListsBetweenScalarsSplit | custom_components/vestwoodsbms/vestwoods_bms_client.py:297-310 | publishing a dictionary with two lists among scalars is the five parts published one after the other |
| Publish.ListsBetweenScalars | custom_components/vestwoodsbms/vestwoods_bms_client.py:297-310 | the publications are one per scalar plus one per element; the element publications sit where their list sat; each scalar is at its own place |
| Publish.RecordPublications | custom_components/vestwoodsbms/vestwoods_bms_client.py:297-312 | an accepted record yields 28 + N + M publications in field order: 2 scalars, N voltages to `cellVoltage_{i+1}`, 11 scalars, M temperatures to `cellTemperature_{j+1}`, 15 scalars |
| Publish.CandidatePublicationCount | custom_components/vestwoodsbms/vestwoods_bms_client.py:296-312 | a candidate yields 28 + N + M publications when accepted and none when rejected or when the parser raises |
| Reassembly.IndexOf | custom_components/vestwoodsbms/vestwoods_bms_client.py:268 | `find` returns -1 iff the byte is absent, and otherwise a position holding it |
| Reassembly.Find | custom_components/vestwoodsbms/vestwoods_bms_client.py:268 | the scan returns the first position of the byte, or -1 |
| Reassembly.StopFacts | custom_components/vestwoodsbms/vestwoods_bms_client.py:268-287 | when the loop stops, the buffer is empty if it held no 0x7A, and otherwise starts at its first 0x7A |
| Reassembly.ResyncFacts | custom_components/vestwoodsbms/vestwoods_bms_client.py:289-294 | a bad end sentinel drops the noise and exactly one byte, the 0x7A |
| Reassembly.HandFacts | custom_components/vestwoodsbms/vestwoods_bms_client.py:274-296 | a handed candidate is the first `data[2]+4` bytes from the first 0x7A; it starts with 0x7A, ends with 0xA7; what follows it is kept |
| Reassembly.StepShrinks | custom_components/vestwoodsbms/vestwoods_bms_client.py:267-314 | every pass that goes on strictly shrinks the buffer, so the loop ends |
| Reassembly.ParseRaisesExactly | custom_components/vestwoodsbms/vestwoods_bms_client.py:70-200 | the parser raises exactly on frames that pass every check but whose reads run past the end |
| Reassembly.DrainWait | custom_components/vestwoodsbms/vestwoods_bms_client.py:278-287 | a pass on a short header or short body ends the loop with nothing handed |
| Reassembly.DrainRaised | custom_components/vestwoodsbms/vestwoods_bms_client.py:296-314 | a candidate the parser raises on ends the loop with the candidate still in the buffer |
| Reassembly.DrainResync | custom_components/vestwoodsbms/vestwoods_bms_client.py:291-294 | a bad end sentinel leaves a shorter buffer and the loop goes on from it |
| Reassembly.DrainHand | custom_components/vestwoodsbms/vestwoods_bms_client.py:289-314 | a candidate that does not raise is handed over, removed whole, and the loop goes on after it |
| Reassembly.CutCandidate | custom_components/vestwoodsbms/vestwoods_bms_client.py:268-293 | one pass of the loop body computes what the step function says: wait, resynchronise, or a candidate with the buffer from its sentinel |
| Reassembly.NoSentinelCleared | custom_components/vestwoodsbms/vestwoods_bms_client.py:268-272 | a buffer with no 0x7A is cleared and nothing is handed |
| Reassembly.PartialFrameKept | custom_components/vestwoodsbms/vestwoods_bms_client.py:274-287 | a short header or short body after the first 0x7A stops the loop with the buffer starting at that 0x7A |
| Reassembly.HandedAreFramed | custom_components/vestwoodsbms/vestwoods_bms_client.py:282-296 | every candidate handed to the parser starts with 0x7A, ends with 0xA7 and is `data[2]+4` bytes long |
| Reassembly.NextIsSuffix | custom_components/vestwoodsbms/vestwoods_bms_client.py:276-314 | a pass that goes on keeps a suffix of the buffer |
| Reassembly.LastRestIsSuffix | custom_components/vestwoodsbms/vestwoods_bms_client.py:276-314 | the last pass leaves a suffix of its buffer |
| Reassembly.RestIsSuffix | custom_components/vestwoodsbms/vestwoods_bms_client.py:267-314 | what the loop leaves is a suffix of the buffer: bytes are only removed from the front |
| Reassembly.HandAt | custom_components/vestwoodsbms/vestwoods_bms_client.py:274-296 | a handed candidate is the slice at the first 0x7A, and the loop continues right after it |
| Reassembly.HandedInBufferOrder | custom_components/vestwoodsbms/vestwoods_bms_client.py:267-314 | the candidates are disjoint slices of the original buffer, handed over in buffer order |
| Reassembly.WholeFrame | custom_components/vestwoodsbms/vestwoods_bms_client.py:267-314 | a buffer holding one frame hands exactly that frame and is emptied, unless the parser raises on it |
| Reassembly.FramePrefixWaits | custom_components/vestwoodsbms/vestwoods_bms_client.py:278-287 | a strict prefix of a frame is kept whole and nothing is handed |
| Reassembly.FrameAtFront | custom_components/vestwoodsbms/vestwoods_bms_client.py:282-296 | a buffer that starts with a frame hands that frame and keeps the rest |
| Reassembly.TwoFrames | custom_components/vestwoodsbms/vestwoods_bms_client.py:267-314 | two frames back to back are handed in order, when the first does not raise |
| Reassembly.RaisedLeavesCandidate | custom_components/vestwoodsbms/vestwoods_bms_client.py:296-314 | when the parser raises, the last handed candidate is the one that raised, and the buffer still starts with it |
| Reassembly.RaisedCandidateStays | custom_components/vestwoodsbms/vestwoods_bms_client.py:267-314 | after a raise, whatever arrives next, the next drain hands the same candidate first and raises again, and nothing is removed |
| Client.PublishCandidate | custom_components/vestwoodsbms/vestwoods_bms_client.py:296-312 | parsing then publishing a candidate fails exactly when the parser raises, and otherwise emits its planned publications |
| Client.DrainPass | custom_components/vestwoodsbms/vestwoods_bms_client.py:267-314 | one iteration either ends the loop with the final state or keeps the remaining loop's outcome and strictly shrinks the buffer; publications follow the handed candidates |
| Client.BmsClient.constructor | custom_components/vestwoodsbms/vestwoods_bms_client.py:206-219 | a new client has an empty buffer, no link and is not connected |
| Client.BmsClient.OnDisconnect | custom_components/vestwoodsbms/vestwoods_bms_client.py:221-223 | the disconnect callback clears the connected flag and nothing else |
| Client.BmsClient.Connect | custom_components/vestwoodsbms/vestwoods_bms_client.py:225-244 | an unseen device returns false; a link sets the flag from the link's state; the buffer is kept |
| Client.BmsClient.Disconnect | custom_components/vestwoodsbms/vestwoods_bms_client.py:246-250 | afterwards the client is not connected; the link and the buffer are kept |
| Client.BmsClient.NotificationHandler | custom_components/vestwoodsbms/vestwoods_bms_client.py:252-254 | a notification appends its bytes to the buffer |
| Client.BmsClient.Deliver | custom_components/vestwoodsbms/vestwoods_bms_client.py:262-265 | the chunks of a capture are appended in arrival order |
| Client.BmsClient.DrainBuffer | custom_components/vestwoodsbms/vestwoods_bms_client.py:267-314 | the loop hands over the candidates, leaves the rest and reports a raise exactly as `Drain` of the old buffer; the publications are those of the handed candidates |
| Client.BmsClient.ReadAndPublish | custom_components/vestwoodsbms/vestwoods_bms_client.py:256-318 | not connected: nothing happens; a BLE error in the capture: disconnect, the chunks stay buffered; another exception in the capture: it leaves the method, the chunks stay buffered; otherwise the buffer with the chunks is drained, and a parser raise leaves the method |
| Client.BmsClient.RunOnce | custom_components/vestwoodsbms/vestwoods_bms_client.py:320-341 | a failed or raising connect sleeps 60 then the refresh interval; a BLE error in the capture sleeps only the refresh interval; any other exception in the capture, or a parser raise, disconnects and sleeps 60 then the refresh interval |

## Left out

- The BLE transport is not modelled: scanning, `establish_connection`, `start_notify`, `write_gatt_char`, `stop_notify`, their timeouts, and the two-second capture wait. Their outcomes are the `ConnectAttempt` and `Capture` inputs.
- The MQTT sink and `json.dumps` are not modelled. A publication is a topic and a typed value.
- Float division and `round(...)` are not modelled. Readings stay exact integers in milli- or centi-units.
- The `hex()` text of the fault, alert and status bytes is not modelled. They stay raw bytes.
- Logging is not modelled.
- Concurrency is not modelled. `on_disconnect` and the notification callback cannot interleave with a drain: chunks are appended before the drain, and `OnDisconnect` is a separate operation.
- `asyncio.sleep` is not performed and cancellation is not modelled. `RunOnce` returns the durations it would sleep.
- Exceptions raised by `client.disconnect()` itself and by `mqtt.async_publish` are not modelled.
- The MAC address, `hass` and the logger are not modelled: the constructor keeps only the topic prefix.
- Frame.ParseResponse: the source bounds-checks each read, while the model checks once per run of fixed-width fields (`DecodeFields`). The first read past the end ends the parse either way, so the outcome is the same.
- Client.BmsClient.DrainBuffer: the loop works on a local copy of the buffer and writes it back once at the end. This is the same final state as reassigning the field on every pass, because nothing else touches the buffer during the loop.
- Client.BmsClient.RunOnce: models one iteration of the endless `while True`. Repeated runs are repeated calls.
- Crc16.CalcCrc: the final `& 0xFFFF` is the conversion of the 16-bit register to an integer. The register never leaves 16 bits, so the mask changes nothing.
- The Home Assistant setup, sensor entities and config flow (`custom_components/vestwoods_bms/`) are not part of this model.
