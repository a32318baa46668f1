/** The response frame of the BMS (command 0x0001): how a candidate byte
    sequence is checked, and how an accepted one is decoded field by field. */
module Frame {
  import opened Bytes
  import Crc16

  const StartSentinel: byte := 0x7A
  const EndSentinel: byte := 0xA7
  /** The command word a status response carries at bytes 4 and 5. */
  const ResponseCommand: nat := 0x0001
  const MinFrameLength: nat := 8
  /** The current field is an unsigned word offset by 300 A, i.e. 30000 cA. */
  const CurrentOffset: int := 30000
  /** Every temperature field is an unsigned value offset by 50 degrees. */
  const TemperatureOffset: int := 50

  /** Why a candidate is refused, one per check, in the order the checks run. */
  datatype Reason = TooShort | BadSentinel | BadLength | BadCrc | BadCommand

  datatype Check = Pass | Fail(reason: Reason)

  /** The decoded record, with the source's float scalings kept as exact
      integers: voltages of cells in millivolts, the current in centiamps,
      state of charge and health, capacities and the total voltage in
      hundredths, temperatures in degrees; fault, alert and status bytes raw. */
  datatype Telemetry = Telemetry(
    onlineStatus: byte,
    batteriesSeriesNumber: byte,
    cellVoltages: seq<nat>,
    maxCellNumber: byte,
    maxCellVoltage: nat,
    minCellNumber: byte,
    minCellVoltage: nat,
    totalCurrent: int,
    soc: nat,
    soh: nat,
    actualCapacity: nat,
    surplusCapacity: nat,
    nominalCapacity: nat,
    batteriesTemperatureNumber: byte,
    cellTemperatures: seq<int>,
    environmentalTemperature: int,
    pcbTemperature: int,
    maxTemperatureCellNumber: byte,
    maxTemperatureCellValue: int,
    minTemperatureCellNumber: byte,
    minTemperatureCellValue: int,
    bmsFault1: byte,
    bmsFault2: byte,
    bmsAlert1: byte,
    bmsAlert2: byte,
    bmsAlert3: byte,
    bmsAlert4: byte,
    cycleIndex: nat,
    totalVoltage: nat,
    bmsStatus: byte)

  /** The 19 bytes between the cell voltages and the cell temperatures. */
  datatype Summary = Summary(
    maxCellNumber: byte,
    maxCellVoltage: nat,
    minCellNumber: byte,
    minCellVoltage: nat,
    totalCurrent: int,
    soc: nat,
    soh: nat,
    actualCapacity: nat,
    surplusCapacity: nat,
    nominalCapacity: nat,
    batteriesTemperatureNumber: byte)

  /** The 19 bytes after the cell temperatures. */
  datatype Trailer = Trailer(
    environmentalTemperature: int,
    pcbTemperature: int,
    maxTemperatureCellNumber: byte,
    maxTemperatureCellValue: int,
    minTemperatureCellNumber: byte,
    minTemperatureCellValue: int,
    bmsFault1: byte,
    bmsFault2: byte,
    bmsAlert1: byte,
    bmsAlert2: byte,
    bmsAlert3: byte,
    bmsAlert4: byte,
    cycleIndex: nat,
    totalVoltage: nat,
    bmsStatus: byte)

  /** What `parse_response` does with a candidate: refuses it (returns an empty
      dictionary), decodes it, or raises because a field lies past the end. */
  datatype Parsed = Rejected(reason: Reason) | Accepted(record: Telemetry) | Raised

  // ---------------------------------------------------------------------------
  // The five checks

  predicate SentinelsOk(data: seq<byte>)
    requires |data| > 0
  {
    data[0] == StartSentinel && data[|data| - 1] == EndSentinel
  }

  /** The length byte counts everything but the start sentinel, the length
      byte's neighbours and the end sentinel: a frame is `data[2] + 4` long. */
  function FrameLength(data: seq<byte>): nat
    requires |data| > 2
  {
    data[2] as nat + 4
  }

  predicate LengthOk(data: seq<byte>)
    requires |data| > 2
  {
    |data| == FrameLength(data)
  }

  /** The span the checksum covers: everything after the start sentinel and
      before the two checksum bytes. */
  function CrcSpan(data: seq<byte>): (span: seq<byte>)
    requires |data| >= 4
    ensures |span| == |data| - 4
  {
    data[1..|data| - 3]
  }

  /** The big-endian checksum word just before the end sentinel. */
  function CrcField(data: seq<byte>): nat
    requires |data| >= 4
  {
    U16(data, |data| - 3)
  }

  predicate CrcOk(data: seq<byte>)
    requires |data| >= 4
  {
    CrcField(data) == Crc16.Crc(CrcSpan(data))
  }

  predicate CommandOk(data: seq<byte>)
    requires |data| >= 6
  {
    U16(data, 4) == ResponseCommand
  }

  /** The checks of `parse_response`; the first that fails names the reason. */
  function Validate(data: seq<byte>): (c: Check)
    ensures c == Fail(TooShort) <==> |data| < MinFrameLength
    ensures c == Fail(BadSentinel) <==> |data| >= MinFrameLength && !SentinelsOk(data)
    ensures c == Fail(BadLength) <==>
      |data| >= MinFrameLength && SentinelsOk(data) && !LengthOk(data)
    ensures c == Fail(BadCrc) <==>
      |data| >= MinFrameLength && SentinelsOk(data) && LengthOk(data) && !CrcOk(data)
    ensures c == Fail(BadCommand) <==>
      |data| >= MinFrameLength && SentinelsOk(data) && LengthOk(data) && CrcOk(data) && !CommandOk(data)
    ensures c == Pass <==>
      |data| >= MinFrameLength && SentinelsOk(data) && LengthOk(data) && CrcOk(data) && CommandOk(data)
  {
    if |data| < MinFrameLength then Fail(TooShort)
    else if !SentinelsOk(data) then Fail(BadSentinel)
    else if !LengthOk(data) then Fail(BadLength)
    else if !CrcOk(data) then Fail(BadCrc)
    else if !CommandOk(data) then Fail(BadCommand)
    else Pass
  }

  // ---------------------------------------------------------------------------
  // The layout after the command word

  /** N, the number of cell voltages, at byte 7. */
  function CellCount(data: seq<byte>): nat
    requires |data| >= MinFrameLength
  {
    data[7]
  }

  /** Where the fields after the cell voltages begin (`maxCellNumber`). */
  function MidStart(n: nat): nat { 8 + 2 * n }

  /** Where M, the number of cell temperatures, sits: the byte after `nominalCapacity`. */
  function TempCountAt(n: nat): nat { MidStart(n) + 18 }

  /** Where the fields after the cell temperatures begin (`environmentalTemperature`). */
  function TailStart(n: nat, m: nat): nat { TempCountAt(n) + 1 + 2 * m }

  /** One past the last byte the decoder reads: 6 + 40 + 2N + 2M. */
  function DecodeEnd(n: nat, m: nat): nat { TailStart(n, m) + 19 }

  /** M, which can only be read when the frame reaches that far. */
  function TempCount(data: seq<byte>): nat
    requires |data| >= MinFrameLength && TempCountAt(CellCount(data)) < |data|
  {
    data[TempCountAt(CellCount(data))]
  }

  /** Every read of the sequential decoder falls inside the frame. */
  predicate Fits(data: seq<byte>)
  {
    |data| >= MinFrameLength &&
    TempCountAt(CellCount(data)) < |data| &&
    DecodeEnd(CellCount(data), TempCount(data)) <= |data|
  }

  function Current(raw: nat): (centiamps: int)
    requires raw < 0x1_0000
    ensures -30000 <= centiamps <= 35535
  {
    raw - CurrentOffset
  }

  function Temperature(raw: nat): (degrees: int)
    ensures degrees >= -50
  {
    raw - TemperatureOffset
  }

  /** The N cell voltages from byte 8 on: each word with its top bit masked off
      (`& 0x7FFF`, which on a non-negative word is `% 0x8000`). */
  function CellVoltages(data: seq<byte>, n: nat): (vs: seq<nat>)
    requires MidStart(n) <= |data|
    ensures |vs| == n
    ensures forall k :: 0 <= k < n ==>
      vs[k] <= 0x7FFF && vs[k] + 0x8000 * (data[8 + 2 * k] as int / 0x80) == U16(data, 8 + 2 * k)
  {
    seq(n, k requires 0 <= k < n => U16(data, 8 + 2 * k) % 0x8000)
  }

  /** The M cell temperatures from offset `at` on. */
  function CellTemperatures(data: seq<byte>, at: nat, m: nat): (ts: seq<int>)
    requires at + 2 * m <= |data|
    ensures |ts| == m
    ensures forall k :: 0 <= k < m ==> ts[k] >= -50 && ts[k] + 50 == U16(data, at + 2 * k)
  {
    seq(m, k requires 0 <= k < m => Temperature(U16(data, at + 2 * k)))
  }

  /** The block after the cell voltages, read from offset `p`. */
  function SummaryAt(data: seq<byte>, p: nat): (a: Summary)
    requires p + 19 <= |data|
    ensures a.maxCellVoltage == U16(data, p + 1) && a.minCellVoltage == U16(data, p + 4)
    ensures -30000 <= a.totalCurrent <= 35535
    ensures a.batteriesTemperatureNumber == data[p + 18]
  {
    Summary(
      maxCellNumber := data[p],
      maxCellVoltage := U16(data, p + 1),
      minCellNumber := data[p + 3],
      minCellVoltage := U16(data, p + 4),
      totalCurrent := Current(U16(data, p + 6)),
      soc := U16(data, p + 8),
      soh := U16(data, p + 10),
      actualCapacity := U16(data, p + 12),
      surplusCapacity := U16(data, p + 14),
      nominalCapacity := U16(data, p + 16),
      batteriesTemperatureNumber := data[p + 18])
  }

  /** The block after the cell temperatures, read from offset `q`. */
  function TrailerAt(data: seq<byte>, q: nat): (z: Trailer)
    requires q + 19 <= |data|
    ensures z.environmentalTemperature >= -50 && z.pcbTemperature >= -50
    ensures z.maxTemperatureCellValue >= -50 && z.minTemperatureCellValue >= -50
    ensures z.cycleIndex == U16(data, q + 14) && z.totalVoltage == U16(data, q + 16)
    ensures z.bmsStatus == data[q + 18]
  {
    Trailer(
      environmentalTemperature := Temperature(U16(data, q)),
      pcbTemperature := Temperature(U16(data, q + 2)),
      maxTemperatureCellNumber := data[q + 4],
      maxTemperatureCellValue := Temperature(data[q + 5]),
      minTemperatureCellNumber := data[q + 6],
      minTemperatureCellValue := Temperature(data[q + 7]),
      bmsFault1 := data[q + 8],
      bmsFault2 := data[q + 9],
      bmsAlert1 := data[q + 10],
      bmsAlert2 := data[q + 11],
      bmsAlert3 := data[q + 12],
      bmsAlert4 := data[q + 13],
      cycleIndex := U16(data, q + 14),
      totalVoltage := U16(data, q + 16),
      bmsStatus := data[q + 18])
  }

  /** The fields of a frame that fits, at their fixed offsets. */
  function Decode(data: seq<byte>): (t: Telemetry)
    requires Fits(data)
    ensures t.batteriesSeriesNumber == data[7] == |t.cellVoltages|
    ensures t.cellVoltages == CellVoltages(data, data[7])
    ensures t.maxCellVoltage == U16(data, MidStart(data[7]) + 1)
    ensures t.minCellVoltage == U16(data, MidStart(data[7]) + 4)
    ensures -30000 <= t.totalCurrent <= 35535
    ensures t.batteriesTemperatureNumber == data[TempCountAt(data[7])] == |t.cellTemperatures|
    ensures t.cellTemperatures == CellTemperatures(data, TempCountAt(data[7]) + 1, data[TempCountAt(data[7])])
    ensures t.environmentalTemperature >= -50 && t.pcbTemperature >= -50
    ensures t.maxTemperatureCellValue >= -50 && t.minTemperatureCellValue >= -50
    ensures t.bmsStatus == data[DecodeEnd(data[7], data[TempCountAt(data[7])]) - 1]
  {
    var n := CellCount(data);
    var m := TempCount(data);
    var a := SummaryAt(data, MidStart(n));
    var z := TrailerAt(data, TailStart(n, m));
    Telemetry(
      onlineStatus := data[6],
      batteriesSeriesNumber := data[7],
      cellVoltages := CellVoltages(data, n),
      maxCellNumber := a.maxCellNumber,
      maxCellVoltage := a.maxCellVoltage,
      minCellNumber := a.minCellNumber,
      minCellVoltage := a.minCellVoltage,
      totalCurrent := a.totalCurrent,
      soc := a.soc,
      soh := a.soh,
      actualCapacity := a.actualCapacity,
      surplusCapacity := a.surplusCapacity,
      nominalCapacity := a.nominalCapacity,
      batteriesTemperatureNumber := a.batteriesTemperatureNumber,
      cellTemperatures := CellTemperatures(data, TempCountAt(n) + 1, m),
      environmentalTemperature := z.environmentalTemperature,
      pcbTemperature := z.pcbTemperature,
      maxTemperatureCellNumber := z.maxTemperatureCellNumber,
      maxTemperatureCellValue := z.maxTemperatureCellValue,
      minTemperatureCellNumber := z.minTemperatureCellNumber,
      minTemperatureCellValue := z.minTemperatureCellValue,
      bmsFault1 := z.bmsFault1,
      bmsFault2 := z.bmsFault2,
      bmsAlert1 := z.bmsAlert1,
      bmsAlert2 := z.bmsAlert2,
      bmsAlert3 := z.bmsAlert3,
      bmsAlert4 := z.bmsAlert4,
      cycleIndex := z.cycleIndex,
      totalVoltage := z.totalVoltage,
      bmsStatus := z.bmsStatus)
  }

  /** `parse_response` as a function of its input. */
  function Parse(data: seq<byte>): Parsed
  {
    match Validate(data)
    case Fail(reason) => Rejected(reason)
    case Pass => if Fits(data) then Accepted(Decode(data)) else Raised
  }

  /** `parse_response`: the five checks, then a sequential read that advances
      `offset` from byte 6. A read past the end raises in the source (an
      `IndexError` for a byte, a `struct.error` for a short word slice) and
      the first such read ends the parse, so one bounds test per run of
      fixed-width fields gives the same outcome as one test per read. */
  method ParseResponse(data: seq<byte>) returns (r: Parsed)
    ensures r == Parse(data)
  {
    if |data| < MinFrameLength {
      return Rejected(TooShort);
    }
    if data[0] != StartSentinel || data[|data| - 1] != EndSentinel {
      return Rejected(BadSentinel);
    }
    var payloadLen := data[2];
    if |data| != payloadLen as int + 4 {
      return Rejected(BadLength);
    }
    var calculated := Crc16.CalcCrc(data[1..|data| - 3]);
    var received := U16(data, |data| - 3);
    if received != calculated {
      return Rejected(BadCrc);
    }
    var command := U16(data, 4);
    if command != ResponseCommand {
      return Rejected(BadCommand);
    }
    assert Validate(data) == Pass;
    r := DecodeFields(data);
  }

  /** The loop over the cell voltage words: `ok` is false when a word runs
      past the end, which is where the source raises. */
  method ReadCellVoltages(data: seq<byte>, n: nat) returns (vs: seq<nat>, ok: bool)
    requires 8 <= |data|
    ensures ok <==> MidStart(n) <= |data|
    ensures ok ==> vs == CellVoltages(data, n)
  {
    vs := [];
    var offset := 8;
    for j := 0 to n
      invariant offset == MidStart(j) <= |data|
      invariant vs == CellVoltages(data, j)
    {
      if offset + 2 > |data| {
        return vs, false;
      }
      vs := vs + [U16(data, offset) % 0x8000];
      offset := offset + 2;
    }
    ok := true;
  }

  /** The loop over the M cell temperature words from offset `at`. */
  method ReadCellTemperatures(data: seq<byte>, at: nat, m: nat) returns (ts: seq<int>, ok: bool)
    requires at <= |data|
    ensures ok <==> at + 2 * m <= |data|
    ensures ok ==> ts == CellTemperatures(data, at, m)
  {
    ts := [];
    var offset := at;
    for j := 0 to m
      invariant offset == at + 2 * j <= |data|
      invariant ts == CellTemperatures(data, at, j)
    {
      if offset + 2 > |data| {
        return ts, false;
      }
      ts := ts + [U16(data, offset) - TemperatureOffset];
      offset := offset + 2;
    }
    ok := true;
  }

  /** The sequential read of `parse_response` (its lines after the command
      check), over any sequence long enough to hold the header. */
  method DecodeFields(data: seq<byte>) returns (r: Parsed)
    requires |data| >= MinFrameLength
    ensures r == if Fits(data) then Accepted(Decode(data)) else Raised
  {
    var offset := 6;
    var onlineStatus := data[offset];
    offset := offset + 1;
    var numCells := data[offset];
    offset := offset + 1;

    var cellVoltages, cellsRead := ReadCellVoltages(data, numCells);
    if !cellsRead {
      return Raised;
    }
    offset := MidStart(numCells);
    if offset + 19 > |data| {
      return Raised;
    }
    var summary := ReadSummary(data, offset);
    offset := offset + 19;
    var tempCount := summary.batteriesTemperatureNumber;
    var cellTemperatures, tempsRead := ReadCellTemperatures(data, offset, tempCount);
    if !tempsRead {
      return Raised;
    }
    offset := offset + 2 * tempCount as nat;
    if offset + 19 > |data| {
      return Raised;
    }
    assert offset == TailStart(numCells, tempCount) && Fits(data);
    var trailer := ReadTrailer(data, offset);
    r := Accepted(Telemetry(
      onlineStatus, numCells, cellVoltages,
      summary.maxCellNumber, summary.maxCellVoltage, summary.minCellNumber,
      summary.minCellVoltage, summary.totalCurrent, summary.soc, summary.soh,
      summary.actualCapacity, summary.surplusCapacity, summary.nominalCapacity,
      tempCount, cellTemperatures,
      trailer.environmentalTemperature, trailer.pcbTemperature,
      trailer.maxTemperatureCellNumber, trailer.maxTemperatureCellValue,
      trailer.minTemperatureCellNumber, trailer.minTemperatureCellValue,
      trailer.bmsFault1, trailer.bmsFault2, trailer.bmsAlert1, trailer.bmsAlert2,
      trailer.bmsAlert3, trailer.bmsAlert4,
      trailer.cycleIndex, trailer.totalVoltage, trailer.bmsStatus));
  }

  /** The reads of the block after the cell voltages, one field after
      another from offset `p`. */
  method ReadSummary(data: seq<byte>, p: nat) returns (a: Summary)
    requires p + 19 <= |data|
    ensures a == SummaryAt(data, p)
  {
    var offset := p;
    var maxCellNumber := data[offset];
    offset := offset + 1;
    var maxCellVoltage := U16(data, offset);
    offset := offset + 2;
    var minCellNumber := data[offset];
    offset := offset + 1;
    var minCellVoltage := U16(data, offset);
    offset := offset + 2;
    var totalCurrent := U16(data, offset) - CurrentOffset;
    offset := offset + 2;
    var soc := U16(data, offset);
    offset := offset + 2;
    var soh := U16(data, offset);
    offset := offset + 2;
    var actualCapacity := U16(data, offset);
    offset := offset + 2;
    var surplusCapacity := U16(data, offset);
    offset := offset + 2;
    var nominalCapacity := U16(data, offset);
    offset := offset + 2;
    var tempCount := data[offset];
    a := Summary(maxCellNumber, maxCellVoltage, minCellNumber, minCellVoltage, totalCurrent,
                 soc, soh, actualCapacity, surplusCapacity, nominalCapacity, tempCount);
  }

  /** The reads of the block after the cell temperatures, one field after
      another from offset `q`. */
  method ReadTrailer(data: seq<byte>, q: nat) returns (z: Trailer)
    requires q + 19 <= |data|
    ensures z == TrailerAt(data, q)
  {
    var offset := q;
    var environmentalTemperature := U16(data, offset) - TemperatureOffset;
    offset := offset + 2;
    var pcbTemperature := U16(data, offset) - TemperatureOffset;
    offset := offset + 2;
    var maxTemperatureCellNumber := data[offset];
    offset := offset + 1;
    var maxTemperatureCellValue := data[offset] - TemperatureOffset;
    offset := offset + 1;
    var minTemperatureCellNumber := data[offset];
    offset := offset + 1;
    var minTemperatureCellValue := data[offset] - TemperatureOffset;
    offset := offset + 1;
    var bmsFault1 := data[offset];
    offset := offset + 1;
    var bmsFault2 := data[offset];
    offset := offset + 1;
    var bmsAlert1 := data[offset];
    offset := offset + 1;
    var bmsAlert2 := data[offset];
    offset := offset + 1;
    var bmsAlert3 := data[offset];
    offset := offset + 1;
    var bmsAlert4 := data[offset];
    offset := offset + 1;
    var cycleIndex := U16(data, offset);
    offset := offset + 2;
    var totalVoltage := U16(data, offset);
    offset := offset + 2;
    var bmsStatus := data[offset];
    z := Trailer(environmentalTemperature, pcbTemperature, maxTemperatureCellNumber,
                 maxTemperatureCellValue, minTemperatureCellNumber, minTemperatureCellValue,
                 bmsFault1, bmsFault2, bmsAlert1, bmsAlert2, bmsAlert3, bmsAlert4,
                 cycleIndex, totalVoltage, bmsStatus);
  }

  // ---------------------------------------------------------------------------
  // Properties of the codec

  /** Altering either checksum byte of a frame that passes the checks makes
      the checksum test, and so the whole frame, fail: the checksum bytes lie
      outside the span they protect. */
  lemma CrcByteAltered(data: seq<byte>, k: nat, b: byte)
    requires Validate(data) == Pass
    requires k == |data| - 3 || k == |data| - 2
    requires b != data[k]
    ensures Parse(data[k := b]) == Rejected(BadCrc)
  {
    var altered := data[k := b];
    assert CrcSpan(altered) == CrcSpan(data);
    assert CrcField(altered) != CrcField(data) by {
      var i := |data| - 3;
      assert altered[i] != data[i] || altered[i + 1] != data[i + 1];
    }
  }

  /** The decoder reads exactly 40 + 2N + 2M bytes from byte 6 on; when that
      ends exactly at the frame's end, the last two data words are the
      checksum field and the end sentinel: `totalVoltage` is the checksum and
      `bmsStatus` is 0xA7. */
  lemma TrailerReadAsData(data: seq<byte>)
    requires Parse(data).Accepted?
    requires DecodeEnd(CellCount(data), TempCount(data)) == |data|
    ensures Parse(data).record.totalVoltage == CrcField(data)
    ensures Parse(data).record.bmsStatus == EndSentinel
  {
  }

  /** A frame that passes the checks decodes if and only if its declared
      counts keep every read inside it; otherwise the source raises. */
  lemma DecodeCompletesIff(data: seq<byte>)
    requires Validate(data) == Pass
    ensures Parse(data).Accepted? <==>
      TempCountAt(CellCount(data)) < |data| &&
      6 + 40 + 2 * CellCount(data) + 2 * TempCount(data) <= |data|
    ensures Parse(data) == Raised <==> !Fits(data)
  {
  }
}
