/**
  The sensor API controller: storing single readings, importing an XML
  document of readings (validate, parse record by record, store in one
  batch), listing stored readings in an optional time range, newest first,
  and summarising each sensor's readings over a time range.

  A `DateTime` is its tick count. `DateTime.TryParse` and `ToUniversalTime`
  depend on culture and time zone and are the parameter `Clock`; the schema
  validator, the XML parser and the outcome of saving to the database are
  parameters too. The database table is the sequence `sensorData`.
*/
module SensorApi {
  import opened Wrappers
  import opened Decimal
  import opened Stats
  import opened Seqs

  /** A stored reading; `id` is the database key, 0 until the database assigns one. */
  datatype SensorData = SensorData(id: int, sensorId: int, value: int, timestamp: int)

  // ---------------------------------------------------------------------
  // ParseXml

  /** A `Reading` element: the inner text of its `SensorId`, `Value` and `Timestamp` children, `None` where a child is missing. */
  datatype ReadingNode = ReadingNode(sensorId: Option<string>, value: Option<string>, timestamp: Option<string>)

  /** Why a `Reading` element was skipped (each is logged as a warning). */
  datatype Skipped = MissingElement | BadSensorId(text: string) | BadValue(text: string) | BadTimestamp(text: string)

  /** `DateTime.TryParse` (culture dependent) and `DateTime.ToUniversalTime` (time-zone dependent), on tick counts. */
  datatype Clock = Clock(tryParse: string -> Option<int>, toUniversalTime: int -> int)

  /**
    One `Reading` element: skipped when a child is missing or its text does
    not parse, in the order the code checks; otherwise a record with the
    parsed numbers and the timestamp converted to UTC.
  */
  function ParseReading(node: ReadingNode, clock: Clock): (r: Result<SensorData, Skipped>)
    ensures (node.sensorId.None? || node.value.None? || node.timestamp.None?) ==> r == Failure(MissingElement)
    ensures r.Success? ==>
      && node.sensorId.Some? && ParseInt32(node.sensorId.value) == Some(r.value.sensorId)
      && node.value.Some? && ParseInt32(node.value.value) == Some(r.value.value)
      && node.timestamp.Some? && clock.tryParse(node.timestamp.value).Some?
      && r.value.timestamp == clock.toUniversalTime(clock.tryParse(node.timestamp.value).value)
      && r.value.id == 0
    ensures (node.sensorId.Some? && ParseInt32(node.sensorId.value).None? && node.value.Some? && node.timestamp.Some?)
      ==> r == Failure(BadSensorId(node.sensorId.value))
    ensures (node.sensorId.Some? && ParseInt32(node.sensorId.value).Some?
             && node.value.Some? && ParseInt32(node.value.value).None? && node.timestamp.Some?)
      ==> r == Failure(BadValue(node.value.value))
    ensures (node.sensorId.Some? && ParseInt32(node.sensorId.value).Some?
             && node.value.Some? && ParseInt32(node.value.value).Some?
             && node.timestamp.Some? && clock.tryParse(node.timestamp.value).None?)
      ==> r == Failure(BadTimestamp(node.timestamp.value))
    ensures (node.sensorId.Some? && ParseInt32(node.sensorId.value).Some?
             && node.value.Some? && ParseInt32(node.value.value).Some?
             && node.timestamp.Some? && clock.tryParse(node.timestamp.value).Some?)
      ==> r == Success(SensorData(0, ParseInt32(node.sensorId.value).value, ParseInt32(node.value.value).value,
                                  clock.toUniversalTime(clock.tryParse(node.timestamp.value).value)))
  {
    if node.sensorId.None? || node.value.None? || node.timestamp.None? then Failure(MissingElement)
    else
      match (ParseInt32(node.sensorId.value), ParseInt32(node.value.value), clock.tryParse(node.timestamp.value))
      case (None, _, _) => Failure(BadSensorId(node.sensorId.value))
      case (Some(_), None, _) => Failure(BadValue(node.value.value))
      case (Some(_), Some(_), None) => Failure(BadTimestamp(node.timestamp.value))
      case (Some(sensorId), Some(value), Some(timestamp)) =>
        Success(SensorData(0, sensorId, value, clock.toUniversalTime(timestamp)))
  }

  /** `ParseReading` with the clock fixed. */
  function Parser(clock: Clock): ReadingNode -> Result<SensorData, Skipped>
  {
    node => ParseReading(node, clock)
  }

  /** The outcome of each element, in document order. */
  function Outcomes(readings: seq<ReadingNode>, clock: Clock): (outcomes: seq<Result<SensorData, Skipped>>)
    ensures |outcomes| == |readings|
    ensures forall i {:trigger outcomes[i]} :: 0 <= i < |readings| ==> outcomes[i] == ParseReading(readings[i], clock)
  {
    MapSeq(readings, Parser(clock))
  }

  /** The records among the outcomes, in order. */
  function Kept(outcomes: seq<Result<SensorData, Skipped>>): seq<SensorData>
  {
    if outcomes == [] then []
    else
      var last := outcomes[|outcomes| - 1];
      Kept(outcomes[..|outcomes| - 1]) + (if last.Success? then [last.value] else [])
  }

  /** The reasons for the other outcomes, in order. */
  function Dropped(outcomes: seq<Result<SensorData, Skipped>>): seq<Skipped>
  {
    if outcomes == [] then []
    else
      var last := outcomes[|outcomes| - 1];
      Dropped(outcomes[..|outcomes| - 1]) + (if last.Failure? then [last.error] else [])
  }

  /** The records of the elements that parse, in document order. */
  function Parsed(readings: seq<ReadingNode>, clock: Clock): seq<SensorData>
  {
    Kept(Outcomes(readings, clock))
  }

  /** The reasons the other elements were skipped, in document order. */
  function Warnings(readings: seq<ReadingNode>, clock: Clock): seq<Skipped>
  {
    Dropped(Outcomes(readings, clock))
  }

  /**
    `ParseXml`, from the list of `Reading` elements on: each element either
    adds a record or logs a warning and continues with the next element.
  */
  method ParseXml(readings: seq<ReadingNode>, clock: Clock) returns (sensorDataList: seq<SensorData>, warnings: seq<Skipped>)
    ensures sensorDataList == Parsed(readings, clock)
    ensures warnings == Warnings(readings, clock)
    ensures |sensorDataList| + |warnings| == |readings|
  {
    sensorDataList, warnings := [], [];
    ghost var outcomes := Outcomes(readings, clock);
    for i := 0 to |readings|
      invariant sensorDataList == Kept(outcomes[..i])
      invariant warnings == Dropped(outcomes[..i])
    {
      KeptStep(outcomes, i);
      var reading := readings[i];
      if reading.sensorId.None? || reading.value.None? || reading.timestamp.None? {
        assert outcomes[i] == Failure(MissingElement);
        warnings := warnings + [MissingElement];
        continue;
      }
      var sensorId := ParseInt32(reading.sensorId.value);
      if sensorId.None? {
        assert outcomes[i] == Failure(BadSensorId(reading.sensorId.value));
        warnings := warnings + [BadSensorId(reading.sensorId.value)];
        continue;
      }
      var value := ParseInt32(reading.value.value);
      if value.None? {
        assert outcomes[i] == Failure(BadValue(reading.value.value));
        warnings := warnings + [BadValue(reading.value.value)];
        continue;
      }
      var parsedTimestamp := clock.tryParse(reading.timestamp.value);
      if parsedTimestamp.None? {
        assert outcomes[i] == Failure(BadTimestamp(reading.timestamp.value));
        warnings := warnings + [BadTimestamp(reading.timestamp.value)];
        continue;
      }
      var timestamp := clock.toUniversalTime(parsedTimestamp.value);
      assert outcomes[i] == Success(SensorData(0, sensorId.value, value.value, timestamp));
      sensorDataList := sensorDataList + [SensorData(0, sensorId.value, value.value, timestamp)];
    }
    assert outcomes[..|readings|] == outcomes;
    KeptCount(outcomes);
  }

  /** One more outcome adds its record or its warning. */
  lemma KeptStep(outcomes: seq<Result<SensorData, Skipped>>, i: nat)
    requires i < |outcomes|
    ensures Kept(outcomes[..i + 1]) == Kept(outcomes[..i]) + (if outcomes[i].Success? then [outcomes[i].value] else [])
    ensures Dropped(outcomes[..i + 1]) == Dropped(outcomes[..i]) + (if outcomes[i].Failure? then [outcomes[i].error] else [])
  {
    assert outcomes[..i + 1][..i] == outcomes[..i];
  }

  lemma {:induction false} KeptAppend(a: seq<Result<SensorData, Skipped>>, b: seq<Result<SensorData, Skipped>>)
    ensures Kept(a + b) == Kept(a) + Kept(b)
    ensures Dropped(a + b) == Dropped(a) + Dropped(b)
    decreases |b|
  {
    if b == [] {
      assert a + b == a;
    } else {
      var init := b[..|b| - 1];
      KeptAppend(a, init);
      assert (a + b)[..|a + b| - 1] == a + init;
      assert (a + b)[|a + b| - 1] == b[|b| - 1];
    }
  }

  lemma OutcomesAppend(a: seq<ReadingNode>, b: seq<ReadingNode>, clock: Clock)
    ensures Outcomes(a + b, clock) == Outcomes(a, clock) + Outcomes(b, clock)
  {
    MapSeqAppend(a, b, Parser(clock));
  }

  /** Parsing a document split in two parses each part and concatenates, so records keep document order. */
  lemma ParsedAppend(a: seq<ReadingNode>, b: seq<ReadingNode>, clock: Clock)
    ensures Parsed(a + b, clock) == Parsed(a, clock) + Parsed(b, clock)
    ensures Warnings(a + b, clock) == Warnings(a, clock) + Warnings(b, clock)
  {
    OutcomesAppend(a, b, clock);
    KeptAppend(Outcomes(a, clock), Outcomes(b, clock));
  }

  /** Every outcome is a record or a warning, never both, so there are at most as many records as elements. */
  lemma {:induction false} KeptCount(outcomes: seq<Result<SensorData, Skipped>>)
    ensures |Kept(outcomes)| + |Dropped(outcomes)| == |outcomes|
    ensures |Kept(outcomes)| <= |outcomes|
  {
    if outcomes != [] {
      KeptCount(outcomes[..|outcomes| - 1]);
    }
  }

  /** When every outcome is a record, the records are exactly those, in order, with no warning. */
  lemma {:induction false} AllKept(outcomes: seq<Result<SensorData, Skipped>>, records: seq<SensorData>)
    requires |outcomes| == |records|
    requires forall i :: 0 <= i < |outcomes| ==> outcomes[i] == Success(records[i])
    ensures Kept(outcomes) == records && Dropped(outcomes) == []
  {
    if outcomes != [] {
      var n := |outcomes| - 1;
      AllKept(outcomes[..n], records[..n]);
      assert records == records[..n] + [records[n]];
    }
  }

  /** When every element parses, the records are exactly the parsed ones, in order, and there is no warning. */
  lemma AllParsed(readings: seq<ReadingNode>, records: seq<SensorData>, clock: Clock)
    requires |readings| == |records|
    requires forall i :: 0 <= i < |readings| ==> ParseReading(readings[i], clock) == Success(records[i])
    ensures Parsed(readings, clock) == records && Warnings(readings, clock) == []
  {
    var outcomes := Outcomes(readings, clock);
    assert forall i :: 0 <= i < |outcomes| ==> outcomes[i] == Success(records[i]);
    AllKept(outcomes, records);
  }

  /** A document of one element gives that element's record or its warning. */
  lemma SingleReading(node: ReadingNode, clock: Clock)
    ensures var r := ParseReading(node, clock);
      && Parsed([node], clock) == (if r.Success? then [r.value] else [])
      && Warnings([node], clock) == (if r.Failure? then [r.error] else [])
  {
    var outcomes, r := Outcomes([node], clock), ParseReading(node, clock);
    assert outcomes[..0] == [] && outcomes[0] == r;
    assert Kept(outcomes) == Kept([]) + (if r.Success? then [r.value] else []);
    assert Dropped(outcomes) == Dropped([]) + (if r.Failure? then [r.error] else []);
  }

  /** An element that is skipped adds no record, only its warning: parsing carries on with the next element. */
  lemma SkippedLeavesNoRecord(before: seq<ReadingNode>, node: ReadingNode, clock: Clock)
    requires ParseReading(node, clock).Failure?
    ensures Parsed(before + [node], clock) == Parsed(before, clock)
    ensures Warnings(before + [node], clock) == Warnings(before, clock) + [ParseReading(node, clock).error]
  {
    ParsedAppend(before, [node], clock);
    SingleReading(node, clock);
    assert Parsed(before, clock) + [] == Parsed(before, clock);
  }

  /**
    An element whose children hold the decimal texts of two integers and a
    timestamp text: the sensor id must fit in 32 bits, then the value, then
    the timestamp must parse; if all do, the record carries exactly those
    numbers.
  */
  lemma DecimalReading(sensorId: int, value: int, text: string, clock: Clock)
    ensures var r := ParseReading(ReadingNode(Some(IntToDecimal(sensorId)), Some(IntToDecimal(value)), Some(text)), clock);
      if !IsInt32(sensorId) then r == Failure(BadSensorId(IntToDecimal(sensorId)))
      else if !IsInt32(value) then r == Failure(BadValue(IntToDecimal(value)))
      else if clock.tryParse(text).None? then r == Failure(BadTimestamp(text))
      else r == Success(SensorData(0, sensorId, value, clock.toUniversalTime(clock.tryParse(text).value)))
  {
    ParseInt32OfDecimal(sensorId);
    ParseInt32OfDecimal(value);
  }

  // ---------------------------------------------------------------------
  // PostData and UploadXml

  /** The message of the 400 response for a missing or empty file. */
  const NO_FILE := "Файл не предоставлен"

  /** The message of every 500 response. */
  const INTERNAL_ERROR := "Внутренняя ошибка сервера"

  /** An HTTP response of the controller. */
  datatype Response =
    | Ok
    | BadRequestMessage(message: string)
    | BadRequestErrors(errors: seq<string>)
    | ServerError(message: string)

  /** An uploaded form file: its declared length and its text. */
  datatype UploadedFile = UploadedFile(length: nat, content: string)

  /** The schema validator's verdict: whether the document is valid, and the error messages otherwise. */
  datatype Validation = Validation(isValid: bool, errors: seq<string>)

  /** The controller over the readings table. */
  class SensorController {
    /** The rows of the readings table, in insertion order. */
    var sensorData: seq<SensorData>

    constructor (stored: seq<SensorData>)
      ensures sensorData == stored
    {
      sensorData := stored;
    }

    /** `PostData`: adds the reading and saves; a failed save answers 500 and stores nothing. */
    method PostData(data: SensorData, saveSucceeds: bool) returns (response: Response)
      modifies this
      ensures saveSucceeds ==> response == Ok && sensorData == old(sensorData) + [data]
      ensures !saveSucceeds ==> response == ServerError(INTERNAL_ERROR) && sensorData == old(sensorData)
    {
      if saveSucceeds {
        sensorData := sensorData + [data];
        response := Ok;
      } else {
        response := ServerError(INTERNAL_ERROR);
      }
    }

    /**
      `UploadXml`: a missing or empty file is a bad request before anything
      else; an invalid document is a bad request carrying the validator's
      errors; otherwise the parsed records are added in one batch and saved.
      `readingElements` is the XML parser (`None` where loading the document
      throws); a failed load or save answers 500 and stores nothing.
    */
    method UploadXml(file: Option<UploadedFile>, validate: string -> Validation,
                     readingElements: string -> Option<seq<ReadingNode>>, clock: Clock, saveSucceeds: bool)
      returns (response: Response)
      modifies this
      ensures (file.None? || file.value.length == 0) ==>
        response == BadRequestMessage(NO_FILE) && sensorData == old(sensorData)
      ensures file.Some? && file.value.length != 0 && !validate(file.value.content).isValid ==>
        response == BadRequestErrors(validate(file.value.content).errors) && sensorData == old(sensorData)
      ensures file.Some? && file.value.length != 0 && validate(file.value.content).isValid ==>
        var elements := readingElements(file.value.content);
        if elements.Some? && saveSucceeds then
          response == Ok && sensorData == old(sensorData) + Parsed(elements.value, clock)
        else
          response == ServerError(INTERNAL_ERROR) && sensorData == old(sensorData)
    {
      if file.None? || file.value.length == 0 {
        return BadRequestMessage(NO_FILE);
      }
      var content := file.value.content;
      var validation := validate(content);
      if !validation.isValid {
        return BadRequestErrors(validation.errors);
      }
      var readings := readingElements(content);
      if readings.None? {
        return ServerError(INTERNAL_ERROR);
      }
      var sensorDataList, _ := ParseXml(readings.value, clock);
      if !saveSucceeds {
        return ServerError(INTERNAL_ERROR);
      }
      sensorData := sensorData + sensorDataList;
      response := Ok;
    }
  }

  // ---------------------------------------------------------------------
  // GetData

  /** Inside the optional, inclusive bounds `from` and `to`. */
  predicate InRange(row: SensorData, from: Option<int>, to: Option<int>)
  {
    (from.None? || row.timestamp >= from.value) && (to.None? || row.timestamp <= to.value)
  }

  /** The rows inside the bounds, in table order. */
  function Where(rows: seq<SensorData>, from: Option<int>, to: Option<int>): (r: seq<SensorData>)
    ensures forall x :: multiset(r)[x] == if InRange(x, from, to) then multiset(rows)[x] else 0
    ensures forall x :: x in r <==> x in rows && InRange(x, from, to)
  {
    if rows == [] then []
    else
      var init, last := rows[..|rows| - 1], rows[|rows| - 1];
      assert rows == init + [last];
      Where(init, from, to) + (if InRange(last, from, to) then [last] else [])
  }

  /** Newest first. */
  predicate Descending(rows: seq<SensorData>)
  {
    forall i, j :: 0 <= i < j < |rows| ==> rows[i].timestamp >= rows[j].timestamp
  }

  /** `row` placed into newest-first `rows` before the first row older than it. */
  function Insert(row: SensorData, rows: seq<SensorData>): (r: seq<SensorData>)
    requires Descending(rows)
    ensures multiset(r) == multiset(rows) + multiset{row}
    ensures r[0] == row || (rows != [] && r[0] == rows[0])
    ensures Descending(r)
  {
    if rows == [] || rows[0].timestamp <= row.timestamp then
      DescendingCons(row, rows);
      [row] + rows
    else
      assert rows == [rows[0]] + rows[1..];
      var rest := Insert(row, rows[1..]);
      DescendingCons(rows[0], rest);
      [rows[0]] + rest
  }

  /** A row no older than the head of a newest-first list can go in front of it. */
  lemma DescendingCons(row: SensorData, rows: seq<SensorData>)
    requires Descending(rows) && (rows != [] ==> rows[0].timestamp <= row.timestamp)
    ensures Descending([row] + rows)
  {
    var r := [row] + rows;
    forall i, j | 0 <= i < j < |r|
      ensures r[i].timestamp >= r[j].timestamp
    {
      assert r[j] == rows[j - 1];
      if i > 0 {
        assert r[i] == rows[i - 1];
      }
    }
  }

  /** The rows, newest first. */
  function OrderByDescending(rows: seq<SensorData>): (r: seq<SensorData>)
    ensures multiset(r) == multiset(rows)
    ensures Descending(r)
  {
    if rows == [] then []
    else
      assert rows == [rows[0]] + rows[1..];
      Insert(rows[0], OrderByDescending(rows[1..]))
  }

  /**
    `GetData`: exactly the stored rows whose timestamp lies within the given
    bounds, each bound optional and inclusive, newest first.
  */
  function GetData(rows: seq<SensorData>, from: Option<int>, to: Option<int>): (r: seq<SensorData>)
    ensures forall x :: multiset(r)[x] == if InRange(x, from, to) then multiset(rows)[x] else 0
    ensures Descending(r)
  {
    OrderByDescending(Where(rows, from, to))
  }

  /** A row is listed exactly when it is stored and inside the bounds. */
  lemma GetDataMembers(rows: seq<SensorData>, from: Option<int>, to: Option<int>, x: SensorData)
    ensures x in GetData(rows, from, to) <==> x in rows && InRange(x, from, to)
  {
    var r := GetData(rows, from, to);
    assert x in r <==> multiset(r)[x] > 0;
    assert x in rows <==> multiset(rows)[x] > 0;
  }

  /** Without bounds every stored row is listed, as often as it is stored. */
  lemma GetDataUnbounded(rows: seq<SensorData>)
    ensures multiset(GetData(rows, None, None)) == multiset(rows)
  {
  }

  // ---------------------------------------------------------------------
  // GetSummary

  /** One row of the summary: a sensor and the mean, maximum and minimum of its values. */
  datatype SensorSummary = SensorSummary(sensorId: int, average: real, maximum: int, minimum: int)

  /** The sensors of the rows, each once, in order of first appearance. */
  function SensorIds(rows: seq<SensorData>): (ids: seq<int>)
    ensures forall i, j :: 0 <= i < j < |ids| ==> ids[i] != ids[j]
    ensures forall s :: s in ids <==> exists row :: row in rows && row.sensorId == s
  {
    if rows == [] then []
    else
      var init, last := rows[..|rows| - 1], rows[|rows| - 1];
      var ids := SensorIds(init);
      assert rows == init + [last];
      ids + (if last.sensorId in ids then [] else [last.sensorId])
  }

  /** The values of the rows of one sensor, in order. */
  function ValuesOf(rows: seq<SensorData>, sensorId: int): (values: seq<int>)
    ensures values != [] <==> exists row :: row in rows && row.sensorId == sensorId
  {
    if rows == [] then []
    else
      var init, last := rows[..|rows| - 1], rows[|rows| - 1];
      assert rows == init + [last];
      ValuesOf(init, sensorId) + (if last.sensorId == sensorId then [last.value] else [])
  }

  /** The summary row of a sensor with at least one value. */
  function Summarize(sensorId: int, values: seq<int>): SensorSummary
    requires values != []
  {
    SensorSummary(sensorId, Mean(values), Max(values), Min(values))
  }

  /**
    `GetSummary`: the rows within the inclusive range grouped by sensor,
    each group summarised by the mean, maximum and minimum of its values.
  */
  function GetSummary(rows: seq<SensorData>, from: int, to: int): seq<SensorSummary>
  {
    var inRange := Where(rows, Some(from), Some(to));
    var ids := SensorIds(inRange);
    assert forall i :: 0 <= i < |ids| ==> ValuesOf(inRange, ids[i]) != [] by {
      forall i | 0 <= i < |ids|
        ensures ValuesOf(inRange, ids[i]) != []
      {
        assert ids[i] in ids;
      }
    }
    seq(|ids|, i requires 0 <= i < |ids| => Summarize(ids[i], ValuesOf(inRange, ids[i])))
  }

  /** The summary lists the sensors in order of first appearance, each with the summary of its values. */
  lemma SummaryShape(rows: seq<SensorData>, from: int, to: int)
    ensures var inRange := Where(rows, Some(from), Some(to));
      var ids := SensorIds(inRange);
      var r := GetSummary(rows, from, to);
      && |r| == |ids|
      && forall i :: 0 <= i < |r| ==>
           ValuesOf(inRange, ids[i]) != [] && r[i] == Summarize(ids[i], ValuesOf(inRange, ids[i]))
  {
    var inRange := Where(rows, Some(from), Some(to));
    var ids := SensorIds(inRange);
    forall i | 0 <= i < |ids|
      ensures ValuesOf(inRange, ids[i]) != []
    {
      assert ids[i] in ids;
    }
  }

  /** No sensor has two summary rows. */
  lemma SummaryDistinct(rows: seq<SensorData>, from: int, to: int)
    ensures var r := GetSummary(rows, from, to);
      forall i, j :: 0 <= i < j < |r| ==> r[i].sensorId != r[j].sensorId
  {
    SummaryShape(rows, from, to);
  }

  /** Every sensor with a reading within the range has a summary row. */
  lemma SummaryCovers(rows: seq<SensorData>, from: int, to: int, row: SensorData)
    requires row in rows && from <= row.timestamp <= to
    ensures var r := GetSummary(rows, from, to);
      exists i :: 0 <= i < |r| && r[i].sensorId == row.sensorId
  {
    var inRange := Where(rows, Some(from), Some(to));
    var ids := SensorIds(inRange);
    var r := GetSummary(rows, from, to);
    SummaryShape(rows, from, to);
    assert row in inRange;
    assert row.sensorId in ids;
    var i :| 0 <= i < |ids| && ids[i] == row.sensorId;
    assert r[i].sensorId == row.sensorId;
  }

  /** Every summary row belongs to a sensor with a reading within the range. */
  lemma SummaryOnlyPresent(rows: seq<SensorData>, from: int, to: int, i: int)
    requires 0 <= i < |GetSummary(rows, from, to)|
    ensures exists row :: row in rows && from <= row.timestamp <= to && row.sensorId == GetSummary(rows, from, to)[i].sensorId
  {
    var inRange := Where(rows, Some(from), Some(to));
    var ids := SensorIds(inRange);
    SummaryShape(rows, from, to);
    assert ids[i] in ids;
    var row :| row in inRange && row.sensorId == ids[i];
  }

  /** Every summary row has its minimum at most its average and its average at most its maximum. */
  lemma SummaryBounds(rows: seq<SensorData>, from: int, to: int)
    ensures forall s :: s in GetSummary(rows, from, to) ==> s.minimum as real <= s.average <= s.maximum as real
  {
    var r := GetSummary(rows, from, to);
    SummaryShape(rows, from, to);
    forall s | s in r
      ensures s.minimum as real <= s.average <= s.maximum as real
    {
      var i :| 0 <= i < |r| && r[i] == s;
      MeanWithinRange(ValuesOf(Where(rows, Some(from), Some(to)), s.sensorId));
    }
  }
}
