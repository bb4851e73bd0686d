/**
  The dashboard's export read back by the API's import. For readings whose
  sensor id and value are 32-bit integers and whose timestamp text the
  server's date parser accepts, each reading comes back as a record with
  the same sensor id and value.

  The XML loader is not modelled. `ExportedNode` is the element the loader
  is taken to find for a reading's block: the texts between its child tags,
  which `ExportedNodeTexts` ties to the text `ConvertToXml` writes. That
  reading of the text holds only when the timestamp text contains no `<`
  or `&`, which the export does not escape. The schema check that
  `UploadXml` runs before parsing is not part of this round trip.
*/
module ExportImport {
  import opened Wrappers
  import opened Decimal
  import WebTypes
  import opened SensorApi
  import ImportXml

  /** The `Reading` element written for a reading, as the server's parser sees it: the text between each child's tags. */
  function ExportedNode(r: WebTypes.SensorData): ReadingNode
  {
    ReadingNode(Some(IntToDecimal(r.sensorId)), Some(IntToDecimal(r.value)), Some(r.timestamp))
  }

  /** The texts of the exported element are exactly the texts `ConvertToXml` writes between the child tags of the reading's block. */
  lemma ExportedNodeTexts(r: WebTypes.SensorData)
    ensures var node := ExportedNode(r);
      && node.sensorId.Some? && node.value.Some? && node.timestamp.Some?
      && ImportXml.Block(r) == "    <Reading>\n"
         + ImportXml.Element("SensorId", node.sensorId.value)
         + ImportXml.Element("Value", node.value.value)
         + ImportXml.Element("Timestamp", node.timestamp.value)
         + "    </Reading>\n"
  {
  }

  /** The elements written for the readings, in order. */
  function ExportedNodes(data: seq<WebTypes.SensorData>): (nodes: seq<ReadingNode>)
    ensures |nodes| == |data| && forall i :: 0 <= i < |data| ==> nodes[i] == ExportedNode(data[i])
  {
    seq(|data|, i requires 0 <= i < |data| => ExportedNode(data[i]))
  }

  /** The server's record for a reading the dashboard exported: same sensor and value, timestamp read and converted to UTC, no id. */
  function Imported(r: WebTypes.SensorData, clock: Clock): SensorData
    requires clock.tryParse(r.timestamp).Some?
  {
    SensorData(0, r.sensorId, r.value, clock.toUniversalTime(clock.tryParse(r.timestamp).value))
  }

  /** Readings the server can take back: 32-bit sensor ids and values, and timestamps its date parser accepts. */
  predicate Importable(data: seq<WebTypes.SensorData>, clock: Clock)
  {
    forall i :: 0 <= i < |data| ==>
      IsInt32(data[i].sensorId) && IsInt32(data[i].value) && clock.tryParse(data[i].timestamp).Some?
  }

  /** The server's records for importable readings, in order. */
  function ImportedAll(data: seq<WebTypes.SensorData>, clock: Clock): (records: seq<SensorData>)
    requires Importable(data, clock)
    ensures |records| == |data| && forall i :: 0 <= i < |data| ==> records[i] == Imported(data[i], clock)
  {
    seq(|data|, i requires 0 <= i < |data| && Importable(data, clock) => Imported(data[i], clock))
  }

  /** The exported element of an importable reading parses back to the server's record for it. */
  lemma ExportedReadingParses(r: WebTypes.SensorData, clock: Clock)
    requires IsInt32(r.sensorId) && IsInt32(r.value) && clock.tryParse(r.timestamp).Some?
    ensures ParseReading(ExportedNode(r), clock) == Success(Imported(r, clock))
  {
    DecimalReading(r.sensorId, r.value, r.timestamp, clock);
  }

  /**
    Exporting importable readings and importing the document gives back one
    record per reading, in order, with its sensor id and value, and logs no
    warning.
  */
  lemma ExportThenImport(data: seq<WebTypes.SensorData>, clock: Clock)
    requires Importable(data, clock)
    ensures Parsed(ExportedNodes(data), clock) == ImportedAll(data, clock)
    ensures Warnings(ExportedNodes(data), clock) == []
  {
    var nodes, records := ExportedNodes(data), ImportedAll(data, clock);
    forall i | 0 <= i < |nodes|
      ensures ParseReading(nodes[i], clock) == Success(records[i])
    {
      ExportedReadingParses(data[i], clock);
    }
    AllParsed(nodes, records, clock);
  }

  /** A reading whose value does not fit in 32 bits is dropped on import, with a bad-value warning. */
  lemma WideValueDropped(r: WebTypes.SensorData, clock: Clock)
    requires IsInt32(r.sensorId) && !IsInt32(r.value)
    ensures Parsed([ExportedNode(r)], clock) == []
    ensures Warnings([ExportedNode(r)], clock) == [BadValue(IntToDecimal(r.value))]
  {
    DecimalReading(r.sensorId, r.value, r.timestamp, clock);
    SingleReading(ExportedNode(r), clock);
  }
}
