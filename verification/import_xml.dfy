/**
  The dashboard's XML export: the readings fetched from the API written as a
  `SensorReadings` document, one `Reading` element per reading. The text is
  assembled by appending to a string, with no escaping of the inserted values.
*/
module ImportXml {
  import opened Decimal
  import opened WebTypes
  import opened Seqs

  const HEADER: string := "<?xml version=\"1.0\" encoding=\"UTF-8\"?>\n"
  const OPEN_ROOT: string := "<SensorReadings>\n"
  const CLOSE_ROOT: string := "</SensorReadings>"

  /** One child element on its own line, indented eight spaces, its text inserted verbatim. */
  function Element(tag: string, text: string): string
  {
    "        <" + tag + ">" + text + "</" + tag + ">\n"
  }

  /** The `Reading` element written for one reading: sensor, value, timestamp, in that order; `id` is not written. */
  function Block(r: SensorData): string
  {
    "    <Reading>\n"
    + Element("SensorId", IntToDecimal(r.sensorId))
    + Element("Value", IntToDecimal(r.value))
    + Element("Timestamp", r.timestamp)
    + "    </Reading>\n"
  }

  /** The pieces written one after the other. */
  function Concat(parts: seq<string>): string
  {
    if parts == [] then "" else Concat(parts[..|parts| - 1]) + parts[|parts| - 1]
  }

  /** The block of each reading, in input order. */
  function Blocks(data: seq<SensorData>): (blocks: seq<string>)
    ensures |blocks| == |data| && forall i :: 0 <= i < |data| ==> blocks[i] == Block(data[i])
  {
    MapSeq(data, Block)
  }

  /** The blocks of all readings, in input order. */
  function Body(data: seq<SensorData>): string
  {
    Concat(Blocks(data))
  }

  /** `convertToXML`: the header, the root's opening tag, one block per reading, the closing tag. */
  method ConvertToXml(data: seq<SensorData>) returns (xml: string)
    ensures xml == HEADER + OPEN_ROOT + Body(data) + CLOSE_ROOT
  {
    xml := HEADER;
    xml := xml + OPEN_ROOT;
    ghost var prologue := xml;
    for i := 0 to |data|
      invariant xml == prologue + Body(data[..i])
    {
      var reading := data[i];
      var block := "    <Reading>\n";
      block := block + Element("SensorId", IntToDecimal(reading.sensorId));
      block := block + Element("Value", IntToDecimal(reading.value));
      block := block + Element("Timestamp", reading.timestamp);
      block := block + "    </Reading>\n";
      assert block == Block(reading);
      BodyStep(data, i);
      Associative(prologue, Body(data[..i]), block);
      xml := xml + block;
    }
    assert data[..|data|] == data;
    xml := xml + CLOSE_ROOT;
  }

  lemma Associative(a: string, b: string, c: string)
    ensures (a + b) + c == a + (b + c)
  {
  }

  /** Writing two lists of pieces one after the other writes the first list, then the second. */
  lemma {:induction false} ConcatAppend(a: seq<string>, b: seq<string>)
    ensures Concat(a + b) == Concat(a) + Concat(b)
  {
    if b == [] {
      assert a + b == a;
    } else {
      var ab, init, last := a + b, b[..|b| - 1], b[|b| - 1];
      assert ab[..|ab| - 1] == a + init;
      assert ab[|ab| - 1] == last;
      calc {
        Concat(a + b);
        Concat(a + init) + last;
        { ConcatAppend(a, init); }
        (Concat(a) + Concat(init)) + last;
        { Associative(Concat(a), Concat(init), last); }
        Concat(a) + (Concat(init) + last);
        Concat(a) + Concat(b);
      }
    }
  }

  /** The body of a concatenation is the concatenation of the bodies. */
  lemma BodyAppend(a: seq<SensorData>, b: seq<SensorData>)
    ensures Body(a + b) == Body(a) + Body(b)
  {
    MapSeqAppend(a, b, Block);
    ConcatAppend(Blocks(a), Blocks(b));
  }

  /** One more reading appends its block to the body. */
  lemma BodyStep(data: seq<SensorData>, i: nat)
    requires i < |data|
    ensures Body(data[..i + 1]) == Body(data[..i]) + Block(data[i])
  {
    var blocks := Blocks(data[..i + 1]);
    assert blocks[..i] == Blocks(data[..i]);
  }

  /** The i-th reading's block stands, whole, right after the blocks of the readings before it. */
  lemma BlockAt(data: seq<SensorData>, i: nat)
    requires i < |data|
    ensures var at := |Body(data[..i])|;
      at + |Block(data[i])| <= |Body(data)| && Body(data)[at..at + |Block(data[i])|] == Block(data[i])
  {
    Split(data, i);
    Middle(Body(data[..i]), Block(data[i]), Body(data[i + 1..]));
  }

  /** The body is the blocks before reading `i`, its block, and the blocks after it. */
  lemma Split(data: seq<SensorData>, i: nat)
    requires i < |data|
    ensures Body(data) == (Body(data[..i]) + Block(data[i])) + Body(data[i + 1..])
  {
    assert data == data[..i + 1] + data[i + 1..];
    BodyAppend(data[..i + 1], data[i + 1..]);
    BodyStep(data, i);
  }

  /** The middle piece of three sits right after the first. */
  lemma Middle(a: string, b: string, c: string)
    ensures ((a + b) + c)[|a|..|a| + |b|] == b
  {
  }

  /** The document is framed the same way whatever the readings: it opens with the declaration and the root tag, and ends with the closing tag. */
  lemma Framing(data: seq<SensorData>, xml: string)
    requires xml == HEADER + OPEN_ROOT + Body(data) + CLOSE_ROOT
    ensures |xml| >= |HEADER + OPEN_ROOT| + |CLOSE_ROOT|
    ensures xml[..|HEADER + OPEN_ROOT|] == HEADER + OPEN_ROOT
    ensures xml[|xml| - |CLOSE_ROOT|..] == CLOSE_ROOT
  {
    var prologue, body := HEADER + OPEN_ROOT, Body(data);
    Associative(prologue, body, CLOSE_ROOT);
    assert xml == prologue + (body + CLOSE_ROOT);
  }

  /** With no readings the document is the declaration, the opening tag and the closing tag, nothing between. */
  lemma EmptyDocument(xml: string)
    requires xml == HEADER + OPEN_ROOT + Body([]) + CLOSE_ROOT
    ensures xml == HEADER + OPEN_ROOT + CLOSE_ROOT
  {
    assert Blocks([]) == [];
  }

  /** The `id` of a reading never reaches the output. */
  lemma BlockIgnoresId(r: SensorData, id: int)
    ensures Block(r.(id := id)) == Block(r)
  {
  }
}
