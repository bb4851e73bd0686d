# Sensor readings: chart preparation, XML export and the sensor API

This project models the computational core of a small sensor-monitoring
system. It has three parts:

- **The dashboard's chart preparation** (module `GraphView`). Readings are
  bucketed by UTC calendar day and sensor. Each bucket is averaged, and
  the day rows are sorted by day. Every day missing between the first and
  the last day is made up from its neighbours. One chart series is
  configured per sensor.
- **The dashboard's XML export** (module `ImportXml`). The readings are
  written as a `SensorReadings` document with one `Reading` element each.
- **The API controller** (module `SensorApi`). It stores single readings.
  It imports an XML document: validate it, parse the `Reading` elements one
  by one, skip and log the bad ones, and store the rest in one batch. It
  lists stored readings in an optional time range, newest first. It
  summarises each sensor's readings over a time range (average, maximum,
  minimum).

Module `ExportImport` joins the two ends. Take readings whose sensor id
and value are 32-bit integers and whose timestamp text the server's date
parser accepts. Their exported elements, read back by the API's parser,
give one record per reading with the same sensor id and value, and no
warning. This rests on an assumed XML loader, which is listed under
"## Left out".

The supporting modules are:

- `Decimal`: the decimal text of an integer, which is what JavaScript's
  `${n}` writes for integers up to 2^53 in magnitude, and .NET's
  `int.TryParse`.
- `Stats`: sum, mean, minimum and maximum of integer sequences.
- `Seqs`: mapping a function over a sequence.
- `WebTypes`: the dashboard's `SensorData` record.
- `Wrappers`: `Option` and `Result`.

Representation choices:

- Calendar days are integer day numbers. The day a dashboard timestamp
  falls on is the parameter `utcDay`.
- A server `DateTime` is its tick count. `DateTime.TryParse` and
  `ToUniversalTime` are the parameter `Clock`.
- Chart values are exact reals. `NaN` is kept apart as its own case, for
  the place where the code computes with an `undefined` value.
- The database table is the field `sensorData` of the class
  `SensorController`. The method bodies change it in place.

**The gap-filling rule is not linear interpolation.** The function is
`interpolateMissingDays`, its result is `interpolatedValue`
(sensor-web/src/components/views/graph-view/private-utils.ts:52-83), and
the chart is titled "Sensor Data Chart (Linear interpolation)"
(sensor-web/src/components/views/graph-view/chart-view.tsx:50). Linear
interpolation would give readings of 10 on day 1 and 20 on day 3 the value
15 on day 2. The code computes `previous + (next - previous) / 1`, which is
the next known day's value: 20 on day 2. The model follows the code.
`GraphView.Interpolate` states that the result is the next value.
`GraphView.GapTakesNextValue` proves the whole filled series of that
example.

## Model

| member | source | states |
|---|---|---|
| GraphView.BucketNonEmpty | sensor-web/src/components/views/graph-view/private-utils.ts:11-19 | a (day, sensor) bucket is non-empty exactly when some reading of that sensor falls on that day |
| GraphView.Push | sensor-web/src/components/views/graph-view/private-utils.ts:11-19 | one reduce step: the value appended to the bucket of its day and sensor, both created when absent. Its effect is stated by BucketNext, ValueCountPush, PushMatches and PushPresent |
| GraphView.DaySizePush | sensor-web/src/components/views/graph-view/private-utils.ts:19 | pushing a value makes that day's count of values exactly one larger |
| GraphView.ValueCountPush | sensor-web/src/components/views/graph-view/private-utils.ts:11-19 | pushing one value, with or without creating its day and sensor, makes the total number of bucketed values exactly one larger |
| GraphView.BucketNext | sensor-web/src/components/views/graph-view/private-utils.ts:7-19 | one more reading appends its value to its own bucket and leaves every other bucket as it was |
| GraphView.PushNext | sensor-web/src/components/views/graph-view/private-utils.ts:7-21 | one reduce step keeps the accumulator equal to the grouping of the readings seen so far |
| GraphView.PushMatches | sensor-web/src/components/views/graph-view/private-utils.ts:11-19 | after one step every bucket holds exactly its readings' values in input order and none is empty |
| GraphView.PushPresent | sensor-web/src/components/views/graph-view/private-utils.ts:11-19 | after one step every reading seen so far has its day and its sensor in the accumulator |
| GraphView.GroupByDate | sensor-web/src/components/views/graph-view/private-utils.ts:5-25 | each (day, sensor) bucket holds exactly the values of that sensor's readings on that day, in input order; no bucket is empty; every reading has its bucket; the days held are exactly the readings' days; the buckets hold as many values as there are readings |
| GraphView.GroupedDays | sensor-web/src/components/views/graph-view/private-utils.ts:11-19 | when no day is empty, a day is held exactly when some reading falls on it |
| GraphView.AverageSensors | sensor-web/src/components/views/graph-view/private-utils.ts:34-38 | the day's values are for exactly the day's sensors, each the mean of its bucket |
| GraphView.Swap | sensor-web/src/components/views/graph-view/private-utils.ts:43-47 | exchanges two rows of the array and keeps its multiset of rows |
| GraphView.SwapKeepsDistinct | sensor-web/src/components/views/graph-view/private-utils.ts:43-47 | exchanging two rows keeps the days pairwise distinct |
| GraphView.SinkInto | sensor-web/src/components/views/graph-view/private-utils.ts:43-47 | moves the next row into place: the prefix through it is in ascending day order and is a permutation of the old prefix, the rows after it are unchanged, and days stay distinct |
| GraphView.SortByDay | sensor-web/src/components/views/graph-view/private-utils.ts:43-47 | the array ends in ascending day order and is a permutation of the input |
| GraphView.AverageDays | sensor-web/src/components/views/graph-view/private-utils.ts:30-41 | one row per grouped day, with distinct days, each row averaging its day's buckets |
| GraphView.AppendNewDay | sensor-web/src/components/views/graph-view/private-utils.ts:30-41 | appending a row of a new day adds that day and keeps the days distinct |
| GraphView.CalculateAverages | sensor-web/src/components/views/graph-view/private-utils.ts:27-50 | the result covers exactly the grouped days, in strictly ascending day order, and each row holds the mean of each of its day's buckets |
| GraphView.SameEntries | sensor-web/src/components/views/graph-view/private-utils.ts:43-49 | two sequences of rows with the same multiset have the same rows and the same days |
| GraphView.SameEntriesSameDays | sensor-web/src/components/views/graph-view/private-utils.ts:43-49 | two sequences with the same rows cover the same days |
| GraphView.Interpolate | sensor-web/src/components/views/graph-view/private-utils.ts:81-84 | the made-up value is a number exactly when both neighbours' values are numbers, and it is then the next value |
| GraphView.Synthesized | sensor-web/src/components/views/graph-view/private-utils.ts:77-86 | the row made up for a missing day: each of the previous row's sensors with the interpolation of its previous and next values. Its properties are stated by SynthesizedKeys, Synthesize, DensifiedKeys and DensifiedFinite |
| GraphView.SynthesizedKeys | sensor-web/src/components/views/graph-view/private-utils.ts:79-86 | a made-up day has exactly the sensor keys of the day before it |
| GraphView.FirstAfter | sensor-web/src/components/views/graph-view/private-utils.ts:74-75 | the index of the first known row after a day: every row before it is on or before the day, and the row at it is after the day |
| GraphView.GetDateRange | sensor-web/src/components/views/graph-view/private-utils.ts:59-69 | every day from start to end inclusive, in order, and none when start is after end |
| GraphView.Synthesize | sensor-web/src/components/views/graph-view/private-utils.ts:77-86 | the made-up row has the missing day, the previous row's sensors, and for each sensor the interpolation of its previous and next values |
| GraphView.RangeEnds | sensor-web/src/components/views/graph-view/private-utils.ts:56-57 | on rows in ascending day order, the minimum and maximum day are the first and last rows' days |
| GraphView.WalkStart | sensor-web/src/components/views/graph-view/private-utils.ts:53 | the copy of the input is a correct start for the walk over the days |
| GraphView.KnownDayAt | sensor-web/src/components/views/graph-view/private-utils.ts:73 | a day present in the input is the next known row not yet passed |
| GraphView.WalkKnownDay | sensor-web/src/components/views/graph-view/private-utils.ts:72-73 | passing over a known day keeps the walk's invariant |
| GraphView.WalkMissingDayBounds | sensor-web/src/components/views/graph-view/private-utils.ts:74-75 | at a missing day, the rows before and at the current index exist, and the row at it is the next known row |
| GraphView.WalkMissingDay | sensor-web/src/components/views/graph-view/private-utils.ts:73-89 | inserting the made-up row at a missing day keeps the walk's invariant |
| GraphView.SpliceDays | sensor-web/src/components/views/graph-view/private-utils.ts:88 | the splice keeps consecutive days up to the new position |
| GraphView.SplicePlaced | sensor-web/src/components/views/graph-view/private-utils.ts:88 | the splice keeps every known row passed so far at its day's position |
| GraphView.SpliceMadeUp | sensor-web/src/components/views/graph-view/private-utils.ts:88 | after the splice, every made-up row up to the new position comes from the row before it and the next known row |
| GraphView.WalkDone | sensor-web/src/components/views/graph-view/private-utils.ts:72-92 | after the last day the result is the filled series of the input |
| GraphView.VisitDay | sensor-web/src/components/views/graph-view/private-utils.ts:72-90 | one turn of the walk, on a known or a missing day, keeps the walk's invariant for the next index |
| GraphView.InterpolateMissingDays | sensor-web/src/components/views/graph-view/private-utils.ts:52-93 | the result is empty for no input; otherwise it has one row per day from the first to the last, each known row unchanged at its day, each missing day made up from the row before it and the next known row |
| GraphView.FirstAfterKnown | sensor-web/src/components/views/graph-view/private-utils.ts:75 | the first known row after a known day is the one just after it |
| GraphView.FirstAfterMissing | sensor-web/src/components/views/graph-view/private-utils.ts:75 | a missing day and the day before it have the same next known row |
| GraphView.DensifiedAtKnown | sensor-web/src/components/views/graph-view/private-utils.ts:53 | a position of the filled series whose day is known holds the input row of that day |
| GraphView.DensifiedAtMissing | sensor-web/src/components/views/graph-view/private-utils.ts:73-89 | a position whose day is missing follows the previous day and is made up from it and the next known row |
| GraphView.DensifiedAgree | sensor-web/src/components/views/graph-view/private-utils.ts:52-93 | two filled series of the same input agree at every position |
| GraphView.DensifiesUnique | sensor-web/src/components/views/graph-view/private-utils.ts:52-93 | the filled series is determined by its input |
| GraphView.DensifiedKeys | sensor-web/src/components/views/graph-view/private-utils.ts:79-86 | each filled row has the sensors of the latest known row on or before its day |
| GraphView.SensorKeysMember | sensor-web/src/components/views/graph-view/private-utils.ts:98-101 | a sensor is among the keys exactly when some row has it |
| GraphView.DensifiedSensorKeys | sensor-web/src/components/views/graph-view/private-utils.ts:52-93 | filling in days adds no sensor and loses none |
| GraphView.DensifiedFinite | sensor-web/src/components/views/graph-view/private-utils.ts:79-86 | when all known rows have the same sensors with numbers, every filled row does too, and a made-up row has the next known row's values |
| GraphView.GapTakesNextValue | sensor-web/src/components/views/graph-view/private-utils.ts:83 | 10 on day 1 and 20 on day 3 fill in as 10, 20, 20 |
| GraphView.SeriesDistinct | sensor-web/src/components/views/graph-view/private-utils.ts:104-107 | different sensors get different labels and different colours |
| GraphView.SeriesFor | sensor-web/src/components/views/graph-view/private-utils.ts:104-108 | the label `Датчик n` and the colour of sensor n's palette variable. SeriesDistinct states that different sensors get different labels and colours |
| GraphView.GenerateChartConfig | sensor-web/src/components/views/graph-view/private-utils.ts:95-114 | one series per sensor key found in any row, no other key, each with that sensor's label and colour |
| ImportXml.ConvertToXml | sensor-web/src/components/views/import-xml/import-xml.tsx:35-50 | the document is the declaration, the opening root tag, the readings' blocks in input order, and the closing tag |
| ImportXml.Block | sensor-web/src/components/views/import-xml/import-xml.tsx:40-44 | the `Reading` element of one reading: sensor id, value and timestamp in that order. BlockIgnoresId, BlockAt and ExportImport.ExportedNodeTexts state its properties |
| ImportXml.ConcatAppend | sensor-web/src/components/views/import-xml/import-xml.tsx:39-45 | writing two lists of pieces one after the other writes the first, then the second |
| ImportXml.BodyAppend | sensor-web/src/components/views/import-xml/import-xml.tsx:39-45 | the body of two runs of readings is the first run's body followed by the second's |
| ImportXml.BodyStep | sensor-web/src/components/views/import-xml/import-xml.tsx:39-45 | one more reading appends exactly its block |
| ImportXml.Split | sensor-web/src/components/views/import-xml/import-xml.tsx:39-45 | the body is the blocks before a reading, its block, then the blocks after it |
| ImportXml.BlockAt | sensor-web/src/components/views/import-xml/import-xml.tsx:40-44 | each reading's block appears whole in the body, right after the blocks of the readings before it |
| ImportXml.Framing | sensor-web/src/components/views/import-xml/import-xml.tsx:36-47 | every document starts with the declaration and the root tag and ends with the closing tag |
| ImportXml.EmptyDocument | sensor-web/src/components/views/import-xml/import-xml.tsx:36-47 | with no readings, nothing lies between the opening and closing root tags |
| ImportXml.BlockIgnoresId | sensor-web/src/components/views/import-xml/import-xml.tsx:40-44 | a reading's id does not reach the output |
| Decimal.NatToDecimal | sensor-web/src/components/views/import-xml/import-xml.tsx:41-42 | the text of a natural number is a non-empty run of digits |
| Decimal.IntToDecimal | sensor-web/src/components/views/import-xml/import-xml.tsx:41-42 | the text is non-empty and starts with a minus sign exactly for negative numbers, with only digits otherwise; ParseInt32OfDecimal and IntToDecimalInjective state that it reads back and is injective |
| Decimal.ParseInt32 | sensor-api/Controllers/SensorController.cs:170-180 | a successful parse yields a 32-bit integer |
| Decimal.NatToDecimalValue | sensor-api/Controllers/SensorController.cs:176 | reading back the digits of a number gives the number |
| Decimal.ParseInt32OfDecimal | sensor-api/Controllers/SensorController.cs:176 | `int.TryParse` reads back exactly the integer that `${n}` wrote when it fits in 32 bits, and fails otherwise |
| Decimal.IntToDecimalInjective | sensor-web/src/components/views/graph-view/private-utils.ts:104-107 | different integers are written differently |
| Stats.Min | sensor-web/src/components/views/graph-view/private-utils.ts:56 | the minimum is an element, no larger than any element |
| Stats.Max | sensor-web/src/components/views/graph-view/private-utils.ts:57 | the maximum is an element, no smaller than any element |
| Stats.MeanWithinRange | sensor-api/Controllers/SensorController.cs:92-94 | the mean of a non-empty sequence lies between its minimum and maximum |
| Stats.MeanOfConstant | sensor-web/src/components/views/graph-view/private-utils.ts:36 | the mean of equal values is that value |
| SensorApi.ParseReading | sensor-api/Controllers/SensorController.cs:160-197 | a missing child skips the element with the missing-element warning; otherwise an unparseable sensor id, value or timestamp, checked in that order, skips it with a warning carrying that text; when all three parse, the result is the record with those numbers, the UTC time and no id, and a record arises only that way |
| SensorApi.ParseXml | sensor-api/Controllers/SensorController.cs:151-201 | returns the records of the elements that parse, in document order, and a warning for each element skipped; each element yields exactly one of the two |
| SensorApi.KeptStep | sensor-api/Controllers/SensorController.cs:158-198 | one more element adds its record or its warning, not both |
| SensorApi.KeptAppend | sensor-api/Controllers/SensorController.cs:158-198 | records and warnings of two runs of outcomes are those of the first followed by those of the second |
| SensorApi.OutcomesAppend | sensor-api/Controllers/SensorController.cs:158-198 | the outcomes of two runs of elements are those of the first followed by those of the second |
| SensorApi.ParsedAppend | sensor-api/Controllers/SensorController.cs:158-198 | parsing two runs of elements gives the records and warnings of the first followed by those of the second |
| SensorApi.KeptCount | sensor-api/Controllers/SensorController.cs:158-198 | records plus warnings number exactly the elements |
| SensorApi.AllKept | sensor-api/Controllers/SensorController.cs:158-198 | when every outcome is a record, the records are those, in order, with no warning |
| SensorApi.AllParsed | sensor-api/Controllers/SensorController.cs:158-198 | when every element parses, the result is their records in order, with no warning |
| SensorApi.SingleReading | sensor-api/Controllers/SensorController.cs:160-197 | a single element gives its record and no warning, or its warning and no record |
| SensorApi.SkippedLeavesNoRecord | sensor-api/Controllers/SensorController.cs:164-186 | a skipped element adds no record and adds exactly its warning |
| SensorApi.DecimalReading | sensor-api/Controllers/SensorController.cs:170-194 | an element holding the decimal texts of two integers is read back with those integers when both fit in 32 bits, and is skipped with the first offending text otherwise |
| SensorApi.SensorController.constructor | sensor-api/Controllers/SensorController.cs:13-17 | the controller starts over the given table |
| SensorApi.SensorController.PostData | sensor-api/Controllers/SensorController.cs:26-40 | a successful save appends the reading and answers OK; a failed one answers 500 and stores nothing |
| SensorApi.SensorController.UploadXml | sensor-api/Controllers/SensorController.cs:118-144 | no file or an empty file is a bad request, and an invalid document is a bad request with the validator's errors, both storing nothing; otherwise the parsed records are appended and the answer is OK, and a failed load or save answers 500 and stores nothing |
| SensorApi.Where | sensor-api/Controllers/SensorController.cs:57-61 | keeps exactly the rows within the bounds given, each as many times as stored |
| SensorApi.Insert | sensor-api/Controllers/SensorController.cs:63 | inserting into rows ordered newest first keeps them ordered and adds exactly that row |
| SensorApi.DescendingCons | sensor-api/Controllers/SensorController.cs:63 | a row no older than the head of rows ordered newest first may be put in front |
| SensorApi.OrderByDescending | sensor-api/Controllers/SensorController.cs:63 | the rows newest first, as a permutation of the input |
| SensorApi.GetData | sensor-api/Controllers/SensorController.cs:51-71 | exactly the stored rows within the optional bounds, each as many times as stored, newest first |
| SensorApi.GetDataMembers | sensor-api/Controllers/SensorController.cs:57-63 | a row is listed exactly when it is stored and within the bounds |
| SensorApi.GetDataUnbounded | sensor-api/Controllers/SensorController.cs:55-63 | with no bounds, every stored row is listed |
| SensorApi.SensorIds | sensor-api/Controllers/SensorController.cs:88 | each sensor of the rows once, and no other |
| SensorApi.ValuesOf | sensor-api/Controllers/SensorController.cs:88-94 | a sensor has values exactly when it has a row |
| SensorApi.GetSummary | sensor-api/Controllers/SensorController.cs:82-105 | the summary rows of the readings within the inclusive range. SummaryShape, SummaryDistinct, SummaryCovers, SummaryOnlyPresent and SummaryBounds state its contract |
| SensorApi.SummaryShape | sensor-api/Controllers/SensorController.cs:86-96 | one summary row per sensor in range, each with the mean, maximum and minimum of that sensor's values in range |
| SensorApi.SummaryDistinct | sensor-api/Controllers/SensorController.cs:88-91 | no sensor has two summary rows |
| SensorApi.SummaryCovers | sensor-api/Controllers/SensorController.cs:87-91 | every sensor with a reading within the inclusive range has a summary row |
| SensorApi.SummaryOnlyPresent | sensor-api/Controllers/SensorController.cs:87-91 | every summary row belongs to a sensor with a reading within the range |
| SensorApi.SummaryBounds | sensor-api/Controllers/SensorController.cs:92-94 | in every summary row, minimum ≤ average ≤ maximum |
| ExportImport.ExportedReadingParses | sensor-api/Controllers/SensorController.cs:160-197 | the element written for a reading with 32-bit numbers and a parseable timestamp parses back to a record with its sensor id and value |
| ExportImport.ExportedNodeTexts | sensor-web/src/components/views/import-xml/import-xml.tsx:40-44 | the texts of the element taken as read back are exactly the texts written between the child tags of the reading's block |
| ExportImport.ExportThenImport | sensor-api/Controllers/SensorController.cs:151-201 | importing an export of importable readings gives one record per reading, in order, and no warning |
| ExportImport.WideValueDropped | sensor-api/Controllers/SensorController.cs:176-180 | an exported reading whose value does not fit in 32 bits is dropped on import with a bad-value warning |

## Left out

- ExportImport.ExportedNode: the XML loader is assumed, not modelled. A reading's block is taken to load as an element whose child texts are the texts written between the tags (`ExportImport.ExportedNodeTexts`). This fails when a timestamp text holds `<` or `&`, which the export does not escape. The schema check before parsing is not part of `ExportImport.ExportThenImport`.
- WideValueDropped (`ExportImport.WideValueDropped`): the warning text it states is `IntToDecimal(value)`. That is the text the dashboard writes only when the value is an integer a JavaScript number holds exactly (magnitude at most 2^53). Larger values are rounded, and from 10^21 on they are written in exponent form, so the logged text differs.
- Decimal.IntToDecimal: agrees with JavaScript's `${n}` only for integers of magnitude at most 2^53. The dashboard's numbers are not modelled as IEEE doubles.
- The XML schema validator is not modelled. `UploadXml` takes the validation verdict and errors as the parameter `validate`.
- Loading the XML document is not modelled. `UploadXml` takes the parser's result as the parameter `readingElements`: the `Reading` elements' child texts, or `None` where loading throws.
- `DateTime.TryParse` depends on culture and `ToUniversalTime` on time zone. Both are the parameter `Clock` over tick counts.
- JavaScript `Date` parsing, `toISOString` and `setDate` (local time and daylight saving) are not modelled. Days are integer day numbers, and the timestamp to UTC day mapping is the parameter `utcDay`.
- The `RangeError` that `toISOString` throws on an unparseable timestamp is not modelled, because `utcDay` is total.
- Floating point is not modelled: means and made-up values are exact reals. `NaN` is kept as its own case only where the code computes with `undefined`.
- The database is not modelled. The assignment of `id` by the database, the order of tied timestamps, and the order of summary groups are left out. The model lists tied rows in a fixed but unspecified order, and groups in order of first appearance.
- Streams, `async` and logging are not modelled. The parser returns its warnings instead of logging them.
- The 500 answers of `GetData` and `GetSummary` are not modelled: they are functions of the stored rows and cannot fail.
- The sensor emulator, the dashboard's views, its API client and the application start-up are not part of this model.
- `int.TryParse` is modelled for its default number style with ASCII white space. Other Unicode white space, trailing null characters and culture-specific signs are left out.
- The export does not escape XML special characters, and neither does the model. A timestamp text holding `<` or `&` is written verbatim.
- The day labels of the chart are day numbers, not `YYYY-MM-DD` texts. Sorting compares day numbers, as the code's comparison of parsed dates does.
- GraphView.InterpolateMissingDays: requires its input in strictly ascending day order. Its only caller passes the output of `calculateAverages`, which is sorted and has one row per day. Unsorted input is not modelled.
- GraphView.CalculateAverages: requires every bucket to be non-empty. `groupByDate` never creates an empty bucket (`GraphView.GroupByDate` proves this), and an empty one would give NaN.
- GraphView.AverageSensors: requires non-empty buckets, for the same reason as `GraphView.CalculateAverages`.
- GraphView.SortByDay: requires distinct days, which `AverageDays` provides. It is an insertion sort, where the code calls the engine's `Array.prototype.sort`.
