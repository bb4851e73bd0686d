/**
  The dashboard chart's data preparation: readings are bucketed by UTC
  calendar day and sensor, each bucket is averaged, the days are sorted,
  every missing day between the first and the last is filled in, and one
  chart series is configured per sensor.

  Days are integer day numbers; which day a timestamp text falls on (its UTC
  date) is the parameter `utcDay`. Chart values are exact reals, with `NaN`
  kept apart for the one place the code can produce it.
*/
module GraphView {
  import opened Stats
  import opened Decimal
  import opened WebTypes

  // ---------------------------------------------------------------------
  // groupByDate

  /** The accumulator of `groupByDate`: day -> sensor id -> the values seen. */
  type Grouped = map<int, map<int, seq<int>>>

  /** The values that readings of `sensor` on `day` contribute, in input order. */
  function Bucket(data: seq<SensorData>, utcDay: string -> int, day: int, sensor: int): seq<int>
  {
    if data == [] then []
    else
      var last := data[|data| - 1];
      Bucket(data[..|data| - 1], utcDay, day, sensor)
      + (if utcDay(last.timestamp) == day && last.sensorId == sensor then [last.value] else [])
  }

  /** A bucket is non-empty exactly when some reading has its day and sensor. */
  lemma {:induction false} BucketNonEmpty(data: seq<SensorData>, utcDay: string -> int, day: int, sensor: int)
    ensures Bucket(data, utcDay, day, sensor) != [] <==>
      exists i :: 0 <= i < |data| && utcDay(data[i].timestamp) == day && data[i].sensorId == sensor
  {
    if data != [] {
      var init := data[..|data| - 1];
      BucketNonEmpty(init, utcDay, day, sensor);
      if exists i :: 0 <= i < |init| && utcDay(init[i].timestamp) == day && init[i].sensorId == sensor {
        var i :| 0 <= i < |init| && utcDay(init[i].timestamp) == day && init[i].sensorId == sensor;
        assert data[i] == init[i];
      }
      if exists i :: 0 <= i < |data| && utcDay(data[i].timestamp) == day && data[i].sensorId == sensor {
        var i :| 0 <= i < |data| && utcDay(data[i].timestamp) == day && data[i].sensorId == sensor;
        if i < |init| {
          assert init[i] == data[i];
        }
      }
    }
  }

  lemma NonEmptySet(s: set<int>)
    requires s != {}
    ensures exists x :: x in s
  {
    assert (forall x :: x !in s) ==> s == {};
  }

  lemma NonEmptyMap<V>(m: map<int, V>)
    requires m != map[]
    ensures exists k :: k in m
  {
    assert (forall k :: k !in m) ==> m == map[];
  }

  /** The sum of the values of a map with natural values. */
  ghost function SumOf(m: map<int, nat>): nat
    decreases |m|
  {
    if m == map[] then 0
    else
      NonEmptyMap(m);
      var k :| k in m;
      m[k] + SumOf(m - {k})
  }

  lemma {:induction false} SumOfRemove(m: map<int, nat>, k: int)
    requires k in m
    ensures SumOf(m) == m[k] + SumOf(m - {k})
    decreases |m|
  {
    var j :| j in m && SumOf(m) == m[j] + SumOf(m - {j});
    if j != k {
      assert |m - {j}| < |m| by {
        assert (m - {j}).Keys == m.Keys - {j};
      }
      SumOfRemove(m - {j}, k);
      assert |m - {k}| < |m| by {
        assert (m - {k}).Keys == m.Keys - {k};
      }
      SumOfRemove(m - {k}, j);
      assert m - {j} - {k} == m - {k} - {j};
    }
  }

  lemma SumOfUpdate(m: map<int, nat>, k: int, v: nat)
    ensures SumOf(m[k := v]) == SumOf(m) - (if k in m then m[k] else 0) + v
  {
    SumOfRemove(m[k := v], k);
    if k in m {
      SumOfRemove(m, k);
      assert m[k := v] - {k} == m - {k};
    } else {
      assert m[k := v] - {k} == m;
    }
  }

  /** The number of values in each bucket of a day. */
  function BucketSizes(sensors: map<int, seq<int>>): map<int, nat>
  {
    map s | s in sensors :: |sensors[s]|
  }

  /** The number of values held in all buckets of all days. */
  ghost function ValueCount(groups: Grouped): nat
  {
    SumOf(DaySizes(groups))
  }

  /** The number of values on each day. */
  ghost function DaySizes(groups: Grouped): map<int, nat>
  {
    map d | d in groups :: SumOf(BucketSizes(groups[d]))
  }

  /** Appending one value to one bucket of a day adds one to the day's count. */
  lemma DaySizePush(sensors: map<int, seq<int>>, sensor: int, v: int)
    ensures var values := if sensor in sensors then sensors[sensor] else [];
      SumOf(BucketSizes(sensors[sensor := values + [v]])) == SumOf(BucketSizes(sensors)) + 1
  {
    var values := if sensor in sensors then sensors[sensor] else [];
    assert BucketSizes(sensors[sensor := values + [v]]) == BucketSizes(sensors)[sensor := |values| + 1];
    SumOfUpdate(BucketSizes(sensors), sensor, |values| + 1);
  }

  /** Appending one value to one bucket (creating the day and the bucket when absent) adds one to the count. */
  lemma ValueCountPush(groups: Grouped, day: int, sensor: int, v: int)
    ensures var sensors := if day in groups then groups[day] else map[];
      var values := if sensor in sensors then sensors[sensor] else [];
      ValueCount(groups[day := sensors[sensor := values + [v]]]) == ValueCount(groups) + 1
  {
    var sensors := if day in groups then groups[day] else map[];
    var values := if sensor in sensors then sensors[sensor] else [];
    var sensors' := sensors[sensor := values + [v]];
    var groups' := groups[day := sensors'];
    DaySizePush(sensors, sensor, v);
    assert DaySizes(groups') == DaySizes(groups)[day := SumOf(BucketSizes(sensors'))];
    SumOfUpdate(DaySizes(groups), day, SumOf(BucketSizes(sensors')));
    if day !in groups {
      assert BucketSizes(sensors) == map[];
    }
    assert ValueCount(groups) == SumOf(DaySizes(groups));
    assert ValueCount(groups') == SumOf(DaySizes(groups'));
  }

  /** `groups` holds exactly the non-empty buckets of `data`. */
  ghost predicate GroupsOf(groups: Grouped, data: seq<SensorData>, utcDay: string -> int)
  {
    BucketsMatch(groups, data, utcDay) && BucketsPresent(groups, data, utcDay)
  }

  /** Every bucket held is the non-empty bucket of `data`. */
  ghost predicate BucketsMatch(groups: Grouped, data: seq<SensorData>, utcDay: string -> int)
  {
    forall d, s :: d in groups && s in groups[d] ==>
      groups[d][s] == Bucket(data, utcDay, d, s) && groups[d][s] != []
  }

  /** Every reading's day and sensor are held. */
  ghost predicate BucketsPresent(groups: Grouped, data: seq<SensorData>, utcDay: string -> int)
  {
    forall j :: 0 <= j < |data| ==>
      utcDay(data[j].timestamp) in groups && data[j].sensorId in groups[utcDay(data[j].timestamp)]
  }

  /** `groups` with `v` appended to the bucket of (`day`, `sensor`), the day and the bucket created when absent. */
  function Push(groups: Grouped, day: int, sensor: int, v: int): Grouped
  {
    var sensors := if day in groups then groups[day] else map[];
    var values := if sensor in sensors then sensors[sensor] else [];
    groups[day := sensors[sensor := values + [v]]]
  }

  /** The next reading extends its own bucket by its value and no other. */
  lemma BucketNext(data: seq<SensorData>, utcDay: string -> int, i: nat, d: int, s: int)
    requires i < |data|
    ensures Bucket(data[..i + 1], utcDay, d, s) == Bucket(data[..i], utcDay, d, s)
      + (if d == utcDay(data[i].timestamp) && s == data[i].sensorId then [data[i].value] else [])
  {
    assert data[..i + 1][..i] == data[..i];
    assert data[..i + 1][i] == data[i];
  }

  /** Pushing the next reading's value keeps the accumulator equal to the buckets of the readings seen. */
  lemma PushNext(groups: Grouped, data: seq<SensorData>, utcDay: string -> int, i: nat)
    requires i < |data|
    requires GroupsOf(groups, data[..i], utcDay)
    ensures GroupsOf(Push(groups, utcDay(data[i].timestamp), data[i].sensorId, data[i].value), data[..i + 1], utcDay)
  {
    PushMatches(groups, data, utcDay, i);
    PushPresent(groups, data, utcDay, i);
  }

  lemma PushMatches(groups: Grouped, data: seq<SensorData>, utcDay: string -> int, i: nat)
    requires i < |data|
    requires GroupsOf(groups, data[..i], utcDay)
    ensures BucketsMatch(Push(groups, utcDay(data[i].timestamp), data[i].sensorId, data[i].value), data[..i + 1], utcDay)
  {
    var day, sensor := utcDay(data[i].timestamp), data[i].sensorId;
    var groups' := Push(groups, day, sensor, data[i].value);
    forall d, s | d in groups' && s in groups'[d]
      ensures groups'[d][s] == Bucket(data[..i + 1], utcDay, d, s) && groups'[d][s] != []
    {
      BucketNext(data, utcDay, i, d, s);
      if !(d == day && s == sensor) {
        assert d in groups && s in groups[d];
      } else if !(d in groups && s in groups[d]) {
        BucketNonEmpty(data[..i], utcDay, d, s);
      }
    }
  }

  lemma PushPresent(groups: Grouped, data: seq<SensorData>, utcDay: string -> int, i: nat)
    requires i < |data|
    requires GroupsOf(groups, data[..i], utcDay)
    ensures BucketsPresent(Push(groups, utcDay(data[i].timestamp), data[i].sensorId, data[i].value), data[..i + 1], utcDay)
  {
    var day, sensor := utcDay(data[i].timestamp), data[i].sensorId;
    var groups' := Push(groups, day, sensor, data[i].value);
    var sensors := if day in groups then groups[day] else map[];
    assert groups'[day] == sensors[sensor := (if sensor in sensors then sensors[sensor] else []) + [data[i].value]];
    assert day in groups' && sensor in groups'[day];
    forall j | 0 <= j < i + 1
      ensures utcDay(data[j].timestamp) in groups' && data[j].sensorId in groups'[utcDay(data[j].timestamp)]
    {
      if j < i {
        var d, s := utcDay(data[j].timestamp), data[j].sensorId;
        assert data[..i][j] == data[j];
        assert d in groups && s in groups[d];
        if d == day {
          assert s in sensors;
        } else {
          assert groups'[d] == groups[d];
        }
      }
    }
    assert forall j :: 0 <= j < i + 1 ==> data[..i + 1][j] == data[j];
  }

  /**
    `groupByDate`: every reading's value is appended to the bucket of its UTC
    day and sensor. Each bucket holds exactly its readings' values in input
    order, no bucket is empty, every reading has its bucket, and the buckets
    hold as many values as there are readings.
  */
  method GroupByDate(data: seq<SensorData>, utcDay: string -> int) returns (groups: Grouped)
    ensures forall d, s :: d in groups && s in groups[d] ==>
      groups[d][s] == Bucket(data, utcDay, d, s) && groups[d][s] != []
    ensures forall i :: 0 <= i < |data| ==>
      utcDay(data[i].timestamp) in groups && data[i].sensorId in groups[utcDay(data[i].timestamp)]
    ensures ValueCount(groups) == |data|
    ensures forall d :: d in groups <==> exists i :: 0 <= i < |data| && utcDay(data[i].timestamp) == d
  {
    groups := map[];
    for i := 0 to |data|
      invariant GroupsOf(groups, data[..i], utcDay)
      invariant forall d :: d in groups ==> groups[d] != map[]
      invariant ValueCount(groups) == i
    {
      var reading := data[i];
      var day := utcDay(reading.timestamp);
      var sensors := if day in groups then groups[day] else map[];
      var values := if reading.sensorId in sensors then sensors[reading.sensorId] else [];
      ValueCountPush(groups, day, reading.sensorId, reading.value);
      PushNext(groups, data, utcDay, i);
      groups := groups[day := sensors[reading.sensorId := values + [reading.value]]];
    }
    assert data[..|data|] == data;
    GroupedDays(groups, data, utcDay);
  }

  /** When no day is empty, the days held are exactly the days of the readings. */
  lemma GroupedDays(groups: Grouped, data: seq<SensorData>, utcDay: string -> int)
    requires GroupsOf(groups, data, utcDay)
    requires forall d :: d in groups ==> groups[d] != map[]
    ensures forall d :: d in groups <==> exists i :: 0 <= i < |data| && utcDay(data[i].timestamp) == d
  {
    forall d
      ensures d in groups <==> exists i :: 0 <= i < |data| && utcDay(data[i].timestamp) == d
    {
      if d in groups {
        NonEmptyMap(groups[d]);
        var s :| s in groups[d];
        BucketNonEmpty(data, utcDay, d, s);
      }
    }
  }

  // ---------------------------------------------------------------------
  // calculateAverages

  /** A chart value: an exact number, or the NaN JavaScript arithmetic yields on `undefined`. */
  datatype Num = Finite(x: real) | NaN

  /** One chart row: a day and a value per sensor key. */
  datatype DayEntry = DayEntry(day: int, values: map<int, Num>)

  /** The days the entries cover. */
  function Days(entries: seq<DayEntry>): set<int>
  {
    set i | 0 <= i < |entries| :: entries[i].day
  }

  /** Strictly increasing days: sorted, and no day twice. */
  predicate Ascending(entries: seq<DayEntry>)
  {
    forall i, j :: 0 <= i < j < |entries| ==> entries[i].day < entries[j].day
  }

  predicate DistinctDays(entries: seq<DayEntry>)
  {
    forall i, j :: 0 <= i < |entries| && 0 <= j < |entries| && i != j ==> entries[i].day != entries[j].day
  }

  predicate NonEmptyBuckets(groups: Grouped)
  {
    forall d, s :: d in groups && s in groups[d] ==> groups[d][s] != []
  }

  /** The values are for exactly the day's sensors, each the mean of its bucket. */
  predicate Averages(values: map<int, Num>, sensors: map<int, seq<int>>)
  {
    && values.Keys == sensors.Keys
    && forall s :: s in values ==> sensors[s] != [] && values[s] == Finite(Mean(sensors[s]))
  }

  /** The inner loop of `calculateAverages`: the mean of each sensor's values on one day. */
  method AverageSensors(sensors: map<int, seq<int>>) returns (values: map<int, Num>)
    requires forall s :: s in sensors ==> sensors[s] != []
    ensures Averages(values, sensors)
  {
    values := map[];
    var pending := sensors.Keys;
    while pending != {}
      invariant pending <= sensors.Keys
      invariant values.Keys == sensors.Keys - pending
      invariant forall s :: s in values ==> values[s] == Finite(Mean(sensors[s]))
      decreases pending
    {
      NonEmptySet(pending);
      var s :| s in pending;
      values := values[s := Finite(Mean(sensors[s]))];
      pending := pending - {s};
    }
  }

  method Swap(a: array<DayEntry>, i: int, j: int)
    requires 0 <= i < a.Length && 0 <= j < a.Length
    modifies a
    ensures a[..] == old(a[..])[i := old(a[j])][j := old(a[i])]
    ensures multiset(a[..]) == old(multiset(a[..]))
  {
    a[i], a[j] := a[j], a[i];
  }

  /** Exchanging two entries keeps the days distinct. */
  lemma SwapKeepsDistinct(s: seq<DayEntry>, i: int, j: int)
    requires 0 <= i < |s| && 0 <= j < |s|
    requires DistinctDays(s)
    ensures DistinctDays(s[i := s[j]][j := s[i]])
  {
    var t := s[i := s[j]][j := s[i]];
    forall p, q | 0 <= p < |t| && 0 <= q < |t| && p != q
      ensures t[p].day != t[q].day
    {
      var p' := if p == i then j else if p == j then i else p;
      var q' := if q == i then j else if q == j then i else q;
      assert t[p] == s[p'] && t[q] == s[q'];
    }
  }

  /** While `a[i]` sinks, it sits at `j`: the entries up to `i` other than it ascend, and it is before every later one. */
  ghost predicate Sinking(s: seq<DayEntry>, j: int, i: int)
    requires 0 <= j <= i < |s|
  {
    && (forall p, q :: 0 <= p < q <= i && p != j && q != j ==> s[p].day < s[q].day)
    && (forall q :: j < q <= i ==> s[j].day < s[q].day)
  }

  /** Exchanging the sinking entry with a later-day entry before it keeps it sinking, one place down. */
  lemma SinkStep(s: seq<DayEntry>, j: int, i: int)
    requires 0 < j <= i < |s| && Sinking(s, j, i) && s[j - 1].day > s[j].day
    ensures Sinking(s[j - 1 := s[j]][j := s[j - 1]], j - 1, i)
  {
    var t := s[j - 1 := s[j]][j := s[j - 1]];
    forall q | j - 1 < q <= i
      ensures t[j - 1].day < t[q].day
    {
      if q > j {
        assert t[q] == s[q];
      }
    }
    forall p, q | 0 <= p < q <= i && p != j - 1 && q != j - 1
      ensures t[p].day < t[q].day
    {
      if p == j {
        assert t[p] == s[j - 1] && t[q] == s[q];
      } else if q == j {
        assert t[p] == s[p] && t[q] == s[j - 1];
      } else {
        assert t[p] == s[p] && t[q] == s[q];
      }
    }
  }

  /** Once the entry before it has an earlier day, the entries up to `i` ascend. */
  lemma SinkDone(s: seq<DayEntry>, j: int, i: int)
    requires 0 <= j <= i < |s| && Sinking(s, j, i) && (j > 0 ==> s[j - 1].day < s[j].day)
    ensures Ascending(s[..i + 1])
  {
    var t := s[..i + 1];
    forall p, q | 0 <= p < q < |t|
      ensures t[p].day < t[q].day
    {
      if q == j && p < j - 1 {
        assert s[p].day < s[j - 1].day;
      }
    }
  }

  /** One step of the insertion sort: moves `a[i]` down into the ascending prefix `a[..i]`. */
  method SinkInto(a: array<DayEntry>, i: int)
    requires 0 <= i < a.Length
    requires Ascending(a[..i]) && DistinctDays(a[..])
    modifies a
    ensures Ascending(a[..i + 1]) && DistinctDays(a[..])
    ensures multiset(a[..]) == old(multiset(a[..]))
    ensures multiset(a[..i + 1]) == old(multiset(a[..i + 1]))
    ensures a[i + 1..] == old(a[i + 1..])
  {
    assert Sinking(a[..], i, i) by {
      assert forall p :: 0 <= p < i ==> a[..i][p] == a[p];
    }
    var j := i;
    while j > 0 && a[j - 1].day > a[j].day
      invariant 0 <= j <= i
      invariant Sinking(a[..], j, i)
      invariant DistinctDays(a[..])
      invariant multiset(a[..]) == old(multiset(a[..]))
      invariant multiset(a[..i + 1]) == old(multiset(a[..i + 1]))
      invariant a[i + 1..] == old(a[i + 1..])
    {
      SinkOnce(a, j, i);
      j := j - 1;
    }
    assert j > 0 ==> a[j - 1].day != a[j].day by {
      if j > 0 {
        assert a[..][j - 1] == a[j - 1] && a[..][j] == a[j];
      }
    }
    SinkDone(a[..], j, i);
  }

  /** One exchange of the insertion sort: the sinking entry at `j` moves one place down. */
  method SinkOnce(a: array<DayEntry>, j: int, i: int)
    requires 0 < j <= i < a.Length
    requires Sinking(a[..], j, i) && DistinctDays(a[..]) && a[j - 1].day > a[j].day
    modifies a
    ensures Sinking(a[..], j - 1, i) && DistinctDays(a[..])
    ensures multiset(a[..]) == old(multiset(a[..]))
    ensures multiset(a[..i + 1]) == old(multiset(a[..i + 1]))
    ensures a[i + 1..] == old(a[i + 1..])
  {
    SinkStep(a[..], j, i);
    SwapKeepsDistinct(a[..], j - 1, j);
    SwapKeepsSuffix(a[..], j - 1, j, i + 1);
    Swap(a, j - 1, j);
    PrefixMultiset(old(a[..]), a[..], i + 1);
    assert old(a[..])[..i + 1] == old(a[..i + 1]) && a[..][..i + 1] == a[..i + 1];
  }

  /** Exchanging two entries before `n` leaves the entries from `n` on as they were. */
  lemma SwapKeepsSuffix(s: seq<DayEntry>, p: int, q: int, n: int)
    requires 0 <= p < n && 0 <= q < n && n <= |s|
    ensures s[p := s[q]][q := s[p]][n..] == s[n..]
  {
  }

  /** Two sequences with the same elements and the same suffix from `n` on have the same elements before `n`. */
  lemma PrefixMultiset(s: seq<DayEntry>, t: seq<DayEntry>, n: nat)
    requires n <= |s| == |t| && multiset(s) == multiset(t) && s[n..] == t[n..]
    ensures multiset(s[..n]) == multiset(t[..n])
  {
    assert s == s[..n] + s[n..];
    assert t == t[..n] + t[n..];
    assert multiset(s) == multiset(s[..n]) + multiset(s[n..]);
    assert multiset(t) == multiset(t[..n]) + multiset(t[n..]);
    forall x
      ensures multiset(s[..n])[x] == multiset(t[..n])[x]
    {
      assert multiset(s)[x] == multiset(s[..n])[x] + multiset(s[n..])[x];
      assert multiset(t)[x] == multiset(t[..n])[x] + multiset(t[n..])[x];
    }
  }

  /** The in-place sort of `calculateAverages`, ascending by day. */
  method SortByDay(a: array<DayEntry>)
    requires DistinctDays(a[..])
    modifies a
    ensures Ascending(a[..])
    ensures multiset(a[..]) == old(multiset(a[..]))
  {
    var i := 0;
    while i < a.Length
      invariant 0 <= i <= a.Length
      invariant Ascending(a[..i])
      invariant DistinctDays(a[..])
      invariant multiset(a[..]) == old(multiset(a[..]))
    {
      SinkInto(a, i);
      i := i + 1;
    }
    assert a[..a.Length] == a[..];
  }

  /** The first half of `calculateAverages`: one entry per grouped day, in no particular order. */
  method AverageDays(groups: Grouped) returns (entries: seq<DayEntry>)
    requires NonEmptyBuckets(groups)
    ensures Days(entries) == groups.Keys && DistinctDays(entries)
    ensures forall e :: e in entries ==> e.day in groups && Averages(e.values, groups[e.day])
  {
    entries := [];
    var pending := groups.Keys;
    while pending != {}
      invariant pending <= groups.Keys
      invariant Days(entries) == groups.Keys - pending
      invariant DistinctDays(entries)
      invariant forall e :: e in entries ==> e.day in groups && Averages(e.values, groups[e.day])
      decreases pending
    {
      NonEmptySet(pending);
      var day :| day in pending;
      var values := AverageSensors(groups[day]);
      var entry := DayEntry(day, values);
      AppendNewDay(entries, entry);
      entries := entries + [entry];
      pending := pending - {day};
    }
  }

  /** Appending an entry for a day not yet covered adds that day and keeps the days distinct. */
  lemma AppendNewDay(entries: seq<DayEntry>, entry: DayEntry)
    requires DistinctDays(entries) && entry.day !in Days(entries)
    ensures Days(entries + [entry]) == Days(entries) + {entry.day}
    ensures DistinctDays(entries + [entry])
  {
    var longer := entries + [entry];
    assert forall i :: 0 <= i < |entries| ==> longer[i] == entries[i];
    assert longer[|entries|] == entry;
    forall i, j | 0 <= i < |longer| && 0 <= j < |longer| && i != j
      ensures longer[i].day != longer[j].day
    {
      if i < |entries| && j < |entries| {
      } else if i < |entries| {
        assert longer[i].day in Days(entries);
      } else {
        assert longer[j].day in Days(entries);
      }
    }
  }

  /**
    `calculateAverages`: one entry per grouped day, whose sensors are that
    day's sensors, each with the mean of its bucket; the entries ascend by day.
  */
  method CalculateAverages(groups: Grouped) returns (result: seq<DayEntry>)
    requires NonEmptyBuckets(groups)
    ensures Days(result) == groups.Keys
    ensures Ascending(result)
    ensures forall i :: 0 <= i < |result| ==> result[i].day in groups && Averages(result[i].values, groups[result[i].day])
  {
    var entries := AverageDays(groups);
    var a := new DayEntry[|entries|](i requires 0 <= i < |entries| => entries[i]);
    assert a[..] == entries;
    SortByDay(a);
    result := a[..];
    SameEntries(entries, result);
  }

  /** A reordering holds the same entries and so covers the same days. */
  lemma SameEntries(x: seq<DayEntry>, y: seq<DayEntry>)
    requires multiset(x) == multiset(y)
    ensures forall e :: e in y ==> e in x
    ensures Days(x) == Days(y)
  {
    forall e | e in y
      ensures e in x
    {
      assert e in multiset(y);
    }
    forall e | e in x
      ensures e in y
    {
      assert e in multiset(x);
    }
    SameEntriesSameDays(x, y);
  }

  /** Two lists holding the same entries cover the same days. */
  lemma SameEntriesSameDays(x: seq<DayEntry>, y: seq<DayEntry>)
    requires forall e :: e in x ==> e in y
    requires forall e :: e in y ==> e in x
    ensures Days(x) == Days(y)
  {
    forall d | d in Days(x)
      ensures d in Days(y)
    {
      var i :| 0 <= i < |x| && x[i].day == d;
      assert x[i] in y;
      var j :| 0 <= j < |y| && y[j] == x[i];
    }
    forall d | d in Days(y)
      ensures d in Days(x)
    {
      var j :| 0 <= j < |y| && y[j].day == d;
      assert y[j] in x;
      var i :| 0 <= i < |x| && x[i] == y[j];
    }
  }

  // ---------------------------------------------------------------------
  // interpolateMissingDays

  /** `previousValue + (nextValue - previousValue) / 1`, with NaN for an undefined operand. */
  function Interpolate(previous: Num, next: Num): (r: Num)
    ensures r.Finite? <==> previous.Finite? && next.Finite?
    ensures r.Finite? ==> r == next
  {
    match (previous, next)
    case (Finite(p), Finite(n)) => Finite(p + (n - p) / 1.0)
    case _ => NaN
  }

  /** A sensor's value in an entry, or NaN where the entry lacks the sensor (`undefined` in arithmetic). */
  function Lookup(values: map<int, Num>, sensor: int): Num
  {
    if sensor in values then values[sensor] else NaN
  }

  /** The entry made up for a missing day from the entry before it and the next known entry. */
  function Synthesized(day: int, previous: DayEntry, next: DayEntry): DayEntry
  {
    DayEntry(day, map s | s in previous.values :: Interpolate(previous.values[s], Lookup(next.values, s)))
  }

  /** A made-up entry has the sensor keys of the entry before it. */
  lemma SynthesizedKeys(day: int, previous: DayEntry, next: DayEntry)
    ensures Synthesized(day, previous, next).values.Keys == previous.values.Keys
  {
  }

  /** The index of the first entry whose day lies after `day`; all entries before it are on or before `day`. */
  function FirstAfter(entries: seq<DayEntry>, day: int): (k: nat)
    ensures k <= |entries|
    ensures forall j :: 0 <= j < k ==> entries[j].day <= day
    ensures k < |entries| ==> entries[k].day > day
  {
    if entries == [] then 0
    else if entries[0].day > day then 0
    else 1 + FirstAfter(entries[1..], day)
  }

  /**
    The day-indexed description of the filled series: empty for no input;
    otherwise one entry per day from the first to the last, in order, each
    known entry unchanged at its day, and each missing day made up from the
    entry before it (itself possibly made up) and the next known entry.
  */
  ghost predicate Densifies(known: seq<DayEntry>, r: seq<DayEntry>)
  {
    if known == [] then r == []
    else
      && |r| == known[|known| - 1].day - known[0].day + 1
      && DaysFrom(r, known[0].day, |r|)
      && KnownPlaced(known, r, |known|, |r|)
      && MadeUp(known, r, |r|)
  }

  /** The first `n` entries of `r` are the days `first`, `first + 1`, ... */
  ghost predicate DaysFrom(r: seq<DayEntry>, first: int, n: nat)
    requires n <= |r|
  {
    forall i :: 0 <= i < n ==> r[i].day == first + i
  }

  /** The first `k` known entries sit unchanged, each at its day's offset, among the first `n` entries of `r`. */
  ghost predicate KnownPlaced(known: seq<DayEntry>, r: seq<DayEntry>, k: nat, n: nat)
    requires known != [] && k <= |known| && n <= |r|
  {
    forall j :: 0 <= j < k ==> 0 <= known[j].day - known[0].day < n && r[known[j].day - known[0].day] == known[j]
  }

  /** Position `i` of `r`, if its day is missing from `known`, is made up from the entry before it and the next known entry. */
  ghost predicate MadeUpAt(known: seq<DayEntry>, r: seq<DayEntry>, i: nat)
    requires 0 < i < |r|
  {
    r[i].day !in Days(known) ==>
      FirstAfter(known, r[i].day) < |known| && r[i] == Synthesized(r[i].day, r[i - 1], known[FirstAfter(known, r[i].day)])
  }

  /** Among the first `n` entries of `r`, each day missing from `known` is made up from the entry before it and the next known entry. */
  ghost predicate MadeUp(known: seq<DayEntry>, r: seq<DayEntry>, n: nat)
    requires n <= |r|
  {
    forall i :: 0 < i < n ==> MadeUpAt(known, r, i)
  }

  /** `getDateRange`: every day from `start` to `end` inclusive, in order; none when `start` is after `end`. */
  method GetDateRange(start: int, end: int) returns (dates: seq<int>)
    ensures |dates| == if start <= end then end - start + 1 else 0
    ensures forall i :: 0 <= i < |dates| ==> dates[i] == start + i
  {
    dates := [];
    var current := start;
    while current <= end
      invariant current == start + |dates|
      invariant current <= if start <= end then end + 1 else start
      invariant forall i :: 0 <= i < |dates| ==> dates[i] == start + i
      decreases end - current
    {
      dates := dates + [current];
      current := current + 1;
    }
  }

  /** The inner loop of `interpolateMissingDays`: a value for each sensor key of the previous entry. */
  method Synthesize(day: int, previous: DayEntry, next: DayEntry) returns (entry: DayEntry)
    ensures entry.day == day
    ensures entry.values.Keys == previous.values.Keys
    ensures forall s :: s in entry.values ==>
      entry.values[s] == Interpolate(previous.values[s], Lookup(next.values, s))
    ensures entry == Synthesized(day, previous, next)
  {
    var values: map<int, Num> := map[];
    var pending := previous.values.Keys;
    while pending != {}
      invariant pending <= previous.values.Keys
      invariant values.Keys == previous.values.Keys - pending
      invariant forall s :: s in values ==> values[s] == Interpolate(previous.values[s], Lookup(next.values, s))
      decreases pending
    {
      NonEmptySet(pending);
      var s :| s in pending;
      values := values[s := Interpolate(previous.values[s], Lookup(next.values, s))];
      pending := pending - {s};
    }
    entry := DayEntry(day, values);
  }

  /** The day numbers of the entries, in order. */
  function DaysInOrder(entries: seq<DayEntry>): (days: seq<int>)
    ensures |days| == |entries| && forall i :: 0 <= i < |entries| ==> days[i] == entries[i].day
  {
    seq(|entries|, i requires 0 <= i < |entries| => entries[i].day)
  }

  /**
    The state of the walk over the day range after `index` days: the first
    `index` entries of `result` are the days from the first one on, known
    days unchanged and missing days made up; the rest of `result` is the
    input from its `k`-th entry on, the first entry not yet passed.
  */
  ghost predicate Walked(known: seq<DayEntry>, result: seq<DayEntry>, index: nat, k: nat)
    requires known != []
  {
    && k <= |known|
    && |result| == index + |known| - k
    && result[index..] == known[k..]
    && DaysFrom(result, known[0].day, index)
    && (forall j :: 0 <= j < k ==> known[j].day < known[0].day + index)
    && (k < |known| ==> known[k].day >= known[0].day + index)
    && KnownPlaced(known, result, k, index)
    && MadeUp(known, result, index)
  }

  /** In an ascending list, the entry whose day is `day` is the first one not before it. */
  lemma KnownDayAt(known: seq<DayEntry>, k: nat, day: int)
    requires Ascending(known)
    requires day in Days(known)
    requires k <= |known| && (forall j :: 0 <= j < k ==> known[j].day < day) && (k < |known| ==> known[k].day >= day)
    ensures k < |known| && known[k].day == day
  {
    var j :| 0 <= j < |known| && known[j].day == day;
    assert j >= k;
  }

  /** At a known day the walk only moves past the input entry for it. */
  lemma WalkKnownDay(known: seq<DayEntry>, result: seq<DayEntry>, index: nat, k: nat, day: int)
    requires known != [] && Ascending(known)
    requires Walked(known, result, index, k)
    requires day == known[0].day + index && day in Days(known)
    ensures k < |known| && Walked(known, result, index + 1, k + 1)
  {
    var first := known[0].day;
    KnownDayAt(known, k, day);
    assert result[index] == known[k] by {
      assert result[index..][0] == known[k..][0];
    }
    assert result[index + 1..] == known[k + 1..] by {
      assert result[index + 1..] == result[index..][1..];
      assert known[k + 1..] == known[k..][1..];
    }
  }

  /** At a missing day the previous result entry exists, and the entry at the walk's position is the next known one. */
  lemma WalkMissingDayBounds(known: seq<DayEntry>, result: seq<DayEntry>, index: nat, k: nat, day: int)
    requires known != [] && Ascending(known)
    requires Walked(known, result, index, k)
    requires day == known[0].day + index && day !in Days(known)
    requires day <= known[|known| - 1].day
    ensures 0 < index < |result| && k < |known| && result[index] == known[k]
    ensures FirstAfter(known, day) == k
  {
    var first := known[0].day;
    assert known[0].day in Days(known);
    assert known[|known| - 1].day in Days(known);
    assert result[index] == known[k] by {
      assert result[index..][0] == known[k..][0];
    }
    assert known[k].day != day by {
      assert known[k].day in Days(known);
    }
    var n := FirstAfter(known, day);
  }

  /** Splicing the made-up entry in at a missing day advances the walk by one day. */
  lemma WalkMissingDay(known: seq<DayEntry>, result: seq<DayEntry>, index: nat, k: nat, day: int, made: DayEntry)
    requires known != [] && Ascending(known)
    requires Walked(known, result, index, k)
    requires day == known[0].day + index && day !in Days(known)
    requires 0 < index < |result| && k < |known| && result[index] == known[k]
    requires FirstAfter(known, day) == k
    requires made == Synthesized(day, result[index - 1], result[index])
    ensures Walked(known, result[..index] + [made] + result[index..], index + 1, k)
  {
    var first := known[0].day;
    var result' := result[..index] + [made] + result[index..];
    assert result'[index + 1..] == known[k..] by {
      assert result'[index + 1..] == result[index..];
    }
    SpliceDays(result, index, made, known[0].day);
    SplicePlaced(known, result, index, k, made);
    SpliceMadeUp(known, result, index, k, day, made);
  }

  lemma SpliceDays(result: seq<DayEntry>, index: nat, made: DayEntry, first: int)
    requires index <= |result| && DaysFrom(result, first, index) && made.day == first + index
    ensures DaysFrom(result[..index] + [made] + result[index..], first, index + 1)
  {
    var result' := result[..index] + [made] + result[index..];
    assert forall t :: 0 <= t < index ==> result'[t] == result[t];
  }

  lemma SplicePlaced(known: seq<DayEntry>, result: seq<DayEntry>, index: nat, k: nat, made: DayEntry)
    requires known != [] && k <= |known| && index <= |result|
    requires KnownPlaced(known, result, k, index)
    ensures KnownPlaced(known, result[..index] + [made] + result[index..], k, index + 1)
  {
    var result' := result[..index] + [made] + result[index..];
    forall j | 0 <= j < k
      ensures 0 <= known[j].day - known[0].day < index + 1 && result'[known[j].day - known[0].day] == known[j]
    {
      assert result'[known[j].day - known[0].day] == result[known[j].day - known[0].day];
    }
  }

  lemma SpliceMadeUp(known: seq<DayEntry>, result: seq<DayEntry>, index: nat, k: nat, day: int, made: DayEntry)
    requires 0 < index < |result| && k < |known|
    requires MadeUp(known, result, index)
    requires result[index] == known[k] && FirstAfter(known, day) == k && day !in Days(known)
    requires made == Synthesized(day, result[index - 1], result[index])
    ensures MadeUp(known, result[..index] + [made] + result[index..], index + 1)
  {
    var result' := result[..index] + [made] + result[index..];
    forall t | 0 < t < index + 1
      ensures MadeUpAt(known, result', t)
    {
      assert result'[t - 1] == result[t - 1];
      if t < index {
        assert result'[t] == result[t];
        assert MadeUpAt(known, result, t);
      } else {
        assert result'[t] == made;
      }
    }
  }

  /** In an ascending list the earliest day is the first entry's and the latest the last entry's. */
  lemma RangeEnds(known: seq<DayEntry>)
    requires known != [] && Ascending(known)
    ensures Min(DaysInOrder(known)) == known[0].day && Max(DaysInOrder(known)) == known[|known| - 1].day
  {
    var days := DaysInOrder(known);
    assert days[0] in days && days[|days| - 1] in days;
  }

  /** The walk starts with nothing passed. */
  lemma WalkStart(known: seq<DayEntry>)
    requires known != []
    ensures Walked(known, known, 0, 0)
  {
  }

  /** A walk over the whole range has produced the densified series. */
  lemma WalkDone(known: seq<DayEntry>, result: seq<DayEntry>, k: nat)
    requires known != [] && Ascending(known)
    requires Walked(known, result, known[|known| - 1].day - known[0].day + 1, k)
    ensures Densifies(known, result)
  {
    var first, last := known[0].day, known[|known| - 1].day;
    assert k == |known|;
  }

  /**
    `interpolateMissingDays`: walks the day range from the earliest to the
    latest day, splicing a made-up entry into a copy of the input wherever a
    day is missing. The result is exactly the series `Densifies` describes.
  */
  method InterpolateMissingDays(averaged: seq<DayEntry>) returns (result: seq<DayEntry>)
    requires Ascending(averaged)
    ensures Densifies(averaged, result)
  {
    result := averaged;
    var allDays := Days(averaged);
    // With no entries, Math.min and Math.max give invalid dates, the range of
    // days is empty and the copy is returned as it is.
    if averaged != [] {
      var days := DaysInOrder(averaged);
      RangeEnds(averaged);
      var allPossibleDays := GetDateRange(Min(days), Max(days));
      ghost var k := 0;
      WalkStart(averaged);
      var index := 0;
      while index < |allPossibleDays|
        invariant 0 <= index <= |allPossibleDays|
        invariant Walked(averaged, result, index, k)
      {
        var day := allPossibleDays[index];
        assert day == averaged[0].day + index && day <= averaged[|averaged| - 1].day;
        result, k := VisitDay(averaged, allDays, result, index, k, day);
        index := index + 1;
      }
      WalkDone(averaged, result, k);
    }
  }

  /**
    One turn of the walk in `interpolateMissingDays`: a day the input lacks
    gets an entry made up from the entries on either side of the walk's
    position spliced in; a day the input has leaves the copy as it is.
  */
  method VisitDay(averaged: seq<DayEntry>, allDays: set<int>, result: seq<DayEntry>, index: nat, ghost k: nat, day: int)
    returns (result': seq<DayEntry>, ghost k': nat)
    requires averaged != [] && Ascending(averaged) && allDays == Days(averaged)
    requires Walked(averaged, result, index, k)
    requires day == averaged[0].day + index && day <= averaged[|averaged| - 1].day
    ensures Walked(averaged, result', index + 1, k')
  {
    if day !in allDays {
      WalkMissingDayBounds(averaged, result, index, k, day);
      var previousDayData := result[index - 1];
      var nextDayData := result[index];
      var interpolatedData := Synthesize(day, previousDayData, nextDayData);
      WalkMissingDay(averaged, result, index, k, day, interpolatedData);
      result' := result[..index] + [interpolatedData] + result[index..];
      k' := k;
    } else {
      WalkKnownDay(averaged, result, index, k, day);
      result', k' := result, k + 1;
    }
  }

  /** Where the input holds `day`, it is the entry just before the first one after `day`. */
  lemma FirstAfterKnown(known: seq<DayEntry>, j: nat)
    requires Ascending(known) && j < |known|
    ensures FirstAfter(known, known[j].day) == j + 1
  {
  }

  /** A day absent from the input has the same first entry after it as the day before it. */
  lemma FirstAfterMissing(known: seq<DayEntry>, day: int)
    requires Ascending(known) && day !in Days(known)
    ensures FirstAfter(known, day - 1) == FirstAfter(known, day)
  {
    var n := FirstAfter(known, day);
    if n > 0 {
      assert known[n - 1].day in Days(known);
    }
  }

  /** A position of the filled series whose day is known holds the input entry of that day. */
  lemma DensifiedAtKnown(known: seq<DayEntry>, r: seq<DayEntry>, i: nat) returns (j: nat)
    requires Ascending(known) && Densifies(known, r) && i < |r|
    requires r[i].day in Days(known)
    ensures j < |known| && r[i] == known[j] && FirstAfter(known, r[i].day) == j + 1
  {
    var first := known[0].day;
    assert r[i].day == first + i;
    j :| 0 <= j < |known| && known[j].day == first + i;
    assert r[known[j].day - first] == known[j];
    FirstAfterKnown(known, j);
  }

  /** A position of the filled series whose day is missing from the input follows another and is made up from it. */
  lemma DensifiedAtMissing(known: seq<DayEntry>, r: seq<DayEntry>, i: nat)
    requires Densifies(known, r) && i < |r|
    requires r[i].day !in Days(known)
    ensures 0 < i && r[i - 1].day == r[i].day - 1
    ensures FirstAfter(known, r[i].day) < |known|
    ensures r[i] == Synthesized(r[i].day, r[i - 1], known[FirstAfter(known, r[i].day)])
  {
    assert known[0].day in Days(known);
    assert r[0].day == known[0].day;
    assert MadeUpAt(known, r, i);
  }

  /** Any two series that fill the same input agree at every position. */
  lemma {:induction false} DensifiedAgree(known: seq<DayEntry>, r1: seq<DayEntry>, r2: seq<DayEntry>, i: nat)
    requires Ascending(known) && Densifies(known, r1) && Densifies(known, r2)
    requires i < |r1|
    ensures r1[i] == r2[i]
    decreases i
  {
    assert known != [] && |r1| == |r2|;
    assert r1[i].day == r2[i].day == known[0].day + i;
    if r1[i].day in Days(known) {
      var j1 := DensifiedAtKnown(known, r1, i);
      var j2 := DensifiedAtKnown(known, r2, i);
    } else {
      DensifiedAtMissing(known, r1, i);
      DensifiedAtMissing(known, r2, i);
      DensifiedAgree(known, r1, r2, i - 1);
    }
  }

  /** The filled series is a function of its input. */
  lemma DensifiesUnique(known: seq<DayEntry>, r1: seq<DayEntry>, r2: seq<DayEntry>)
    requires Ascending(known) && Densifies(known, r1) && Densifies(known, r2)
    ensures r1 == r2
  {
    if known != [] {
      forall i | 0 <= i < |r1|
        ensures r1[i] == r2[i]
      {
        DensifiedAgree(known, r1, r2, i);
      }
    }
  }

  /**
    Each entry of the filled series has the sensor keys of the latest known
    entry on or before its day: a made-up day copies the keys of the day
    before it.
  */
  lemma {:induction false} DensifiedKeys(known: seq<DayEntry>, r: seq<DayEntry>, i: nat)
    requires Ascending(known) && Densifies(known, r) && i < |r|
    ensures 0 < FirstAfter(known, r[i].day) <= |known|
    ensures r[i].values.Keys == known[FirstAfter(known, r[i].day) - 1].values.Keys
    decreases i
  {
    if r[i].day in Days(known) {
      var j := DensifiedAtKnown(known, r, i);
    } else {
      var day := r[i].day;
      DensifiedAtMissing(known, r, i);
      assert r[i].values.Keys == r[i - 1].values.Keys by {
        SynthesizedKeys(day, r[i - 1], known[FirstAfter(known, day)]);
      }
      DensifiedKeys(known, r, i - 1);
      assert FirstAfter(known, day - 1) == FirstAfter(known, day) by {
        FirstAfterMissing(known, day);
      }
    }
  }

  /** The sensor keys appearing anywhere in the entries. */
  function SensorKeys(entries: seq<DayEntry>): set<int>
  {
    if entries == [] then {}
    else SensorKeys(entries[..|entries| - 1]) + entries[|entries| - 1].values.Keys
  }

  lemma {:induction false} SensorKeysMember(entries: seq<DayEntry>, s: int)
    ensures s in SensorKeys(entries) <==> exists i :: 0 <= i < |entries| && s in entries[i].values
  {
    if entries != [] {
      var init := entries[..|entries| - 1];
      SensorKeysMember(init, s);
      if exists i :: 0 <= i < |init| && s in init[i].values {
        var i :| 0 <= i < |init| && s in init[i].values;
        assert entries[i] == init[i];
      }
      if exists i :: 0 <= i < |entries| && s in entries[i].values {
        var i :| 0 <= i < |entries| && s in entries[i].values;
        if i < |init| {
          assert init[i] == entries[i];
        }
      }
    }
  }

  /** Filling in days introduces no sensor and loses none. */
  lemma DensifiedSensorKeys(known: seq<DayEntry>, r: seq<DayEntry>)
    requires Ascending(known) && Densifies(known, r)
    ensures SensorKeys(r) == SensorKeys(known)
  {
    forall s
      ensures s in SensorKeys(r) <==> s in SensorKeys(known)
    {
      SensorKeysMember(r, s);
      SensorKeysMember(known, s);
      if s in SensorKeys(r) {
        var i :| 0 <= i < |r| && s in r[i].values;
        DensifiedKeys(known, r, i);
      }
      if s in SensorKeys(known) {
        var j :| 0 <= j < |known| && s in known[j].values;
        assert r[known[j].day - known[0].day] == known[j];
      }
    }
  }

  /** Every value is a number. */
  predicate AllFinite(entry: DayEntry)
  {
    forall s :: s in entry.values ==> entry.values[s].Finite?
  }

  /**
    When every known day reports the same sensors with numbers, every
    filled-in day reports those sensors too, and each made-up value is the
    next known day's value for that sensor.
  */
  lemma {:induction false} DensifiedFinite(known: seq<DayEntry>, r: seq<DayEntry>, sensors: set<int>, i: nat)
    requires Ascending(known) && Densifies(known, r) && i < |r|
    requires forall j :: 0 <= j < |known| ==> known[j].values.Keys == sensors && AllFinite(known[j])
    ensures r[i].values.Keys == sensors && AllFinite(r[i])
    ensures r[i].day !in Days(known) ==> r[i].values == known[FirstAfter(known, r[i].day)].values
    decreases i
  {
    if r[i].day in Days(known) {
      var j := DensifiedAtKnown(known, r, i);
    } else {
      DensifiedAtMissing(known, r, i);
      DensifiedFinite(known, r, sensors, i - 1);
      var next := known[FirstAfter(known, r[i].day)];
      assert r[i].values == next.values;
    }
  }

  /**
    Readings on days 1 and 3 only: day 2 is made up with the value of day 3,
    since the code divides the difference by one rather than by the gap.
  */
  lemma GapTakesNextValue(r: seq<DayEntry>)
    requires Densifies([DayEntry(1, map[1 := Finite(10.0)]), DayEntry(3, map[1 := Finite(20.0)])], r)
    ensures r == [DayEntry(1, map[1 := Finite(10.0)]), DayEntry(2, map[1 := Finite(20.0)]), DayEntry(3, map[1 := Finite(20.0)])]
  {
    var known := [DayEntry(1, map[1 := Finite(10.0)]), DayEntry(3, map[1 := Finite(20.0)])];
    assert known[0].day - 1 == 0 && known[1].day - 1 == 2;
    assert r[0] == known[0] && r[2] == known[1];
    assert r[1].day == 2;
    assert 2 !in Days(known);
    assert FirstAfter(known, 2) == 1;
    assert MadeUpAt(known, r, 1);
    assert r[1] == Synthesized(2, known[0], known[1]);
    assert Synthesized(2, known[0], known[1]).values == map[1 := Finite(20.0)];
  }

  // ---------------------------------------------------------------------
  // generateChartConfig

  /** One chart series: its legend label (`label` in the chart configuration) and its colour. */
  datatype SeriesConfig = SeriesConfig(caption: string, color: string)

  /** The series of sensor `n`: labelled "Датчик n", coloured by the chart palette variable of `n`. */
  function SeriesFor(n: int): SeriesConfig
  {
    SeriesConfig("Датчик " + IntToDecimal(n), "hsl(var(--chart-" + IntToDecimal(n) + "))")
  }

  /** Different sensors get different labels and different colours. */
  lemma SeriesDistinct(m: int, n: int)
    requires m != n
    ensures SeriesFor(m).caption != SeriesFor(n).caption
    ensures SeriesFor(m).color != SeriesFor(n).color
  {
    if IntToDecimal(m) == IntToDecimal(n) {
      IntToDecimalInjective(m, n);
    }
    var prefix := "Датчик ";
    assert SeriesFor(m).caption[|prefix|..] == IntToDecimal(m);
    assert SeriesFor(n).caption[|prefix|..] == IntToDecimal(n);
    var open, close := "hsl(var(--chart-", "))";
    var cm, cn := SeriesFor(m).color, SeriesFor(n).color;
    assert cm[|open|..|cm| - |close|] == IntToDecimal(m);
    assert cn[|open|..|cn| - |close|] == IntToDecimal(n);
  }

  /**
    `generateChartConfig`: one series per sensor key found in any entry,
    added the first time the key is met; the day is not a key here.
  */
  method GenerateChartConfig(averaged: seq<DayEntry>) returns (config: map<int, SeriesConfig>)
    ensures config.Keys == SensorKeys(averaged)
    ensures forall n :: n in config ==> config[n] == SeriesFor(n)
  {
    config := map[];
    for i := 0 to |averaged|
      invariant config.Keys == SensorKeys(averaged[..i])
      invariant forall n :: n in config ==> config[n] == SeriesFor(n)
    {
      assert averaged[..i + 1][..i] == averaged[..i];
      var pending := averaged[i].values.Keys;
      while pending != {}
        invariant pending <= averaged[i].values.Keys
        invariant config.Keys == SensorKeys(averaged[..i]) + (averaged[i].values.Keys - pending)
        invariant forall n :: n in config ==> config[n] == SeriesFor(n)
        decreases pending
      {
        NonEmptySet(pending);
        var sensorIndex :| sensorIndex in pending;
        if sensorIndex !in config {
          config := config[sensorIndex := SeriesFor(sensorIndex)];
        }
        pending := pending - {sensorIndex};
      }
    }
    assert averaged[..|averaged|] == averaged;
  }
}
