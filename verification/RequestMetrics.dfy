/**
 Request event metrics: records are put in the series of their label key and the bucket of their time, and every
 series has one point per bucket.
 */
module RequestMetrics {
  import opened Buckets
  import opened GroupKey
  import opened Sequences
  import Percentile

  datatype Metric = Count | Errors | DurationAvg | DurationP95
  datatype GroupBy = ByType | ByMethod | ByStatusCode | BySource | ByConnector

  datatype Record = Record(timestamp: int, kind: string, verb: string, status: int, source: string,
                           connectorId: string, responseError: string, timedOut: bool, cancelled: bool,
                           durationMs: int)

  datatype Query = Query(refId: string, metric: Metric, range: Range, groupBy: seq<GroupBy>)
  datatype Point = Point(timestamp: int, value: real)
  datatype Series = Series(refId: string, labels: Labels, points: seq<Point>)

  predicate IsError(r: Record) {
    r.status >= 400 || r.responseError != "" || r.timedOut || r.cancelled
  }

  // ---------------------------------------------------------------------------------------------
  // Labels
  // ---------------------------------------------------------------------------------------------

  function Name(g: GroupBy): string {
    match g
    case ByType => "type"
    case ByMethod => "method"
    case ByStatusCode => "response_status_code"
    case BySource => "response_source"
    case ByConnector => "connector_id"
  }

  function Digits(n: nat): string {
    if n < 10 then ["0123456789"[n]] else Digits(n / 10) + ["0123456789"[n % 10]]
  }

  function Dimension(g: GroupBy, r: Record): string {
    match g
    case ByType => r.kind
    case ByMethod => r.verb
    case ByStatusCode => if r.status < 0 then "-" + Digits(-r.status) else Digits(r.status)
    case BySource => if r.source == "" then "upstream" else r.source
    case ByConnector => r.connectorId
  }

  lemma NamesDiffer(g: GroupBy, h: GroupBy)
    ensures Name(g) == Name(h) <==> g == h
    ensures '=' !in Name(g)
  {
  }

  /** A label for each requested dimension. */
  ghost predicate LabelsOf(labels: Labels, groupBy: seq<GroupBy>, r: Record) {
    && (forall k :: k in labels <==> exists g :: g in groupBy && Name(g) == k)
    && forall g :: g in groupBy ==> Name(g) in labels && labels[Name(g)] == Dimension(g, r)
  }

  lemma LabelsExtend(labels: Labels, groupBy: seq<GroupBy>, g: GroupBy, r: Record)
    requires LabelsOf(labels, groupBy, r)
    ensures LabelsOf(labels[Name(g) := Dimension(g, r)], groupBy + [g], r)
  {
    var all, after := groupBy + [g], labels[Name(g) := Dimension(g, r)];
    forall k ensures k in after <==> exists h :: h in all && Name(h) == k {
      if k == Name(g) {
        assert g in all;
      } else if k in after {
        var h :| h in groupBy && Name(h) == k;
        assert h in all;
      }
    }
    forall h | h in all ensures Name(h) in after && after[Name(h)] == Dimension(h, r) {
      NamesDiffer(g, h);
    }
  }

  function LabelsFor(groupBy: seq<GroupBy>, r: Record): (labels: Labels)
    ensures LabelsOf(labels, groupBy, r)
  {
    if groupBy == [] then map[] else
      var n := |groupBy| - 1;
      assert groupBy == groupBy[..n] + [groupBy[n]];
      LabelsExtend(LabelsFor(groupBy[..n], r), groupBy[..n], groupBy[n], r);
      LabelsFor(groupBy[..n], r)[Name(groupBy[n]) := Dimension(groupBy[n], r)]
  }

  method RecordLabels(groupBy: seq<GroupBy>, r: Record) returns (labels: Labels)
    ensures labels == LabelsFor(groupBy, r)
  {
    labels := map[];
    for i := 0 to |groupBy|
      invariant labels == LabelsFor(groupBy[..i], r)
    {
      assert groupBy[..i + 1][..i] == groupBy[..i];
      labels := labels[Name(groupBy[i]) := Dimension(groupBy[i], r)];
    }
    assert groupBy[..|groupBy|] == groupBy;
  }

  // ---------------------------------------------------------------------------------------------
  // One cell
  // ---------------------------------------------------------------------------------------------

  datatype Accumulator = Accumulator(count: nat, sum: int, durations: seq<int>)

  function Add(metric: Metric, a: Accumulator, r: Record): Accumulator {
    match metric
    case Count => a.(count := a.count + 1)
    case Errors => if IsError(r) then a.(count := a.count + 1) else a
    case DurationAvg => a.(count := a.count + 1, sum := a.sum + r.durationMs)
    case DurationP95 => a.(durations := a.durations + [r.durationMs])
  }

  function AccumulatedValue(metric: Metric, a: Accumulator): real {
    match metric
    case Count => a.count as real
    case Errors => a.count as real
    case DurationAvg => if a.count == 0 then 0.0 else a.sum as real / a.count as real
    case DurationP95 => Percentile.NearestRank(a.durations, 95) as real
  }

  function ErrorsAmong(rs: seq<Record>): nat {
    if rs == [] then 0 else
      ErrorsAmong(rs[..|rs| - 1]) + if IsError(rs[|rs| - 1]) then 1 else 0
  }

  function TotalDuration(rs: seq<Record>): int {
    if rs == [] then 0 else TotalDuration(rs[..|rs| - 1]) + rs[|rs| - 1].durationMs
  }

  function Durations(rs: seq<Record>): seq<int> {
    seq(|rs|, i requires 0 <= i < |rs| => rs[i].durationMs)
  }

  /** What a point says about the records of its cell. */
  function Value(metric: Metric, rs: seq<Record>): real {
    match metric
    case Count => |rs| as real
    case Errors => ErrorsAmong(rs) as real
    case DurationAvg => if rs == [] then 0.0 else TotalDuration(rs) as real / |rs| as real
    case DurationP95 => Percentile.NearestRank(Durations(rs), 95) as real
  }

  /** The accumulator after the records of a cell. */
  function Accumulated(metric: Metric, rs: seq<Record>): Accumulator {
    if rs == [] then Accumulator(0, 0, []) else
      Add(metric, Accumulated(metric, rs[..|rs| - 1]), rs[|rs| - 1])
  }

  lemma {:induction false} AccumulatedMeans(metric: Metric, rs: seq<Record>)
    ensures AccumulatedValue(metric, Accumulated(metric, rs)) == Value(metric, rs)
    ensures metric.Count? || metric.DurationAvg? ==> Accumulated(metric, rs).count == |rs|
    ensures metric.Errors? ==> Accumulated(metric, rs).count == ErrorsAmong(rs)
    ensures metric.DurationAvg? ==> Accumulated(metric, rs).sum == TotalDuration(rs)
    ensures metric.DurationP95? ==> Accumulated(metric, rs).durations == Durations(rs)
  {
    if rs != [] {
      AccumulatedMeans(metric, rs[..|rs| - 1]);
      assert Durations(rs) == Durations(rs[..|rs| - 1]) + [rs[|rs| - 1].durationMs];
    }
  }

  // ---------------------------------------------------------------------------------------------
  // The series of a query
  // ---------------------------------------------------------------------------------------------

  ghost function KeyFor(q: Query, r: Record): string {
    KeyOf(LabelsFor(q.groupBy, r))
  }

  ghost predicate InCell(q: Query, r: Record, key: string, i: int)
    requires q.range.Valid()
  {
    q.range.Places(r.timestamp) && KeyFor(q, r) == key && q.range.BucketOf(r.timestamp) == i
  }

  /** The records of a cell, in order. */
  ghost function Members(q: Query, records: seq<Record>, key: string, i: int): seq<Record>
    requires q.range.Valid()
  {
    if records == [] then [] else
      var n := |records| - 1;
      Members(q, records[..n], key, i) + if InCell(q, records[n], key, i) then [records[n]] else []
  }

  /** A key for each label map seen, and the one without labels when nothing is grouped. */
  ghost function SeriesKeys(q: Query, records: seq<Record>): set<string>
    requires q.range.Valid()
  {
    if records == [] then
      if q.groupBy == [] then {KeyOf(map[])} else {}
    else
      var n := |records| - 1;
      SeriesKeys(q, records[..n]) + if q.range.Places(records[n].timestamp) then {KeyFor(q, records[n])} else {}
  }

  /** The labels of the first record with the key. */
  ghost function SeriesLabels(q: Query, records: seq<Record>, key: string): Labels
    requires q.range.Valid()
  {
    if records == [] then map[] else
      var n := |records| - 1;
      if key in SeriesKeys(q, records[..n]) then SeriesLabels(q, records[..n], key)
      else LabelsFor(q.groupBy, records[n])
  }

  ghost function SeriesOf(q: Query, records: seq<Record>, key: string): Series
    requires q.range.Valid()
  {
    Series(q.refId, SeriesLabels(q, records, key),
           seq(q.range.BucketCount(), i requires 0 <= i < q.range.BucketCount() =>
             Point(q.range.start + i * q.range.step, Value(q.metric, Members(q, records, key, i)))))
  }

  ghost function SeriesList(q: Query, records: seq<Record>, keys: seq<string>): seq<Series>
    requires q.range.Valid()
  {
    if keys == [] then [] else
      SeriesList(q, records, keys[..|keys| - 1]) + [SeriesOf(q, records, keys[|keys| - 1])]
  }

  /** The answer to a query: one series per key, in key order. */
  ghost function AllSeries(q: Query, records: seq<Record>): seq<Series>
    requires q.range.Valid()
  {
    SeriesList(q, records, SortedKeys(SeriesKeys(q, records)))
  }

  // ---------------------------------------------------------------------------------------------
  // The aggregation loop
  // ---------------------------------------------------------------------------------------------

  ghost predicate RowHolds(q: Query, records: seq<Record>, key: string, row: seq<Accumulator>)
    requires q.range.Valid()
  {
    && |row| == q.range.BucketCount()
    && forall i :: 0 <= i < |row| ==> row[i] == Accumulated(q.metric, Members(q, records, key, i))
  }

  ghost predicate TableHolds(q: Query, records: seq<Record>, table: map<string, seq<Accumulator>>)
    requires q.range.Valid()
  {
    table.Keys == SeriesKeys(q, records) && forall key :: key in table ==> RowHolds(q, records, key, table[key])
  }

  ghost predicate LabelsHold(q: Query, records: seq<Record>, labels: map<string, Labels>)
    requires q.range.Valid()
  {
    labels.Keys == SeriesKeys(q, records) && forall key :: key in labels ==> labels[key] == SeriesLabels(q, records, key)
  }

  lemma KeysGrow(q: Query, records: seq<Record>, r: Record)
    requires q.range.Valid()
    ensures SeriesKeys(q, records + [r]) ==
            SeriesKeys(q, records) + if q.range.Places(r.timestamp) then {KeyFor(q, r)} else {}
  {
    assert (records + [r])[..|records|] == records;
  }

  lemma MembersGrow(q: Query, records: seq<Record>, r: Record, key: string, i: int)
    requires q.range.Valid()
    ensures Members(q, records + [r], key, i) ==
            Members(q, records, key, i) + if InCell(q, r, key, i) then [r] else []
  {
    assert (records + [r])[..|records|] == records;
  }

  lemma {:induction false} NoMembers(q: Query, records: seq<Record>, key: string, i: int)
    requires q.range.Valid() && key !in SeriesKeys(q, records)
    ensures Members(q, records, key, i) == []
    decreases |records|
  {
    if records != [] {
      var n := |records| - 1;
      assert records == records[..n] + [records[n]];
      KeysGrow(q, records[..n], records[n]);
      NoMembers(q, records[..n], key, i);
    }
  }

  lemma AccumulatedGrows(metric: Metric, rs: seq<Record>, r: Record)
    ensures Accumulated(metric, rs + [r]) == Add(metric, Accumulated(metric, rs), r)
  {
    assert (rs + [r])[..|rs|] == rs;
  }

  /** A row whose key is not the record's, or a record that is not placed. */
  lemma RowKept(q: Query, records: seq<Record>, r: Record, key: string, row: seq<Accumulator>)
    requires q.range.Valid() && RowHolds(q, records, key, row)
    requires !q.range.Places(r.timestamp) || KeyFor(q, r) != key
    ensures RowHolds(q, records + [r], key, row)
  {
    forall i | 0 <= i < |row| ensures row[i] == Accumulated(q.metric, Members(q, records + [r], key, i)) {
      MembersGrow(q, records, r, key, i);
      assert Members(q, records, key, i) + [] == Members(q, records, key, i);
    }
  }

  lemma RowUpdated(q: Query, records: seq<Record>, r: Record, row: seq<Accumulator>)
    requires q.range.Valid() && q.range.Places(r.timestamp) && RowHolds(q, records, KeyFor(q, r), row)
    ensures var b := q.range.BucketOf(r.timestamp);
      RowHolds(q, records + [r], KeyFor(q, r), row[b := Add(q.metric, row[b], r)])
  {
    var key, b := KeyFor(q, r), q.range.BucketOf(r.timestamp);
    forall i | 0 <= i < |row|
      ensures row[b := Add(q.metric, row[b], r)][i] == Accumulated(q.metric, Members(q, records + [r], key, i))
    {
      MembersGrow(q, records, r, key, i);
      assert Members(q, records, key, i) + [] == Members(q, records, key, i);
      AccumulatedGrows(q.metric, Members(q, records, key, i), r);
    }
  }

  /** A fresh row is right for a key not seen yet. */
  lemma FreshRow(q: Query, records: seq<Record>, key: string, row: seq<Accumulator>)
    requires q.range.Valid() && |row| == q.range.BucketCount()
    requires forall i :: 0 <= i < |row| ==> row[i] == Accumulator(0, 0, [])
    requires key !in SeriesKeys(q, records) || records == []
    ensures RowHolds(q, records, key, row)
  {
    forall i | 0 <= i < |row| ensures Members(q, records, key, i) == [] {
      if records != [] {
        NoMembers(q, records, key, i);
      }
    }
  }

  method NewRow(n: nat) returns (row: seq<Accumulator>)
    ensures row == seq(n, _ => Accumulator(0, 0, []))
  {
    row := seq(n, _ => Accumulator(0, 0, []));
  }

  lemma TableKept(q: Query, records: seq<Record>, r: Record, table: map<string, seq<Accumulator>>)
    requires q.range.Valid() && TableHolds(q, records, table) && !q.range.Places(r.timestamp)
    ensures TableHolds(q, records + [r], table)
  {
    KeysGrow(q, records, r);
    forall key | key in table ensures RowHolds(q, records + [r], key, table[key]) {
      RowKept(q, records, r, key, table[key]);
    }
  }

  /** The record's row is replaced, and the other rows stay right. */
  lemma TableUpdated(q: Query, records: seq<Record>, r: Record, table: map<string, seq<Accumulator>>, row: seq<Accumulator>)
    requires q.range.Valid() && TableHolds(q, records, table) && q.range.Places(r.timestamp)
    requires RowHolds(q, records + [r], KeyFor(q, r), row)
    ensures TableHolds(q, records + [r], table[KeyFor(q, r) := row])
  {
    var key, after := KeyFor(q, r), table[KeyFor(q, r) := row];
    KeysGrow(q, records, r);
    forall k | k in after ensures RowHolds(q, records + [r], k, after[k]) {
      if k != key {
        RowKept(q, records, r, k, table[k]);
      }
    }
  }

  lemma LabelsKept(q: Query, records: seq<Record>, r: Record, labels: map<string, Labels>)
    requires q.range.Valid() && LabelsHold(q, records, labels)
    requires !q.range.Places(r.timestamp) || KeyFor(q, r) in SeriesKeys(q, records)
    ensures LabelsHold(q, records + [r], labels)
  {
    KeysGrow(q, records, r);
    assert (records + [r])[..|records|] == records;
  }

  lemma LabelsAdded(q: Query, records: seq<Record>, r: Record, labels: map<string, Labels>)
    requires q.range.Valid() && LabelsHold(q, records, labels)
    requires q.range.Places(r.timestamp) && KeyFor(q, r) !in SeriesKeys(q, records)
    ensures LabelsHold(q, records + [r], labels[KeyFor(q, r) := LabelsFor(q.groupBy, r)])
  {
    var after := labels[KeyFor(q, r) := LabelsFor(q.groupBy, r)];
    KeysGrow(q, records, r);
    forall key | key in after ensures after[key] == SeriesLabels(q, records + [r], key) {
      LabelsGrow(q, records, r, key);
    }
  }

  lemma LabelsGrow(q: Query, records: seq<Record>, r: Record, key: string)
    requires q.range.Valid()
    ensures SeriesLabels(q, records + [r], key) ==
      if key in SeriesKeys(q, records) then SeriesLabels(q, records, key) else LabelsFor(q.groupBy, r)
  {
    assert (records + [r])[..|records|] == records;
  }

  /** The rows before any record: one, without labels, when nothing is grouped. */
  method StartTable(q: Query) returns (table: map<string, seq<Accumulator>>, labelsByKey: map<string, Labels>)
    requires q.range.Valid()
    ensures TableHolds(q, [], table) && LabelsHold(q, [], labelsByKey)
  {
    table, labelsByKey := map[], map[];
    if |q.groupBy| == 0 {
      var key := GroupKeyOf(map[]);
      var row := NewRow(q.range.BucketCount());
      FreshRow(q, [], key, row);
      table, labelsByKey := table[key := row], labelsByKey[key := map[]];
    }
  }

  method Aggregate(q: Query, records: seq<Record>)
    returns (table: map<string, seq<Accumulator>>, labelsByKey: map<string, Labels>)
    requires q.range.Valid()
    ensures TableHolds(q, records, table) && LabelsHold(q, records, labelsByKey)
  {
    var bucketCount := q.range.BucketCount();
    table, labelsByKey := StartTable(q);
    for n := 0 to |records|
      invariant TableHolds(q, records[..n], table) && LabelsHold(q, records[..n], labelsByKey)
    {
      ghost var before := records[..n];
      var r := records[n];
      assert records[..n + 1] == before + [r];
      if r.timestamp < q.range.start || r.timestamp >= q.range.end {
        TableKept(q, before, r, table);
        LabelsKept(q, before, r, labelsByKey);
        continue;
      }
      var bucket := q.range.BucketOf(r.timestamp);
      if bucket < 0 || bucket >= bucketCount {
        TableKept(q, before, r, table);
        LabelsKept(q, before, r, labelsByKey);
        continue;
      }
      var labels := RecordLabels(q.groupBy, r);
      var key := GroupKeyOf(labels);
      if key !in table {
        LabelsAdded(q, before, r, labelsByKey);
        var row := NewRow(bucketCount);
        FreshRow(q, before, key, row);
        RowUpdated(q, before, r, row);
        row := row[bucket := Add(q.metric, row[bucket], r)];
        TableUpdated(q, before, r, table, row);
        table := table[key := row];
        labelsByKey := labelsByKey[key := labels];
      } else {
        LabelsKept(q, before, r, labelsByKey);
        RowUpdated(q, before, r, table[key]);
        var row := table[key][bucket := Add(q.metric, table[key][bucket], r)];
        TableUpdated(q, before, r, table, row);
        table := table[key := row];
      }
    }
    assert records[..|records|] == records;
  }

  method RowPoints(q: Query, ghost records: seq<Record>, ghost key: string, row: seq<Accumulator>) returns (points: seq<Point>)
    requires q.range.Valid() && RowHolds(q, records, key, row)
    ensures points == SeriesOf(q, records, key).points
  {
    points := [];
    for i := 0 to q.range.BucketCount()
      invariant |points| == i
      invariant forall j :: 0 <= j < i ==> points[j] == SeriesOf(q, records, key).points[j]
    {
      AccumulatedMeans(q.metric, Members(q, records, key, i));
      points := points + [Point(q.range.start + i * q.range.step, AccumulatedValue(q.metric, row[i]))];
    }
  }

  method BuildSeries(q: Query, records: seq<Record>) returns (series: seq<Series>)
    requires q.range.Valid()
    ensures series == AllSeries(q, records)
  {
    var table, labelsByKey := Aggregate(q, records);
    var keys := SortKeys(table.Keys);
    series := [];
    for j := 0 to |keys|
      invariant series == SeriesList(q, records, keys[..j])
    {
      assert keys[j] in Elements(keys);
      var points := RowPoints(q, records, keys[j], table[keys[j]]);
      assert keys[..j + 1][..j] == keys[..j];
      series := series + [Series(q.refId, labelsByKey[keys[j]], points)];
    }
    assert keys[..|keys|] == keys;
  }

  // ---------------------------------------------------------------------------------------------
  // Every record in the range is counted once
  // ---------------------------------------------------------------------------------------------

  predicate Counts(metric: Metric) {
    metric.Count? || metric.Errors?
  }

  function Weight(metric: Metric, r: Record): nat {
    if metric.Errors? && !IsError(r) then 0 else 1
  }

  function CellWeight(metric: Metric, rs: seq<Record>): nat {
    if metric.Errors? then ErrorsAmong(rs) else |rs|
  }

  /** The records of the time range that the metric counts. */
  function RangeWeight(q: Query, records: seq<Record>): nat {
    if records == [] then 0 else
      RangeWeight(q, records[..|records| - 1]) + RangeShare(q, records[|records| - 1])
  }

  function Sum(xs: seq<nat>): nat {
    if xs == [] then 0 else Sum(xs[..|xs| - 1]) + xs[|xs| - 1]
  }

  ghost function CellWeights(q: Query, records: seq<Record>, key: string): seq<nat>
    requires q.range.Valid()
  {
    var n := q.range.BucketCount();
    seq(n, i requires 0 <= i < n => CellWeight(q.metric, Members(q, records, key, i)))
  }

  ghost function RowWeight(q: Query, records: seq<Record>, key: string): nat
    requires q.range.Valid()
  {
    Sum(CellWeights(q, records, key))
  }

  ghost function TableWeight(q: Query, records: seq<Record>, keys: seq<string>): nat
    requires q.range.Valid()
  {
    if keys == [] then 0 else
      TableWeight(q, records, keys[..|keys| - 1])
      + RowWeight(q, records, keys[|keys| - 1])
  }

  lemma WeightGrows(metric: Metric, rs: seq<Record>, r: Record)
    ensures CellWeight(metric, rs + [r]) == CellWeight(metric, rs) + Weight(metric, r)
  {
    assert (rs + [r])[..|rs|] == rs;
  }

  /** A record of another row, or of none, changes no cell of this one. */
  lemma CellSame(q: Query, records: seq<Record>, r: Record, key: string, i: int)
    requires q.range.Valid() && !InCell(q, r, key, i)
    ensures CellWeight(q.metric, Members(q, records + [r], key, i)) == CellWeight(q.metric, Members(q, records, key, i))
  {
    MembersGrow(q, records, r, key, i);
    assert Members(q, records, key, i) + [] == Members(q, records, key, i);
  }

  lemma CellAdds(q: Query, records: seq<Record>, r: Record, key: string, b: int, i: int)
    requires q.range.Valid() && InCell(q, r, key, b)
    ensures CellWeight(q.metric, Members(q, records + [r], key, i)) ==
            CellWeight(q.metric, Members(q, records, key, i)) + if i == b then Weight(q.metric, r) else 0
  {
    if i == b {
      MembersGrow(q, records, r, key, i);
      WeightGrows(q.metric, Members(q, records, key, i), r);
    } else {
      CellSame(q, records, r, key, i);
    }
  }

  ghost predicate InRow(q: Query, r: Record, key: string)
    requires q.range.Valid()
  {
    InCell(q, r, key, q.range.BucketOf(r.timestamp))
  }

  /** Raising one element raises the sum by as much. */
  lemma {:induction false} SumRaised(xs: seq<nat>, ys: seq<nat>, b: int, w: nat)
    requires |xs| == |ys| && forall i :: 0 <= i < |xs| ==> ys[i] == xs[i] + if i == b then w else 0
    ensures Sum(ys) == Sum(xs) + if 0 <= b < |xs| then w else 0
    decreases |xs|
  {
    if xs != [] {
      var n := |xs| - 1;
      SumRaised(xs[..n], ys[..n], b, w);
    }
  }

  lemma RowGrows(q: Query, records: seq<Record>, r: Record, key: string)
    requires q.range.Valid()
    ensures RowWeight(q, records + [r], key) == RowWeight(q, records, key) + if InRow(q, r, key) then Weight(q.metric, r) else 0
  {
    var xs, ys := CellWeights(q, records, key), CellWeights(q, records + [r], key);
    var b, w := q.range.BucketOf(r.timestamp), if InRow(q, r, key) then Weight(q.metric, r) else 0;
    forall i | 0 <= i < |xs| ensures ys[i] == xs[i] + if i == b then w else 0 {
      if InRow(q, r, key) {
        CellAdds(q, records, r, key, b, i);
      } else {
        CellSame(q, records, r, key, i);
      }
    }
    SumRaised(xs, ys, b, w);
  }

  lemma InRowIff(q: Query, r: Record, key: string)
    requires q.range.Valid()
    ensures InRow(q, r, key) <==> q.range.Places(r.timestamp) && KeyFor(q, r) == key
  {
  }

  lemma LastKeyIsNew(keys: seq<string>)
    requires Ascending(keys) && keys != []
    ensures keys[|keys| - 1] !in keys[..|keys| - 1]
    ensures forall k :: k in keys <==> k in keys[..|keys| - 1] || k == keys[|keys| - 1]
  {
    var n := |keys| - 1;
    assert keys == keys[..n] + [keys[n]];
    forall i | 0 <= i < n ensures keys[i] != keys[n] {
      BelowTotal(keys[i], keys[n]);
    }
  }

  lemma {:induction false} TableGrows(q: Query, records: seq<Record>, r: Record, keys: seq<string>)
    requires q.range.Valid() && Ascending(keys)
    ensures TableWeight(q, records + [r], keys) == TableWeight(q, records, keys) +
      if q.range.Places(r.timestamp) && KeyFor(q, r) in keys then Weight(q.metric, r) else 0
    decreases |keys|
  {
    if keys != [] {
      var n := |keys| - 1;
      TableGrows(q, records, r, keys[..n]);
      RowGrows(q, records, r, keys[n]);
      InRowIff(q, r, keys[n]);
      LastKeyIsNew(keys);
    }
  }

  lemma {:induction false} EmptyTable(q: Query, keys: seq<string>)
    requires q.range.Valid()
    ensures TableWeight(q, [], keys) == 0
    decreases |keys|
  {
    if keys != [] {
      EmptyTable(q, keys[..|keys| - 1]);
      SumOfZeros(CellWeights(q, [], keys[|keys| - 1]));
    }
  }

  lemma {:induction false} SumOfZeros(xs: seq<nat>)
    requires forall i :: 0 <= i < |xs| ==> xs[i] == 0
    ensures Sum(xs) == 0
  {
    if xs != [] {
      SumOfZeros(xs[..|xs| - 1]);
    }
  }

  function RangeShare(q: Query, r: Record): nat {
    if q.range.start <= r.timestamp < q.range.end then Weight(q.metric, r) else 0
  }

  lemma RecordIsCounted(q: Query, records: seq<Record>, r: Record, keys: seq<string>)
    requires q.range.Valid() && Ascending(keys) && (q.range.Places(r.timestamp) ==> KeyFor(q, r) in keys)
    ensures TableWeight(q, records + [r], keys) == TableWeight(q, records, keys) + RangeShare(q, r)
  {
    TableGrows(q, records, r, keys);
    InRangeIsPlaced(q.range, r.timestamp);
  }

  lemma {:induction false} TableConserves(q: Query, records: seq<Record>, keys: seq<string>)
    requires q.range.Valid() && Ascending(keys) && SeriesKeys(q, records) <= Elements(keys)
    ensures TableWeight(q, records, keys) == RangeWeight(q, records)
    decreases |records|
  {
    if records == [] {
      EmptyTable(q, keys);
    } else {
      var n := |records| - 1;
      var before, r := records[..n], records[n];
      assert records == before + [r];
      KeysGrow(q, before, r);
      TableConserves(q, before, keys);
      if q.range.Places(r.timestamp) {
        assert KeyFor(q, r) in Elements(keys);
      }
      RecordIsCounted(q, before, r, keys);
    }
  }

  function PointTotal(points: seq<Point>): real {
    if points == [] then 0.0 else PointTotal(points[..|points| - 1]) + points[|points| - 1].value
  }

  function SeriesTotal(series: seq<Series>): real {
    if series == [] then 0.0 else SeriesTotal(series[..|series| - 1]) + PointTotal(series[|series| - 1].points)
  }

  lemma CellCounts(metric: Metric, rs: seq<Record>)
    requires Counts(metric)
    ensures Value(metric, rs) == CellWeight(metric, rs) as real
  {
  }

  /** Points that are counts add up like the counts. */
  lemma {:induction false} PointsSum(points: seq<Point>, counts: seq<nat>)
    requires |points| == |counts| && forall i :: 0 <= i < |points| ==> points[i].value == counts[i] as real
    ensures PointTotal(points) == Sum(counts) as real
    decreases |points|
  {
    if points != [] {
      var n := |points| - 1;
      PointsSum(points[..n], counts[..n]);
    }
  }

  lemma PointsAddUp(q: Query, records: seq<Record>, key: string)
    requires q.range.Valid() && Counts(q.metric)
    ensures PointTotal(SeriesOf(q, records, key).points) == RowWeight(q, records, key) as real
  {
    var points, counts := SeriesOf(q, records, key).points, CellWeights(q, records, key);
    forall i | 0 <= i < |points| ensures points[i].value == counts[i] as real {
      CellCounts(q.metric, Members(q, records, key, i));
    }
    PointsSum(points, counts);
  }

  lemma {:induction false} SeriesAddUp(q: Query, records: seq<Record>, keys: seq<string>)
    requires q.range.Valid() && Counts(q.metric)
    ensures SeriesTotal(SeriesList(q, records, keys)) == TableWeight(q, records, keys) as real
    decreases |keys|
  {
    if keys != [] {
      var n := |keys| - 1;
      SeriesAddUp(q, records, keys[..n]);
      var series, last := SeriesList(q, records, keys), SeriesOf(q, records, keys[n]);
      assert series[..|series| - 1] == SeriesList(q, records, keys[..n]);
      PointsAddUp(q, records, keys[n]);
    }
  }

  /** All points of all series add up to the records (or the failed records) of the time range. */
  lemma CountsConserved(q: Query, records: seq<Record>)
    requires q.range.Valid() && Counts(q.metric)
    ensures SeriesTotal(AllSeries(q, records)) == RangeWeight(q, records) as real
  {
    var keys := SortedKeys(SeriesKeys(q, records));
    SeriesAddUp(q, records, keys);
    TableConserves(q, records, keys);
  }

  // ---------------------------------------------------------------------------------------------
  // Series are label maps
  // ---------------------------------------------------------------------------------------------

  /** What a caller can see of the records: no dimension value holds NUL, or there is only one dimension. */
  ghost predicate Separable(groupBy: seq<GroupBy>, r: Record, s: Record) {
    || (forall g :: g in groupBy ==> '\0' !in Dimension(g, r) && '\0' !in Dimension(g, s))
    || (forall g, h :: g in groupBy && h in groupBy ==> g == h)
  }

  lemma LabelsPlain(groupBy: seq<GroupBy>, r: Record)
    requires forall g :: g in groupBy ==> '\0' !in Dimension(g, r)
    ensures Plain(LabelsFor(groupBy, r))
  {
    var labels := LabelsFor(groupBy, r);
    forall k | k in labels ensures '=' !in k && '\0' !in labels[k] {
      var g :| g in groupBy && Name(g) == k;
      NamesDiffer(g, g);
    }
  }

  lemma OneDimension(groupBy: seq<GroupBy>, g: GroupBy, r: Record)
    requires g in groupBy && forall h :: h in groupBy ==> h == g
    ensures LabelsFor(groupBy, r).Keys == {Name(g)}
  {
  }

  /** Then two records share a series exactly when they have the same labels. */
  lemma SameSeriesIff(q: Query, r: Record, s: Record)
    requires Separable(q.groupBy, r, s)
    ensures KeyFor(q, r) == KeyFor(q, s) <==> LabelsFor(q.groupBy, r) == LabelsFor(q.groupBy, s)
  {
    if forall g :: g in q.groupBy ==> '\0' !in Dimension(g, r) && '\0' !in Dimension(g, s) {
      LabelsPlain(q.groupBy, r);
      LabelsPlain(q.groupBy, s);
      KeysGroupExactly(LabelsFor(q.groupBy, r), LabelsFor(q.groupBy, s));
    } else {
      var g :| g in q.groupBy;
      OneDimension(q.groupBy, g, r);
      OneDimension(q.groupBy, g, s);
      OneLabelGroupsExactly(Name(g), LabelsFor(q.groupBy, r), LabelsFor(q.groupBy, s));
    }
  }

  ghost predicate SeparableFrom(q: Query, r: Record, records: seq<Record>) {
    forall s :: s in records ==> Separable(q.groupBy, r, s)
  }

  /** And a series carries the labels of every record in it. */
  lemma {:induction false} SeriesLabelsExact(q: Query, records: seq<Record>, r: Record)
    requires q.range.Valid() && KeyFor(q, r) in SeriesKeys(q, records) && SeparableFrom(q, r, records)
    ensures SeriesLabels(q, records, KeyFor(q, r)) == LabelsFor(q.groupBy, r)
    decreases |records|
  {
    if records == [] {
      NoLabels(q, r);
    } else {
      var n := |records| - 1;
      var before, last := records[..n], records[n];
      assert records == before + [last];
      KeysGrow(q, before, last);
      LabelsGrow(q, before, last, KeyFor(q, r));
      if KeyFor(q, r) in SeriesKeys(q, before) {
        SeriesLabelsExact(q, before, r);
      } else {
        assert last in records;
        SameSeriesIff(q, r, last);
      }
    }
  }

  lemma NoLabels(q: Query, r: Record)
    requires q.range.Valid() && KeyFor(q, r) in SeriesKeys(q, [])
    ensures LabelsFor(q.groupBy, r) == map[]
  {
  }

  lemma TypeAndMethod(r: Record)
    ensures LabelsFor([ByType, ByMethod], r) == map["type" := r.kind, "method" := r.verb]
  {
    assert [ByType, ByMethod][..1] == [ByType] && [ByType][..0] == [];
    assert LabelsFor([ByType], r) == map["type" := r.kind];
  }

  lemma TypeAndMethodKey(labels: Labels)
    requires labels.Keys == {"method", "type"}
    ensures KeyOf(labels) == Entry("method", labels["method"]) + Entry("type", labels["type"])
  {
    var ks := ["method", "type"];
    assert Below(ks[0], ks[1]);
    assert Elements(ks) == {"method", "type"};
    AscendingUnique(Sorted(labels), ks);
    RenderTwo(ks, labels);
    assert ks[2..] == [];
  }

  /** Two dimensions and a NUL in a value: records with different labels, one series. */
  lemma NulMergesSeries(q: Query, r: Record)
    requires q.groupBy == [ByType, ByMethod]
    ensures
      var m := "\0" + "type" + "=";
      var a, b := r.(verb := m, kind := ""), r.(verb := "", kind := m);
      KeyFor(q, a) == KeyFor(q, b) && LabelsFor(q.groupBy, a) != LabelsFor(q.groupBy, b)
  {
    var m := "\0" + "type" + "=";
    var a, b := r.(verb := m, kind := ""), r.(verb := "", kind := m);
    var la, lb := LabelsFor(q.groupBy, a), LabelsFor(q.groupBy, b);
    TypeAndMethod(a);
    TypeAndMethod(b);
    assert la["type"] == "" && lb["type"] == m && |m| == 6;
    TypeAndMethodKey(la);
    TypeAndMethodKey(lb);
    EntriesShift("method", "type");
  }
}
