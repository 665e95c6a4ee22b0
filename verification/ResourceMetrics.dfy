/**
 Resource metrics: samples of resources are put in the series of their label key and the bucket of their time, and a
 point is the number of different resources sampled there. Each kind of sample offers some dimensions; grouping by one
 it does not offer adds no label.
 */
module ResourceMetrics {
  import opened Buckets
  import opened GroupKey
  import opened Sequences

  datatype Sample = Sample(sampledAt: int, resourceId: string, dimensions: Labels)
  datatype Query = Query(refId: string, range: Range, groupBy: set<string>)
  datatype Point = Point(timestamp: int, value: nat)
  datatype Series = Series(refId: string, labels: Labels, points: seq<Point>)

  function LabelsFor(q: Query, s: Sample): Labels {
    map g | g in q.groupBy && g in s.dimensions :: s.dimensions[g]
  }

  ghost function KeyFor(q: Query, s: Sample): string {
    KeyOf(LabelsFor(q, s))
  }

  // ---------------------------------------------------------------------------------------------
  // The series of a query
  // ---------------------------------------------------------------------------------------------

  ghost predicate InCell(q: Query, s: Sample, key: string, i: int)
    requires q.range.Valid()
  {
    q.range.Places(s.sampledAt) && KeyFor(q, s) == key && q.range.BucketOf(s.sampledAt) == i
  }

  /** The resources of a cell. */
  ghost function Ids(q: Query, samples: seq<Sample>, key: string, i: int): set<string>
    requires q.range.Valid()
  {
    if samples == [] then {} else
      var n := |samples| - 1;
      Ids(q, samples[..n], key, i) + if InCell(q, samples[n], key, i) then {samples[n].resourceId} else {}
  }

  ghost function SeriesKeys(q: Query, samples: seq<Sample>): set<string>
    requires q.range.Valid()
  {
    if samples == [] then
      if q.groupBy == {} then {KeyOf(map[])} else {}
    else
      var n := |samples| - 1;
      SeriesKeys(q, samples[..n]) + if q.range.Places(samples[n].sampledAt) then {KeyFor(q, samples[n])} else {}
  }

  ghost function SeriesLabels(q: Query, samples: seq<Sample>, key: string): Labels
    requires q.range.Valid()
  {
    if samples == [] then map[] else
      var n := |samples| - 1;
      if key in SeriesKeys(q, samples[..n]) then SeriesLabels(q, samples[..n], key)
      else LabelsFor(q, samples[n])
  }

  ghost function PointsOf(q: Query, samples: seq<Sample>, key: string): seq<Point>
    requires q.range.Valid()
  {
    seq(q.range.BucketCount(), i requires 0 <= i < q.range.BucketCount() =>
      Point(q.range.start + i * q.range.step, |Ids(q, samples, key, i)|))
  }

  ghost function SeriesList(q: Query, samples: seq<Sample>, keys: seq<string>): seq<Series>
    requires q.range.Valid()
  {
    if keys == [] then [] else
      var n := |keys| - 1;
      SeriesList(q, samples, keys[..n])
      + [Series(q.refId, SeriesLabels(q, samples, keys[n]), PointsOf(q, samples, keys[n]))]
  }

  ghost function AllSeries(q: Query, samples: seq<Sample>): seq<Series>
    requires q.range.Valid()
  {
    SeriesList(q, samples, SortedKeys(SeriesKeys(q, samples)))
  }

  // ---------------------------------------------------------------------------------------------
  // The aggregation loop
  // ---------------------------------------------------------------------------------------------

  ghost predicate RowHolds(q: Query, samples: seq<Sample>, key: string, row: seq<set<string>>)
    requires q.range.Valid()
  {
    |row| == q.range.BucketCount() && forall i :: 0 <= i < |row| ==> row[i] == Ids(q, samples, key, i)
  }

  ghost predicate TableHolds(q: Query, samples: seq<Sample>, table: map<string, seq<set<string>>>)
    requires q.range.Valid()
  {
    table.Keys == SeriesKeys(q, samples) && forall key :: key in table ==> RowHolds(q, samples, key, table[key])
  }

  ghost predicate LabelsHold(q: Query, samples: seq<Sample>, labels: map<string, Labels>)
    requires q.range.Valid()
  {
    labels.Keys == SeriesKeys(q, samples) && forall key :: key in labels ==> labels[key] == SeriesLabels(q, samples, key)
  }

  lemma KeysGrow(q: Query, samples: seq<Sample>, s: Sample)
    requires q.range.Valid()
    ensures SeriesKeys(q, samples + [s]) ==
            SeriesKeys(q, samples) + if q.range.Places(s.sampledAt) then {KeyFor(q, s)} else {}
  {
    assert (samples + [s])[..|samples|] == samples;
  }

  lemma IdsGrow(q: Query, samples: seq<Sample>, s: Sample, key: string, i: int)
    requires q.range.Valid()
    ensures Ids(q, samples + [s], key, i) ==
            Ids(q, samples, key, i) + if InCell(q, s, key, i) then {s.resourceId} else {}
  {
    assert (samples + [s])[..|samples|] == samples;
  }

  lemma LabelsGrow(q: Query, samples: seq<Sample>, s: Sample, key: string)
    requires q.range.Valid()
    ensures SeriesLabels(q, samples + [s], key) ==
      if key in SeriesKeys(q, samples) then SeriesLabels(q, samples, key) else LabelsFor(q, s)
  {
    assert (samples + [s])[..|samples|] == samples;
  }

  lemma {:induction false} NoIds(q: Query, samples: seq<Sample>, key: string, i: int)
    requires q.range.Valid() && (key !in SeriesKeys(q, samples) || samples == [])
    ensures Ids(q, samples, key, i) == {}
    decreases |samples|
  {
    if samples != [] {
      var n := |samples| - 1;
      assert samples == samples[..n] + [samples[n]];
      KeysGrow(q, samples[..n], samples[n]);
      NoIds(q, samples[..n], key, i);
    }
  }

  lemma RowKept(q: Query, samples: seq<Sample>, s: Sample, key: string, row: seq<set<string>>)
    requires q.range.Valid() && RowHolds(q, samples, key, row)
    requires !q.range.Places(s.sampledAt) || KeyFor(q, s) != key
    ensures RowHolds(q, samples + [s], key, row)
  {
    forall i | 0 <= i < |row| ensures row[i] == Ids(q, samples + [s], key, i) {
      IdsGrow(q, samples, s, key, i);
    }
  }

  lemma TableKept(q: Query, samples: seq<Sample>, s: Sample, table: map<string, seq<set<string>>>)
    requires q.range.Valid() && TableHolds(q, samples, table) && !q.range.Places(s.sampledAt)
    ensures TableHolds(q, samples + [s], table)
  {
    KeysGrow(q, samples, s);
    forall key | key in table ensures RowHolds(q, samples + [s], key, table[key]) {
      RowKept(q, samples, s, key, table[key]);
    }
  }

  lemma RowUpdated(q: Query, samples: seq<Sample>, s: Sample, row: seq<set<string>>)
    requires q.range.Valid() && q.range.Places(s.sampledAt) && RowHolds(q, samples, KeyFor(q, s), row)
    ensures var b := q.range.BucketOf(s.sampledAt);
      RowHolds(q, samples + [s], KeyFor(q, s), row[b := row[b] + {s.resourceId}])
  {
    var key, b := KeyFor(q, s), q.range.BucketOf(s.sampledAt);
    forall i | 0 <= i < |row| ensures row[b := row[b] + {s.resourceId}][i] == Ids(q, samples + [s], key, i) {
      IdsGrow(q, samples, s, key, i);
    }
  }

  /** The record's row is replaced, and the other rows stay right. */
  lemma TableUpdated(q: Query, samples: seq<Sample>, s: Sample, table: map<string, seq<set<string>>>, row: seq<set<string>>)
    requires q.range.Valid() && TableHolds(q, samples, table) && q.range.Places(s.sampledAt)
    requires RowHolds(q, samples + [s], KeyFor(q, s), row)
    ensures TableHolds(q, samples + [s], table[KeyFor(q, s) := row])
  {
    var key, after := KeyFor(q, s), table[KeyFor(q, s) := row];
    KeysGrow(q, samples, s);
    forall k | k in after ensures RowHolds(q, samples + [s], k, after[k]) {
      if k != key {
        RowKept(q, samples, s, k, table[k]);
      }
    }
  }

  lemma LabelsKept(q: Query, samples: seq<Sample>, s: Sample, labels: map<string, Labels>)
    requires q.range.Valid() && LabelsHold(q, samples, labels)
    requires !q.range.Places(s.sampledAt) || KeyFor(q, s) in SeriesKeys(q, samples)
    ensures LabelsHold(q, samples + [s], labels)
  {
    KeysGrow(q, samples, s);
    forall key | key in labels ensures labels[key] == SeriesLabels(q, samples + [s], key) {
      LabelsGrow(q, samples, s, key);
    }
  }

  lemma LabelsAdded(q: Query, samples: seq<Sample>, s: Sample, labels: map<string, Labels>)
    requires q.range.Valid() && LabelsHold(q, samples, labels)
    requires q.range.Places(s.sampledAt) && KeyFor(q, s) !in SeriesKeys(q, samples)
    ensures LabelsHold(q, samples + [s], labels[KeyFor(q, s) := LabelsFor(q, s)])
  {
    var after := labels[KeyFor(q, s) := LabelsFor(q, s)];
    KeysGrow(q, samples, s);
    forall key | key in after ensures after[key] == SeriesLabels(q, samples + [s], key) {
      LabelsGrow(q, samples, s, key);
    }
  }

  method NewBuckets(n: nat) returns (row: seq<set<string>>)
    ensures |row| == n && forall i :: 0 <= i < n ==> row[i] == {}
  {
    row := [];
    for i := 0 to n
      invariant |row| == i && forall j :: 0 <= j < i ==> row[j] == {}
    {
      row := row + [{}];
    }
  }

  method Aggregate(q: Query, samples: seq<Sample>)
    returns (table: map<string, seq<set<string>>>, labelsByKey: map<string, Labels>)
    requires q.range.Valid()
    ensures TableHolds(q, samples, table) && LabelsHold(q, samples, labelsByKey)
  {
    var bucketCount := q.range.BucketCount();
    table, labelsByKey := map[], map[];
    if |q.groupBy| == 0 {
      var key := GroupKeyOf(map[]);
      var row := NewBuckets(bucketCount);
      table, labelsByKey := table[key := row], labelsByKey[key := map[]];
    }
    for n := 0 to |samples|
      invariant TableHolds(q, samples[..n], table) && LabelsHold(q, samples[..n], labelsByKey)
    {
      ghost var before := samples[..n];
      var s := samples[n];
      assert samples[..n + 1] == before + [s];
      if s.sampledAt < q.range.start || s.sampledAt >= q.range.end {
        TableKept(q, before, s, table);
        LabelsKept(q, before, s, labelsByKey);
        continue;
      }
      var bucket := q.range.BucketOf(s.sampledAt);
      if bucket < 0 || bucket >= bucketCount {
        TableKept(q, before, s, table);
        LabelsKept(q, before, s, labelsByKey);
        continue;
      }
      var labels := LabelsFor(q, s);
      var key := GroupKeyOf(labels);
      if key !in table {
        LabelsAdded(q, before, s, labelsByKey);
        var row := NewBuckets(bucketCount);
        forall i | 0 <= i < |row| ensures row[i] == Ids(q, before, key, i) { NoIds(q, before, key, i); }
        RowUpdated(q, before, s, row);
        row := row[bucket := row[bucket] + {s.resourceId}];
        TableUpdated(q, before, s, table, row);
        table := table[key := row];
        labelsByKey := labelsByKey[key := labels];
      } else {
        LabelsKept(q, before, s, labelsByKey);
        RowUpdated(q, before, s, table[key]);
        var row := table[key][bucket := table[key][bucket] + {s.resourceId}];
        TableUpdated(q, before, s, table, row);
        table := table[key := row];
      }
    }
    assert samples[..|samples|] == samples;
  }

  method RowPoints(q: Query, ghost samples: seq<Sample>, ghost key: string, row: seq<set<string>>) returns (points: seq<Point>)
    requires q.range.Valid() && RowHolds(q, samples, key, row)
    ensures points == PointsOf(q, samples, key)
  {
    points := [];
    for i := 0 to q.range.BucketCount()
      invariant |points| == i
      invariant forall j :: 0 <= j < i ==> points[j] == PointsOf(q, samples, key)[j]
    {
      points := points + [Point(q.range.start + i * q.range.step, |row[i]|)];
    }
  }

  method BuildSeries(q: Query, samples: seq<Sample>) returns (series: seq<Series>)
    requires q.range.Valid()
    ensures series == AllSeries(q, samples)
  {
    var table, labelsByKey := Aggregate(q, samples);
    var keys := SortKeys(table.Keys);
    series := [];
    for j := 0 to |keys|
      invariant series == SeriesList(q, samples, keys[..j])
    {
      assert keys[j] in Elements(keys);
      var points := RowPoints(q, samples, keys[j], table[keys[j]]);
      assert keys[..j + 1][..j] == keys[..j];
      series := series + [Series(q.refId, labelsByKey[keys[j]], points)];
    }
    assert keys[..|keys|] == keys;
  }

  // ---------------------------------------------------------------------------------------------
  // Distinct resources, whatever the order and however often sampled
  // ---------------------------------------------------------------------------------------------

  /** A cell holds an id exactly when some sample of the cell has it. */
  lemma {:induction false} IdsAreSampled(q: Query, samples: seq<Sample>, key: string, i: int, id: string)
    requires q.range.Valid()
    ensures id in Ids(q, samples, key, i) <==> exists s :: s in samples && InCell(q, s, key, i) && s.resourceId == id
    decreases |samples|
  {
    if samples != [] {
      var n := |samples| - 1;
      assert samples == samples[..n] + [samples[n]];
      IdsAreSampled(q, samples[..n], key, i, id);
      assert forall s :: s in samples <==> s in samples[..n] || s == samples[n];
    }
  }

  lemma {:induction false} KeysAreSampled(q: Query, samples: seq<Sample>, key: string)
    requires q.range.Valid()
    ensures key in SeriesKeys(q, samples) <==>
      || (q.groupBy == {} && key == KeyOf(map[]))
      || exists s :: s in samples && q.range.Places(s.sampledAt) && KeyFor(q, s) == key
    decreases |samples|
  {
    if samples != [] {
      var n := |samples| - 1;
      assert samples == samples[..n] + [samples[n]];
      KeysAreSampled(q, samples[..n], key);
      assert forall s :: s in samples <==> s in samples[..n] || s == samples[n];
    }
  }

  ghost predicate SameSamples(a: seq<Sample>, b: seq<Sample>) {
    forall s :: s in a <==> s in b
  }

  lemma SameKeys(q: Query, a: seq<Sample>, b: seq<Sample>)
    requires q.range.Valid() && SameSamples(a, b)
    ensures SeriesKeys(q, a) == SeriesKeys(q, b)
  {
    forall key ensures key in SeriesKeys(q, a) <==> key in SeriesKeys(q, b) {
      KeysAreSampled(q, a, key);
      KeysAreSampled(q, b, key);
    }
  }

  /** Points do not depend on the order or the number of times samples appear. */
  lemma SamePoints(q: Query, a: seq<Sample>, b: seq<Sample>, key: string)
    requires q.range.Valid() && SameSamples(a, b)
    ensures PointsOf(q, a, key) == PointsOf(q, b, key)
  {
    forall i ensures Ids(q, a, key, i) == Ids(q, b, key, i) {
      forall id ensures id in Ids(q, a, key, i) <==> id in Ids(q, b, key, i) {
        IdsAreSampled(q, a, key, i, id);
        IdsAreSampled(q, b, key, i, id);
      }
    }
  }

  ghost predicate PlainSamples(q: Query, samples: seq<Sample>) {
    forall s :: s in samples ==> Plain(LabelsFor(q, s))
  }

  lemma PlainLabelsParse(q: Query, s: Sample)
    requires Plain(LabelsFor(q, s))
    ensures LabelsFor(q, s) == Parse(KeyFor(q, s))
  {
    KeyRoundTrip(LabelsFor(q, s));
  }

  /** Plain labels are what their key says. */
  lemma {:induction false} SeriesLabelsParse(q: Query, samples: seq<Sample>, key: string)
    requires q.range.Valid() && PlainSamples(q, samples) && key in SeriesKeys(q, samples)
    ensures SeriesLabels(q, samples, key) == Parse(key)
    decreases |samples|
  {
    if samples == [] {
      KeyRoundTrip(map[]);
    } else {
      var n := |samples| - 1;
      var before, s := samples[..n], samples[n];
      if key in SeriesKeys(q, before) {
        assert PlainSamples(q, before);
        SeriesLabelsParse(q, before, key);
      } else {
        assert s in samples && key == KeyFor(q, s);
        PlainLabelsParse(q, s);
      }
    }
  }

  lemma {:induction false} SameSeries(q: Query, a: seq<Sample>, b: seq<Sample>, keys: seq<string>)
    requires q.range.Valid() && SameSamples(a, b) && PlainSamples(q, a)
    requires forall key :: key in keys ==> key in SeriesKeys(q, a) && key in SeriesKeys(q, b)
    ensures SeriesList(q, a, keys) == SeriesList(q, b, keys)
    decreases |keys|
  {
    if keys != [] {
      var n := |keys| - 1;
      assert keys[n] in keys;
      SameSeries(q, a, b, keys[..n]);
      SamePoints(q, a, b, keys[n]);
      SeriesLabelsParse(q, a, keys[n]);
      SeriesLabelsParse(q, b, keys[n]);
    }
  }

  /** With labels free of NUL (and names free of '='), reordering or repeating samples changes nothing in the answer. */
  lemma OrderAndRepeatsDoNotMatter(q: Query, a: seq<Sample>, b: seq<Sample>)
    requires q.range.Valid() && SameSamples(a, b) && PlainSamples(q, a)
    ensures AllSeries(q, a) == AllSeries(q, b)
  {
    SameKeys(q, a, b);
    var keys := SortedKeys(SeriesKeys(q, a));
    forall key | key in keys ensures key in SeriesKeys(q, a) && key in SeriesKeys(q, b) {
      assert key in Elements(keys);
    }
    SameSeries(q, a, b, keys);
  }
}
