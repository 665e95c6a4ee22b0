/** What the series of resource metrics say about the samples, from the samples' own times, ids and dimensions. */
module SampleMeaning {
  import opened Buckets
  import opened GroupKey
  import opened ResourceMetrics
  import opened Sequences

  /** The labels are what the sample offers of the dimensions asked for. */
  ghost predicate Carries(labels: Labels, q: Query, s: Sample) {
    && (forall g :: g in labels <==> g in q.groupBy && g in s.dimensions)
    && forall g :: g in labels ==> g in s.dimensions && labels[g] == s.dimensions[g]
  }

  lemma CarriesIff(labels: Labels, q: Query, s: Sample)
    ensures Carries(labels, q, s) <==> labels == LabelsFor(q, s)
  {
  }

  /** The sample was taken in the range, in the i-th step of it. */
  ghost predicate SampledIn(q: Query, s: Sample, i: int) {
    && q.range.start <= s.sampledAt < q.range.end
    && q.range.start + i * q.range.step <= s.sampledAt < q.range.start + i * q.range.step + q.range.step
  }

  lemma InCellIff(q: Query, s: Sample, key: string, i: int)
    requires q.range.Valid()
    ensures InCell(q, s, key, i) <==> SampledIn(q, s, i) && KeyFor(q, s) == key
  {
    InRangeIsPlaced(q.range, s.sampledAt);
    ExactlyOneBucket(q.range, s.sampledAt, i);
  }

  lemma KeyOfSeries(q: Query, samples: seq<Sample>, key: string)
    requires q.range.Valid() && PlainSamples(q, samples) && key in SeriesKeys(q, samples)
    ensures KeyOf(SeriesLabels(q, samples, key)) == key
  {
    SeriesLabelsParse(q, samples, key);
    KeysAreSampled(q, samples, key);
    if q.groupBy == {} && key == KeyOf(map[]) {
      KeyRoundTrip(map[]);
    } else {
      var s :| s in samples && q.range.Places(s.sampledAt) && KeyFor(q, s) == key;
      PlainLabelsParse(q, s);
    }
  }

  /** A sample belongs to the series whose labels it carries. */
  lemma BelongsIff(q: Query, samples: seq<Sample>, key: string, s: Sample)
    requires q.range.Valid() && PlainSamples(q, samples) && key in SeriesKeys(q, samples) && s in samples
    ensures KeyFor(q, s) == key <==> Carries(SeriesLabels(q, samples, key), q, s)
  {
    KeyOfSeries(q, samples, key);
    SeriesLabelsParse(q, samples, key);
    PlainLabelsParse(q, s);
    CarriesIff(SeriesLabels(q, samples, key), q, s);
  }

  /** The resources sampled in the i-th step with these labels. */
  ghost function ResourcesIn(q: Query, samples: seq<Sample>, labels: Labels, i: int): set<string> {
    set s | s in samples && Carries(labels, q, s) && SampledIn(q, s, i) :: s.resourceId
  }

  lemma IdsAreResources(q: Query, samples: seq<Sample>, key: string, i: int)
    requires q.range.Valid() && PlainSamples(q, samples) && key in SeriesKeys(q, samples)
    ensures Ids(q, samples, key, i) == ResourcesIn(q, samples, SeriesLabels(q, samples, key), i)
  {
    var labels := SeriesLabels(q, samples, key);
    forall s | s in samples ensures InCell(q, s, key, i) <==> Carries(labels, q, s) && SampledIn(q, s, i) {
      InCellIff(q, s, key, i);
      BelongsIff(q, samples, key, s);
    }
    forall id ensures id in Ids(q, samples, key, i) <==> id in ResourcesIn(q, samples, labels, i) {
      IdsAreSampled(q, samples, key, i, id);
    }
  }

  lemma {:induction false} SeriesAt(q: Query, samples: seq<Sample>, keys: seq<string>, j: nat)
    requires q.range.Valid() && j < |keys|
    ensures |SeriesList(q, samples, keys)| == |keys|
    ensures SeriesList(q, samples, keys)[j] ==
      Series(q.refId, SeriesLabels(q, samples, keys[j]), PointsOf(q, samples, keys[j]))
    decreases |keys|
  {
    var n := |keys| - 1;
    if n > 0 {
      SeriesAt(q, samples, keys[..n], if j < n then j else 0);
    }
  }

  /** The answer is a series per key; here is the j-th. */
  lemma AnswerAt(q: Query, samples: seq<Sample>, j: nat) returns (key: string)
    requires q.range.Valid() && j < |SortedKeys(SeriesKeys(q, samples))|
    ensures key in SeriesKeys(q, samples) && key == SortedKeys(SeriesKeys(q, samples))[j]
    ensures |AllSeries(q, samples)| == |SortedKeys(SeriesKeys(q, samples))|
    ensures AllSeries(q, samples)[j] == Series(q.refId, SeriesLabels(q, samples, key), PointsOf(q, samples, key))
  {
    var keys := SortedKeys(SeriesKeys(q, samples));
    key := keys[j];
    assert key in Elements(keys);
    SeriesAt(q, samples, keys, j);
  }

  /** A series has a point per step of the range: the number of different resources sampled in it with its labels. */
  lemma PointsCountResources(q: Query, samples: seq<Sample>, j: nat, i: nat)
    requires q.range.Valid() && PlainSamples(q, samples) && j < |SortedKeys(SeriesKeys(q, samples))|
    ensures j < |AllSeries(q, samples)|
    ensures var series := AllSeries(q, samples)[j];
      && series.refId == q.refId && |series.points| == q.range.BucketCount()
      && (i < |series.points| ==>
            && series.points[i].timestamp == q.range.start + i * q.range.step
            && series.points[i].value == |ResourcesIn(q, samples, series.labels, i)|)
  {
    var key := AnswerAt(q, samples, j);
    IdsAreResources(q, samples, key, i);
  }

  /** Every sample in the range is in a series that carries its labels. */
  lemma EverySampleHasSeries(q: Query, samples: seq<Sample>, s: Sample) returns (j: nat)
    requires q.range.Valid() && PlainSamples(q, samples) && s in samples && q.range.start <= s.sampledAt < q.range.end
    ensures j < |AllSeries(q, samples)| && Carries(AllSeries(q, samples)[j].labels, q, s)
  {
    InRangeIsPlaced(q.range, s.sampledAt);
    KeysAreSampled(q, samples, KeyFor(q, s));
    var keys := SortedKeys(SeriesKeys(q, samples));
    assert KeyFor(q, s) in Elements(keys);
    j :| 0 <= j < |keys| && keys[j] == KeyFor(q, s);
    var key := AnswerAt(q, samples, j);
    BelongsIff(q, samples, key, s);
  }

  /** Without samples there is one series when nothing is grouped, and none otherwise. */
  lemma NoSamples(q: Query)
    requires q.range.Valid()
    ensures |SortedKeys(SeriesKeys(q, []))| == (if q.groupBy == {} then 1 else 0) == |AllSeries(q, [])|
  {
    var keys := SortedKeys(SeriesKeys(q, []));
    if q.groupBy == {} {
      AscendingUnique(keys, [KeyOf(map[])]);
      var _ := AnswerAt(q, [], 0);
    } else {
      AscendingUnique(keys, []);
    }
  }
}
