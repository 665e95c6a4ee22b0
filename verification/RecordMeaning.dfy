/**
 What the labels, the error count and the series of request metrics say about the records, in terms of the records' own
 fields and times.
 */
module RecordMeaning {
  import opened Buckets
  import opened GroupKey
  import opened RequestMetrics
  import opened Sequences

  /** The number a row of digits stands for. */
  function NumberOf(digits: string): int {
    if digits == "" then 0
    else 10 * NumberOf(digits[..|digits| - 1]) + (digits[|digits| - 1] as int - '0' as int)
  }

  lemma NumberAppend(digits: string, c: char)
    ensures NumberOf(digits + [c]) == 10 * NumberOf(digits) + (c as int - '0' as int)
  {
    assert (digits + [c])[..|digits|] == digits;
  }

  lemma DigitChar(d: nat)
    requires d < 10
    ensures "0123456789"[d] as int == '0' as int + d
  {
  }

  lemma DigitsStep(n: nat)
    requires n >= 10
    ensures Digits(n) == Digits(n / 10) + ["0123456789"[n % 10]]
  {
  }

  /** A status code is written in decimal. */
  lemma {:induction false} DigitsRoundTrip(n: nat)
    ensures NumberOf(Digits(n)) == n
    decreases n
  {
    if n < 10 {
      DigitChar(n);
      NumberAppend("", "0123456789"[n]);
      assert "" + Digits(n) == Digits(n);
    } else {
      var q, c := n / 10, "0123456789"[n % 10];
      DigitsRoundTrip(q);
      DigitChar(n % 10);
      DigitsStep(n);
      NumberAppend(Digits(q), c);
      assert Digits(n) == Digits(q) + [c];
    }
  }

  /** What a label of this name says about a record. */
  function Carried(name: string, r: Record): string {
    if name == "type" then r.kind
    else if name == "method" then r.verb
    else if name == "connector_id" then r.connectorId
    else if name == "response_source" then if |r.source| > 0 then r.source else "upstream"
    else if r.status >= 0 then Digits(r.status) else "-" + Digits(-r.status)
  }

  lemma NameCarries(g: GroupBy, r: Record)
    ensures Dimension(g, r) == Carried(Name(g), r)
    ensures Name(g) in {"type", "method", "connector_id", "response_source", "response_status_code"}
  {
  }

  /** The labels of a record are those of the dimensions asked for, each with what its name says. */
  lemma LabelsCarry(groupBy: seq<GroupBy>, r: Record, k: string)
    requires k in LabelsFor(groupBy, r)
    ensures LabelsFor(groupBy, r)[k] == Carried(k, r)
    ensures k in {"type", "method", "connector_id", "response_source", "response_status_code"}
  {
    var g :| g in groupBy && Name(g) == k;
    NameCarries(g, r);
  }

  /** The records that count as errors: a bad status, an error in the response, a timeout or a cancellation. */
  function ErrorsAt(rs: seq<Record>): set<nat> {
    set i: nat | i < |rs| && !(rs[i].status < 400 && rs[i].responseError == "" && !rs[i].timedOut && !rs[i].cancelled)
  }

  lemma {:induction false} ErrorsAreCounted(rs: seq<Record>)
    ensures Accumulated(Errors, rs).count == |ErrorsAt(rs)|
    decreases |rs|
  {
    if rs != [] {
      var n := |rs| - 1;
      ErrorsAreCounted(rs[..n]);
      assert ErrorsAt(rs) == ErrorsAt(rs[..n]) + if n in ErrorsAt(rs) then {n} else {};
    }
  }

  // ---------------------------------------------------------------------------------------------
  // Series
  // ---------------------------------------------------------------------------------------------

  /** The record is of the range, in the i-th step of it. */
  ghost predicate RecordedIn(q: Query, r: Record, i: int) {
    && q.range.start <= r.timestamp < q.range.end
    && q.range.start + i * q.range.step <= r.timestamp < q.range.start + i * q.range.step + q.range.step
  }

  lemma InCellIff(q: Query, r: Record, key: string, i: int)
    requires q.range.Valid()
    ensures InCell(q, r, key, i) <==> RecordedIn(q, r, i) && KeyFor(q, r) == key
  {
    InRangeIsPlaced(q.range, r.timestamp);
    ExactlyOneBucket(q.range, r.timestamp, i);
  }

  ghost predicate AllSeparable(q: Query, records: seq<Record>) {
    forall r :: r in records ==> SeparableFrom(q, r, records)
  }

  /** Some record in the range has the key. */
  ghost predicate HasRecord(q: Query, records: seq<Record>, key: string) {
    exists r :: r in records && q.range.start <= r.timestamp < q.range.end && KeyFor(q, r) == key
  }

  lemma HasRecordLast(q: Query, records: seq<Record>, key: string)
    requires records != []
    ensures var n := |records| - 1;
      HasRecord(q, records, key) <==> HasRecord(q, records[..n], key) || HasRecord(q, [records[n]], key)
  {
    var n := |records| - 1;
    assert records == records[..n] + [records[n]];
  }

  lemma {:induction false} KeysAreRecorded(q: Query, records: seq<Record>, key: string)
    requires q.range.Valid()
    ensures key in SeriesKeys(q, records) <==> (q.groupBy == [] && key == KeyOf(map[])) || HasRecord(q, records, key)
    decreases |records|
  {
    if records != [] {
      var n := |records| - 1;
      KeysAreRecorded(q, records[..n], key);
      HasRecordLast(q, records, key);
      InRangeIsPlaced(q.range, records[n].timestamp);
    }
  }

  /** A record with the key has the labels of the series, and only such a record. */
  lemma BelongsIff(q: Query, records: seq<Record>, key: string, r: Record)
    requires q.range.Valid() && AllSeparable(q, records) && key in SeriesKeys(q, records) && r in records
    ensures KeyFor(q, r) == key <==> LabelsFor(q.groupBy, r) == SeriesLabels(q, records, key)
  {
    if KeyFor(q, r) == key {
      SeriesLabelsExact(q, records, r);
    } else if LabelsFor(q.groupBy, r) == SeriesLabels(q, records, key) {
      KeyOfSeries(q, records, key);
    }
  }

  lemma {:induction false} FirstLabels(q: Query, records: seq<Record>)
    requires q.range.Valid() && q.groupBy == []
    ensures SeriesLabels(q, records, KeyOf(map[])) == map[] && KeyOf(map[]) in SeriesKeys(q, records)
    decreases |records|
  {
    if records != [] {
      FirstLabels(q, records[..|records| - 1]);
    }
  }

  lemma KeyOfSeries(q: Query, records: seq<Record>, key: string)
    requires q.range.Valid() && AllSeparable(q, records) && key in SeriesKeys(q, records)
    ensures KeyOf(SeriesLabels(q, records, key)) == key
  {
    KeysAreRecorded(q, records, key);
    if q.groupBy == [] && key == KeyOf(map[]) {
      FirstLabels(q, records);
    } else {
      var r :| r in records && q.range.start <= r.timestamp < q.range.end && KeyFor(q, r) == key;
      SeriesLabelsExact(q, records, r);
    }
  }

  /** Strictly increasing positions among n records. */
  ghost predicate Rising(at: seq<nat>, n: nat) {
    && (forall a :: 0 <= a < |at| ==> at[a] < n)
    && forall a, b :: 0 <= a < b < |at| ==> at[a] < at[b]
  }

  /** The positions of exactly the records of the i-th step that carry these labels. */
  ghost predicate RecordsAt(q: Query, records: seq<Record>, labels: Labels, i: int, at: seq<nat>) {
    && Rising(at, |records|)
    && forall k :: k in at <==>
         0 <= k < |records| && RecordedIn(q, records[k], i) && LabelsFor(q.groupBy, records[k]) == labels
  }

  function PickedAt(records: seq<Record>, at: seq<nat>): seq<Record>
    requires forall a :: 0 <= a < |at| ==> at[a] < |records|
    decreases |at|
  {
    if at == [] then [] else
      var n := |at| - 1;
      PickedAt(records, at[..n]) + [records[at[n]]]
  }

  lemma {:induction false} PickedFromPrefix(records: seq<Record>, n: nat, at: seq<nat>)
    requires n <= |records| && Rising(at, n)
    ensures PickedAt(records[..n], at) == PickedAt(records, at)
    decreases |at|
  {
    if at != [] {
      PickedFromPrefix(records, n, at[..|at| - 1]);
    }
  }

  lemma LastRises(at: seq<nat>, n: nat)
    requires Rising(at, n)
    ensures Rising(at + [n], n + 1) && Rising(at, n + 1)
  {
  }

  lemma LastPicked(records: seq<Record>, at: seq<nat>, n: nat)
    requires n < |records| && Rising(at, |records|)
    ensures PickedAt(records, at + [n]) == PickedAt(records, at) + [records[n]]
  {
    assert (at + [n])[..|at|] == at;
  }

  /** The members of a cell are the records at increasing positions that are in it. */
  lemma {:induction false} MembersAt(q: Query, records: seq<Record>, key: string, i: int) returns (at: seq<nat>)
    requires q.range.Valid()
    ensures Rising(at, |records|) && forall k :: k in at <==> IsMember(q, records, key, i, k)
    ensures Members(q, records, key, i) == PickedAt(records, at)
    decreases |records|
  {
    at := [];
    if records != [] {
      var n := |records| - 1;
      var before := MembersAt(q, records[..n], key, i);
      PickedFromPrefix(records, n, before);
      LastRises(before, n);
      LastPicked(records, before, n);
      at := if IsMember(q, records, key, i, n) then before + [n] else before;
      forall k ensures k in at <==> IsMember(q, records, key, i, k) {
        MemberPrefix(q, records, key, i, n, k);
      }
    }
  }

  ghost predicate IsMember(q: Query, records: seq<Record>, key: string, i: int, k: int)
    requires q.range.Valid()
  {
    0 <= k < |records| && InCell(q, records[k], key, i)
  }

  lemma MemberPrefix(q: Query, records: seq<Record>, key: string, i: int, n: nat, k: int)
    requires q.range.Valid() && |records| == n + 1
    ensures IsMember(q, records, key, i, k) <==>
      IsMember(q, records[..n], key, i, k) || (k == n && IsMember(q, records, key, i, n))
  {
  }

  lemma {:induction false} SeriesAt(q: Query, records: seq<Record>, keys: seq<string>, j: nat)
    requires q.range.Valid() && j < |keys|
    ensures |SeriesList(q, records, keys)| == |keys| && SeriesList(q, records, keys)[j] == SeriesOf(q, records, keys[j])
    decreases |keys|
  {
    var n := |keys| - 1;
    if n > 0 {
      SeriesAt(q, records, keys[..n], if j < n then j else 0);
    }
  }

  lemma AnswerAt(q: Query, records: seq<Record>, j: nat) returns (key: string)
    requires q.range.Valid() && j < |SortedKeys(SeriesKeys(q, records))|
    ensures key in SeriesKeys(q, records) && key == SortedKeys(SeriesKeys(q, records))[j]
    ensures |AllSeries(q, records)| == |SortedKeys(SeriesKeys(q, records))|
    ensures AllSeries(q, records)[j] == SeriesOf(q, records, key)
  {
    var keys := SortedKeys(SeriesKeys(q, records));
    key := keys[j];
    assert key in Elements(keys);
    SeriesAt(q, records, keys, j);
  }

  /** A series has a point per step of the range, with the metric's value of exactly the step's records with its labels. */
  lemma PointsSay(q: Query, records: seq<Record>, j: nat, i: nat) returns (at: seq<nat>)
    requires q.range.Valid() && AllSeparable(q, records)
    requires j < |SortedKeys(SeriesKeys(q, records))| && i < q.range.BucketCount()
    ensures j < |AllSeries(q, records)| && RecordsAt(q, records, AllSeries(q, records)[j].labels, i, at)
    ensures var series := AllSeries(q, records)[j];
      && series.refId == q.refId && |series.points| == q.range.BucketCount()
      && series.points[i] == Point(q.range.start + i * q.range.step, Value(q.metric, PickedAt(records, at)))
  {
    var key := AnswerAt(q, records, j);
    at := MembersAt(q, records, key, i);
    forall k | 0 <= k < |records|
      ensures IsMember(q, records, key, i, k) <==>
        RecordedIn(q, records[k], i) && LabelsFor(q.groupBy, records[k]) == SeriesLabels(q, records, key)
    {
      InCellIff(q, records[k], key, i);
      BelongsIff(q, records, key, records[k]);
    }
  }

  /** Every record in the range is in a series with its labels. */
  lemma EveryRecordHasSeries(q: Query, records: seq<Record>, r: Record) returns (j: nat)
    requires q.range.Valid() && AllSeparable(q, records) && r in records && q.range.start <= r.timestamp < q.range.end
    ensures j < |AllSeries(q, records)| && AllSeries(q, records)[j].labels == LabelsFor(q.groupBy, r)
  {
    KeysAreRecorded(q, records, KeyFor(q, r));
    var keys := SortedKeys(SeriesKeys(q, records));
    assert KeyFor(q, r) in Elements(keys);
    j :| 0 <= j < |keys| && keys[j] == KeyFor(q, r);
    var key := AnswerAt(q, records, j);
    BelongsIff(q, records, key, r);
  }

  /** Without records there is one series when nothing is grouped, and none otherwise. */
  lemma NoRecords(q: Query)
    requires q.range.Valid()
    ensures |SortedKeys(SeriesKeys(q, []))| == (if q.groupBy == [] then 1 else 0) == |AllSeries(q, [])|
  {
    var keys := SortedKeys(SeriesKeys(q, []));
    if q.groupBy == [] {
      AscendingUnique(keys, [KeyOf(map[])]);
      var _ := AnswerAt(q, [], 0);
    } else {
      AscendingUnique(keys, []);
    }
  }
}
