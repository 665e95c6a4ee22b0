/** Time buckets of the metrics queries, with exact integer time: bucket i covers [start + i*step, start + (i+1)*step). */
module Buckets {

  /** A time range a query may ask for, as the validators demand it. */
  datatype Range = Range(start: int, end: int, step: int) {
    predicate Valid() {
      start < end && 0 < step
    }

    /** The ceiling of the range over the step, at least one. */
    function BucketCount(): nat
      requires Valid()
    {
      var count := (end - start + step - 1) / step;
      if count < 1 then 1 else count
    }

    function BucketOf(t: int): int
      requires Valid()
    {
      (t - start) / step
    }

    /** The two guards of the aggregation loops: in the range, and in a bucket that exists. */
    predicate Places(t: int)
      requires Valid()
    {
      start <= t < end && 0 <= BucketOf(t) < BucketCount()
    }
  }

  lemma Quotient(x: int, d: int)
    requires 0 < d
    ensures x / d * d <= x < x / d * d + d
  {
    assert x == x / d * d + x % d;
  }

  lemma {:induction false} Distributes(a: int, n: nat, d: int)
    requires 0 < d
    ensures (a + n) * d == a * d + n * d && n * d >= n
  {
    if n > 0 {
      Distributes(a, n - 1, d);
    }
  }

  lemma FactorsOrdered(a: int, b: int, d: int)
    requires 0 < d
    ensures a < b <==> a * d < b * d
    ensures a < b ==> a * d + d <= b * d
  {
    if a < b {
      Distributes(a + 1, b - a - 1, d);
      assert (a + 1) * d == a * d + d;
    } else {
      Distributes(b, a - b, d);
    }
  }

  lemma BucketCountCeils(r: Range)
    requires r.Valid()
    ensures (r.BucketCount() - 1) * r.step < r.end - r.start <= r.BucketCount() * r.step
  {
    var span := r.end - r.start;
    Quotient(span + r.step - 1, r.step);
    FactorsOrdered(0, (span + r.step - 1) / r.step, r.step);
  }

  /** A time in the range has a bucket, so the index guard never fires. */
  lemma InRangeIsPlaced(r: Range, t: int)
    requires r.Valid()
    ensures r.Places(t) <==> r.start <= t < r.end
  {
    if r.start <= t < r.end {
      Quotient(t - r.start, r.step);
      BucketCountCeils(r);
      FactorsOrdered(r.BucketOf(t), r.BucketCount(), r.step);
      FactorsOrdered(-1, r.BucketOf(t), r.step);
    }
  }

  /** And that bucket is the only one that covers the time. */
  lemma ExactlyOneBucket(r: Range, t: int, i: int)
    requires r.Valid()
    ensures Covers(r, i, t) <==> i == r.BucketOf(t)
  {
    Quotient(t - r.start, r.step);
    FactorsOrdered(i, r.BucketOf(t), r.step);
    FactorsOrdered(r.BucketOf(t), i, r.step);
  }

  predicate Covers(r: Range, i: int, t: int) {
    r.start + i * r.step <= t < r.start + i * r.step + r.step
  }

  /** No bucket starts at or after the end, and the last one reaches it. */
  lemma BucketsFillTheRange(r: Range, i: nat)
    requires r.Valid() && i < r.BucketCount()
    ensures r.start <= r.start + i * r.step < r.end <= r.start + r.BucketCount() * r.step
  {
    BucketCountCeils(r);
    FactorsOrdered(i, r.BucketCount() - 1, r.step);
    FactorsOrdered(-1, i, r.step);
  }
}
