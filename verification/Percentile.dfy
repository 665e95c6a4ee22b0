/** The nearest-rank percentile of a bucket's durations. */
module Percentile {

  predicate Sorted(s: seq<int>) {
    forall i, j :: 0 <= i < j < |s| ==> s[i] <= s[j]
  }

  /** How many values are at most `v`. */
  function AtMost(s: seq<int>, v: int): nat {
    if s == [] then 0 else (if s[0] <= v then 1 else 0) + AtMost(s[1..], v)
  }

  function Insert(x: int, s: seq<int>): (r: seq<int>)
    requires Sorted(s)
    ensures Sorted(r) && |r| == |s| + 1 && (forall y :: y in r ==> y == x || y in s)
    ensures r[0] == if s == [] || x <= s[0] then x else s[0]
  {
    if s == [] || x <= s[0] then [x] + s else
      var rest := Insert(x, s[1..]);
      assert forall i :: 0 <= i < |rest| ==> rest[0] <= rest[i];
      [s[0]] + rest
  }

  function Sort(s: seq<int>): (r: seq<int>)
    ensures Sorted(r) && |r| == |s| && (forall y :: y in r ==> y in s)
  {
    if s == [] then [] else Insert(s[0], Sort(s[1..]))
  }

  lemma {:induction false} InsertCounts(x: int, s: seq<int>, v: int)
    requires Sorted(s)
    ensures AtMost(Insert(x, s), v) == AtMost(s, v) + if x <= v then 1 else 0
    decreases |s|
  {
    if s == [] || x <= s[0] {
      assert ([x] + s)[1..] == s;
    } else {
      InsertCounts(x, s[1..], v);
      assert Insert(x, s)[1..] == Insert(x, s[1..]);
    }
  }

  lemma {:induction false} SortCounts(s: seq<int>, v: int)
    ensures AtMost(Sort(s), v) == AtMost(s, v)
  {
    if s != [] {
      SortCounts(s[1..], v);
      InsertCounts(s[0], Sort(s[1..]), v);
    }
  }

  /** The ceiling of `percent` of the length, less one, clamped to the indices. */
  function Rank(percent: nat, n: nat): (rank: nat)
    requires n > 0
    ensures rank < n
  {
    var rank := (percent * n + 99) / 100 - 1;
    if rank < 0 then 0 else if rank >= n then n - 1 else rank
  }

  function NearestRank(values: seq<int>, percent: nat): int {
    if values == [] then 0 else Sort(values)[Rank(percent, |values|)]
  }

  lemma {:induction false} AtMostAtLeast(s: seq<int>, v: int, n: nat)
    requires n <= |s| && forall k :: 0 <= k < n ==> s[k] <= v
    ensures AtMost(s, v) >= n
  {
    if n > 0 {
      AtMostAtLeast(s[1..], v, n - 1);
    }
  }

  lemma {:induction false} AtMostBelow(s: seq<int>, v: int, n: nat)
    requires n <= |s| && forall k :: n <= k < |s| ==> v < s[k]
    ensures AtMost(s, v) <= n
    decreases |s|
  {
    if s != [] {
      AtMostBelow(s[1..], v, if n == 0 then 0 else n - 1);
    }
  }

  lemma RankInRange(percent: nat, n: nat)
    requires 0 < percent <= 100 && 0 < n
    ensures 100 * Rank(percent, n) < percent * n <= 100 * (Rank(percent, n) + 1)
  {
    assert (percent - 1) * n >= 0 && (100 - percent) * n >= 0;
    assert n <= percent * n <= 100 * n;
  }

  lemma BelowRanked(values: seq<int>, rank: nat, u: int)
    requires rank < |values| && u < Sort(values)[rank]
    ensures AtMost(values, u) <= rank
  {
    SortCounts(values, u);
    AtMostBelow(Sort(values), u, rank);
  }

  lemma UpToRanked(values: seq<int>, rank: nat)
    requires rank < |values|
    ensures Sort(values)[rank] in values
    ensures AtMost(values, Sort(values)[rank]) >= rank + 1
  {
    var sorted := Sort(values);
    assert sorted[rank] in sorted;
    SortCounts(values, sorted[rank]);
    AtMostAtLeast(sorted, sorted[rank], rank + 1);
  }

  /** The least of the values that at least `percent` per cent of them do not exceed. */
  lemma NearestRankIsLeast(values: seq<int>, percent: nat)
    requires values != [] && 0 < percent <= 100
    ensures NearestRank(values, percent) in values
    ensures 100 * AtMost(values, NearestRank(values, percent)) >= percent * |values|
    ensures forall u :: u < NearestRank(values, percent) ==> 100 * AtMost(values, u) < percent * |values|
  {
    var rank, want := Rank(percent, |values|), percent * |values|;
    RankInRange(percent, |values|);
    UpToRanked(values, rank);
    forall u | u < NearestRank(values, percent) ensures 100 * AtMost(values, u) < want {
      BelowRanked(values, rank, u);
    }
  }
}
