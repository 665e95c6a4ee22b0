/**
 The outcome log of a connection's probes: the streaks that health decisions read off its newest rows, and what the
 cleanup task may delete without changing them.
 */
module ProbeLog {

  const DEFAULT_FAILURE_THRESHOLD: nat := 3
  const DEFAULT_RECOVERY_THRESHOLD: nat := 1

  datatype Thresholds = Thresholds(failure: int, recovery: int)

  datatype Row = Row(success: bool, at: int)

  /** Rows of a probe, oldest first. */
  type Log = seq<Row>

  function LogOf(logs: map<string, Log>, probe: string): Log {
    if probe in logs then logs[probe] else []
  }

  // ---------------------------------------------------------------------------------------------
  // Streaks
  // ---------------------------------------------------------------------------------------------

  /** Length of the run of equal outcomes at the end of the log. */
  function Streak(log: Log, success: bool): (n: nat)
    ensures n <= |log|
    ensures forall i :: |log| - n <= i < |log| ==> log[i].success == success
    ensures n < |log| ==> log[|log| - n - 1].success != success
  {
    if log == [] || log[|log| - 1].success != success then 0 else 1 + Streak(log[..|log| - 1], success)
  }

  /** What a query capped at `limit` rows reports. */
  function Capped(log: Log, success: bool, limit: int): int {
    if limit <= 0 then 0 else if Streak(log, success) <= limit then Streak(log, success) else limit
  }

  /** The newest `limit` rows, newest first. */
  function Recent(log: Log, limit: nat): (rows: seq<Row>)
    ensures |rows| == if |log| <= limit then |log| else limit
    ensures forall i :: 0 <= i < |rows| ==> rows[i] == log[|log| - 1 - i]
  {
    var n := if |log| <= limit then |log| else limit;
    seq(n, i requires 0 <= i < n => log[|log| - 1 - i])
  }

  method ConsecutiveStreak(log: Log, success: bool, limit: int) returns (n: int)
    ensures n == Capped(log, success, limit)
  {
    if limit <= 0 { return 0; }
    var rows := Recent(log, limit);
    n := 0;
    for i := 0 to |rows|
      invariant n == i && forall k :: |log| - n <= k < |log| ==> log[k].success == success
    {
      if rows[i].success != success { break; }
      n := n + 1;
    }
    StreakIs(log, success, n);
  }

  lemma StreakIs(log: Log, success: bool, n: nat)
    requires n <= |log| && forall i :: |log| - n <= i < |log| ==> log[i].success == success
    ensures Streak(log, success) >= n
    ensures n < |log| && log[|log| - 1 - n].success != success ==> Streak(log, success) == n
  {
    var s := Streak(log, success);
    assert s > n && n < |log| ==> log[|log| - 1 - n].success == success;
  }

  // ---------------------------------------------------------------------------------------------
  // Cleanup
  // ---------------------------------------------------------------------------------------------

  function Max(a: int, b: int): int {
    if a > b then a else b
  }

  const DEFAULT_KEEP_MINIMUM := Max(DEFAULT_FAILURE_THRESHOLD, DEFAULT_RECOVERY_THRESHOLD)

  /** Rows kept for a probe: by its own thresholds when it was resolved as enabled, by the defaults otherwise. */
  function KeepMinimum(cfg: map<string, Thresholds>, resolved: set<string>, probe: string): int {
    if probe in resolved && probe in cfg then Max(cfg[probe].failure, cfg[probe].recovery) else DEFAULT_KEEP_MINIMUM
  }

  /** Drop the rows older than the cutoff, except the newest `keep`. */
  function DeleteOld(log: Log, keep: int, cutoff: int): (r: Log)
    ensures |r| <= |log|
    ensures forall row :: row in log && row.at >= cutoff ==> row in r
    ensures |log| <= keep ==> r == log
  {
    if log == [] || |log| <= keep then log
    else (if log[0].at < cutoff then [] else [log[0]]) + DeleteOld(log[1..], keep, cutoff)
  }

  /** The newest rows survive: as many as are kept, or all. */
  lemma {:induction false} DeleteOldKeepsNewest(log: Log, keep: int, cutoff: int, m: nat)
    requires m <= |log| && m <= keep
    ensures m <= |DeleteOld(log, keep, cutoff)|
    ensures var r := DeleteOld(log, keep, cutoff); r[|r| - m..] == log[|log| - m..]
    decreases |log|
  {
    if |log| > keep {
      DeleteOldKeepsNewest(log[1..], keep, cutoff, m);
      var tail := DeleteOld(log[1..], keep, cutoff);
      var r := DeleteOld(log, keep, cutoff);
      assert log[1..][|log| - 1 - m..] == log[|log| - m..];
      assert r[|r| - m..] == tail[|tail| - m..];
    }
  }

  // ---------------------------------------------------------------------------------------------
  // The pruned log decides like the full one
  // ---------------------------------------------------------------------------------------------

  /** The newest k rows are the same, and a log of fewer rows is the same entirely. */
  ghost predicate AgreesOnNewest(full: Log, pruned: Log, k: nat)
    decreases k
  {
    if k == 0 then |pruned| <= |full|
    else if full == [] then pruned == []
    else
      && pruned != [] && full[|full| - 1] == pruned[|pruned| - 1]
      && AgreesOnNewest(full[..|full| - 1], pruned[..|pruned| - 1], k - 1)
  }

  lemma {:induction false} AgreesWithItself(log: Log, k: nat)
    ensures AgreesOnNewest(log, log, k)
    decreases k
  {
    if k > 0 && log != [] {
      AgreesWithItself(log[..|log| - 1], k - 1);
    }
  }

  lemma CappedPeels(log: Log, success: bool, limit: int)
    requires log != [] && limit >= 1
    ensures Capped(log, success, limit) ==
      if log[|log| - 1].success == success then 1 + Capped(log[..|log| - 1], success, limit - 1) else 0
  {
  }

  lemma {:induction false} AgreeingLogsAnswerAlike(full: Log, pruned: Log, k: nat, success: bool, limit: int)
    requires AgreesOnNewest(full, pruned, k) && limit <= k
    ensures Capped(full, success, limit) == Capped(pruned, success, limit)
    decreases k
  {
    if limit >= 1 && full != [] {
      CappedPeels(full, success, limit);
      CappedPeels(pruned, success, limit);
      AgreeingLogsAnswerAlike(full[..|full| - 1], pruned[..|pruned| - 1], k - 1, success, limit - 1);
    }
  }

  /** Rows are read by time, so a row goes after those that are no younger, wherever its insert falls. */
  function Insert(log: Log, row: Row): (r: Log)
    ensures |r| == |log| + 1
  {
    if log == [] || log[|log| - 1].at <= row.at then log + [row]
    else Insert(log[..|log| - 1], row) + [log[|log| - 1]]
  }

  lemma {:induction false} InsertKeepsAgreement(full: Log, pruned: Log, k: nat, row: Row)
    requires AgreesOnNewest(full, pruned, k)
    ensures AgreesOnNewest(Insert(full, row), Insert(pruned, row), k)
    decreases k
  {
    if k > 0 && full != [] {
      var F, P := Insert(full, row), Insert(pruned, row);
      if full[|full| - 1].at <= row.at {
        AgreementShrinks(full, pruned, k);
        assert F[..|F| - 1] == full && P[..|P| - 1] == pruned;
      } else {
        var f, p := full[..|full| - 1], pruned[..|pruned| - 1];
        InsertKeepsAgreement(f, p, k - 1, row);
        assert F[..|F| - 1] == Insert(f, row) && P[..|P| - 1] == Insert(p, row);
      }
    }
  }

  lemma {:induction false} AgreementShrinks(full: Log, pruned: Log, k: nat)
    requires k > 0 && AgreesOnNewest(full, pruned, k)
    ensures AgreesOnNewest(full, pruned, k - 1)
    decreases k
  {
    if k > 1 && full != [] {
      AgreementShrinks(full[..|full| - 1], pruned[..|pruned| - 1], k - 1);
    } else if k == 1 && full != [] {
      assert |full[..|full| - 1]| >= |pruned[..|pruned| - 1]|;
    }
  }

  lemma {:induction false} DeleteOldPeels(log: Log, keep: int, cutoff: int)
    requires log != [] && keep >= 1
    ensures DeleteOld(log, keep, cutoff) == DeleteOld(log[..|log| - 1], keep - 1, cutoff) + [log[|log| - 1]]
    decreases |log|
  {
    if |log| > keep {
      DeleteOldPeels(log[1..], keep, cutoff);
      assert log[1..][..|log| - 2] == log[..|log| - 1][1..];
    }
  }

  lemma {:induction false} PruneKeepsAgreement(full: Log, pruned: Log, k: nat, keep: int, cutoff: int)
    requires AgreesOnNewest(full, pruned, k) && (k <= keep || k == 0)
    ensures AgreesOnNewest(full, DeleteOld(pruned, keep, cutoff), k)
    decreases k
  {
    if k > 0 && full != [] {
      var p := pruned[..|pruned| - 1];
      DeleteOldPeels(pruned, keep, cutoff);
      PruneKeepsAgreement(full[..|full| - 1], p, k - 1, keep - 1, cutoff);
      var r := DeleteOld(pruned, keep, cutoff);
      assert r[..|r| - 1] == DeleteOld(p, keep - 1, cutoff);
    }
  }

  /** The newest rows that decisions about a probe may need. */
  function Needed(t: Thresholds): nat {
    Max(0, Max(t.failure, t.recovery))
  }

  ghost predicate WellConfigured(cfg: map<string, Thresholds>) {
    forall p :: p in cfg ==> cfg[p].failure >= 1 && cfg[p].recovery >= 1
  }

  lemma AppendStreak(log: Log, row: Row, success: bool)
    ensures Streak(log + [row], success) == if row.success == success then Streak(log, success) + 1 else 0
  {
    assert (log + [row])[..|log|] == log;
  }

  /** A success never lengthens a failure streak, wherever it is inserted. */
  lemma {:induction false} SuccessNoLonger(log: Log, row: Row)
    requires row.success
    ensures Streak(Insert(log, row), false) <= Streak(log, false)
    decreases |log|
  {
    if log != [] && log[|log| - 1].at > row.at {
      var init, last := log[..|log| - 1], log[|log| - 1];
      SuccessNoLonger(init, row);
      AppendStreak(init, last, false);
      AppendStreak(Insert(init, row), last, false);
      assert log == init + [last] && Insert(log, row) == Insert(init, row) + [last];
    } else {
      AppendStreak(log, row, false);
    }
  }

  /** Nor does it shorten a success streak. */
  lemma {:induction false} SuccessNoShorter(log: Log, row: Row)
    requires row.success
    ensures Streak(Insert(log, row), true) >= Streak(log, true)
    decreases |log|
  {
    if log != [] && log[|log| - 1].at > row.at {
      var init, last := log[..|log| - 1], log[|log| - 1];
      SuccessNoShorter(init, row);
      AppendStreak(init, last, true);
      AppendStreak(Insert(init, row), last, true);
      assert log == init + [last] && Insert(log, row) == Insert(init, row) + [last];
    } else {
      AppendStreak(log, row, true);
    }
  }

  /** Equal outcomes at times 0, 1, 2 and so on. */
  function Steady(success: bool, n: nat): (log: Log)
    ensures |log| == n && forall i :: 0 <= i < n ==> log[i] == Row(success, i)
  {
    seq(n, i => Row(success, i))
  }

  /** Keeping fewer rows than a threshold loses streaks: the kept minimum is exactly what is needed. */
  lemma KeepMinimumIsExact(keep: int, success: bool, limit: int)
    requires keep >= 0
    ensures keep >= limit <==>
      forall log, cutoff :: Capped(DeleteOld(log, keep, cutoff), success, limit) == Capped(log, success, limit)
  {
    if keep >= limit {
      forall log, cutoff ensures Capped(DeleteOld(log, keep, cutoff), success, limit) == Capped(log, success, limit) {
        AgreesWithItself(log, keep);
        PruneKeepsAgreement(log, log, keep, keep, cutoff);
        AgreeingLogsAnswerAlike(log, DeleteOld(log, keep, cutoff), keep, success, limit);
      }
    } else {
      var log := Steady(success, limit);
      StreakIs(log, success, limit);
      DeleteAllOld(log, keep, limit);
      assert Capped(DeleteOld(log, keep, limit), success, limit) <= keep < limit == Capped(log, success, limit);
    }
  }

  lemma {:induction false} DeleteAllOld(log: Log, keep: int, cutoff: int)
    requires keep >= 0 && forall i :: 0 <= i < |log| ==> log[i].at < cutoff
    ensures |DeleteOld(log, keep, cutoff)| <= keep
    decreases |log|
  {
    if |log| > keep {
      DeleteAllOld(log[1..], keep, cutoff);
    }
  }
}
