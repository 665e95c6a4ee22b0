/**
 How successes bring health back: over every interleaving of tasks that all succeed, an unhealthy connection recovers
 unless every task on the way had loaded it as healthy.
 */
module ProbeRecovery {
  import opened ProbeLog
  import opened ProbeTasks
  import opened ProbeHealth

  predicate Recovered(cfg: Config, logs: map<string, Log>, p: string) {
    p in cfg && Capped(LogOf(logs, p), true, cfg[p].recovery) >= cfg[p].recovery
  }

  ghost predicate AllRecovered(cfg: Config, probes: set<string>, logs: map<string, Log>) {
    forall p :: p in probes ==> Recovered(cfg, logs, p)
  }

  /** Tasks of these probes, which are all that is enabled; outcomes are successes, and nothing fails. */
  ghost predicate Good(cfg: Config, probes: set<string>, e: Event) {
    && Admissible(cfg, e) && Succeeds(e)
    && (e.Begin? ==> e.probe in probes)
    && (e.Insert? ==> e.row.success)
    && (e.ReadOwn? ==> forall p :: p in e.enabled ==> p in probes)
  }

  ghost predicate AllGood(cfg: Config, probes: set<string>, events: seq<Event>) {
    events == [] || (AllGood(cfg, probes, events[..|events| - 1]) && Good(cfg, probes, events[|events| - 1]))
  }

  ghost predicate GoodRun(cfg: Config, probes: set<string>, events: seq<Event>) {
    WellConfigured(cfg) && probes <= cfg.Keys && AllGood(cfg, probes, events)
  }

  /** A task that is through, or on its way with a success. */
  predicate Succeeding(probes: set<string>, t: Task) {
    match t.phase
    case Finished => true
    case Probing => t.probe in probes
    case Inserted(success) => t.probe in probes && success
    case Checking(todo) => !t.copy && forall p :: p in todo ==> p in probes
    case Writing(to) => !t.copy && to
  }

  ghost predicate AllSucceeding(probes: set<string>, s: System) {
    forall i :: 0 <= i < |s.tasks| ==> Succeeding(probes, s.tasks[i])
  }

  /** On its way, and it saw the connection unhealthy. */
  predicate Hopeful(t: Task) {
    !t.phase.Finished? && !t.copy
  }

  ghost predicate Hope(s: System) {
    exists i :: 0 <= i < |s.tasks| && Hopeful(s.tasks[i])
  }

  // ---------------------------------------------------------------------------------------------
  // Once every probe has recovered
  // ---------------------------------------------------------------------------------------------

  lemma InsertKeepsRecovered(cfg: Config, logs: map<string, Log>, p: string, row: Row, q: string)
    requires row.success && Recovered(cfg, logs, q)
    ensures Recovered(cfg, WithRow(logs, p, row), q)
  {
    if q == p {
      SuccessNoShorter(LogOf(logs, p), row);
    }
  }

  lemma SweepKeepsRecovered(cfg: Config, s: System, e: Event, p: string)
    requires e.Sweep? && Admissible(cfg, e)
    ensures Recovered(cfg, Step(cfg, s, e).logs, p) <==> Recovered(cfg, s.logs, p)
  {
    if p in cfg {
      SweepKeepsCapped(cfg, s, e, p, true, cfg[p].recovery);
    }
  }

  lemma StepKeepsRecovered(cfg: Config, probes: set<string>, s: System, e: Event, p: string)
    requires Good(cfg, probes, e) && Recovered(cfg, s.logs, p)
    ensures Recovered(cfg, Step(cfg, s, e).logs, p)
  {
    if e.Sweep? {
      SweepKeepsRecovered(cfg, s, e, p);
    } else if e.Insert? && e.i < |s.tasks| {
      InsertKeepsRecovered(cfg, s.logs, s.tasks[e.i].probe, e.row, p);
    }
  }

  /** The next phase of a task that is succeeding. */
  lemma StaysSucceeding(cfg: Config, probes: set<string>, s: System, e: Event, j: nat)
    requires AllSucceeding(probes, s) && Good(cfg, probes, e) && j < |s.tasks|
    ensures j < |Step(cfg, s, e).tasks| && Succeeding(probes, Step(cfg, s, e).tasks[j])
    ensures Step(cfg, s, e).tasks[j].copy == s.tasks[j].copy
  {
    assert Succeeding(probes, s.tasks[j]);
  }

  lemma StepKeepsSucceeding(cfg: Config, probes: set<string>, s: System, e: Event)
    requires AllSucceeding(probes, s) && Good(cfg, probes, e)
    ensures AllSucceeding(probes, Step(cfg, s, e))
  {
    var s' := Step(cfg, s, e);
    forall j | 0 <= j < |s'.tasks| ensures Succeeding(probes, s'.tasks[j]) {
      if j < |s.tasks| {
        StaysSucceeding(cfg, probes, s, e, j);
      }
    }
  }

  /** Nothing turns a hopeful task away. */
  lemma StaysHopeful(cfg: Config, probes: set<string>, s: System, e: Event, j: nat)
    requires WellConfigured(cfg) && probes <= cfg.Keys && AllSucceeding(probes, s) && Good(cfg, probes, e)
    requires AllRecovered(cfg, probes, s.logs) && j < |s.tasks| && Hopeful(s.tasks[j])
    ensures var s' := Step(cfg, s, e); s'.healthy || (j < |s'.tasks| && Hopeful(s'.tasks[j]))
  {
    var t := s.tasks[j];
    assert Succeeding(probes, t);
    if e.ReadOwn? && e.i == j && t.phase.Inserted? {
      assert Recovered(cfg, s.logs, t.probe);
    } else if e.ReadOther? && e.i == j && t.phase.Checking? && t.phase.todo != [] {
      var p := t.phase.todo[0];
      assert p in t.phase.todo && Recovered(cfg, s.logs, p);
      RecoveredIsNotFailing(cfg, s.logs, p);
    }
  }

  lemma StepKeepsHope(cfg: Config, probes: set<string>, s: System, e: Event)
    requires WellConfigured(cfg) && probes <= cfg.Keys && AllSucceeding(probes, s) && Good(cfg, probes, e)
    requires AllRecovered(cfg, probes, s.logs)
    requires s.healthy || Hope(s) || e.Begin?
    ensures Step(cfg, s, e).healthy || Hope(Step(cfg, s, e))
  {
    var s' := Step(cfg, s, e);
    if s.healthy {
      StaysHealthy(cfg, probes, s, e);
    } else if Hope(s) {
      var j :| 0 <= j < |s.tasks| && Hopeful(s.tasks[j]);
      StaysHopeful(cfg, probes, s, e, j);
    } else {
      assert Hopeful(s'.tasks[|s.tasks|]);
    }
  }

  lemma StaysHealthy(cfg: Config, probes: set<string>, s: System, e: Event)
    requires AllSucceeding(probes, s) && s.healthy && !e.Mark?
    ensures Step(cfg, s, e).healthy
  {
    if e.Write? && e.i < |s.tasks| {
      assert Succeeding(probes, s.tasks[e.i]);
    }
  }

  /** Tasks that all loaded the connection as healthy leave it as it is. */
  lemma StaysHopeless(cfg: Config, probes: set<string>, s: System, e: Event)
    requires AllSucceeding(probes, s) && Good(cfg, probes, e) && !e.Begin? && !s.healthy && !Hope(s)
    ensures !Step(cfg, s, e).healthy && !Hope(Step(cfg, s, e))
  {
    var s' := Step(cfg, s, e);
    forall j | 0 <= j < |s'.tasks| ensures !Hopeful(s'.tasks[j]) {
      assert !Hopeful(s.tasks[j]);
      StaysSucceeding(cfg, probes, s, e, j);
    }
    if e.Write? && e.i < |s.tasks| {
      assert !Hopeful(s.tasks[e.i]) && Succeeding(probes, s.tasks[e.i]);
    }
  }

  /** Some task begins during the events. */
  predicate Begins(events: seq<Event>) {
    events != [] && (Begins(events[..|events| - 1]) || events[|events| - 1].Begin?)
  }

  lemma {:induction false} RunHopes(cfg: Config, probes: set<string>, s: System, events: seq<Event>)
    requires GoodRun(cfg, probes, events) && AllSucceeding(probes, s) && AllRecovered(cfg, probes, s.logs)
    ensures var end := Run(cfg, s, events);
      && AllSucceeding(probes, end) && AllRecovered(cfg, probes, end.logs)
      && (end.healthy || Hope(end) <==> s.healthy || Hope(s) || Begins(events))
    decreases |events|
  {
    if events != [] {
      var n := |events| - 1;
      var before, e := Run(cfg, s, events[..n]), events[n];
      RunHopes(cfg, probes, s, events[..n]);
      forall p | p in probes ensures Recovered(cfg, Step(cfg, before, e).logs, p) {
        StepKeepsRecovered(cfg, probes, before, e, p);
      }
      StepKeepsSucceeding(cfg, probes, before, e);
      if before.healthy || Hope(before) || e.Begin? {
        StepKeepsHope(cfg, probes, before, e);
      } else {
        StaysHopeless(cfg, probes, before, e);
      }
    }
  }

  /**
   With every enabled probe past its recovery threshold, tasks that succeed end with a healthy connection exactly when it
   was healthy, a task on its way had seen it unhealthy, or a task began since.
   */
  lemma SettlesHealthyIff(cfg: Config, probes: set<string>, s: System, events: seq<Event>)
    requires GoodRun(cfg, probes, events) && AllSucceeding(probes, s) && AllRecovered(cfg, probes, s.logs)
    requires AtRest(Run(cfg, s, events))
    ensures Run(cfg, s, events).healthy <==> s.healthy || Hope(s) || Begins(events)
  {
    RunHopes(cfg, probes, s, events);
    var end := Run(cfg, s, events);
    assert forall i :: 0 <= i < |end.tasks| ==> !Hopeful(end.tasks[i]);
  }

  // ---------------------------------------------------------------------------------------------
  // From any connection at rest
  // ---------------------------------------------------------------------------------------------

  /** The event records an outcome of one of these probes. */
  predicate Records(probes: set<string>, s: System, e: Event) {
    e.Insert? && e.ok && e.i < |s.tasks| && s.tasks[e.i].phase.Probing? && s.tasks[e.i].probe in probes
  }

  /** How many outcomes of p the events record. */
  function Recorded(cfg: Config, s: System, events: seq<Event>, p: string): nat {
    if events == [] then 0
    else
      var n := |events| - 1;
      Recorded(cfg, s, events[..n], p) + if Records({p}, Run(cfg, s, events[..n]), events[n]) then 1 else 0
  }

  /** Rows come in the order of their times. */
  predicate Newest(s: System, e: Event) {
    e.Insert? && e.i < |s.tasks| ==>
      var log := LogOf(s.logs, s.tasks[e.i].probe); log == [] || log[|log| - 1].at <= e.row.at
  }

  predicate InOrder(cfg: Config, s: System, events: seq<Event>) {
    || events == []
    || (InOrder(cfg, s, events[..|events| - 1]) && Newest(Run(cfg, s, events[..|events| - 1]), events[|events| - 1]))
  }

  function Min(a: int, b: int): int {
    if a < b then a else b
  }

  lemma RowCounts(log: Log, row: Row, limit: int, k: nat)
    requires row.success && (log == [] || log[|log| - 1].at <= row.at) && Capped(log, true, limit) >= Min(k, limit)
    ensures Capped(ProbeLog.Insert(log, row), true, limit) >= Min(k + 1, limit)
  {
    AppendStreak(log, row, true);
  }

  lemma RecordCounts(cfg: Config, probes: set<string>, s: System, e: Event, p: string, k: nat)
    requires Good(cfg, probes, e) && p in cfg && Newest(s, e)
    requires Capped(LogOf(s.logs, p), true, cfg[p].recovery) >= Min(k, cfg[p].recovery)
    ensures Capped(LogOf(Step(cfg, s, e).logs, p), true, cfg[p].recovery)
      >= Min(if Records({p}, s, e) then k + 1 else k, cfg[p].recovery)
  {
    var log, log' := LogOf(s.logs, p), LogOf(Step(cfg, s, e).logs, p);
    if e.Sweep? {
      SweepKeepsCapped(cfg, s, e, p, true, cfg[p].recovery);
    } else if Records({p}, s, e) {
      RowCounts(log, e.row, cfg[p].recovery, k);
      assert log' == ProbeLog.Insert(log, e.row);
    } else {
      assert log' == log;
    }
  }

  lemma {:induction false} SuccessesMakeStreak(cfg: Config, probes: set<string>, s: System, events: seq<Event>, p: string)
    requires GoodRun(cfg, probes, events) && InOrder(cfg, s, events) && p in cfg
    ensures Capped(LogOf(Run(cfg, s, events).logs, p), true, cfg[p].recovery)
      >= Min(Recorded(cfg, s, events, p), cfg[p].recovery)
    decreases |events|
  {
    if events != [] {
      var n := |events| - 1;
      SuccessesMakeStreak(cfg, probes, s, events[..n], p);
      RecordCounts(cfg, probes, Run(cfg, s, events[..n]), events[n], p, Recorded(cfg, s, events[..n], p));
    }
  }

  /** No task on its way is mistaken about a healthy connection. */
  ghost predicate FreshCopies(s: System) {
    forall i :: 0 <= i < |s.tasks| && !s.tasks[i].phase.Finished? && s.tasks[i].copy ==> s.healthy
  }

  lemma StepKeepsFresh(cfg: Config, probes: set<string>, s: System, e: Event)
    requires AllSucceeding(probes, s) && Good(cfg, probes, e) && FreshCopies(s)
    ensures FreshCopies(Step(cfg, s, e))
  {
    var s' := Step(cfg, s, e);
    forall j | 0 <= j < |s'.tasks| && !s'.tasks[j].phase.Finished? && s'.tasks[j].copy ensures s'.healthy {
      if j < |s.tasks| {
        StaysSucceeding(cfg, probes, s, e, j);
        assert !s.tasks[j].phase.Finished? && s.healthy;
      }
      if s.healthy {
        StaysHealthy(cfg, probes, s, e);
      }
    }
  }

  lemma {:induction false} RunIsFresh(cfg: Config, probes: set<string>, s: System, events: seq<Event>)
    requires GoodRun(cfg, probes, events) && AtRest(s)
    ensures AllSucceeding(probes, Run(cfg, s, events)) && FreshCopies(Run(cfg, s, events))
    decreases |events|
  {
    if events != [] {
      var n := |events| - 1;
      RunIsFresh(cfg, probes, s, events[..n]);
      StepKeepsSucceeding(cfg, probes, Run(cfg, s, events[..n]), events[n]);
      StepKeepsFresh(cfg, probes, Run(cfg, s, events[..n]), events[n]);
    }
  }

  /** The outcome that completes the recovery of all probes belongs to a task that will act on it. */
  lemma RecordHopes(cfg: Config, probes: set<string>, s: System, e: Event)
    requires Records(probes, s, e) && FreshCopies(Step(cfg, s, e))
    ensures Step(cfg, s, e).healthy || Hope(Step(cfg, s, e))
  {
    var s' := Step(cfg, s, e);
    assert s'.tasks[e.i].phase.Inserted?;
    assert s'.tasks[e.i].copy || Hopeful(s'.tasks[e.i]);
  }

  lemma OnlyRecordsRecover(cfg: Config, probes: set<string>, s: System, e: Event)
    requires Good(cfg, probes, e) && !Records(probes, s, e) && AllRecovered(cfg, probes, Step(cfg, s, e).logs)
    ensures AllRecovered(cfg, probes, s.logs)
  {
    forall p | p in probes ensures Recovered(cfg, s.logs, p) {
      assert Recovered(cfg, Step(cfg, s, e).logs, p);
      if e.Sweep? {
        SweepKeepsRecovered(cfg, s, e, p);
      }
    }
  }

  lemma UnderWayStep(cfg: Config, probes: set<string>, s: System, e: Event)
    requires WellConfigured(cfg) && probes <= cfg.Keys && Good(cfg, probes, e)
    requires AllSucceeding(probes, s) && FreshCopies(s) && AllRecovered(cfg, probes, Step(cfg, s, e).logs)
    requires Records(probes, s, e) || s.healthy || Hope(s)
    ensures Step(cfg, s, e).healthy || Hope(Step(cfg, s, e))
  {
    if Records(probes, s, e) {
      StepKeepsFresh(cfg, probes, s, e);
      RecordHopes(cfg, probes, s, e);
    } else {
      OnlyRecordsRecover(cfg, probes, s, e);
      StepKeepsHope(cfg, probes, s, e);
    }
  }

  /** Some outcome of one of these probes is recorded. */
  predicate AnyRecorded(cfg: Config, probes: set<string>, s: System, events: seq<Event>) {
    && events != []
    && var n := |events| - 1;
       AnyRecorded(cfg, probes, s, events[..n]) || Records(probes, Run(cfg, s, events[..n]), events[n])
  }

  lemma {:induction false} RecoveryIsUnderWay(cfg: Config, probes: set<string>, s: System, events: seq<Event>)
    requires GoodRun(cfg, probes, events) && AtRest(s) && AnyRecorded(cfg, probes, s, events)
    requires AllRecovered(cfg, probes, Run(cfg, s, events).logs)
    ensures Run(cfg, s, events).healthy || Hope(Run(cfg, s, events))
    decreases |events|
  {
    var n := |events| - 1;
    var before, e := Run(cfg, s, events[..n]), events[n];
    RunIsFresh(cfg, probes, s, events[..n]);
    if !Records(probes, before, e) {
      OnlyRecordsRecover(cfg, probes, before, e);
      RecoveryIsUnderWay(cfg, probes, s, events[..n]);
    }
    UnderWayStep(cfg, probes, before, e);
  }

  lemma {:induction false} RecordedHappens(cfg: Config, probes: set<string>, s: System, events: seq<Event>, p: string)
    requires p in probes && Recorded(cfg, s, events, p) > 0
    ensures AnyRecorded(cfg, probes, s, events)
    decreases |events|
  {
    var n := |events| - 1;
    if !Records({p}, Run(cfg, s, events[..n]), events[n]) {
      RecordedHappens(cfg, probes, s, events[..n], p);
    }
  }

  /**
   From any connection at rest, tasks that overlap in any way and all succeed, at least as many of each enabled probe as
   its recovery threshold, end healthy, whatever is swept meanwhile.
   */
  lemma SuccessesRestoreHealth(cfg: Config, probes: set<string>, s: System, events: seq<Event>)
    requires GoodRun(cfg, probes, events) && InOrder(cfg, s, events) && probes != {}
    requires AtRest(s) && AtRest(Run(cfg, s, events))
    requires forall p :: p in probes ==> Recorded(cfg, s, events, p) >= cfg[p].recovery
    ensures Run(cfg, s, events).healthy
  {
    var end := Run(cfg, s, events);
    forall p | p in probes ensures Recovered(cfg, end.logs, p) {
      SuccessesMakeStreak(cfg, probes, s, events, p);
    }
    var q :| q in probes;
    RecordedHappens(cfg, probes, s, events, q);
    RecoveryIsUnderWay(cfg, probes, s, events);
    assert forall i :: 0 <= i < |end.tasks| ==> !Hopeful(end.tasks[i]);
  }
}
