/**
 What a connection's health says about its probes, over every interleaving of probe tasks and sweeps: when healthy means
 that no enabled probe is failing, and when successes restore health.
 */
module ProbeHealth {
  import opened ProbeLog
  import opened ProbeTasks

  predicate Failing(cfg: Config, logs: map<string, Log>, p: string) {
    p in cfg && AtThreshold(cfg, LogOf(logs, p), p)
  }

  /** A task that has recorded a failure of p and has not yet decided what follows from it. */
  predicate PendingTask(t: Task, p: string) {
    t.probe == p && (t.phase == Inserted(false) || t.phase == Writing(false))
  }

  ghost predicate OtherPending(tasks: seq<Task>, i: int, p: string) {
    exists j :: 0 <= j < |tasks| && j != i && PendingTask(tasks[j], p)
  }

  ghost predicate Pending(tasks: seq<Task>, p: string) {
    OtherPending(tasks, -1, p)
  }

  /** Healthy means that a probe at its failure threshold still has a task that is about to say so. */
  ghost predicate SoundFor(cfg: Config, s: System, p: string) {
    s.healthy && Failing(cfg, s.logs, p) ==> Pending(s.tasks, p)
  }

  ghost predicate Sound(cfg: Config, probes: set<string>, s: System) {
    forall p :: p in probes ==> SoundFor(cfg, s, p)
  }

  /** These probes are enabled whenever a task asks, and sweeps keep what decisions need. */
  ghost predicate Regular(cfg: Config, probes: set<string>, e: Event) {
    && Admissible(cfg, e)
    && (e.ReadOwn? ==> forall p :: p in probes ==> p in e.enabled)
  }

  ghost predicate RegularRun(cfg: Config, probes: set<string>, events: seq<Event>) {
    && WellConfigured(cfg) && probes <= cfg.Keys
    && forall n :: 0 <= n < |events| ==> Regular(cfg, probes, events[n])
  }

  // ---------------------------------------------------------------------------------------------
  // The ways of ending up healthy with a failing probe
  // ---------------------------------------------------------------------------------------------

  /** The event ends a task that found the threshold reached, without a write: it fails, or the task's copy says unhealthy. */
  predicate Abandons(t: Task, e: Event) {
    || (e.ReadOwn? && t.phase == Inserted(false) && !e.ok)
    || (e.Write? && t.phase == Writing(false) && (!e.ok || !t.copy))
  }

  /** The row is healthy by then, and no other task speaks for the probe. */
  ghost predicate LosesFailure(cfg: Config, probes: set<string>, s: System, e: Event) {
    && (e.ReadOwn? || e.Write?) && e.i < |s.tasks| && Abandons(s.tasks[e.i], e)
    && s.healthy
    && var p := s.tasks[e.i].probe; p in probes && Failing(cfg, s.logs, p) && !OtherPending(s.tasks, e.i, p)
  }

  predicate Recovers(s: System, e: Event) {
    e.Write? && e.ok && e.i < |s.tasks| && s.tasks[e.i].phase == Writing(true) && !s.tasks[e.i].copy && !s.healthy
  }

  /** A recovery is written over a probe that failed after the recovering task had begun to look. */
  ghost predicate MissesFailure(cfg: Config, probes: set<string>, s: System, e: Event) {
    && Recovers(s, e)
    && exists p :: p in probes && p in s.tasks[e.i].since && Failing(cfg, s.logs, p) && !Pending(s.tasks, p)
  }

  /** Another writer, such as a token refresh, marks the connection healthy over a failing probe. */
  ghost predicate Overrides(cfg: Config, probes: set<string>, s: System, e: Event) {
    && e.Mark? && e.to && !s.healthy
    && exists p :: p in probes && Failing(cfg, s.logs, p) && !Pending(s.tasks, p)
  }

  ghost predicate Loses(cfg: Config, probes: set<string>, s: System, e: Event) {
    LosesFailure(cfg, probes, s, e) || MissesFailure(cfg, probes, s, e) || Overrides(cfg, probes, s, e)
  }

  // ---------------------------------------------------------------------------------------------
  // What a recovering task knows
  // ---------------------------------------------------------------------------------------------

  /** A probe that may be failing without the task's knowledge. */
  predicate Unchecked(t: Task, p: string) {
    p in t.since || (t.phase.Checking? && p in t.phase.todo && p != t.probe)
  }

  predicate Recovering(t: Task) {
    t.phase.Checking? || t.phase == Writing(true)
  }

  ghost predicate Knows(cfg: Config, probes: set<string>, logs: map<string, Log>, t: Task) {
    Recovering(t) ==> !t.copy && forall p :: p in probes && Failing(cfg, logs, p) ==> Unchecked(t, p)
  }

  ghost predicate AllKnow(cfg: Config, probes: set<string>, s: System) {
    forall i :: 0 <= i < |s.tasks| ==> Knows(cfg, probes, s.logs, s.tasks[i])
  }

  lemma SuccessIsNoFailure(cfg: Config, logs: map<string, Log>, p: string, row: Row, q: string)
    requires row.success && Failing(cfg, WithRow(logs, p, row), q)
    ensures Failing(cfg, logs, q)
  {
    if q == p {
      SuccessNoLonger(LogOf(logs, p), row);
    }
  }

  lemma OtherRow(cfg: Config, logs: map<string, Log>, p: string, row: Row, q: string)
    requires q != p
    ensures Failing(cfg, WithRow(logs, p, row), q) <==> Failing(cfg, logs, q)
  {
  }

  lemma SweepKeepsFailing(cfg: Config, s: System, e: Event, p: string)
    requires e.Sweep? && Admissible(cfg, e)
    ensures Failing(cfg, Step(cfg, s, e).logs, p) <==> Failing(cfg, s.logs, p)
  {
    if p in cfg {
      SweepKeepsCapped(cfg, s, e, p, false, cfg[p].failure);
    }
  }

  /** Enough successes in a row to recover leave no failure streak. */
  lemma RecoveredIsNotFailing(cfg: Config, logs: map<string, Log>, p: string)
    requires WellConfigured(cfg) && p in cfg && Capped(LogOf(logs, p), true, cfg[p].recovery) >= cfg[p].recovery
    ensures !Failing(cfg, logs, p)
  {
    var log := LogOf(logs, p);
    assert Streak(log, true) >= 1;
    assert log[|log| - 1].success;
  }

  lemma InsertKeepsKnowing(cfg: Config, probes: set<string>, logs: map<string, Log>, t: Task, p: string, row: Row)
    requires Knows(cfg, probes, logs, t)
    ensures Knows(cfg, probes, WithRow(logs, p, row), if row.success then t else t.(since := t.since + {p}))
  {
    forall q | q in probes && Failing(cfg, WithRow(logs, p, row), q) && Recovering(t)
      ensures Unchecked(if row.success then t else t.(since := t.since + {p}), q)
    {
      if row.success {
        SuccessIsNoFailure(cfg, logs, p, row, q);
      } else if q != p {
        OtherRow(cfg, logs, p, row, q);
      }
    }
  }

  lemma ReadOwnKnows(cfg: Config, probes: set<string>, logs: map<string, Log>, t: Task, enabled: seq<string>)
    requires WellConfigured(cfg) && t.phase.Inserted? && t.probe in cfg
    requires forall p :: p in probes ==> p in enabled
    ensures Knows(cfg, probes, logs, t.(phase := AfterOwn(cfg, t, LogOf(logs, t.probe), enabled), since := {}))
  {
    var t' := t.(phase := AfterOwn(cfg, t, LogOf(logs, t.probe), enabled), since := {});
    if Recovering(t') {
      RecoveredIsNotFailing(cfg, logs, t.probe);
    }
  }

  lemma ReadOtherKnows(cfg: Config, probes: set<string>, logs: map<string, Log>, t: Task, ok: bool)
    requires t.phase.Checking? && Knows(cfg, probes, logs, t)
    ensures Knows(cfg, probes, logs, t.(phase := AfterOther(cfg, t, logs, ok)))
  {
    var t' := t.(phase := AfterOther(cfg, t, logs, ok));
    forall p | p in probes && Failing(cfg, logs, p) && Recovering(t') ensures Unchecked(t', p) {
      assert Unchecked(t, p);
    }
  }

  lemma SweepKeepsKnowing(cfg: Config, probes: set<string>, s: System, e: Event, t: Task)
    requires e.Sweep? && Admissible(cfg, e) && Knows(cfg, probes, s.logs, t)
    ensures Knows(cfg, probes, Step(cfg, s, e).logs, t)
  {
    forall p | p in probes && Failing(cfg, Step(cfg, s, e).logs, p) && Recovering(t) ensures Unchecked(t, p) {
      SweepKeepsFailing(cfg, s, e, p);
    }
  }

  lemma StepKeepsKnowing(cfg: Config, probes: set<string>, s: System, e: Event)
    requires WellConfigured(cfg) && AllKnow(cfg, probes, s) && Regular(cfg, probes, e)
    ensures AllKnow(cfg, probes, Step(cfg, s, e))
  {
    var s' := Step(cfg, s, e);
    forall j | 0 <= j < |s'.tasks| ensures Knows(cfg, probes, s'.logs, s'.tasks[j]) {
      if j < |s.tasks| {
        TaskKeepsKnowing(cfg, probes, s, e, j);
      }
    }
  }

  lemma InsertStepKnows(cfg: Config, probes: set<string>, s: System, e: Event, j: nat)
    requires AllKnow(cfg, probes, s) && e.Insert? && j < |s.tasks|
    ensures j < |Step(cfg, s, e).tasks| && Knows(cfg, probes, Step(cfg, s, e).logs, Step(cfg, s, e).tasks[j])
  {
    assert Knows(cfg, probes, s.logs, s.tasks[j]);
    if e.i < |s.tasks| {
      InsertKeepsKnowing(cfg, probes, s.logs, s.tasks[j], s.tasks[e.i].probe, e.row);
    }
  }

  lemma TaskKeepsKnowing(cfg: Config, probes: set<string>, s: System, e: Event, j: nat)
    requires WellConfigured(cfg) && AllKnow(cfg, probes, s) && Regular(cfg, probes, e) && j < |s.tasks|
    ensures j < |Step(cfg, s, e).tasks| && Knows(cfg, probes, Step(cfg, s, e).logs, Step(cfg, s, e).tasks[j])
  {
    var t := s.tasks[j];
    assert Knows(cfg, probes, s.logs, t);
    match e
    case Begin(_) =>
    case Insert(i, row, ok) =>
      InsertStepKnows(cfg, probes, s, e, j);
    case ReadOwn(i, enabled, ok) =>
      if i == j && t.phase.Inserted? && t.probe in cfg {
        ReadOwnKnows(cfg, probes, s.logs, t, enabled);
      }
    case ReadOther(i, ok) =>
      if i == j && t.phase.Checking? {
        ReadOtherKnows(cfg, probes, s.logs, t, ok);
      }
    case Write(i, ok) =>
    case Sweep(_, _, _, _) =>
      SweepKeepsKnowing(cfg, probes, s, e, t);
    case Mark(_) =>
  }

  // ---------------------------------------------------------------------------------------------
  // Exactly the events that lose a failure make health wrong
  // ---------------------------------------------------------------------------------------------

  /** Probe and phase of every other task stay. */
  ghost predicate SameButFor(a: seq<Task>, b: seq<Task>, i: nat) {
    && i < |a| == |b|
    && forall j :: 0 <= j < |a| && j != i ==> b[j].probe == a[j].probe && b[j].phase == a[j].phase
  }

  lemma PendingSplits(tasks: seq<Task>, i: nat, p: string)
    requires i < |tasks|
    ensures Pending(tasks, p) <==> OtherPending(tasks, i, p) || PendingTask(tasks[i], p)
  {
    if PendingTask(tasks[i], p) {
      assert Pending(tasks, p);
    }
  }

  lemma OtherPendingStays(a: seq<Task>, b: seq<Task>, i: nat, p: string)
    requires SameButFor(a, b, i)
    ensures OtherPending(a, i, p) <==> OtherPending(b, i, p)
  {
    if OtherPending(a, i, p) {
      var j :| 0 <= j < |a| && j != i && PendingTask(a[j], p);
      assert PendingTask(b[j], p);
    }
    if OtherPending(b, i, p) {
      var j :| 0 <= j < |b| && j != i && PendingTask(b[j], p);
      assert PendingTask(a[j], p);
    }
  }

  lemma PendingAfter(a: seq<Task>, b: seq<Task>, i: nat, p: string)
    requires SameButFor(a, b, i)
    ensures Pending(a, p) <==> OtherPending(a, i, p) || PendingTask(a[i], p)
    ensures Pending(b, p) <==> OtherPending(a, i, p) || PendingTask(b[i], p)
  {
    PendingSplits(a, i, p);
    PendingSplits(b, i, p);
    OtherPendingStays(a, b, i, p);
  }

  lemma BeginKeepsPending(tasks: seq<Task>, t: Task, p: string)
    requires t.phase.Probing?
    ensures Pending(tasks, p) <==> Pending(tasks + [t], p)
  {
    if Pending(tasks, p) {
      var j :| 0 <= j < |tasks| && PendingTask(tasks[j], p);
      assert PendingTask((tasks + [t])[j], p);
    }
  }

  lemma InsertKeepsSound(cfg: Config, s: System, i: nat, row: Row, p: string)
    requires i < |s.tasks| && s.tasks[i].phase.Probing? && SoundFor(cfg, s, p)
    ensures SoundFor(cfg, DoInsert(s, i, row), p)
  {
    var q := s.tasks[i].probe;
    PendingAfter(s.tasks, DoInsert(s, i, row).tasks, i, p);
    if q != p {
      OtherRow(cfg, s.logs, q, row, p);
    } else if row.success && Failing(cfg, WithRow(s.logs, q, row), p) {
      SuccessIsNoFailure(cfg, s.logs, q, row, p);
    }
  }

  lemma ReadOwnKeepsSound(cfg: Config, s: System, i: nat, enabled: seq<string>, p: string)
    requires i < |s.tasks| && s.tasks[i].phase.Inserted? && s.tasks[i].probe in cfg && SoundFor(cfg, s, p)
    ensures SoundFor(cfg, DoReadOwn(cfg, s, i, enabled), p)
  {
    PendingAfter(s.tasks, DoReadOwn(cfg, s, i, enabled).tasks, i, p);
  }

  /** An event that is neither a write nor a failing read of a recorded failure. */
  lemma HarmlessKeepsSound(cfg: Config, s: System, e: Event, p: string)
    requires Admissible(cfg, e) && SoundFor(cfg, s, p) && !e.Write? && !e.Mark?
    requires e.ReadOwn? && e.i < |s.tasks| ==> !Abandons(s.tasks[e.i], e)
    ensures SoundFor(cfg, Step(cfg, s, e), p)
  {
    match e
    case Begin(q) =>
      BeginKeepsPending(s.tasks, Task(q, s.healthy, Probing, {}), p);
    case Insert(i, row, ok) =>
      if i < |s.tasks| && s.tasks[i].phase.Probing? {
        InsertKeepsSound(cfg, s, i, row, p);
        PendingAfter(s.tasks, SetPhase(s, i, Finished).tasks, i, p);
      }
    case ReadOwn(i, enabled, ok) =>
      if i < |s.tasks| && s.tasks[i].phase.Inserted? && s.tasks[i].probe in cfg {
        ReadOwnKeepsSound(cfg, s, i, enabled, p);
        PendingAfter(s.tasks, SetPhase(s, i, Finished).tasks, i, p);
      }
    case ReadOther(i, ok) =>
      if i < |s.tasks| {
        PendingAfter(s.tasks, Step(cfg, s, e).tasks, i, p);
      }
    case Sweep(_, _, _, _) =>
      SweepKeepsFailing(cfg, s, e, p);
  }

  /** The end of a task that abandons a failure. */
  lemma AbandoningIsSoundIff(cfg: Config, probes: set<string>, s: System, e: Event, p: string)
    requires probes <= cfg.Keys && p in probes && SoundFor(cfg, s, p)
    requires (e.ReadOwn? || e.Write?) && e.i < |s.tasks| && Abandons(s.tasks[e.i], e)
    ensures SoundFor(cfg, Step(cfg, s, e), p) <==> !(s.tasks[e.i].probe == p && LosesFailure(cfg, probes, s, e))
  {
    PendingAfter(s.tasks, Step(cfg, s, e).tasks, e.i, p);
  }

  lemma RecoveryIsSoundFor(cfg: Config, s: System, e: Event, p: string)
    requires Recovers(s, e)
    ensures SoundFor(cfg, Step(cfg, s, e), p) <==> (Failing(cfg, s.logs, p) ==> Pending(s.tasks, p))
  {
    PendingAfter(s.tasks, Step(cfg, s, e).tasks, e.i, p);
  }

  lemma RecoveryIsSoundIff(cfg: Config, probes: set<string>, s: System, e: Event)
    requires AllKnow(cfg, probes, s) && Recovers(s, e)
    ensures Sound(cfg, probes, Step(cfg, s, e)) <==> !MissesFailure(cfg, probes, s, e)
  {
    assert Knows(cfg, probes, s.logs, s.tasks[e.i]);
    forall p | p in probes
      ensures SoundFor(cfg, Step(cfg, s, e), p) <==> (Failing(cfg, s.logs, p) ==> Pending(s.tasks, p))
      ensures Failing(cfg, s.logs, p) ==> p in s.tasks[e.i].since
    {
      RecoveryIsSoundFor(cfg, s, e, p);
      assert Failing(cfg, s.logs, p) ==> Unchecked(s.tasks[e.i], p);
    }
  }

  lemma OtherWriteKeepsSound(cfg: Config, s: System, e: Event, p: string)
    requires e.Write? && SoundFor(cfg, s, p) && !Recovers(s, e)
    requires e.i < |s.tasks| ==> !Abandons(s.tasks[e.i], e)
    ensures SoundFor(cfg, Step(cfg, s, e), p)
  {
    if e.i < |s.tasks| {
      PendingAfter(s.tasks, Step(cfg, s, e).tasks, e.i, p);
    }
  }

  predicate Ends(s: System, e: Event) {
    (e.ReadOwn? || e.Write?) && e.i < |s.tasks| && Abandons(s.tasks[e.i], e)
  }

  lemma MarkIsSoundIff(cfg: Config, probes: set<string>, s: System, e: Event)
    requires e.Mark? && Sound(cfg, probes, s)
    ensures Sound(cfg, probes, Step(cfg, s, e)) <==> !Overrides(cfg, probes, s, e)
  {
    forall p | p in probes
      ensures SoundFor(cfg, Step(cfg, s, e), p) <==> (e.to && Failing(cfg, s.logs, p) ==> Pending(s.tasks, p))
      ensures s.healthy && Failing(cfg, s.logs, p) ==> Pending(s.tasks, p)
    {
      assert SoundFor(cfg, s, p);
    }
  }

  lemma StepIsSoundIff(cfg: Config, probes: set<string>, s: System, e: Event)
    requires WellConfigured(cfg) && probes <= cfg.Keys && Regular(cfg, probes, e)
    requires AllKnow(cfg, probes, s) && Sound(cfg, probes, s)
    ensures Sound(cfg, probes, Step(cfg, s, e)) <==> !Loses(cfg, probes, s, e)
  {
    if e.Mark? {
      MarkIsSoundIff(cfg, probes, s, e);
    } else if Recovers(s, e) {
      RecoveryIsSoundIff(cfg, probes, s, e);
    } else if Ends(s, e) {
      forall p | p in probes
        ensures SoundFor(cfg, Step(cfg, s, e), p) <==> !(s.tasks[e.i].probe == p && LosesFailure(cfg, probes, s, e))
      {
        AbandoningIsSoundIff(cfg, probes, s, e, p);
      }
    } else {
      forall p | p in probes ensures SoundFor(cfg, Step(cfg, s, e), p) {
        assert SoundFor(cfg, s, p);
        if e.Write? {
          OtherWriteKeepsSound(cfg, s, e, p);
        } else {
          HarmlessKeepsSound(cfg, s, e, p);
        }
      }
    }
  }

  // ---------------------------------------------------------------------------------------------
  // Whole runs
  // ---------------------------------------------------------------------------------------------

  /** Up to and including the state after all events. */
  ghost predicate AlwaysSound(cfg: Config, probes: set<string>, s: System, events: seq<Event>) {
    forall n :: 0 <= n <= |events| ==> Sound(cfg, probes, Run(cfg, s, events[..n]))
  }

  ghost predicate NeverLoses(cfg: Config, probes: set<string>, s: System, events: seq<Event>) {
    forall n :: 0 <= n < |events| ==> !LosesAt(cfg, probes, s, events, n)
  }

  ghost predicate LosesAt(cfg: Config, probes: set<string>, s: System, events: seq<Event>, n: nat)
    requires n < |events|
  {
    Loses(cfg, probes, Run(cfg, s, events[..n]), events[n])
  }

  lemma {:induction false} RunKnows(cfg: Config, probes: set<string>, s: System, events: seq<Event>)
    requires s.tasks == [] && RegularRun(cfg, probes, events)
    ensures AllKnow(cfg, probes, Run(cfg, s, events))
    decreases |events|
  {
    if events != [] {
      var n := |events| - 1;
      RunKnows(cfg, probes, s, events[..n]);
      StepKeepsKnowing(cfg, probes, Run(cfg, s, events[..n]), events[n]);
    }
  }

  lemma StepOfRun(cfg: Config, s: System, events: seq<Event>, n: nat)
    requires n < |events|
    ensures Run(cfg, s, events[..n + 1]) == Step(cfg, Run(cfg, s, events[..n]), events[n])
  {
    assert events[..n + 1][..n] == events[..n];
  }

  lemma SoundStepIff(cfg: Config, probes: set<string>, s: System, events: seq<Event>, n: nat)
    requires s.tasks == [] && RegularRun(cfg, probes, events) && n < |events|
    requires Sound(cfg, probes, Run(cfg, s, events[..n]))
    ensures Sound(cfg, probes, Run(cfg, s, events[..n + 1])) <==> !LosesAt(cfg, probes, s, events, n)
  {
    RunKnows(cfg, probes, s, events[..n]);
    StepIsSoundIff(cfg, probes, Run(cfg, s, events[..n]), events[n]);
    StepOfRun(cfg, s, events, n);
  }

  lemma {:induction false} NeverLosesIsSound(cfg: Config, probes: set<string>, s: System, events: seq<Event>, n: nat)
    requires s.tasks == [] && RegularRun(cfg, probes, events) && n <= |events|
    requires Sound(cfg, probes, s) && NeverLoses(cfg, probes, s, events)
    ensures Sound(cfg, probes, Run(cfg, s, events[..n]))
    decreases n
  {
    if n > 0 {
      NeverLosesIsSound(cfg, probes, s, events, n - 1);
      SoundStepIff(cfg, probes, s, events, n - 1);
    }
  }

  /**
   Over every run of overlapping tasks, healthy always means that no enabled probe is failing, but for one whose task is
   about to say so, exactly when no event loses a failure.
   */
  lemma AlwaysSoundIff(cfg: Config, probes: set<string>, s: System, events: seq<Event>)
    requires s.tasks == [] && RegularRun(cfg, probes, events)
    ensures AlwaysSound(cfg, probes, s, events) <==> Sound(cfg, probes, s) && NeverLoses(cfg, probes, s, events)
  {
    if AlwaysSound(cfg, probes, s, events) {
      assert events[..0] == [] && Sound(cfg, probes, Run(cfg, s, events[..0]));
      forall n | 0 <= n < |events| ensures !LosesAt(cfg, probes, s, events, n) {
        assert Sound(cfg, probes, Run(cfg, s, events[..n])) && Sound(cfg, probes, Run(cfg, s, events[..n + 1]));
        SoundStepIff(cfg, probes, s, events, n);
      }
    }
    if Sound(cfg, probes, s) && NeverLoses(cfg, probes, s, events) {
      forall n | 0 <= n <= |events| ensures Sound(cfg, probes, Run(cfg, s, events[..n])) {
        NeverLosesIsSound(cfg, probes, s, events, n);
      }
    }
  }

  predicate AtRest(s: System) {
    forall i :: 0 <= i < |s.tasks| ==> s.tasks[i].phase.Finished?
  }

  /** Once every task is through, healthy means that no enabled probe is failing, deleted rows included. */
  lemma HealthyMeansNoFailingProbe(cfg: Config, probes: set<string>, s: System, events: seq<Event>)
    requires s.tasks == [] && RegularRun(cfg, probes, events) && Sound(cfg, probes, s)
    requires NeverLoses(cfg, probes, s, events)
    requires Run(cfg, s, events).healthy && AtRest(Run(cfg, s, events))
    ensures forall p :: p in probes ==> !Failing(cfg, RunUnpruned(cfg, s, events).logs, p)
  {
    NeverLosesIsSound(cfg, probes, s, events, |events|);
    assert events[..|events|] == events;
    PrunedRunRefinesUnpruned(cfg, s, events);
    var end, full := Run(cfg, s, events), RunUnpruned(cfg, s, events);
    forall p | p in probes ensures !Failing(cfg, full.logs, p) {
      assert SoundFor(cfg, end, p) && !Pending(end.tasks, p);
      assert Agrees(cfg, full.logs, end.logs, p);
      AnswersAlike(cfg, full.logs, end.logs, p);
    }
  }

  // ---------------------------------------------------------------------------------------------
  // One task at a time
  // ---------------------------------------------------------------------------------------------

  /** A sweep, or a step of a task that does not fail. */
  predicate Succeeds(e: Event) {
    match e
    case Begin(_) => true
    case Sweep(_, _, _, _) => true
    case Mark(_) => false
    case _ => e.ok
  }

  /** A task begins only once all others are through, nothing fails, and there is no other writer. */
  ghost predicate OneAtATime(cfg: Config, s: System, events: seq<Event>) {
    forall n :: 0 <= n < |events| ==>
      Succeeds(events[n]) && (events[n].Begin? ==> AtRest(Run(cfg, s, events[..n])))
  }

  /** A task that is alone has an up-to-date copy and misses nothing. */
  predicate UpToDate(s: System, t: Task) {
    t.phase.Finished? || (t.copy == s.healthy && (Recovering(t) ==> t.since == {}))
  }

  predicate Alone(s: System) {
    && (forall i :: 0 <= i < |s.tasks| - 1 ==> s.tasks[i].phase.Finished?)
    && (s.tasks != [] ==> UpToDate(s, s.tasks[|s.tasks| - 1]))
  }

  lemma StepKeepsAlone(cfg: Config, s: System, e: Event)
    requires Alone(s) && Succeeds(e) && (e.Begin? ==> AtRest(s))
    ensures Alone(Step(cfg, s, e))
  {
  }

  lemma AloneNeverLoses(cfg: Config, probes: set<string>, s: System, e: Event)
    requires Alone(s) && Succeeds(e)
    ensures !Loses(cfg, probes, s, e)
  {
  }

  lemma {:induction false} OneAtATimeIsAlone(cfg: Config, s: System, events: seq<Event>, n: nat)
    requires s.tasks == [] && OneAtATime(cfg, s, events) && n <= |events|
    ensures Alone(Run(cfg, s, events[..n]))
    decreases n
  {
    if n > 0 {
      OneAtATimeIsAlone(cfg, s, events, n - 1);
      StepOfRun(cfg, s, events, n - 1);
      StepKeepsAlone(cfg, Run(cfg, s, events[..n - 1]), events[n - 1]);
    }
  }

  /** Tasks that do not overlap never make health wrong. */
  lemma OneAtATimeIsSound(cfg: Config, probes: set<string>, s: System, events: seq<Event>)
    requires s.tasks == [] && RegularRun(cfg, probes, events) && OneAtATime(cfg, s, events) && Sound(cfg, probes, s)
    ensures NeverLoses(cfg, probes, s, events) && AlwaysSound(cfg, probes, s, events)
  {
    forall n | 0 <= n < |events| ensures !LosesAt(cfg, probes, s, events, n) {
      OneAtATimeIsAlone(cfg, s, events, n);
      AloneNeverLoses(cfg, probes, Run(cfg, s, events[..n]), events[n]);
    }
    AlwaysSoundIff(cfg, probes, s, events);
  }
}
