/**
 Probe tasks of one connection, overlapping in any way with each other and with the cleanup task. A task loads the
 connection, runs its probe, inserts the outcome, reads its own streak and, on a success, every other enabled probe's,
 and then may write the health state; each of these is a step of its own. What it decides rests on the health it loaded,
 and a write that would not change that copy is not made.
 */
module ProbeTasks {
  import opened ProbeLog

  datatype Phase =
    | Probing
    | Inserted(success: bool)
    | Checking(todo: seq<string>)
    | Writing(to: bool)
    | Finished

  /** `copy` is the health the task loaded; `since` remembers the probes that failed since it read its own streak. */
  datatype Task = Task(probe: string, copy: bool, phase: Phase, since: set<string>)

  datatype System = System(healthy: bool, logs: map<string, Log>, tasks: seq<Task>)

  /** The statements of a task may fail, which ends it; `Mark` is any other writer of the health state. */
  datatype Event =
    | Begin(probe: string)
    | Insert(i: nat, row: Row, ok: bool)
    | ReadOwn(i: nat, enabled: seq<string>, ok: bool)
    | ReadOther(i: nat, ok: bool)
    | Write(i: nat, ok: bool)
    | Sweep(probe: string, resolved: set<string>, cutoff: int, late: nat)
    | Mark(to: bool)

  type Config = map<string, Thresholds>

  predicate AtThreshold(cfg: Config, log: Log, p: string)
    requires p in cfg
  {
    Capped(log, false, cfg[p].failure) >= cfg[p].failure
  }

  /** What the task does once it has read its own probe's newest rows. */
  function AfterOwn(cfg: Config, t: Task, log: Log, enabled: seq<string>): Phase
    requires t.probe in cfg && t.phase.Inserted?
  {
    if !t.phase.success then
      if AtThreshold(cfg, log, t.probe) then Writing(false) else Finished
    else if t.copy || Capped(log, true, cfg[t.probe].recovery) < cfg[t.probe].recovery then Finished
    else Checking(enabled)
  }

  /** What it does after one more of the other probes: one that is failing, or whose query fails, ends the recovery. */
  function AfterOther(cfg: Config, t: Task, logs: map<string, Log>, ok: bool): Phase
    requires t.phase.Checking?
  {
    var todo := t.phase.todo;
    if todo == [] then Writing(true)
    else if todo[0] != t.probe && (!ok || (todo[0] in cfg && AtThreshold(cfg, LogOf(logs, todo[0]), todo[0]))) then Finished
    else Checking(todo[1..])
  }

  function SetPhase(s: System, i: nat, phase: Phase): System
    requires i < |s.tasks|
  {
    s.(tasks := s.tasks[i := s.tasks[i].(phase := phase)])
  }

  /** Every task remembers a failure of p. */
  function Remember(tasks: seq<Task>, p: string): (r: seq<Task>)
    ensures |r| == |tasks| && forall j :: 0 <= j < |r| ==> r[j] == tasks[j].(since := tasks[j].since + {p})
  {
    seq(|tasks|, j requires 0 <= j < |tasks| => tasks[j].(since := tasks[j].since + {p}))
  }

  function WithRow(logs: map<string, Log>, p: string, row: Row): map<string, Log> {
    logs[p := ProbeLog.Insert(LogOf(logs, p), row)]
  }

  function DoInsert(s: System, i: nat, row: Row): System
    requires i < |s.tasks|
  {
    var p := s.tasks[i].probe;
    var tasks := if row.success then s.tasks else Remember(s.tasks, p);
    SetPhase(System(s.healthy, WithRow(s.logs, p, row), tasks), i, Inserted(row.success))
  }

  function DoReadOwn(cfg: Config, s: System, i: nat, enabled: seq<string>): System
    requires i < |s.tasks| && s.tasks[i].phase.Inserted? && s.tasks[i].probe in cfg
  {
    var t := s.tasks[i];
    var phase := AfterOwn(cfg, t, LogOf(s.logs, t.probe), enabled);
    s.(tasks := s.tasks[i := t.(phase := phase, since := {})])
  }

  /** Idempotent by the task's own copy, not by what is stored. */
  function DoWrite(s: System, i: nat, ok: bool): System
    requires i < |s.tasks| && s.tasks[i].phase.Writing?
  {
    var t := s.tasks[i];
    var s' := SetPhase(s, i, Finished);
    if t.copy == t.phase.to || !ok then s' else s'.(healthy := t.phase.to)
  }

  /** `late` rows came between the query for the rows to keep and the delete; being younger than the cutoff they stay. */
  function DoSweep(cfg: Config, s: System, p: string, resolved: set<string>, cutoff: int, late: nat): System {
    s.(logs := s.logs[p := DeleteOld(LogOf(s.logs, p), KeepMinimum(cfg, resolved, p) + late, cutoff)])
  }

  /** An event that does not fit the state changes nothing. */
  function Step(cfg: Config, s: System, e: Event): System {
    match e
    case Begin(p) => if p in cfg then s.(tasks := s.tasks + [Task(p, s.healthy, Probing, {})]) else s
    case Insert(i, row, ok) =>
      if !(i < |s.tasks| && s.tasks[i].phase.Probing?) then s
      else if ok then DoInsert(s, i, row) else SetPhase(s, i, Finished)
    case ReadOwn(i, enabled, ok) =>
      if !(i < |s.tasks| && s.tasks[i].phase.Inserted? && s.tasks[i].probe in cfg) then s
      else if ok then DoReadOwn(cfg, s, i, enabled) else SetPhase(s, i, Finished)
    case ReadOther(i, ok) =>
      if !(i < |s.tasks| && s.tasks[i].phase.Checking?) then s
      else SetPhase(s, i, AfterOther(cfg, s.tasks[i], s.logs, ok))
    case Write(i, ok) =>
      if !(i < |s.tasks| && s.tasks[i].phase.Writing?) then s else DoWrite(s, i, ok)
    case Sweep(p, resolved, cutoff, late) => DoSweep(cfg, s, p, resolved, cutoff, late)
    case Mark(to) => s.(healthy := to)
  }

  /** The same events on logs that are never pruned. */
  function StepUnpruned(cfg: Config, s: System, e: Event): System {
    if e.Sweep? then s else Step(cfg, s, e)
  }

  function Run(cfg: Config, s: System, events: seq<Event>): System {
    if events == [] then s else Step(cfg, Run(cfg, s, events[..|events| - 1]), events[|events| - 1])
  }

  function RunUnpruned(cfg: Config, s: System, events: seq<Event>): System {
    if events == [] then s else StepUnpruned(cfg, RunUnpruned(cfg, s, events[..|events| - 1]), events[|events| - 1])
  }

  lemma RunSnoc(cfg: Config, s: System, events: seq<Event>, e: Event)
    ensures Run(cfg, s, events + [e]) == Step(cfg, Run(cfg, s, events), e)
    ensures RunUnpruned(cfg, s, events + [e]) == StepUnpruned(cfg, RunUnpruned(cfg, s, events), e)
  {
    assert (events + [e])[..|events|] == events;
  }

  lemma {:induction false} RunAppends(cfg: Config, s: System, a: seq<Event>, b: seq<Event>)
    ensures Run(cfg, s, a + b) == Run(cfg, Run(cfg, s, a), b)
    ensures RunUnpruned(cfg, s, a + b) == RunUnpruned(cfg, RunUnpruned(cfg, s, a), b)
    decreases |b|
  {
    if b == [] {
      assert a + b == a;
    } else {
      var n := |b| - 1;
      RunAppends(cfg, s, a, b[..n]);
      assert (a + b)[..|a + b| - 1] == a + b[..n];
    }
  }

  // ---------------------------------------------------------------------------------------------
  // Sweeps that keep enough change nothing but the logs
  // ---------------------------------------------------------------------------------------------

  /** The sweep resolved its probe, or the probe needs no more rows than are kept by default. */
  predicate Admissible(cfg: Config, e: Event) {
    e.Sweep? && e.probe in cfg ==> e.probe in e.resolved || Needed(cfg[e.probe]) <= DEFAULT_KEEP_MINIMUM
  }

  ghost predicate Agrees(cfg: Config, full: map<string, Log>, pruned: map<string, Log>, p: string)
    requires p in cfg
  {
    AgreesOnNewest(LogOf(full, p), LogOf(pruned, p), Needed(cfg[p]))
  }

  /** Health and every task are the same; only old rows differ. */
  ghost predicate Refines(cfg: Config, full: System, pruned: System) {
    && full.healthy == pruned.healthy && full.tasks == pruned.tasks
    && forall p :: p in cfg ==> Agrees(cfg, full.logs, pruned.logs, p)
  }

  lemma RefinesItself(cfg: Config, s: System)
    ensures Refines(cfg, s, s)
  {
    forall p | p in cfg ensures Agrees(cfg, s.logs, s.logs, p) {
      AgreesWithItself(LogOf(s.logs, p), Needed(cfg[p]));
    }
  }

  lemma AnswersAlike(cfg: Config, full: map<string, Log>, pruned: map<string, Log>, p: string)
    requires p in cfg && Agrees(cfg, full, pruned, p)
    ensures Capped(LogOf(full, p), false, cfg[p].failure) == Capped(LogOf(pruned, p), false, cfg[p].failure)
    ensures Capped(LogOf(full, p), true, cfg[p].recovery) == Capped(LogOf(pruned, p), true, cfg[p].recovery)
  {
    AgreeingLogsAnswerAlike(LogOf(full, p), LogOf(pruned, p), Needed(cfg[p]), false, cfg[p].failure);
    AgreeingLogsAnswerAlike(LogOf(full, p), LogOf(pruned, p), Needed(cfg[p]), true, cfg[p].recovery);
  }

  lemma RowAgrees(cfg: Config, full: map<string, Log>, pruned: map<string, Log>, p: string, row: Row, q: string)
    requires q in cfg && Agrees(cfg, full, pruned, q)
    ensures Agrees(cfg, WithRow(full, p, row), WithRow(pruned, p, row), q)
  {
    if q == p {
      InsertKeepsAgreement(LogOf(full, p), LogOf(pruned, p), Needed(cfg[p]), row);
    }
  }

  /** What a task does next leaves the logs alone. */
  lemma PhaseRefines(cfg: Config, full: System, pruned: System, i: nat, phase: Phase)
    requires Refines(cfg, full, pruned) && i < |full.tasks|
    ensures Refines(cfg, SetPhase(full, i, phase), SetPhase(pruned, i, phase))
  {
    forall p | p in cfg ensures Agrees(cfg, SetPhase(full, i, phase).logs, SetPhase(pruned, i, phase).logs, p) {
      assert Agrees(cfg, full.logs, pruned.logs, p);
    }
  }

  lemma InsertRefines(cfg: Config, full: System, pruned: System, i: nat, row: Row)
    requires Refines(cfg, full, pruned) && i < |full.tasks|
    ensures Refines(cfg, DoInsert(full, i, row), DoInsert(pruned, i, row))
  {
    var p := full.tasks[i].probe;
    forall q | q in cfg ensures Agrees(cfg, WithRow(full.logs, p, row), WithRow(pruned.logs, p, row), q) {
      assert Agrees(cfg, full.logs, pruned.logs, q);
      RowAgrees(cfg, full.logs, pruned.logs, p, row, q);
    }
  }

  lemma SweptAgrees(cfg: Config, full: map<string, Log>, pruned: map<string, Log>, p: string, keep: int, cutoff: int,
                    q: string)
    requires q in cfg && Agrees(cfg, full, pruned, q)
    requires q == p ==> Needed(cfg[q]) <= keep || Needed(cfg[q]) == 0
    ensures Agrees(cfg, full, pruned[p := DeleteOld(LogOf(pruned, p), keep, cutoff)], q)
  {
    if q == p {
      PruneKeepsAgreement(LogOf(full, p), LogOf(pruned, p), Needed(cfg[p]), keep, cutoff);
    }
  }

  lemma SweepRefines(cfg: Config, full: System, pruned: System, e: Event)
    requires Refines(cfg, full, pruned) && e.Sweep? && Admissible(cfg, e)
    ensures Refines(cfg, full, Step(cfg, pruned, e))
  {
    var p, keep := e.probe, KeepMinimum(cfg, e.resolved, e.probe) + e.late;
    var logs := pruned.logs[p := DeleteOld(LogOf(pruned.logs, p), keep, e.cutoff)];
    forall q | q in cfg ensures Agrees(cfg, full.logs, logs, q) {
      assert Agrees(cfg, full.logs, pruned.logs, q);
      SweptAgrees(cfg, full.logs, pruned.logs, p, keep, e.cutoff, q);
    }
    assert Step(cfg, pruned, e) == pruned.(logs := logs);
  }

  /** A sweep that keeps enough changes no answer. */
  lemma SweepKeepsCapped(cfg: Config, s: System, e: Event, p: string, success: bool, limit: int)
    requires e.Sweep? && Admissible(cfg, e) && p in cfg && limit <= Needed(cfg[p])
    ensures Capped(LogOf(Step(cfg, s, e).logs, p), success, limit) == Capped(LogOf(s.logs, p), success, limit)
  {
    RefinesItself(cfg, s);
    SweepRefines(cfg, s, s, e);
    var s' := Step(cfg, s, e);
    assert Agrees(cfg, s.logs, s'.logs, p);
    AgreeingLogsAnswerAlike(LogOf(s.logs, p), LogOf(s'.logs, p), Needed(cfg[p]), success, limit);
  }

  lemma ReadOwnRefines(cfg: Config, full: System, pruned: System, i: nat, enabled: seq<string>)
    requires Refines(cfg, full, pruned) && i < |full.tasks|
    requires full.tasks[i].phase.Inserted? && full.tasks[i].probe in cfg
    ensures Refines(cfg, DoReadOwn(cfg, full, i, enabled), DoReadOwn(cfg, pruned, i, enabled))
  {
    var p := full.tasks[i].probe;
    assert Agrees(cfg, full.logs, pruned.logs, p);
    AnswersAlike(cfg, full.logs, pruned.logs, p);
  }

  lemma ReadOtherRefines(cfg: Config, full: System, pruned: System, i: nat, ok: bool)
    requires Refines(cfg, full, pruned) && i < |full.tasks| && full.tasks[i].phase.Checking?
    ensures AfterOther(cfg, full.tasks[i], full.logs, ok) == AfterOther(cfg, full.tasks[i], pruned.logs, ok)
  {
    var todo := full.tasks[i].phase.todo;
    if todo != [] && todo[0] in cfg {
      assert Agrees(cfg, full.logs, pruned.logs, todo[0]);
      AnswersAlike(cfg, full.logs, pruned.logs, todo[0]);
    }
  }

  lemma TaskStepRefines(cfg: Config, full: System, pruned: System, e: Event)
    requires Refines(cfg, full, pruned) && !e.Begin? && !e.Sweep? && !e.Mark? && e.i < |full.tasks|
    ensures Refines(cfg, Step(cfg, full, e), Step(cfg, pruned, e))
  {
    var t := full.tasks[e.i];
    PhaseRefines(cfg, full, pruned, e.i, Finished);
    match e
    case Insert(i, row, _) =>
      InsertRefines(cfg, full, pruned, i, row);
    case ReadOwn(i, enabled, _) =>
      if t.phase.Inserted? && t.probe in cfg {
        ReadOwnRefines(cfg, full, pruned, i, enabled);
      }
    case ReadOther(i, ok) =>
      if t.phase.Checking? {
        ReadOtherRefines(cfg, full, pruned, i, ok);
        PhaseRefines(cfg, full, pruned, i, AfterOther(cfg, t, full.logs, ok));
      }
    case Write(i, ok) =>
  }

  /** One event on the pruned logs matches the event, or nothing for a sweep, on the full ones. */
  lemma StepRefines(cfg: Config, full: System, pruned: System, e: Event)
    requires Refines(cfg, full, pruned) && Admissible(cfg, e)
    ensures Refines(cfg, StepUnpruned(cfg, full, e), Step(cfg, pruned, e))
  {
    if e.Sweep? {
      SweepRefines(cfg, full, pruned, e);
    } else if !e.Begin? && !e.Mark? && e.i < |full.tasks| {
      TaskStepRefines(cfg, full, pruned, e);
    }
  }

  /**
   For every interleaving of tasks and sweeps, with sweeps anywhere inside a task, health and what every task decides
   are what they would be had nothing been deleted.
   */
  lemma {:induction false} PrunedRunRefinesUnpruned(cfg: Config, s: System, events: seq<Event>)
    requires forall i :: 0 <= i < |events| ==> Admissible(cfg, events[i])
    ensures Refines(cfg, RunUnpruned(cfg, s, events), Run(cfg, s, events))
    decreases |events|
  {
    if events == [] {
      RefinesItself(cfg, s);
    } else {
      var before := events[..|events| - 1];
      PrunedRunRefinesUnpruned(cfg, s, before);
      StepRefines(cfg, RunUnpruned(cfg, s, before), Run(cfg, s, before), events[|events| - 1]);
    }
  }
}
