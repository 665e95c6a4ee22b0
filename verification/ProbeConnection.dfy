/**
 The connection object that records a probe's outcome, with the health state it loaded, and the cleanup task.
 */
module ProbeConnection {
  import opened ProbeLog
  import opened ProbeTasks
  import opened ProbeHealth
  import opened Sequences

  /** The statement that fails while an outcome is recorded, if any. */
  datatype Fault = NoFault | InsertFails | OwnQueryFails | OtherQueryFails(k: nat) | WriteFails

  /** Query k and the following ones of the first n. */
  function Others(cfg: Config, s: System, n: nat, fault: Fault): System {
    if n == 0 then s else Step(cfg, Others(cfg, s, n - 1, fault), ReadOther(0, fault != OtherQueryFails(n - 1)))
  }

  /** The steps of one task, uninterrupted. */
  function Complete(cfg: Config, s: System, row: Row, enabled: seq<string>, fault: Fault): System {
    var inserted := Step(cfg, s, Insert(0, row, fault != InsertFails));
    var read := Step(cfg, inserted, ReadOwn(0, enabled, fault != OwnQueryFails));
    Step(cfg, Others(cfg, read, |enabled| + 1, fault), Write(0, fault != WriteFails))
  }

  function OtherEvents(n: nat, fault: Fault): seq<Event> {
    if n == 0 then [] else OtherEvents(n - 1, fault) + [ReadOther(0, fault != OtherQueryFails(n - 1))]
  }

  function TaskEvents(row: Row, enabled: seq<string>, fault: Fault): seq<Event> {
    [] + [Insert(0, row, fault != InsertFails)] + [ReadOwn(0, enabled, fault != OwnQueryFails)]
    + OtherEvents(|enabled| + 1, fault) + [Write(0, fault != WriteFails)]
  }

  lemma {:induction false} OthersRun(cfg: Config, s: System, n: nat, fault: Fault)
    ensures Run(cfg, s, OtherEvents(n, fault)) == Others(cfg, s, n, fault)
  {
    if n > 0 {
      OthersRun(cfg, s, n - 1, fault);
      RunSnoc(cfg, s, OtherEvents(n - 1, fault), ReadOther(0, fault != OtherQueryFails(n - 1)));
    }
  }

  /** Recording an outcome in one go is a run of the task's events that nothing interleaves. */
  lemma CompleteIsRun(cfg: Config, s: System, row: Row, enabled: seq<string>, fault: Fault)
    ensures Complete(cfg, s, row, enabled, fault) == Run(cfg, s, TaskEvents(row, enabled, fault))
  {
    var a, b := Insert(0, row, fault != InsertFails), ReadOwn(0, enabled, fault != OwnQueryFails);
    var others, c := OtherEvents(|enabled| + 1, fault), Write(0, fault != WriteFails);
    RunSnoc(cfg, s, [], a);
    RunSnoc(cfg, s, [] + [a], b);
    RunAppends(cfg, s, [] + [a] + [b], others);
    OthersRun(cfg, Run(cfg, s, [] + [a] + [b]), |enabled| + 1, fault);
    RunSnoc(cfg, s, [] + [a] + [b] + others, c);
  }

  /** A connection with one task under way. */
  function OneTask(healthy: bool, logs: map<string, Log>, t: Task): System {
    System(healthy, logs, [t])
  }

  lemma ReadStep(cfg: Config, healthy: bool, logs: map<string, Log>, t: Task, enabled: seq<string>, ok: bool)
    requires t.phase.Inserted? && t.probe in cfg
    ensures Step(cfg, OneTask(healthy, logs, t), ReadOwn(0, enabled, ok)) == OneTask(healthy, logs,
      if ok then t.(phase := AfterOwn(cfg, t, LogOf(logs, t.probe), enabled), since := {}) else t.(phase := Finished))
  {
  }

  lemma OtherStep(cfg: Config, healthy: bool, logs: map<string, Log>, t: Task, ok: bool)
    requires t.phase.Checking?
    ensures Step(cfg, OneTask(healthy, logs, t), ReadOther(0, ok))
      == OneTask(healthy, logs, t.(phase := AfterOther(cfg, t, logs, ok)))
  {
  }

  lemma WriteStep(cfg: Config, healthy: bool, logs: map<string, Log>, t: Task, ok: bool)
    requires t.phase.Writing? || t.phase.Finished?
    ensures Step(cfg, OneTask(healthy, logs, t), Write(0, ok)) ==
      OneTask(if t.phase.Finished? || t.copy == t.phase.to || !ok then healthy else t.phase.to, logs, t.(phase := Finished))
  {
  }

  /** A task that asks no other probe skips those steps. */
  lemma {:induction false} NoOthers(cfg: Config, healthy: bool, logs: map<string, Log>, t: Task, n: nat, fault: Fault)
    requires !t.phase.Checking?
    ensures Others(cfg, OneTask(healthy, logs, t), n, fault) == OneTask(healthy, logs, t)
  {
    if n > 0 {
      NoOthers(cfg, healthy, logs, t, n - 1, fault);
    }
  }

  /** What a task that has recorded an outcome does to the stored health, with nothing in between. */
  function Decided(cfg: Config, healthy: bool, logs: map<string, Log>, t: Task, enabled: seq<string>, fault: Fault): System {
    var read := Step(cfg, OneTask(healthy, logs, t), ReadOwn(0, enabled, fault != OwnQueryFails));
    Step(cfg, Others(cfg, read, |enabled| + 1, fault), Write(0, fault != WriteFails))
  }

  /** A task that asks no other probe. */
  lemma DecidesAtOnce(cfg: Config, healthy: bool, logs: map<string, Log>, t: Task, enabled: seq<string>, fault: Fault)
    requires t.phase.Inserted? && t.probe in cfg && !AfterOwn(cfg, t, LogOf(logs, t.probe), enabled).Checking?
    ensures var phase := if fault == OwnQueryFails then Finished else AfterOwn(cfg, t, LogOf(logs, t.probe), enabled);
      var end := Decided(cfg, healthy, logs, t, enabled, fault);
      && AtRest(end) && end.logs == logs
      && end.healthy == if phase.Finished? || t.copy == phase.to || fault == WriteFails then healthy else phase.to
  {
    ReadStep(cfg, healthy, logs, t, enabled, fault != OwnQueryFails);
    var t' := if fault != OwnQueryFails
      then t.(phase := AfterOwn(cfg, t, LogOf(logs, t.probe), enabled), since := {}) else t.(phase := Finished);
    NoOthers(cfg, healthy, logs, t', |enabled| + 1, fault);
    WriteStep(cfg, healthy, logs, t', fault != WriteFails);
  }

  lemma ReadFails(cfg: Config, healthy: bool, logs: map<string, Log>, t: Task, enabled: seq<string>, fault: Fault)
    requires t.phase.Inserted? && t.probe in cfg && fault == OwnQueryFails
    ensures var end := Decided(cfg, healthy, logs, t, enabled, fault); AtRest(end) && end.logs == logs && end.healthy == healthy
  {
    ReadStep(cfg, healthy, logs, t, enabled, false);
    NoOthers(cfg, healthy, logs, t.(phase := Finished), |enabled| + 1, fault);
    WriteStep(cfg, healthy, logs, t.(phase := Finished), true);
  }

  function Recorded(t: Task, row: Row): Task {
    t.(phase := Inserted(row.success), since := if row.success then t.since else t.since + {t.probe})
  }

  /** The first step of a task: the outcome is stored, or the task ends. */
  lemma CompleteDecides(cfg: Config, healthy: bool, logs: map<string, Log>, t: Task, row: Row, enabled: seq<string>, fault: Fault)
    requires t.phase.Probing? && t.probe in cfg
    ensures var end := Complete(cfg, OneTask(healthy, logs, t), row, enabled, fault);
      if fault == InsertFails then AtRest(end) && end.healthy == healthy && end.logs == logs
      else end == Decided(cfg, healthy, WithRow(logs, t.probe, row), Recorded(t, row), enabled, fault)
  {
    if fault == InsertFails {
      var t' := t.(phase := Finished);
      assert Step(cfg, OneTask(healthy, logs, t), Insert(0, row, false)) == OneTask(healthy, logs, t');
      assert Step(cfg, OneTask(healthy, logs, t'), ReadOwn(0, enabled, true)) == OneTask(healthy, logs, t');
      NoOthers(cfg, healthy, logs, t', |enabled| + 1, fault);
      WriteStep(cfg, healthy, logs, t', true);
    } else {
      assert Step(cfg, OneTask(healthy, logs, t), Insert(0, row, true))
          == OneTask(healthy, WithRow(logs, t.probe, row), Recorded(t, row));
    }
  }

  /** Probe i stands in nobody's way: it is the task's own, or it was asked and is not failing. */
  predicate Passes(cfg: Config, logs: map<string, Log>, probe: string, enabled: seq<string>, i: nat, fault: Fault)
    requires i < |enabled|
  {
    enabled[i] == probe || (fault != OtherQueryFails(i) && !Failing(cfg, logs, enabled[i]))
  }

  predicate Clear(cfg: Config, logs: map<string, Log>, probe: string, enabled: seq<string>, n: nat, fault: Fault)
    requires n <= |enabled|
  {
    forall i :: 0 <= i < n ==> Passes(cfg, logs, probe, enabled, i, fault)
  }

  /** The loop over the enabled probes; nothing is asked about the task's own. */
  method CheckOthers(cfg: Config, enabled: seq<string>, logs: map<string, Log>, probe: string, fault: Fault)
    returns (clear: bool)
    requires forall q :: q in enabled ==> q in cfg
    ensures clear <==> Clear(cfg, logs, probe, enabled, |enabled|, fault)
  {
    for i := 0 to |enabled|
      invariant Clear(cfg, logs, probe, enabled, i, fault)
    {
      var q := enabled[i];
      if q == probe { continue; }
      if fault == OtherQueryFails(i) {
        assert !Passes(cfg, logs, probe, enabled, i, fault);
        return false;
      }
      var streak := ConsecutiveStreak(LogOf(logs, q), false, cfg[q].failure);
      if streak >= cfg[q].failure {
        assert !Passes(cfg, logs, probe, enabled, i, fault);
        return false;
      }
    }
    return true;
  }

  function ClearPhase(cfg: Config, logs: map<string, Log>, probe: string, enabled: seq<string>, n: nat, fault: Fault): Phase
    requires n <= |enabled|
  {
    if Clear(cfg, logs, probe, enabled, n, fault) then Checking(enabled[n..]) else Finished
  }

  lemma ClearPeels(cfg: Config, logs: map<string, Log>, t: Task, enabled: seq<string>, n: nat, fault: Fault)
    requires 0 < n <= |enabled| && t.phase == ClearPhase(cfg, logs, t.probe, enabled, n - 1, fault)
    ensures ClearPhase(cfg, logs, t.probe, enabled, n, fault) ==
      if t.phase.Finished? then Finished else AfterOther(cfg, t, logs, fault != OtherQueryFails(n - 1))
  {
    var passes := Passes(cfg, logs, t.probe, enabled, n - 1, fault);
    assert Clear(cfg, logs, t.probe, enabled, n, fault) <==> Clear(cfg, logs, t.probe, enabled, n - 1, fault) && passes;
    assert enabled[n - 1..][1..] == enabled[n..];
  }

  lemma OtherNoStep(cfg: Config, healthy: bool, logs: map<string, Log>, t: Task, ok: bool)
    requires !t.phase.Checking?
    ensures Step(cfg, OneTask(healthy, logs, t), ReadOther(0, ok)) == OneTask(healthy, logs, t)
  {
  }

  lemma {:induction false} OthersAfter(cfg: Config, healthy: bool, logs: map<string, Log>, t: Task, enabled: seq<string>,
                                       n: nat, fault: Fault)
    requires t.phase == Checking(enabled) && n <= |enabled|
    ensures Others(cfg, OneTask(healthy, logs, t), n, fault)
      == OneTask(healthy, logs, t.(phase := ClearPhase(cfg, logs, t.probe, enabled, n, fault)))
    decreases n
  {
    if n > 0 {
      OthersAfter(cfg, healthy, logs, t, enabled, n - 1, fault);
      var t' := t.(phase := ClearPhase(cfg, logs, t.probe, enabled, n - 1, fault));
      ClearPeels(cfg, logs, t', enabled, n, fault);
      if t'.phase.Finished? {
        OtherNoStep(cfg, healthy, logs, t', fault != OtherQueryFails(n - 1));
      } else {
        OtherStep(cfg, healthy, logs, t', fault != OtherQueryFails(n - 1));
      }
    }
  }

  /** The steps of the loop end with a write exactly when every probe passes. */
  lemma OthersDecide(cfg: Config, healthy: bool, logs: map<string, Log>, t: Task, enabled: seq<string>, fault: Fault)
    requires t.phase == Checking(enabled)
    ensures Others(cfg, OneTask(healthy, logs, t), |enabled| + 1, fault) == OneTask(healthy, logs,
      t.(phase := if Clear(cfg, logs, t.probe, enabled, |enabled|, fault) then Writing(true) else Finished))
  {
    OthersAfter(cfg, healthy, logs, t, enabled, |enabled|, fault);
    var t' := t.(phase := ClearPhase(cfg, logs, t.probe, enabled, |enabled|, fault));
    if t'.phase.Finished? {
      OtherNoStep(cfg, healthy, logs, t', fault != OtherQueryFails(|enabled|));
    } else {
      OtherStep(cfg, healthy, logs, t', fault != OtherQueryFails(|enabled|));
    }
  }

  class ConnectionHealth {
    const cfg: Config
    var healthy: bool
    var logs: map<string, Log>
    var loaded: bool
    var transitions: nat

    constructor (cfg: Config)
      ensures this.cfg == cfg && healthy && logs == map[] && loaded && transitions == 0
    {
      this.cfg, healthy, logs, loaded, transitions := cfg, true, map[], true, 0;
    }

    /** Each task works on a copy that it loads anew. */
    method Load()
      modifies this`loaded
      ensures loaded == healthy
    {
      loaded := healthy;
    }

    /** The only write site: a call that would not change the loaded state writes nothing and emits no event. */
    method MarkHealthState(to: bool, fails: bool) returns (ok: bool)
      modifies this`healthy, this`loaded, this`transitions
      ensures ok <==> loaded == to
      ensures ok <==> to == old(loaded) || !fails
      ensures healthy == if to == old(loaded) || fails then old(healthy) else to
      ensures transitions == old(transitions) + if loaded == old(loaded) then 0 else 1
    {
      if loaded == to { return true; }
      if fails { return false; }
      healthy, loaded := to, to;
      transitions := transitions + 1;
      return true;
    }

    method RecordPeriodicOutcome(enabled: seq<string>, probe: string, row: Row, fault: Fault)
      requires probe in cfg && forall q :: q in enabled ==> q in cfg
      modifies this
      ensures var s := OneTask(old(healthy), old(logs), Task(probe, old(loaded), Probing, {}));
        var end := Complete(cfg, s, row, enabled, fault);
        healthy == end.healthy && logs == end.logs && AtRest(end)
      ensures loaded == old(loaded) ==> healthy == old(healthy)
      ensures loaded != old(loaded) ==> healthy == loaded
      ensures transitions == old(transitions) + if loaded == old(loaded) then 0 else 1
    {
      ghost var t := Task(probe, loaded, Probing, {});
      CompleteDecides(cfg, healthy, logs, t, row, enabled, fault);
      if fault == InsertFails { return; }
      logs := WithRow(logs, probe, row);
      if row.success {
        MaybeRecover(enabled, probe, fault);
      } else {
        DecidesAtOnce(cfg, healthy, logs, Recorded(t, row), enabled, fault);
        if fault == OwnQueryFails { return; }
        var streak := ConsecutiveStreak(LogOf(logs, probe), false, cfg[probe].failure);
        if streak >= cfg[probe].failure { var _ := MarkHealthState(false, fault == WriteFails); }
      }
    }

    method MaybeRecover(enabled: seq<string>, probe: string, fault: Fault)
      requires probe in cfg && forall q :: q in enabled ==> q in cfg
      modifies this`healthy, this`loaded, this`transitions
      ensures var end := Decided(cfg, old(healthy), logs, Task(probe, old(loaded), Inserted(true), {}), enabled, fault);
        healthy == end.healthy && logs == end.logs && AtRest(end)
      ensures loaded == old(loaded) ==> healthy == old(healthy)
      ensures loaded != old(loaded) ==> healthy == loaded
      ensures transitions == old(transitions) + if loaded == old(loaded) then 0 else 1
    {
      ghost var t := Task(probe, loaded, Inserted(true), {});
      if loaded {
        DecidesAtOnce(cfg, healthy, logs, t, enabled, fault);
        return;
      }
      if fault == OwnQueryFails {
        ReadFails(cfg, healthy, logs, t, enabled, fault);
        return;
      }
      var streak := ConsecutiveStreak(LogOf(logs, probe), true, cfg[probe].recovery);
      if streak < cfg[probe].recovery {
        DecidesAtOnce(cfg, healthy, logs, t, enabled, fault);
        return;
      }
      ReadStep(cfg, healthy, logs, t, enabled, true);
      OthersDecide(cfg, healthy, logs, Task(probe, false, Checking(enabled), {}), enabled, fault);
      var clear := CheckOthers(cfg, enabled, logs, probe, fault);
      WriteStep(cfg, healthy, logs, Task(probe, false, if clear then Writing(true) else Finished, {}), fault != WriteFails);
      if clear { var _ := MarkHealthState(true, fault == WriteFails); }
    }

    /** One sweep over the probes that have rows; it stops after `done` probes when a delete fails. */
    method Cleanup(probes: seq<string>, resolved: set<string>, cutoff: int, done: nat)
      requires done <= |probes|
      modifies this`logs
      ensures logs == SweepAll(cfg, System(healthy, old(logs), []), probes[..done], resolved, cutoff).logs
    {
      for i := 0 to done
        invariant System(healthy, logs, []) == SweepAll(cfg, System(healthy, old(logs), []), probes[..i], resolved, cutoff)
      {
        assert probes[..i + 1][..i] == probes[..i];
        logs := logs[probes[i] := DeleteOld(LogOf(logs, probes[i]), KeepMinimum(cfg, resolved, probes[i]), cutoff)];
      }
    }
  }

  /** A sweep prunes each of its probes by that probe's own minimum, and no other. */
  lemma {:induction false} SweepAllPrunes(cfg: Config, s: System, probes: seq<string>, resolved: set<string>,
                                          cutoff: int, p: string)
    requires NoDuplicates(probes)
    ensures var s' := SweepAll(cfg, s, probes, resolved, cutoff);
      && s'.healthy == s.healthy && s'.tasks == s.tasks
      && LogOf(s'.logs, p) ==
         if p in probes then DeleteOld(LogOf(s.logs, p), KeepMinimum(cfg, resolved, p), cutoff) else LogOf(s.logs, p)
    decreases |probes|
  {
    if probes != [] {
      var n := |probes| - 1;
      assert probes == probes[..n] + [probes[n]];
      SweepAllPrunes(cfg, s, probes[..n], resolved, cutoff, p);
    }
  }

  /** A sweep of several probes is the run of its single deletions. */
  function SweepAll(cfg: Config, s: System, probes: seq<string>, resolved: set<string>, cutoff: int): System {
    if probes == [] then s
    else
      var n := |probes| - 1;
      Step(cfg, SweepAll(cfg, s, probes[..n], resolved, cutoff), Sweep(probes[n], resolved, cutoff, 0))
  }
}
