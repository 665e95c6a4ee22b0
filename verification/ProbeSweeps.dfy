/**
 Sweeps that could not resolve a probe, and so keep the default number of rows, whatever the probe's thresholds.
 */
module ProbeSweeps {
  import opened ProbeLog
  import opened ProbeTasks

  /** Health at the end of some run from a connection at rest depends on what was swept. */
  ghost predicate Differs(cfg: Config, s: System, events: seq<Event>) {
    s.tasks == [] && Run(cfg, s, events).healthy != RunUnpruned(cfg, s, events).healthy
  }

  ghost predicate SweepsNeverMatter(cfg: Config) {
    forall s, events :: !Differs(cfg, s, events)
  }

  /** No threshold is above the number of rows kept by default. */
  predicate Modest(cfg: Config) {
    forall p :: p in cfg ==> Needed(cfg[p]) <= DEFAULT_KEEP_MINIMUM
  }

  lemma ModestIsAdmissible(cfg: Config, e: Event)
    requires WellConfigured(cfg) && Modest(cfg)
    ensures Admissible(cfg, e)
  {
  }

  // ---------------------------------------------------------------------------------------------
  // A sweep between a task's insert and its first query
  // ---------------------------------------------------------------------------------------------

  lemma SteadyInsert(success: bool, n: nat)
    ensures ProbeLog.Insert(Steady(success, n), Row(success, n)) == Steady(success, n + 1)
  {
  }

  lemma SteadyStreak(success: bool, n: nat)
    ensures Streak(Steady(success, n), success) == n
  {
    StreakIs(Steady(success, n), success, n);
  }

  /** What the sweep leaves is at most the default. */
  lemma SweptLog(success: bool, n: nat)
    requires n >= DEFAULT_KEEP_MINIMUM
    ensures |DeleteOld(Steady(success, n + 1), DEFAULT_KEEP_MINIMUM, n)| <= DEFAULT_KEEP_MINIMUM
  {
    DeleteOldPeels(Steady(success, n + 1), DEFAULT_KEEP_MINIMUM, n);
    DeleteAllOld(Steady(success, n + 1)[..n], DEFAULT_KEEP_MINIMUM - 1, n);
  }

  function Start(p: string, success: bool, n: nat): System {
    System(!success, map[p := Steady(success, n)], [])
  }

  /** The task loads the connection, inserts one more outcome, and is swept before it reads. */
  function SweptTask(p: string, success: bool, n: nat): seq<Event> {
    [] + [Begin(p)] + [Insert(0, Row(success, n), true)] + [Sweep(p, {}, n, 0)]
  }

  function Inserting(p: string, success: bool): Task {
    Task(p, !success, Inserted(success), if success then {} else {p})
  }

  lemma BeforeSweep(cfg: Config, p: string, success: bool, n: nat)
    requires p in cfg && n >= DEFAULT_KEEP_MINIMUM
    ensures Step(cfg, Step(cfg, Start(p, success, n), Begin(p)), Insert(0, Row(success, n), true))
      == System(!success, map[p := Steady(success, n + 1)], [Inserting(p, success)])
  {
    SteadyInsert(success, n);
    var s := Step(cfg, Start(p, success, n), Begin(p));
    assert s.tasks == [Task(p, !success, Probing, {})];
    var none: set<string> := {};
    assert none + {p} == {p};
  }

  lemma SweepOnly(cfg: Config, p: string, success: bool, log: Log, n: nat)
    ensures Step(cfg, System(!success, map[p := log], [Inserting(p, success)]), Sweep(p, {}, n, 0))
      == System(!success, map[p := DeleteOld(log, DEFAULT_KEEP_MINIMUM, n)], [Inserting(p, success)])
  {
  }

  lemma AfterSweep(cfg: Config, p: string, success: bool, n: nat)
    requires p in cfg && n >= DEFAULT_KEEP_MINIMUM
    ensures var s := Start(p, success, n);
      var logs := map[p := Steady(success, n + 1)];
      var swept := map[p := DeleteOld(Steady(success, n + 1), DEFAULT_KEEP_MINIMUM, n)];
      && RunUnpruned(cfg, s, SweptTask(p, success, n)) == System(!success, logs, [Inserting(p, success)])
      && Run(cfg, s, SweptTask(p, success, n)) == System(!success, swept, [Inserting(p, success)])
  {
    var s, a, b, c := Start(p, success, n), Begin(p), Insert(0, Row(success, n), true), Sweep(p, {}, n, 0);
    RunSnoc(cfg, s, [], a);
    RunSnoc(cfg, s, [] + [a], b);
    RunSnoc(cfg, s, [] + [a] + [b], c);
    BeforeSweep(cfg, p, success, n);
    SweepOnly(cfg, p, success, Steady(success, n + 1), n);
  }

  function Threshold(cfg: Config, p: string, success: bool): int
    requires p in cfg
  {
    if success then cfg[p].recovery else cfg[p].failure
  }

  /** What follows on the swept log: the streak falls short, and the task ends. */
  lemma SweptReadEnds(cfg: Config, p: string, success: bool, log: Log)
    requires p in cfg && |log| <= DEFAULT_KEEP_MINIMUM
    requires DEFAULT_KEEP_MINIMUM < Threshold(cfg, p, success)
    ensures AfterOwn(cfg, Inserting(p, success), log, []) == Finished
  {
  }

  lemma FullReadGoesOn(cfg: Config, p: string, success: bool, log: Log)
    requires p in cfg && WellConfigured(cfg)
    requires Streak(log, success) >= Threshold(cfg, p, success)
    ensures AfterOwn(cfg, Inserting(p, success), log, []) == if success then Checking([]) else Writing(false)
  {
  }

  /** The steps that turn the full log's streak into a health state; on the swept log they find a task that is through. */
  function Rest(success: bool): seq<Event> {
    if success then [] + [ReadOwn(0, [], true)] + [ReadOther(0, true)] + [Write(0, true)]
    else [] + [ReadOwn(0, [], true)] + [Write(0, true)]
  }

  lemma RestRuns(cfg: Config, s: System, success: bool)
    ensures var r := Step(cfg, s, ReadOwn(0, [], true));
      Run(cfg, s, Rest(success)) == RunUnpruned(cfg, s, Rest(success))
      == Step(cfg, if success then Step(cfg, r, ReadOther(0, true)) else r, Write(0, true))
  {
    var a, b, c := ReadOwn(0, [], true), ReadOther(0, true), Write(0, true);
    RunSnoc(cfg, s, [], a);
    RunSnoc(cfg, s, [] + [a], b);
    RunSnoc(cfg, s, [] + [a], c);
    RunSnoc(cfg, s, [] + [a] + [b], c);
  }

  lemma FullRest(cfg: Config, p: string, success: bool, log: Log)
    requires p in cfg && WellConfigured(cfg)
    requires Streak(log, success) >= Threshold(cfg, p, success)
    ensures RunUnpruned(cfg, System(!success, map[p := log], [Inserting(p, success)]), Rest(success)).healthy == success
  {
    var s := System(!success, map[p := log], [Inserting(p, success)]);
    var r := Step(cfg, s, ReadOwn(0, [], true));
    assert r.tasks == [Task(p, !success, if success then Checking([]) else Writing(false), {})] by {
      FullReadGoesOn(cfg, p, success, log);
    }
    var w := if success then Step(cfg, r, ReadOther(0, true)) else r;
    assert w.healthy == !success && w.tasks == [Task(p, !success, Writing(success), {})];
    RestRuns(cfg, s, success);
  }

  lemma SweptRest(cfg: Config, p: string, success: bool, log: Log)
    requires p in cfg && |log| <= DEFAULT_KEEP_MINIMUM
    requires DEFAULT_KEEP_MINIMUM < Threshold(cfg, p, success)
    ensures Run(cfg, System(!success, map[p := log], [Inserting(p, success)]), Rest(success)).healthy == !success
  {
    var s := System(!success, map[p := log], [Inserting(p, success)]);
    var r := Step(cfg, s, ReadOwn(0, [], true));
    assert r.healthy == !success && r.tasks[0].phase == Finished by {
      SweptReadEnds(cfg, p, success, log);
    }
    assert Step(cfg, r, ReadOther(0, true)) == r && Step(cfg, r, Write(0, true)) == r;
    RestRuns(cfg, s, success);
  }

  lemma FullEnds(cfg: Config, p: string, success: bool, n: nat)
    requires p in cfg && WellConfigured(cfg) && DEFAULT_KEEP_MINIMUM <= n && n + 1 == Threshold(cfg, p, success)
    ensures RunUnpruned(cfg, Start(p, success, n), SweptTask(p, success, n) + Rest(success)).healthy == success
  {
    AfterSweep(cfg, p, success, n);
    SteadyStreak(success, n + 1);
    RunAppends(cfg, Start(p, success, n), SweptTask(p, success, n), Rest(success));
    FullRest(cfg, p, success, Steady(success, n + 1));
  }

  lemma SweptEnds(cfg: Config, p: string, success: bool, n: nat)
    requires p in cfg && DEFAULT_KEEP_MINIMUM <= n && n + 1 == Threshold(cfg, p, success)
    ensures Run(cfg, Start(p, success, n), SweptTask(p, success, n) + Rest(success)).healthy == !success
  {
    AfterSweep(cfg, p, success, n);
    SweptLog(success, n);
    RunAppends(cfg, Start(p, success, n), SweptTask(p, success, n), Rest(success));
    SweptRest(cfg, p, success, DeleteOld(Steady(success, n + 1), DEFAULT_KEEP_MINIMUM, n));
  }

  /** A streak that reaches the threshold is cut by a sweep before the task reads it, and is not noticed. */
  lemma StreakCut(cfg: Config, p: string, success: bool)
    requires p in cfg && WellConfigured(cfg) && DEFAULT_KEEP_MINIMUM < Threshold(cfg, p, success)
    ensures var n := Threshold(cfg, p, success) - 1;
      Differs(cfg, Start(p, success, n), SweptTask(p, success, n) + Rest(success))
  {
    var n := Threshold(cfg, p, success) - 1;
    FullEnds(cfg, p, success, n);
    SweptEnds(cfg, p, success, n);
  }

  /**
   Sweeps, resolved or not and anywhere between the steps of tasks, never change health in any run from a connection at
   rest, if and only if no threshold is above the default minimum.
   */
  lemma SweepsNeverMatterIff(cfg: Config)
    requires WellConfigured(cfg)
    ensures SweepsNeverMatter(cfg) <==> Modest(cfg)
  {
    if Modest(cfg) {
      forall s, events ensures !Differs(cfg, s, events) {
        forall i | 0 <= i < |events| ensures Admissible(cfg, events[i]) {
          ModestIsAdmissible(cfg, events[i]);
        }
        PrunedRunRefinesUnpruned(cfg, s, events);
      }
    } else {
      var p :| p in cfg && Needed(cfg[p]) > DEFAULT_KEEP_MINIMUM;
      StreakCut(cfg, p, cfg[p].failure <= DEFAULT_KEEP_MINIMUM);
    }
  }
}
