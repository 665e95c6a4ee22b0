/**
 Runs of two overlapping probe tasks that leave a connection healthy with a failing probe, or unhealthy with none.
 */
module ProbeOverlaps {
  import opened ProbeLog
  import opened ProbeTasks
  import opened ProbeHealth
  import opened ProbeRecovery

  /** Each state follows from the one before by its event. */
  ghost predicate Chain(cfg: Config, states: seq<System>, events: seq<Event>) {
    |states| == |events| + 1 && forall n :: 0 <= n < |events| ==> states[n + 1] == Step(cfg, states[n], events[n])
  }

  lemma {:induction false} ChainRuns(cfg: Config, states: seq<System>, events: seq<Event>)
    requires Chain(cfg, states, events)
    ensures Run(cfg, states[0], events) == states[|events|]
    decreases |events|
  {
    if events != [] {
      var n := |events| - 1;
      ChainRuns(cfg, states[..n + 1], events[..n]);
    }
  }

  const CFG: Config := map["p" := Thresholds(2, 1), "q" := Thresholds(1, 1)]
  const ENABLED := ["p", "q"]

  const FAILED := map["p" := [Row(false, 1)], "q" := [Row(false, 0)]]
  const RECOVERED := map["p" := [Row(false, 1)], "q" := [Row(false, 0), Row(true, 2)]]
  const FAILED_AGAIN := map["p" := [Row(false, 1), Row(false, 3)], "q" := [Row(false, 0), Row(true, 2)]]

  /** Two tasks that both loaded the connection while it was unhealthy. */
  function Two(healthy: bool, logs: map<string, Log>, p: Phase, q: Phase): System {
    System(healthy, logs, [Task("p", false, p, {}), Task("q", false, q, {})])
  }

  lemma Moves(healthy: bool, logs: map<string, Log>, p: Task, q: Task, to: Phase)
    ensures SetPhase(System(healthy, logs, [p, q]), 0, to) == System(healthy, logs, [p.(phase := to), q])
    ensures SetPhase(System(healthy, logs, [p, q]), 1, to) == System(healthy, logs, [p, q.(phase := to)])
  {
  }

  lemma Inserts()
    ensures WithRow(FAILED, "q", Row(true, 2)) == RECOVERED
    ensures WithRow(RECOVERED, "p", Row(false, 3)) == FAILED_AGAIN
  {
    assert FAILED["q"] + [Row(true, 2)] == RECOVERED["q"];
    assert RECOVERED["p"] + [Row(false, 3)] == FAILED_AGAIN["p"];
  }

  lemma Streaks()
    ensures Capped(RECOVERED["q"], true, 1) == 1 && Capped(RECOVERED["p"], false, 2) == 1
    ensures Capped(FAILED_AGAIN["p"], false, 2) == 2
  {
    StreakIs(RECOVERED["q"], true, 1);
    StreakIs(FAILED_AGAIN["p"], false, 2);
  }

  const RESTING := System(false, FAILED, [])

  /** q records its success and finds nothing against a recovery. */
  const CHECKS := [Begin("p"), Begin("q"), Insert(1, Row(true, 2), true), ReadOwn(1, ENABLED, true),
                   ReadOther(1, true), ReadOther(1, true), ReadOther(1, true)]
  const CHECKED := Two(false, RECOVERED, Probing, Writing(true))

  function CheckState(n: nat): System {
    if n == 0 then RESTING
    else if n == 1 then RESTING.(tasks := [Task("p", false, Probing, {})])
    else if n == 2 then Two(false, FAILED, Probing, Probing)
    else if n == 3 then Two(false, RECOVERED, Probing, Inserted(true))
    else if n == 4 then Two(false, RECOVERED, Probing, Checking(ENABLED))
    else if n == 5 then Two(false, RECOVERED, Probing, Checking(["q"]))
    else if n == 6 then Two(false, RECOVERED, Probing, Checking([]))
    else CHECKED
  }

  lemma LoadStep(n: nat)
    requires n < 3
    ensures CheckState(n + 1) == Step(CFG, CheckState(n), CHECKS[n])
  {
    Inserts();
    assert CheckState(1).tasks + [Task("q", false, Probing, {})] == CheckState(2).tasks;
  }

  lemma CheckStep(n: nat)
    requires 3 <= n < 7
    ensures CheckState(n + 1) == Step(CFG, CheckState(n), CHECKS[n])
  {
    Streaks();
    Moves(false, RECOVERED, CheckState(n).tasks[0], CheckState(n).tasks[1], CheckState(n + 1).tasks[1].phase);
    assert ENABLED[1..] == ["q"] && ["q"][1..] == [];
  }

  lemma Checks()
    ensures Run(CFG, RESTING, CHECKS) == CHECKED
  {
    var states := seq(8, n requires 0 <= n < 8 => CheckState(n));
    forall n | 0 <= n < 7 ensures states[n + 1] == Step(CFG, states[n], CHECKS[n]) {
      if n < 3 {
        LoadStep(n);
      } else {
        CheckStep(n);
      }
    }
    ChainRuns(CFG, states, CHECKS);
  }

  // ---------------------------------------------------------------------------------------------
  // Healthy with a failing probe
  // ---------------------------------------------------------------------------------------------

  /** p reaches its threshold; its task loaded the connection as unhealthy, and has nothing to write. */
  const P_FAILS := [Insert(0, Row(false, 3), true), ReadOwn(0, ENABLED, true), Write(0, true)]

  function After(healthy: bool, q: Phase, n: nat): System {
    var task := Task("q", false, q, if n == 0 then {} else {"p"});
    if n == 0 then System(healthy, RECOVERED, [Task("p", false, Probing, {}), task])
    else if n == 1 then System(healthy, FAILED_AGAIN, [Task("p", false, Inserted(false), {"p"}), task])
    else if n == 2 then System(healthy, FAILED_AGAIN, [Task("p", false, Writing(false), {}), task])
    else System(healthy, FAILED_AGAIN, [Task("p", false, Finished, {}), task])
  }

  lemma FailStep(healthy: bool, q: Phase, n: nat)
    requires n < 3
    ensures After(healthy, q, n + 1) == Step(CFG, After(healthy, q, n), P_FAILS[n])
  {
    Inserts();
    Streaks();
    if n == 0 {
      var tasks, none: set<string> := Remember(After(healthy, q, 0).tasks, "p"), {};
      assert none + {"p"} == {"p"};
      assert tasks == [Task("p", false, Probing, {"p"}), Task("q", false, q, {"p"})];
    }
  }

  lemma PFails(healthy: bool, q: Phase)
    ensures Run(CFG, After(healthy, q, 0), P_FAILS) == After(healthy, q, 3)
  {
    var states := seq(4, n requires 0 <= n < 4 => After(healthy, q, n));
    forall n | 0 <= n < 3 ensures states[n + 1] == Step(CFG, states[n], P_FAILS[n]) {
      FailStep(healthy, q, n);
    }
    ChainRuns(CFG, states, P_FAILS);
  }

  const END := After(true, Finished, 3)

  lemma EndIsWrong()
    ensures END.healthy && AtRest(END) && Failing(CFG, END.logs, "p")
  {
    Streaks();
  }

  lemma RunOne(s: System, e: Event)
    ensures Run(CFG, s, [e]) == Step(CFG, s, e)
  {
    assert [e][..0] == [];
  }

  /** q recovers the connection, and p's task, which had loaded it before, drops p's failure. */
  lemma StaleCopyLosesFailure()
    ensures Run(CFG, RESTING, CHECKS + [Write(1, true)] + P_FAILS) == END
    ensures LosesFailure(CFG, {"p", "q"}, After(true, Finished, 2), Write(0, true))
    ensures END.healthy && AtRest(END) && Failing(CFG, END.logs, "p")
  {
    Checks();
    RunOne(CHECKED, Write(1, true));
    Moves(false, RECOVERED, CHECKED.tasks[0], CHECKED.tasks[1], Finished);
    RunAppends(CFG, RESTING, CHECKS, [Write(1, true)]);
    PFails(true, Finished);
    RunAppends(CFG, RESTING, CHECKS + [Write(1, true)], P_FAILS);
    EndIsWrong();
  }

  lemma RecoversOverFailure()
    ensures MissesFailure(CFG, {"p", "q"}, After(false, Writing(true), 3), Write(1, true))
  {
    EndIsWrong();
    assert "p" in After(false, Writing(true), 3).tasks[1].since;
  }

  /** p fails between q's look at it and q's recovery. */
  lemma LateRecoveryMissesFailure()
    ensures Run(CFG, RESTING, CHECKS + P_FAILS + [Write(1, true)]) == END
    ensures MissesFailure(CFG, {"p", "q"}, After(false, Writing(true), 3), Write(1, true))
    ensures END.healthy && AtRest(END) && Failing(CFG, END.logs, "p")
  {
    Checks();
    PFails(false, Writing(true));
    RunAppends(CFG, RESTING, CHECKS, P_FAILS);
    var s := After(false, Writing(true), 3);
    RunOne(s, Write(1, true));
    Moves(false, FAILED_AGAIN, s.tasks[0], s.tasks[1], Finished);
    RunAppends(CFG, RESTING, CHECKS + P_FAILS, [Write(1, true)]);
    EndIsWrong();
    RecoversOverFailure();
  }

  // ---------------------------------------------------------------------------------------------
  // Unhealthy with no failing probe
  // ---------------------------------------------------------------------------------------------

  /** Two tasks of one probe load the connection as healthy; the first fails, and then the second succeeds. */
  const LATE_SUCCESS := [Begin("q"), Begin("q"), Insert(0, Row(false, 0), true), ReadOwn(0, ["q"], true), Write(0, true),
                         Insert(1, Row(true, 1), true), ReadOwn(1, ["q"], true)]

  function Loaded(phase: Phase, since: set<string>): Task {
    Task("q", true, phase, since)
  }

  const FRESH := System(true, map[], [])

  function LateState(n: nat): System {
    var failed, succeeded := map["q" := [Row(false, 0)]], map["q" := [Row(false, 0), Row(true, 1)]];
    if n == 0 then FRESH
    else if n == 1 then System(true, map[], [Loaded(Probing, {})])
    else if n == 2 then System(true, map[], [Loaded(Probing, {}), Loaded(Probing, {})])
    else if n == 3 then System(true, failed, [Loaded(Inserted(false), {"q"}), Loaded(Probing, {"q"})])
    else if n == 4 then System(true, failed, [Loaded(Writing(false), {}), Loaded(Probing, {"q"})])
    else if n == 5 then System(false, failed, [Loaded(Finished, {}), Loaded(Probing, {"q"})])
    else if n == 6 then System(false, succeeded, [Loaded(Finished, {}), Loaded(Inserted(true), {"q"})])
    else System(false, succeeded, [Loaded(Finished, {}), Loaded(Finished, {})])
  }

  lemma LateFailureStep(n: nat)
    requires n < 4
    ensures LateState(n + 1) == Step(CFG, LateState(n), LATE_SUCCESS[n])
  {
    if n == 2 {
      var tasks, none: set<string> := Remember(LateState(2).tasks, "q"), {};
      assert none + {"q"} == {"q"} && tasks == [Loaded(Probing, {"q"}), Loaded(Probing, {"q"})];
      assert ProbeLog.Insert([], Row(false, 0)) == [Row(false, 0)];
    } else if n == 3 {
      StreakIs([Row(false, 0)], false, 1);
    }
  }

  lemma LateSuccessStep(n: nat)
    requires 4 <= n < 7
    ensures LateState(n + 1) == Step(CFG, LateState(n), LATE_SUCCESS[n])
  {
    assert [Row(false, 0)] + [Row(true, 1)] == [Row(false, 0), Row(true, 1)];
  }

  lemma LateRuns()
    ensures Run(CFG, FRESH, LATE_SUCCESS) == LateState(7)
  {
    var states := seq(8, n requires 0 <= n < 8 => LateState(n));
    forall n | 0 <= n < 7 ensures states[n + 1] == Step(CFG, states[n], LATE_SUCCESS[n]) {
      if n < 4 {
        LateFailureStep(n);
      } else {
        LateSuccessStep(n);
      }
    }
    ChainRuns(CFG, states, LATE_SUCCESS);
  }

  lemma LateRecovered()
    ensures AllRecovered(CFG, {"q"}, LateState(7).logs)
  {
    StreakIs([Row(false, 0), Row(true, 1)], true, 1);
  }

  /** The second task's copy is healthy, so its success changes nothing. */
  lemma StaleSuccessRecoversNothing()
    ensures Run(CFG, FRESH, LATE_SUCCESS) == LateState(7)
    ensures !LateState(7).healthy && AtRest(LateState(7)) && AllRecovered(CFG, {"q"}, LateState(7).logs)
  {
    LateRuns();
    LateRecovered();
  }
}
