/**
 Runs of setup: every operation on a connection in any order, each split where the source lets other operations in,
 between loading the row and writing what follows from it. The writes do not look at the row again, so an operation may
 end in a setup that has been restarted since it began.
 */
module SetupHistory {
  import opened Connections
  import opened Options
  import opened SetupFlow
  import opened SetupRun

  /** An operation under way: the row it loaded, and how many restarts had been made when it did. */
  datatype Handler = Handler(loaded: Conn, epoch: nat, done: bool)

  /** `epoch` counts restarts; `cleared` says that since the last one verification was passed or answered off. */
  datatype System = System(conn: Conn, handlers: seq<Handler>, epoch: nat, cleared: bool)

  datatype Event = Load | Act(i: nat, op: Op)

  predicate Live(s: System, e: Event) {
    e.Act? && e.i < |s.handlers| && !s.handlers[e.i].done
  }

  /** The copy that the event's operation works from. */
  function Copy(s: System, e: Event): Conn
    requires Live(s, e)
  {
    s.handlers[e.i].loaded
  }

  /** The row after an event. */
  function ConnAfter(m: Manifest, s: System, e: Event): Conn
    requires -1 <= m.flow.authBoundary
  {
    if Live(s, e) then Do(m, Copy(s, e), s.conn, e.op).conn else s.conn
  }

  function HandlersAfter(s: System, e: Event): seq<Handler> {
    if e.Load? then s.handlers + [Handler(s.conn, s.epoch, false)]
    else if Live(s, e) then s.handlers[e.i := s.handlers[e.i].(done := true)]
    else s.handlers
  }

  function Envs(op: Op): set<Env> {
    match op
    case Submit(_, env, after, _) => {env, after}
    case Callback(env, _) => {env}
    case AuthError(_, _) => {}
    case Verify(env, _, after, _) => {env, after}
    case Retry(env, _) => {env}
    case Reauthorize(env, _) => {env}
    case Reconfiguration(env, _) => {env}
    case Cancel(_) => {}
    case Reload(env, _) => {env}
  }

  /** Some answer given during the operation was that verification is off. */
  predicate AnswersOff(m: Manifest, op: Op) {
    exists env :: env in Envs(op) && VerifyEnabled(m.flow, env) == No
  }

  predicate SaysUnverified(m: Manifest, e: Event) {
    e.Act? && AnswersOff(m, e.op)
  }

  /** Starting over gets as far as storing the first step. */
  predicate StartsOver(m: Manifest, env: Env, x: Faults) {
    && !x.error && !x.step && FirstStep(m.flow, env).Found?
    && !(FirstStep(m.flow, env).step.kind.Redirect? && x.render)
  }

  /** A retry starts setup over. */
  predicate Restarts(m: Manifest, s: System, e: Event) {
    && Live(s, e) && e.op.Retry? && Copy(s, e).step.Some? && Terminal(Copy(s, e).step.value)
    && StartsOver(m, e.op.env, e.op.x)
  }

  /** A verify task ends that loaded the verify step and in which every enabled probe passed. */
  predicate AllPass(loaded: Conn, op: Op) {
    && op.Verify? && loaded.step == Some(VERIFY_ID)
    && op.env.enabledProbes.Some? && AllIn(op.env.enabledProbes.value, op.passing)
  }

  predicate Passes(s: System, e: Event) {
    Live(s, e) && AllPass(Copy(s, e), e.op)
  }

  /** No restart was made since the operation loaded the row. */
  predicate Current(s: System, e: Event)
    requires Live(s, e)
  {
    s.handlers[e.i].epoch == s.epoch
  }

  /** Off-answers and passing runs of the current setup count, a restart forgets the past. */
  predicate ClearedAfter(m: Manifest, s: System, e: Event) {
    SaysUnverified(m, e) || (!Restarts(m, s, e) && ((Passes(s, e) && Current(s, e)) || s.cleared))
  }

  function Apply(m: Manifest, s: System, e: Event): System
    requires -1 <= m.flow.authBoundary
  {
    System(ConnAfter(m, s, e), HandlersAfter(s, e), s.epoch + if Restarts(m, s, e) then 1 else 0, ClearedAfter(m, s, e))
  }

  /** A run: the answers and faults of InitiateConnection, the events after it and the states between them. */
  datatype Run = Run(env: Env, x: Faults, events: seq<Event>, states: seq<System>)

  predicate Steps(m: Manifest, r: Run, k: nat)
    requires -1 <= m.flow.authBoundary && |r.states| == |r.events| + 1 && k < |r.events|
  {
    r.states[k + 1] == Apply(m, r.states[k], r.events[k])
  }

  function Start(m: Manifest, env: Env, x: Faults): System {
    System(Initiate(m, env, x).conn, [], 0, VerifyEnabled(m.flow, env) == No)
  }

  ghost predicate IsRun(m: Manifest, r: Run)
    requires -1 <= m.flow.authBoundary
  {
    && |r.states| == |r.events| + 1
    && r.states[0] == Start(m, r.env, r.x)
    && forall k {:trigger Steps(m, r, k)} :: 0 <= k < |r.events| ==> Steps(m, r, k)
  }

  // ---------------------------------------------------------------------------------------------
  // What every run keeps, in any order and with any faults
  // ---------------------------------------------------------------------------------------------

  lemma EventKeeps(m: Manifest, s: System, e: Event)
    requires Valid(m) && Known(m, s.conn)
    ensures Keeps(m, s.conn, ConnAfter(m, s, e))
  {
    if Live(s, e) {
      OpKeeps(m, Copy(s, e), s.conn, e.op);
    }
  }

  /** The stored step is always none, a failure step or one the manifest knows, and Configured is never left. */
  lemma {:induction false} RunKeepsKnown(m: Manifest, r: Run, n: nat)
    requires Valid(m) && IsRun(m, r) && n <= |r.events|
    ensures Known(m, r.states[n].conn)
    ensures forall k :: 0 <= k <= n && r.states[k].conn.state == Configured ==> r.states[n].conn.state == Configured
  {
    if n == 0 {
      OffersKnown(m, r.env, VERIFY_ID);
    } else {
      RunKeepsKnown(m, r, n - 1);
      assert Steps(m, r, n - 1);
      EventKeeps(m, r.states[n - 1], r.events[n - 1]);
    }
  }

  /** So at any moment of any run a resume with working answers and writes never reports a broken setup. */
  lemma ResumeAlwaysWorks(m: Manifest, r: Run, n: nat, env: Env, c: Conn)
    requires Valid(m) && IsRun(m, r) && n <= |r.events| && SetupFlow.Settled(m.flow, env)
    ensures Resume(m, r.states[n].conn, c, env, NO_FAULTS).reply != Faulted
  {
    RunKeepsKnown(m, r, n);
    var loaded := r.states[n].conn;
    if loaded.step.Some? && !Terminal(loaded.step.value) {
      NextNeverFaults(m.flow, env, loaded.step.value);
    }
  }

  lemma NextEligibleNeverFaults(f: Flow, env: Env, lo: int, hi: int)
    requires SetupFlow.Settled(f, env)
    ensures NextEligibleStep(f, env, lo, hi) != Fault
  {
  }

  lemma NextNeverFaults(f: Flow, env: Env, id: string)
    requires SetupFlow.Settled(f, env)
    ensures NextStep(f, env, id) != Fault && StepById(f, env, id) != Fault
  {
    var i, last := IndexOf(f.steps, id), |f.steps| - 1;
    NextEligibleNeverFaults(f, env, f.authBoundary + 1, last);
    NextEligibleNeverFaults(f, env, i + 1, last);
    NextEligibleNeverFaults(f, env, i + 1, f.authBoundary);
  }

  // ---------------------------------------------------------------------------------------------
  // Verification comes first
  // ---------------------------------------------------------------------------------------------

  /** The row is past verification. */
  predicate Claims(m: Manifest, c: Conn) {
    || c.state == Configured
    || (c.step.Some? && ContainsStep(m.flow, c.step.value) && Slot(m.flow, c.step.value) > m.flow.authBoundary + 1)
  }

  /** The row never claims more than has been cleared. */
  predicate Safe(m: Manifest, c: Conn, cleared: bool) {
    Claims(m, c) ==> cleared
  }

  predicate AtCredentialStep(m: Manifest, c: Conn) {
    c.step.Some? && c.step.value != VERIFY_ID && IndexOf(m.flow.steps, c.step.value) <= m.flow.authBoundary
  }

  /** A credential callback finds a credential step current when it loads the row. */
  predicate InTurn(m: Manifest, loaded: Conn, op: Op) {
    op.Callback? ==> AtCredentialStep(m, loaded)
  }

  /** Initial setup, with credential callbacks in turn. */
  ghost predicate OnTime(m: Manifest, r: Run)
    requires |r.states| == |r.events| + 1
  {
    forall k :: 0 <= k < |r.events| ==>
      && r.states[k].conn.state == Setup
      && (Live(r.states[k], r.events[k]) ==> InTurn(m, Copy(r.states[k], r.events[k]), r.events[k].op))
  }

  /** From this copy, the operation takes a row that is in setup past verification. */
  predicate Crosses(m: Manifest, loaded: Conn, op: Op)
    requires -1 <= m.flow.authBoundary
  {
    Claims(m, Do(m, loaded, NEW, op).conn)
  }

  /** An operation that loaded the row before the last restart takes an uncleared setup past verification. */
  predicate Stale(m: Manifest, s: System, e: Event)
    requires -1 <= m.flow.authBoundary
  {
    Live(s, e) && !Current(s, e) && !s.cleared && !SaysUnverified(m, e) && Crosses(m, Copy(s, e), e.op)
  }

  /** Leaving the credential phase without verify happens only when verification answered "off". */
  lemma CredentialExit(f: Flow, env: Env, id: string)
    requires WellFormed(f) && id != VERIFY_ID && IndexOf(f.steps, id) <= f.authBoundary
    ensures NextStep(f, env, id) == NoStep ==> VerifyEnabled(f, env) == No
    ensures NextStep(f, env, id).Found? && Slot(f, NextStep(f, env, id).step.id) > f.authBoundary + 1 ==> VerifyEnabled(f, env) == No
  {
    if NextStep(f, env, id).Found? {
      assert Ordinary(f.steps, IndexOf(f.steps, id));
      NextAdvances(f, env, id);
    }
  }

  /** The step is past verification. */
  predicate Past(m: Manifest, next: Lookup) {
    next == NoStep || (next.Found? && Slot(m.flow, next.step.id) > m.flow.authBoundary + 1)
  }

  lemma AdvanceCrosses(m: Manifest, loaded: Conn, c: Conn, next: Lookup, x: Faults)
    requires !Claims(m, c) && Claims(m, AdvanceOrComplete(loaded, c, next, x).conn)
    ensures Past(m, next)
  {
  }

  lemma AfterSubmitCrosses(m: Manifest, loaded: Conn, c: Conn, id: string, next: Lookup, x: Faults)
    requires !Claims(m, c) && Claims(m, AfterSubmit(m, loaded, c, id, next, x).conn)
    ensures Past(m, next)
  {
  }

  /** Going on from a manifest step goes past verification only from there, from verify, or with an off-answer. */
  lemma MovesOn(m: Manifest, id: string, env: Env)
    requires Valid(m) && ContainsStep(m.flow, id) && Past(m, NextStep(m.flow, env, id))
    ensures id == VERIFY_ID || Slot(m.flow, id) > m.flow.authBoundary + 1 || VerifyEnabled(m.flow, env) == No
  {
    if id != VERIFY_ID && IndexOf(m.flow.steps, id) <= m.flow.authBoundary {
      CredentialExit(m.flow, env, id);
    }
  }

  lemma SubmitCrosses(m: Manifest, loaded: Conn, op: Op)
    requires Valid(m) && op.Submit? && Crosses(m, loaded, op)
    ensures Claims(m, loaded) || AnswersOff(m, op)
  {
    var current := StepById(m.flow, op.env, op.stepId);
    assert op.after in Envs(op);
    AfterSubmitCrosses(m, loaded, NEW, op.stepId, NextStep(m.flow, op.after, op.stepId), op.x);
    MovesOn(m, op.stepId, op.after);
  }

  lemma CallbackCrosses(m: Manifest, loaded: Conn, op: Op)
    requires Valid(m) && op.Callback? && AtCredentialStep(m, loaded) && Crosses(m, loaded, op)
    ensures AnswersOff(m, op)
  {
    assert op.env in Envs(op);
    CredentialExit(m.flow, op.env, loaded.step.value);
  }

  lemma ReloadCrosses(m: Manifest, loaded: Conn, op: Op)
    requires Valid(m) && op.Reload? && Crosses(m, loaded, op)
    ensures Claims(m, loaded) || AnswersOff(m, op)
  {
    assert op.env in Envs(op);
    AdvanceCrosses(m, loaded, NEW, NextStep(m.flow, op.env, loaded.step.value), op.x);
    MovesOn(m, loaded.step.value, op.env);
  }

  lemma TerminalNotContained(f: Flow, id: string)
    requires WellFormed(f) && Terminal(id)
    ensures !ContainsStep(f, id)
  {
    ReservedIdsDistinct();
    var i := IndexOf(f.steps, id);
    assert i < |f.steps| ==> Ordinary(f.steps, i);
  }

  lemma RetryCrosses(m: Manifest, loaded: Conn, op: Op)
    requires Valid(m) && m.flow.authBoundary >= 0 && op.Retry? && Crosses(m, loaded, op)
    ensures AnswersOff(m, op)
  {
    assert op.env in Envs(op);
    var first := FirstStep(m.flow, op.env);
    if first.Found? {
      FirstAdvances(m.flow, op.env);
      AdvanceCrosses(m, loaded, NEW, first, op.x);
    }
  }

  lemma FailuresDoNotCross(m: Manifest, c: Conn, message: string, x: Faults)
    requires Valid(m) && !Claims(m, c)
    ensures !Claims(m, HandleAuthFailed(c, message, x).conn) && !Claims(m, OnVerifyFailed(c, message, x).conn)
  {
    TerminalNotContained(m.flow, AUTH_FAILED_ID);
    TerminalNotContained(m.flow, VERIFY_FAILED_ID);
  }

  lemma VerifyCrosses(m: Manifest, loaded: Conn, op: Op)
    requires Valid(m) && op.Verify? && Crosses(m, loaded, op)
    ensures AllPass(loaded, op)
  {
    if op.env.enabledProbes.Some? {
      var failing := FirstFailing(op.env.enabledProbes.value, op.passing);
      if failing.Some? {
        FailuresDoNotCross(m, NEW, failing.value, op.x);
      }
    }
  }

  /** In initial setup an operation crosses only from a copy that has crossed, after all probes passed, or with an off-answer. */
  lemma CrossesOnlyCleared(m: Manifest, loaded: Conn, op: Op)
    requires Valid(m) && m.flow.authBoundary >= 0 && loaded.state == Setup && InTurn(m, loaded, op) && Crosses(m, loaded, op)
    ensures Claims(m, loaded) || AllPass(loaded, op) || AnswersOff(m, op)
  {
    match op
    case Submit(_, _, _, _) => SubmitCrosses(m, loaded, op);
    case Callback(_, _) => CallbackCrosses(m, loaded, op);
    case AuthError(message, x) => FailuresDoNotCross(m, NEW, message, x);
    case Verify(_, _, _, _) => VerifyCrosses(m, loaded, op);
    case Retry(_, _) => RetryCrosses(m, loaded, op);
    case Reload(_, _) => ReloadCrosses(m, loaded, op);
    case _ =>
  }

  // ---------------------------------------------------------------------------------------------
  // What is written depends on the copy alone
  // ---------------------------------------------------------------------------------------------

  /** Where the writes leave the row: at its own step and state, or at those that a new row would get. */
  ghost predicate Alike(c: Conn, c': Conn, d: Conn, d': Conn) {
    && ((c'.step == c.step && d'.step == d.step) || c'.step == d'.step)
    && ((c'.state == c.state && d'.state == d.state) || c'.state == d'.state)
  }

  lemma AdvanceAlike(loaded: Conn, c: Conn, d: Conn, next: Lookup, x: Faults)
    ensures Alike(c, AdvanceOrComplete(loaded, c, next, x).conn, d, AdvanceOrComplete(loaded, d, next, x).conn)
  {
  }

  lemma SubmitAlike(m: Manifest, loaded: Conn, c: Conn, d: Conn, op: Op)
    requires -1 <= m.flow.authBoundary && op.Submit?
    ensures Alike(c, Do(m, loaded, c, op).conn, d, Do(m, loaded, d, op).conn)
  {
    var current := StepById(m.flow, op.env, op.stepId);
    if loaded.step == Some(op.stepId) && current.Found? && current.step.kind.Form? {
      AfterSubmitAlike(m, loaded, c, d, current.step.id, NextStep(m.flow, op.after, current.step.id), op.x);
    } else {
      assert SubmitForm(m, loaded, c, op.stepId, op.env, op.after, op.x).conn == c;
      assert SubmitForm(m, loaded, d, op.stepId, op.env, op.after, op.x).conn == d;
    }
  }

  lemma AfterSubmitAlike(m: Manifest, loaded: Conn, c: Conn, d: Conn, id: string, next: Lookup, x: Faults)
    ensures Alike(c, AfterSubmit(m, loaded, c, id, next, x).conn, d, AfterSubmit(m, loaded, d, id, next, x).conn)
  {
  }

  lemma CallbackAlike(m: Manifest, loaded: Conn, c: Conn, d: Conn, op: Op)
    requires -1 <= m.flow.authBoundary && op.Callback?
    ensures Alike(c, Do(m, loaded, c, op).conn, d, Do(m, loaded, d, op).conn)
  {
  }

  lemma VerifyAlike(m: Manifest, loaded: Conn, c: Conn, d: Conn, op: Op)
    requires -1 <= m.flow.authBoundary && op.Verify?
    ensures Alike(c, Do(m, loaded, c, op).conn, d, Do(m, loaded, d, op).conn)
  {
  }

  lemma RestartAlike(m: Manifest, c: Conn, d: Conn, env: Env, x: Faults)
    ensures Alike(c, Restart(m, c, env, x).conn, d, Restart(m, d, env, x).conn)
  {
  }

  lemma CancelAlike(loaded: Conn, c: Conn, d: Conn, x: Faults)
    ensures Alike(c, CancelSetup(loaded, c, x).conn, d, CancelSetup(loaded, d, x).conn)
  {
  }

  lemma ResumeAlike(m: Manifest, loaded: Conn, c: Conn, d: Conn, env: Env, x: Faults)
    ensures Alike(c, Resume(m, loaded, c, env, x).conn, d, Resume(m, loaded, d, env, x).conn)
  {
    if loaded.step.Some? {
      AdvanceAlike(loaded, c, d, NextStep(m.flow, env, loaded.step.value), x);
    }
  }

  /** So whatever is stored, an operation writes a step and a state that its copy decides. */
  lemma OpAlike(m: Manifest, loaded: Conn, c: Conn, d: Conn, op: Op)
    requires -1 <= m.flow.authBoundary
    ensures Alike(c, Do(m, loaded, c, op).conn, d, Do(m, loaded, d, op).conn)
  {
    match op
    case Submit(_, _, _, _) => SubmitAlike(m, loaded, c, d, op);
    case Callback(_, _) => CallbackAlike(m, loaded, c, d, op);
    case AuthError(_, _) =>
    case Verify(_, _, _, _) => VerifyAlike(m, loaded, c, d, op);
    case Retry(env, x) => RestartAlike(m, c, d, env, x);
    case Reauthorize(env, x) => RestartAlike(m, c, d, env, x);
    case Reconfiguration(env, x) =>
      AdvanceAlike(loaded, c, d, FirstConfigure(m.flow, env, m.flow.authBoundary + 1), x);
    case Cancel(x) => CancelAlike(loaded, c, d, x);
    case Reload(env, x) => ResumeAlike(m, loaded, c, d, env, x);
  }

  /** A row in setup that is not past verification gets there exactly when the operation crosses. */
  lemma ClaimsIffCrosses(m: Manifest, loaded: Conn, c: Conn, op: Op)
    requires -1 <= m.flow.authBoundary && c.state == Setup && !Claims(m, c)
    ensures Claims(m, Do(m, loaded, c, op).conn) <==> Crosses(m, loaded, op)
  {
    OpAlike(m, loaded, c, NEW, op);
  }

  // ---------------------------------------------------------------------------------------------
  // Exactly the stale operations go past verification
  // ---------------------------------------------------------------------------------------------

  /** A copy loaded in the current setup claims no more than has been cleared. */
  ghost predicate HandlerOk(m: Manifest, s: System, h: Handler) {
    h.loaded.state == Setup && h.epoch <= s.epoch && (h.epoch == s.epoch ==> Safe(m, h.loaded, s.cleared))
  }

  ghost predicate HandlersOk(m: Manifest, s: System) {
    forall i :: 0 <= i < |s.handlers| ==> HandlerOk(m, s, s.handlers[i])
  }

  /** A restart leaves the row at the first step, which is past verification only after an off-answer. */
  lemma RestartSafe(m: Manifest, s: System, e: Event)
    requires Valid(m) && m.flow.authBoundary >= 0 && s.conn.state == Setup && Restarts(m, s, e)
    ensures Safe(m, ConnAfter(m, s, e), ClearedAfter(m, s, e))
  {
    assert e.op.env in Envs(e.op);
    FirstAdvances(m.flow, e.op.env);
  }

  /** Every event of an initial setup keeps the row within what has been cleared, except a stale operation. */
  lemma EventSafeIff(m: Manifest, s: System, e: Event)
    requires Valid(m) && m.flow.authBoundary >= 0 && s.conn.state == Setup && HandlersOk(m, s) && Safe(m, s.conn, s.cleared)
    requires Live(s, e) ==> InTurn(m, Copy(s, e), e.op)
    ensures Safe(m, ConnAfter(m, s, e), ClearedAfter(m, s, e)) <==> !Stale(m, s, e)
  {
    if Live(s, e) {
      var loaded := Copy(s, e);
      assert HandlerOk(m, s, s.handlers[e.i]);
      if Crosses(m, loaded, e.op) {
        CrossesOnlyCleared(m, loaded, e.op);
      }
      if Restarts(m, s, e) {
        RestartSafe(m, s, e);
        RestartIsNotStale(m, s, e);
      } else if !Claims(m, s.conn) {
        ClaimsIffCrosses(m, loaded, s.conn, e.op);
      }
    }
  }

  lemma RestartIsNotStale(m: Manifest, s: System, e: Event)
    requires Valid(m) && m.flow.authBoundary >= 0 && Restarts(m, s, e)
    ensures !Stale(m, s, e)
  {
    if Crosses(m, Copy(s, e), e.op) {
      RetryCrosses(m, Copy(s, e), e.op);
    }
  }

  lemma EventKeepsHandlers(m: Manifest, s: System, e: Event)
    requires -1 <= m.flow.authBoundary && s.conn.state == Setup && HandlersOk(m, s) && Safe(m, s.conn, s.cleared)
    ensures HandlersOk(m, Apply(m, s, e))
  {
    var s' := Apply(m, s, e);
    forall i | 0 <= i < |s'.handlers| ensures HandlerOk(m, s', s'.handlers[i]) {
      if i < |s.handlers| {
        assert HandlerOk(m, s, s.handlers[i]);
      }
    }
  }

  lemma StartSafe(m: Manifest, env: Env, x: Faults)
    requires Valid(m) && m.flow.authBoundary >= 0
    ensures Safe(m, Start(m, env, x).conn, Start(m, env, x).cleared)
  {
    var first := FirstStep(m.flow, env);
    if first.Found? {
      FirstAdvances(m.flow, env);
    }
    if Claims(m, Initiate(m, env, x).conn) {
      AdvanceCrosses(m, NEW, NEW, first, x);
    }
  }

  ghost predicate SafeUpTo(m: Manifest, r: Run, n: nat)
    requires n < |r.states|
  {
    forall k :: 0 <= k <= n ==> Safe(m, r.states[k].conn, r.states[k].cleared)
  }

  ghost predicate NoStaleBefore(m: Manifest, r: Run, n: nat)
    requires -1 <= m.flow.authBoundary && |r.states| == |r.events| + 1 && n <= |r.events|
  {
    forall k :: 0 <= k < n ==> !Stale(m, r.states[k], r.events[k])
  }

  lemma {:induction false} RunLoads(m: Manifest, r: Run, n: nat)
    requires -1 <= m.flow.authBoundary && IsRun(m, r) && OnTime(m, r) && n <= |r.events|
    requires forall k :: 0 <= k < n ==> Safe(m, r.states[k].conn, r.states[k].cleared)
    ensures HandlersOk(m, r.states[n])
  {
    if n > 0 {
      RunLoads(m, r, n - 1);
      assert Steps(m, r, n - 1);
      EventKeepsHandlers(m, r.states[n - 1], r.events[n - 1]);
    }
  }

  lemma {:induction false} SafeUpToIff(m: Manifest, r: Run, n: nat)
    requires Valid(m) && m.flow.authBoundary >= 0 && IsRun(m, r) && OnTime(m, r) && n <= |r.events|
    ensures SafeUpTo(m, r, n) <==> NoStaleBefore(m, r, n)
  {
    if n == 0 {
      StartSafe(m, r.env, r.x);
    } else {
      SafeUpToIff(m, r, n - 1);
      assert Steps(m, r, n - 1);
      assert SafeUpTo(m, r, n) <==> SafeUpTo(m, r, n - 1) && Safe(m, r.states[n].conn, r.states[n].cleared);
      assert NoStaleBefore(m, r, n) <==> NoStaleBefore(m, r, n - 1) && !Stale(m, r.states[n - 1], r.events[n - 1]);
      if SafeUpTo(m, r, n - 1) {
        RunLoads(m, r, n - 1);
        EventSafeIff(m, r.states[n - 1], r.events[n - 1]);
      }
    }
  }

  // ---------------------------------------------------------------------------------------------
  // What being cleared means
  // ---------------------------------------------------------------------------------------------

  /** In every answer of the run probes are enabled, or fail to evaluate. */
  ghost predicate ProbesOn(m: Manifest, r: Run) {
    && VerifyEnabled(m.flow, r.env) != No
    && forall k :: 0 <= k < |r.events| ==> !SaysUnverified(m, r.events[k])
  }

  /**
   A verify task loaded the row at event b, ended at event j with every enabled probe passing, and no restart was made
   from b to the end of the first n events.
   */
  ghost predicate VerifiedBy(m: Manifest, r: Run, n: nat, b: nat, j: nat)
    requires |r.states| == |r.events| + 1 && b < j < n <= |r.events|
  {
    && r.events[b].Load? && Passes(r.states[j], r.events[j]) && r.events[j].i == |r.states[b].handlers|
    && forall k :: b <= k < n ==> !Restarts(m, r.states[k], r.events[k])
  }

  ghost predicate Verified(m: Manifest, r: Run, n: nat)
    requires |r.states| == |r.events| + 1 && n <= |r.events|
  {
    exists b, j :: 0 <= b < j < n && VerifiedBy(m, r, n, b, j)
  }

  /** Handler i of state n loaded the row at event b. */
  ghost predicate LoadedAt(r: Run, n: nat, i: nat, b: nat)
    requires |r.states| == |r.events| + 1 && n <= |r.events| && i < |r.states[n].handlers| && b < n
  {
    && r.events[b].Load? && |r.states[b].handlers| == i
    && r.states[n].handlers[i].loaded == r.states[b].conn
    && r.states[n].handlers[i].epoch == r.states[b].epoch
  }

  lemma {:induction false} HandlerLoaded(m: Manifest, r: Run, n: nat, i: nat) returns (b: nat)
    requires -1 <= m.flow.authBoundary && IsRun(m, r) && n <= |r.events| && i < |r.states[n].handlers|
    ensures b < n && LoadedAt(r, n, i, b)
  {
    assert n > 0;
    assert Steps(m, r, n - 1);
    if i < |r.states[n - 1].handlers| {
      b := HandlerLoaded(m, r, n - 1, i);
    } else {
      b := n - 1;
    }
  }

  lemma {:induction false} EpochCounts(m: Manifest, r: Run, b: nat, n: nat)
    requires -1 <= m.flow.authBoundary && IsRun(m, r) && b <= n <= |r.events|
    ensures r.states[b].epoch <= r.states[n].epoch
    ensures r.states[b].epoch == r.states[n].epoch <==> forall k :: b <= k < n ==> !Restarts(m, r.states[k], r.events[k])
    decreases n - b
  {
    if b < n {
      EpochCounts(m, r, b, n - 1);
      assert Steps(m, r, n - 1);
    }
  }

  /** With probes on throughout, cleared means verified since the last restart. */
  lemma {:induction false} ClearedMeansVerified(m: Manifest, r: Run, n: nat)
    requires -1 <= m.flow.authBoundary && IsRun(m, r) && n <= |r.events| && ProbesOn(m, r) && r.states[n].cleared
    ensures Verified(m, r, n)
  {
    assert n > 0;
    assert Steps(m, r, n - 1);
    var s, e := r.states[n - 1], r.events[n - 1];
    if Passes(s, e) && Current(s, e) {
      var b := HandlerLoaded(m, r, n - 1, e.i);
      EpochCounts(m, r, b, n - 1);
      assert VerifiedBy(m, r, n, b, n - 1);
    } else {
      ClearedMeansVerified(m, r, n - 1);
      var b, j :| 0 <= b < j < n - 1 && VerifiedBy(m, r, n - 1, b, j);
      assert VerifiedBy(m, r, n, b, j);
    }
  }

  /** A verify task that no restart came between is of the current setup. */
  lemma PassesCurrent(m: Manifest, r: Run, b: nat, j: nat)
    requires -1 <= m.flow.authBoundary && IsRun(m, r) && b < j < |r.events| && VerifiedBy(m, r, j + 1, b, j)
    ensures Current(r.states[j], r.events[j]) && !Restarts(m, r.states[j], r.events[j])
  {
    var b' := HandlerLoaded(m, r, j, r.events[j].i);
    SameLoad(m, r, b, b');
    EpochCounts(m, r, b, j);
  }

  /** Verified since the last restart implies cleared. */
  lemma {:induction false} VerifiedMeansCleared(m: Manifest, r: Run, n: nat, b: nat, j: nat)
    requires -1 <= m.flow.authBoundary && IsRun(m, r) && b < j < n <= |r.events|
    requires VerifiedBy(m, r, n, b, j)
    ensures r.states[n].cleared
    decreases n
  {
    assert Steps(m, r, n - 1);
    if j == n - 1 {
      PassesCurrent(m, r, b, j);
    } else {
      assert VerifiedBy(m, r, n - 1, b, j);
      VerifiedMeansCleared(m, r, n - 1, b, j);
    }
  }

  lemma {:induction false} HandlersGrow(m: Manifest, r: Run, b: nat, n: nat)
    requires -1 <= m.flow.authBoundary && IsRun(m, r) && b <= n <= |r.events|
    ensures |r.states[b].handlers| <= |r.states[n].handlers|
    decreases n - b
  {
    if b < n {
      HandlersGrow(m, r, b, n - 1);
      assert Steps(m, r, n - 1);
    }
  }

  lemma LaterLoad(m: Manifest, r: Run, a: nat, b: nat)
    requires -1 <= m.flow.authBoundary && IsRun(m, r) && a < b < |r.events| && r.events[a].Load?
    ensures |r.states[a].handlers| < |r.states[b].handlers|
  {
    assert Steps(m, r, a);
    assert |r.states[a + 1].handlers| == |r.states[a].handlers| + 1;
    HandlersGrow(m, r, a + 1, b);
  }

  lemma SameLoad(m: Manifest, r: Run, a: nat, b: nat)
    requires -1 <= m.flow.authBoundary && IsRun(m, r) && a < |r.events| && b < |r.events|
    requires r.events[a].Load? && r.events[b].Load?
    requires |r.states[a].handlers| == |r.states[b].handlers|
    ensures a == b
  {
    if a < b {
      LaterLoad(m, r, a, b);
    } else if b < a {
      LaterLoad(m, r, b, a);
    }
  }

  lemma ClearedIffVerified(m: Manifest, r: Run, n: nat)
    requires -1 <= m.flow.authBoundary && IsRun(m, r) && n <= |r.events| && ProbesOn(m, r)
    ensures r.states[n].cleared <==> Verified(m, r, n)
  {
    if r.states[n].cleared {
      ClearedMeansVerified(m, r, n);
    }
    if Verified(m, r, n) {
      var b, j :| 0 <= b < j < n && VerifiedBy(m, r, n, b, j);
      VerifiedMeansCleared(m, r, n, b, j);
    }
  }

  // ---------------------------------------------------------------------------------------------
  // The theorems
  // ---------------------------------------------------------------------------------------------

  /**
   At no moment of the run is the connection Configured or at a configure step unless, since the last restart, a verify
   task loaded the row, passed every enabled probe, and ended.
   */
  ghost predicate VerifiesFirst(m: Manifest, r: Run)
    requires |r.states| == |r.events| + 1
  {
    forall n :: 0 <= n <= |r.events| && Claims(m, r.states[n].conn) ==> Verified(m, r, n)
  }

  /**
   A run of initial setup with a credential phase, probes on and callbacks in turn verifies first if and only if no
   operation that loaded the row before the last restart takes a setup, in which no verify task has passed yet, past
   verification.
   */
  lemma VerifiesFirstIff(m: Manifest, r: Run)
    requires Valid(m) && m.flow.authBoundary >= 0 && IsRun(m, r) && OnTime(m, r) && ProbesOn(m, r)
    ensures VerifiesFirst(m, r) <==> NoStaleBefore(m, r, |r.events|)
  {
    var n := |r.events|;
    SafeUpToIff(m, r, n);
    forall k | 0 <= k <= n
      ensures Safe(m, r.states[k].conn, r.states[k].cleared) <==> (Claims(m, r.states[k].conn) ==> Verified(m, r, k))
    {
      ClearedIffVerified(m, r, k);
    }
  }

  /** In particular when every operation ends in the setup it began in. */
  lemma ConfiguredOnlyAfterVerify(m: Manifest, r: Run)
    requires Valid(m) && m.flow.authBoundary >= 0 && IsRun(m, r) && OnTime(m, r) && ProbesOn(m, r)
    requires forall k :: 0 <= k < |r.events| && Live(r.states[k], r.events[k]) ==> Current(r.states[k], r.events[k])
    ensures VerifiesFirst(m, r)
    ensures r.states[|r.events|].conn.state == Configured ==> Verified(m, r, |r.events|)
  {
    VerifiesFirstIff(m, r);
  }

  /**
   When the last event is the passing end of a verify task and nothing had passed before, the setup is verified if and
   only if no restart was made between the load and the end of that task.
   */
  lemma CompletingRunIff(m: Manifest, r: Run) returns (b: nat)
    requires -1 <= m.flow.authBoundary && IsRun(m, r) && ProbesOn(m, r) && r.events != []
    requires var n := |r.events| - 1; Passes(r.states[n], r.events[n]) && !Verified(m, r, n)
    ensures var n := |r.events| - 1;
            && b < n && LoadedAt(r, n, r.events[n].i, b)
            && (Verified(m, r, n + 1) <==> forall k :: b <= k < n ==> !Restarts(m, r.states[k], r.events[k]))
  {
    var n := |r.events| - 1;
    assert Steps(m, r, n);
    b := HandlerLoaded(m, r, n, r.events[n].i);
    EpochCounts(m, r, b, n);
    ClearedIffVerified(m, r, n);
    ClearedIffVerified(m, r, n + 1);
  }

  /** One OAuth step and one probe. */
  function OneStep(): Manifest {
    Manifest(Flow([Step("oauth", Redirect)], true, 0), 0)
  }

  lemma OneStepValid()
    ensures Valid(OneStep()) && !ContainsStep(OneStep().flow, AUTH_FAILED_ID)
  {
    ReservedIdsDistinct();
    assert |"oauth"| == 5;
    assert Ordinary(OneStep().flow.steps, 0);
    TerminalNotContained(OneStep().flow, AUTH_FAILED_ID);
  }

  const ON := Env(map["oauth" := true], Some(["probe"]))

  lemma OneStepMoves()
    ensures FirstStep(OneStep().flow, ON) == Found(Step("oauth", Redirect))
    ensures NextStep(OneStep().flow, ON, "oauth") == Found(VERIFY_STEP)
    ensures NextStep(OneStep().flow, ON, VERIFY_ID) == NoStep
    ensures NextStep(OneStep().flow, ON, AUTH_FAILED_ID) == NoStep
    ensures VerifyEnabled(OneStep().flow, ON) == Yes
  {
    OneStepValid();
    ReservedIdsDistinct();
    assert |"oauth"| == 5;
  }

  const WAITING := Conn(Setup, Some("oauth"), None, true, {}, 0)
  const VERIFYING := Conn(Setup, Some(VERIFY_ID), None, true, {}, 1)
  const DENIED := VERIFYING.(step := Some(AUTH_FAILED_ID), setupError := Some("denied"))
  const AGAIN := VERIFYING.(step := Some("oauth"))

  const ARRIVED := Callback(ON, NO_FAULTS)
  const DENIAL := AuthError("denied", NO_FAULTS)
  const PASSED := Op.Verify(ON, {"probe"}, ON, NO_FAULTS)
  const AGAIN_PLEASE := Retry(ON, NO_FAULTS)

  lemma OneStepOps(loaded: Conn, c: Conn)
    ensures Start(OneStep(), ON, NO_FAULTS) == System(WAITING, [], 0, false)
    ensures Do(OneStep(), WAITING, WAITING, ARRIVED).conn == VERIFYING
    ensures Do(OneStep(), loaded, VERIFYING, DENIAL).conn == DENIED
    ensures Do(OneStep(), DENIED, DENIED, AGAIN_PLEASE).conn == AGAIN && StartsOver(OneStep(), ON, NO_FAULTS)
    ensures Do(OneStep(), VERIFYING, c, PASSED).conn.state == Configured
    ensures Do(OneStep(), DENIED, c, ARRIVED).conn.state == Configured
  {
    OneStepMoves();
    assert FirstFailing(["probe"], {"probe"}).None?;
  }

  lemma NothingIsOff()
    ensures !AnswersOff(OneStep(), ARRIVED) && !AnswersOff(OneStep(), DENIAL)
    ensures !AnswersOff(OneStep(), PASSED) && !AnswersOff(OneStep(), AGAIN_PLEASE)
  {
    OneStepMoves();
    assert Envs(ARRIVED) == Envs(PASSED) == Envs(AGAIN_PLEASE) == {ON} && Envs(DENIAL) == {};
  }

  /** A verify task loads the row; an authorization error and a retry come in between; then the task ends. */
  const RACE := [Load, Load, Act(0, ARRIVED), Load, Act(1, DENIAL), Load, Act(3, AGAIN_PLEASE), Act(2, PASSED)]

  function RaceState(n: nat): System {
    var first, second := Handler(WAITING, 0, false), Handler(WAITING, 0, true);
    var task, retry := Handler(VERIFYING, 0, false), Handler(DENIED, 0, false);
    if n == 0 then System(WAITING, [], 0, false)
    else if n == 1 then System(WAITING, [first], 0, false)
    else if n == 2 then System(WAITING, [first, first], 0, false)
    else if n == 3 then System(VERIFYING, [second, first], 0, false)
    else if n == 4 then System(VERIFYING, [second, first, task], 0, false)
    else if n == 5 then System(DENIED, [second, second, task], 0, false)
    else if n == 6 then System(DENIED, [second, second, task, retry], 0, false)
    else if n == 7 then System(AGAIN, [second, second, task, retry.(done := true)], 1, false)
    else System(Do(OneStep(), VERIFYING, AGAIN, PASSED).conn,
                [second, second, task.(done := true), retry.(done := true)], 1, false)
  }

  lemma RaceLoads(n: nat)
    requires n in {0, 1, 3, 5}
    ensures RaceState(n + 1) == Apply(OneStep(), RaceState(n), RACE[n])
  {
  }

  lemma RaceActs(n: nat)
    requires n in {2, 4, 6, 7}
    ensures RaceState(n + 1) == Apply(OneStep(), RaceState(n), RACE[n])
  {
    OneStepOps(WAITING, AGAIN);
    NothingIsOff();
    var s, e := RaceState(n), RACE[n];
    assert s.handlers[e.i := s.handlers[e.i].(done := true)] == RaceState(n + 1).handlers;
  }

  function Race(): Run {
    Run(ON, NO_FAULTS, RACE, seq(9, n requires 0 <= n < 9 => RaceState(n)))
  }

  lemma RaceIsRun()
    ensures IsRun(OneStep(), Race())
  {
    OneStepOps(WAITING, AGAIN);
    forall k | 0 <= k < 8 ensures Steps(OneStep(), Race(), k) {
      if k in {0, 1, 3, 5} {
        RaceLoads(k);
      } else {
        RaceActs(k);
      }
    }
  }

  lemma RaceIsOnTime()
    ensures OnTime(OneStep(), Race()) && ProbesOn(OneStep(), Race())
  {
    OneStepMoves();
    ReservedIdsDistinct();
    assert |"oauth"| == 5;
    NothingIsOff();
    forall k | 0 <= k < 8 ensures Race().states[k].conn.state == Setup && !SaysUnverified(OneStep(), RACE[k]) {
    }
  }

  /** That run ends Configured although no verify task both loaded the row and passed since the restart. */
  lemma RestartDuringVerify() returns (m: Manifest, r: Run)
    ensures Valid(m) && m.flow.authBoundary >= 0 && IsRun(m, r) && OnTime(m, r) && ProbesOn(m, r)
    ensures r.states[|r.events|].conn.state == Configured && !Verified(m, r, |r.events|)
  {
    m, r := OneStep(), Race();
    OneStepValid();
    RaceIsRun();
    RaceIsOnTime();
    OneStepOps(WAITING, AGAIN);
    ClearedIffVerified(m, r, 8);
  }

  /** Every gated step is off and one probe is on. */
  function AllOff(f: Flow): Env {
    Env(map i | 0 <= i < |f.steps| :: f.steps[i].id := false, Some(["probe"]))
  }

  ghost predicate AllRunsVerifyFirst(m: Manifest)
    requires -1 <= m.flow.authBoundary
  {
    forall r :: IsRun(m, r) && OnTime(m, r) && ProbesOn(m, r) && NoStaleBefore(m, r, |r.events|) ==> VerifiesFirst(m, r)
  }

  /** With probes, such runs verify first exactly when there is a credential phase; without one there is no verify step. */
  lemma CredentialPhaseIff(m: Manifest)
    requires Valid(m) && m.flow.hasProbes
    ensures AllRunsVerifyFirst(m) <==> m.flow.authBoundary >= 0
  {
    if m.flow.authBoundary >= 0 {
      forall r | IsRun(m, r) && OnTime(m, r) && ProbesOn(m, r) && NoStaleBefore(m, r, |r.events|)
        ensures VerifiesFirst(m, r)
      {
        VerifiesFirstIff(m, r);
      }
    } else {
      var env := AllOff(m.flow);
      var r := Run(env, NO_FAULTS, [], [Start(m, env, NO_FAULTS)]);
      AllOffHasNoStep(m.flow, 0);
      assert IsRun(m, r) && r.states[0].conn.state == Configured;
      assert !VerifiesFirst(m, r);
    }
  }

  lemma {:induction false} AllOffHasNoStep(f: Flow, lo: nat)
    requires lo <= |f.steps|
    ensures NextEligibleStep(f, AllOff(f), lo, |f.steps| - 1) == NoStep
    decreases |f.steps| - lo
  {
    NextEligibleUnfold(f, AllOff(f), lo, |f.steps| - 1);
    if lo < |f.steps| {
      AllOffHasNoStep(f, lo + 1);
    }
  }

  /** Where a passing run goes is past verification. */
  lemma AfterVerifyIsPast(m: Manifest, env: Env)
    requires Valid(m) && NextStep(m.flow, env, VERIFY_ID).Found?
    ensures var id := NextStep(m.flow, env, VERIFY_ID).step.id;
            ContainsStep(m.flow, id) && Slot(m.flow, id) > m.flow.authBoundary + 1
  {
    var _ := NextEligibleInRange(m.flow, env, m.flow.authBoundary + 1, |m.flow.steps| - 1);
  }

  // ---------------------------------------------------------------------------------------------
  // Callbacks out of turn
  // ---------------------------------------------------------------------------------------------

  /**
   A callback on an unverified connection keeps it unverified-and-in-setup exactly when a credential step is
   current. At verify, at a failure step or at an id the manifest does not know, it goes past verification.
   */
  lemma CallbackSafeIff(m: Manifest, c: Conn, env: Env)
    requires Valid(m) && m.flow.authBoundary >= 0 && c.state == Setup && c.step.Some? && !Claims(m, c)
    requires SetupFlow.Settled(m.flow, env) && VerifyEnabled(m.flow, env) == Yes
    ensures !Claims(m, HandleCredentialsEstablished(m, c, c, env, NO_FAULTS).conn) <==> AtCredentialStep(m, c)
  {
    var f, id := m.flow, c.step.value;
    if AtCredentialStep(m, c) {
      CredentialExit(f, env, id);
    } else if id == VERIFY_ID {
      NextNeverFaults(f, env, id);
      if NextStep(f, env, id).Found? {
        AfterVerifyIsPast(m, env);
      }
    } else {
      var i := IndexOf(f.steps, id);
      assert i < |f.steps| ==> Ordinary(f.steps, i);
    }
  }

  /** An authorization error followed by a late callback. */
  const LATE := [Load, Act(0, DENIAL), Load, Act(1, ARRIVED)]

  function LateState(n: nat): System {
    var first, denied := Handler(WAITING, 0, false), WAITING.(step := Some(AUTH_FAILED_ID), setupError := Some("denied"));
    var late := Handler(denied, 0, false);
    if n == 0 then System(WAITING, [], 0, false)
    else if n == 1 then System(WAITING, [first], 0, false)
    else if n == 2 then System(denied, [first.(done := true)], 0, false)
    else if n == 3 then System(denied, [first.(done := true), late], 0, false)
    else System(Do(OneStep(), denied, denied, ARRIVED).conn, [first.(done := true), late.(done := true)], 0, false)
  }

  lemma LateStep(n: nat)
    requires n < 4
    ensures LateState(n + 1) == Apply(OneStep(), LateState(n), LATE[n])
  {
    NothingIsOff();
    var s, e := LateState(n), LATE[n];
    if e.Act? {
      assert s.handlers[e.i := s.handlers[e.i].(done := true)] == LateState(n + 1).handlers;
    }
  }

  lemma LateCompletes()
    ensures LateState(4).conn.state == Configured && Start(OneStep(), ON, NO_FAULTS) == LateState(0)
  {
    OneStepMoves();
  }

  /** It configures a connection whose probes never ran. */
  lemma LateCallbackSkipsVerify() returns (m: Manifest, r: Run)
    ensures Valid(m) && m.flow.authBoundary >= 0 && IsRun(m, r) && ProbesOn(m, r)
    ensures r.states[|r.events|].conn.state == Configured
    ensures forall j :: 0 <= j < |r.events| ==> r.states[j].conn.state == Setup && !(r.events[j].Act? && r.events[j].op.Verify?)
  {
    m, r := OneStep(), Run(ON, NO_FAULTS, LATE, seq(5, n requires 0 <= n < 5 => LateState(n)));
    OneStepValid();
    OneStepMoves();
    NothingIsOff();
    LateCompletes();
    forall k | 0 <= k < 4 ensures Steps(m, r, k) {
      LateStep(k);
    }
  }
}
