/**
 What each setup operation does when its writes work and nothing comes between load and write: which requests are
 accepted, what is shown, and exactly which fields of the row change. Stated from the manifest's positions and the
 connection's step, not from the guards of the operations.
 */
module SetupEffects {
  import opened Connections
  import opened Options
  import opened SetupFlow
  import opened SetupRun

  /** The step is stored, a task is queued exactly for verify, and the error, notices and health are the given ones. */
  ghost predicate Opens(c: Conn, o: Out, s: Step, setupError: Option<string>, notices: set<Notice>, healthy: bool) {
    && o.conn.step == Some(s.id)
    && o.conn.verifyTasks == (if s.kind == StepKind.Verify then c.verifyTasks + 1 else c.verifyTasks)
    && o.conn.state == c.state
    && o.conn.setupError == setupError && o.conn.notices == notices && o.conn.healthy == healthy
  }

  /** The page of a step: a form, a redirect or the wait for verify. */
  ghost predicate ShowsPage(reply: Reply, s: Step) {
    reply ==
      match s.kind { case Form => ShowForm(s.id) case Redirect => ShowRedirect(s.id) case Verify => ShowVerifying }
  }

  /** Configured with no step; error and tasks stay. */
  ghost predicate Finishes(c: Conn, o: Out, notices: set<Notice>, healthy: bool) {
    o.conn == Conn(Configured, None, c.setupError, healthy, notices, c.verifyTasks)
  }

  /** The step at position i comes from the auth method. */
  predicate AuthAt(m: Manifest, i: int) {
    m.preconnect <= i <= m.flow.authBoundary
  }

  ghost predicate HasAuthSteps(m: Manifest) {
    exists i :: AuthAt(m, i)
  }

  /** The step at position i is a configure step. */
  predicate ConfigureAt(m: Manifest, i: int) {
    m.flow.authBoundary < i < |m.flow.steps|
  }

  ghost predicate HasConfigureSteps(m: Manifest) {
    exists i :: ConfigureAt(m, i)
  }

  // ---------------------------------------------------------------------------------------------
  // The verify step
  // ---------------------------------------------------------------------------------------------

  /** A flow has the steps of its manifest, and verify exactly when the connector has probes. */
  lemma ContainsIff(f: Flow, id: string)
    requires WellFormed(f)
    ensures ContainsStep(f, id) <==>
      (id == "apxy:verify" && f.hasProbes) || exists i :: 0 <= i < |f.steps| && f.steps[i].id == id
  {
    var i := IndexOf(f.steps, id);
    if exists j :: 0 <= j < |f.steps| && f.steps[j].id == id {
      var j :| 0 <= j < |f.steps| && f.steps[j].id == id;
      IndexOfUnique(f, j);
      assert Ordinary(f.steps, j);
    }
  }

  /** What takes the place of verify: the step itself with a probe enabled, `otherwise` with none, else an error. */
  ghost function InVerifySlot(f: Flow, env: Env, otherwise: Lookup): Lookup {
    if !f.hasProbes then otherwise
    else match env.enabledProbes
      case None => Fault
      case Some(probes) => if |probes| == 0 then otherwise else Found(Step("apxy:verify", StepKind.Verify))
  }

  ghost predicate AnsweredNo(f: Flow, env: Env, i: int)
    requires 0 <= i < |f.steps|
  {
    f.steps[i].id in env.eligible && !env.eligible[f.steps[i].id]
  }

  lemma VerifyOffered(f: Flow, env: Env)
    requires WellFormed(f)
    ensures StepById(f, env, "apxy:verify") == InVerifySlot(f, env, NoStep)
  {
    var i := IndexOf(f.steps, VERIFY_ID);
    assert i < |f.steps| ==> Ordinary(f.steps, i);
  }

  lemma {:induction false} NoneOpen(f: Flow, env: Env, lo: nat, hi: int)
    requires WellFormed(f) && lo <= hi + 1 <= |f.steps| && forall j :: lo <= j <= hi ==> AnsweredNo(f, env, j)
    ensures NextEligibleStep(f, env, lo, hi) == NoStep
    decreases hi + 1 - lo
  {
    NextEligibleUnfold(f, env, lo, hi);
    if lo <= hi {
      assert AnsweredNo(f, env, lo);
      NoneOpen(f, env, lo + 1, hi);
    }
  }

  lemma {:induction false} SkipClosed(f: Flow, env: Env, lo: nat, mid: nat)
    requires WellFormed(f) && lo <= mid <= |f.steps| && forall j :: lo <= j < mid ==> AnsweredNo(f, env, j)
    ensures NextEligibleStep(f, env, lo, |f.steps| - 1) == NextEligibleStep(f, env, mid, |f.steps| - 1)
    decreases mid - lo
  {
    if lo < mid {
      assert AnsweredNo(f, env, lo);
      NextEligibleUnfold(f, env, lo, |f.steps| - 1);
      SkipClosed(f, env, lo + 1, mid);
    }
  }

  /** After the last credential step that is offered comes verify, or what a passing verify would go to. */
  lemma VerifyFollowsCredentials(f: Flow, env: Env, i: nat)
    requires WellFormed(f) && i <= f.authBoundary && forall j :: i < j <= f.authBoundary ==> AnsweredNo(f, env, j)
    ensures NextStep(f, env, f.steps[i].id) == InVerifySlot(f, env, NextStep(f, env, "apxy:verify"))
  {
    IndexOfUnique(f, i);
    NoneOpen(f, env, i + 1, f.authBoundary);
    SkipClosed(f, env, i + 1, f.authBoundary + 1);
  }

  /** Without a credential step that is offered, setup starts there. */
  lemma VerifyOpens(f: Flow, env: Env)
    requires WellFormed(f) && f.authBoundary >= 0 && forall j :: 0 <= j <= f.authBoundary ==> AnsweredNo(f, env, j)
    ensures FirstStep(f, env) == InVerifySlot(f, env, NextStep(f, env, "apxy:verify"))
  {
    NoneOpen(f, env, 0, f.authBoundary);
    SkipClosed(f, env, 0, f.authBoundary + 1);
  }

  // ---------------------------------------------------------------------------------------------
  // Starting over
  // ---------------------------------------------------------------------------------------------

  /** A configured connection can be authorized anew exactly when its auth method has steps. */
  lemma ReauthEffect(m: Manifest, c: Conn, env: Env)
    requires Valid(m)
    ensures var o := Reauth(m, c, c, env, NO_FAULTS);
      if c.state == Configured && HasAuthSteps(m) then
        match FirstStep(m.flow, env)
        case Found(s) => ShowsPage(o.reply, s) && Opens(c, o, s, None, c.notices, c.healthy)
        case NoStep => o == Out(c.(setupError := None), Rejected)
        case Fault => o == Out(c.(setupError := None), Faulted)
      else o == Out(c, Rejected)
  {
    if m.preconnect <= m.flow.authBoundary {
      assert AuthAt(m, m.preconnect);
    }
  }

  /** A retry is taken exactly at one of the two failure steps. */
  lemma RetryEffect(m: Manifest, c: Conn, env: Env)
    ensures var o := RetrySetup(m, c, c, env, NO_FAULTS);
      if c.step == Some("apxy:verify_failed") || c.step == Some("apxy:auth_failed") then
        match FirstStep(m.flow, env)
        case Found(s) => ShowsPage(o.reply, s) && Opens(c, o, s, None, c.notices, c.healthy)
        case NoStep => o == Out(c.(setupError := None), Rejected)
        case Fault => o == Out(c.(setupError := None), Faulted)
      else o == Out(c, Rejected)
  {
  }

  /** A configured connection with configure steps opens the first that is still offered, or is complete without one. */
  lemma ReconfigureEffect(m: Manifest, c: Conn, env: Env)
    requires Valid(m)
    ensures var o := Reconfigure(m, c, c, env, NO_FAULTS);
      if c.state == Configured && HasConfigureSteps(m) then
        match NextStep(m.flow, env, VERIFY_ID)
        case Found(s) => ShowsPage(o.reply, s) && Opens(c, o, s, c.setupError, c.notices, c.healthy)
        case NoStep => o.reply == Complete && Finishes(c, o, c.notices - {SetupRequired}, c.healthy)
        case Fault => o == Out(c, Faulted)
      else o == Out(c, Rejected)
  {
    var from := m.flow.authBoundary + 1;
    if from < |m.flow.steps| {
      assert ConfigureAt(m, from);
      ReconfigureFollowsVerify(m.flow, env, from);
    }
  }

  // ---------------------------------------------------------------------------------------------
  // Going on
  // ---------------------------------------------------------------------------------------------

  /** The notices left when the step with this id is done: an auth method's own step settles the auth notice. */
  ghost function NoticesAfter(m: Manifest, id: string, notices: set<Notice>): set<Notice> {
    if exists i :: 0 <= i < |m.flow.steps| && AuthAt(m, i) && m.flow.steps[i].id == id then notices - {AuthRequired}
    else notices
  }

  lemma AuthMethodPosition(m: Manifest, i: nat)
    requires Valid(m) && i < |m.flow.steps|
    ensures AuthMethodStep(m, m.flow.steps[i].id) <==> AuthAt(m, i)
    ensures forall j :: 0 <= j < |m.flow.steps| && m.flow.steps[j].id == m.flow.steps[i].id ==> j == i
  {
    IndexOfUnique(m.flow, i);
    forall j | 0 <= j < |m.flow.steps| && m.flow.steps[j].id == m.flow.steps[i].id ensures j == i {
      IndexOfUnique(m.flow, j);
    }
  }

  lemma NoticesAfterIff(m: Manifest, i: nat, notices: set<Notice>)
    requires Valid(m) && i < |m.flow.steps|
    ensures NoticesAfter(m, m.flow.steps[i].id, notices) ==
      if AuthMethodStep(m, m.flow.steps[i].id) then notices - {AuthRequired} else notices
  {
    AuthMethodPosition(m, i);
  }

  /** The current step is an offered form, and its data is accepted. */
  ghost predicate Submittable(m: Manifest, c: Conn, env: Env, i: nat) {
    && i < |m.flow.steps| && c.step == Some(m.flow.steps[i].id)
    && m.flow.steps[i].kind == Form && m.flow.steps[i].id in env.eligible && env.eligible[m.flow.steps[i].id]
  }

  /** An accepted submit goes to the next step, and settles the auth notice unless verify is now to decide. */
  lemma SubmitEffect(m: Manifest, c: Conn, i: nat, env: Env, after: Env)
    requires Valid(m) && Submittable(m, c, env, i)
    ensures var id := m.flow.steps[i].id;
      var o := SubmitForm(m, c, c, id, env, after, NO_FAULTS);
      match NextStep(m.flow, after, id)
      case Found(s) =>
        && ShowsPage(o.reply, s)
        && var notices := if s.kind == StepKind.Verify then c.notices else NoticesAfter(m, id, c.notices);
           Opens(c, o, s, c.setupError, notices, c.healthy)
      case NoStep => o.reply == Complete && Finishes(c, o, NoticesAfter(m, id, c.notices) - {SetupRequired}, c.healthy)
      case Fault => o == Out(c, Faulted)
  {
    IndexOfUnique(m.flow, i);
    NoticesAfterIff(m, i, c.notices);
  }

  /** Every other submit changes nothing. */
  lemma SubmitRefused(m: Manifest, c: Conn, stepId: string, env: Env, after: Env)
    requires Valid(m)
    requires forall i :: 0 <= i < |m.flow.steps| && m.flow.steps[i].id == stepId ==> !Submittable(m, c, env, i)
    ensures var o := SubmitForm(m, c, c, stepId, env, after, NO_FAULTS);
      o.conn == c && (o.reply == Rejected || o.reply == Faulted)
  {
    var i := IndexOf(m.flow.steps, stepId);
    assert i < |m.flow.steps| ==> !Submittable(m, c, env, i);
  }

  /** New credentials make the connection healthy and move it on; the auth notice waits for verify. */
  lemma CallbackEffect(m: Manifest, c: Conn, env: Env)
    requires c.step.Some?
    ensures var o := HandleCredentialsEstablished(m, c, c, env, NO_FAULTS);
      match NextStep(m.flow, env, c.step.value)
      case Found(s) =>
        && o.reply == Done
        && var notices := if s.kind == StepKind.Verify then c.notices else c.notices - {AuthRequired};
           Opens(c, o, s, c.setupError, notices, true)
      case NoStep => o.reply == Done && Finishes(c, o, c.notices - {AuthRequired, SetupRequired}, true)
      case Fault => o == Out(c.(healthy := true), Faulted)
  {
    assert c.notices - {SetupRequired} - {AuthRequired} == c.notices - {AuthRequired, SetupRequired};
  }

  /** A verify task whose probes all pass makes the connection healthy, settles the auth notice and moves it on. */
  lemma VerifyPassedEffect(m: Manifest, c: Conn, probes: seq<string>, passing: set<string>, eligible: map<string, bool>,
                           after: Env)
    requires c.step == Some("apxy:verify") && forall p :: p in probes ==> p in passing
    ensures var o := RunVerify(m, c, c, Env(eligible, Some(probes)), passing, after, NO_FAULTS);
      match NextStep(m.flow, after, "apxy:verify")
      case Found(s) => o == Out(c.(step := Some(s.id), notices := c.notices - {AuthRequired}, healthy := true), Done)
      case NoStep => o.reply == Complete && Finishes(c, o, c.notices - {AuthRequired, SetupRequired}, true)
      case Fault => o == Out(c.(notices := c.notices - {AuthRequired}, healthy := true), Faulted)
  {
    assert c.notices - {AuthRequired} - {SetupRequired} == c.notices - {AuthRequired, SetupRequired};
  }

  /** The first probe that does not pass is the error, at the failure step, and nothing else changes. */
  lemma VerifyFailedEffect(m: Manifest, c: Conn, probes: seq<string>, i: nat, passing: set<string>,
                           eligible: map<string, bool>, after: Env)
    requires c.step == Some("apxy:verify") && i < |probes| && probes[i] !in passing
    requires forall j :: 0 <= j < i ==> probes[j] in passing
    ensures RunVerify(m, c, c, Env(eligible, Some(probes)), passing, after, NO_FAULTS)
      == Out(c.(step := Some("apxy:verify_failed"), setupError := Some(probes[i])), Rejected)
  {
    FailsAt(probes, i, passing);
  }

  lemma {:induction false} FailsAt(probes: seq<string>, i: nat, passing: set<string>)
    requires i < |probes| && probes[i] !in passing && forall j :: 0 <= j < i ==> probes[j] in passing
    ensures FirstFailing(probes, passing) == Some(probes[i])
    decreases i
  {
    if i > 0 {
      FailsAt(probes[1..], i - 1, passing);
    }
  }

  /** A verify task at any other step does nothing. */
  lemma VerifySkipped(m: Manifest, c: Conn, env: Env, passing: set<string>, after: Env, x: Faults)
    requires c.step != Some("apxy:verify")
    ensures RunVerify(m, c, c, env, passing, after, x) == Out(c, Done)
  {
  }

  // ---------------------------------------------------------------------------------------------
  // Showing and cancelling
  // ---------------------------------------------------------------------------------------------

  /** A resume shows the current step; one no longer offered is moved on from, and a failure step shows its error. */
  lemma ResumeEffect(m: Manifest, c: Conn, env: Env)
    requires Valid(m) && Known(m, c)
    ensures var o := Resume(m, c, c, env, NO_FAULTS);
      match c.step
      case None => o == Out(c, Complete)
      case Some(id) =>
        if id == "apxy:verify_failed" || id == "apxy:auth_failed" then o == Out(c, ShowError(c.setupError))
        else match StepById(m.flow, env, id)
          case Fault => o == Out(c, Faulted)
          case Found(s) => o.conn == c && ShowsPage(o.reply, s) && s.id == id
          case NoStep =>
            match NextStep(m.flow, env, id)
            case Fault => o == Out(c, Faulted)
            case Found(s) => ShowsPage(o.reply, s) && Opens(c, o, s, c.setupError, c.notices, c.healthy)
            case NoStep => o.reply == Complete && Finishes(c, o, c.notices - {SetupRequired}, c.healthy)
  {
    if c.step.Some? && StepById(m.flow, env, c.step.value).Found? {
      CurrentIsShown(m, env, c.step.value);
    }
  }

  /** Cancelling gives up the step and the error of a configured connection, and of no other. */
  lemma CancelEffect(c: Conn)
    ensures CancelSetup(c, c, NO_FAULTS) ==
      if c.state == Configured then Out(c.(step := None, setupError := None), Done) else Out(c, Rejected)
  {
  }
}
