/**
 Setup operations whose writes fail: a write that fails is not made, and an operation that reports success has made all
 of its writes. For every operation, from any loaded copy and any stored row.
 */
module SetupFaults {
  import opened Connections
  import opened Options
  import opened SetupFlow
  import opened SetupRun

  /** No field whose write fails has changed. */
  ghost predicate Withheld(c: Conn, d: Conn, x: Faults) {
    && (x.step ==> d.step == c.step) && (x.state ==> d.state == c.state)
    && (x.error ==> d.setupError == c.setupError) && (x.health ==> d.healthy == c.healthy)
    && (x.resolveAuth ==> (AuthRequired in d.notices <==> AuthRequired in c.notices))
    && (x.resolveSetup ==> (SetupRequired in d.notices <==> SetupRequired in c.notices))
    && (x.enqueue ==> d.verifyTasks == c.verifyTasks)
  }

  predicate Reports(o: Out) {
    o.reply == Faulted || o.reply == Rejected
  }

  /** What fails is withheld, and what is reported as done is what would be done without failures. */
  ghost predicate Honest(c: Conn, o: Out, free: Out, x: Faults) {
    Withheld(c, o.conn, x) && (x.render ==> !o.reply.ShowRedirect?) && (Reports(o) || o == free)
  }

  lemma CompleteHonest(loaded: Conn, c: Conn, x: Faults)
    ensures Honest(c, CompleteFlow(loaded, c, x), CompleteFlow(loaded, c, NO_FAULTS), x)
  {
  }

  lemma AdvanceToHonest(c: Conn, next: Step, x: Faults)
    ensures Honest(c, AdvanceToStep(c, next, x), AdvanceToStep(c, next, NO_FAULTS), x)
  {
  }

  lemma AdvanceHonest(loaded: Conn, c: Conn, next: Lookup, x: Faults)
    ensures Honest(c, AdvanceOrComplete(loaded, c, next, x), AdvanceOrComplete(loaded, c, next, NO_FAULTS), x)
  {
    CompleteHonest(loaded, c, x);
    if next.Found? {
      AdvanceToHonest(c, next.step, x);
    }
  }

  lemma AfterSubmitHonest(m: Manifest, loaded: Conn, c: Conn, id: string, next: Lookup, x: Faults)
    ensures Honest(c, AfterSubmit(m, loaded, c, id, next, x), AfterSubmit(m, loaded, c, id, next, NO_FAULTS), x)
  {
    if next == NoStep {
      CompleteHonest(loaded, c, x);
      SettleHonest(m, CompleteFlow(loaded, c, NO_FAULTS), id, x);
    } else if next.Found? {
      SettleHonest(m, Out(c, Done), id, x);
      AdvanceToHonest(c, next.step, x);
      AdvanceToHonest(ResolveAuthAfterSubmit(m, Out(c, Done), id, NO_FAULTS).conn, next.step, x);
    }
  }

  lemma SettleHonest(m: Manifest, o: Out, id: string, x: Faults)
    requires !o.reply.ShowRedirect?
    ensures Honest(o.conn, ResolveAuthAfterSubmit(m, o, id, x), ResolveAuthAfterSubmit(m, o, id, NO_FAULTS), x)
  {
  }

  lemma SubmitHonest(m: Manifest, loaded: Conn, c: Conn, id: string, env: Env, after: Env, x: Faults)
    ensures Honest(c, SubmitForm(m, loaded, c, id, env, after, x),
                   SubmitForm(m, loaded, c, id, env, after, NO_FAULTS), x)
    ensures x.submit ==> SubmitForm(m, loaded, c, id, env, after, x).conn == c
  {
    var current := StepById(m.flow, env, id);
    if current.Found? {
      AfterSubmitHonest(m, loaded, c, current.step.id, NextStep(m.flow, after, current.step.id), x);
    }
  }

  lemma AfterCredentialsHonest(loaded: Conn, c: Conn, next: Lookup, x: Faults)
    ensures Honest(c, AfterCredentials(loaded, c, next, x), AfterCredentials(loaded, c, next, NO_FAULTS), x)
  {
    CompleteHonest(loaded, c, x);
  }

  lemma CallbackHonest(m: Manifest, loaded: Conn, c: Conn, env: Env, x: Faults)
    ensures Honest(c, HandleCredentialsEstablished(m, loaded, c, env, x),
                   HandleCredentialsEstablished(m, loaded, c, env, NO_FAULTS), x)
  {
    if loaded.step.Some? {
      var c' := if loaded.healthy then c else c.(healthy := true);
      AfterCredentialsHonest(loaded, c', NextStep(m.flow, env, loaded.step.value), x);
    }
  }

  lemma FailuresHonest(c: Conn, message: string, x: Faults)
    ensures Honest(c, HandleAuthFailed(c, message, x), HandleAuthFailed(c, message, NO_FAULTS), x)
    ensures Honest(c, OnVerifyFailed(c, message, x), OnVerifyFailed(c, message, NO_FAULTS), x)
  {
  }

  lemma PassedHonest(m: Manifest, loaded: Conn, c: Conn, env: Env, x: Faults)
    ensures Honest(c, OnVerifyPassed(m, loaded, c, env, x), OnVerifyPassed(m, loaded, c, env, NO_FAULTS), x)
  {
    var c' := (if loaded.healthy then c else c.(healthy := true)).(notices := c.notices - {AuthRequired});
    CompleteHonest(loaded, c', x);
  }

  lemma VerifyHonest(m: Manifest, loaded: Conn, c: Conn, env: Env, passing: set<string>, after: Env, x: Faults)
    ensures Honest(c, RunVerify(m, loaded, c, env, passing, after, x),
                   RunVerify(m, loaded, c, env, passing, after, NO_FAULTS), x)
  {
    PassedHonest(m, loaded, c, after, x);
    if env.enabledProbes.Some? && FirstFailing(env.enabledProbes.value, passing).Some? {
      FailuresHonest(c, FirstFailing(env.enabledProbes.value, passing).value, x);
    }
  }

  lemma RestartHonest(m: Manifest, c: Conn, env: Env, x: Faults)
    ensures Honest(c, Restart(m, c, env, x), Restart(m, c, env, NO_FAULTS), x)
  {
    if FirstStep(m.flow, env).Found? {
      AdvanceToHonest(c.(setupError := None), FirstStep(m.flow, env).step, x);
    }
  }

  lemma CancelHonest(loaded: Conn, c: Conn, x: Faults)
    ensures Honest(c, CancelSetup(loaded, c, x), CancelSetup(loaded, c, NO_FAULTS), x)
  {
  }

  lemma ResumeHonest(m: Manifest, loaded: Conn, c: Conn, env: Env, x: Faults)
    ensures Honest(c, Resume(m, loaded, c, env, x), Resume(m, loaded, c, env, NO_FAULTS), x)
  {
    if loaded.step.Some? {
      AdvanceHonest(loaded, c, NextStep(m.flow, env, loaded.step.value), x);
    }
  }

  function FaultsOf(op: Op): Faults {
    op.x
  }

  function Without(op: Op): Op {
    op.(x := NO_FAULTS)
  }

  /** Every operation withholds what fails, and reports success only having done all it would do without failures. */
  lemma OpHonest(m: Manifest, loaded: Conn, c: Conn, op: Op)
    requires -1 <= m.flow.authBoundary
    ensures Honest(c, Do(m, loaded, c, op), Do(m, loaded, c, Without(op)), FaultsOf(op))
  {
    match op
    case Submit(id, env, after, x) => SubmitHonest(m, loaded, c, id, env, after, x);
    case Callback(env, x) => CallbackHonest(m, loaded, c, env, x);
    case AuthError(message, x) => FailuresHonest(c, message, x);
    case Verify(env, passing, after, x) => VerifyHonest(m, loaded, c, env, passing, after, x);
    case Retry(env, x) => RestartHonest(m, c, env, x);
    case Reauthorize(env, x) => RestartHonest(m, c, env, x);
    case Reconfiguration(env, x) =>
      AdvanceHonest(loaded, c, FirstConfigure(m.flow, env, m.flow.authBoundary + 1), x);
    case Cancel(x) => CancelHonest(loaded, c, x);
    case Reload(env, x) => ResumeHonest(m, loaded, c, env, x);
  }

  /** And so does the end of InitiateConnection. */
  lemma InitiateHonest(m: Manifest, env: Env, x: Faults)
    ensures Honest(NEW, Initiate(m, env, x), Initiate(m, env, NO_FAULTS), x)
  {
    AdvanceHonest(NEW, NEW, FirstStep(m.flow, env), x);
  }

  // ---------------------------------------------------------------------------------------------
  // Writes that are not made cannot fail
  // ---------------------------------------------------------------------------------------------

  /** The failures that matter: not those of writing a health, state or step that the loaded copy already has. */
  function Relevant(loaded: Conn, x: Faults): Faults {
    x.(health := x.health && !loaded.healthy, state := x.state && loaded.state != Configured)
  }

  lemma CompleteSpares(loaded: Conn, c: Conn, x: Faults)
    ensures CompleteFlow(loaded, c, x) == CompleteFlow(loaded, c, Relevant(loaded, x))
    ensures loaded.step.None? ==> CompleteFlow(loaded, c, x) == CompleteFlow(loaded, c, x.(step := false))
  {
  }

  lemma AdvanceSpares(loaded: Conn, c: Conn, next: Lookup, x: Faults)
    ensures AdvanceOrComplete(loaded, c, next, x) == AdvanceOrComplete(loaded, c, next, Relevant(loaded, x))
  {
    CompleteSpares(loaded, c, x);
  }

  lemma SubmitSpares(m: Manifest, loaded: Conn, c: Conn, id: string, env: Env, after: Env, x: Faults)
    ensures SubmitForm(m, loaded, c, id, env, after, x) == SubmitForm(m, loaded, c, id, env, after, Relevant(loaded, x))
  {
    CompleteSpares(loaded, c, x);
  }

  lemma CallbackSpares(m: Manifest, loaded: Conn, c: Conn, env: Env, x: Faults)
    ensures HandleCredentialsEstablished(m, loaded, c, env, x)
      == HandleCredentialsEstablished(m, loaded, c, env, Relevant(loaded, x))
  {
    CompleteSpares(loaded, if loaded.healthy then c else c.(healthy := true), x);
  }

  lemma VerifySpares(m: Manifest, loaded: Conn, c: Conn, env: Env, passing: set<string>, after: Env, x: Faults)
    ensures RunVerify(m, loaded, c, env, passing, after, x)
      == RunVerify(m, loaded, c, env, passing, after, Relevant(loaded, x))
  {
    var c' := (if loaded.healthy then c else c.(healthy := true)).(notices := c.notices - {AuthRequired});
    CompleteSpares(loaded, c', x);
  }

  lemma ResumeSpares(m: Manifest, loaded: Conn, c: Conn, env: Env, x: Faults)
    ensures Resume(m, loaded, c, env, x) == Resume(m, loaded, c, env, Relevant(loaded, x))
  {
    if loaded.step.Some? {
      AdvanceSpares(loaded, c, NextStep(m.flow, env, loaded.step.value), x);
    }
  }

  /** No operation fails for a health or state write that its loaded copy shows to be needless. */
  lemma NeedlessWritesDoNotFail(m: Manifest, loaded: Conn, c: Conn, op: Op)
    requires -1 <= m.flow.authBoundary
    ensures Do(m, loaded, c, op) == Do(m, loaded, c, op.(x := Relevant(loaded, op.x)))
  {
    match op
    case Submit(id, env, after, x) => SubmitSpares(m, loaded, c, id, env, after, x);
    case Callback(env, x) => CallbackSpares(m, loaded, c, env, x);
    case AuthError(_, _) =>
    case Verify(env, passing, after, x) => VerifySpares(m, loaded, c, env, passing, after, x);
    case Retry(_, _) =>
    case Reauthorize(_, _) =>
    case Reconfiguration(env, x) =>
      AdvanceSpares(loaded, c, FirstConfigure(m.flow, env, m.flow.authBoundary + 1), x);
    case Cancel(_) =>
    case Reload(env, x) => ResumeSpares(m, loaded, c, env, x);
  }

  lemma NoticeAfterCompletion(m: Manifest, loaded: Conn, c: Conn, id: string, x: Faults)
    ensures var o := AfterSubmit(m, loaded, c, id, NoStep, x);
      o.reply == Faulted ==> (AuthRequired in o.conn.notices <==> AuthRequired in c.notices)
  {
  }

  /** A submit whose completion fails leaves the auth notice as it was. */
  lemma FailedCompletionKeepsNotice(m: Manifest, loaded: Conn, c: Conn, id: string, env: Env, after: Env, x: Faults)
    requires SubmitForm(m, loaded, c, id, env, after, x).reply == Faulted
    requires forall s :: StepById(m.flow, env, id) == Found(s) ==> NextStep(m.flow, after, s.id) == NoStep
    ensures AuthRequired in SubmitForm(m, loaded, c, id, env, after, x).conn.notices <==> AuthRequired in c.notices
  {
    if StepById(m.flow, env, id).Found? {
      NoticeAfterCompletion(m, loaded, c, StepById(m.flow, env, id).step.id, x);
    }
  }

  /** A failure to render a page, and no other, fails an operation exactly when it would show a redirect. */
  lemma RenderFailsRedirectsOnly(m: Manifest, loaded: Conn, c: Conn, op: Op)
    requires -1 <= m.flow.authBoundary && op.x == NO_FAULTS.(render := true)
    ensures Do(m, loaded, c, op) == Do(m, loaded, c, Without(op)) <==>
      !Do(m, loaded, c, Without(op)).reply.ShowRedirect?
  {
    OpHonest(m, loaded, c, op);
    if op.Submit? {
      RenderFailsSubmit(m, loaded, c, op.stepId, op.env, op.after);
    }
  }

  lemma RenderFailsSubmit(m: Manifest, loaded: Conn, c: Conn, id: string, env: Env, after: Env)
    ensures var free := SubmitForm(m, loaded, c, id, env, after, NO_FAULTS);
      !free.reply.ShowRedirect? ==>
      SubmitForm(m, loaded, c, id, env, after, NO_FAULTS.(render := true)) == free
  {
  }
}
