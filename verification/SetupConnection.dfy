/**
 The stored connection row, updated in place by the setup operations, each of which works from a copy that it loaded
 before. Beside the row function of SetupRun that each operation computes, its contract says what a caller may rely on:
 which fields it may touch, what a reply means for the row, and that the row stays one that Resume can show.
 */
module SetupConnection {
  import opened Connections
  import opened Options
  import opened SetupFlow
  import R = SetupRun

  class Connection {
    const m: R.Manifest
    var state: ConnState
    var step: Option<string>
    var setupError: Option<string>
    var healthy: bool
    var notices: set<R.Notice>
    var verifyTasks: nat

    /** The stored step is none, a failure step or one the manifest knows. */
    ghost predicate Valid()
      reads this
    {
      R.Valid(m) && R.Known(m, Row())
    }

    function Row(): R.Conn
      reads this
    {
      R.Conn(state, step, setupError, healthy, notices, verifyTasks)
    }

    constructor (m: R.Manifest)
      requires R.Valid(m)
      ensures this.m == m && Valid() && Row() == R.NEW
    {
      this.m := m;
      state, step, setupError, healthy, notices, verifyTasks := Setup, None, None, true, {}, 0;
    }

    /** Every operation starts by loading the row. */
    method Load() returns (loaded: R.Conn)
      ensures loaded == Row()
    {
      return Row();
    }

    /** The end of InitiateConnection: configured at once exactly when the flow offers no step, else at its first step. */
    method Begin(env: Env, x: R.Faults) returns (reply: R.Reply)
      requires Valid() && Row() == R.NEW
      modifies this`state, this`step, this`notices, this`verifyTasks
      ensures Valid() && R.Shows(Row(), reply)
      ensures state == Configured <==> FirstStep(m.flow, env) == NoStep && !x.state
      ensures step.Some? ==> state == Setup && FirstStep(m.flow, env).Found? && step.value == FirstStep(m.flow, env).step.id
      ensures R.Out(Row(), reply) == R.Initiate(m, env, x)
    {
      var first := FirstStep(m.flow, env);
      R.OffersKnown(m, env, VERIFY_ID);
      R.FirstKind(m, env);
      reply := AdvanceOrComplete(R.NEW, first, x);
    }

    /** Health, error and tasks are never touched; Complete means configured, no step and no setup notice. */
    method CompleteFlow(loaded: R.Conn, x: R.Faults) returns (reply: R.Reply)
      requires Valid()
      modifies this`state, this`step, this`notices
      ensures Valid() && (loaded == old(Row()) ==> R.Shows(Row(), reply))
      ensures reply == R.Complete ==> notices == old(notices) - {R.SetupRequired}
      ensures reply == R.Complete ==> (loaded.state != Configured ==> state == Configured) && (loaded.step.Some? ==> step.None?)
      ensures reply != R.Complete ==> reply == R.Faulted && notices == old(notices)
      ensures state == Configured ==> loaded.step.None? || step.None? || old(state) == Configured
      ensures old(state) == Configured ==> state == Configured
      ensures R.Out(Row(), reply) == R.CompleteFlow(loaded, old(Row()), x)
    {
      if loaded.step.Some? {
        if x.step { return R.Faulted; }
        step := None;
      }
      if loaded.state != Configured {
        if x.state { return R.Faulted; }
        state := Configured;
      }
      if x.resolveSetup { return R.Faulted; }
      notices := notices - {R.SetupRequired};
      return R.Complete;
    }

    /** A page is shown exactly when the step is stored, and verify is shown exactly when a task was queued. */
    method AdvanceToStep(next: Step, x: R.Faults) returns (reply: R.Reply)
      requires Valid() && ContainsStep(m.flow, next.id) && (next.kind.Verify? <==> next.id == VERIFY_ID)
      modifies this`step, this`verifyTasks
      ensures Valid() && R.Shows(Row(), reply)
      ensures reply == R.Rejected ==> Row() == old(Row())
      ensures reply == R.Faulted ==> verifyTasks == old(verifyTasks)
      ensures reply != R.Rejected && reply != R.Faulted ==> step == Some(next.id)
      ensures reply == R.ShowVerifying <==> verifyTasks == old(verifyTasks) + 1
      ensures R.Out(Row(), reply) == R.AdvanceToStep(old(Row()), next, x)
    {
      if next.kind.Redirect? && x.render { return R.Rejected; }
      if x.step { return R.Faulted; }
      step := Some(next.id);
      if next.kind.Verify? {
        if x.enqueue { return R.Faulted; }
        verifyTasks := verifyTasks + 1;
      }
      return R.Page(next);
    }

    method AdvanceOrComplete(loaded: R.Conn, next: Lookup, x: R.Faults) returns (reply: R.Reply)
      requires Valid() && R.KnownLookup(m, next)
      requires R.VerifyOnly(next)
      modifies this`state, this`step, this`notices, this`verifyTasks
      ensures Valid() && (loaded == old(Row()) ==> R.Shows(Row(), reply))
      ensures reply.ShowForm? || reply.ShowRedirect? || reply.ShowVerifying? ==> R.Shows(Row(), reply)
      ensures old(state) == Configured ==> state == Configured
      ensures R.Out(Row(), reply) == R.AdvanceOrComplete(loaded, old(Row()), next, x)
    {
      match next
      case Fault => reply := R.Faulted;
      case NoStep => reply := CompleteFlow(loaded, x);
      case Found(s) => reply := AdvanceToStep(s, x);
    }

    /** A refused submit changes nothing; an accepted one shows the stored step or completes. */
    method SubmitForm(loaded: R.Conn, stepId: string, env: Env, after: Env, x: R.Faults) returns (reply: R.Reply)
      requires Valid()
      modifies this`state, this`step, this`notices, this`verifyTasks
      ensures Valid() && (loaded == old(Row()) ==> R.Shows(Row(), reply))
      ensures reply.ShowForm? || reply.ShowRedirect? || reply.ShowVerifying? ==> R.Shows(Row(), reply)
      ensures loaded.step != Some(stepId) ==> reply == R.Rejected && Row() == old(Row())
      ensures old(state) == Configured ==> state == Configured
      ensures R.Out(Row(), reply) == R.SubmitForm(m, loaded, old(Row()), stepId, env, after, x)
    {
      if loaded.step.None? || stepId == "" || stepId != loaded.step.value { return R.Rejected; }
      var current := StepById(m.flow, env, stepId);
      if !current.Found? { return R.Faulted; }
      if !current.step.kind.Form? || x.submit { return R.Rejected; }
      var next := FindNextStep(m.flow, after, current.step.id);
      R.OffersKnown(m, after, current.step.id);
      R.NextKind(m, after, current.step.id);
      reply := AfterSubmit(loaded, current.step.id, next, x);
    }

    method AfterSubmit(loaded: R.Conn, id: string, next: Lookup, x: R.Faults) returns (reply: R.Reply)
      requires Valid() && R.KnownLookup(m, next)
      requires R.VerifyOnly(next)
      modifies this`state, this`step, this`notices, this`verifyTasks
      ensures Valid() && (loaded == old(Row()) ==> R.Shows(Row(), reply))
      ensures reply.ShowForm? || reply.ShowRedirect? || reply.ShowVerifying? ==> R.Shows(Row(), reply)
      ensures old(state) == Configured ==> state == Configured
      ensures R.Out(Row(), reply) == R.AfterSubmit(m, loaded, old(Row()), id, next, x)
    {
      match next
      case Fault => return R.Faulted;
      case NoStep =>
        reply := CompleteFlow(loaded, x);
        if reply == R.Faulted { return; }
        var ok := ResolveAuth(id, x);
        if !ok { return R.Faulted; }
      case Found(s) =>
        if !s.kind.Verify? {
          var ok := ResolveAuth(id, x);
          if !ok { return R.Faulted; }
        }
        reply := AdvanceToStep(s, x);
    }

    /** Resolve the auth notice when the step belongs to the auth method. */
    method ResolveAuth(id: string, x: R.Faults) returns (ok: bool)
      modifies this`notices
      ensures ok == !(R.AuthMethodStep(m, id) && x.resolveAuth)
      ensures notices == if ok && R.AuthMethodStep(m, id) then old(notices) - {R.AuthRequired} else old(notices)
    {
      if !R.AuthMethodStep(m, id) { return true; }
      if x.resolveAuth { return false; }
      notices := notices - {R.AuthRequired};
      return true;
    }

    /** Done means healthy, as loaded or as written, and the auth notice stays exactly when verify is now to decide. */
    method HandleCredentialsEstablished(loaded: R.Conn, env: Env, x: R.Faults) returns (reply: R.Reply)
      requires Valid()
      modifies this`state, this`step, this`notices, this`verifyTasks, this`healthy
      ensures Valid() && (reply == R.Done || reply == R.Faulted)
      ensures if loaded.healthy then healthy == old(healthy) else (old(healthy) || reply == R.Done ==> healthy)
      ensures reply == R.Done ==> (R.AuthRequired in notices <==> R.AuthRequired in old(notices) && step == Some(VERIFY_ID))
      ensures old(state) == Configured ==> state == Configured
      ensures R.Out(Row(), reply) == R.HandleCredentialsEstablished(m, loaded, old(Row()), env, x)
    {
      if loaded.step.None? { return R.Faulted; }
      if !loaded.healthy {
        if x.health { return R.Faulted; }
        healthy := true;
      }
      var next := FindNextStep(m.flow, env, loaded.step.value);
      R.OffersKnown(m, env, loaded.step.value);
      R.NextKind(m, env, loaded.step.value);
      reply := AfterCredentials(loaded, next, x);
    }

    method AfterCredentials(loaded: R.Conn, next: Lookup, x: R.Faults) returns (reply: R.Reply)
      requires Valid() && R.KnownLookup(m, next) && R.VerifyOnly(next) && loaded.step.Some?
      modifies this`state, this`step, this`notices, this`verifyTasks
      ensures Valid() && (reply == R.Done || reply == R.Faulted)
      ensures reply == R.Done ==> (R.AuthRequired in notices <==> R.AuthRequired in old(notices) && step == Some(VERIFY_ID))
      ensures old(state) == Configured ==> state == Configured
      ensures R.Out(Row(), reply) == R.AfterCredentials(loaded, old(Row()), next, x)
    {
      match next {
      case Fault => return R.Faulted;
      case NoStep =>
        reply := CompleteFlow(loaded, x);
        if reply == R.Faulted || x.resolveAuth { return R.Faulted; }
        notices := notices - {R.AuthRequired};
      case Found(s) =>
        if x.step { return R.Faulted; }
        step := Some(s.id);
        if s.kind.Verify? {
          if x.enqueue { return R.Faulted; }
          verifyTasks := verifyTasks + 1;
        } else {
          if x.resolveAuth { return R.Faulted; }
          notices := notices - {R.AuthRequired};
        }
      }
      return R.Done;
    }

    /** The failure step is never stored without its message. */
    method HandleAuthFailed(message: string, x: R.Faults) returns (reply: R.Reply)
      requires Valid()
      modifies this`setupError, this`step
      ensures Valid()
      ensures reply == R.Done <==> !x.error && !x.step
      ensures step != old(step) ==> step == Some(AUTH_FAILED_ID) && setupError == Some(message)
      ensures reply == R.Done ==> step == Some(AUTH_FAILED_ID) && setupError == Some(message)
      ensures R.Out(Row(), reply) == R.HandleAuthFailed(old(Row()), message, x)
    {
      if x.error { return R.Faulted; }
      setupError := Some(message);
      if x.step { return R.Faulted; }
      step := Some(AUTH_FAILED_ID);
      return R.Done;
    }

    /** The row may have changed since the task loaded it. */
    method OnVerifyPassed(loaded: R.Conn, env: Env, x: R.Faults) returns (reply: R.Reply)
      requires Valid()
      modifies this`state, this`step, this`notices, this`healthy
      ensures Valid()
      ensures old(state) == Configured ==> state == Configured
      ensures reply != R.Faulted ==> R.AuthRequired !in notices
      ensures R.Out(Row(), reply) == R.OnVerifyPassed(m, loaded, old(Row()), env, x)
    {
      if !loaded.healthy {
        if x.health { return R.Faulted; }
        healthy := true;
      }
      if x.resolveAuth { return R.Faulted; }
      notices := notices - {R.AuthRequired};
      var next := FindNextStep(m.flow, env, VERIFY_ID);
      R.OffersKnown(m, env, VERIFY_ID);
      match next
      case Fault => return R.Faulted;
      case NoStep => reply := CompleteFlow(loaded, x);
      case Found(s) =>
        if x.step { return R.Faulted; }
        step := Some(s.id);
        return R.Done;
    }

    /** The start of the verify task: it loads the row, and does nothing more when another step is current. */
    method BeginVerify(env: Env) returns (loaded: R.Conn, probes: Option<seq<string>>, reply: R.Reply)
      ensures loaded == Row()
      ensures probes.Some? <==> step == Some(VERIFY_ID) && env.enabledProbes.Some?
      ensures probes.Some? ==> probes == env.enabledProbes
      ensures reply == R.Faulted <==> step == Some(VERIFY_ID) && env.enabledProbes.None?
    {
      loaded := Load();
      if loaded.step != Some(VERIFY_ID) { return loaded, None, R.Done; }
      if env.enabledProbes.None? { return loaded, None, R.Faulted; }
      return loaded, env.enabledProbes, R.Done;
    }

    /** The rest of it: the first failing probe ends the run with its id as the error, else the setup moves on. */
    method EndVerify(loaded: R.Conn, probes: seq<string>, passing: set<string>, after: Env, x: R.Faults) returns (reply: R.Reply)
      requires Valid()
      modifies this`state, this`step, this`notices, this`healthy, this`setupError
      ensures Valid()
      ensures old(state) == Configured ==> state == Configured
      ensures reply == R.Rejected ==> step == Some(VERIFY_FAILED_ID) && setupError.Some? && setupError.value in probes
      ensures R.Out(Row(), reply) == R.EndVerify(m, loaded, old(Row()), probes, passing, after, x)
    {
      for i := 0 to |probes|
        invariant Row() == old(Row())
        invariant R.FirstFailing(probes, passing) == R.FirstFailing(probes[i..], passing)
      {
        if probes[i] in passing { continue; }
        if x.error { return R.Faulted; }
        setupError := Some(probes[i]);
        if x.step { return R.Faulted; }
        step := Some(VERIFY_FAILED_ID);
        return R.Rejected;
      }
      reply := OnVerifyPassed(loaded, after, x);
    }

    /** The page shown is the flow's first step, with no error left; state, health and notices are never touched. */
    method Restart(env: Env, x: R.Faults) returns (reply: R.Reply)
      requires Valid()
      modifies this`setupError, this`step, this`verifyTasks
      ensures Valid() && R.Shows(Row(), reply)
      ensures setupError == if x.error then old(setupError) else None
      ensures reply.ShowForm? || reply.ShowRedirect? || reply.ShowVerifying? ==>
        setupError.None? && FirstStep(m.flow, env).Found? && step == Some(FirstStep(m.flow, env).step.id)
      ensures R.Out(Row(), reply) == R.Restart(m, old(Row()), env, x)
    {
      if x.error { return R.Faulted; }
      setupError := None;
      R.OffersKnown(m, env, VERIFY_ID);
      R.FirstKind(m, env);
      match FirstStep(m.flow, env)
      case Fault => reply := R.Faulted;
      case NoStep => reply := R.Rejected;
      case Found(s) => reply := AdvanceToStep(s, x);
    }

    /** Nothing happens unless a failure step is current; a page shown is the flow's first step, with no error left. */
    method RetrySetup(loaded: R.Conn, env: Env, x: R.Faults) returns (reply: R.Reply)
      requires Valid()
      modifies this`setupError, this`step, this`verifyTasks
      ensures Valid() && R.Shows(Row(), reply)
      ensures loaded.step.None? || !Terminal(loaded.step.value) ==> reply == R.Rejected && Row() == old(Row())
      ensures reply.ShowForm? || reply.ShowRedirect? || reply.ShowVerifying? ==>
        setupError.None? && FirstStep(m.flow, env).Found? && step == Some(FirstStep(m.flow, env).step.id)
      ensures R.Out(Row(), reply) == R.RetrySetup(m, loaded, old(Row()), env, x)
    {
      if loaded.step.None? || !Terminal(loaded.step.value) { return R.Rejected; }
      reply := Restart(env, x);
    }

    /** Nothing happens unless the connection was configured and has auth steps; its state is never touched. */
    method Reauth(loaded: R.Conn, env: Env, x: R.Faults) returns (reply: R.Reply)
      requires Valid()
      modifies this`setupError, this`step, this`verifyTasks
      ensures Valid() && R.Shows(Row(), reply)
      ensures loaded.state != Configured ==> reply == R.Rejected && Row() == old(Row())
      ensures reply.ShowForm? || reply.ShowRedirect? || reply.ShowVerifying? ==>
        setupError.None? && FirstStep(m.flow, env).Found? && step == Some(FirstStep(m.flow, env).step.id)
      ensures R.Out(Row(), reply) == R.Reauth(m, loaded, old(Row()), env, x)
    {
      if loaded.state != Configured { return R.Rejected; }
      if m.flow.authBoundary + 1 <= m.preconnect { return R.Rejected; }
      reply := Restart(env, x);
    }

    /** The loop over the configure steps: the first that the flow still offers. */
    method FindConfigure(env: Env) returns (first: Lookup)
      requires Valid()
      ensures first == NextStep(m.flow, env, VERIFY_ID)
      ensures first == R.FirstConfigure(m.flow, env, m.flow.authBoundary + 1)
    {
      var from := m.flow.authBoundary + 1;
      R.ReconfigureFollowsVerify(m.flow, env, from);
      for i := from to |m.flow.steps|
        invariant R.FirstConfigure(m.flow, env, from) == R.FirstConfigure(m.flow, env, i)
      {
        var candidate := StepById(m.flow, env, m.flow.steps[i].id);
        if candidate != NoStep { return candidate; }
      }
      return NoStep;
    }

    /** The step opened is the one a passing verify run would move to; its state is never touched. */
    method Reconfigure(loaded: R.Conn, env: Env, x: R.Faults) returns (reply: R.Reply)
      requires Valid()
      modifies this`state, this`step, this`notices, this`verifyTasks
      ensures Valid() && (loaded == old(Row()) ==> R.Shows(Row(), reply)) && state == old(state)
      ensures loaded.state != Configured ==> reply == R.Rejected && Row() == old(Row())
      ensures reply.ShowForm? || reply.ShowRedirect? ==>
        NextStep(m.flow, env, VERIFY_ID).Found? && step == Some(NextStep(m.flow, env, VERIFY_ID).step.id)
      ensures R.Out(Row(), reply) == R.Reconfigure(m, loaded, old(Row()), env, x)
    {
      if loaded.state != Configured { return R.Rejected; }
      if m.flow.authBoundary + 1 >= |m.flow.steps| { return R.Rejected; }
      var first := FindConfigure(env);
      R.OffersKnown(m, env, VERIFY_ID);
      R.NextKind(m, env, VERIFY_ID);
      reply := AdvanceOrComplete(loaded, first, x);
    }

    /** Only the step and the error may go, and Done means that those it saw are gone. */
    method CancelSetup(loaded: R.Conn, x: R.Faults) returns (reply: R.Reply)
      requires Valid()
      modifies this`step, this`setupError
      ensures Valid()
      ensures (step == old(step) || step.None?) && (setupError == old(setupError) || setupError.None?)
      ensures reply == R.Done ==> (loaded.step.Some? ==> step.None?) && (loaded.setupError.Some? ==> setupError.None?)
      ensures loaded == old(Row()) ==> (reply == R.Done <==> R.AtRest(Row()))
      ensures reply == R.Rejected <==> loaded.state != Configured
      ensures reply == R.Rejected ==> Row() == old(Row())
      ensures R.Out(Row(), reply) == R.CancelSetup(loaded, old(Row()), x)
    {
      if loaded.state != Configured { return R.Rejected; }
      if loaded.step.None? && loaded.setupError.None? { return R.Done; }
      if loaded.step.Some? {
        if x.step { return R.Faulted; }
        step := None;
      }
      if loaded.setupError.Some? {
        if x.error { return R.Faulted; }
        setupError := None;
      }
      return R.Done;
    }

    /** What is shown is what was loaded or is now stored, and showing the current step changes nothing. */
    method Resume(loaded: R.Conn, env: Env, x: R.Faults) returns (reply: R.Reply)
      requires Valid()
      modifies this`state, this`step, this`notices, this`verifyTasks
      ensures Valid() && (loaded == old(Row()) ==> R.Shows(Row(), reply))
      ensures reply.ShowForm? || reply.ShowRedirect? || reply.ShowVerifying? ==> R.Shows(loaded, reply) || R.Shows(Row(), reply)
      ensures loaded.step.Some? && !Terminal(loaded.step.value) && StepById(m.flow, env, loaded.step.value) != NoStep ==>
        Row() == old(Row())
      ensures old(state) == Configured ==> state == Configured
      ensures R.Out(Row(), reply) == R.Resume(m, loaded, old(Row()), env, x)
    {
      if loaded.step.None? { return R.Complete; }
      var id := loaded.step.value;
      if Terminal(id) { return R.ShowError(loaded.setupError); }
      var current := StepById(m.flow, env, id);
      match current
      case Fault => reply := R.Faulted;
      case Found(s) =>
        R.CurrentIsShown(m, env, id);
        reply := if s.kind.Redirect? && x.render then R.Faulted else R.Page(s);
      case NoStep =>
        if !ContainsStep(m.flow, id) { return R.Faulted; }
        R.OffersKnown(m, env, id);
        R.NextKind(m, env, id);
        var next := FindNextStep(m.flow, env, id);
        reply := AdvanceOrComplete(loaded, next, x);
    }
  }
}
