/**
 A connection going through setup: every operation that moves its setup step, what each of them keeps and what one
 undoes of another. An operation works from the copy of the row that its handler loaded, which decides what is written;
 the writes change the row as it is by then. Each write to the row, the task queue or the notification store may fail; an
 operation stops at the first failed write and keeps the ones before it.
 */
module SetupRun {
  import opened Connections
  import opened Options
  import opened SetupFlow

  datatype Notice = AuthRequired | SetupRequired

  datatype Conn = Conn(state: ConnState, step: Option<string>, setupError: Option<string>, healthy: bool,
                       notices: set<Notice>, verifyTasks: nat)

  /** Which writes of one operation fail; `submit` and `render` are the step's own closures. */
  datatype Faults = Faults(step: bool, state: bool, error: bool, health: bool, resolveAuth: bool,
                           resolveSetup: bool, enqueue: bool, submit: bool, render: bool)

  datatype Reply = Rejected | Faulted | Done | Complete | ShowForm(id: string) | ShowRedirect(id: string)
                 | ShowVerifying | ShowError(message: Option<string>)

  datatype Out = Out(conn: Conn, reply: Reply)

  /** The flow and how many of its credential steps come from the connector's preconnect phase. */
  datatype Manifest = Manifest(flow: Flow, preconnect: nat)

  ghost predicate Valid(m: Manifest) {
    WellFormed(m.flow) && m.preconnect <= m.flow.authBoundary + 1
  }

  // ---------------------------------------------------------------------------------------------
  // Operations on the row
  // ---------------------------------------------------------------------------------------------

  /** `loaded` is the handler's copy and `c` the stored row; they differ when another operation has written in between. */
  function CompleteFlow(loaded: Conn, c: Conn, x: Faults): Out {
    if loaded.step.Some? && x.step then Out(c, Faulted)
    else
      var c := if loaded.step.Some? then c.(step := None) else c;
      if loaded.state != Configured && x.state then Out(c, Faulted)
      else
        var c := if loaded.state != Configured then c.(state := Configured) else c;
        if x.resolveSetup then Out(c, Faulted)
        else Out(c.(notices := c.notices - {SetupRequired}), Complete)
  }

  function Page(s: Step): Reply {
    match s.kind
    case Form => ShowForm(s.id)
    case Redirect => ShowRedirect(s.id)
    case Verify => ShowVerifying
  }

  function AdvanceToStep(c: Conn, next: Step, x: Faults): Out {
    if next.kind.Redirect? && x.render then Out(c, Rejected)
    else if x.step then Out(c, Faulted)
    else
      var c := c.(step := Some(next.id));
      if next.kind.Verify? then
        if x.enqueue then Out(c, Faulted) else Out(c.(verifyTasks := c.verifyTasks + 1), ShowVerifying)
      else Out(c, Page(next))
  }

  function AdvanceOrComplete(loaded: Conn, c: Conn, next: Lookup, x: Faults): Out {
    match next
    case Fault => Out(c, Faulted)
    case NoStep => CompleteFlow(loaded, c, x)
    case Found(s) => AdvanceToStep(c, s, x)
  }

  const NEW := Conn(Setup, None, None, true, {}, 0)

  function Initiate(m: Manifest, env: Env, x: Faults): Out {
    AdvanceOrComplete(NEW, NEW, FirstStep(m.flow, env), x)
  }

  /** A step emitted by the auth method: not one of the connector's own preconnect or configure steps. */
  predicate AuthMethodStep(m: Manifest, id: string) {
    var i := IndexOf(m.flow.steps, id);
    i == |m.flow.steps| || m.preconnect <= i <= m.flow.authBoundary
  }

  function ResolveAuthAfterSubmit(m: Manifest, o: Out, id: string, x: Faults): Out {
    if !AuthMethodStep(m, id) then o
    else if x.resolveAuth then Out(o.conn, Faulted)
    else o.(conn := o.conn.(notices := o.conn.notices - {AuthRequired}))
  }

  /** After the submit of step `id` has been accepted, with `next` its successor. */
  function AfterSubmit(m: Manifest, loaded: Conn, c: Conn, id: string, next: Lookup, x: Faults): Out {
    match next
    case Fault => Out(c, Faulted)
    case NoStep =>
      var o := CompleteFlow(loaded, c, x);
      if o.reply == Faulted then o else ResolveAuthAfterSubmit(m, o, id, x)
    case Found(s) =>
      if s.kind.Verify? then AdvanceToStep(c, s, x)
      else
        var o := ResolveAuthAfterSubmit(m, Out(c, Done), id, x);
        if o.reply == Faulted then o else AdvanceToStep(o.conn, s, x)
  }

  /** `env` holds the answers before the submitted data is stored, `after` those once it is. */
  function SubmitForm(m: Manifest, loaded: Conn, c: Conn, stepId: string, env: Env, after: Env, x: Faults): Out {
    if loaded.step.None? || stepId == "" || stepId != loaded.step.value then Out(c, Rejected)
    else match StepById(m.flow, env, stepId)
      case Fault => Out(c, Faulted)
      case NoStep => Out(c, Faulted)
      case Found(current) =>
        if !current.kind.Form? || x.submit then Out(c, Rejected)
        else AfterSubmit(m, loaded, c, current.id, NextStep(m.flow, after, current.id), x)
  }

  /** Credentials are stored and the connection is marked healthy; `next` is the step that follows. */
  function AfterCredentials(loaded: Conn, c: Conn, next: Lookup, x: Faults): Out {
    match next
    case Fault => Out(c, Faulted)
    case NoStep =>
      var o := CompleteFlow(loaded, c, x);
      if o.reply == Faulted then o
      else if x.resolveAuth then Out(o.conn, Faulted)
      else Out(o.conn.(notices := o.conn.notices - {AuthRequired}), Done)
    case Found(s) =>
      if x.step then Out(c, Faulted)
      else
        var c := c.(step := Some(s.id));
        if s.kind.Verify? then
          if x.enqueue then Out(c, Faulted) else Out(c.(verifyTasks := c.verifyTasks + 1), Done)
        else if x.resolveAuth then Out(c, Faulted)
        else Out(c.(notices := c.notices - {AuthRequired}), Done)
  }

  function HandleCredentialsEstablished(m: Manifest, loaded: Conn, c: Conn, env: Env, x: Faults): Out {
    if loaded.step.None? then Out(c, Faulted)
    else if !loaded.healthy && x.health then Out(c, Faulted)
    else
      var c := if loaded.healthy then c else c.(healthy := true);
      AfterCredentials(loaded, c, NextStep(m.flow, env, loaded.step.value), x)
  }

  function HandleAuthFailed(c: Conn, message: string, x: Faults): Out {
    if x.error then Out(c, Faulted)
    else
      var c := c.(setupError := Some(message));
      if x.step then Out(c, Faulted) else Out(c.(step := Some(AUTH_FAILED_ID)), Done)
  }

  function OnVerifyFailed(c: Conn, probe: string, x: Faults): Out {
    if x.error then Out(c, Faulted)
    else
      var c := c.(setupError := Some(probe));
      if x.step then Out(c, Faulted) else Out(c.(step := Some(VERIFY_FAILED_ID)), Rejected)
  }

  function OnVerifyPassed(m: Manifest, loaded: Conn, c: Conn, env: Env, x: Faults): Out {
    if !loaded.healthy && x.health then Out(c, Faulted)
    else
      var c := if loaded.healthy then c else c.(healthy := true);
      if x.resolveAuth then Out(c, Faulted)
      else
        var c := c.(notices := c.notices - {AuthRequired});
        match NextStep(m.flow, env, VERIFY_ID)
        case Fault => Out(c, Faulted)
        case NoStep => CompleteFlow(loaded, c, x)
        case Found(next) => if x.step then Out(c, Faulted) else Out(c.(step := Some(next.id)), Done)
  }

  /** The first probe that does not pass: every probe before it does. */
  function FirstFailing(probes: seq<string>, passing: set<string>): (r: Option<string>)
    ensures r.None? <==> forall p :: p in probes ==> p in passing
    ensures r.Some? ==> r.value !in passing && exists i :: 0 <= i < |probes| && probes[i] == r.value && AllIn(probes[..i], passing)
  {
    if probes == [] then None
    else if probes[0] !in passing then Some(probes[0])
    else
      var r := FirstFailing(probes[1..], passing);
      assert r.Some? ==> exists i :: 0 <= i < |probes| && probes[i] == r.value && AllIn(probes[..i], passing) by {
        if r.Some? {
          var i :| 0 <= i < |probes[1..]| && probes[1..][i] == r.value && AllIn(probes[1..][..i], passing);
          assert probes[..i + 1] == [probes[0]] + probes[1..][..i];
        }
      }
      r
  }

  predicate AllIn(probes: seq<string>, passing: set<string>) {
    forall p :: p in probes ==> p in passing
  }

  /** What the probes say is written, with no second look at the row. */
  function EndVerify(m: Manifest, loaded: Conn, c: Conn, probes: seq<string>, passing: set<string>, after: Env, x: Faults): Out {
    match FirstFailing(probes, passing)
    case Some(probe) => OnVerifyFailed(c, probe, x)
    case None => OnVerifyPassed(m, loaded, c, after, x)
  }

  /** The verify task: one that loaded another step does nothing. */
  function RunVerify(m: Manifest, loaded: Conn, c: Conn, env: Env, passing: set<string>, after: Env, x: Faults): Out {
    if loaded.step != Some(VERIFY_ID) then Out(c, Done)
    else match env.enabledProbes
      case None => Out(c, Faulted)
      case Some(probes) => EndVerify(m, loaded, c, probes, passing, after, x)
  }

  /** Clear the setup error, then go to the first step; an empty flow is refused. */
  function Restart(m: Manifest, c: Conn, env: Env, x: Faults): Out {
    if x.error then Out(c, Faulted)
    else
      var c := c.(setupError := None);
      match FirstStep(m.flow, env)
      case Fault => Out(c, Faulted)
      case NoStep => Out(c, Rejected)
      case Found(first) => AdvanceToStep(c, first, x)
  }

  function RetrySetup(m: Manifest, loaded: Conn, c: Conn, env: Env, x: Faults): Out {
    if loaded.step.None? || !Terminal(loaded.step.value) then Out(c, Rejected) else Restart(m, c, env, x)
  }

  function Reauth(m: Manifest, loaded: Conn, c: Conn, env: Env, x: Faults): Out {
    if loaded.state != Configured || m.flow.authBoundary + 1 <= m.preconnect then Out(c, Rejected)
    else Restart(m, c, env, x)
  }

  /** The first of the configure steps from position i on that the flow still offers. */
  function FirstConfigure(f: Flow, env: Env, i: nat): Lookup
    decreases |f.steps| - i
  {
    if i >= |f.steps| then NoStep
    else
      var s := StepById(f, env, f.steps[i].id);
      if s == NoStep then FirstConfigure(f, env, i + 1) else s
  }

  function Reconfigure(m: Manifest, loaded: Conn, c: Conn, env: Env, x: Faults): Out
    requires -1 <= m.flow.authBoundary
  {
    if loaded.state != Configured || m.flow.authBoundary + 1 >= |m.flow.steps| then Out(c, Rejected)
    else AdvanceOrComplete(loaded, c, FirstConfigure(m.flow, env, m.flow.authBoundary + 1), x)
  }

  function CancelSetup(loaded: Conn, c: Conn, x: Faults): Out {
    if loaded.state != Configured then Out(c, Rejected)
    else if loaded.step.Some? && x.step then Out(c, Faulted)
    else
      var c := if loaded.step.Some? then c.(step := None) else c;
      if loaded.setupError.None? then Out(c, Done)
      else if x.error then Out(c, Faulted)
      else Out(c.(setupError := None), Done)
  }

  function Resume(m: Manifest, loaded: Conn, c: Conn, env: Env, x: Faults): Out {
    if loaded.step.None? then Out(c, Complete)
    else if Terminal(loaded.step.value) then Out(c, ShowError(loaded.setupError))
    else match StepById(m.flow, env, loaded.step.value)
      case Fault => Out(c, Faulted)
      case Found(s) => if s.kind.Redirect? && x.render then Out(c, Faulted) else Out(c, Page(s))
      case NoStep =>
        if !ContainsStep(m.flow, loaded.step.value) then Out(c, Faulted)
        else AdvanceOrComplete(loaded, c, NextStep(m.flow, env, loaded.step.value), x)
  }

  /** What a handler may do once it has loaded the row. */
  datatype Op =
    | Submit(stepId: string, env: Env, after: Env, x: Faults)
    | Callback(env: Env, x: Faults)
    | AuthError(message: string, x: Faults)
    | Verify(env: Env, passing: set<string>, after: Env, x: Faults)
    | Retry(env: Env, x: Faults)
    | Reauthorize(env: Env, x: Faults)
    | Reconfiguration(env: Env, x: Faults)
    | Cancel(x: Faults)
    | Reload(env: Env, x: Faults)

  function Do(m: Manifest, loaded: Conn, c: Conn, op: Op): Out
    requires -1 <= m.flow.authBoundary
  {
    match op
    case Submit(id, env, after, x) => SubmitForm(m, loaded, c, id, env, after, x)
    case Callback(env, x) => HandleCredentialsEstablished(m, loaded, c, env, x)
    case AuthError(message, x) => HandleAuthFailed(c, message, x)
    case Verify(env, passing, after, x) => RunVerify(m, loaded, c, env, passing, after, x)
    case Retry(env, x) => RetrySetup(m, loaded, c, env, x)
    case Reauthorize(env, x) => Reauth(m, loaded, c, env, x)
    case Reconfiguration(env, x) => Reconfigure(m, loaded, c, env, x)
    case Cancel(x) => CancelSetup(loaded, c, x)
    case Reload(env, x) => Resume(m, loaded, c, env, x)
  }

  // ---------------------------------------------------------------------------------------------
  // What every operation keeps
  // ---------------------------------------------------------------------------------------------

  /** The stored step is none, a failure step or one the manifest knows. */
  ghost predicate Known(m: Manifest, c: Conn) {
    c.step.Some? ==> Terminal(c.step.value) || ContainsStep(m.flow, c.step.value)
  }

  /** The step stays known and a configured connection configured. */
  ghost predicate Keeps(m: Manifest, c: Conn, d: Conn) {
    Known(m, d) && (c.state == Configured ==> d.state == Configured)
  }

  ghost predicate KnownLookup(m: Manifest, next: Lookup) {
    next.Found? ==> ContainsStep(m.flow, next.step.id)
  }

  /** Every step the flow offers is one it contains. */
  lemma OffersKnown(m: Manifest, env: Env, id: string)
    requires Valid(m)
    ensures KnownLookup(m, FirstStep(m.flow, env)) && KnownLookup(m, NextStep(m.flow, env, id))
  {
    if FirstStep(m.flow, env).Found? {
      FirstAdvances(m.flow, env);
    }
    if NextStep(m.flow, env, id).Found? {
      if id == VERIFY_ID {
        var _ := NextEligibleInRange(m.flow, env, m.flow.authBoundary + 1, |m.flow.steps| - 1);
      } else {
        NextAfterAdvances(m.flow, env, IndexOf(m.flow.steps, id));
      }
    }
  }

  ghost predicate VerifyOnly(next: Lookup) {
    next.Found? ==> (next.step.kind.Verify? <==> next.step.id == VERIFY_ID)
  }

  lemma NextEligibleIsOrdinary(f: Flow, env: Env, lo: int, hi: int)
    requires WellFormed(f)
    ensures VerifyOnly(NextEligibleStep(f, env, lo, hi))
  {
    if NextEligibleStep(f, env, lo, hi).Found? {
      var i := NextEligibleInRange(f, env, lo, hi);
      assert Ordinary(f.steps, i);
    }
  }

  /** The verify step is the only one of its kind. */
  lemma FirstKind(m: Manifest, env: Env)
    requires Valid(m)
    ensures VerifyOnly(FirstStep(m.flow, env))
  {
    var f, last := m.flow, |m.flow.steps| - 1;
    NextEligibleIsOrdinary(f, env, 0, f.authBoundary);
    NextEligibleIsOrdinary(f, env, 0, last);
  }

  lemma NextKind(m: Manifest, env: Env, id: string)
    requires Valid(m)
    ensures VerifyOnly(NextStep(m.flow, env, id))
  {
    var f, last, i := m.flow, |m.flow.steps| - 1, IndexOf(m.flow.steps, id);
    NextEligibleIsOrdinary(f, env, f.authBoundary + 1, last);
    NextEligibleIsOrdinary(f, env, i + 1, f.authBoundary);
    NextEligibleIsOrdinary(f, env, i + 1, last);
  }

  lemma CurrentIsShown(m: Manifest, env: Env, id: string)
    requires Valid(m) && StepById(m.flow, env, id).Found?
    ensures StepById(m.flow, env, id).step.id == id && VerifyOnly(StepById(m.flow, env, id))
  {
    var i := IndexOf(m.flow.steps, id);
    assert i < |m.flow.steps| ==> Ordinary(m.flow.steps, i);
  }

  lemma AdvanceKeeps(m: Manifest, loaded: Conn, c: Conn, next: Lookup, x: Faults)
    requires Known(m, c) && KnownLookup(m, next)
    ensures Keeps(m, c, AdvanceOrComplete(loaded, c, next, x).conn)
  {
  }

  lemma AfterSubmitKeeps(m: Manifest, loaded: Conn, c: Conn, id: string, next: Lookup, x: Faults)
    requires Known(m, c) && KnownLookup(m, next)
    ensures Keeps(m, c, AfterSubmit(m, loaded, c, id, next, x).conn)
  {
  }

  lemma SubmitKeeps(m: Manifest, loaded: Conn, c: Conn, stepId: string, env: Env, after: Env, x: Faults)
    requires Valid(m) && Known(m, c)
    ensures Keeps(m, c, SubmitForm(m, loaded, c, stepId, env, after, x).conn)
  {
    var current := StepById(m.flow, env, stepId);
    if current.Found? {
      var id := current.step.id;
      OffersKnown(m, after, id);
      AfterSubmitKeeps(m, loaded, c, id, NextStep(m.flow, after, id), x);
    }
  }

  lemma CallbackKeeps(m: Manifest, loaded: Conn, c: Conn, env: Env, x: Faults)
    requires Valid(m) && Known(m, c)
    ensures Keeps(m, c, HandleCredentialsEstablished(m, loaded, c, env, x).conn)
  {
    if loaded.step.Some? {
      OffersKnown(m, env, loaded.step.value);
    }
  }

  lemma VerifyKeeps(m: Manifest, loaded: Conn, c: Conn, env: Env, passing: set<string>, after: Env, x: Faults)
    requires Valid(m) && Known(m, c)
    ensures Keeps(m, c, RunVerify(m, loaded, c, env, passing, after, x).conn)
  {
    OffersKnown(m, after, VERIFY_ID);
  }

  lemma RestartKeeps(m: Manifest, c: Conn, env: Env, x: Faults)
    requires Valid(m) && Known(m, c)
    ensures Keeps(m, c, Restart(m, c, env, x).conn)
  {
    OffersKnown(m, env, VERIFY_ID);
  }

  lemma ReconfigureKeeps(m: Manifest, loaded: Conn, c: Conn, env: Env, x: Faults)
    requires Valid(m) && Known(m, c)
    ensures Keeps(m, c, Reconfigure(m, loaded, c, env, x).conn)
  {
    var first := FirstConfigure(m.flow, env, m.flow.authBoundary + 1);
    ReconfigureFollowsVerify(m.flow, env, m.flow.authBoundary + 1);
    OffersKnown(m, env, VERIFY_ID);
    assert first == NextStep(m.flow, env, VERIFY_ID);
    AdvanceKeeps(m, loaded, c, first, x);
  }

  lemma ResumeKeeps(m: Manifest, loaded: Conn, c: Conn, env: Env, x: Faults)
    requires Valid(m) && Known(m, c)
    ensures Keeps(m, c, Resume(m, loaded, c, env, x).conn)
  {
    if loaded.step.Some? {
      OffersKnown(m, env, loaded.step.value);
      AdvanceKeeps(m, loaded, c, NextStep(m.flow, env, loaded.step.value), x);
    }
  }

  /** Whatever copy an operation works from, the step stays known and a configured connection configured. */
  lemma OpKeeps(m: Manifest, loaded: Conn, c: Conn, op: Op)
    requires Valid(m) && Known(m, c)
    ensures Keeps(m, c, Do(m, loaded, c, op).conn)
  {
    match op
    case Submit(id, env, after, x) => SubmitKeeps(m, loaded, c, id, env, after, x);
    case Callback(env, x) => CallbackKeeps(m, loaded, c, env, x);
    case AuthError(_, _) =>
    case Verify(env, passing, after, x) => VerifyKeeps(m, loaded, c, env, passing, after, x);
    case Retry(env, x) => RestartKeeps(m, c, env, x);
    case Reauthorize(env, x) => RestartKeeps(m, c, env, x);
    case Reconfiguration(env, x) => ReconfigureKeeps(m, loaded, c, env, x);
    case Cancel(_) =>
    case Reload(env, x) => ResumeKeeps(m, loaded, c, env, x);
  }

  /** Reconfigure opens the step that a passing verify run would move to. */
  lemma {:induction false} ReconfigureFollowsVerify(f: Flow, env: Env, i: nat)
    requires WellFormed(f) && f.authBoundary < i <= |f.steps|
    ensures FirstConfigure(f, env, i) == NextEligibleStep(f, env, i, |f.steps| - 1)
    decreases |f.steps| - i
  {
    NextEligibleUnfold(f, env, i, |f.steps| - 1);
    if i < |f.steps| {
      IndexOfUnique(f, i);
      ReconfigureFollowsVerify(f, env, i + 1);
    }
  }

  /** A reply that shows a page, an error or completion agrees with what is stored. */
  ghost predicate Shows(c: Conn, reply: Reply) {
    match reply
    case ShowForm(id) => c.step == Some(id)
    case ShowRedirect(id) => c.step == Some(id)
    case ShowVerifying => c.step == Some(VERIFY_ID)
    case ShowError(message) => c.step.Some? && Terminal(c.step.value) && message == c.setupError
    case Complete => c.step.None?
    case _ => true
  }

  // ---------------------------------------------------------------------------------------------
  // What one operation does to another
  // ---------------------------------------------------------------------------------------------

  /** No write fails. */
  const NO_FAULTS := Faults(false, false, false, false, false, false, false, false, false)

  /** A configured connection with nothing in progress. */
  predicate AtRest(c: Conn) {
    c.state == Configured && c.step.None? && c.setupError.None?
  }

  /** Completing twice is completing once, and it always brings the connection to rest but for an old error. */
  lemma CompleteIsIdempotent(c: Conn)
    ensures var d := CompleteFlow(c, c, NO_FAULTS).conn;
            CompleteFlow(d, d, NO_FAULTS) == Out(d, Complete) && AtRest(d.(setupError := None))
  {
  }

  lemma CancelUndoesAdvance(c: Conn, s: Step, x: Faults)
    requires AtRest(c)
    ensures var d := AdvanceToStep(c, s, x).conn; CancelSetup(d, d, NO_FAULTS).conn == c.(verifyTasks := d.verifyTasks)
    ensures !s.kind.Verify? ==> AdvanceToStep(c, s, x).conn.verifyTasks == c.verifyTasks
  {
  }

  /** Cancelling a reconfiguration that opened a step gives the connection back. */
  lemma CancelUndoesReconfigure(m: Manifest, c: Conn, env: Env, x: Faults)
    requires Valid(m) && AtRest(c)
    ensures var d := Reconfigure(m, c, c, env, x).conn; d.step.Some? ==> CancelSetup(d, d, NO_FAULTS).conn == c
  {
    var from, last := m.flow.authBoundary + 1, |m.flow.steps| - 1;
    ReconfigureFollowsVerify(m.flow, env, from);
    var next := NextEligibleStep(m.flow, env, from, last);
    if next.Found? {
      var i := NextEligibleInRange(m.flow, env, from, last);
      assert Ordinary(m.flow.steps, i);
      CancelUndoesAdvance(c, next.step, x);
    }
  }

  /** Cancelling a reauthorization before its credentials arrive gives the connection back, but for queued tasks. */
  lemma CancelUndoesReauth(m: Manifest, c: Conn, env: Env, x: Faults)
    requires AtRest(c)
    ensures var d := Reauth(m, c, c, env, x).conn; CancelSetup(d, d, NO_FAULTS).conn == c.(verifyTasks := d.verifyTasks)
  {
    if FirstStep(m.flow, env).Found? {
      CancelUndoesAdvance(c, FirstStep(m.flow, env).step, x);
    }
  }

  /** Cancelling touches the step and the error only, whatever fails; when it succeeds both that it saw are gone. */
  lemma CancelFrame(loaded: Conn, c: Conn, x: Faults)
    ensures var o := CancelSetup(loaded, c, x);
            && o.conn == c.(step := o.conn.step, setupError := o.conn.setupError)
            && (o.conn.step == c.step || o.conn.step.None?) && (o.conn.setupError == c.setupError || o.conn.setupError.None?)
            && (o.reply == Done ==> loaded.step.Some? ==> o.conn.step.None?)
            && (o.reply == Done ==> loaded.setupError.Some? ==> o.conn.setupError.None?)
            && (loaded == c ==> (o.reply == Done <==> AtRest(o.conn)))
  {
  }

  /** A retry after a failed authorization stores the step that a new connection would start with, and no error. */
  lemma RetryStartsOver(m: Manifest, c: Conn, message: string, env: Env)
    requires Valid(m) && FirstStep(m.flow, env).Found?
    ensures var failed := HandleAuthFailed(c, message, NO_FAULTS).conn;
            var d, anew := RetrySetup(m, failed, failed, env, NO_FAULTS), Initiate(m, env, NO_FAULTS);
            && d.reply == anew.reply && d.conn.step == anew.conn.step && d.conn.setupError == anew.conn.setupError
            && d.conn.state == c.state && d.conn.healthy == c.healthy && d.conn.notices == c.notices
            && d.conn.verifyTasks == c.verifyTasks + anew.conn.verifyTasks
  {
    ReservedIdsDistinct();
  }
}
