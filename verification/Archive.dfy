/**
 Archiving a connector: take its versions out of use, disconnect all its connections in a child workflow, then archive
 every version. The version writes are single steps that may fail and be retried; no one else writes the versions.
 */
module Archive {
  import opened Options
  import D = Disconnect
  import Scope = DisconnectScope

  datatype VersionState = Draft | Primary | Active | Archived

  datatype Phase = Preparing(next: nat) | DisconnectingAll | Finalizing(next: nat) | Done(ok: bool)

  /** `initial` remembers the versions as they were when the workflow started. */
  datatype System = System(initial: seq<VersionState>, versions: seq<VersionState>, phase: Phase, sub: D.System)

  datatype Action =
    | PrepareOne(outcome: D.Outcome)
    | PrepareEnd
    | Sub(action: D.Action)
    | SubEnd
    | FinalizeOne(outcome: D.Outcome)
    | FinalizeEnd

  predicate Initial(s: System) {
    s.phase == Preparing(0) && s.versions == s.initial && D.Initial(s.sub)
  }

  function Prepared(v: VersionState): VersionState {
    match v
    case Draft => Archived
    case Primary => Active
    case Active => Active
    case Archived => Archived
  }

  predicate Enabled(s: System, a: Action) {
    match a
    case PrepareOne(_) => s.phase.Preparing? && s.phase.next < |s.versions|
    case PrepareEnd => s.phase.Preparing? && s.phase.next == |s.versions|
    case Sub(action) =>
      // activities of the children may outlive the child workflow, its parent may not
      && (s.phase == DisconnectingAll || (!s.phase.Preparing? && !D.ParentAction(action)))
      && D.Enabled(s.sub, action)
    case SubEnd => s.phase == DisconnectingAll && s.sub.parent.Returned?
    case FinalizeOne(_) => s.phase.Finalizing? && s.phase.next < |s.versions|
    case FinalizeEnd => s.phase.Finalizing? && s.phase.next == |s.versions|
  }

  /** A version already in the target state is not written, so that step cannot fail. */
  function Do(s: System, a: Action): System
    requires Enabled(s, a)
  {
    match a
    case PrepareOne(outcome) =>
      var i := s.phase.next;
      var to := Prepared(s.versions[i]);
      if to == s.versions[i] || outcome == D.Written then s.(versions := s.versions[i := to], phase := Preparing(i + 1))
      else s.(phase := if outcome == D.Retried then Preparing(0) else Done(false))
    case PrepareEnd => s.(phase := if s.versions == [] then Done(false) else DisconnectingAll)
    case Sub(action) => s.(sub := D.Do(s.sub, action))
    case SubEnd => s.(phase := if s.sub.parent.ok then Finalizing(0) else Done(false))
    case FinalizeOne(outcome) =>
      var i := s.phase.next;
      if s.versions[i] == Archived || outcome == D.Written then s.(versions := s.versions[i := Archived], phase := Finalizing(i + 1))
      else s.(phase := if outcome == D.Retried then Finalizing(0) else Done(false))
    case FinalizeEnd => s.(phase := if s.versions == [] then Done(false) else Done(true))
  }

  /** The child workflow returned without error. */
  predicate Disconnected(s: System) {
    s.sub.parent == D.Returned(true)
  }

  predicate OutOfUse(v: VersionState) {
    v != Draft && v != Primary
  }

  /** Where a version can be, given where it began: one in use is archived only after the disconnect. */
  predicate Reaches(began: VersionState, now: VersionState, disconnected: bool) {
    now == began || now == Prepared(began) || (disconnected && now == Archived)
  }

  ghost predicate Invariant(s: System) {
    && |s.versions| == |s.initial| && D.Invariant(s.sub)
    && (forall k :: 0 <= k < |s.versions| ==> Reaches(s.initial[k], s.versions[k], Disconnected(s)))
    && match s.phase
       case Preparing(i) => i <= |s.versions| && D.Initial(s.sub) && forall k :: 0 <= k < i ==> OutOfUse(s.versions[k])
       case DisconnectingAll => |s.versions| > 0 && forall k :: 0 <= k < |s.versions| ==> OutOfUse(s.versions[k])
       case Finalizing(i) =>
         && i <= |s.versions| && |s.versions| > 0 && Disconnected(s)
         && (forall k :: 0 <= k < |s.versions| ==> OutOfUse(s.versions[k]))
         && (forall k :: 0 <= k < i ==> s.versions[k] == Archived)
       case Done(true) =>
         |s.versions| > 0 && Disconnected(s) && forall k :: 0 <= k < |s.versions| ==> s.versions[k] == Archived
       case Done(false) => true
  }

  lemma SubStepKeepsReturn(s: D.System, a: D.Action)
    requires D.Enabled(s, a) && !D.ParentAction(a)
    ensures D.Do(s, a).parent == s.parent
  {
  }

  lemma ReturnedParentIsDone(s: D.System, a: D.Action)
    requires s.parent.Returned? && D.Enabled(s, a)
    ensures !D.ParentAction(a)
  {
  }

  lemma SubStepKeeps(s: System, a: Action)
    requires Invariant(s) && a.Sub? && Enabled(s, a)
    ensures Invariant(Do(s, a))
  {
    D.StepKeepsInvariant(s.sub, a.action);
    if Disconnected(s) {
      ReturnedParentIsDone(s.sub, a.action);
    }
    if !D.ParentAction(a.action) {
      SubStepKeepsReturn(s.sub, a.action);
    }
  }

  lemma StepKeepsInvariant(s: System, a: Action)
    requires Invariant(s) && Enabled(s, a)
    ensures Invariant(Do(s, a))
  {
    if a.Sub? {
      SubStepKeeps(s, a);
    }
  }

  ghost predicate StepAt(states: seq<System>, actions: seq<Action>, k: nat)
    requires |states| == |actions| + 1 && k < |actions|
  {
    Enabled(states[k], actions[k]) && states[k + 1] == Do(states[k], actions[k])
  }

  ghost predicate IsRun(states: seq<System>, actions: seq<Action>) {
    && |states| == |actions| + 1 && Initial(states[0])
    && forall k {:trigger StepAt(states, actions, k)} :: 0 <= k < |actions| ==> StepAt(states, actions, k)
  }

  lemma {:induction false} RunKeepsInvariant(states: seq<System>, actions: seq<Action>, n: nat)
    requires IsRun(states, actions) && n <= |actions|
    ensures Invariant(states[n])
  {
    if n > 0 {
      RunKeepsInvariant(states, actions, n - 1);
      assert StepAt(states, actions, n - 1);
      StepKeepsInvariant(states[n - 1], actions[n - 1]);
    }
  }

  /** Prepare is over and no version is draft or primary. */
  ghost predicate PreparedAll(s: System) {
    !s.phase.Preparing? && forall k :: 0 <= k < |s.versions| ==> OutOfUse(s.versions[k])
  }

  lemma StepKeepsPrepared(s: System, a: Action)
    requires PreparedAll(s) && Enabled(s, a)
    ensures PreparedAll(Do(s, a))
  {
  }

  /** From the end of prepare on, in runs that succeed and in runs that fail later, no version is draft or primary. */
  lemma {:induction false} NoVersionInUseAfterPrepare(states: seq<System>, actions: seq<Action>, m: nat, n: nat)
    requires IsRun(states, actions) && m <= n <= |actions| && states[m].phase == DisconnectingAll
    ensures PreparedAll(states[n])
    decreases n
  {
    if m == n {
      RunKeepsInvariant(states, actions, n);
    } else {
      NoVersionInUseAfterPrepare(states, actions, m, n - 1);
      assert StepAt(states, actions, n - 1);
      StepKeepsPrepared(states[n - 1], actions[n - 1]);
    }
  }

  lemma {:induction false} RunReaches(states: seq<System>, actions: seq<Action>, n: nat)
    requires IsRun(states, actions) && n <= |actions|
    ensures Scope.Reached(states[0].sub, states[n].sub) && states[n].initial == states[0].versions
  {
    if n > 0 {
      RunReaches(states, actions, n - 1);
      RunKeepsInvariant(states, actions, n - 1);
      assert StepAt(states, actions, n - 1);
      if actions[n - 1].Sub? {
        Scope.StepReaches(states[0].sub, states[n - 1].sub, actions[n - 1].action);
      }
    }
  }

  /** Every connection that the connector had when the workflow began, and that was still connected, is gone. */
  ghost predicate AllGone(first: System, s: System) {
    forall id :: Scope.InScope(first.sub, id) ==> D.Gone(s.sub.rows, id)
  }

  lemma DisconnectedIsAllGone(states: seq<System>, actions: seq<Action>, n: nat)
    requires IsRun(states, actions) && n <= |actions| && Disconnected(states[n])
    ensures AllGone(states[0], states[n])
  {
    RunReaches(states, actions, n);
    RunKeepsInvariant(states, actions, n);
    forall id | Scope.InScope(states[0].sub, id) ensures D.Gone(states[n].sub.rows, id) {
      assert id in states[n].sub.listed;
    }
  }

  /** A version that began active or primary is archived only once every connection of the connector is gone. */
  lemma ArchivedOnlyWhenGone(states: seq<System>, actions: seq<Action>, n: nat, k: nat)
    requires IsRun(states, actions) && n <= |actions| && k < |states[0].versions| && k < |states[n].versions|
    requires states[0].versions[k] == Active || states[0].versions[k] == Primary
    requires states[n].versions[k] == Archived
    ensures AllGone(states[0], states[n])
  {
    RunReaches(states, actions, n);
    RunKeepsInvariant(states, actions, n);
    assert Reaches(states[n].initial[k], states[n].versions[k], Disconnected(states[n]));
    DisconnectedIsAllGone(states, actions, n);
  }

  /** A nil return leaves every version archived, of which there is one at least, and every connection gone. */
  lemma NilReturnArchivesAll(states: seq<System>, actions: seq<Action>, n: nat)
    requires IsRun(states, actions) && n <= |actions| && states[n].phase == Done(true)
    ensures |states[n].versions| == |states[0].versions| > 0
    ensures forall k :: 0 <= k < |states[n].versions| ==> states[n].versions[k] == Archived
    ensures AllGone(states[0], states[n])
  {
    RunReaches(states, actions, n);
    RunKeepsInvariant(states, actions, n);
    DisconnectedIsAllGone(states, actions, n);
  }

  /** Until every connection is gone drafts are archived, primaries demoted and all other versions as they were. */
  lemma PrepareIsExact(states: seq<System>, actions: seq<Action>, n: nat, k: nat)
    requires IsRun(states, actions) && n <= |actions| && k < |states[0].versions|
    requires states[n].phase == DisconnectingAll && states[n].sub.parent != D.Returned(true)
    ensures k < |states[n].versions| && states[n].versions[k] ==
      match states[0].versions[k] { case Draft => Archived case Archived => Archived case _ => Active }
  {
    RunReaches(states, actions, n);
    RunKeepsInvariant(states, actions, n);
    assert Reaches(states[n].initial[k], states[n].versions[k], Disconnected(states[n]));
    assert OutOfUse(states[n].versions[k]);
  }

  /** No connection is touched before every version is out of use. */
  lemma {:induction false} PrepareComesFirst(states: seq<System>, actions: seq<Action>, n: nat)
    requires IsRun(states, actions) && n <= |actions|
    ensures states[n].phase.Preparing? ==> states[n].sub == states[0].sub
    ensures states[n].sub == states[0].sub || PreparedAll(states[n])
  {
    if n > 0 {
      PrepareComesFirst(states, actions, n - 1);
      RunKeepsInvariant(states, actions, n - 1);
      assert StepAt(states, actions, n - 1);
      if PreparedAll(states[n - 1]) {
        StepKeepsPrepared(states[n - 1], actions[n - 1]);
      }
    }
  }

  // ---------------------------------------------------------------------------------------------
  // How the workflow ends
  // ---------------------------------------------------------------------------------------------

  /** There is no version, a version's write is given up, or disconnect-all returned an error. */
  ghost predicate GivesUp(s: System, a: Action) {
    match a
    case PrepareOne(outcome) =>
      outcome == D.GivenUp && s.phase.Preparing? && s.phase.next < |s.versions| && !OutOfUse(s.versions[s.phase.next])
    case PrepareEnd => s.versions == []
    case SubEnd => s.sub.parent == D.Returned(false)
    case FinalizeOne(outcome) =>
      outcome == D.GivenUp && s.phase.Finalizing? && s.phase.next < |s.versions| && s.versions[s.phase.next] != Archived
    case _ => false
  }

  lemma FailingStep(s: System, a: Action)
    requires Invariant(s) && Enabled(s, a) && !s.phase.Done?
    ensures Do(s, a).phase == Done(false) <==> GivesUp(s, a)
  {
  }

  lemma DoneStays(s: System, a: Action)
    requires Enabled(s, a) && s.phase.Done?
    ensures Do(s, a).phase == s.phase && !GivesUp(s, a)
  {
  }

  /** The workflow fails exactly when one of these has happened. */
  lemma {:induction false} FailsIff(states: seq<System>, actions: seq<Action>, n: nat)
    requires IsRun(states, actions) && n <= |actions|
    ensures states[n].phase == Done(false) <==> exists k :: 0 <= k < n && GivesUp(states[k], actions[k])
  {
    if n > 0 {
      FailsIff(states, actions, n - 1);
      RunKeepsInvariant(states, actions, n - 1);
      assert StepAt(states, actions, n - 1);
      if states[n - 1].phase.Done? {
        DoneStays(states[n - 1], actions[n - 1]);
      } else {
        FailingStep(states[n - 1], actions[n - 1]);
      }
    }
  }

  function Left(s: System): int {
    match s.phase
    case Preparing(i) => 2 * |s.versions| - i + 4
    case DisconnectingAll => |s.versions| + 3
    case Finalizing(i) => |s.versions| - i + 1
    case Done(_) => 0
  }

  /** An activity is started over by the engine. */
  predicate StartsOver(a: Action) {
    (a.PrepareOne? || a.FinalizeOne?) && a.outcome == D.Retried
  }

  /** Every step of its own brings the workflow's end nearer, but for activities started over. */
  lemma MakesProgress(s: System, a: Action)
    requires Invariant(s) && Enabled(s, a)
    ensures Left(s) >= 0 && (a.Sub? ==> Left(Do(s, a)) == Left(s))
    ensures !a.Sub? && !StartsOver(a) ==> Left(Do(s, a)) < Left(s)
  {
  }

  /** Until it is done it can go on, or waits for disconnect-all to return. */
  lemma NeverStuck(s: System)
    requires Invariant(s) && !s.phase.Done?
    ensures
      || (s.phase == DisconnectingAll && !s.sub.parent.Returned?)
      || exists a :: Enabled(s, a) && !StartsOver(a) && !a.Sub?
  {
    match s.phase
    case Preparing(i) => assert Enabled(s, if i < |s.versions| then PrepareOne(D.Written) else PrepareEnd);
    case DisconnectingAll => assert s.sub.parent.Returned? ==> Enabled(s, SubEnd);
    case Finalizing(i) => assert Enabled(s, if i < |s.versions| then FinalizeOne(D.Written) else FinalizeEnd);
  }

  // ---------------------------------------------------------------------------------------------
  // The version activities
  // ---------------------------------------------------------------------------------------------

  /** The write of this version fails, and the version is not yet where the activity takes it. */
  predicate Fails(states: seq<VersionState>, failAt: Option<nat>, archiving: bool) {
    && failAt.Some? && failAt.value < |states|
    && states[failAt.value] != if archiving then Archived else Prepared(states[failAt.value])
  }

  class VersionStore {
    var states: seq<VersionState>

    constructor (states: seq<VersionState>)
      ensures this.states == states
    {
      this.states := states;
    }

    /** Archive drafts and demote the primary; the write of version `failAt`, if one is needed, fails and ends it. */
    method Prepare(failAt: Option<nat>) returns (ok: bool)
      modifies this
      ensures |states| == |old(states)|
      ensures ok <==> states != [] && !Fails(old(states), failAt, false)
      ensures forall k :: 0 <= k < |states| ==>
        states[k] == if Fails(old(states), failAt, false) && k >= failAt.value then old(states)[k] else Prepared(old(states)[k])
    {
      var found := false;
      for i := 0 to |states|
        invariant |states| == |old(states)| && found == (i > 0)
        invariant forall k :: 0 <= k < i ==> states[k] == Prepared(old(states)[k])
        invariant forall k :: i <= k < |states| ==> states[k] == old(states)[k]
        invariant Fails(old(states), failAt, false) ==> i <= failAt.value
      {
        found := true;
        match states[i]
        case Draft =>
          if failAt == Some(i) { return false; }
          states := states[i := Archived];
        case Primary =>
          if failAt == Some(i) { return false; }
          states := states[i := Active];
        case _ =>
      }
      return found;
    }

    /** Archive every version; the write of version `failAt`, if one is needed, fails and ends it. */
    method Finalize(failAt: Option<nat>) returns (ok: bool)
      modifies this
      ensures |states| == |old(states)|
      ensures ok <==> states != [] && !Fails(old(states), failAt, true)
      ensures forall k :: 0 <= k < |states| ==>
        states[k] == if Fails(old(states), failAt, true) && k >= failAt.value then old(states)[k] else Archived
    {
      var found := false;
      for i := 0 to |states|
        invariant |states| == |old(states)| && found == (i > 0)
        invariant forall k :: 0 <= k < i ==> states[k] == Archived
        invariant forall k :: i <= k < |states| ==> states[k] == old(states)[k]
        invariant Fails(old(states), failAt, true) ==> i <= failAt.value
      {
        found := true;
        if states[i] == Archived { continue; }
        if failAt == Some(i) { return false; }
        states := states[i := Archived];
      }
      return found;
    }
  }
}
