/**
 Disconnecting every connection of a connector. The parent workflow lists the connections, starts one child workflow
 each and selects over its timer and the children; a child races its own timer against the revoke and finalize
 activities. Every database write is a step of its own and may fail; activities already started keep running after a
 timeout or a cancellation. All interleavings are allowed; nobody else writes the listed rows.
 */
module Disconnect {
  import opened Connections
  import opened Sequences

  datatype Row = Row(connector: string, state: ConnState, deleted: bool)

  type Rows = map<string, Row>

  // ---------------------------------------------------------------------------------------------
  // The connections table
  // ---------------------------------------------------------------------------------------------

  predicate Live(rows: Rows, id: string) {
    id in rows && !rows[id].deleted
  }

  /** The update touches live rows only; on any other id it is "not found" and changes nothing. */
  function SetState(rows: Rows, id: string, state: ConnState): Rows {
    if Live(rows, id) then rows[id := rows[id].(state := state)] else rows
  }

  /** The soft delete does not look at whether the row is deleted already. */
  function Delete(rows: Rows, id: string): Rows {
    if id in rows then rows[id := rows[id].(deleted := true)] else rows
  }

  predicate Gone(rows: Rows, id: string) {
    id in rows && rows[id].deleted && rows[id].state == Disconnected
  }

  predicate Relevant(rows: Rows, connector: string, id: string) {
    Live(rows, id) && rows[id].connector == connector && rows[id].state != Disconnected
  }

  // ---------------------------------------------------------------------------------------------
  // State
  // ---------------------------------------------------------------------------------------------

  /** The finalize activity of a child. */
  datatype Finalize = NotStarted | Started | Loaded | StateSet | Finalized(ok: bool)

  /** The force activity of a child. */
  datatype Force = Idle | ForceStarted | ForceStateSet | Forced(ok: bool)

  datatype Phase = Revoking | Finalizing | ForcingOut | Ended(ok: bool)

  datatype Child = Child(phase: Phase, finalize: Finalize, force: Force)

  datatype Parent = Starting | Waiting | Draining | ForcingRest(next: nat, stateSet: bool) | Returned(ok: bool)

  /** `retries` is how often the workflow engine will still start the parent's force activity over. */
  datatype System = System(connector: string, rows: Rows, listed: seq<string>, parent: Parent, timedOut: bool,
                           pending: set<string>, finished: set<string>, failed: seq<string>, children: map<string, Child>,
                           retries: nat)

  /** What becomes of a write of an activity: it is made, or it fails and the engine starts the activity over or gives up. */
  datatype Outcome = Written | Retried | GivenUp

  datatype Action =
    // a child and its activities
    | RevokeEnds(id: string, ok: bool)
    | ChildTimer(id: string)
    | FinalizeLoad(id: string, dbOk: bool)
    | FinalizeSetState(id: string, dbOk: bool)
    | FinalizeDelete(id: string, dbOk: bool)
    | FinalizeRetry(id: string)
    | FinalizeReport(id: string)
    | ForceSetState(id: string, dbOk: bool)
    | ForceDelete(id: string, dbOk: bool)
    | ForceRetry(id: string)
    | ForceReport(id: string)
    | ChildCancelled(id: string)
    // the parent
    | List(order: seq<string>, done: nat, retried: bool)
    | ParentTimer
    | Collect(id: string)
    | LeaveLoop
    | Drain(id: string)
    | StartForce
    | RestSetState(outcome: Outcome)
    | RestDelete(outcome: Outcome)
    | RestDone

  predicate Initial(s: System) {
    && s.parent == Starting && !s.timedOut && s.listed == [] && s.pending == {} && s.finished == {} && s.failed == []
    && s.children == map[]
  }

  predicate ParentAction(a: Action) {
    a.List? || a.ParentTimer? || a.Collect? || a.LeaveLoop? || a.Drain? || a.StartForce? || a.RestSetState? || a.RestDelete? || a.RestDone?
  }

  predicate ChildReady(c: Child, a: Action)
    requires !ParentAction(a)
  {
    match a
    case RevokeEnds(_, _) => c.phase == Revoking
    case ChildTimer(_) => c.phase == Revoking || c.phase == Finalizing
    case FinalizeLoad(_, _) => c.finalize == Started
    case FinalizeSetState(_, _) => c.finalize == Loaded
    case FinalizeDelete(_, _) => c.finalize == StateSet
    case FinalizeRetry(_) => c.finalize == Finalized(false) && c.phase == Finalizing
    case FinalizeReport(_) => c.finalize.Finalized? && c.phase == Finalizing
    case ForceSetState(_, _) => c.force == ForceStarted
    case ForceDelete(_, _) => c.force == ForceStateSet
    case ForceRetry(_) => c.force == Forced(false) && c.phase == ForcingOut
    case ForceReport(_) => c.force.Forced? && c.phase == ForcingOut
    case ChildCancelled(_) => !c.phase.Ended?
  }

  predicate ChildEnabled(s: System, a: Action)
    requires !ParentAction(a)
  {
    a.id in s.children && ChildReady(s.children[a.id], a)
  }

  predicate ParentEnabled(s: System, a: Action)
    requires ParentAction(a)
  {
    match a
    case List(order, done, _) =>
      && s.parent == Starting && NoDuplicates(order) && done <= |order|
      && Elements(order) == set id | id in s.rows && Relevant(s.rows, s.connector, id)
    case ParentTimer => s.parent == Waiting && s.pending != {} && !s.timedOut
    case Collect(id) => s.parent == Waiting && !s.timedOut && id in s.pending && id in s.children && s.children[id].phase.Ended?
    case LeaveLoop => s.parent == Waiting && (s.pending == {} || s.timedOut)
    case Drain(id) => s.parent == Draining && id in s.pending && id in s.children && s.children[id].phase.Ended?
    case StartForce => s.parent == Draining && s.pending == {}
    case RestSetState(outcome) =>
      s.parent.ForcingRest? && !s.parent.stateSet && s.parent.next < |s.failed| && (outcome == Retried ==> s.retries > 0)
    case RestDelete(outcome) =>
      s.parent.ForcingRest? && s.parent.stateSet && s.parent.next < |s.failed| && (outcome == Retried ==> s.retries > 0)
    case RestDone => s.parent.ForcingRest? && s.parent.next == |s.failed|
  }

  predicate Enabled(s: System, a: Action) {
    if ParentAction(a) then ParentEnabled(s, a) else ChildEnabled(s, a)
  }

  /** The rows after a step of a child. */
  function RowsAfter(rows: Rows, a: Action): Rows
    requires !ParentAction(a)
  {
    match a
    case FinalizeSetState(id, dbOk) => if dbOk then SetState(rows, id, Disconnected) else rows
    case FinalizeDelete(id, dbOk) => if dbOk then Delete(rows, id) else rows
    case ForceSetState(id, dbOk) => if dbOk then SetState(rows, id, Disconnected) else rows
    case ForceDelete(id, dbOk) => if dbOk then Delete(rows, id) else rows
    case _ => rows
  }

  /** The child after its step; "not found" fails the finalize activity and is ignored by the force activity. */
  function ChildAfter(rows: Rows, c: Child, a: Action): Child
    requires !ParentAction(a) && ChildReady(c, a)
  {
    match a
    case RevokeEnds(_, ok) => if ok then c.(phase := Finalizing, finalize := Started) else c.(phase := Ended(false))
    case ChildTimer(_) => c.(phase := ForcingOut, force := ForceStarted)
    case FinalizeLoad(id, dbOk) => c.(finalize := if dbOk && Live(rows, id) then Loaded else Finalized(false))
    case FinalizeSetState(id, dbOk) => c.(finalize := if dbOk && Live(rows, id) then StateSet else Finalized(false))
    case FinalizeDelete(id, dbOk) => c.(finalize := Finalized(dbOk && id in rows))
    case FinalizeRetry(_) => c.(finalize := Started)
    case FinalizeReport(_) => c.(phase := Ended(c.finalize.ok))
    case ForceSetState(_, dbOk) => c.(force := if dbOk then ForceStateSet else Forced(false))
    case ForceDelete(_, dbOk) => c.(force := Forced(dbOk))
    case ForceRetry(_) => c.(force := ForceStarted)
    case ForceReport(_) => c.(phase := Ended(c.force.ok))
    case ChildCancelled(_) => c.(phase := Ended(false))
  }

  function DoChild(s: System, a: Action): System
    requires !ParentAction(a) && ChildEnabled(s, a)
  {
    s.(rows := RowsAfter(s.rows, a), children := s.children[a.id := ChildAfter(s.rows, s.children[a.id], a)])
  }

  /** The list activity marks rows one by one; it may stop after `done` of them. */
  function MarkDisconnecting(rows: Rows, ids: seq<string>): Rows {
    map id | id in rows :: if id in ids then rows[id].(state := Disconnecting) else rows[id]
  }

  /** A force activity started over begins with its first connection again. */
  function RestFails(s: System, outcome: Outcome): System
    requires outcome == Retried ==> s.retries > 0
  {
    if outcome == Retried then s.(parent := ForcingRest(0, false), retries := s.retries - 1) else s.(parent := Returned(false))
  }

  function DoParent(s: System, a: Action): System
    requires ParentAction(a) && ParentEnabled(s, a)
  {
    match a
    case List(order, done, retried) =>
      var s' := s.(rows := MarkDisconnecting(s.rows, order[..done]));
      if done < |order| then (if retried then s' else s'.(parent := Returned(false)))
      else if order == [] then s'.(parent := Returned(true))
      else s'.(parent := Waiting, listed := order, pending := Elements(order),
               children := map id | id in order :: Child(Revoking, NotStarted, Idle))
    case ParentTimer => s.(timedOut := true)
    case Collect(id) =>
      var s' := s.(pending := s.pending - {id});
      if s.children[id].phase.ok then s'.(finished := s.finished + {id}) else s'.(failed := s.failed + [id])
    case LeaveLoop => s.(parent := if s.pending == {} && s.failed == [] then Returned(true) else Draining)
    case Drain(id) => s.(pending := s.pending - {id}, failed := s.failed + [id])
    case StartForce => s.(parent := if s.failed == [] then Returned(true) else ForcingRest(0, false))
    case RestSetState(outcome) =>
      if outcome == Written
      then s.(rows := SetState(s.rows, s.failed[s.parent.next], Disconnected), parent := ForcingRest(s.parent.next, true))
      else RestFails(s, outcome)
    case RestDelete(outcome) =>
      if outcome == Written
      then s.(rows := Delete(s.rows, s.failed[s.parent.next]), parent := ForcingRest(s.parent.next + 1, false))
      else RestFails(s, outcome)
    case RestDone => s.(parent := Returned(true))
  }

  function Do(s: System, a: Action): System
    requires Enabled(s, a)
  {
    if ParentAction(a) then DoParent(s, a) else DoChild(s, a)
  }

  // ---------------------------------------------------------------------------------------------
  // The invariant
  // ---------------------------------------------------------------------------------------------

  /** What the progress of a child and its activities says about its row. */
  ghost predicate ChildOk(rows: Rows, id: string, c: Child) {
    && id in rows
    && (rows[id].deleted || c.finalize == StateSet || c.force == ForceStateSet ==> rows[id].state == Disconnected)
    && (c.finalize == Finalized(true) || c.force == Forced(true) || c.phase == Ended(true) ==> Gone(rows, id))
  }

  /** Every listed connection is pending, finished or to be forced, and in only one of these. */
  ghost predicate Partition(s: System) {
    && Elements(s.listed) == s.pending + s.finished + Elements(s.failed)
    && s.pending !! s.finished && s.pending !! Elements(s.failed) && s.finished !! Elements(s.failed)
    && NoDuplicates(s.failed)
  }

  ghost predicate ParentOk(s: System) {
    match s.parent
    case Starting => Initial(s)
    case ForcingRest(k, stateSet) =>
      && s.pending == {} && k <= |s.failed|
      && (forall i :: 0 <= i < k ==> Gone(s.rows, s.failed[i]))
      && (stateSet ==> k < |s.failed| && s.failed[k] in s.rows && s.rows[s.failed[k]].state == Disconnected)
    case Returned(true) => forall id :: id in s.listed ==> Gone(s.rows, id)
    case _ => true
  }

  ghost predicate Invariant(s: System) {
    && Partition(s) && ParentOk(s)
    && s.children.Keys == Elements(s.listed)
    && (forall id :: id in s.children ==> ChildOk(s.rows, id, s.children[id]))
    && (forall id :: id in s.finished ==> Gone(s.rows, id))
  }

  /** Rows only move towards disconnected, then deleted. */
  ghost predicate Advances(rows: Rows, rows': Rows) {
    && rows.Keys == rows'.Keys
    && forall id :: id in rows ==>
         && (rows'[id] == rows[id] || rows'[id].state == Disconnected)
         && (rows[id].deleted ==> rows'[id].deleted)
         && (rows'[id].deleted && !rows[id].deleted ==> rows[id].state == Disconnected)
  }

  lemma AdvanceKeeps(s: System, rows': Rows)
    requires Invariant(s) && !s.parent.Starting? && Advances(s.rows, rows')
    ensures Invariant(s.(rows := rows'))
  {
    assert forall id :: Gone(s.rows, id) ==> Gone(rows', id);
  }

  lemma LocalStepKeeps(rows: Rows, c: Child, a: Action)
    requires !ParentAction(a) && ChildReady(c, a) && ChildOk(rows, a.id, c)
    ensures Advances(rows, RowsAfter(rows, a))
    ensures ChildOk(RowsAfter(rows, a), a.id, ChildAfter(rows, c, a))
  {
  }

  lemma ChildStepKeeps(s: System, a: Action)
    requires Invariant(s) && !ParentAction(a) && ChildEnabled(s, a)
    ensures Invariant(DoChild(s, a))
  {
    var rows' := RowsAfter(s.rows, a);
    assert a.id in Elements(s.listed);
    LocalStepKeeps(s.rows, s.children[a.id], a);
    AdvanceKeeps(s, rows');
    ReplaceChildKeeps(s.(rows := rows'), a.id, ChildAfter(s.rows, s.children[a.id], a));
  }

  lemma ReplaceChildKeeps(s: System, id: string, c: Child)
    requires Invariant(s) && id in s.children && ChildOk(s.rows, id, c) && !s.parent.Starting?
    ensures Invariant(s.(children := s.children[id := c]))
  {
    assert s.children[id := c].Keys == s.children.Keys;
  }

  lemma ListKeeps(s: System, a: Action)
    requires Invariant(s) && a.List? && ParentEnabled(s, a)
    ensures Invariant(DoParent(s, a))
  {
    var s' := DoParent(s, a);
    if s'.parent == Waiting {
      forall id | id in s'.children ensures ChildOk(s'.rows, id, s'.children[id]) {
        assert id in Elements(a.order);
      }
    }
  }

  lemma AppendNoDuplicates(ids: seq<string>, id: string)
    requires NoDuplicates(ids) && id !in ids
    ensures NoDuplicates(ids + [id]) && Elements(ids + [id]) == Elements(ids) + {id}
  {
  }

  lemma CollectKeeps(s: System, a: Action)
    requires Invariant(s) && (a.Collect? || a.Drain?) && ParentEnabled(s, a)
    ensures Invariant(DoParent(s, a))
  {
    assert ChildOk(s.rows, a.id, s.children[a.id]);
    assert a.id !in Elements(s.failed);
    AppendNoDuplicates(s.failed, a.id);
  }

  lemma AllFinishedGone(s: System)
    requires Invariant(s) && s.pending == {} && s.failed == []
    ensures forall id :: id in s.listed ==> Gone(s.rows, id)
  {
    forall id | id in s.listed ensures Gone(s.rows, id) {
      assert id in Elements(s.listed);
    }
  }

  lemma ForceDoneKeeps(s: System)
    requires Invariant(s) && ParentEnabled(s, RestDone)
    ensures Invariant(DoParent(s, RestDone))
  {
    forall id | id in s.listed ensures Gone(s.rows, id) {
      assert id in Elements(s.listed);
      assert id in s.finished || id in s.failed;
    }
  }

  lemma RestFailsKeeps(s: System, outcome: Outcome)
    requires Invariant(s) && s.parent.ForcingRest? && (outcome == Retried ==> s.retries > 0)
    ensures Invariant(RestFails(s, outcome))
  {
  }

  lemma ForceKeeps(s: System, a: Action)
    requires Invariant(s) && (a.RestSetState? || a.RestDelete?) && ParentEnabled(s, a)
    ensures Invariant(DoParent(s, a))
  {
    if a.outcome != Written {
      RestFailsKeeps(s, a.outcome);
    } else {
      var id, rows' := s.failed[s.parent.next], DoParent(s, a).rows;
      assert id in Elements(s.failed) && id in s.children;
      assert ChildOk(s.rows, id, s.children[id]);
      ForceAdvances(s, a, id);
      AdvanceKeeps(s, rows');
      assert a.RestDelete? ==> Gone(rows', id);
    }
  }

  lemma ForceAdvances(s: System, a: Action, id: string)
    requires (a.RestSetState? || a.RestDelete?) && ParentEnabled(s, a) && id == s.failed[s.parent.next]
    requires a.RestDelete? ==> id in s.rows && s.rows[id].state == Disconnected
    ensures Advances(s.rows, DoParent(s, a).rows)
  {
  }

  /** Every step of every party keeps the invariant. */
  lemma StepKeepsInvariant(s: System, a: Action)
    requires Invariant(s) && Enabled(s, a)
    ensures Invariant(Do(s, a))
  {
    if !ParentAction(a) {
      ChildStepKeeps(s, a);
    } else {
      match a
      case List(_, _, _) => ListKeeps(s, a);
      case Collect(_) => CollectKeeps(s, a);
      case Drain(_) => CollectKeeps(s, a);
      case ParentTimer =>
      case LeaveLoop => if s.pending == {} && s.failed == [] { AllFinishedGone(s); }
      case StartForce => if s.failed == [] { AllFinishedGone(s); }
      case RestSetState(_) => ForceKeeps(s, a);
      case RestDelete(_) => ForceKeeps(s, a);
      case RestDone => ForceDoneKeeps(s);
    }
  }

  // ---------------------------------------------------------------------------------------------
  // Runs
  // ---------------------------------------------------------------------------------------------

  ghost predicate StepAt(states: seq<System>, actions: seq<Action>, k: nat)
    requires |states| == |actions| + 1 && k < |actions|
  {
    Enabled(states[k], actions[k]) && states[k + 1] == Do(states[k], actions[k])
  }

  ghost predicate IsRun(states: seq<System>, actions: seq<Action>) {
    && |states| == |actions| + 1 && Initial(states[0])
    && forall k {:trigger StepAt(states, actions, k)} :: 0 <= k < |actions| ==> StepAt(states, actions, k)
  }

  lemma {:induction false} RunKeepsInvariant(states: seq<System>, actions: seq<Action>, n: nat)
    requires IsRun(states, actions) && n <= |actions|
    ensures Invariant(states[n])
  {
    if n > 0 {
      RunKeepsInvariant(states, actions, n - 1);
      assert StepAt(states, actions, n - 1);
      StepKeepsInvariant(states[n - 1], actions[n - 1]);
    }
  }

  /** On every schedule a nil return means that every listed connection is disconnected and deleted. */
  lemma NilReturnMeansAllGone(states: seq<System>, actions: seq<Action>)
    requires IsRun(states, actions) && states[|actions|].parent == Returned(true)
    ensures forall id :: id in states[|actions|].listed ==> Gone(states[|actions|].rows, id)
    ensures Partition(states[|actions|])
  {
    RunKeepsInvariant(states, actions, |actions|);
  }

  // ---------------------------------------------------------------------------------------------
  // The parent finishes
  // ---------------------------------------------------------------------------------------------

  /** The steps of that many runs of the force activity. */
  function Rounds(retries: nat, size: nat): nat {
    if retries == 0 then 0 else size + Rounds(retries - 1, size)
  }

  /** In the select loop: pending children plus the timer that has not fired, and what is left after it. */
  function Remaining(s: System): nat {
    var n := |s.listed|;
    var again := Rounds(s.retries, 2 * n + 2);
    match s.parent
    case Starting => 0
    case Waiting => 2 * |s.pending| + (if s.timedOut then 0 else 1) + 2 * n + 4 + again
    case Draining => |s.pending| + 2 * n + 3 + again
    case ForcingRest(k, stateSet) =>
      if k > |s.failed| then 0 else 2 * (|s.failed| - k) + (if stateSet then 0 else 1) + 1 + again
    case Returned(_) => 0
  }

  lemma {:induction false} NoDuplicatesSize(ids: seq<string>)
    requires NoDuplicates(ids)
    ensures |Elements(ids)| == |ids|
    decreases |ids|
  {
    if ids != [] {
      var init, last := ids[..|ids| - 1], ids[|ids| - 1];
      NoDuplicatesSize(init);
      assert ids == init + [last];
      AppendNoDuplicates(init, last);
    }
  }

  lemma {:induction false} ElementsSize(ids: seq<string>)
    ensures |Elements(ids)| <= |ids|
    decreases |ids|
  {
    if ids != [] {
      var init, last := ids[..|ids| - 1], ids[|ids| - 1];
      ElementsSize(init);
      assert Elements(ids) == Elements(init) + {last};
    }
  }

  lemma SubsetSize(a: set<string>, b: set<string>)
    requires a <= b
    ensures |a| <= |b|
  {
    assert b == a + (b - a);
  }

  lemma FailedWithinListed(s: System)
    requires Invariant(s)
    ensures |s.failed| <= |s.listed|
  {
    NoDuplicatesSize(s.failed);
    ElementsSize(s.listed);
    SubsetSize(Elements(s.failed), Elements(s.listed));
  }

  /** Every parent step after the listing brings the return nearer; child steps leave it where it is. */
  lemma ParentMakesProgress(s: System, a: Action)
    requires Invariant(s) && Enabled(s, a) && !s.parent.Starting?
    ensures ParentAction(a) ==> Remaining(Do(s, a)) < Remaining(s)
    ensures !ParentAction(a) ==> Remaining(Do(s, a)) == Remaining(s)
  {
    if ParentAction(a) {
      FailedWithinListed(s);
      if a.ParentTimer? || a.LeaveLoop? || a.Collect? {
        LoopStepShrinks(s, a);
      } else if a.Drain? || a.StartForce? {
        DrainStepShrinks(s, a);
      } else {
        ForceStepShrinks(s, a);
      }
    } else {
      ChildStepLeavesParent(s, a);
    }
  }

  lemma LoopStepShrinks(s: System, a: Action)
    requires (a.ParentTimer? || a.LeaveLoop? || a.Collect?) && ParentEnabled(s, a)
    ensures Remaining(DoParent(s, a)) < Remaining(s)
  {
    if a.Collect? {
      assert |s.pending - {a.id}| == |s.pending| - 1;
    }
  }

  lemma DrainStepShrinks(s: System, a: Action)
    requires (a.Drain? || a.StartForce?) && ParentEnabled(s, a) && |s.failed| <= |s.listed|
    ensures Remaining(DoParent(s, a)) < Remaining(s)
  {
    if a.Drain? {
      assert |s.pending - {a.id}| == |s.pending| - 1;
    }
  }

  lemma ForceStepShrinks(s: System, a: Action)
    requires (a.RestSetState? || a.RestDelete? || a.RestDone?) && ParentEnabled(s, a) && |s.failed| <= |s.listed|
    ensures Remaining(DoParent(s, a)) < Remaining(s)
  {
  }

  lemma ChildStepLeavesParent(s: System, a: Action)
    requires !ParentAction(a) && ChildEnabled(s, a)
    ensures Remaining(DoChild(s, a)) == Remaining(s)
  {
  }

  lemma NeverStartsAgain(s: System, a: Action)
    requires Enabled(s, a) && !s.parent.Starting?
    ensures !Do(s, a).parent.Starting?
  {
  }

  lemma StepBounded(states: seq<System>, actions: seq<Action>, k: nat)
    requires IsRun(states, actions) && k < |actions| && !states[k].parent.Starting?
    ensures !states[k + 1].parent.Starting?
    ensures Remaining(states[k + 1]) + (if ParentAction(actions[k]) then 1 else 0) <= Remaining(states[k])
  {
    RunKeepsInvariant(states, actions, k);
    assert StepAt(states, actions, k);
    ParentMakesProgress(states[k], actions[k]);
    NeverStartsAgain(states[k], actions[k]);
  }

  function CountParentActions(actions: seq<Action>): nat {
    if actions == [] then 0
    else CountParentActions(actions[..|actions| - 1]) + if ParentAction(actions[|actions| - 1]) then 1 else 0
  }

  /** On every schedule the parent takes at most the steps that were remaining. */
  lemma {:induction false} ParentStepsBounded(states: seq<System>, actions: seq<Action>, m: nat, n: nat)
    requires IsRun(states, actions) && m <= n <= |actions| && !states[m].parent.Starting?
    ensures CountParentActions(actions[m..n]) + Remaining(states[n]) <= Remaining(states[m])
    ensures !states[n].parent.Starting?
    decreases n - m
  {
    if m < n {
      ParentStepsBounded(states, actions, m, n - 1);
      StepBounded(states, actions, n - 1);
      assert actions[m..n][..n - m - 1] == actions[m..n - 1];
    }
  }

  /** The parent can take a step. */
  ghost predicate ParentMoves(s: System) {
    exists a :: ParentAction(a) && Enabled(s, a)
  }

  /** Cancelling this child lets the parent collect it. */
  ghost predicate CancellationFrees(s: System, id: string) {
    Enabled(s, ChildCancelled(id)) && Enabled(Do(s, ChildCancelled(id)), Drain(id))
  }

  lemma DrainingNeverStuck(s: System)
    requires Invariant(s) && s.parent == Draining
    ensures ParentMoves(s) || (s.pending != {} && forall id :: id in s.pending ==> CancellationFrees(s, id))
  {
    if s.pending == {} {
      assert Enabled(s, StartForce);
    } else if exists id :: id in s.pending && id in s.children && s.children[id].phase.Ended? {
      var id :| id in s.pending && id in s.children && s.children[id].phase.Ended?;
      assert Enabled(s, Drain(id));
    } else {
      forall id | id in s.pending ensures CancellationFrees(s, id) {
        assert id in Elements(s.listed);
      }
    }
  }

  /** Before the parent returns it can take a step, or it waits only for children whose cancellation would let it. */
  lemma ParentNeverStuck(s: System)
    requires Invariant(s) && !s.parent.Starting? && !s.parent.Returned?
    ensures ParentMoves(s) || (s.pending != {} && forall id :: id in s.pending ==> CancellationFrees(s, id))
  {
    match s.parent
    case Waiting =>
      assert ParentMoves(s) by {
        if s.pending != {} && !s.timedOut { assert Enabled(s, ParentTimer); } else { assert Enabled(s, LeaveLoop); }
      }
    case Draining => DrainingNeverStuck(s);
    case ForcingRest(k, stateSet) =>
      assert ParentMoves(s) by {
        if k == |s.failed| { assert Enabled(s, RestDone); }
        else if stateSet { assert Enabled(s, RestDelete(Written)); }
        else { assert Enabled(s, RestSetState(Written)); }
      }
  }
}
