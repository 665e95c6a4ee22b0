/**
 How disconnect-all and its children end: what makes them fail, that they can always go on, and what the listing writes.
 */
module DisconnectOutcome {
  import opened Connections
  import opened Disconnect
  import opened DisconnectScope
  import opened Sequences

  // ---------------------------------------------------------------------------------------------
  // The parent
  // ---------------------------------------------------------------------------------------------

  /** The listing or the final force activity fails a write and is not started over. */
  ghost predicate GivesUp(a: Action) {
    || (a.List? && a.done < |a.order| && !a.retried)
    || a == RestSetState(GivenUp) || a == RestDelete(GivenUp)
  }

  lemma ReturnedStays(s: System, a: Action)
    requires s.parent.Returned? && Enabled(s, a)
    ensures Do(s, a).parent == s.parent && !GivesUp(a)
  {
  }

  lemma FailingStep(s: System, a: Action)
    requires !s.parent.Returned? && Enabled(s, a)
    ensures Do(s, a).parent == Returned(false) <==> GivesUp(a)
  {
  }

  /** The workflow returns an error exactly when one of these activities gave up. */
  lemma {:induction false} ReturnsErrorIff(states: seq<System>, actions: seq<Action>, n: nat)
    requires IsRun(states, actions) && n <= |actions|
    ensures states[n].parent == Returned(false) <==> exists k :: 0 <= k < n && GivesUp(actions[k])
  {
    if n > 0 {
      ReturnsErrorIff(states, actions, n - 1);
      assert StepAt(states, actions, n - 1);
      if states[n - 1].parent.Returned? {
        ReturnedStays(states[n - 1], actions[n - 1]);
      } else {
        FailingStep(states[n - 1], actions[n - 1]);
      }
    }
  }

  /** A listing writes its rows in order and no others; once complete, all it found are marked and it is over. */
  lemma ListingMarks(s: System, a: Action)
    requires a.List? && ParentEnabled(s, a)
    ensures var s' := DoParent(s, a);
      && (forall i :: 0 <= i < a.done ==> a.order[i] in s'.rows && s'.rows[a.order[i]].state == Disconnecting)
      && (forall id :: id in s.rows && id !in a.order[..a.done] ==> id in s'.rows && s'.rows[id] == s.rows[id])
      && (a.done == |a.order| ==> s'.parent == (if a.order == [] then Returned(true) else Waiting))
      && (a.done < |a.order| && a.retried ==> s'.parent == Starting)
  {
    forall i | 0 <= i < a.done ensures a.order[i] in s.rows {
      assert a.order[i] in Elements(a.order);
    }
  }

  // ---------------------------------------------------------------------------------------------
  // A child makes progress
  // ---------------------------------------------------------------------------------------------

  /** An activity runs exactly when its phase has come. */
  ghost predicate Sane(c: Child) {
    match c.phase
    case Revoking => c.finalize == NotStarted && c.force == Idle
    case Finalizing => c.finalize != NotStarted && c.force == Idle
    case ForcingOut => c.force != Idle
    case Ended(_) => true
  }

  /** Activities started over by the engine. */
  predicate StartsOver(a: Action) {
    a.FinalizeRetry? || a.ForceRetry?
  }

  /** The child's own work: not the timer, a cancellation or an activity started over. */
  predicate OwnWork(a: Action) {
    !ParentAction(a) && !a.ChildTimer? && !a.ChildCancelled? && !StartsOver(a)
  }

  function Left(c: Child): nat {
    (match c.phase case Revoking => 20 case Finalizing => 10 case ForcingOut => 5 case Ended(_) => 0)
    + (match c.finalize case Started => 3 case Loaded => 2 case StateSet => 1 case _ => 0)
    + (match c.force case Idle => 0 case ForceStarted => 2 case ForceStateSet => 1 case Forced(_) => 0)
  }

  lemma ChildStaysSane(rows: Rows, c: Child, a: Action)
    requires !ParentAction(a) && ChildReady(c, a) && Sane(c)
    ensures Sane(ChildAfter(rows, c, a))
  {
  }

  /** Every step of a child but a fresh start of an activity brings its end nearer. */
  lemma ChildStepShrinks(rows: Rows, c: Child, a: Action)
    requires !ParentAction(a) && ChildReady(c, a) && !StartsOver(a)
    ensures Left(ChildAfter(rows, c, a)) < Left(c)
  {
  }

  /** A child that has not ended can go on with its own work. */
  lemma ChildNeverStuck(c: Child, id: string)
    requires Sane(c) && !c.phase.Ended?
    ensures exists a :: OwnWork(a) && a.id == id && ChildReady(c, a)
  {
    var a := NextWork(c, id);
    assert OwnWork(a);
  }

  lemma {:induction false} RunKeepsSane(states: seq<System>, actions: seq<Action>, n: nat, id: string)
    requires IsRun(states, actions) && n <= |actions| && id in states[n].children
    ensures Sane(states[n].children[id])
  {
    assert n > 0;
    assert StepAt(states, actions, n - 1);
    var s, a := states[n - 1], actions[n - 1];
    if id in s.children {
      RunKeepsSane(states, actions, n - 1, id);
      if !ParentAction(a) && a.id == id {
        ChildStaysSane(s.rows, s.children[id], a);
      }
    }
  }

  /** At every moment of every run a child that has not ended can go on. */
  lemma ChildCanAlwaysGoOn(states: seq<System>, actions: seq<Action>, n: nat, id: string)
    requires IsRun(states, actions) && n <= |actions|
    requires id in states[n].children && !states[n].children[id].phase.Ended?
    ensures exists a :: OwnWork(a) && a.id == id && Enabled(states[n], a)
  {
    RunKeepsSane(states, actions, n, id);
    ChildNeverStuck(states[n].children[id], id);
    var a :| OwnWork(a) && a.id == id && ChildReady(states[n].children[id], a);
    assert Enabled(states[n], a);
  }

  function NextWork(c: Child, id: string): Action {
    if c.phase == Revoking then RevokeEnds(id, true)
    else if c.phase == Finalizing then
      if c.finalize == Started then FinalizeLoad(id, true)
      else if c.finalize == Loaded then FinalizeSetState(id, true)
      else if c.finalize == StateSet then FinalizeDelete(id, true)
      else FinalizeReport(id)
    else if c.force == ForceStarted then ForceSetState(id, true)
    else if c.force == ForceStateSet then ForceDelete(id, true)
    else ForceReport(id)
  }

  // ---------------------------------------------------------------------------------------------
  // What makes a child fail
  // ---------------------------------------------------------------------------------------------

  /** The revocation fails, the child is cancelled, or a statement of one of its activities fails. */
  predicate GoesWrong(a: Action, id: string) {
    match a
    case RevokeEnds(i, ok) => i == id && !ok
    case ChildCancelled(i) => i == id
    case FinalizeLoad(i, dbOk) => i == id && !dbOk
    case FinalizeSetState(i, dbOk) => i == id && !dbOk
    case FinalizeDelete(i, dbOk) => i == id && !dbOk
    case ForceSetState(i, dbOk) => i == id && !dbOk
    case ForceDelete(i, dbOk) => i == id && !dbOk
    case _ => false
  }

  /** The finalize activity looks for a row that is not there any more. */
  predicate NotFound(rows: Rows, a: Action) {
    (a.FinalizeLoad? || a.FinalizeSetState?) && !Live(rows, a.id)
  }

  /** A statement that fails, or does not find the row to finalize, fails its activity and writes nothing. */
  lemma FailedStatement(rows: Rows, c: Child, a: Action, id: string)
    requires !ParentAction(a) && ChildReady(c, a) && (GoesWrong(a, id) || NotFound(rows, a))
    ensures RowsAfter(rows, a) == rows
    ensures var c' := ChildAfter(rows, c, a);
      c'.phase == Ended(false) || c'.finalize == Finalized(false) || c'.force == Forced(false)
  {
  }

  /** Nothing has gone wrong: the child has not failed, and until it is forced out its row is there to finalize. */
  ghost predicate GoesWell(rows: Rows, id: string, c: Child) {
    && id in rows && Sane(c) && c.phase != Ended(false) && c.force != Forced(false)
    && (c.force == Idle ==>
          && c.finalize != Finalized(false) && (rows[id].deleted ==> c.finalize == Finalized(true))
          && (c.phase == Ended(true) ==> c.finalize == Finalized(true)))
  }

  lemma ChildStepGoesWell(rows: Rows, c: Child, a: Action, id: string)
    requires !ParentAction(a) && a.id == id && ChildReady(c, a) && !GoesWrong(a, id) && GoesWell(rows, id, c)
    ensures GoesWell(RowsAfter(rows, a), id, ChildAfter(rows, c, a))
  {
  }

  /** Children that the parent will force have ended. */
  ghost predicate ForcedHaveEnded(s: System) {
    forall id :: id in s.failed ==> id in s.children && s.children[id].phase.Ended?
  }

  lemma EndedStays(s: System, a: Action, id: string)
    requires Enabled(s, a) && id in s.children && s.children[id].phase.Ended? && !s.parent.Starting?
    ensures id in Do(s, a).children && Do(s, a).children[id].phase == s.children[id].phase
  {
  }

  /** Only ended children are put on the list to be forced. */
  lemma NewlyFailedEnded(s: System, a: Action, id: string)
    requires Enabled(s, a) && id !in s.failed && id in Do(s, a).failed
    ensures id in Do(s, a).children && Do(s, a).children[id].phase.Ended?
  {
  }

  lemma StepKeepsEnded(s: System, a: Action)
    requires Invariant(s) && ForcedHaveEnded(s) && Enabled(s, a)
    ensures ForcedHaveEnded(Do(s, a))
  {
    forall id | id in Do(s, a).failed ensures id in Do(s, a).children && Do(s, a).children[id].phase.Ended? {
      if id in s.failed {
        EndedStays(s, a, id);
      } else {
        NewlyFailedEnded(s, a, id);
      }
    }
  }

  /** As long as nothing goes wrong with the child, in the state of the whole system. */
  ghost predicate WellSoFar(s: System, id: string) {
    id in s.children ==> GoesWell(s.rows, id, s.children[id])
  }

  lemma ChildActionWell(s: System, a: Action, id: string)
    requires Invariant(s) && !ParentAction(a) && ChildEnabled(s, a) && !GoesWrong(a, id) && WellSoFar(s, id)
    ensures WellSoFar(DoChild(s, a), id)
  {
    if id in s.children {
      ChildWritesOwnRow(s, a);
      if a.id == id {
        ChildStepGoesWell(s.rows, s.children[id], a, id);
      }
    }
  }

  lemma ForceActionWell(s: System, a: Action, id: string)
    requires Invariant(s) && ForcedHaveEnded(s) && WellSoFar(s, id)
    requires (a.RestSetState? || a.RestDelete?) && ParentEnabled(s, a)
    ensures WellSoFar(DoParent(s, a), id)
  {
    ForceWritesOneRow(s, a);
    var forced := s.failed[s.parent.next];
    assert forced in s.failed;
  }

  lemma ListActionWell(s: System, a: Action, id: string)
    requires Invariant(s) && a.List? && ParentEnabled(s, a)
    ensures WellSoFar(DoParent(s, a), id)
  {
    var s' := DoParent(s, a);
    if id in s'.children {
      assert id in Elements(a.order);
      assert Live(s.rows, id);
    }
  }

  lemma StepGoesWell(s: System, a: Action, id: string)
    requires Invariant(s) && ForcedHaveEnded(s) && Enabled(s, a) && !GoesWrong(a, id) && WellSoFar(s, id)
    ensures WellSoFar(Do(s, a), id)
  {
    if !ParentAction(a) {
      ChildActionWell(s, a, id);
    } else if a.List? {
      ListActionWell(s, a, id);
    } else if a.RestSetState? || a.RestDelete? {
      ForceActionWell(s, a, id);
    }
  }

  lemma {:induction false} RunKeepsEnded(states: seq<System>, actions: seq<Action>, n: nat)
    requires IsRun(states, actions) && n <= |actions|
    ensures ForcedHaveEnded(states[n])
  {
    if n > 0 {
      RunKeepsEnded(states, actions, n - 1);
      RunKeepsInvariant(states, actions, n - 1);
      assert StepAt(states, actions, n - 1);
      StepKeepsEnded(states[n - 1], actions[n - 1]);
    }
  }

  lemma {:induction false} RunGoesWell(states: seq<System>, actions: seq<Action>, n: nat, id: string)
    requires IsRun(states, actions) && n <= |actions| && forall k :: 0 <= k < n ==> !GoesWrong(actions[k], id)
    ensures WellSoFar(states[n], id)
  {
    if n > 0 {
      RunGoesWell(states, actions, n - 1, id);
      RunKeepsInvariant(states, actions, n - 1);
      RunKeepsEnded(states, actions, n - 1);
      assert StepAt(states, actions, n - 1);
      StepGoesWell(states[n - 1], actions[n - 1], id);
    }
  }

  /** A child fails only when something went wrong with it: its timer alone does not fail it. */
  lemma ChildFailsOnlyIf(states: seq<System>, actions: seq<Action>, n: nat, id: string)
    requires IsRun(states, actions) && n <= |actions|
    requires id in states[n].children && states[n].children[id].phase == Ended(false)
    ensures exists k :: 0 <= k < n && GoesWrong(actions[k], id)
  {
    if forall k :: 0 <= k < n ==> !GoesWrong(actions[k], id) {
      RunGoesWell(states, actions, n, id);
    }
  }

  /** A failed revocation, or a cancellation, ends the child in failure for good. */
  lemma {:induction false} FailedForGood(states: seq<System>, actions: seq<Action>, k: nat, n: nat, id: string)
    requires IsRun(states, actions) && k < n <= |actions|
    requires actions[k] == RevokeEnds(id, false) || actions[k] == ChildCancelled(id)
    ensures id in states[n].children && states[n].children[id].phase == Ended(false)
    decreases n
  {
    assert StepAt(states, actions, n - 1);
    if k < n - 1 {
      FailedForGood(states, actions, k, n - 1, id);
      RunKeepsInvariant(states, actions, n - 1);
      EndedStays(states[n - 1], actions[n - 1], id);
    }
  }

  /** Children on the list to be forced have failed, unless the parent's timer has fired. */
  ghost predicate ForcedHaveFailed(s: System) {
    && (s.timedOut || forall id :: id in s.failed ==> id in s.children && s.children[id].phase == Ended(false))
    && (s.parent == Draining && !s.timedOut ==> s.pending == {})
  }

  lemma StepKeepsFailed(s: System, a: Action)
    requires Invariant(s) && ForcedHaveFailed(s) && Enabled(s, a)
    ensures ForcedHaveFailed(Do(s, a)) && (Do(s, a).timedOut ==> s.timedOut || a == ParentTimer)
  {
    var s' := Do(s, a);
    if !s'.timedOut {
      forall id | id in s'.failed ensures id in s'.children && s'.children[id].phase == Ended(false) {
        if id in s.failed {
          EndedStays(s, a, id);
        }
      }
    }
  }

  lemma {:induction false} RunKeepsFailed(states: seq<System>, actions: seq<Action>, n: nat)
    requires IsRun(states, actions) && n <= |actions|
    ensures ForcedHaveFailed(states[n]) && (states[n].timedOut ==> exists k :: 0 <= k < n && actions[k] == ParentTimer)
  {
    if n > 0 {
      RunKeepsFailed(states, actions, n - 1);
      RunKeepsInvariant(states, actions, n - 1);
      assert StepAt(states, actions, n - 1);
      StepKeepsFailed(states[n - 1], actions[n - 1]);
    }
  }

  /** Until the parent's timer fires, only connections whose child has failed are left for the parent to force. */
  lemma OnlyFailedAreForced(states: seq<System>, actions: seq<Action>, n: nat, id: string)
    requires IsRun(states, actions) && n <= |actions| && id in states[n].failed
    ensures
      || (id in states[n].children && states[n].children[id].phase == Ended(false))
      || exists k :: 0 <= k < n && actions[k] == ParentTimer
  {
    RunKeepsFailed(states, actions, n);
  }

  /** A child is forced out only after its timer. */
  lemma {:induction false} ForcedOnlyAfterTimer(states: seq<System>, actions: seq<Action>, n: nat, id: string)
    requires IsRun(states, actions) && n <= |actions|
    requires id in states[n].children && states[n].children[id].force != Idle
    ensures exists k :: 0 <= k < n && actions[k] == ChildTimer(id)
  {
    assert n > 0;
    assert StepAt(states, actions, n - 1);
    if actions[n - 1] != ChildTimer(id) {
      ForcedOnlyAfterTimer(states, actions, n - 1, id);
    }
  }
}
