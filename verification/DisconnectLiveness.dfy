/**
 Disconnect-all can always still succeed: in every state of every run a child that has not failed can succeed, and as
 long as the parent has not returned an error it can return nil.
 */
module DisconnectLiveness {
  import opened Disconnect
  import opened DisconnectOutcome
  import opened Sequences

  /** The actions, taken one after the other, lead from s to t. */
  ghost predicate Leads(s: System, actions: seq<Action>, t: System)
    decreases |actions|
  {
    if actions == [] then s == t
    else Enabled(s, actions[0]) && Leads(Do(s, actions[0]), actions[1..], t)
  }

  lemma LeadsFirst(s: System, a: Action, actions: seq<Action>, t: System)
    requires Enabled(s, a) && Leads(Do(s, a), actions, t)
    ensures Leads(s, [a] + actions, t)
  {
    assert ([a] + actions)[1..] == actions;
  }

  lemma {:induction false} LeadsOn(s: System, before: seq<Action>, t: System, after: seq<Action>, u: System)
    requires Leads(s, before, t) && Leads(t, after, u)
    ensures Leads(s, before + after, u)
    decreases |before|
  {
    if before == [] {
      assert before + after == after;
    } else {
      LeadsOn(Do(s, before[0]), before[1..], t, after, u);
      LeadsFirst(s, before[0], before[1..] + after, u);
      assert before + after == [before[0]] + (before[1..] + after);
    }
  }

  // ---------------------------------------------------------------------------------------------
  // A child
  // ---------------------------------------------------------------------------------------------

  ghost predicate ChildrenSane(s: System) {
    forall id :: id in s.children ==> Sane(s.children[id])
  }

  /** The child's next step when all goes well; it waits for its timer only when there is no row left to finalize. */
  function GoOn(c: Child, live: bool, id: string): Action {
    match c.phase
    case Revoking => if live then RevokeEnds(id, true) else ChildTimer(id)
    case Finalizing =>
      if !live && c.finalize != Finalized(true) then ChildTimer(id)
      else (match c.finalize
        case Started => FinalizeLoad(id, true)
        case Loaded => FinalizeSetState(id, true)
        case StateSet => FinalizeDelete(id, true)
        case Finalized(ok) => if ok then FinalizeReport(id) else FinalizeRetry(id)
        case NotStarted => ChildTimer(id))
    case _ =>
      (match c.force
       case ForceStarted => ForceSetState(id, true)
       case ForceStateSet => ForceDelete(id, true)
       case Forced(ok) => if ok then ForceReport(id) else ForceRetry(id)
       case Idle => ForceReport(id))
  }

  /** Steps left on that way, activities started over included. */
  function WayLeft(c: Child): nat {
    match c.phase
    case Revoking => 20
    case Finalizing =>
      10 + (match c.finalize case NotStarted => 5 case Finalized(ok) => if ok then 0 else 4
            case Started => 3 case Loaded => 2 case StateSet => 1)
    case ForcingOut =>
      1 + (match c.force case Idle => 5 case Forced(ok) => if ok then 0 else 3
           case ForceStarted => 2 case ForceStateSet => 1)
    case Ended(_) => 0
  }

  /** The child can succeed without its timer. */
  ghost predicate NeedsNoTimer(rows: Disconnect.Rows, c: Child, id: string) {
    Live(rows, id) || c.finalize == Finalized(true) || c.phase == ForcingOut || c.phase.Ended?
  }

  lemma GoingOn(rows: Disconnect.Rows, c: Child, id: string)
    requires Sane(c) && !c.phase.Ended? && ChildOk(rows, id, c)
    ensures var a := GoOn(c, Live(rows, id), id);
      && !ParentAction(a) && a.id == id && ChildReady(c, a)
      && var c' := ChildAfter(rows, c, a);
         && Sane(c') && WayLeft(c') < WayLeft(c) && c'.phase != Ended(false)
         && (NeedsNoTimer(rows, c, id) ==> !a.ChildTimer? && NeedsNoTimer(RowsAfter(rows, a), c', id))
  {
  }

  /** Steps of this child alone, with its timer only if allowed. */
  ghost predicate OwnSteps(actions: seq<Action>, id: string, timer: bool) {
    forall a :: a in actions ==> !ParentAction(a) && a.id == id && !a.ChildCancelled? && (a.ChildTimer? ==> timer)
  }

  /** Only the child and the rows have changed. */
  ghost predicate SameParent(s: System, t: System) {
    t == s.(rows := t.rows, children := t.children)
  }

  /** A child that has not ended can succeed by its own steps, and without its timer while its row is live. */
  lemma {:induction false} ChildSucceeds(s: System, id: string) returns (actions: seq<Action>, t: System)
    requires Invariant(s) && ChildrenSane(s) && id in s.children && s.children[id].phase != Ended(false)
    ensures Leads(s, actions, t) && OwnSteps(actions, id, !NeedsNoTimer(s.rows, s.children[id], id))
    ensures Invariant(t) && ChildrenSane(t) && SameParent(s, t)
    ensures id in t.children && t.children[id].phase == Ended(true)
    decreases WayLeft(s.children[id])
  {
    var c := s.children[id];
    if c.phase.Ended? {
      actions, t := [], s;
    } else {
      GoingOn(s.rows, c, id);
      var a := GoOn(c, Live(s.rows, id), id);
      StepKeepsInvariant(s, a);
      var rest;
      rest, t := ChildSucceeds(Do(s, a), id);
      LeadsFirst(s, a, rest, t);
      actions := [a] + rest;
    }
  }

  // ---------------------------------------------------------------------------------------------
  // The parent
  // ---------------------------------------------------------------------------------------------

  lemma ParentStepKeepsSane(s: System, a: Action)
    requires ChildrenSane(s) && ParentAction(a) && ParentEnabled(s, a)
    ensures ChildrenSane(DoParent(s, a))
  {
  }

  /** The parent's next step when all goes well. */
  function ParentGoOn(s: System, id: string): Action {
    match s.parent
    case Waiting => if s.pending != {} && !s.timedOut then Collect(id) else LeaveLoop
    case Draining => if s.pending != {} then Drain(id) else StartForce
    case ForcingRest(k, stateSet) =>
      if k == |s.failed| then RestDone else if stateSet then RestDelete(Written) else RestSetState(Written)
    case _ => RestDone
  }

  /** The parent can go on once this child has ended. */
  lemma ParentGoingOn(s: System, id: string)
    requires Invariant(s) && (s.parent == Waiting || s.parent == Draining || s.parent.ForcingRest?)
    requires s.pending != {} ==> id in s.pending && id in s.children && s.children[id].phase.Ended?
    ensures var a := ParentGoOn(s, id);
      && ParentAction(a) && ParentEnabled(s, a)
      && DoParent(s, a).parent != Returned(false) && DoParent(s, a).parent != Starting
  {
  }

  lemma {:induction false} ParentSucceeds(s: System) returns (actions: seq<Action>, t: System)
    requires Invariant(s) && ChildrenSane(s) && s.parent != Returned(false) && s.parent != Starting
    ensures Leads(s, actions, t) && t.parent == Returned(true)
    decreases Remaining(s)
  {
    if s.parent == Returned(true) {
      actions, t := [], s;
    } else {
      var id, first, u := AwaitOne(s);
      ParentGoingOn(u, id);
      var a := ParentGoOn(u, id);
      StepKeepsInvariant(u, a);
      ParentStepKeepsSane(u, a);
      ParentMakesProgress(u, a);
      var rest;
      rest, t := ParentSucceeds(Do(u, a));
      LeadsFirst(u, a, rest, t);
      LeadsOn(s, first, u, [a] + rest, t);
      actions := first + ([a] + rest);
    }
  }

  /** Some pending child has ended, after steps of its own. */
  lemma AwaitOne(s: System) returns (id: string, actions: seq<Action>, t: System)
    requires Invariant(s) && ChildrenSane(s)
    ensures Leads(s, actions, t) && Invariant(t) && ChildrenSane(t) && SameParent(s, t) && Remaining(t) == Remaining(s)
    ensures s.pending != {} ==> id in t.pending && id in t.children && t.children[id].phase.Ended?
  {
    id, actions, t := "", [], s;
    if s.pending != {} {
      id :| id in s.pending;
      assert id in Elements(s.listed);
      if !s.children[id].phase.Ended? {
        actions, t := ChildSucceeds(s, id);
        SameParentRemains(s, t);
      }
    }
  }

  lemma SameParentRemains(s: System, t: System)
    requires SameParent(s, t)
    ensures t.pending == s.pending && t.parent == s.parent && Remaining(t) == Remaining(s)
  {
  }

  lemma {:induction false} InOrder(ids: set<string>) returns (order: seq<string>)
    ensures NoDuplicates(order) && Elements(order) == ids
    decreases ids
  {
    if ids == {} {
      order := [];
    } else {
      var id :| id in ids;
      var rest := InOrder(ids - {id});
      AppendNoDuplicates(rest, id);
      order := rest + [id];
    }
  }

  lemma Succeeds(s: System) returns (actions: seq<Action>, t: System)
    requires Invariant(s) && ChildrenSane(s) && s.parent != Returned(false)
    ensures Leads(s, actions, t) && t.parent == Returned(true)
  {
    if s.parent == Starting {
      var order := InOrder(set id | id in s.rows && Relevant(s.rows, s.connector, id));
      var a := List(order, |order|, false);
      StepKeepsInvariant(s, a);
      ParentStepKeepsSane(s, a);
      var rest;
      rest, t := ParentSucceeds(Do(s, a));
      LeadsFirst(s, a, rest, t);
      actions := [a] + rest;
    } else {
      actions, t := ParentSucceeds(s);
    }
  }

  lemma {:induction false} ErrorIsFinal(s: System, actions: seq<Action>, t: System)
    requires s.parent == Returned(false) && Leads(s, actions, t)
    ensures t.parent == Returned(false)
    decreases |actions|
  {
    if actions != [] {
      ReturnedStays(s, actions[0]);
      ErrorIsFinal(Do(s, actions[0]), actions[1..], t);
    }
  }

  lemma StepKeepsSane(s: System, a: Action)
    requires ChildrenSane(s) && Enabled(s, a)
    ensures ChildrenSane(Do(s, a))
  {
    if ParentAction(a) {
      ParentStepKeepsSane(s, a);
    } else {
      ChildStaysSane(s.rows, s.children[a.id], a);
    }
  }

  lemma {:induction false} RunKeepsAllSane(states: seq<System>, actions: seq<Action>, n: nat)
    requires IsRun(states, actions) && n <= |actions|
    ensures ChildrenSane(states[n])
  {
    forall id | id in states[n].children ensures Sane(states[n].children[id]) {
      RunKeepsSane(states, actions, n, id);
    }
  }

  ghost predicate LeadsToNil(s: System, actions: seq<Action>, t: System) {
    Leads(s, actions, t) && t.parent == Returned(true)
  }

  /** At every moment of every run a nil return is still possible exactly when no error has been returned. */
  lemma NilPossibleIff(states: seq<System>, actions: seq<Action>, n: nat)
    requires IsRun(states, actions) && n <= |actions|
    ensures (exists rest, t :: LeadsToNil(states[n], rest, t)) <==>
      states[n].parent != Returned(false)
  {
    RunKeepsInvariant(states, actions, n);
    RunKeepsAllSane(states, actions, n);
    if states[n].parent != Returned(false) {
      var rest, t := Succeeds(states[n]);
      assert LeadsToNil(states[n], rest, t);
    } else if exists rest, t :: LeadsToNil(states[n], rest, t) {
      var rest, t :| LeadsToNil(states[n], rest, t);
      ErrorIsFinal(states[n], rest, t);
    }
  }

  /** At every moment of every run a child that has not failed can succeed; while its row is live, without its timer. */
  lemma ChildStaysPossible(states: seq<System>, actions: seq<Action>, n: nat, id: string)
    returns (rest: seq<Action>, t: System)
    requires IsRun(states, actions) && n <= |actions|
    requires id in states[n].children && states[n].children[id].phase != Ended(false)
    ensures Leads(states[n], rest, t) && id in t.children && t.children[id].phase == Ended(true)
    ensures id in states[n].rows && OwnSteps(rest, id, states[n].rows[id].deleted)
  {
    RunKeepsInvariant(states, actions, n);
    RunKeepsAllSane(states, actions, n);
    rest, t := ChildSucceeds(states[n], id);
  }
}
