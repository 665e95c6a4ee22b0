/** Archiving can still succeed at every moment of every run, exactly until something has gone wrong for good. */
module ArchiveLiveness {
  import opened Archive
  import D = Disconnect
  import L = DisconnectLiveness

  /** The actions, taken one after the other, lead from s to t. */
  ghost predicate Leads(s: System, actions: seq<Action>, t: System)
    decreases |actions|
  {
    if actions == [] then s == t
    else Enabled(s, actions[0]) && Leads(Do(s, actions[0]), actions[1..], t)
  }

  lemma LeadsFirst(s: System, a: Action, actions: seq<Action>, t: System)
    requires Enabled(s, a) && Leads(Do(s, a), actions, t)
    ensures Leads(s, [a] + actions, t)
  {
    assert ([a] + actions)[1..] == actions;
  }

  lemma {:induction false} LeadsOn(s: System, before: seq<Action>, t: System, after: seq<Action>, u: System)
    requires Leads(s, before, t) && Leads(t, after, u)
    ensures Leads(s, before + after, u)
    decreases |before|
  {
    if before == [] {
      assert before + after == after;
    } else {
      LeadsOn(Do(s, before[0]), before[1..], t, after, u);
      LeadsFirst(s, before[0], before[1..] + after, u);
      assert before + after == [before[0]] + (before[1..] + after);
    }
  }

  /** A run of disconnect-all is a run of the workflow that waits for it. */
  lemma {:induction false} SubLeads(s: System, actions: seq<D.Action>, sub: D.System) returns (lifted: seq<Action>)
    requires s.phase == DisconnectingAll && L.Leads(s.sub, actions, sub)
    ensures Leads(s, lifted, s.(sub := sub))
    decreases |actions|
  {
    lifted := [];
    if actions != [] {
      var a := Sub(actions[0]);
      var rest := SubLeads(Do(s, a), actions[1..], sub);
      assert Do(s, a).(sub := sub) == s.(sub := sub);
      LeadsFirst(s, a, rest, s.(sub := sub));
      lifted := [a] + rest;
    }
  }

  /** There is no version, disconnect-all has returned an error, or the workflow has failed. */
  ghost predicate Doomed(s: System) {
    s.versions == [] || s.sub.parent == D.Returned(false) || s.phase == Done(false)
  }

  ghost predicate Good(s: System) {
    Invariant(s) && L.ChildrenSane(s.sub)
  }

  lemma StepKeepsGood(s: System, a: Action)
    requires Good(s) && Enabled(s, a)
    ensures Good(Do(s, a))
  {
    StepKeepsInvariant(s, a);
    if a.Sub? {
      L.StepKeepsSane(s.sub, a.action);
    }
  }

  lemma DoomedStays(s: System, a: Action)
    requires Good(s) && Doomed(s) && Enabled(s, a)
    ensures Doomed(Do(s, a))
  {
    if a.Sub? && s.sub.parent == D.Returned(false) {
      ReturnedParentIsDone(s.sub, a.action);
      SubStepKeepsReturn(s.sub, a.action);
    }
  }

  lemma {:induction false} DoomedFails(s: System, actions: seq<Action>, t: System)
    requires Good(s) && Doomed(s) && Leads(s, actions, t)
    ensures t.phase != Done(true)
    decreases |actions|
  {
    if actions != [] {
      StepKeepsGood(s, actions[0]);
      DoomedStays(s, actions[0]);
      DoomedFails(Do(s, actions[0]), actions[1..], t);
    }
  }

  /** The workflow's next step when all goes well. */
  function GoOn(s: System): Action {
    match s.phase
    case Preparing(i) => if i < |s.versions| then PrepareOne(D.Written) else PrepareEnd
    case DisconnectingAll => SubEnd
    case Finalizing(i) => if i < |s.versions| then FinalizeOne(D.Written) else FinalizeEnd
    case Done(_) => SubEnd
  }

  lemma GoingOn(s: System)
    requires Good(s) && !Doomed(s) && !s.phase.Done? && (s.phase == DisconnectingAll ==> s.sub.parent.Returned?)
    ensures Enabled(s, GoOn(s)) && !Doomed(Do(s, GoOn(s))) && Left(Do(s, GoOn(s))) < Left(s)
  {
    MakesProgress(s, GoOn(s));
  }

  /** Disconnect-all has returned. */
  lemma AwaitSub(s: System) returns (actions: seq<Action>, t: System)
    requires Good(s) && !Doomed(s)
    ensures Leads(s, actions, t) && Good(t) && !Doomed(t) && t.phase == s.phase && t.versions == s.versions
    ensures t.phase == DisconnectingAll ==> t.sub.parent.Returned?
  {
    actions, t := [], s;
    if s.phase == DisconnectingAll {
      var steps, sub := L.Succeeds(s.sub);
      actions := SubLeads(s, steps, sub);
      t := s.(sub := sub);
      LeadsKeepsGood(s, actions, t);
    }
  }

  lemma {:induction false} LeadsKeepsGood(s: System, actions: seq<Action>, t: System)
    requires Good(s) && Leads(s, actions, t)
    ensures Good(t)
    decreases |actions|
  {
    if actions != [] {
      StepKeepsGood(s, actions[0]);
      LeadsKeepsGood(Do(s, actions[0]), actions[1..], t);
    }
  }

  lemma {:induction false} Succeeds(s: System) returns (actions: seq<Action>, t: System)
    requires Good(s) && !Doomed(s)
    ensures Leads(s, actions, t) && t.phase == Done(true)
    decreases Left(s)
  {
    if s.phase.Done? {
      actions, t := [], s;
    } else {
      var first, u := AwaitSub(s);
      GoingOn(u);
      StepKeepsGood(u, GoOn(u));
      var rest;
      rest, t := Succeeds(Do(u, GoOn(u)));
      LeadsFirst(u, GoOn(u), rest, t);
      LeadsOn(s, first, u, [GoOn(u)] + rest, t);
      actions := first + ([GoOn(u)] + rest);
    }
  }

  lemma {:induction false} RunKeepsGood(states: seq<System>, actions: seq<Action>, n: nat)
    requires IsRun(states, actions) && n <= |actions|
    ensures Good(states[n])
  {
    if n > 0 {
      RunKeepsGood(states, actions, n - 1);
      assert StepAt(states, actions, n - 1);
      StepKeepsGood(states[n - 1], actions[n - 1]);
    }
  }

  ghost predicate LeadsToNil(s: System, actions: seq<Action>, t: System) {
    Leads(s, actions, t) && t.phase == Done(true)
  }

  /** At every moment of every run the workflow can still archive all, exactly when nothing dooms it. */
  lemma NilPossibleIff(states: seq<System>, actions: seq<Action>, n: nat)
    requires IsRun(states, actions) && n <= |actions|
    ensures (exists rest, t :: LeadsToNil(states[n], rest, t)) <==> !Doomed(states[n])
  {
    RunKeepsGood(states, actions, n);
    if !Doomed(states[n]) {
      var rest, t := Succeeds(states[n]);
      assert LeadsToNil(states[n], rest, t);
    } else if exists rest, t :: LeadsToNil(states[n], rest, t) {
      var rest, t :| LeadsToNil(states[n], rest, t);
      DoomedFails(states[n], rest, t);
    }
  }

  /** A child and its activities can go on at every moment of every run, whatever has become of the workflow. */
  lemma ChildrenOutlive(states: seq<System>, actions: seq<Action>, n: nat, a: D.Action)
    requires IsRun(states, actions) && n <= |actions| && !D.ParentAction(a) && D.Enabled(states[n].sub, a)
    ensures Enabled(states[n], Sub(a)) && Do(states[n], Sub(a)) == states[n].(sub := D.Do(states[n].sub, a))
  {
    RunKeepsInvariant(states, actions, n);
  }
}
