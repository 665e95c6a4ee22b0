/**
 Which connections disconnect-all reaches: exactly those of its connector that were live and not yet disconnected when
 it began. Over whole runs, and from the rows of the first state alone.
 */
module DisconnectScope {
  import opened Connections
  import opened Disconnect
  import opened Sequences

  /** A connection the workflow is for. */
  ghost predicate InScope(first: System, id: string) {
    && id in first.rows && first.rows[id].connector == first.connector
    && !first.rows[id].deleted && first.rows[id].state != Disconnected
  }

  /** Every other row is as it was. */
  ghost predicate OthersUntouched(first: System, s: System) {
    s.rows.Keys == first.rows.Keys && forall id :: id in s.rows && !InScope(first, id) ==> s.rows[id] == first.rows[id]
  }

  /** Until the listing has succeeded the connections in scope are still to be listed; from then on all are listed. */
  ghost predicate Reached(first: System, s: System) {
    && s.connector == first.connector && OthersUntouched(first, s)
    && (forall id :: id in s.listed ==> InScope(first, id))
    && match s.parent
       case Starting => forall id :: InScope(first, id) ==> InScope(s, id)
       case Returned(false) => true
       case _ => forall id :: InScope(first, id) ==> id in s.listed
  }

  /** A step that writes one listed row. */
  ghost predicate WritesOnly(rows: Rows, rows': Rows, id: string) {
    rows'.Keys == rows.Keys && forall k :: k in rows && k != id ==> rows'[k] == rows[k]
  }

  lemma ChildWritesOwnRow(s: System, a: Action)
    requires !ParentAction(a) && ChildEnabled(s, a)
    ensures WritesOnly(s.rows, DoChild(s, a).rows, a.id)
  {
  }

  lemma WriteKeepsOthers(first: System, s: System, rows': Rows, id: string)
    requires OthersUntouched(first, s) && InScope(first, id) && WritesOnly(s.rows, rows', id)
    ensures OthersUntouched(first, s.(rows := rows'))
  {
  }

  lemma ListReaches(first: System, s: System, a: Action)
    requires Reached(first, s) && Invariant(s) && a.List? && ParentEnabled(s, a)
    ensures Reached(first, DoParent(s, a))
  {
    ListedIsInScope(first, s, a);
    forall id | id in a.order ensures InScope(first, id) {
      assert id in Elements(a.order);
    }
    if a.done == |a.order| {
      forall id | InScope(first, id) ensures id in a.order {
        assert id in Elements(a.order);
      }
    }
    ListMarks(first, s, a);
  }

  lemma ListedIsInScope(first: System, s: System, a: Action)
    requires Reached(first, s) && a.List? && ParentEnabled(s, a)
    ensures forall id :: id in Elements(a.order) <==> InScope(first, id)
  {
    forall id ensures id in Elements(a.order) <==> InScope(first, id) {
      if InScope(first, id) {
        assert InScope(s, id);
      }
    }
  }

  lemma ListMarks(first: System, s: System, a: Action)
    requires Reached(first, s) && a.List? && ParentEnabled(s, a) && forall id :: id in a.order ==> InScope(first, id)
    ensures OthersUntouched(first, DoParent(s, a))
    ensures forall id :: InScope(first, id) ==> InScope(DoParent(s, a), id)
  {
    forall id | id in s.rows ensures MarkedRow(s, DoParent(s, a), a.order, id) {
      ListMarksRow(s, a, id);
    }
    forall id | InScope(first, id) ensures InScope(DoParent(s, a), id) {
      assert InScope(s, id) && MarkedRow(s, DoParent(s, a), a.order, id);
    }
    forall id | id in s.rows && !InScope(first, id) ensures DoParent(s, a).rows[id] == first.rows[id] {
      assert MarkedRow(s, DoParent(s, a), a.order, id);
    }
  }

  /** The row is as before, but that a listed one may be marked. */
  ghost predicate MarkedRow(s: System, s': System, order: seq<string>, id: string)
    requires id in s.rows
  {
    id in s'.rows && (s'.rows[id] == s.rows[id] || (id in order && s'.rows[id] == s.rows[id].(state := Disconnecting)))
  }

  lemma ListMarksRow(s: System, a: Action, id: string)
    requires a.List? && ParentEnabled(s, a) && id in s.rows
    ensures MarkedRow(s, DoParent(s, a), a.order, id)
    ensures DoParent(s, a).rows.Keys == s.rows.Keys && DoParent(s, a).connector == s.connector
  {
    assert id in a.order[..a.done] ==> id in a.order;
  }

  lemma ForceReaches(first: System, s: System, a: Action)
    requires Reached(first, s) && Invariant(s) && (a.RestSetState? || a.RestDelete?) && ParentEnabled(s, a)
    ensures Reached(first, DoParent(s, a))
  {
    var id := s.failed[s.parent.next];
    assert id in Elements(s.failed) && id in Elements(s.listed);
    ForceWritesOneRow(s, a);
    WriteKeepsOthers(first, s, DoParent(s, a).rows, id);
  }

  lemma ForceWritesOneRow(s: System, a: Action)
    requires (a.RestSetState? || a.RestDelete?) && ParentEnabled(s, a)
    ensures WritesOnly(s.rows, DoParent(s, a).rows, s.failed[s.parent.next])
    ensures var s' := DoParent(s, a); s'.connector == s.connector && s'.listed == s.listed && !s'.parent.Starting?
  {
  }

  lemma ChildReaches(first: System, s: System, a: Action)
    requires Reached(first, s) && Invariant(s) && !ParentAction(a) && ChildEnabled(s, a)
    ensures Reached(first, DoChild(s, a))
  {
    assert a.id in Elements(s.listed);
    ChildWritesOwnRow(s, a);
    WriteKeepsOthers(first, s, DoChild(s, a).rows, a.id);
  }

  lemma StepReaches(first: System, s: System, a: Action)
    requires Reached(first, s) && Invariant(s) && Enabled(s, a)
    ensures Reached(first, Do(s, a))
  {
    if !ParentAction(a) {
      ChildReaches(first, s, a);
    } else if a.List? {
      ListReaches(first, s, a);
    } else if a.RestSetState? || a.RestDelete? {
      ForceReaches(first, s, a);
    }
  }

  lemma {:induction false} RunReaches(states: seq<System>, actions: seq<Action>, n: nat)
    requires IsRun(states, actions) && n <= |actions|
    ensures Reached(states[0], states[n])
  {
    if n > 0 {
      RunReaches(states, actions, n - 1);
      RunKeepsInvariant(states, actions, n - 1);
      assert StepAt(states, actions, n - 1);
      StepReaches(states[0], states[n - 1], actions[n - 1]);
    }
  }

  /** In every state of every run, what is another connector's, or was deleted or disconnected before, is untouched. */
  lemma OthersNeverTouched(states: seq<System>, actions: seq<Action>, n: nat)
    requires IsRun(states, actions) && n <= |actions|
    ensures states[n].rows.Keys == states[0].rows.Keys
    ensures forall id :: id in states[0].rows ==>
      var row := states[0].rows[id];
      row.connector != states[0].connector || row.deleted || row.state == Disconnected ==> states[n].rows[id] == row
  {
    RunReaches(states, actions, n);
  }

  /** After a nil return every connection of the connector that was live and not disconnected is gone. */
  lemma NilReturnReachesAll(states: seq<System>, actions: seq<Action>)
    requires IsRun(states, actions) && states[|actions|].parent == Returned(true)
    ensures forall id :: id in states[0].rows ==>
      var row, end := states[0].rows[id], states[|actions|].rows;
      row.connector == states[0].connector && !row.deleted && row.state != Disconnected ==>
        id in end && end[id].deleted && end[id].state == Disconnected
  {
    RunReaches(states, actions, |actions|);
    NilReturnMeansAllGone(states, actions);
    forall id | id in states[0].rows && InScope(states[0], id) ensures Gone(states[|actions|].rows, id) {
      assert id in states[|actions|].listed;
    }
  }
}
