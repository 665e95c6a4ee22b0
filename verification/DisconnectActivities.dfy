/**
 The loops of the disconnect workflows as they run: the activities over the connections table and the select loop of
 the parent.
 */
module DisconnectActivities {
  import opened Options
  import opened Connections
  import opened Disconnect
  import opened Sequences

  /** Disconnect and delete every id, in order. */
  function ForceAll(rows: Rows, ids: seq<string>): Rows {
    if ids == [] then rows
    else
      var last := ids[|ids| - 1];
      Delete(SetState(ForceAll(rows, ids[..|ids| - 1]), last, Disconnected), last)
  }

  /** Forcing leaves every listed row disconnected and deleted, and touches no other row. */
  lemma {:induction false} ForceAllGone(rows: Rows, ids: seq<string>)
    requires forall id :: id in ids && id in rows && rows[id].deleted ==> rows[id].state == Disconnected
    ensures ForceAll(rows, ids).Keys == rows.Keys
    ensures forall id :: id in rows ==> if id in ids then Gone(ForceAll(rows, ids), id) else ForceAll(rows, ids)[id] == rows[id]
    decreases |ids|
  {
    if ids != [] {
      var init, last := ids[..|ids| - 1], ids[|ids| - 1];
      ForceAllGone(rows, init);
      assert ids == init + [last];
    }
  }

  predicate ConnectionId(id: string) {
    "cxn_" <= id
  }

  predicate Fails(id: string, setFails: set<string>, deleteFails: set<string>) {
    !ConnectionId(id) || id in setFails || id in deleteFails
  }

  /** The index of the first id that ends the force activity, or the number of ids. */
  function FirstFailure(ids: seq<string>, setFails: set<string>, deleteFails: set<string>): (k: nat)
    ensures k <= |ids| && (k < |ids| ==> Fails(ids[k], setFails, deleteFails))
    ensures forall i :: 0 <= i < k ==> !Fails(ids[i], setFails, deleteFails)
  {
    if ids == [] || Fails(ids[0], setFails, deleteFails) then 0 else 1 + FirstFailure(ids[1..], setFails, deleteFails)
  }

  /** The connections of a connector that are still to be disconnected, in the order of the table. */
  function RelevantIds(rows: Rows, connector: string, table: seq<string>): (ids: seq<string>)
    ensures forall id :: id in ids <==> id in table && Relevant(rows, connector, id)
  {
    if table == [] then []
    else
      var last, init := table[|table| - 1], RelevantIds(rows, connector, table[..|table| - 1]);
      if Relevant(rows, connector, last) then init + [last] else init
  }

  /** Marking relevant connections leaves them relevant, and others not. */
  lemma MarkingKeepsRelevant(rows: Rows, connector: string, ids: seq<string>, id: string)
    requires forall i :: i in ids ==> Relevant(rows, connector, i)
    ensures Relevant(MarkDisconnecting(rows, ids), connector, id) <==> Relevant(rows, connector, id)
  {
  }

  class ConnectionStore {
    var rows: Rows

    constructor (rows: Rows)
      ensures this.rows == rows
    {
      this.rows := rows;
    }

    /** Mark every relevant connection and return them; None when a write fails, the earlier marks staying. */
    method ListConnections(connector: string, table: seq<string>, failAt: Option<nat>) returns (ids: Option<seq<string>>)
      requires forall id :: id in rows ==> id in table
      modifies this
      ensures ids.Some? ==>
        ids.value == RelevantIds(old(rows), connector, table) && rows == MarkDisconnecting(old(rows), ids.value)
      ensures rows.Keys == old(rows).Keys
      ensures forall id :: id in rows ==>
        var row := old(rows)[id];
        if row.connector != connector || row.deleted || row.state == Disconnected
        then rows[id] == row && (ids.Some? ==> id !in ids.value)
        else ids.Some? ==> rows[id] == row.(state := Disconnecting) && id in ids.value
      ensures ids.None? ==>
        && failAt.Some? && failAt.value < |table|
        && rows == MarkDisconnecting(old(rows), RelevantIds(old(rows), connector, table[..failAt.value]))
      ensures failAt.None? ==> ids.Some?
    {
      var listed: seq<string> := [];
      assert rows == MarkDisconnecting(rows, []);
      for i := 0 to |table|
        invariant listed == RelevantIds(old(rows), connector, table[..i]) && rows == MarkDisconnecting(old(rows), listed)
      {
        var id := table[i];
        assert table[..i + 1][..i] == table[..i];
        MarkingKeepsRelevant(old(rows), connector, listed, id);
        if Relevant(rows, connector, id) {
          if rows[id].state != Disconnecting {
            if failAt == Some(i) { return None; }
            rows := SetState(rows, id, Disconnecting);
          }
          listed := listed + [id];
          assert rows == MarkDisconnecting(old(rows), listed);
        }
      }
      assert table[..|table|] == table;
      return Some(listed);
    }

    /** Force the given connections; the first failing write or malformed id ends the activity, the earlier work staying. */
    method ForceRemaining(ids: seq<string>, setFails: set<string>, deleteFails: set<string>) returns (ok: bool)
      modifies this
      ensures ok <==> forall id :: id in ids ==> !Fails(id, setFails, deleteFails)
      ensures var k := FirstFailure(ids, setFails, deleteFails);
        rows == if k < |ids| && ConnectionId(ids[k]) && ids[k] !in setFails
                then SetState(ForceAll(old(rows), ids[..k]), ids[k], Disconnected)
                else ForceAll(old(rows), ids[..k])
    {
      ghost var k := FirstFailure(ids, setFails, deleteFails);
      for i := 0 to |ids|
        invariant i <= k && rows == ForceAll(old(rows), ids[..i])
      {
        var id := ids[i];
        assert id in ids;
        if !ConnectionId(id) || id in setFails { return false; }
        rows := SetState(rows, id, Disconnected);
        if id in deleteFails { return false; }
        rows := Delete(rows, id);
        assert ids[..i + 1][..i] == ids[..i];
      }
      return true;
    }

    /** The finalize activity of one connection. */
    method FinalizeOne(id: string, setFails: bool, deleteFails: bool) returns (ok: bool)
      modifies this
      ensures ok <==> Live(old(rows), id) && !setFails && !deleteFails
      ensures ok ==> Gone(rows, id)
      ensures rows == if !Live(old(rows), id) || setFails then old(rows)
                      else if deleteFails then SetState(old(rows), id, Disconnected)
                      else ForceAll(old(rows), [id])
    {
      if !Live(rows, id) || setFails { return false; }
      rows := SetState(rows, id, Disconnected);
      if deleteFails { return false; }
      rows := Delete(rows, id);
      assert [id][..0] == [];
      return true;
    }
  }

  /**
   The select loop: each round either the timer fires or one pending child is collected. `succeeds` says how each
   child ends and `rounds` how many children are collected before the timer would fire.
   */
  method AwaitChildren(listed: seq<string>, succeeds: set<string>, rounds: nat)
    returns (pending: set<string>, toForce: seq<string>, timedOut: bool)
    ensures pending <= Elements(listed) && NoDuplicates(toForce)
    ensures Elements(toForce) == Elements(listed) - pending - succeeds
    ensures !timedOut ==> pending == {}
    ensures timedOut <==> rounds < |Elements(listed)|
    ensures timedOut ==> |pending| == |Elements(listed)| - rounds
  {
    pending, toForce, timedOut := Elements(listed), [], false;
    var round := 0;
    while |pending| > 0 && !timedOut
      invariant pending <= Elements(listed) && NoDuplicates(toForce)
      invariant Elements(toForce) == Elements(listed) - pending - succeeds
      invariant |pending| == |Elements(listed)| - round && round <= rounds
      invariant timedOut ==> round == rounds && pending != {}
      decreases |pending| + if timedOut then 0 else 1
    {
      if round == rounds {
        timedOut := true;
      } else {
        var id :| id in pending;
        if id !in succeeds {
          assert id !in Elements(toForce);
          AppendNoDuplicates(toForce, id);
          toForce := toForce + [id];
        }
        pending := pending - {id};
        round := round + 1;
      }
    }
  }
}
