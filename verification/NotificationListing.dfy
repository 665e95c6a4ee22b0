/**
 Notification listings by position: which notifications of the table a listing shows and in which order, and what the
 writers do to each position.
 */
module NotificationListing {
  import opened Notifications
  import opened Sequences

  /** Strictly increasing positions of a table of n rows, none before k. */
  ghost predicate RisingFrom(at: seq<nat>, k: nat, n: nat) {
    && (forall a :: 0 <= a < |at| ==> k <= at[a] < n)
    && forall a, b :: 0 <= a < b < |at| ==> at[a] < at[b]
  }

  ghost predicate Rising(at: seq<nat>, n: nat) {
    RisingFrom(at, 0, n)
  }

  predicate RowIs(notes: seq<Note>, i: nat, n: Note) {
    i < |notes| && notes[i] == n
  }

  /** The rows at these positions. */
  ghost predicate RowsAt(picked: seq<Note>, notes: seq<Note>, at: seq<nat>) {
    |picked| == |at| && forall a :: 0 <= a < |at| ==> RowIs(notes, at[a], picked[a])
  }

  ghost predicate PickedAt(picked: seq<Note>, notes: seq<Note>, at: seq<nat>) {
    Rising(at, |notes|) && RowsAt(picked, notes, at)
  }

  lemma FrontRises(at: seq<nat>, k: nat, n: nat)
    requires k < n && RisingFrom(at, k + 1, n)
    ensures RisingFrom([k] + at, k, n) && RisingFrom(at, k, n)
  {
  }

  lemma FrontRow(picked: seq<Note>, notes: seq<Note>, at: seq<nat>, k: nat)
    requires k < |notes| && RowsAt(picked, notes, at)
    ensures RowsAt([notes[k]] + picked, notes, [k] + at)
  {
  }

  // ---------------------------------------------------------------------------------------------
  // The first read
  // ---------------------------------------------------------------------------------------------

  /** The notification at position i is asked for: no filter of the request excludes it. */
  ghost predicate Wanted(db: Db, actor: string, opts: Opts, i: int) {
    && 0 <= i < |db.notes|
    && !(opts.activeOnly && !db.notes[i].active)
    && (opts.resourceType == "" || db.notes[i].resourceType == opts.resourceType)
    && (opts.resourceId == "" || db.notes[i].resourceId == opts.resourceId)
    && (opts.includeViewed || (db.notes[i].id, actor) !in db.viewed)
  }

  ghost function WantedAt(db: Db, actor: string, opts: Opts): set<int> {
    set i | 0 <= i < |db.notes| && Wanted(db, actor, opts, i)
  }

  lemma {:induction false} SelectedAt(db: Db, actor: string, opts: Opts, k: nat) returns (at: seq<nat>)
    requires k <= |db.notes|
    ensures RisingFrom(at, k, |db.notes|) && RowsAt(Select(db, actor, opts, db.notes[k..]), db.notes, at)
    ensures forall i :: i in at <==> k <= i < |db.notes| && Matches(db, actor, opts, db.notes[i])
    decreases |db.notes| - k
  {
    at := [];
    if k < |db.notes| {
      var rest := SelectedAt(db, actor, opts, k + 1);
      FrontRises(rest, k, |db.notes|);
      FrontRow(Select(db, actor, opts, db.notes[k + 1..]), db.notes, rest, k);
      assert db.notes[k..][1..] == db.notes[k + 1..];
      at := if Matches(db, actor, opts, db.notes[k]) then [k] + rest else rest;
    }
  }

  /** How many a listing shows at most. */
  function Limit(opts: Opts): nat {
    if opts.limit > 0 then opts.limit else 100
  }

  /** These positions are asked for, as many as there are up to the limit, and none before the last is passed over. */
  ghost predicate IsNewest(db: Db, actor: string, opts: Opts, at: seq<nat>) {
    && (forall i :: i in at ==> Wanted(db, actor, opts, i))
    && |at| == (if |WantedAt(db, actor, opts)| <= Limit(opts) then |WantedAt(db, actor, opts)| else Limit(opts))
    && forall i :: Wanted(db, actor, opts, i) && at != [] && i < at[|at| - 1] ==> i in at
  }

  lemma RisingPrefix(at: seq<nat>, n: nat, k: nat)
    requires Rising(at, n) && k <= |at|
    ensures Rising(at[..k], n)
    ensures forall i :: i in at && k > 0 && i <= at[k - 1] ==> i in at[..k]
  {
    forall i | i in at && k > 0 && i <= at[k - 1] ensures i in at[..k] {
      var a :| 0 <= a < |at| && at[a] == i;
      assert a < k;
      assert at[..k][a] == i;
    }
  }

  lemma {:induction false} RisingSize(at: seq<nat>, n: nat)
    requires Rising(at, n)
    ensures |set i: int | i in at| == |at|
    decreases |at|
  {
    if at != [] {
      var init, last := at[..|at| - 1], at[|at| - 1];
      RisingSize(init, n);
      assert (set i: int | i in at) == (set i: int | i in init) + {last as int};
      assert last as int !in (set i: int | i in init);
    }
  }

  /**
   The listing is the newest of the notifications asked for: their rows by increasing position, as many as there are
   up to the limit, and none asked for is passed over.
   */
  lemma ListedAt(db: Db, actor: string, opts: Opts) returns (at: seq<nat>)
    ensures PickedAt(ListNotes(db, actor, opts), db.notes, at)
    ensures IsNewest(db, actor, opts, at)
  {
    var all := SelectedAt(db, actor, opts, 0);
    assert db.notes[0..] == db.notes;
    forall i: nat ensures i in all <==> Wanted(db, actor, opts, i) {
    }
    assert (set i: int | i in all) == WantedAt(db, actor, opts);
    RisingSize(all, |db.notes|);
    var k := if |all| <= Limit(opts) then |all| else Limit(opts);
    RisingPrefix(all, |db.notes|, k);
    at := all[..k];
  }

  // ---------------------------------------------------------------------------------------------
  // The rendered list
  // ---------------------------------------------------------------------------------------------

  /** The permission names this resource, verb and id, or leaves them to the notification's own. */
  predicate Names(p: Permission, n: Note, r: string, v: string, i: string) {
    && (if p.resources == [] then r == n.resourceType else r in p.resources)
    && (if p.verbs == [] then v == "get" else v in p.verbs)
    && (if p.resourceIds == [] then i == n.resourceId else i in p.resourceIds)
  }

  /** Some permission names what the actor is granted in the notification's namespace. */
  ghost predicate Permitted(auth: Auth, ps: seq<Permission>, n: Note) {
    exists p, r, v, i :: p in ps && Names(p, n, r, v, i) && (n.ns, r, v, i) in auth.grants
  }

  lemma NamesDefaults(p: Permission, n: Note, r: string, v: string, i: string)
    ensures Names(p, n, r, v, i) <==>
      && r in OrDefault(p.resources, n.resourceType) && v in OrDefault(p.verbs, "get")
      && i in OrDefault(p.resourceIds, n.resourceId)
  {
  }

  lemma AllowIsPermitted(auth: Auth, ps: seq<Permission>, n: Note)
    ensures Allow(auth, ps, n) <==> Permitted(auth, ps, n)
  {
    forall p, r, v, i
      ensures Names(p, n, r, v, i) <==>
        && r in OrDefault(p.resources, n.resourceType) && v in OrDefault(p.verbs, "get")
        && i in OrDefault(p.resourceIds, n.resourceId)
    {
      NamesDefaults(p, n, r, v, i);
    }
  }

  /** The entry of a notification, with its two flags. */
  ghost predicate EntryOf(item: Item, auth: Auth, n: Note, viewed: set<string>) {
    item.note == n && (item.viewed <==> n.id in viewed) && (item.canAction <==> Permitted(auth, n.action, n))
  }

  ghost predicate EntriesAt(items: seq<Item>, auth: Auth, notes: seq<Note>, viewed: set<string>, at: seq<nat>) {
    |items| == |at| && forall a :: 0 <= a < |at| ==> at[a] < |notes| && EntryOf(items[a], auth, notes[at[a]], viewed)
  }

  lemma FrontEntry(items: seq<Item>, auth: Auth, notes: seq<Note>, viewed: set<string>, at: seq<nat>, k: nat,
                   item: Item)
    requires EntriesAt(items, auth, notes, viewed, at) && k < |notes| && EntryOf(item, auth, notes[k], viewed)
    ensures EntriesAt([item] + items, auth, notes, viewed, [k] + at)
  {
  }

  /** Rendering shows exactly the rows the actor may view, by increasing position. */
  lemma {:induction false} RenderedAt(auth: Auth, notes: seq<Note>, viewed: set<string>, k: nat) returns (at: seq<nat>)
    requires k <= |notes|
    ensures RisingFrom(at, k, |notes|) && EntriesAt(Render(auth, notes[k..], viewed), auth, notes, viewed, at)
    ensures forall i :: i in at <==> k <= i < |notes| && Permitted(auth, notes[i].view, notes[i])
    decreases |notes| - k
  {
    at := [];
    if k < |notes| {
      var n := notes[k];
      var rest := RenderedAt(auth, notes, viewed, k + 1);
      AllowIsPermitted(auth, n.view, n);
      AllowIsPermitted(auth, n.action, n);
      FrontRises(rest, k, |notes|);
      FrontEntry(Render(auth, notes[k + 1..], viewed), auth, notes, viewed, rest, k,
                 Item(n, n.id in viewed, Allow(auth, n.action, n)));
      assert notes[k..][1..] == notes[k + 1..];
      at := if Allow(auth, n.view, n) then [k] + rest else rest;
    }
  }

  /** Positions of positions. */
  function Through(outer: seq<nat>, inner: seq<nat>): (r: seq<nat>)
    requires forall a :: 0 <= a < |inner| ==> inner[a] < |outer|
    ensures |r| == |inner| && forall a :: 0 <= a < |inner| ==> r[a] == outer[inner[a]]
  {
    seq(|inner|, a requires 0 <= a < |inner| => outer[inner[a]])
  }

  lemma ThroughMembers(outer: seq<nat>, inner: seq<nat>, i: int)
    requires forall a :: 0 <= a < |inner| ==> inner[a] < |outer|
    ensures i in Through(outer, inner) <==> exists k :: k in inner && 0 <= k < |outer| && outer[k] == i
  {
    if i in Through(outer, inner) {
      var a :| 0 <= a < |inner| && Through(outer, inner)[a] == i;
      assert inner[a] in inner;
    }
    if exists k :: k in inner && 0 <= k < |outer| && outer[k] == i {
      var k :| k in inner && 0 <= k < |outer| && outer[k] == i;
      var a :| 0 <= a < |inner| && inner[a] == k;
      assert Through(outer, inner)[a] == i;
    }
  }

  lemma ViewedIff(db: Db, actor: string, notes: seq<Note>, n: Note)
    requires n in notes
    ensures n.id in ViewedIds(db, actor, notes) <==> (n.id, actor) in db.viewed
  {
  }

  /**
   What a caller is shown: of the first read's rows, at positions `listed`, exactly those the actor may view, at
   positions `shown` in the same order, with the viewed flag of the second read and the permission for the action.
   */
  lemma ListingAt(auth: Auth, opts: Opts, first: Db, second: Db) returns (listed: seq<nat>, shown: seq<nat>)
    ensures PickedAt(ListNotes(first, auth.actor, opts), first.notes, listed)
    ensures IsNewest(first, auth.actor, opts, listed)
    ensures Rising(shown, |first.notes|) && |Listing(auth, opts, first, second)| == |shown|
    ensures forall i :: i in shown <==>
      i in listed && 0 <= i < |first.notes| && Permitted(auth, first.notes[i].view, first.notes[i])
    ensures forall a :: 0 <= a < |shown| ==>
      var item, n := Listing(auth, opts, first, second)[a], first.notes[shown[a]];
      && item.note == n && (item.viewed <==> (n.id, auth.actor) in second.viewed)
      && (item.canAction <==> Permitted(auth, n.action, n))
  {
    listed := ListedAt(first, auth.actor, opts);
    var notes := ListNotes(first, auth.actor, opts);
    var viewed := ViewedIds(second, auth.actor, notes);
    var at := RenderedAt(auth, notes, viewed, 0);
    assert notes[0..] == notes;
    shown := Through(listed, at);
    forall i
      ensures i in shown <==>
        i in listed && 0 <= i < |first.notes| && Permitted(auth, first.notes[i].view, first.notes[i])
    {
      ThroughMembers(listed, at, i);
    }
    forall a | 0 <= a < |shown|
      ensures EntryOf(Listing(auth, opts, first, second)[a], auth, first.notes[shown[a]], viewed)
      ensures first.notes[shown[a]].id in viewed <==> (first.notes[shown[a]].id, auth.actor) in second.viewed
    {
      ViewedIff(second, auth.actor, notes, notes[at[a]]);
    }
  }

  /** A notification can be marked exactly when the first with its id exists and the actor may view it. */
  lemma {:induction false} ViewableIff(db: Db, auth: Auth, id: string)
    ensures ViewableFirst(db, auth, id) <==>
      exists k :: 0 <= k < |db.notes| && IsFirst(db.notes, id, k) && Permitted(auth, db.notes[k].view, db.notes[k])
  {
    var k := Find(db.notes, id);
    FoundFirst(db.notes, id);
    if k < |db.notes| {
      AllowIsPermitted(auth, db.notes[k].view, db.notes[k]);
    }
  }

  ghost predicate IsFirst(notes: seq<Note>, id: string, k: int)
    requires 0 <= k < |notes|
  {
    notes[k].id == id && forall j :: 0 <= j < k ==> notes[j].id != id
  }

  lemma {:induction false} FoundFirst(notes: seq<Note>, id: string)
    ensures forall k :: 0 <= k < |notes| ==> (IsFirst(notes, id, k) <==> k == Find(notes, id))
    decreases |notes|
  {
    if notes != [] {
      FoundFirst(notes[1..], id);
      forall k | 0 <= k < |notes| ensures IsFirst(notes, id, k) <==> k == Find(notes, id) {
        if k > 0 && notes[0].id != id {
          assert IsFirst(notes, id, k) <==> IsFirst(notes[1..], id, k - 1) by {
            assert forall j :: 0 <= j < k - 1 ==> notes[1..][j] == notes[j + 1];
            assert forall j :: 1 <= j < k ==> notes[j] == notes[1..][j - 1];
          }
        }
      }
    }
  }

  // ---------------------------------------------------------------------------------------------
  // The writers
  // ---------------------------------------------------------------------------------------------

  lemma {:induction false} ReplacedAt(notes: seq<Note>, n: Note, k: nat)
    requires k < |notes| && notes[k].key == n.key && forall j :: 0 <= j < k ==> notes[j].key != n.key
    ensures Replace(notes, n) == notes[k := n.(id := notes[k].id)]
    decreases k
  {
    if k > 0 {
      ReplacedAt(notes[1..], n, k - 1);
      assert notes == [notes[0]] + notes[1..];
    }
  }

  /** The first notification with the key is overwritten, active and under its old id; else a new one comes first. */
  lemma UpsertedAt(db: Db, n: Note, k: nat)
    requires k <= |db.notes| && forall j :: 0 <= j < k ==> db.notes[j].key != n.key
    requires k < |db.notes| ==> db.notes[k].key == n.key
    ensures Upsert(db, n).viewed == db.viewed
    ensures Upsert(db, n).notes ==
      if k < |db.notes| then db.notes[k := n.(id := db.notes[k].id, active := true)]
      else [n.(active := true)] + db.notes
  {
    if k < |db.notes| {
      ReplacedAt(db.notes, n.(active := true), k);
    }
  }

  /** Resolving ends exactly the notifications of the resource with one of the keys. */
  lemma ResolvedAt(db: Db, resourceType: string, resourceId: string, keys: seq<string>, k: nat)
    requires k < |db.notes|
    ensures var n, db' := db.notes[k], Resolve(db, resourceType, resourceId, keys);
      && db'.viewed == db.viewed && |db'.notes| == |db.notes|
      && var ends := n.key in keys && (n.resourceType, n.resourceId) == (resourceType, resourceId);
         db'.notes[k] == if ends then n.(active := false) else n
  {
  }
}
