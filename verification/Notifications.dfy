/**
 Actor notifications: what a listing contains, the writers that change it, and the service that puts a versioned
 cache in front of the listing. `Listing` is the reference: the list computed straight from the database.
 */
module Notifications {
  import opened Options
  import opened Sequences

  datatype Permission = Permission(resources: seq<string>, verbs: seq<string>, resourceIds: seq<string>)

  datatype Note = Note(id: string, key: string, active: bool, ns: string, resourceType: string, resourceId: string,
                       view: seq<Permission>, action: seq<Permission>)

  /** (namespace, resource, verb, resource id) tuples the request may use. */
  type Grant = (string, string, string, string)

  /** The authenticated actor and everything its permission decisions depend on. */
  datatype Auth = Auth(actor: string, grants: set<Grant>)

  datatype Opts = Opts(activeOnly: bool, resourceType: string, resourceId: string, includeViewed: bool, limit: nat)

  /** `notes` is newest first; `viewed` holds (notification id, actor) pairs. */
  datatype Db = Db(notes: seq<Note>, viewed: set<(string, string)>)

  datatype Item = Item(note: Note, viewed: bool, canAction: bool)

  // ---------------------------------------------------------------------------------------------
  // Permissions
  // ---------------------------------------------------------------------------------------------

  function OrDefault(given: seq<string>, fallback: string): seq<string> {
    if given == [] then [fallback] else given
  }

  predicate Grants(auth: Auth, p: Permission, n: Note) {
    exists r, v, i ::
      && r in OrDefault(p.resources, n.resourceType) && v in OrDefault(p.verbs, "get")
      && i in OrDefault(p.resourceIds, n.resourceId) && (n.ns, r, v, i) in auth.grants
  }

  predicate Allow(auth: Auth, ps: seq<Permission>, n: Note) {
    exists p :: p in ps && Grants(auth, p, n)
  }

  method PermissionGrants(auth: Auth, p: Permission, n: Note) returns (b: bool)
    ensures b == Grants(auth, p, n)
  {
    var resources := OrDefault(p.resources, n.resourceType);
    var verbs := OrDefault(p.verbs, "get");
    var ids := OrDefault(p.resourceIds, n.resourceId);
    for a := 0 to |resources|
      invariant forall r, v, i :: r in resources[..a] && v in verbs && i in ids ==> (n.ns, r, v, i) !in auth.grants
    {
      for b := 0 to |verbs|
        invariant forall v, i :: v in verbs[..b] && i in ids ==> (n.ns, resources[a], v, i) !in auth.grants
      {
        for c := 0 to |ids|
          invariant forall i :: i in ids[..c] ==> (n.ns, resources[a], verbs[b], i) !in auth.grants
        {
          if (n.ns, resources[a], verbs[b], ids[c]) in auth.grants { return true; }
        }
        assert verbs[..b + 1] == verbs[..b] + [verbs[b]] && ids[..|ids|] == ids;
      }
      assert resources[..a + 1] == resources[..a] + [resources[a]] && verbs[..|verbs|] == verbs;
    }
    assert resources[..|resources|] == resources;
    return false;
  }

  method PermissionsAllow(auth: Auth, ps: seq<Permission>, n: Note) returns (b: bool)
    ensures b == Allow(auth, ps, n)
  {
    for k := 0 to |ps|
      invariant forall j :: 0 <= j < k ==> !Grants(auth, ps[j], n)
    {
      var g := PermissionGrants(auth, ps[k], n);
      if g { return true; }
    }
    return false;
  }

  // ---------------------------------------------------------------------------------------------
  // The two reads and the rendered list
  // ---------------------------------------------------------------------------------------------

  predicate Matches(db: Db, actor: string, opts: Opts, n: Note) {
    && (opts.activeOnly ==> n.active)
    && (opts.resourceType != "" ==> n.resourceType == opts.resourceType)
    && (opts.resourceId != "" ==> n.resourceId == opts.resourceId)
    && (!opts.includeViewed ==> (n.id, actor) !in db.viewed)
  }

  function Select(db: Db, actor: string, opts: Opts, notes: seq<Note>): seq<Note> {
    if notes == [] then []
    else
      var rest := Select(db, actor, opts, notes[1..]);
      if Matches(db, actor, opts, notes[0]) then [notes[0]] + rest else rest
  }

  /** The first read: matching notifications, newest first, at most `limit` of them (100 when unset). */
  function ListNotes(db: Db, actor: string, opts: Opts): seq<Note> {
    var limit := if opts.limit == 0 then 100 else opts.limit;
    var all := Select(db, actor, opts, db.notes);
    if |all| <= limit then all else all[..limit]
  }

  /** The second read: which of these notifications the actor has viewed. */
  function ViewedIds(db: Db, actor: string, notes: seq<Note>): set<string> {
    set n | n in notes && (n.id, actor) in db.viewed :: n.id
  }

  function Render(auth: Auth, notes: seq<Note>, viewed: set<string>): seq<Item> {
    if notes == [] then []
    else
      var rest := Render(auth, notes[1..], viewed);
      if Allow(auth, notes[0].view, notes[0])
      then [Item(notes[0], notes[0].id in viewed, Allow(auth, notes[0].action, notes[0]))] + rest
      else rest
  }

  /** The list as computed from the database, the two reads possibly seeing different commits. */
  function Listing(auth: Auth, opts: Opts, listed: Db, viewed: Db): seq<Item> {
    var notes := ListNotes(listed, auth.actor, opts);
    Render(auth, notes, ViewedIds(viewed, auth.actor, notes))
  }

  method BuildList(auth: Auth, notes: seq<Note>, viewed: set<string>) returns (items: seq<Item>)
    ensures items == Render(auth, notes, viewed)
  {
    items := [];
    for k := 0 to |notes|
      invariant Render(auth, notes, viewed) == items + Render(auth, notes[k..], viewed)
    {
      var visible := PermissionsAllow(auth, notes[k].view, notes[k]);
      if visible {
        var canAction := PermissionsAllow(auth, notes[k].action, notes[k]);
        items := items + [Item(notes[k], notes[k].id in viewed, canAction)];
      }
      assert notes[k..][1..] == notes[k + 1..];
    }
  }

  /** Only notifications the actor may view are listed, each flagged from the second read. */
  lemma {:induction false} RenderFaithful(auth: Auth, notes: seq<Note>, viewed: set<string>)
    ensures forall i :: i in Render(auth, notes, viewed) <==>
              i.note in notes && Allow(auth, i.note.view, i.note)
              && i.viewed == (i.note.id in viewed) && i.canAction == Allow(auth, i.note.action, i.note)
    decreases |notes|
  {
    if notes != [] {
      RenderFaithful(auth, notes[1..], viewed);
      assert notes == [notes[0]] + notes[1..];
    }
  }

  // ---------------------------------------------------------------------------------------------
  // Writers
  // ---------------------------------------------------------------------------------------------

  predicate NotificationId(id: string) {
    "ntf_" <= id
  }

  /** The first occurrences, in order. */
  function FirstOccurrences(ids: seq<string>): (out: seq<string>)
    ensures NoDuplicates(out) && forall id :: id in out <==> id in ids
  {
    if ids == [] then [] else
      var before, last := ids[..|ids| - 1], ids[|ids| - 1];
      assert ids == before + [last];
      if last in before then FirstOccurrences(before) else FirstOccurrences(before) + [last]
  }

  /** Every id valid, each kept once and in its first place; None when the request is malformed. */
  method NormalizeIds(ids: seq<string>) returns (r: Option<seq<string>>)
    ensures r.Some? <==> ids != [] && forall id :: id in ids ==> NotificationId(id)
    ensures r.Some? ==> r.value == FirstOccurrences(ids)
  {
    if |ids| == 0 { return None; }
    var out: seq<string> := [];
    var seen: set<string> := {};
    for k := 0 to |ids|
      invariant out == FirstOccurrences(ids[..k]) && forall id :: id in seen <==> id in ids[..k]
      invariant forall id :: id in ids[..k] ==> NotificationId(id)
    {
      assert ids[..k + 1] == ids[..k] + [ids[k]] && ids[..k + 1][..k] == ids[..k];
      if !NotificationId(ids[k]) { return None; }
      if ids[k] in seen { continue; }
      seen := seen + {ids[k]};
      out := out + [ids[k]];
    }
    assert ids[..|ids|] == ids;
    return Some(out);
  }

  function Replace(notes: seq<Note>, n: Note): seq<Note> {
    if notes == [] then []
    else if notes[0].key == n.key then [n.(id := notes[0].id)] + notes[1..]
    else [notes[0]] + Replace(notes[1..], n)
  }

  predicate HasKey(notes: seq<Note>, key: string) {
    exists n :: n in notes && n.key == key
  }

  /** A write: an existing notification with the key is overwritten in place, else a new one is added; it is active. */
  function Upsert(db: Db, n: Note): Db {
    var n := n.(active := true);
    db.(notes := if HasKey(db.notes, n.key) then Replace(db.notes, n) else [n] + db.notes)
  }

  function Resolve(db: Db, resourceType: string, resourceId: string, keys: seq<string>): Db {
    db.(notes := seq(|db.notes|, k requires 0 <= k < |db.notes| =>
      var n := db.notes[k];
      if n.resourceType == resourceType && n.resourceId == resourceId && n.key in keys then n.(active := false) else n))
  }

  function MarkViewed(db: Db, actor: string, ids: seq<string>): Db {
    db.(viewed := db.viewed + set id | id in ids :: (id, actor))
  }

  /** Marking is seen by the next listing: marked entries carry the flag, or are left out when viewed ones are. */
  lemma MarkThenList(db: Db, auth: Auth, ids: seq<string>, opts: Opts, i: Item)
    requires var db' := MarkViewed(db, auth.actor, ids); i in Listing(auth, opts, db', db')
    requires i.note.id in ids
    ensures i.viewed && opts.includeViewed
  {
    var db' := MarkViewed(db, auth.actor, ids);
    var notes := ListNotes(db', auth.actor, opts);
    RenderFaithful(auth, notes, ViewedIds(db', auth.actor, notes));
    SelectMatches(db', auth.actor, opts, db'.notes, i.note);
  }

  lemma {:induction false} SelectMatches(db: Db, actor: string, opts: Opts, notes: seq<Note>, n: Note)
    ensures n in Select(db, actor, opts, notes) <==> n in notes && Matches(db, actor, opts, n)
    decreases |notes|
  {
    if notes != [] {
      SelectMatches(db, actor, opts, notes[1..], n);
      assert notes == [notes[0]] + notes[1..];
    }
  }

  // ---------------------------------------------------------------------------------------------
  // The service with its cache, one call at a time
  // ---------------------------------------------------------------------------------------------

  /** A cache key; the fingerprint hashes of the source are taken to be injective. */
  datatype Key = Key(auth: Auth, version: nat, opts: Opts)

  /** Which Redis commands and database accesses of one call fail. */
  datatype Faults = Faults(version: bool, read: bool, write: bool, bump: bool, dbRead: bool, dbWrite: bool)

  class Service {
    var db: Db
    var version: nat
    var cache: map<Key, seq<Item>>

    /** Every entry under the current version is the list the database would give. */
    ghost predicate Coherent()
      reads this
    {
      forall k :: k in cache ==>
        k.version <= version && (k.version == version ==> cache[k] == Listing(k.auth, k.opts, db, db))
    }

    constructor (db: Db)
      ensures this.db == db && Coherent()
    {
      this.db, version, cache := db, 0, map[];
    }

    method ListFromDb(auth: Auth, opts: Opts) returns (items: seq<Item>)
      ensures items == Listing(auth, opts, db, db)
    {
      var notes := ListNotes(db, auth.actor, opts);
      items := BuildList(auth, notes, ViewedIds(db, auth.actor, notes));
    }

    predicate Hit(auth: Auth, opts: Opts, x: Faults)
      reads this
    {
      !x.version && !x.read && Key(auth, version, opts) in cache
    }

    /**
     On a hit, on a miss and with Redis failing, the answer is the list the database gives. It is refused exactly to
     an unauthenticated caller and when a database read that is needed fails; then the cache is as before.
     */
    method ListActorNotifications(who: Option<Auth>, opts: Opts, x: Faults) returns (items: Option<seq<Item>>)
      requires Coherent()
      modifies this`cache
      ensures Coherent()
      ensures items.Some? ==> who.Some? && items.value == Listing(who.value, opts, db, db)
      ensures items.None? <==> who.None? || (x.dbRead && !old(Hit(who.value, opts, x)))
      ensures items.None? ==> cache == old(cache)
      ensures items.Some? ==> old(cache.Keys) <= cache.Keys <= old(cache.Keys) + {Key(who.value, version, opts)}
    {
      if who.None? { return None; }
      var auth := who.value;
      var key := Key(auth, version, opts);
      if !x.version && !x.read && key in cache { return Some(cache[key]); }
      if x.dbRead { return None; }
      var list := ListFromDb(auth, opts);
      if !x.version && !x.write { cache := cache[key := list]; }
      return Some(list);
    }

    /** Entries of older versions are never read again, so a successful bump makes any database change safe. */
    method Bump(x: Faults)
      requires forall k :: k in cache ==> k.version <= version
      modifies this`version
      ensures version == old(version) + if x.bump then 0 else 1
      ensures !x.bump ==> Coherent()
    {
      if !x.bump { version := version + 1; }
    }

    /** A failed write changes nothing; otherwise the bump keeps the cache coherent. */
    method UpsertNotification(n: Note, x: Faults) returns (ok: bool)
      requires Coherent()
      modifies this
      ensures ok == !x.dbWrite
      ensures db == (if ok then Upsert(old(db), n) else old(db)) && cache == old(cache)
      ensures !x.bump || !ok ==> Coherent()
    {
      if x.dbWrite { return false; }
      db := Upsert(db, n);
      Bump(x);
      return true;
    }

    method ResolveNotifications(resourceType: string, resourceId: string, keys: seq<string>, x: Faults) returns (ok: bool)
      requires Coherent()
      modifies this
      ensures ok == (keys == [] || (resourceType != "" && resourceId != "" && !x.dbWrite))
      ensures db == if keys == [] || !ok then old(db) else Resolve(old(db), resourceType, resourceId, keys)
      ensures cache == old(cache)
      ensures !x.bump || keys == [] || !ok ==> Coherent()
    {
      if |keys| == 0 { return true; }
      if resourceType == "" || resourceId == "" || x.dbWrite { return false; }
      db := Resolve(db, resourceType, resourceId, keys);
      Bump(x);
      return true;
    }

    method MarkNotificationsViewed(who: Option<Auth>, ids: seq<string>, x: Faults) returns (ok: bool)
      requires Coherent()
      modifies this
      ensures ok <==> who.Some? && ids != [] && !x.dbRead && !x.dbWrite
                      && forall id :: id in ids ==> NotificationId(id) && ViewableFirst(old(db), who.value, id)
      ensures db == (if ok then MarkViewed(old(db), who.value.actor, ids) else old(db)) && cache == old(cache)
      ensures !x.bump || !ok ==> Coherent()
    {
      if who.None? { return false; }
      var auth := who.value;
      var normalized := NormalizeIds(ids);
      if normalized.None? { return false; }
      var unique := normalized.value;
      for k := 0 to |unique|
        invariant db == old(db) && cache == old(cache) && version == old(version) && (k > 0 ==> !x.dbRead)
        invariant forall id :: id in unique[..k] ==> ViewableFirst(db, auth, id)
      {
        assert unique[k] in unique && unique[..k + 1] == unique[..k] + [unique[k]];
        if x.dbRead { return false; }
        var at := Find(db.notes, unique[k]);
        if at == |db.notes| { return false; }
        var visible := PermissionsAllow(auth, db.notes[at].view, db.notes[at]);
        if !visible { return false; }
      }
      assert unique[..|unique|] == unique && ids[0] in unique;
      if x.dbWrite { return false; }
      assert (set id | id in unique :: (id, auth.actor)) == (set id | id in ids :: (id, auth.actor));
      db := MarkViewed(db, auth.actor, unique);
      Bump(x);
      return true;
    }
  }

  /** Position of the notification with this id, or the number of notifications. */
  function Find(notes: seq<Note>, id: string): (k: nat)
    ensures k <= |notes| && (k < |notes| ==> notes[k].id == id)
    ensures k == |notes| <==> forall n :: n in notes ==> n.id != id
  {
    if notes == [] then 0 else if notes[0].id == id then 0 else 1 + Find(notes[1..], id)
  }

  /** The notification with this id exists and the actor may view it. */
  predicate ViewableFirst(db: Db, auth: Auth, id: string) {
    var k := Find(db.notes, id);
    k < |db.notes| && Allow(auth, db.notes[k].view, db.notes[k])
  }
}
