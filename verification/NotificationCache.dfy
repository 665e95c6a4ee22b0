/**
 The notification list cache under concurrency. Writers commit and then bump the version, as two steps; a listing
 reads the version, looks the entry up, reads the notifications, reads the viewed state and stores the result, as
 separate steps. Any interleaving is allowed, entries may expire at any time, and every Redis command may fail.
 `history` holds every committed database state, so a commit is known by its index there.
 */
module NotificationCache {
  import opened Options
  import opened Notifications

  /** A list together with the commits its two database reads saw. */
  datatype Snapshot = Snapshot(items: seq<Item>, listedAt: nat, viewedAt: nat)

  /** `version` is None when the version could not be read and the cache is bypassed. */
  datatype Progress =
    | Keyed(known: nat)
    | Missed(version: Option<nat>)
    | Listed(version: Option<nat>, notes: seq<Note>, listedAt: nat)
    | Computed(version: Option<nat>, snapshot: Snapshot)
    | Returned(snapshot: Snapshot)

  /** `floor` is the latest bumped commit at the moment the version was read. */
  datatype Reader = Reader(auth: Auth, opts: Opts, floor: nat, progress: Progress)

  datatype Writer = Committed(at: nat) | Bumped(at: nat) | BumpLost(at: nat)

  /** `floors[v]` is the latest commit whose writer had bumped when the version became v. */
  datatype System = System(history: seq<Db>, floors: seq<nat>, cache: map<Key, Snapshot>,
                           readers: map<nat, Reader>, writers: map<nat, Writer>)

  datatype Action =
    | Commit(w: nat, db: Db)
    | Bump(w: nat)
    | LoseBump(w: nat)
    | Start(r: nat, auth: Auth, opts: Opts, versionRead: bool)
    | Lookup(r: nat, entryRead: bool)
    | ReadList(r: nat)
    | ReadViewed(r: nat)
    | Store(r: nat, written: bool)
    | Expire(key: Key)

  predicate Initial(s: System) {
    |s.history| == 1 && s.floors == [0] && s.cache == map[] && s.readers == map[] && s.writers == map[]
  }

  predicate Enabled(s: System, a: Action) {
    match a
    case Commit(w, _) => w !in s.writers
    case Bump(w) => w in s.writers && s.writers[w].Committed?
    case LoseBump(w) => w in s.writers && s.writers[w].Committed?
    case Start(r, _, _, _) => r !in s.readers
    case Lookup(r, _) => r in s.readers && s.readers[r].progress.Keyed?
    case ReadList(r) => r in s.readers && s.readers[r].progress.Missed?
    case ReadViewed(r) => r in s.readers && s.readers[r].progress.Listed?
    case Store(r, _) => r in s.readers && s.readers[r].progress.Computed?
    case Expire(_) => true
  }

  function Last<T>(xs: seq<T>): T
    requires xs != []
  {
    xs[|xs| - 1]
  }

  function Proceed(s: System, r: nat, p: Progress): System
    requires r in s.readers
  {
    s.(readers := s.readers[r := s.readers[r].(progress := p)])
  }

  function Do(s: System, a: Action): System
    requires s.history != [] && s.floors != [] && Enabled(s, a)
  {
    var now := |s.history| - 1;
    match a
    case Commit(w, db) => s.(history := s.history + [db], writers := s.writers[w := Committed(|s.history|)])
    case Bump(w) =>
      var at := s.writers[w].at;
      var floor := if at > Last(s.floors) then at else Last(s.floors);
      s.(floors := s.floors + [floor], writers := s.writers[w := Bumped(at)])
    case LoseBump(w) => s.(writers := s.writers[w := BumpLost(s.writers[w].at)])
    case Start(r, auth, opts, versionRead) =>
      var progress := if versionRead then Keyed(|s.floors| - 1) else Missed(None);
      s.(readers := s.readers[r := Reader(auth, opts, Last(s.floors), progress)])
    case Lookup(r, entryRead) =>
      var reader := s.readers[r];
      var key := Key(reader.auth, reader.progress.known, reader.opts);
      Proceed(s, r, if entryRead && key in s.cache then Returned(s.cache[key]) else Missed(Some(reader.progress.known)))
    case ReadList(r) =>
      var reader := s.readers[r];
      Proceed(s, r, Listed(reader.progress.version, ListNotes(s.history[now], reader.auth.actor, reader.opts), now))
    case ReadViewed(r) =>
      var reader := s.readers[r];
      var notes := reader.progress.notes;
      var items := Render(reader.auth, notes, ViewedIds(s.history[now], reader.auth.actor, notes));
      Proceed(s, r, Computed(reader.progress.version, Snapshot(items, reader.progress.listedAt, now)))
    case Store(r, written) =>
      var reader := s.readers[r];
      var s' := Proceed(s, r, Returned(reader.progress.snapshot));
      if written && reader.progress.version.Some?
      then s'.(cache := s.cache[Key(reader.auth, reader.progress.version.value, reader.opts) := reader.progress.snapshot])
      else s'
    case Expire(key) => s.(cache := s.cache - {key})
  }

  // ---------------------------------------------------------------------------------------------
  // Every listing comes to its answer
  // ---------------------------------------------------------------------------------------------

  /** The statements a reader has still to make. */
  function Left(p: Progress): nat {
    match p
    case Keyed(_) => 4
    case Missed(_) => 3
    case Listed(_, _, _) => 2
    case Computed(_, _) => 1
    case Returned(_) => 0
  }

  /** The action is a statement of this reader. */
  predicate Of(a: Action, r: nat) {
    a == ReadList(r) || a == ReadViewed(r) || (a.Lookup? && a.r == r) || (a.Store? && a.r == r)
  }

  /** A reader can always go on, each statement brings its answer nearer, and nobody else's changes where it is. */
  lemma ReaderProgresses(s: System, a: Action, r: nat)
    requires s.history != [] && s.floors != [] && Enabled(s, a) && r in s.readers
    ensures r in Do(s, a).readers
    ensures var before, after := s.readers[r], Do(s, a).readers[r];
      if Of(a, r) then Left(after.progress) < Left(before.progress) && after == before.(progress := after.progress)
      else after == before
    ensures !s.readers[r].progress.Returned? ==> exists b :: Of(b, r) && Enabled(s, b)
  {
    assert Of(Lookup(r, true), r) && Of(ReadList(r), r) && Of(ReadViewed(r), r) && Of(Store(r, true), r);
  }

  /** An expired entry is gone, and only that one. */
  lemma ExpiryRemoves(s: System, key: Key)
    requires s.history != [] && s.floors != []
    ensures var s' := Do(s, Expire(key));
      && s'.cache.Keys == s.cache.Keys - {key} && s' == s.(cache := s'.cache)
      && forall k :: k in s'.cache ==> s'.cache[k] == s.cache[k]
  {
  }

  /** A writer bumps once or loses its bump, and is then done. */
  lemma WriterEnds(s: System, a: Action)
    requires s.history != [] && s.floors != [] && (a.Bump? || a.LoseBump?) && Enabled(s, a)
    ensures var w := Do(s, a).writers[a.w];
      w == (if a.Bump? then Bumped(s.writers[a.w].at) else BumpLost(s.writers[a.w].at))
    ensures !Enabled(Do(s, a), Bump(a.w)) && !Enabled(Do(s, a), LoseBump(a.w))
  {
  }

  // ---------------------------------------------------------------------------------------------
  // The invariant
  // ---------------------------------------------------------------------------------------------

  /** The list is what the database gave at two commits, neither before the floor nor out of order. */
  ghost predicate Fresh(history: seq<Db>, auth: Auth, opts: Opts, floor: nat, s: Snapshot) {
    && floor <= s.listedAt <= s.viewedAt < |history|
    && s.items == Listing(auth, opts, history[s.listedAt], history[s.viewedAt])
  }

  ghost predicate KeyedBy(floors: seq<nat>, version: nat, floor: nat) {
    version < |floors| && floors[version] == floor
  }

  ghost predicate ReaderOk(history: seq<Db>, floors: seq<nat>, r: Reader) {
    && r.floor < |history|
    && match r.progress
       case Keyed(v) => KeyedBy(floors, v, r.floor)
       case Missed(v) => v.Some? ==> KeyedBy(floors, v.value, r.floor)
       case Listed(v, notes, at) =>
         && (v.Some? ==> KeyedBy(floors, v.value, r.floor))
         && r.floor <= at < |history| && notes == ListNotes(history[at], r.auth.actor, r.opts)
       case Computed(v, snapshot) =>
         && (v.Some? ==> KeyedBy(floors, v.value, r.floor))
         && Fresh(history, r.auth, r.opts, r.floor, snapshot)
       case Returned(snapshot) => Fresh(history, r.auth, r.opts, r.floor, snapshot)
  }

  ghost predicate EntryOk(history: seq<Db>, floors: seq<nat>, key: Key, s: Snapshot) {
    key.version < |floors| && Fresh(history, key.auth, key.opts, floors[key.version], s)
  }

  ghost predicate Invariant(s: System) {
    && s.history != [] && s.floors != []
    && (forall v :: 0 <= v < |s.floors| ==> s.floors[v] < |s.history|)
    && (forall w :: w in s.writers ==> s.writers[w].at < |s.history|)
    && (forall w :: w in s.writers && s.writers[w].Bumped? ==> s.writers[w].at <= Last(s.floors))
    && (forall k :: k in s.cache ==> EntryOk(s.history, s.floors, k, s.cache[k]))
    && (forall r :: r in s.readers ==> ReaderOk(s.history, s.floors, s.readers[r]))
  }

  /** Histories and floors only grow, and then nothing already established is lost. */
  lemma GrowthKeeps(s: System, history: seq<Db>, floors: seq<nat>)
    requires Invariant(s) && s.history <= history && s.floors <= floors
    ensures forall k :: k in s.cache ==> EntryOk(history, floors, k, s.cache[k])
    ensures forall r :: r in s.readers ==> ReaderOk(history, floors, s.readers[r])
  {
    forall r | r in s.readers ensures ReaderOk(history, floors, s.readers[r]) {
      assert ReaderOk(s.history, s.floors, s.readers[r]);
    }
  }

  lemma ProceedKeeps(s: System, r: nat, p: Progress)
    requires Invariant(s) && r in s.readers
    requires ReaderOk(s.history, s.floors, s.readers[r].(progress := p))
    ensures Invariant(Proceed(s, r, p))
  {
  }

  lemma LookupKeeps(s: System, a: Action)
    requires Invariant(s) && Enabled(s, a) && a.Lookup?
    ensures Invariant(Do(s, a))
  {
    assert ReaderOk(s.history, s.floors, s.readers[a.r]);
    ProceedKeeps(s, a.r, Do(s, a).readers[a.r].progress);
  }

  lemma ReadKeeps(s: System, a: Action)
    requires Invariant(s) && Enabled(s, a) && (a.ReadList? || a.ReadViewed?)
    ensures Invariant(Do(s, a))
  {
    assert ReaderOk(s.history, s.floors, s.readers[a.r]);
    ProceedKeeps(s, a.r, Do(s, a).readers[a.r].progress);
  }

  lemma StoreKeeps(s: System, a: Action)
    requires Invariant(s) && Enabled(s, a) && a.Store?
    ensures Invariant(Do(s, a))
  {
    assert ReaderOk(s.history, s.floors, s.readers[a.r]);
    ProceedKeeps(s, a.r, Do(s, a).readers[a.r].progress);
  }

  lemma WriterStepKeeps(s: System, a: Action)
    requires Invariant(s) && Enabled(s, a) && (a.Commit? || a.Bump? || a.LoseBump?)
    ensures Invariant(Do(s, a))
  {
    match a
    case Commit(_, db) => GrowthKeeps(s, s.history + [db], s.floors);
    case Bump(_) => GrowthKeeps(s, s.history, Do(s, a).floors);
    case LoseBump(_) =>
  }

  lemma StartKeeps(s: System, a: Action)
    requires Invariant(s) && Enabled(s, a) && (a.Start? || a.Expire?)
    ensures Invariant(Do(s, a))
  {
  }

  lemma StepKeepsInvariant(s: System, a: Action)
    requires Invariant(s) && Enabled(s, a)
    ensures Invariant(Do(s, a))
  {
    match a
    case Lookup(_, _) => LookupKeeps(s, a);
    case ReadList(_) => ReadKeeps(s, a);
    case ReadViewed(_) => ReadKeeps(s, a);
    case Store(_, _) => StoreKeeps(s, a);
    case Start(_, _, _, _) => StartKeeps(s, a);
    case Expire(_) => StartKeeps(s, a);
    case _ => WriterStepKeeps(s, a);
  }

  // ---------------------------------------------------------------------------------------------
  // Runs
  // ---------------------------------------------------------------------------------------------

  ghost predicate StepAt(states: seq<System>, actions: seq<Action>, k: nat)
    requires |states| == |actions| + 1 && k < |actions|
  {
    && states[k].history != [] && states[k].floors != [] && Enabled(states[k], actions[k])
    && states[k + 1] == Do(states[k], actions[k])
  }

  ghost predicate IsRun(states: seq<System>, actions: seq<Action>) {
    && |states| == |actions| + 1 && Initial(states[0])
    && forall k {:trigger StepAt(states, actions, k)} :: 0 <= k < |actions| ==> StepAt(states, actions, k)
  }

  lemma {:induction false} RunKeepsInvariant(states: seq<System>, actions: seq<Action>, n: nat)
    requires IsRun(states, actions) && n <= |actions|
    ensures Invariant(states[n])
  {
    if n > 0 {
      RunKeepsInvariant(states, actions, n - 1);
      assert StepAt(states, actions, n - 1);
      StepKeepsInvariant(states[n - 1], actions[n - 1]);
    }
  }

  /** What later states keep of an earlier one. */
  ghost predicate Later(s: System, t: System) {
    && s.history != [] && s.floors != [] && t.history != [] && t.floors != []
    && s.history <= t.history && Last(s.floors) <= Last(t.floors)
    && (forall r :: r in s.readers ==> r in t.readers && t.readers[r].(progress := s.readers[r].progress) == s.readers[r])
    && (forall w :: w in s.writers ==> w in t.writers && t.writers[w].at == s.writers[w].at)
  }

  lemma StepGoesLater(s: System, a: Action)
    requires s.history != [] && s.floors != [] && Enabled(s, a)
    ensures Later(s, Do(s, a))
  {
  }

  lemma {:induction false} RunGoesLater(states: seq<System>, actions: seq<Action>, m: nat, n: nat)
    requires IsRun(states, actions) && m <= n <= |actions|
    ensures Later(states[m], states[n])
    decreases n - m
  {
    if m == n {
      RunKeepsInvariant(states, actions, m);
    } else {
      RunGoesLater(states, actions, m, n - 1);
      assert StepAt(states, actions, n - 1);
      StepGoesLater(states[n - 1], actions[n - 1]);
    }
  }

  /** A bumped writer's commit is a floor for every version read later in the run. */
  lemma BumpRaisesFloor(states: seq<System>, actions: seq<Action>, bump: nat, start: nat)
    requires IsRun(states, actions) && bump < start < |actions|
    requires actions[bump].Bump?
    ensures var w := actions[bump].w;
            && states[start].floors != [] && w in states[start].writers
            && states[start].writers[w].at <= Last(states[start].floors)
  {
    assert StepAt(states, actions, bump);
    RunKeepsInvariant(states, actions, bump + 1);
    RunGoesLater(states, actions, bump + 1, start);
  }

  /**
   A listing that reads the version after a writer's bump never misses that write, on a hit or on a miss: its
   list and its viewed flags are those of commits no older than the write.
   */
  lemma BumpedWritesAreSeen(states: seq<System>, actions: seq<Action>, bump: nat, start: nat)
    requires IsRun(states, actions) && bump < start < |actions|
    requires actions[bump].Bump? && actions[start].Start?
    requires var end := states[|actions|]; actions[start].r in end.readers && end.readers[actions[start].r].progress.Returned?
    ensures var end, w, r := states[|actions|], actions[bump].w, actions[start].r;
            && w in end.writers
            && Fresh(end.history, actions[start].auth, actions[start].opts, end.writers[w].at, end.readers[r].progress.snapshot)
  {
    var n, r := |actions|, actions[start].r;
    BumpRaisesFloor(states, actions, bump, start);
    RunGoesLater(states, actions, start, n);
    assert StepAt(states, actions, start);
    RunGoesLater(states, actions, start + 1, n);
    RunKeepsInvariant(states, actions, n);
    assert ReaderOk(states[n].history, states[n].floors, states[n].readers[r]);
  }

  // ---------------------------------------------------------------------------------------------
  // Why the bump has to succeed
  // ---------------------------------------------------------------------------------------------

  lemma Extend(states: seq<System>, actions: seq<Action>, a: Action, s: System)
    requires IsRun(states, actions) && Last(states).history != [] && Last(states).floors != []
    requires Enabled(Last(states), a) && s == Do(Last(states), a)
    ensures IsRun(states + [s], actions + [a])
  {
    forall k | 0 <= k <= |actions| ensures StepAt(states + [s], actions + [a], k) {
      assert k < |actions| ==> StepAt(states, actions, k);
    }
  }

  /** One reader leaves the list of the database under version 0. */
  lemma FillCache(auth: Auth, opts: Opts, before: Db) returns (states: seq<System>, actions: seq<Action>)
    ensures IsRun(states, actions) && |actions| == 5 && states[0].history == [before]
    ensures var snapshot := Snapshot(Listing(auth, opts, before, before), 0, 0);
            states[5] == System([before], [0], map[Key(auth, 0, opts) := snapshot],
                                map[0 := Reader(auth, opts, 0, Returned(snapshot))], map[])
  {
    var notes := ListNotes(before, auth.actor, opts);
    var snapshot := Snapshot(Listing(auth, opts, before, before), 0, 0);
    var s0 := System([before], [0], map[], map[], map[]);
    states, actions := [s0], [];
    var progress := [Keyed(0), Missed(Some(0)), Listed(Some(0), notes, 0), Computed(Some(0), snapshot), Returned(snapshot)];
    var todo := [Start(0, auth, opts, true), Lookup(0, true), ReadList(0), ReadViewed(0), Store(0, true)];
    for k := 0 to 5
      invariant IsRun(states, actions) && |actions| == k && |states| == k + 1 && states[0] == s0
      invariant 0 < k < 5 ==> states[k] == s0.(readers := map[0 := Reader(auth, opts, 0, progress[k - 1])])
      invariant k == 5 ==> states[k] == s0.(readers := map[0 := Reader(auth, opts, 0, Returned(snapshot))],
                                            cache := map[Key(auth, 0, opts) := snapshot])
    {
      var s := Do(states[k], todo[k]);
      Extend(states, actions, todo[k], s);
      states, actions := states + [s], actions + [todo[k]];
    }
  }

  /** A commit of `after` whose bump is lost, and then reader r starts; nothing else is committed, and r has returned. */
  ghost predicate LostRun(states: seq<System>, actions: seq<Action>, auth: Auth, opts: Opts, before: Db, after: Db,
                          lost: nat, start: nat)
  {
    && IsRun(states, actions) && lost < start < |actions|
    && states[0].history == [before] && states[|actions|].history == [before, after]
    && actions[lost].LoseBump? && actions[start].Start? && actions[start].auth == auth && actions[start].opts == opts
    && var end := states[|actions|]; actions[start].r in end.readers && end.readers[actions[start].r].progress.Returned?
  }

  /** The reader of such a run gets the list of the new state. */
  ghost predicate SeesNew(states: seq<System>, actions: seq<Action>, auth: Auth, opts: Opts, after: Db, start: nat)
    requires start < |actions| && |states| == |actions| + 1 && actions[start].Start?
    requires var end := states[|actions|]; actions[start].r in end.readers && end.readers[actions[start].r].progress.Returned?
  {
    states[|actions|].readers[actions[start].r].progress.snapshot.items == Listing(auth, opts, after, after)
  }

  /** A reader fills the cache, the writer commits and loses its bump, and the next reader still gets the old list. */
  lemma LostBumpServesStale(auth: Auth, opts: Opts, before: Db, after: Db) returns (states: seq<System>, actions: seq<Action>)
    ensures LostRun(states, actions, auth, opts, before, after, 6, 7)
    ensures states[|actions|].readers[actions[7].r].progress.snapshot.items == Listing(auth, opts, before, before)
  {
    states, actions := FillCache(auth, opts, before);
    var s6 := Do(states[5], Commit(0, after));
    var s7 := Do(s6, LoseBump(0));
    var s8 := Do(s7, Start(1, auth, opts, true));
    var s9 := Do(s8, Lookup(1, true));
    Extend(states, actions, Commit(0, after), s6);
    Extend(states + [s6], actions + [Commit(0, after)], LoseBump(0), s7);
    states, actions := states + [s6] + [s7], actions + [Commit(0, after)] + [LoseBump(0)];
    Extend(states, actions, Start(1, auth, opts, true), s8);
    Extend(states + [s8], actions + [Start(1, auth, opts, true)], Lookup(1, true), s9);
    states, actions := states + [s8] + [s9], actions + [Start(1, auth, opts, true)] + [Lookup(1, true)];
  }

  /** Equal lists of two states are also the list of notifications from one with viewed flags from the other. */
  lemma {:induction false} MixedRender(auth: Auth, a: seq<Note>, b: seq<Note>, va: set<string>, vb: set<string>, vm: set<string>)
    requires Render(auth, a, va) == Render(auth, b, vb)
    requires forall n :: n in a && n in b ==> (n.id in vm <==> n.id in vb)
    ensures Render(auth, a, vm) == Render(auth, b, vb)
  {
    RenderFaithful(auth, a, va);
    RenderFaithful(auth, b, vb);
    forall n | n in a && Allow(auth, n.view, n) ensures n.id in vm <==> n.id in va {
      var i := Item(n, n.id in va, Allow(auth, n.action, n));
      assert i in Render(auth, a, va);
      assert i in Render(auth, b, vb);
      assert i.note in b;
    }
    SameFlags(auth, a, va, vm);
  }

  lemma {:induction false} SameFlags(auth: Auth, notes: seq<Note>, v: set<string>, w: set<string>)
    requires forall n :: n in notes && Allow(auth, n.view, n) ==> (n.id in w <==> n.id in v)
    ensures Render(auth, notes, w) == Render(auth, notes, v)
    decreases |notes|
  {
    if notes != [] {
      assert notes[0] in notes;
      SameFlags(auth, notes[1..], v, w);
    }
  }

  lemma MixedListing(auth: Auth, opts: Opts, before: Db, after: Db)
    requires Listing(auth, opts, before, before) == Listing(auth, opts, after, after)
    ensures Listing(auth, opts, before, after) == Listing(auth, opts, after, after)
  {
    var a, b := ListNotes(before, auth.actor, opts), ListNotes(after, auth.actor, opts);
    MixedRender(auth, a, b, ViewedIds(before, auth.actor, a), ViewedIds(after, auth.actor, b), ViewedIds(after, auth.actor, a));
  }

  lemma ReaderSeesOneOfThree(states: seq<System>, actions: seq<Action>, auth: Auth, opts: Opts, before: Db, after: Db,
                             lost: nat, start: nat)
    requires LostRun(states, actions, auth, opts, before, after, lost, start)
    requires Listing(auth, opts, before, before) == Listing(auth, opts, after, after)
    ensures SeesNew(states, actions, auth, opts, after, start)
  {
    var n, r := |actions|, actions[start].r;
    RunKeepsInvariant(states, actions, n);
    assert StepAt(states, actions, start);
    RunGoesLater(states, actions, start + 1, n);
    assert ReaderOk(states[n].history, states[n].floors, states[n].readers[r]);
    MixedListing(auth, opts, before, after);
  }

  ghost predicate LostBumpsAreHarmless(auth: Auth, opts: Opts, before: Db, after: Db) {
    forall states, actions, lost, start :: LostRun(states, actions, auth, opts, before, after, lost, start) ==>
      SeesNew(states, actions, auth, opts, after, start)
  }

  /** After a lost bump the next readers get the new list, in every such run, if and only if it equals the old one. */
  lemma LostBumpHarmlessIff(auth: Auth, opts: Opts, before: Db, after: Db)
    ensures LostBumpsAreHarmless(auth, opts, before, after) <==>
            Listing(auth, opts, before, before) == Listing(auth, opts, after, after)
  {
    if Listing(auth, opts, before, before) == Listing(auth, opts, after, after) {
      forall states, actions, lost, start | LostRun(states, actions, auth, opts, before, after, lost, start)
        ensures SeesNew(states, actions, auth, opts, after, start)
      {
        ReaderSeesOneOfThree(states, actions, auth, opts, before, after, lost, start);
      }
    } else {
      var states, actions := LostBumpServesStale(auth, opts, before, after);
      assert !SeesNew(states, actions, auth, opts, after, 7);
    }
  }

  /** And a bump of any commit at or after the lost one makes up for it. */
  lemma LaterBumpMakesUp(states: seq<System>, actions: seq<Action>, lost: nat, bump: nat, start: nat)
    requires IsRun(states, actions) && lost < |actions| && bump < start < |actions|
    requires actions[lost].LoseBump? && actions[bump].Bump? && actions[start].Start?
    requires var end := states[|actions|];
             && actions[start].r in end.readers && end.readers[actions[start].r].progress.Returned?
             && actions[lost].w in end.writers && actions[bump].w in end.writers
             && end.writers[actions[lost].w].at <= end.writers[actions[bump].w].at
    ensures var end := states[|actions|];
            Fresh(end.history, actions[start].auth, actions[start].opts, end.writers[actions[lost].w].at,
                  end.readers[actions[start].r].progress.snapshot)
  {
    BumpedWritesAreSeen(states, actions, bump, start);
  }
}
