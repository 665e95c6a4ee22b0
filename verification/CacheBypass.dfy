/** Listings when Redis fails: the answer is then the database's own, and what is cached stays as it is. */
module CacheBypass {
  import opened NotificationCache
  import opened Notifications
  import opened Options

  /** The reader could not read the version or the entry. */
  predicate ReadFails(a: Action) {
    (a.Start? && !a.versionRead) || (a.Lookup? && !a.entryRead)
  }

  /** The reader's answer is the database's, from commit `from` or later; so far as it has come. */
  ghost predicate FromDatabase(history: seq<Db>, r: Reader, from: nat) {
    && from < |history|
    && match r.progress
       case Keyed(_) => false
       case Missed(_) => true
       case Listed(_, notes, at) => from <= at < |history| && notes == ListNotes(history[at], r.auth.actor, r.opts)
       case Computed(_, snapshot) => Fresh(history, r.auth, r.opts, from, snapshot)
       case Returned(snapshot) => Fresh(history, r.auth, r.opts, from, snapshot)
  }

  lemma FailureTurnsToDatabase(s: System, a: Action)
    requires Invariant(s) && Enabled(s, a) && ReadFails(a)
    ensures var s' := Do(s, a);
      s'.cache == s.cache && a.r in s'.readers && FromDatabase(s'.history, s'.readers[a.r], |s.history| - 1)
  {
  }

  lemma GrowthKeepsDatabase(history: seq<Db>, grown: seq<Db>, r: Reader, from: nat)
    requires FromDatabase(history, r, from) && history <= grown
    ensures FromDatabase(grown, r, from)
  {
  }

  lemma OwnStepKeepsDatabase(s: System, a: Action, r: nat, from: nat)
    requires s.history != [] && s.floors != [] && Enabled(s, a) && Of(a, r)
    requires r in s.readers && FromDatabase(s.history, s.readers[r], from)
    ensures r in Do(s, a).readers && FromDatabase(Do(s, a).history, Do(s, a).readers[r], from)
  {
  }

  lemma StepKeepsDatabase(s: System, a: Action, r: nat, from: nat)
    requires s.history != [] && s.floors != [] && Enabled(s, a)
    requires r in s.readers && FromDatabase(s.history, s.readers[r], from)
    ensures r in Do(s, a).readers && FromDatabase(Do(s, a).history, Do(s, a).readers[r], from)
  {
    if Of(a, r) {
      OwnStepKeepsDatabase(s, a, r, from);
    } else {
      ReaderProgresses(s, a, r);
      StepGoesLater(s, a);
      GrowthKeepsDatabase(s.history, Do(s, a).history, s.readers[r], from);
    }
  }

  /** In every run a reader that Redis failed answers with the database's list, of commits no older than that. */
  lemma {:induction false} FailedReadSeesDatabase(states: seq<System>, actions: seq<Action>, k: nat, n: nat)
    requires IsRun(states, actions) && k < n <= |actions| && ReadFails(actions[k])
    ensures states[k].history != [] && actions[k].r in states[n].readers
    ensures FromDatabase(states[n].history, states[n].readers[actions[k].r], |states[k].history| - 1)
    decreases n
  {
    assert StepAt(states, actions, n - 1);
    RunKeepsInvariant(states, actions, n - 1);
    RunKeepsInvariant(states, actions, k);
    if k == n - 1 {
      FailureTurnsToDatabase(states[k], actions[k]);
    } else {
      FailedReadSeesDatabase(states, actions, k, n - 1);
      StepKeepsDatabase(states[n - 1], actions[n - 1], actions[k].r, |states[k].history| - 1);
    }
  }

  /** The reader has no version to store its list under. */
  ghost predicate Versionless(r: Reader) {
    match r.progress
    case Keyed(_) => false
    case Missed(v) => v.None?
    case Listed(v, _, _) => v.None?
    case Computed(v, _) => v.None?
    case Returned(_) => true
  }

  lemma StepStaysVersionless(s: System, a: Action, r: nat)
    requires s.history != [] && s.floors != [] && Enabled(s, a) && r in s.readers && Versionless(s.readers[r])
    ensures r in Do(s, a).readers && Versionless(Do(s, a).readers[r])
    ensures Of(a, r) ==> Do(s, a).cache == s.cache
  {
    ReaderProgresses(s, a, r);
  }

  lemma {:induction false} RunStaysVersionless(states: seq<System>, actions: seq<Action>, k: nat, n: nat)
    requires IsRun(states, actions) && k < n <= |actions| && actions[k].Start? && !actions[k].versionRead
    ensures actions[k].r in states[n].readers && Versionless(states[n].readers[actions[k].r])
    decreases n
  {
    assert StepAt(states, actions, n - 1);
    if k < n - 1 {
      RunStaysVersionless(states, actions, k, n - 1);
      StepStaysVersionless(states[n - 1], actions[n - 1], actions[k].r);
    }
  }

  /** In every run the cache changes only by an expiry or a store that worked, of a reader that had read a version. */
  lemma CacheChangesOnlyBy(states: seq<System>, actions: seq<Action>, n: nat)
    requires IsRun(states, actions) && n < |actions| && states[n + 1].cache != states[n].cache
    ensures actions[n].Expire? || (actions[n].Store? && actions[n].written)
    ensures actions[n].Store? ==>
      forall k :: 0 <= k < n && actions[k].Start? && actions[k].r == actions[n].r ==> actions[k].versionRead
  {
    assert StepAt(states, actions, n);
    if actions[n].Store? {
      forall k | 0 <= k < n && actions[k].Start? && actions[k].r == actions[n].r ensures actions[k].versionRead {
        if !actions[k].versionRead {
          RunStaysVersionless(states, actions, k, n);
          StepStaysVersionless(states[n], actions[n], actions[n].r);
        }
      }
    }
  }
}
