/**
 The buffered record writer: many writers append under a mutex and may signal a channel of capacity one; a single
 flusher waits for the ticker, the channel or close, swaps the buffer out and hands the batch on. Each locked section,
 channel operation and hand-over is one step; every interleaving is allowed.
 */
module BufferedStore {

  datatype Flusher = Waiting | Flushing(closing: bool) | Storing(batch: seq<nat>, closing: bool) | Exited

  /** `accepted` is every record in the order of the appends; `signals` counts writers about to use the channel. */
  datatype State = State(batchSize: int, accepted: seq<nat>, buffer: seq<nat>, token: bool, closed: bool,
                         signals: nat, flusher: Flusher, stored: seq<seq<nat>>)

  datatype Action = Append(record: nat) | Signal | Tick | Receive | SeeClose | Swap | Store | Close

  predicate Initial(s: State) {
    && s.accepted == [] && s.buffer == [] && !s.token && !s.closed && s.signals == 0
    && s.flusher == Waiting && s.stored == []
  }

  predicate Enabled(s: State, a: Action) {
    match a
    case Append(_) => true
    case Signal => s.signals > 0
    case Tick => s.flusher == Waiting
    case Receive => s.flusher == Waiting && s.token
    case SeeClose => s.flusher == Waiting && s.closed
    case Swap => s.flusher.Flushing?
    case Store => s.flusher.Storing?
    case Close => true
  }

  function Resume(closing: bool): Flusher {
    if closing then Exited else Waiting
  }

  function Do(s: State, a: Action): State
    requires Enabled(s, a)
  {
    match a
    case Append(r) =>
      var buffer := s.buffer + [r];
      s.(buffer := buffer, accepted := s.accepted + [r], signals := s.signals + if |buffer| >= s.batchSize then 1 else 0)
    case Signal => s.(signals := s.signals - 1, token := true)
    case Tick => s.(flusher := Flushing(false))
    case Receive => s.(token := false, flusher := Flushing(false))
    case SeeClose => s.(flusher := Flushing(true))
    case Swap =>
      if s.buffer == [] then s.(flusher := Resume(s.flusher.closing))
      else s.(buffer := [], flusher := Storing(s.buffer, s.flusher.closing))
    case Store => s.(stored := s.stored + [s.flusher.batch], flusher := Resume(s.flusher.closing))
    case Close => s.(closed := true)
  }

  // ---------------------------------------------------------------------------------------------
  // Nothing is lost, duplicated or reordered, and a full buffer is never forgotten
  // ---------------------------------------------------------------------------------------------

  function Flatten(batches: seq<seq<nat>>): seq<nat> {
    if batches == [] then [] else Flatten(batches[..|batches| - 1]) + batches[|batches| - 1]
  }

  function InFlight(s: State): seq<nat> {
    if s.flusher.Storing? then s.flusher.batch else []
  }

  /** Accepted records are the stored ones, then those in flight, then the buffered ones, in order. */
  ghost predicate Conserved(s: State) {
    s.accepted == Flatten(s.stored) + InFlight(s) + s.buffer
  }

  predicate Full(s: State) {
    s.buffer != [] && |s.buffer| >= s.batchSize
  }

  /** While the flusher lives, a full buffer has a token, a flush about to run or a writer about to signal. */
  ghost predicate NoLostWakeup(s: State) {
    s.flusher != Exited && Full(s) ==> s.token || s.flusher.Flushing? || s.signals > 0
  }

  lemma StoreConserves(s: State)
    requires Conserved(s) && s.flusher.Storing?
    ensures Conserved(Do(s, Store))
  {
    var batches := s.stored + [s.flusher.batch];
    assert batches[..|batches| - 1] == s.stored;
    assert Flatten(batches) == Flatten(s.stored) + s.flusher.batch;
    assert Flatten(batches) + [] == Flatten(batches);
  }

  lemma StepConserves(s: State, a: Action)
    requires Conserved(s) && Enabled(s, a)
    ensures Conserved(Do(s, a))
  {
    var settled := Flatten(s.stored) + InFlight(s);
    if a.Store? {
      StoreConserves(s);
    } else if a.Append? {
      assert settled + (s.buffer + [a.record]) == settled + s.buffer + [a.record];
    } else if a.Swap? {
      assert settled == Flatten(s.stored);
      assert settled + s.buffer == settled + s.buffer + [];
    } else {
      assert InFlight(Do(s, a)) == InFlight(s);
    }
  }

  lemma StepKeepsWakeup(s: State, a: Action)
    requires NoLostWakeup(s) && Enabled(s, a)
    ensures NoLostWakeup(Do(s, a)) && Do(s, a).batchSize == s.batchSize
  {
  }

  ghost predicate StepAt(states: seq<State>, actions: seq<Action>, k: nat)
    requires |states| == |actions| + 1 && k < |actions|
  {
    Enabled(states[k], actions[k]) && states[k + 1] == Do(states[k], actions[k])
  }

  ghost predicate IsRun(states: seq<State>, actions: seq<Action>) {
    && |states| == |actions| + 1 && Initial(states[0])
    && forall k {:trigger StepAt(states, actions, k)} :: 0 <= k < |actions| ==> StepAt(states, actions, k)
  }

  /** In every interleaving. */
  lemma {:induction false} RunKeepsInvariant(states: seq<State>, actions: seq<Action>, n: nat)
    requires IsRun(states, actions) && n <= |actions|
    ensures Conserved(states[n]) && NoLostWakeup(states[n])
  {
    if n > 0 {
      RunKeepsInvariant(states, actions, n - 1);
      assert StepAt(states, actions, n - 1);
      StepConserves(states[n - 1], actions[n - 1]);
      StepKeepsWakeup(states[n - 1], actions[n - 1]);
    }
  }

  // ---------------------------------------------------------------------------------------------
  // A full buffer is flushed without waiting for the ticker
  // ---------------------------------------------------------------------------------------------

  /** Steps that are not new work, the ticker or a close. */
  predicate Internal(a: Action) {
    a == Signal || a == Receive || a == Swap || a == Store
  }

  function Pending(s: State): nat {
    4 * s.signals + (if s.token then 3 else 0)
    + match s.flusher { case Waiting => 0 case Storing(_, _) => 1 case Flushing(_) => 2 case Exited => 0 }
  }

  /** Internal steps cannot go on forever. */
  lemma InternalStepsShrink(s: State, a: Action)
    requires Enabled(s, a) && Internal(a)
    ensures Pending(Do(s, a)) < Pending(s)
  {
  }

  /** So a stretch of internal steps is no longer than what was pending at its start. */
  lemma {:induction false} InternalStretchBounded(states: seq<State>, actions: seq<Action>, m: nat, n: nat)
    requires IsRun(states, actions) && m <= n <= |actions|
    requires forall k :: m <= k < n ==> Internal(actions[k])
    ensures n - m + Pending(states[n]) <= Pending(states[m])
    decreases n - m
  {
    if m < n {
      InternalStretchBounded(states, actions, m, n - 1);
      assert StepAt(states, actions, n - 1);
      InternalStepsShrink(states[n - 1], actions[n - 1]);
    }
  }

  /** When no internal step is left and the flusher lives, the buffer is below the batch size. */
  lemma QuietMeansFlushed(states: seq<State>, actions: seq<Action>, n: nat)
    requires IsRun(states, actions) && n <= |actions| && states[n].flusher != Exited
    requires forall a :: Internal(a) ==> !Enabled(states[n], a)
    ensures states[n].flusher == Waiting && !Full(states[n])
  {
    RunKeepsInvariant(states, actions, n);
    assert Internal(Signal) && Internal(Receive) && Internal(Swap) && Internal(Store);
  }

  /** Until a batch is full, the ticker fires or the store is closed, nothing is handed on. */
  lemma {:induction false} BatchesUp(states: seq<State>, actions: seq<Action>, n: nat)
    requires IsRun(states, actions) && n <= |actions|
    requires forall k :: 0 <= k < n ==> actions[k] != Tick && actions[k] != Close
    requires forall k :: 0 <= k <= n ==> states[k].buffer == [] || |states[k].buffer| < states[k].batchSize
    ensures states[n].stored == [] && states[n].buffer == states[n].accepted
    ensures states[n].flusher == Waiting && !states[n].token && !states[n].closed && states[n].signals == 0
  {
    if n > 0 {
      BatchesUp(states, actions, n - 1);
      assert StepAt(states, actions, n - 1);
    }
  }

  // ---------------------------------------------------------------------------------------------
  // A flush stores everything accepted before it began
  // ---------------------------------------------------------------------------------------------

  /** These records are stored or in flight, or a flush is about to take them. */
  ghost predicate Underway(records: seq<nat>, s: State) {
    records <= s.accepted && (s.flusher.Flushing? || records <= Flatten(s.stored) + InFlight(s))
  }

  lemma StepKeepsUnderway(records: seq<nat>, s: State, a: Action)
    requires Conserved(s) && Enabled(s, a) && Underway(records, s)
    ensures Underway(records, Do(s, a))
  {
    var s' := Do(s, a);
    StepConserves(s, a);
    if a.Store? {
      StoredTogether(s);
    } else if a.Swap? {
      assert s'.accepted == Flatten(s'.stored) + InFlight(s') + s'.buffer;
    }
  }

  lemma StoredTogether(s: State)
    requires s.flusher.Storing?
    ensures Flatten(Do(s, Store).stored) + InFlight(Do(s, Store)) == Flatten(s.stored) + InFlight(s)
  {
    var batches := s.stored + [s.flusher.batch];
    assert batches[..|batches| - 1] == s.stored;
  }

  lemma {:induction false} UnderwayFrom(states: seq<State>, actions: seq<Action>, t: nat, n: nat)
    requires IsRun(states, actions) && t < n <= |actions| && states[t + 1].flusher.Flushing?
    ensures Underway(states[t].accepted, states[n])
    decreases n
  {
    assert StepAt(states, actions, n - 1);
    if t + 1 < n {
      UnderwayFrom(states, actions, t, n - 1);
      RunKeepsInvariant(states, actions, n - 1);
      StepKeepsUnderway(states[t].accepted, states[n - 1], actions[n - 1]);
    }
  }

  /**
   Whatever wakes the flusher, the ticker, the channel or a close: once it is back, or gone, every record accepted
   before is stored, in order, with any writers in between.
   */
  lemma WakingStoresAll(states: seq<State>, actions: seq<Action>, t: nat, n: nat)
    requires IsRun(states, actions) && t < n <= |actions|
    requires actions[t] == Tick || actions[t] == Receive || actions[t] == SeeClose
    requires states[n].flusher == Waiting || states[n].flusher == Exited
    ensures states[t].accepted <= Flatten(states[n].stored)
  {
    assert StepAt(states, actions, t);
    UnderwayFrom(states, actions, t, n);
    assert Flatten(states[n].stored) + [] == Flatten(states[n].stored);
  }

  // ---------------------------------------------------------------------------------------------
  // What is accepted can be stored until the last swap
  // ---------------------------------------------------------------------------------------------

  /** The actions, taken one after the other, lead from s to t. */
  ghost predicate Leads(s: State, actions: seq<Action>, t: State)
    decreases |actions|
  {
    if actions == [] then s == t
    else Enabled(s, actions[0]) && Leads(Do(s, actions[0]), actions[1..], t)
  }

  /** The ticker and internal steps store all that has been accepted. */
  ghost predicate StoresAll(s: State, actions: seq<Action>, t: State) {
    Leads(s, actions, t) && (forall a :: a in actions ==> a == Tick || Internal(a)) && Flatten(t.stored) == s.accepted
  }

  /** The flusher has swapped the buffer for the last time. */
  predicate SwappedLast(s: State) {
    s.flusher == Exited || (s.flusher.Storing? && s.flusher.closing)
  }

  lemma FirstStores(s: State, a: Action, actions: seq<Action>, t: State)
    requires Enabled(s, a) && (a == Tick || Internal(a)) && StoresAll(Do(s, a), actions, t)
    ensures StoresAll(s, [a] + actions, t)
  {
    assert ([a] + actions)[1..] == actions;
    assert Do(s, a).accepted == s.accepted;
  }

  /** The flusher's next step on the way to having stored everything. */
  function GoOn(s: State): Action {
    match s.flusher { case Waiting => Tick case Flushing(_) => Swap case _ => Store }
  }

  function StepsLeft(s: State): nat {
    (if s.buffer == [] then 0 else 5)
    + match s.flusher { case Waiting => 2 case Flushing(_) => 1 case Storing(_, _) => 3 case Exited => 0 }
  }

  lemma {:induction false} CanStoreAll(s: State) returns (actions: seq<Action>, t: State)
    requires Conserved(s) && (!SwappedLast(s) || s.buffer == [])
    ensures StoresAll(s, actions, t)
    decreases StepsLeft(s)
  {
    if s.buffer == [] && !s.flusher.Storing? {
      actions, t := [], s;
      assert Flatten(s.stored) + [] + [] == Flatten(s.stored);
    } else {
      var a := GoOn(s);
      StepConserves(s, a);
      actions, t := CanStoreAll(Do(s, a));
      FirstStores(s, a, actions, t);
      actions := [a] + actions;
    }
  }

  lemma {:induction false} BufferStays(s: State, actions: seq<Action>, t: State)
    requires Conserved(s) && SwappedLast(s) && Leads(s, actions, t)
    requires forall a :: a in actions ==> a == Tick || Internal(a)
    ensures Conserved(t) && t.buffer == s.buffer && t.accepted == s.accepted
    decreases |actions|
  {
    if actions != [] {
      var s' := Do(s, actions[0]);
      assert actions[0] == Tick || Internal(actions[0]);
      assert s'.buffer == s.buffer && s'.accepted == s.accepted;
      StepConserves(s, actions[0]);
      BufferStays(s', actions[1..], t);
    }
  }

  /** What has been accepted can still be stored, by the ticker at the latest, exactly until the last swap misses it. */
  lemma StillStoredIff(states: seq<State>, actions: seq<Action>, n: nat)
    requires IsRun(states, actions) && n <= |actions|
    ensures (exists rest, t :: StoresAll(states[n], rest, t)) <==> !SwappedLast(states[n]) || states[n].buffer == []
  {
    var s := states[n];
    RunKeepsInvariant(states, actions, n);
    if !SwappedLast(s) || s.buffer == [] {
      var rest, t := CanStoreAll(s);
      assert StoresAll(s, rest, t);
    } else if exists rest, t :: StoresAll(s, rest, t) {
      var rest, t :| StoresAll(s, rest, t);
      BufferStays(s, rest, t);
    }
  }

  // ---------------------------------------------------------------------------------------------
  // Closing
  // ---------------------------------------------------------------------------------------------

  /** Step `m` is the swap of the flush that close asked for. */
  ghost predicate LastSwap(states: seq<State>, actions: seq<Action>, m: nat)
    requires |states| == |actions| + 1
  {
    m < |actions| && states[m].flusher == Flushing(true) && actions[m] == Swap
  }

  predicate NoAppend(actions: seq<Action>, m: nat, n: nat)
    requires n <= |actions|
  {
    forall k :: m < k < n ==> !actions[k].Append?
  }

  /** After the last swap the flusher only finishes that batch, so the buffer holds just the later appends. */
  lemma {:induction false} NoSwapAfterLast(states: seq<State>, actions: seq<Action>, m: nat, n: nat)
    requires IsRun(states, actions) && LastSwap(states, actions, m) && m < n <= |actions|
    ensures states[n].flusher == Exited || (states[n].flusher.Storing? && states[n].flusher.closing)
    ensures states[n].buffer == [] <==> NoAppend(actions, m, n)
    decreases n
  {
    assert StepAt(states, actions, n - 1);
    if m + 1 < n {
      NoSwapAfterLast(states, actions, m, n - 1);
    }
  }

  /** Once the flusher has exited every accepted record is stored if and only if none came after its last swap. */
  lemma CloseStoresAllIff(states: seq<State>, actions: seq<Action>, m: nat, n: nat)
    requires IsRun(states, actions) && LastSwap(states, actions, m) && m < n <= |actions|
    requires states[n].flusher == Exited
    ensures Flatten(states[n].stored) == states[n].accepted <==> NoAppend(actions, m, n)
  {
    RunKeepsInvariant(states, actions, n);
    NoSwapAfterLast(states, actions, m, n);
    assert |states[n].accepted| == |Flatten(states[n].stored)| + |states[n].buffer|;
    if states[n].buffer == [] {
      assert Flatten(states[n].stored) + [] == Flatten(states[n].stored);
    }
  }

  /** The flusher exits only through the flush that close asked for. */
  lemma {:induction false} ExitHadLastSwap(states: seq<State>, actions: seq<Action>, n: nat) returns (m: nat)
    requires IsRun(states, actions) && n <= |actions|
    requires states[n].flusher == Exited || (states[n].flusher.Storing? && states[n].flusher.closing)
    ensures m < n && LastSwap(states, actions, m)
  {
    assert n > 0;
    assert StepAt(states, actions, n - 1);
    var s := states[n - 1];
    if s.flusher == Exited || (s.flusher.Storing? && s.flusher.closing) {
      m := ExitHadLastSwap(states, actions, n - 1);
    } else {
      m := n - 1;
    }
  }

  /** A closing flush follows a close, and closed stays closed. */
  lemma {:induction false} ClosingIsClosed(states: seq<State>, actions: seq<Action>, m: nat, n: nat)
    requires IsRun(states, actions) && m <= n <= |actions|
    ensures states[m].flusher == Flushing(true) ==> states[m].closed
    ensures states[m].closed ==> states[n].closed
    decreases n
  {
    if n > 0 {
      assert StepAt(states, actions, n - 1);
      if m < n {
        ClosingIsClosed(states, actions, m, n - 1);
      } else {
        ClosingIsClosed(states, actions, m - 1, n - 1);
      }
    }
  }

  /** A caller that appends nothing once the store is closed finds everything stored when the flusher has exited. */
  lemma CloseThenNoAppend(states: seq<State>, actions: seq<Action>, n: nat)
    requires IsRun(states, actions) && n <= |actions| && states[n].flusher == Exited
    requires forall k :: 0 <= k < n && states[k].closed ==> !actions[k].Append?
    ensures Flatten(states[n].stored) == states[n].accepted
  {
    var m := ExitHadLastSwap(states, actions, n);
    forall k | m < k < n ensures !actions[k].Append? {
      ClosingIsClosed(states, actions, m, k);
    }
    CloseStoresAllIff(states, actions, m, n);
  }

  /** A record accepted after the last swap stays in the buffer: close, flush nothing, exit, append. */
  lemma LateRecordIsLost(batchSize: int) returns (states: seq<State>, actions: seq<Action>)
    ensures IsRun(states, actions) && |actions| == 4 && states[0].batchSize == batchSize
    ensures states[4].flusher == Exited && states[4].accepted == [7] && Flatten(states[4].stored) == []
  {
    var s0 := State(batchSize, [], [], false, false, 0, Waiting, []);
    var s1 := Do(s0, Close);
    var s2 := Do(s1, SeeClose);
    var s3 := Do(s2, Swap);
    var s4 := Do(s3, Append(7));
    states, actions := [s0, s1, s2, s3, s4], [Close, SeeClose, Swap, Append(7)];
  }

  // ---------------------------------------------------------------------------------------------
  // The object, one call at a time
  // ---------------------------------------------------------------------------------------------

  class Writer {
    const batchSize: int
    var buffer: seq<nat>
    var token: bool
    var closed: bool
    var stored: seq<seq<nat>>

    constructor (batchSize: int)
      ensures this.batchSize == batchSize && buffer == [] && !token && !closed && stored == []
    {
      this.batchSize := batchSize;
      buffer, token, closed, stored := [], false, false, [];
    }

    /** A full channel drops the signal: the token is there already. */
    method StoreRecord(r: nat)
      modifies this`buffer, this`token
      ensures buffer == old(buffer) + [r]
      ensures token == (old(token) || |buffer| >= batchSize)
    {
      buffer := buffer + [r];
      var shouldFlush := |buffer| >= batchSize;
      if shouldFlush && !token { token := true; }
    }

    method StoreRecords(rs: seq<nat>)
      modifies this`buffer, this`token
      ensures buffer == old(buffer) + rs
      ensures token == (old(token) || (rs != [] && |buffer| >= batchSize))
    {
      for i := 0 to |rs|
        invariant buffer == old(buffer) + rs[..i]
        invariant token == (old(token) || (i > 0 && |buffer| >= batchSize))
      {
        StoreRecord(rs[i]);
        assert rs[..i + 1] == rs[..i] + [rs[i]];
      }
      assert rs[..|rs|] == rs;
    }

    method Flush()
      modifies this`buffer, this`stored
      ensures buffer == [] && Flatten(stored) == Flatten(old(stored)) + old(buffer)
    {
      if |buffer| == 0 { return; }
      var records := buffer;
      buffer := [];
      stored := stored + [records];
      assert stored[..|stored| - 1] == old(stored);
    }

    method Close()
      modifies this`closed
      ensures closed
    {
      closed := true;
    }
  }
}
