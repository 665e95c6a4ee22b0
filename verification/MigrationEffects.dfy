/**
 What a hook's patch does, entry by entry: which patches are refused, what is in config, labels and annotations
 afterwards, and which of its notices ends up queued.
 */
module MigrationEffects {
  import opened Options
  import opened Sequences
  import opened Migration

  // ---------------------------------------------------------------------------------------------
  // Content
  // ---------------------------------------------------------------------------------------------

  /** An unset entry is gone, whether or not it is also set; a set one has its new value, every other its old one. */
  ghost predicate Patched<V>(before: map<string, V>, put: map<string, V>, unset: seq<string>, after: map<string, V>,
                             k: string)
  {
    if k in unset then k !in after
    else if k in put then k in after && after[k] == put[k]
    else if k in before then k in after && after[k] == before[k]
    else k !in after
  }

  lemma {:induction false} SetDefsKeepContent(c: Candidate, defs: seq<NoticeDef>)
    requires forall d :: d in defs ==> DefValid(d)
    ensures SameExceptNotices(c, SetDefs(c, defs))
    decreases |defs|
  {
    if defs != [] {
      assert forall d :: d in defs[..|defs| - 1] ==> d in defs;
      SetDefsKeepContent(c, defs[..|defs| - 1]);
    }
  }

  lemma {:induction false} UnsetDefsKeepContent(c: Candidate, keys: seq<string>)
    ensures SameExceptNotices(c, UnsetDefs(c, keys))
    decreases |keys|
  {
    if keys != [] {
      UnsetDefsKeepContent(c, keys[..|keys| - 1]);
    }
  }

  /** The content after a patch that is accepted, and nothing but content and notices has changed. */
  lemma PatchedContent(rules: Rules, c: Candidate, p: Patch, k: string)
    requires ApplyPatch(rules, c, p).Some?
    ensures var d := ApplyPatch(rules, c, p).value;
      && Patched(c.content.config, p.configSet, p.configUnset, d.content.config, k)
      && Patched(c.content.labels, p.labelsSet, p.labelsUnset, d.content.labels, k)
      && Patched(c.content.annotations, p.annotationsSet, p.annotationsUnset, d.content.annotations, k)
      && d.connection == c.connection && d.setupStep == c.setupStep && d.health == c.health
  {
    var c' := c.(content := PatchContent(c.content, p));
    SetDefsKeepContent(c', p.noticesSet);
    UnsetDefsKeepContent(SetDefs(c', p.noticesSet), p.noticesUnset);
  }

  // ---------------------------------------------------------------------------------------------
  // Refusal
  // ---------------------------------------------------------------------------------------------

  ghost predicate BadNotice(d: NoticeDef) {
    d.key == "" || d.title == "" || d.message == "" || d.level !in {"", "info", "warning", "error"}
  }

  ghost predicate BadLabels(rules: Rules, p: Patch) {
    || (exists k :: k in p.labelsSet && (!rules.labelKey(k) || !rules.labelValue(p.labelsSet[k])))
    || (exists k :: k in p.labelsUnset && !rules.labelKey(k))
  }

  ghost predicate BadAnnotations(rules: Rules, p: Patch) {
    || (exists k :: k in p.annotationsSet && !rules.annotationKey(k))
    || (exists k :: k in p.annotationsUnset && !rules.annotationKey(k))
  }

  lemma DefValidIff(d: NoticeDef)
    ensures DefValid(d) <==> !BadNotice(d)
  {
  }

  /** A patch is refused exactly for a bad label, annotation or notice; config is never checked. */
  lemma RefusedIff(rules: Rules, c: Candidate, p: Patch)
    ensures ApplyPatch(rules, c, p).None? <==>
      || BadLabels(rules, p) || BadAnnotations(rules, p)
      || (exists d :: d in p.noticesSet && BadNotice(d)) || "" in p.noticesUnset
  {
    forall d ensures DefValid(d) <==> !BadNotice(d) {
      DefValidIff(d);
    }
  }

  /** A refresh that fails leaves the candidate unhealthy with the auth notice queued; content and step stay. */
  lemma RefreshFailedQueuesAuth(c: Candidate)
    requires Backed(c)
    ensures var d := RefreshFailed(c);
      d.health == Unhealthy && Queued(d, AuthKey(c)) && d.content == c.content && d.setupStep == c.setupStep
  {
  }

  // ---------------------------------------------------------------------------------------------
  // Notices
  // ---------------------------------------------------------------------------------------------

  /** Errors come before warnings, and those before the rest. */
  function Weight(d: NoticeDef): nat {
    if d.level == "error" then 3 else if d.level == "warning" then 2 else 1
  }

  /** The first of the weightiest notices. */
  ghost predicate Wins(defs: seq<NoticeDef>, i: nat) {
    && i < |defs| && (forall j :: 0 <= j < |defs| ==> Weight(defs[j]) <= Weight(defs[i]))
    && forall j :: 0 <= j < i ==> Weight(defs[j]) < Weight(defs[i])
  }

  /** The winner is queued and nothing else. */
  ghost predicate QueuesDef(c: Candidate, d: NoticeDef) {
    && c.rank == Weight(d) && c.notices == [Notice(ConnectorKey(c.connection, d.key), d.title)]
    && c.noticeKeys == [c.notices[0].key]
  }

  lemma SetDefsLast(c: Candidate, defs: seq<NoticeDef>)
    requires defs != [] && forall d :: d in defs ==> DefValid(d)
    ensures forall d :: d in defs[..|defs| - 1] ==> DefValid(d)
    ensures var n := |defs| - 1;
      SetDefs(c, defs) ==
      SetNotice(SetDefs(c, defs[..n]), Weight(defs[n]), Notice(ConnectorKey(c.connection, defs[n].key), defs[n].title))
  {
    var d, init := defs[|defs| - 1], defs[..|defs| - 1];
    assert d in defs && forall x :: x in init ==> x in defs;
    LevelIsWeight(d);
    var rank := LevelRank(d.level).value;
    assert SetDefs(c, defs) == SetNotice(SetDefs(c, init), rank, Notice(ConnectorKey(c.connection, d.key), d.title));
  }

  lemma LevelIsWeight(d: NoticeDef)
    requires DefValid(d)
    ensures LevelRank(d.level) == Some(Weight(d))
  {
  }

  lemma WinnerStep(defs: seq<NoticeDef>, i: nat)
    requires defs != [] && Wins(defs[..|defs| - 1], i)
    ensures var n := |defs| - 1; Wins(defs, if Weight(defs[n]) > Weight(defs[i]) then n else i)
  {
    var n := |defs| - 1;
    assert forall j :: 0 <= j < n ==> defs[..n][j] == defs[j];
  }

  /** Of the notices a hook sets on a candidate with none queued, the first of the weightiest is queued. */
  lemma {:induction false} SetDefsQueuesWinner(c: Candidate, defs: seq<NoticeDef>) returns (i: nat)
    requires c.rank == 0 && defs != [] && forall d :: d in defs ==> DefValid(d)
    ensures Wins(defs, i) && QueuesDef(SetDefs(c, defs), defs[i]) && SetDefs(c, defs).connection == c.connection
    decreases |defs|
  {
    var n := |defs| - 1;
    SetDefsLast(c, defs);
    if n == 0 {
      i := 0;
    } else {
      var before := SetDefsQueuesWinner(c, defs[..n]);
      WinnerStep(defs, before);
      i := if Weight(defs[n]) > Weight(defs[before]) then n else before;
    }
  }

  /** One of the keys is the connector's name for this notice key. */
  ghost predicate Names(c: Candidate, keys: seq<string>, k: string) {
    exists u :: u in keys && ConnectorKey(c.connection, u) == k
  }

  ghost predicate UnsetBy(c: Candidate, keys: seq<string>, d: Candidate) {
    && SlotOk(d) && d.connection == c.connection
    && d.notices == (if c.notices != [] && Names(c, keys, c.notices[0].key) then [] else c.notices)
    && forall k :: k in d.unsetKeys <==> k in c.unsetKeys || Names(c, keys, k)
  }

  lemma UnsetOne(c: Candidate, key: string)
    requires SlotOk(c)
    ensures var d := UnsetNotice(c, key);
      && SlotOk(d) && d.connection == c.connection
      && d.notices == (if c.notices != [] && c.notices[0].key == key then [] else c.notices)
      && forall k :: k in d.unsetKeys <==> k in c.unsetKeys || k == key
  {
    OpKeepsSlot(c, ConnectorUnset(key));
  }

  lemma NamesLast(c: Candidate, keys: seq<string>, k: string)
    requires keys != []
    ensures var n := |keys| - 1;
      Names(c, keys, k) <==> Names(c, keys[..n], k) || ConnectorKey(c.connection, keys[n]) == k
  {
    var n := |keys| - 1;
    assert keys == keys[..n] + [keys[n]];
  }

  /** A queued notice survives a hook's unsets exactly when they do not name it, and all they name is to be resolved. */
  lemma {:induction false} UnsetDefsDrops(c: Candidate, keys: seq<string>)
    requires SlotOk(c)
    ensures UnsetBy(c, keys, UnsetDefs(c, keys))
    decreases |keys|
  {
    if keys != [] {
      var n := |keys| - 1;
      UnsetDefsDrops(c, keys[..n]);
      UnsetOne(UnsetDefs(c, keys[..n]), ConnectorKey(c.connection, keys[n]));
      forall k ensures Names(c, keys, k) <==> Names(c, keys[..n], k) || ConnectorKey(c.connection, keys[n]) == k {
        NamesLast(c, keys, k);
      }
    }
  }

  /** What a patch does to the notices of a candidate with none queued: the winner is queued unless also unset. */
  lemma PatchedNotices(rules: Rules, c: Candidate, p: Patch) returns (i: nat)
    requires ApplyPatch(rules, c, p).Some? && SlotOk(c) && c.rank == 0
    ensures var d := ApplyPatch(rules, c, p).value;
      && SlotOk(d) && (p.noticesSet == [] ==> d.notices == [])
      && (p.noticesSet != [] ==>
            && Wins(p.noticesSet, i)
            && var n := Notice(ConnectorKey(c.connection, p.noticesSet[i].key), p.noticesSet[i].title);
               d.notices == if Names(c, p.noticesUnset, n.key) then [] else [n])
      && forall k :: Names(c, p.noticesUnset, k) ==> k in d.unsetKeys
  {
    var c' := c.(content := PatchContent(c.content, p));
    SetDefsKeepSlot(c', p.noticesSet);
    if p.noticesSet != [] {
      i := SetDefsQueuesWinner(c', p.noticesSet);
    } else {
      i := 0;
    }
    UnsetDefsDrops(SetDefs(c', p.noticesSet), p.noticesUnset);
    forall k ensures Names(SetDefs(c', p.noticesSet), p.noticesUnset, k) <==> Names(c, p.noticesUnset, k) {
    }
  }

  lemma {:induction false} SetDefsKeepSlot(c: Candidate, defs: seq<NoticeDef>)
    requires SlotOk(c) && forall d :: d in defs ==> DefValid(d)
    ensures SlotOk(SetDefs(c, defs)) && SetDefs(c, defs).connection == c.connection
    decreases |defs|
  {
    if defs != [] {
      var n := |defs| - 1;
      SetDefsLast(c, defs);
      SetDefsKeepSlot(c, defs[..n]);
      OpKeepsSlot(SetDefs(c, defs[..n]),
                  ConnectorSet(Weight(defs[n]), Notice(ConnectorKey(c.connection, defs[n].key), defs[n].title)));
    }
  }

  /** Queueing a notice withdraws its own key from those to resolve, and no other. */
  lemma SetWithdrawsOwnKey(c: Candidate, rank: nat, n: Notice, k: string)
    requires rank > c.rank
    ensures k in SetNotice(c, rank, n).unsetKeys <==> k in c.unsetKeys && k != n.key
  {
    RemoveRemoves(c.unsetKeys, n.key);
  }

  // ---------------------------------------------------------------------------------------------
  // Keys
  // ---------------------------------------------------------------------------------------------

  /** The three forms of a notice key. */
  lemma KeyForms(c: Candidate, key: string)
    ensures AuthKey(c) == "connection:" + c.connection + ":auth_required"
    ensures SetupKey(c) == "connection:" + c.connection + ":setup_required"
    ensures ConnectorKey(c.connection, key) == "connection:" + c.connection + ":connector_notice:" + key
  {
    assert ":" + ("connector_notice:" + key) == ":connector_notice:" + key;
  }

  /** Notices of different connections never share a key: ids have no colon. */
  lemma ConnectionsApart(a: string, b: string, x: string, y: string)
    requires ':' !in a && ':' !in b && NoticeKey(a, x) == NoticeKey(b, y)
    ensures a == b && x == y
  {
    var prefix, k := "connection:", NoticeKey(a, x);
    var rest := k[|prefix|..];
    assert rest == a + ":" + x && rest == b + ":" + y;
    FirstColonAt(a, x);
    FirstColonAt(b, y);
    assert a == rest[..|a|] && b == rest[..|b|] && x == rest[|a| + 1..] && y == rest[|b| + 1..];
  }

  function FirstColon(k: string): nat {
    if k == "" || k[0] == ':' then 0 else 1 + FirstColon(k[1..])
  }

  lemma {:induction false} FirstColonAt(a: string, x: string)
    requires ':' !in a
    ensures FirstColon(a + ":" + x) == |a|
    decreases |a|
  {
    if a != "" {
      FirstColonAt(a[1..], x);
      assert (a + ":" + x)[1..] == a[1..] + ":" + x;
    }
  }

  // ---------------------------------------------------------------------------------------------
  // When the analysis fails
  // ---------------------------------------------------------------------------------------------

  /** The first configure field that is missing. */
  ghost predicate FirstMissing(c: Candidate, fields: seq<Field>, source: set<string>, i: int) {
    && 0 <= i < |fields| && Missing(c.content.config, fields, source, i)
    && NoneMissing(c.content.config, fields, source, i)
  }

  lemma FirstMissingPrefix(c: Candidate, fields: seq<Field>, source: set<string>, n: nat, i: int)
    requires 0 <= i < n <= |fields|
    ensures FirstMissing(c, fields[..n], source, i) <==> FirstMissing(c, fields, source, i)
  {
    MissingInPrefix(c.content.config, fields, source, n, i);
    NoneMissingInPrefix(c.content.config, fields, source, n, i);
  }

  lemma {:induction false} StepStays(c: Candidate, fields: seq<Field>, source: set<string>)
    requires c.setupStep.Some?
    ensures AnalyzeFields(c, Configure, fields, source).Some?
    ensures AnalyzeFields(c, Configure, fields, source).value.setupStep == c.setupStep
    decreases |fields|
  {
    if fields != [] {
      StepStays(c, fields[..|fields| - 1], source);
    }
  }

  /** The analysis of configure fields fails exactly when the first missing one belongs to no step, and none was set. */
  lemma {:induction false} ConfigureFailsIff(c: Candidate, fields: seq<Field>, source: set<string>)
    ensures AnalyzeFields(c, Configure, fields, source).None? <==>
      c.setupStep.None? && exists i :: FirstMissing(c, fields, source, i) && fields[i].stepId == ""
    decreases |fields|
  {
    if c.setupStep.Some? {
      StepStays(c, fields, source);
    } else if fields != [] {
      var n := |fields| - 1;
      ConfigureFailsIff(c, fields[..n], source);
      forall i | 0 <= i < n ensures FirstMissing(c, fields[..n], source, i) <==> FirstMissing(c, fields, source, i) {
        FirstMissingPrefix(c, fields, source, n, i);
      }
      if AnalyzeFields(c, Configure, fields[..n], source).Some? {
        SetupStepIsFirstMissing(c, fields[..n], source);
        LastMissing(c, fields, source);
        NoneMissingInPrefix(c.content.config, fields, source, n, n);
        LastFails(c, fields, source);
      } else {
        var i :| FirstMissing(c, fields[..n], source, i) && fields[..n][i].stepId == "";
        assert FirstMissing(c, fields, source, i) && fields[i].stepId == "";
      }
    }
  }

  /** The last field fails the analysis exactly when it is the first one missing. */
  lemma LastFails(c: Candidate, fields: seq<Field>, source: set<string>)
    requires fields != [] && c.setupStep.None? && AnalyzeFields(c, Configure, fields[..|fields| - 1], source).Some?
    ensures AnalyzeFields(c, Configure, fields, source).None? <==>
      FirstMissing(c, fields, source, |fields| - 1) && fields[|fields| - 1].stepId == ""
  {
    var n := |fields| - 1;
    SetupStepIsFirstMissing(c, fields[..n], source);
    LastMissing(c, fields, source);
    NoneMissingInPrefix(c.content.config, fields, source, n, n);
    assert fields[..n][..n] == fields[..n];
  }
}
