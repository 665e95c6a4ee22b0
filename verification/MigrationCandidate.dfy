/** The candidate object that hooks and analysis update in place, tied to the functions of Migration. */
module MigrationCandidate {
  import opened Options
  import opened Migration

  /** The entries put so far, over the map they go to. */
  ghost predicate PutSoFar<V>(m: map<string, V>, put: map<string, V>, todo: set<string>, out: map<string, V>) {
    && out.Keys == m.Keys + (put.Keys - todo)
    && forall k :: k in out ==> out[k] == if k in put && k !in todo then put[k] else m[k]
  }

  lemma PutNext<V>(m: map<string, V>, put: map<string, V>, todo: set<string>, out: map<string, V>, k: string)
    requires PutSoFar(m, put, todo, out) && todo <= put.Keys && k in todo
    ensures PutSoFar(m, put, todo - {k}, out[k := put[k]])
  {
  }

  /** Set every entry, in any order; None when a key or value is refused. */
  method PutEntries<V>(m: map<string, V>, put: map<string, V>, keyOk: string -> bool, valueOk: V -> bool)
    returns (r: Option<map<string, V>>)
    ensures r.Some? ==> r.value == m + put
    ensures r.Some? <==> forall k :: k in put ==> keyOk(k) && valueOk(put[k])
  {
    var out, todo := m, put.Keys;
    while todo != {}
      invariant todo <= put.Keys && PutSoFar(m, put, todo, out)
      invariant forall k :: k in put && k !in todo ==> keyOk(k) && valueOk(put[k])
      decreases |todo|
    {
      var k :| k in todo;
      if !keyOk(k) || !valueOk(put[k]) { return None; }
      PutNext(m, put, todo, out, k);
      out := out[k := put[k]];
      todo := todo - {k};
    }
    assert out == m + put;
    return Some(out);
  }

  /** Remove every key; None when one is refused. */
  method RemoveEntries<V>(m: map<string, V>, unset: seq<string>, keyOk: string -> bool) returns (r: Option<map<string, V>>)
    ensures r.Some? ==> r.value == m - set k | k in unset
    ensures r.Some? <==> forall k :: k in unset ==> keyOk(k)
  {
    var out := m;
    for i := 0 to |unset|
      invariant out == m - set k | k in unset[..i]
      invariant forall k :: k in unset[..i] ==> keyOk(k)
    {
      assert unset[i] in unset && unset[..i + 1] == unset[..i] + [unset[i]];
      if !keyOk(unset[i]) { return None; }
      out := out - {unset[i]};
    }
    assert unset[..|unset|] == unset;
    return Some(out);
  }

  method PatchEntries<V>(m: map<string, V>, put: map<string, V>, unset: seq<string>, keyOk: string -> bool, valueOk: V -> bool)
    returns (r: Option<map<string, V>>)
    ensures r.Some? ==> r.value == PatchMap(m, put, unset)
    ensures r.Some? <==> (forall k :: k in put ==> keyOk(k) && valueOk(put[k])) && (forall k :: k in unset ==> keyOk(k))
  {
    r := PutEntries(m, put, keyOk, valueOk);
    if r.None? { return; }
    r := RemoveEntries(r.value, unset, keyOk);
  }

  method RemoveString(keys: seq<string>, key: string) returns (r: seq<string>)
    ensures r == Remove(keys, key)
  {
    var slice := new string[|keys|](i requires 0 <= i < |keys| => keys[i]);
    assert slice[..|keys|] == keys;
    var n := RemoveInPlace(slice, |keys|, key);
    return slice[..n];
  }

  method AppendUniqueString(keys: seq<string>, key: string) returns (r: seq<string>)
    ensures r == AppendUnique(keys, key)
  {
    for i := 0 to |keys|
      invariant forall k :: 0 <= k < i ==> keys[k] != key
    {
      if keys[i] == key { return keys; }
    }
    return keys + [key];
  }

  class CandidateObject {
    const connection: string
    var content: Content
    var setupStep: Option<string>
    var health: Health
    var notices: seq<Notice>
    var noticeKeys: seq<string>
    var unsetKeys: seq<string>
    var rank: nat

    function View(): Candidate
      reads this
    {
      Candidate(connection, content, setupStep, health, notices, noticeKeys, unsetKeys, rank)
    }

    constructor (connection: string, content: Content, setupStep: Option<string>, health: Health)
      ensures Fresh(View())
      ensures View() == Candidate(connection, content, setupStep, health, [], [], [], 0)
    {
      this.connection, this.content, this.setupStep, this.health := connection, content, setupStep, health;
      notices, noticeKeys, unsetKeys, rank := [], [], [], 0;
    }

    method SetNotification(rank: nat, n: Notice)
      modifies this
      ensures View() == SetNotice(old(View()), rank, n)
    {
      if rank <= this.rank { return; }
      this.rank := rank;
      notices := [n];
      noticeKeys := [n.key];
      var remaining := RemoveString(unsetKeys, n.key);
      unsetKeys := remaining;
    }

    method UnsetNotification(key: string)
      modifies this
      ensures View() == UnsetNotice(old(View()), key)
    {
      var unset := AppendUniqueString(unsetKeys, key);
      unsetKeys := unset;
      if |notices| == 1 && notices[0].key == key {
        notices := [];
        var remaining := RemoveString(noticeKeys, key);
        noticeKeys := remaining;
        rank := 0;
      }
    }

    method RefreshSucceeded()
      modifies this
      ensures View() == Migration.RefreshSucceeded(old(View()))
    {
      health := Healthy;
      var key := AuthKey(View());
      if |notices| != 1 || notices[0].key != key { return; }
      notices := [];
      var remaining := RemoveString(noticeKeys, key);
      noticeKeys := remaining;
      rank := 0;
    }

    method NotificationKeysToResolve() returns (keys: seq<string>)
      ensures keys == KeysToResolve(View())
    {
      keys := unsetKeys;
      var builtIn := [AuthKey(View()), SetupKey(View())];
      for i := 0 to 2
        invariant i == 0 ==> keys == unsetKeys
        invariant i == 1 ==> keys == if builtIn[0] in noticeKeys then unsetKeys else AppendUnique(unsetKeys, builtIn[0])
        invariant i == 2 ==> keys == KeysToResolve(View())
      {
        if builtIn[i] !in noticeKeys { keys := AppendUniqueString(keys, builtIn[i]); }
      }
    }

    /** On an error the candidate is abandoned, so its partial changes are not described. */
    method ApplyHookPatch(rules: Rules, p: Patch) returns (ok: bool)
      modifies this
      ensures ok ==> Some(View()) == ApplyPatch(rules, old(View()), p)
      ensures !ok ==> ApplyPatch(rules, old(View()), p) == None
    {
      var config := PatchEntries(content.config, p.configSet, p.configUnset, _ => true, _ => true);
      content := content.(config := config.value);
      var labels := PatchEntries(content.labels, p.labelsSet, p.labelsUnset, rules.labelKey, rules.labelValue);
      if labels.None? { return false; }
      content := content.(labels := labels.value);
      var annotations := PatchEntries(content.annotations, p.annotationsSet, p.annotationsUnset, rules.annotationKey, _ => true);
      if annotations.None? { return false; }
      content := content.(annotations := annotations.value);
      assert content == PatchContent(old(content), p);
      ok := SetNotices(p.noticesSet);
      if !ok { return; }
      ok := UnsetNotices(p.noticesUnset);
    }

    method SetNotices(defs: seq<NoticeDef>) returns (ok: bool)
      modifies this
      ensures ok <==> forall d :: d in defs ==> DefValid(d)
      ensures ok ==> View() == SetDefs(old(View()), defs)
    {
      for i := 0 to |defs|
        invariant forall d :: d in defs[..i] ==> DefValid(d)
        invariant View() == SetDefs(old(View()), defs[..i])
      {
        var d := defs[i];
        assert d in defs && defs[..i + 1] == defs[..i] + [d] && defs[..i + 1][..i] == defs[..i];
        if !DefValid(d) { return false; }
        SetNotification(LevelRank(d.level).value, Notice(ConnectorKey(connection, d.key), d.title));
      }
      assert defs[..|defs|] == defs;
      return true;
    }

    method UnsetNotices(keys: seq<string>) returns (ok: bool)
      modifies this
      ensures ok <==> forall k :: k in keys ==> k != ""
      ensures ok ==> View() == UnsetDefs(old(View()), keys)
    {
      for i := 0 to |keys|
        invariant forall k :: k in keys[..i] ==> k != ""
        invariant View() == UnsetDefs(old(View()), keys[..i])
      {
        assert keys[i] in keys && keys[..i + 1] == keys[..i] + [keys[i]] && keys[..i + 1][..i] == keys[..i];
        if keys[i] == "" { return false; }
        UnsetNotification(ConnectorKey(connection, keys[i]));
      }
      assert keys[..|keys|] == keys;
      return true;
    }

    method AnalyzeSetupFields(phase: Phase, fields: seq<Field>, source: set<string>) returns (ok: bool)
      modifies this
      ensures ok ==> Some(View()) == AnalyzeFields(old(View()), phase, fields, source)
      ensures !ok ==> AnalyzeFields(old(View()), phase, fields, source) == None
    {
      for i := 0 to |fields|
        invariant Some(View()) == AnalyzeFields(old(View()), phase, fields[..i], source)
      {
        var f := fields[i];
        assert fields[..i + 1][..i] == fields[..i];
        if f.name in source { continue; }
        if f.name in content.config { continue; }
        if f.fallback.Some? {
          content := content.(config := content.config[f.name := f.fallback.value]);
          continue;
        }
        if f.required {
          if phase == Preconnect {
            health := Unhealthy;
            SetNotification(RANK_AUTH, Notice(AuthKey(View()), "Connection requires re-authentication"));
            continue;
          }
          if setupStep.None? {
            if f.stepId == "" {
              AnalysisFailureSticks(old(View()), phase, fields, source, i + 1);
              return false;
            }
            setupStep := Some(f.stepId);
          }
          SetNotification(RANK_SETUP, Notice(SetupKey(View()), "Connection requires setup"));
        }
      }
      assert fields[..|fields|] == fields;
      return true;
    }
  }

  lemma {:induction false} AnalysisFailureSticks(c: Candidate, phase: Phase, fields: seq<Field>, source: set<string>, i: nat)
    requires i <= |fields| && AnalyzeFields(c, phase, fields[..i], source) == None
    ensures AnalyzeFields(c, phase, fields, source) == None
    decreases |fields|
  {
    if i < |fields| {
      assert fields[..|fields| - 1][..i] == fields[..i];
      AnalysisFailureSticks(c, phase, fields[..|fields| - 1], source, i);
    } else {
      assert fields[..i] == fields;
    }
  }
}
