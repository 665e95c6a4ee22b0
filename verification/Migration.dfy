/**
 Migrating a connection to another connector version: hook patches and the setup analysis build a candidate, which
 carries at most one ranked notice and the notice keys to resolve.
 */
module Migration {
  import opened Options
  import opened Sequences

  datatype Health = Healthy | Unhealthy

  datatype Value = Value(json: string)

  datatype Notice = Notice(key: string, title: string)

  /** The part of the connection that hooks read and patch. */
  datatype Content = Content(config: map<string, Value>, labels: map<string, string>, annotations: map<string, string>)

  datatype Candidate = Candidate(connection: string, content: Content, setupStep: Option<string>, health: Health,
                                 notices: seq<Notice>, noticeKeys: seq<string>, unsetKeys: seq<string>, rank: nat)

  const RANK_INFO := 1
  const RANK_WARNING := 2
  const RANK_ERROR := 3
  const RANK_SETUP := 4
  const RANK_AUTH := 5

  // ---------------------------------------------------------------------------------------------
  // Notice keys
  // ---------------------------------------------------------------------------------------------

  const AUTH_REQUIRED := "auth_required"
  const SETUP_REQUIRED := "setup_required"
  const CONNECTOR_NOTICE := "connector_notice:"

  function NoticeKey(connection: string, part: string): string {
    "connection:" + connection + ":" + part
  }

  function AuthKey(c: Candidate): string {
    NoticeKey(c.connection, AUTH_REQUIRED)
  }

  function SetupKey(c: Candidate): string {
    NoticeKey(c.connection, SETUP_REQUIRED)
  }

  function ConnectorKey(connection: string, key: string): string {
    NoticeKey(connection, CONNECTOR_NOTICE + key)
  }

  lemma NoticeKeyInjective(connection: string, a: string, b: string)
    ensures NoticeKey(connection, a) == NoticeKey(connection, b) <==> a == b
  {
    var prefix := "connection:" + connection + ":";
    assert NoticeKey(connection, a)[|prefix|..] == a && NoticeKey(connection, b)[|prefix|..] == b;
  }

  /** Connector-authored notices never collide with the built-in ones, nor those with each other. */
  lemma BuiltInKeysApart(connection: string, key: string)
    ensures NoticeKey(connection, AUTH_REQUIRED) != NoticeKey(connection, SETUP_REQUIRED)
    ensures ConnectorKey(connection, key) != NoticeKey(connection, AUTH_REQUIRED)
    ensures ConnectorKey(connection, key) != NoticeKey(connection, SETUP_REQUIRED)
  {
    assert AUTH_REQUIRED[0] == 'a' && SETUP_REQUIRED[0] == 's' && (CONNECTOR_NOTICE + key)[0] == 'c';
    NoticeKeyInjective(connection, AUTH_REQUIRED, SETUP_REQUIRED);
    NoticeKeyInjective(connection, CONNECTOR_NOTICE + key, AUTH_REQUIRED);
    NoticeKeyInjective(connection, CONNECTOR_NOTICE + key, SETUP_REQUIRED);
  }

  // ---------------------------------------------------------------------------------------------
  // Key lists
  // ---------------------------------------------------------------------------------------------

  function Remove(keys: seq<string>, key: string): seq<string> {
    if keys == [] then []
    else
      var init := Remove(keys[..|keys| - 1], key);
      if keys[|keys| - 1] == key then init else init + [keys[|keys| - 1]]
  }

  lemma {:induction false} RemoveRemoves(keys: seq<string>, key: string)
    ensures forall k :: k in Remove(keys, key) <==> k in keys && k != key
    ensures NoDuplicates(keys) ==> NoDuplicates(Remove(keys, key))
    decreases |keys|
  {
    if keys != [] {
      var init, last := keys[..|keys| - 1], keys[|keys| - 1];
      RemoveRemoves(init, key);
      assert keys == init + [last];
      assert NoDuplicates(keys) ==> NoDuplicates(init) && last !in init;
    }
  }

  lemma RemoveOnly(key: string)
    ensures Remove([key], key) == []
  {
    assert [key][..0] == [];
  }

  /** The source compacts the slice in place and returns its shortened prefix. */
  method RemoveInPlace(keys: array<string>, n: nat, key: string) returns (m: nat)
    requires n <= keys.Length
    modifies keys
    ensures m <= n && keys[..m] == Remove(old(keys[..n]), key)
  {
    m := 0;
    for i := 0 to n
      invariant m <= i && keys[..m] == Remove(old(keys[..i]), key)
      invariant forall k :: i <= k < n ==> keys[k] == old(keys[k])
    {
      assert old(keys[..i + 1])[..i] == old(keys[..i]);
      if keys[i] != key {
        keys[m] := keys[i];
        m := m + 1;
      }
    }
  }

  function AppendUnique(keys: seq<string>, key: string): seq<string> {
    if key in keys then keys else keys + [key]
  }

  // ---------------------------------------------------------------------------------------------
  // The one-slot notice
  // ---------------------------------------------------------------------------------------------

  /** A notice replaces the queued one only when it outranks it. */
  function SetNotice(c: Candidate, rank: nat, n: Notice): Candidate {
    if rank <= c.rank then c
    else c.(rank := rank, notices := [n], noticeKeys := [n.key], unsetKeys := Remove(c.unsetKeys, n.key))
  }

  function DropNotice(c: Candidate, key: string): Candidate {
    if |c.notices| == 1 && c.notices[0].key == key
    then c.(notices := [], noticeKeys := Remove(c.noticeKeys, key), rank := 0)
    else c
  }

  function UnsetNotice(c: Candidate, key: string): Candidate {
    DropNotice(c.(unsetKeys := AppendUnique(c.unsetKeys, key)), key)
  }

  function AddAuthRequired(c: Candidate): Candidate {
    SetNotice(c, RANK_AUTH, Notice(AuthKey(c), "Connection requires re-authentication"))
  }

  function AddSetupRequired(c: Candidate): Candidate {
    SetNotice(c, RANK_SETUP, Notice(SetupKey(c), "Connection requires setup"))
  }

  function RefreshSucceeded(c: Candidate): Candidate {
    DropNotice(c.(health := Healthy), AuthKey(c))
  }

  function RefreshFailed(c: Candidate): Candidate {
    AddAuthRequired(c.(health := Unhealthy))
  }

  /** The connector's unsets plus the built-in notices that are not queued again. */
  function KeysToResolve(c: Candidate): seq<string> {
    var keys := if AuthKey(c) in c.noticeKeys then c.unsetKeys else AppendUnique(c.unsetKeys, AuthKey(c));
    if SetupKey(c) in c.noticeKeys then keys else AppendUnique(keys, SetupKey(c))
  }

  datatype NoticeOp =
    | ConnectorSet(rank: nat, n: Notice)
    | ConnectorUnset(key: string)
    | NeedsAuth
    | NeedsSetup
    | RefreshedOk
    | RefreshedBadly

  function ApplyOp(c: Candidate, op: NoticeOp): Candidate {
    match op
    case ConnectorSet(rank, n) => SetNotice(c, rank, n)
    case ConnectorUnset(key) => UnsetNotice(c, key)
    case NeedsAuth => AddAuthRequired(c)
    case NeedsSetup => AddSetupRequired(c)
    case RefreshedOk => RefreshSucceeded(c)
    case RefreshedBadly => RefreshFailed(c)
  }

  function ApplyOps(c: Candidate, ops: seq<NoticeOp>): Candidate {
    if ops == [] then c else ApplyOp(ApplyOps(c, ops[..|ops| - 1]), ops[|ops| - 1])
  }

  /** One slot: at most one notice, ranked exactly when present, and never also queued for resolution. */
  ghost predicate SlotOk(c: Candidate) {
    && |c.notices| <= 1 && (c.rank == 0 <==> c.notices == [])
    && c.noticeKeys == (if c.notices == [] then [] else [c.notices[0].key])
    && NoDuplicates(c.unsetKeys)
    && (c.notices != [] ==> c.notices[0].key !in c.unsetKeys)
  }

  lemma OpKeepsSlot(c: Candidate, op: NoticeOp)
    requires SlotOk(c)
    ensures SlotOk(ApplyOp(c, op)) && ApplyOp(c, op).connection == c.connection
  {
    match op
    case ConnectorSet(_, n) => RemoveRemoves(c.unsetKeys, n.key);
    case ConnectorUnset(key) => RemoveOnly(key);
    case NeedsAuth => RemoveRemoves(c.unsetKeys, AuthKey(c));
    case NeedsSetup => RemoveRemoves(c.unsetKeys, SetupKey(c));
    case RefreshedOk => RemoveOnly(AuthKey(c));
    case RefreshedBadly => RemoveRemoves(c.unsetKeys, AuthKey(c));
  }

  /** Through any sequence of sets, unsets and refresh results the slot stays consistent. */
  lemma {:induction false} OpsKeepSlot(c: Candidate, ops: seq<NoticeOp>)
    requires SlotOk(c)
    ensures SlotOk(ApplyOps(c, ops)) && ApplyOps(c, ops).connection == c.connection
    decreases |ops|
  {
    if ops != [] {
      OpsKeepSlot(c, ops[..|ops| - 1]);
      OpKeepsSlot(ApplyOps(c, ops[..|ops| - 1]), ops[|ops| - 1]);
    }
  }

  /** The keys to resolve are distinct, spare the queued notice and cover every built-in key not queued. */
  lemma KeysToResolveExact(c: Candidate)
    requires SlotOk(c)
    ensures NoDuplicates(KeysToResolve(c))
    ensures forall n :: n in c.notices ==> n.key !in KeysToResolve(c)
    ensures forall k :: k in KeysToResolve(c) <==>
              k in c.unsetKeys || (k in {AuthKey(c), SetupKey(c)} && forall n :: n in c.notices ==> n.key != k)
  {
    BuiltInKeysApart(c.connection, "");
    assert forall n :: n in c.notices <==> c.notices != [] && n == c.notices[0];
  }

  /** Resolve, then upsert: what the activity does to the set of active notice keys. */
  function ActiveAfter(c: Candidate, active: set<string>): set<string> {
    (active - set k | k in KeysToResolve(c)) + set n | n in c.notices :: n.key
  }

  /** After any such sequence, a built-in notice is active exactly when it is the queued one. */
  lemma BuiltInActiveIffQueued(c: Candidate, ops: seq<NoticeOp>, active: set<string>)
    requires SlotOk(c)
    ensures var end := ApplyOps(c, ops);
            forall k :: k in {AuthKey(c), SetupKey(c)} ==>
              (k in ActiveAfter(end, active) <==> exists n :: n in end.notices && n.key == k)
  {
    OpsKeepSlot(c, ops);
    KeysToResolveExact(ApplyOps(c, ops));
  }

  // ---------------------------------------------------------------------------------------------
  // Hook patches
  // ---------------------------------------------------------------------------------------------

  datatype NoticeDef = NoticeDef(key: string, level: string, title: string, message: string)

  datatype Patch = Patch(configSet: map<string, Value>, configUnset: seq<string>,
                         labelsSet: map<string, string>, labelsUnset: seq<string>,
                         annotationsSet: map<string, string>, annotationsUnset: seq<string>,
                         noticesSet: seq<NoticeDef>, noticesUnset: seq<string>)

  /** The validators of the database layer. */
  datatype Rules = Rules(labelKey: string -> bool, labelValue: string -> bool, annotationKey: string -> bool)

  function LevelRank(level: string): Option<nat> {
    if level == "" || level == "info" then Some(RANK_INFO)
    else if level == "warning" then Some(RANK_WARNING)
    else if level == "error" then Some(RANK_ERROR)
    else None
  }

  predicate DefValid(d: NoticeDef) {
    d.title != "" && d.message != "" && LevelRank(d.level).Some? && d.key != ""
  }

  predicate PatchValid(rules: Rules, p: Patch) {
    && (forall k :: k in p.labelsSet ==> rules.labelKey(k) && rules.labelValue(p.labelsSet[k]))
    && (forall k :: k in p.labelsUnset ==> rules.labelKey(k))
    && (forall k :: k in p.annotationsSet ==> rules.annotationKey(k))
    && (forall k :: k in p.annotationsUnset ==> rules.annotationKey(k))
    && (forall d :: d in p.noticesSet ==> DefValid(d))
    && (forall k :: k in p.noticesUnset ==> k != "")
  }

  function PatchMap<V>(m: map<string, V>, put: map<string, V>, unset: seq<string>): map<string, V> {
    (m + put) - set k | k in unset
  }

  function PatchContent(c: Content, p: Patch): Content {
    Content(PatchMap(c.config, p.configSet, p.configUnset), PatchMap(c.labels, p.labelsSet, p.labelsUnset),
            PatchMap(c.annotations, p.annotationsSet, p.annotationsUnset))
  }

  function SetDefs(c: Candidate, defs: seq<NoticeDef>): Candidate
    requires forall d :: d in defs ==> DefValid(d)
  {
    if defs == [] then c
    else
      var d := defs[|defs| - 1];
      assert d in defs && DefValid(d) && forall x :: x in defs[..|defs| - 1] ==> x in defs;
      SetNotice(SetDefs(c, defs[..|defs| - 1]), LevelRank(d.level).value, Notice(ConnectorKey(c.connection, d.key), d.title))
  }

  function UnsetDefs(c: Candidate, keys: seq<string>): Candidate {
    if keys == [] then c
    else UnsetNotice(UnsetDefs(c, keys[..|keys| - 1]), ConnectorKey(c.connection, keys[|keys| - 1]))
  }

  /** None when a key, value or notice of the patch is refused. */
  function ApplyPatch(rules: Rules, c: Candidate, p: Patch): Option<Candidate> {
    if !PatchValid(rules, p) then None
    else Some(UnsetDefs(SetDefs(c.(content := PatchContent(c.content, p)), p.noticesSet), p.noticesUnset))
  }

  /** A hook sees the content only; None is a JavaScript or decoding error. */
  datatype Hook = NoHook | Hook(eval: Content -> Option<Patch>)

  function RunHook(rules: Rules, h: Hook, c: Candidate): Option<Candidate> {
    match h
    case NoHook => Some(c)
    case Hook(eval) =>
      match eval(c.content)
      case None => None
      case Some(p) => ApplyPatch(rules, c, p)
  }

  function RunHooks(rules: Rules, hooks: seq<Hook>, c: Candidate): Option<Candidate> {
    if hooks == [] then Some(c)
    else match RunHook(rules, hooks[0], c)
      case None => None
      case Some(c') => RunHooks(rules, hooks[1..], c')
  }

  // ---------------------------------------------------------------------------------------------
  // Setup analysis
  // ---------------------------------------------------------------------------------------------

  datatype Phase = Preconnect | Configure

  datatype Field = Field(name: string, stepId: string, required: bool, fallback: Option<Value>)

  function AnalyzeField(c: Candidate, phase: Phase, f: Field, source: set<string>): Option<Candidate> {
    if f.name in source || f.name in c.content.config then Some(c)
    else if f.fallback.Some? then
      Some(c.(content := c.content.(config := c.content.config[f.name := f.fallback.value])))
    else if !f.required then Some(c)
    else if phase == Preconnect then Some(AddAuthRequired(c.(health := Unhealthy)))
    else if c.setupStep.Some? then Some(AddSetupRequired(c))
    else if f.stepId == "" then None
    else Some(AddSetupRequired(c.(setupStep := Some(f.stepId))))
  }

  function AnalyzeFields(c: Candidate, phase: Phase, fields: seq<Field>, source: set<string>): Option<Candidate> {
    if fields == [] then Some(c)
    else match AnalyzeFields(c, phase, fields[..|fields| - 1], source)
      case None => None
      case Some(c') => AnalyzeField(c', phase, fields[|fields| - 1], source)
  }

  function RequiredAction(c: Candidate): Candidate {
    if c.health == Unhealthy then AddAuthRequired(c)
    else if c.setupStep.Some? then AddSetupRequired(c)
    else c
  }

  /** What the target version asks for. */
  datatype Target = Target(preconnect: seq<Field>, configure: seq<Field>)

  function Analyze(c: Candidate, target: Target, source: set<string>): Option<Candidate> {
    match AnalyzeFields(c, Preconnect, target.preconnect, source)
    case None => None
    case Some(c') =>
      match AnalyzeFields(c', Configure, target.configure, source)
      case None => None
      case Some(c'') => Some(RequiredAction(c''))
  }

  function Build(rules: Rules, hooks: seq<Hook>, c: Candidate, target: Target, source: set<string>): Option<Candidate> {
    match RunHooks(rules, hooks, c)
    case None => None
    case Some(c') => Analyze(c', target, source)
  }

  /** The candidate as it is when the build starts: nothing queued. */
  predicate Fresh(c: Candidate) {
    c.notices == [] && c.noticeKeys == [] && c.unsetKeys == [] && c.rank == 0
  }

  // ---------------------------------------------------------------------------------------------
  // Classification of the built candidate
  // ---------------------------------------------------------------------------------------------

  predicate Queued(c: Candidate, key: string) {
    |c.notices| == 1 && c.notices[0].key == key
  }

  predicate ConnectorNotice(c: Candidate, n: Notice) {
    NoticeKey(c.connection, CONNECTOR_NOTICE) <= n.key
  }

  /** Rank and kind of the queued notice agree, and a built-in notice is backed by the state that calls for it. */
  ghost predicate Backed(c: Candidate) {
    && SlotOk(c)
    && (c.notices != [] ==>
          match c.rank
          case 5 => c.notices[0].key == AuthKey(c) && c.health == Unhealthy
          case 4 => c.notices[0].key == SetupKey(c) && c.setupStep.Some?
          case _ => c.rank < 4 && ConnectorNotice(c, c.notices[0]))
  }

  /** Only connector notices so far. */
  ghost predicate ConnectorOnly(c: Candidate) {
    SlotOk(c) && c.rank < RANK_SETUP && (c.notices != [] ==> ConnectorNotice(c, c.notices[0]))
  }

  lemma ConnectorKeyPrefix(connection: string, key: string)
    ensures NoticeKey(connection, CONNECTOR_NOTICE) <= ConnectorKey(connection, key)
  {
    assert ConnectorKey(connection, key) == NoticeKey(connection, CONNECTOR_NOTICE) + key;
  }

  lemma {:induction false} SetDefsConnectorOnly(c: Candidate, defs: seq<NoticeDef>)
    requires ConnectorOnly(c) && forall d :: d in defs ==> DefValid(d)
    ensures ConnectorOnly(SetDefs(c, defs)) && SameExceptNotices(c, SetDefs(c, defs))
    decreases |defs|
  {
    if defs != [] {
      var init, d := defs[..|defs| - 1], defs[|defs| - 1];
      assert d in defs && forall x :: x in init ==> x in defs;
      SetDefsConnectorOnly(c, init);
      ConnectorKeyPrefix(c.connection, d.key);
      OpKeepsSlot(SetDefs(c, init), ConnectorSet(LevelRank(d.level).value, Notice(ConnectorKey(c.connection, d.key), d.title)));
    }
  }

  lemma {:induction false} UnsetDefsConnectorOnly(c: Candidate, keys: seq<string>)
    requires ConnectorOnly(c)
    ensures ConnectorOnly(UnsetDefs(c, keys)) && SameExceptNotices(c, UnsetDefs(c, keys))
    decreases |keys|
  {
    if keys != [] {
      var init, key := keys[..|keys| - 1], keys[|keys| - 1];
      UnsetDefsConnectorOnly(c, init);
      OpKeepsSlot(UnsetDefs(c, init), ConnectorUnset(ConnectorKey(c.connection, key)));
    }
  }

  predicate SameExceptNotices(c: Candidate, d: Candidate) {
    d.connection == c.connection && d.content == c.content && d.setupStep == c.setupStep && d.health == c.health
  }

  /** Patches touch content and connector notices only. */
  lemma PatchConnectorOnly(rules: Rules, c: Candidate, p: Patch)
    requires ConnectorOnly(c) && PatchValid(rules, p)
    ensures var d := ApplyPatch(rules, c, p).value;
            ConnectorOnly(d) && SameExceptNotices(c.(content := PatchContent(c.content, p)), d)
  {
    var c' := c.(content := PatchContent(c.content, p));
    SetDefsConnectorOnly(c', p.noticesSet);
    UnsetDefsConnectorOnly(SetDefs(c', p.noticesSet), p.noticesUnset);
  }

  lemma {:induction false} HooksConnectorOnly(rules: Rules, hooks: seq<Hook>, c: Candidate)
    requires ConnectorOnly(c) && RunHooks(rules, hooks, c).Some?
    ensures var d := RunHooks(rules, hooks, c).value;
            ConnectorOnly(d) && d.connection == c.connection && d.setupStep == c.setupStep && d.health == c.health
    decreases |hooks|
  {
    if hooks != [] {
      if hooks[0].Hook? {
        PatchConnectorOnly(rules, c, hooks[0].eval(c.content).value);
      }
      HooksConnectorOnly(rules, hooks[1..], RunHook(rules, hooks[0], c).value);
    }
  }

  lemma AddedNoticesBacked(c: Candidate)
    requires Backed(c)
    ensures c.health == Unhealthy ==> Backed(AddAuthRequired(c)) && AddAuthRequired(c).rank == RANK_AUTH
    ensures c.setupStep.Some? ==> Backed(AddSetupRequired(c)) && AddSetupRequired(c).rank >= RANK_SETUP
  {
    OpKeepsSlot(c, NeedsAuth);
    OpKeepsSlot(c, NeedsSetup);
  }

  lemma AnalyzeFieldBacked(c: Candidate, phase: Phase, f: Field, source: set<string>)
    requires Backed(c) && AnalyzeField(c, phase, f, source).Some?
    ensures Backed(AnalyzeField(c, phase, f, source).value)
  {
    if f.name !in source && f.name !in c.content.config && f.fallback.None? && f.required {
      if phase == Preconnect {
        AddedNoticesBacked(c.(health := Unhealthy));
      } else if c.setupStep.Some? {
        AddedNoticesBacked(c);
      } else {
        AddedNoticesBacked(c.(setupStep := Some(f.stepId)));
      }
    }
  }

  lemma {:induction false} AnalyzeFieldsBacked(c: Candidate, phase: Phase, fields: seq<Field>, source: set<string>)
    requires Backed(c) && AnalyzeFields(c, phase, fields, source).Some?
    ensures Backed(AnalyzeFields(c, phase, fields, source).value)
    decreases |fields|
  {
    if fields != [] {
      AnalyzeFieldsBacked(c, phase, fields[..|fields| - 1], source);
      AnalyzeFieldBacked(AnalyzeFields(c, phase, fields[..|fields| - 1], source).value, phase, fields[|fields| - 1], source);
    }
  }

  /** The queued notice says what the connection needs: auth first, then setup, else at most a connector notice. */
  ghost predicate Classified(c: Candidate) {
    && (Queued(c, AuthKey(c)) <==> c.health == Unhealthy)
    && (Queued(c, SetupKey(c)) <==> c.health == Healthy && c.setupStep.Some?)
    && (c.health == Healthy && c.setupStep.None? ==>
          c.notices == [] || (|c.notices| == 1 && ConnectorNotice(c, c.notices[0])))
  }

  lemma ConnectorNoticeNotBuiltIn(c: Candidate, n: Notice)
    requires ConnectorNotice(c, n)
    ensures n.key != AuthKey(c) && n.key != SetupKey(c)
  {
    var p := NoticeKey(c.connection, CONNECTOR_NOTICE);
    var key := n.key[|p|..];
    assert n.key == p + key == ConnectorKey(c.connection, key);
    BuiltInKeysApart(c.connection, key);
  }

  lemma RequiredActionClassifies(c: Candidate)
    requires Backed(c)
    ensures Backed(RequiredAction(c)) && Classified(RequiredAction(c))
  {
    AddedNoticesBacked(c);
    BuiltInKeysApart(c.connection, "");
    var d := RequiredAction(c);
    if d.notices != [] && d.rank < RANK_SETUP {
      ConnectorNoticeNotBuiltIn(d, d.notices[0]);
    }
  }

  /** For every hook sequence and target: auth_required iff unhealthy, setup_required iff healthy with a setup step. */
  lemma BuiltCandidateClassified(rules: Rules, hooks: seq<Hook>, c: Candidate, target: Target, source: set<string>)
    requires Fresh(c) && Build(rules, hooks, c, target, source).Some?
    ensures var d := Build(rules, hooks, c, target, source).value; Classified(d) && Backed(d)
  {
    HooksConnectorOnly(rules, hooks, c);
    var c1 := RunHooks(rules, hooks, c).value;
    AnalyzeFieldsBacked(c1, Preconnect, target.preconnect, source);
    var c2 := AnalyzeFields(c1, Preconnect, target.preconnect, source).value;
    AnalyzeFieldsBacked(c2, Configure, target.configure, source);
    RequiredActionClassifies(AnalyzeFields(c2, Configure, target.configure, source).value);
  }

  /** A successful refresh keeps the classification unless a setup notice was waiting behind the auth notice. */
  lemma RefreshClassifiedIff(c: Candidate)
    requires Classified(c) && Backed(c)
    ensures Classified(RefreshSucceeded(c)) <==> !(c.health == Unhealthy && c.setupStep.Some?)
  {
    BuiltInKeysApart(c.connection, "");
    RemoveOnly(AuthKey(c));
  }

  lemma OneField(c: Candidate, phase: Phase, f: Field)
    ensures AnalyzeFields(c, phase, [f], {}) == AnalyzeField(c, phase, f, {})
  {
    assert [f][..|[f]| - 1] == [];
    assert AnalyzeFields(c, phase, [], {}) == Some(c);
  }

  /** A build can end unhealthy with a setup step, and then a successful refresh leaves the step without its notice. */
  lemma RefreshDropsSetupNotice(rules: Rules, connection: string, content: Content) returns (target: Target, d: Candidate)
    requires content.config == map[]
    ensures Build(rules, [], Candidate(connection, content, None, Healthy, [], [], [], 0), target, {}) == Some(d)
    ensures d.health == Unhealthy && d.setupStep.Some? && !Classified(RefreshSucceeded(d))
  {
    var c := Candidate(connection, content, None, Healthy, [], [], [], 0);
    var a, b := Field("a", "", true, None), Field("b", "step", true, None);
    target := Target([a], [b]);
    OneField(c, Preconnect, a);
    var c1 := AnalyzeField(c, Preconnect, a, {}).value;
    assert c1.health == Unhealthy && c1.content == content && c1.setupStep.None?;
    OneField(c1, Configure, b);
    assert b.stepId != "";
    var c2 := AnalyzeField(c1, Configure, b, {}).value;
    assert c2.health == Unhealthy && c2.setupStep == Some("step");
    d := RequiredAction(c2);
    BuiltCandidateClassified(rules, [], c, target, {});
    RefreshClassifiedIff(d);
  }

  // ---------------------------------------------------------------------------------------------
  // What the setup analysis leaves behind
  // ---------------------------------------------------------------------------------------------

  /** The target field is settled one way or another. */
  ghost predicate Settled(c: Candidate, phase: Phase, f: Field, source: set<string>) {
    || f.name in source
    || f.name in c.content.config
    || (!f.required && f.fallback.None?)
    || (if phase == Preconnect then c.health == Unhealthy else c.setupStep.Some?)
  }

  /** No entry is overwritten, health only worsens and a setup step is never replaced. */
  ghost predicate Extends(c: Candidate, d: Candidate) {
    && (forall k :: k in c.content.config ==> k in d.content.config && d.content.config[k] == c.content.config[k])
    && d.content.labels == c.content.labels && d.content.annotations == c.content.annotations
    && (c.health == Unhealthy ==> d.health == Unhealthy)
    && (c.setupStep.Some? ==> d.setupStep == c.setupStep)
  }

  lemma FieldSettles(c: Candidate, phase: Phase, f: Field, source: set<string>)
    requires AnalyzeField(c, phase, f, source).Some?
    ensures var d := AnalyzeField(c, phase, f, source).value;
            && Extends(c, d) && Settled(d, phase, f, source)
            && (phase == Preconnect ==> d.setupStep == c.setupStep)
            && (phase == Configure ==> d.health == c.health)
  {
  }

  lemma SettledStays(c: Candidate, d: Candidate, phase: Phase, f: Field, source: set<string>)
    requires Extends(c, d) && Settled(c, phase, f, source)
    ensures Settled(d, phase, f, source)
  {
  }

  lemma ExtendsTransitive(a: Candidate, b: Candidate, c: Candidate)
    requires Extends(a, b) && Extends(b, c)
    ensures Extends(a, c)
  {
  }

  ghost predicate AllSettled(c: Candidate, phase: Phase, fields: seq<Field>, source: set<string>) {
    forall f :: f in fields ==> Settled(c, phase, f, source)
  }

  lemma {:induction false} AnalysisSettlesFields(c: Candidate, phase: Phase, fields: seq<Field>, source: set<string>)
    requires AnalyzeFields(c, phase, fields, source).Some?
    ensures var d := AnalyzeFields(c, phase, fields, source).value;
            && Extends(c, d) && AllSettled(d, phase, fields, source)
            && (phase == Preconnect ==> d.setupStep == c.setupStep)
            && (phase == Configure ==> d.health == c.health)
    decreases |fields|
  {
    if fields != [] {
      var init, f := fields[..|fields| - 1], fields[|fields| - 1];
      AnalysisSettlesFields(c, phase, init, source);
      var mid := AnalyzeFields(c, phase, init, source).value;
      FieldSettles(mid, phase, f, source);
      var d := AnalyzeField(mid, phase, f, source).value;
      ExtendsTransitive(c, mid, d);
      assert fields == init + [f];
      forall g | g in fields ensures Settled(d, phase, g, source) {
        if g in init {
          SettledStays(mid, d, phase, g, source);
        }
      }
    }
  }

  /** Both phases and the required-action notice together: every target field is settled and nothing is overwritten. */
  lemma AnalyzeSettlesAll(c: Candidate, target: Target, source: set<string>)
    requires Analyze(c, target, source).Some?
    ensures var d := Analyze(c, target, source).value;
            && Extends(c, d)
            && AllSettled(d, Preconnect, target.preconnect, source) && AllSettled(d, Configure, target.configure, source)
  {
    AnalysisSettlesFields(c, Preconnect, target.preconnect, source);
    var mid := AnalyzeFields(c, Preconnect, target.preconnect, source).value;
    AnalysisSettlesFields(mid, Configure, target.configure, source);
    var end := AnalyzeFields(mid, Configure, target.configure, source).value;
    ExtendsTransitive(c, mid, end);
    var d := RequiredAction(end);
    forall f | f in target.preconnect ensures Settled(d, Preconnect, f, source) {
      SettledStays(mid, d, Preconnect, f, source);
    }
    forall f | f in target.configure ensures Settled(d, Configure, f, source) {
      SettledStays(end, d, Configure, f, source);
    }
  }

  /** A required configure field that nothing provides: not a source field, no value, no default of its own or earlier. */
  ghost predicate Missing(config: map<string, Value>, fields: seq<Field>, source: set<string>, i: nat)
    requires i < |fields|
  {
    && fields[i].name !in source && fields[i].name !in config && fields[i].fallback.None? && fields[i].required
    && forall j :: 0 <= j < i ==> !(fields[j].name == fields[i].name && fields[j].fallback.Some?)
  }

  /** New config entries are defaults of the analysed fields. */
  lemma {:induction false} AddedEntriesAreDefaults(c: Candidate, phase: Phase, fields: seq<Field>, source: set<string>, k: string)
    requires AnalyzeFields(c, phase, fields, source).Some?
    ensures var d := AnalyzeFields(c, phase, fields, source).value;
            k in d.content.config && k !in c.content.config <==>
              k !in source && k !in c.content.config && exists j :: 0 <= j < |fields| && fields[j].name == k && fields[j].fallback.Some?
    decreases |fields|
  {
    if fields != [] {
      AddedEntriesAreDefaults(c, phase, fields[..|fields| - 1], source, k);
    }
  }

  /** Field j is the first with this name that has a default. */
  ghost predicate FirstDefault(fields: seq<Field>, k: string, j: nat)
    requires j < |fields|
  {
    && fields[j].name == k && fields[j].fallback.Some?
    && forall i :: 0 <= i < j ==> !(fields[i].name == k && fields[i].fallback.Some?)
  }

  /** The value of a new entry is the default of the first field that offers one. */
  lemma {:induction false} AddedValueIsFirstDefault(c: Candidate, phase: Phase, fields: seq<Field>, source: set<string>, k: string) returns (j: nat)
    requires AnalyzeFields(c, phase, fields, source).Some? && k !in c.content.config
    requires k in AnalyzeFields(c, phase, fields, source).value.content.config
    ensures j < |fields| && FirstDefault(fields, k, j)
    ensures AnalyzeFields(c, phase, fields, source).value.content.config[k] == fields[j].fallback.value
    decreases |fields|
  {
    var n := |fields| - 1;
    var mid := AnalyzeFields(c, phase, fields[..n], source).value;
    if k in mid.content.config {
      j := AddedValueIsFirstDefault(c, phase, fields[..n], source, k);
    } else {
      AddedEntriesAreDefaults(c, phase, fields[..n], source, k);
      AddedEntriesAreDefaults(c, phase, fields, source, k);
      j := n;
    }
  }

  ghost predicate NoneMissing(config: map<string, Value>, fields: seq<Field>, source: set<string>, n: nat)
    requires n <= |fields|
  {
    forall i :: 0 <= i < n ==> !Missing(config, fields, source, i)
  }

  lemma MissingInPrefix(config: map<string, Value>, fields: seq<Field>, source: set<string>, n: nat, i: nat)
    requires i < n <= |fields|
    ensures Missing(config, fields, source, i) <==> Missing(config, fields[..n], source, i)
  {
  }

  lemma NoneMissingInPrefix(config: map<string, Value>, fields: seq<Field>, source: set<string>, n: nat, i: nat)
    requires i <= n <= |fields|
    ensures NoneMissing(config, fields, source, i) <==> NoneMissing(config, fields[..n], source, i)
  {
    forall j | 0 <= j < i ensures Missing(config, fields, source, j) <==> Missing(config, fields[..n], source, j) {
      MissingInPrefix(config, fields, source, n, j);
    }
  }

  /** The last field is missing exactly when its own turn finds nothing for it. */
  lemma LastMissing(c: Candidate, fields: seq<Field>, source: set<string>)
    requires fields != [] && AnalyzeFields(c, Configure, fields[..|fields| - 1], source).Some?
    ensures var n := |fields| - 1;
            var f, mid := fields[n], AnalyzeFields(c, Configure, fields[..n], source).value;
            Missing(c.content.config, fields, source, n) <==>
              f.name !in source && f.name !in mid.content.config && f.fallback.None? && f.required
  {
    var n := |fields| - 1;
    AddedEntriesAreDefaults(c, Configure, fields[..n], source, fields[n].name);
    AnalysisSettlesFields(c, Configure, fields[..n], source);
  }

  /** An empty setup step becomes that of the first missing configure field, and stays empty when none is missing. */
  lemma {:induction false} SetupStepIsFirstMissing(c: Candidate, fields: seq<Field>, source: set<string>)
    requires AnalyzeFields(c, Configure, fields, source).Some? && c.setupStep.None?
    ensures var d, config := AnalyzeFields(c, Configure, fields, source).value, c.content.config;
            && (d.setupStep.None? <==> NoneMissing(config, fields, source, |fields|))
            && (forall i :: 0 <= i < |fields| && Missing(config, fields, source, i) && NoneMissing(config, fields, source, i)
                  ==> d.setupStep == Some(fields[i].stepId))
    decreases |fields|
  {
    if fields != [] {
      var n, config := |fields| - 1, c.content.config;
      SetupStepIsFirstMissing(c, fields[..n], source);
      LastMissing(c, fields, source);
      NoneMissingInPrefix(config, fields, source, n, n);
      assert NoneMissing(config, fields, source, n + 1) <==>
             NoneMissing(config, fields, source, n) && !Missing(config, fields, source, n);
      forall i | 0 <= i < n && Missing(config, fields, source, i) && NoneMissing(config, fields, source, i)
        ensures AnalyzeFields(c, Configure, fields[..n], source).value.setupStep == Some(fields[i].stepId)
      {
        MissingInPrefix(config, fields, source, n, i);
        NoneMissingInPrefix(config, fields, source, n, i);
      }
    }
  }
}
