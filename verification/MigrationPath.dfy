/** The ordered versions a migration passes through, and going up and back down along them. */
module MigrationPath {
  import opened Options
  import opened Migration

  const MAX_VERSION: nat := 0xFFFF_FFFF_FFFF_FFFF

  datatype VersionDef = VersionDef(up: Hook, down: Hook)

  /** Versions entered on the way up from a to b. */
  function UpPath(a: nat, b: nat): seq<nat>
    requires a <= b
  {
    seq(b - a, i => a + 1 + i)
  }

  /** Versions left on the way down from b to a. */
  function DownPath(b: nat, a: nat): seq<nat>
    requires a <= b
  {
    seq(b - a, i requires 0 <= i < b - a => b - i)
  }

  function Reverse<T>(xs: seq<T>): seq<T> {
    if xs == [] then [] else Reverse(xs[1..]) + [xs[0]]
  }

  lemma {:induction false} ReverseAt<T>(xs: seq<T>)
    ensures |Reverse(xs)| == |xs| && forall i :: 0 <= i < |xs| ==> Reverse(xs)[i] == xs[|xs| - 1 - i]
    decreases |xs|
  {
    if xs != [] {
      ReverseAt(xs[1..]);
    }
  }

  /** The way down is the way up reversed. */
  lemma DownIsUpReversed(a: nat, b: nat)
    requires a <= b
    ensures DownPath(b, a) == Reverse(UpPath(a, b))
  {
    ReverseAt(UpPath(a, b));
  }

  /** Incrementing a 64-bit version wraps. */
  function NextVersion(v: nat): nat {
    if v == MAX_VERSION then 0 else v + 1
  }

  /** Every version of the path exists, and the counter of a way up can go past its target. */
  ghost predicate Walkable(versions: set<nat>, source: nat, target: nat) {
    if target > source then target < MAX_VERSION && forall v :: v in UpPath(source, target) ==> v in versions
    else forall v :: v in DownPath(source, target) ==> v in versions
  }

  /**
   The path, or none when a version on it does not exist. A way up to the largest version wraps to version 0, which is
   never stored, so it ends as if a version were missing.
   */
  method VersionPath(versions: set<nat>, source: nat, target: nat) returns (path: Option<seq<nat>>)
    requires source <= MAX_VERSION && target <= MAX_VERSION && 0 !in versions
    ensures path.Some? <==> Walkable(versions, source, target)
    ensures path.Some? ==> path.value == if target > source then UpPath(source, target) else DownPath(source, target)
  {
    if target > source {
      path := WayUp(versions, source, target);
    } else {
      path := WayDown(versions, source, target);
    }
  }

  method WayUp(versions: set<nat>, source: nat, target: nat) returns (path: Option<seq<nat>>)
    requires source < target <= MAX_VERSION && 0 !in versions
    ensures path.Some? <==> target < MAX_VERSION && forall v :: v in UpPath(source, target) ==> v in versions
    ensures path.Some? ==> path.value == UpPath(source, target)
  {
    var v, out: seq<nat> := source + 1, [];
    while v <= target
      invariant v == 0 ==> target == MAX_VERSION
      invariant v != 0 ==> source < v <= target + 1 && v <= MAX_VERSION
      invariant v != 0 ==> out == UpPath(source, target)[..v - source - 1] && forall w :: w in out ==> w in versions
      decreases if v == 0 then 0 else target + 2 - v
    {
      assert v != 0 ==> UpPath(source, target)[v - source - 1] == v;
      if v !in versions { return None; }
      out := out + [v];
      v := NextVersion(v);
    }
    assert out == UpPath(source, target);
    return Some(out);
  }

  method WayDown(versions: set<nat>, source: nat, target: nat) returns (path: Option<seq<nat>>)
    requires target <= source
    ensures path.Some? <==> forall v :: v in DownPath(source, target) ==> v in versions
    ensures path.Some? ==> path.value == DownPath(source, target)
  {
    var v, out: seq<nat> := source, [];
    while v > target
      invariant target <= v <= source
      invariant out == DownPath(source, target)[..source - v] && forall w :: w in out ==> w in versions
    {
      assert DownPath(source, target)[source - v] == v;
      if v !in versions { return None; }
      out := out + [v];
      v := v - 1;
    }
    assert out == DownPath(source, target);
    return Some(out);
  }

  // ---------------------------------------------------------------------------------------------
  // Up and back down
  // ---------------------------------------------------------------------------------------------

  /** What a hook does to the content alone. */
  function HookContent(rules: Rules, h: Hook, x: Content): Option<Content> {
    match h
    case NoHook => Some(x)
    case Hook(eval) =>
      match eval(x)
      case None => None
      case Some(p) => if PatchValid(rules, p) then Some(PatchContent(x, p)) else None
  }

  function HooksContent(rules: Rules, hooks: seq<Hook>, x: Content): Option<Content> {
    if hooks == [] then Some(x)
    else match HookContent(rules, hooks[0], x)
      case None => None
      case Some(y) => HooksContent(rules, hooks[1..], y)
  }

  /** Notices never influence the content nor whether a hook succeeds. */
  lemma {:induction false} HooksActOnContent(rules: Rules, hooks: seq<Hook>, c: Candidate)
    requires ConnectorOnly(c)
    ensures RunHooks(rules, hooks, c).Some? <==> HooksContent(rules, hooks, c.content).Some?
    ensures RunHooks(rules, hooks, c).Some? ==>
              RunHooks(rules, hooks, c).value.content == HooksContent(rules, hooks, c.content).value
    decreases |hooks|
  {
    if hooks != [] && RunHook(rules, hooks[0], c).Some? {
      if hooks[0].Hook? {
        PatchConnectorOnly(rules, c, hooks[0].eval(c.content).value);
      }
      HooksActOnContent(rules, hooks[1..], RunHook(rules, hooks[0], c).value);
    }
  }

  lemma {:induction false} HooksContentAppend(rules: Rules, hooks: seq<Hook>, h: Hook, x: Content)
    ensures HooksContent(rules, hooks + [h], x) ==
              match HooksContent(rules, hooks, x)
              case None => None
              case Some(y) => HookContent(rules, h, y)
    decreases |hooks|
  {
    if hooks == [] {
      assert ([] + [h])[1..] == [];
    } else {
      assert (hooks + [h])[1..] == hooks[1..] + [h];
      match HookContent(rules, hooks[0], x)
      case None =>
      case Some(y) => HooksContentAppend(rules, hooks[1..], h, y);
    }
  }

  function UpHooks(defs: map<nat, VersionDef>, path: seq<nat>): seq<Hook>
    requires forall v :: v in path ==> v in defs
  {
    seq(|path|, i requires 0 <= i < |path| => defs[path[i]].up)
  }

  function DownHooks(defs: map<nat, VersionDef>, path: seq<nat>): seq<Hook>
    requires forall v :: v in path ==> v in defs
  {
    seq(|path|, i requires 0 <= i < |path| => defs[path[i]].down)
  }

  /** Whatever the up hook does to the content, the down hook takes back. */
  ghost predicate Undoes(rules: Rules, up: Hook, down: Hook) {
    forall x, y :: HookContent(rules, up, x) == Some(y) ==> HookContent(rules, down, y) == Some(x)
  }

  /** Each up hook is undone by the down hook as far from the end as it is from the start. */
  ghost predicate UndoneInReverse(rules: Rules, ups: seq<Hook>, downs: seq<Hook>) {
    |ups| == |downs| && forall i :: 0 <= i < |ups| ==> Undoes(rules, ups[i], downs[|ups| - 1 - i])
  }

  lemma LastUpFirstDown(rules: Rules, before: seq<Hook>, up: Hook, down: Hook, x: Content, y: Content) returns (mid: Content)
    requires HooksContent(rules, before + [up], x) == Some(y) && Undoes(rules, up, down)
    ensures HooksContent(rules, before, x) == Some(mid) && HookContent(rules, down, y) == Some(mid)
  {
    HooksContentAppend(rules, before, up, x);
    mid := HooksContent(rules, before, x).value;
    assert HookContent(rules, up, mid) == Some(y);
  }

  lemma ShorterUndone(rules: Rules, ups: seq<Hook>, downs: seq<Hook>)
    requires UndoneInReverse(rules, ups, downs) && ups != []
    ensures UndoneInReverse(rules, ups[..|ups| - 1], downs[1..]) && Undoes(rules, ups[|ups| - 1], downs[0])
  {
    var n := |ups| - 1;
    forall i | 0 <= i < n ensures Undoes(rules, ups[..n][i], downs[1..][n - 1 - i]) {
      assert downs[1..][n - 1 - i] == downs[n - i];
    }
    assert Undoes(rules, ups[n], downs[0]);
  }

  lemma {:induction false} HooksUndone(rules: Rules, ups: seq<Hook>, downs: seq<Hook>, x: Content, y: Content)
    requires UndoneInReverse(rules, ups, downs) && HooksContent(rules, ups, x) == Some(y)
    ensures HooksContent(rules, downs, y) == Some(x)
    decreases |ups|
  {
    if ups != [] {
      var n := |ups| - 1;
      assert ups == ups[..n] + [ups[n]];
      ShorterUndone(rules, ups, downs);
      var mid := LastUpFirstDown(rules, ups[..n], ups[n], downs[0], x, y);
      HooksUndone(rules, ups[..n], downs[1..], x, mid);
    }
  }

  lemma PathUndone(rules: Rules, defs: map<nat, VersionDef>, a: nat, b: nat)
    requires a <= b && forall v :: a < v <= b ==> v in defs && Undoes(rules, defs[v].up, defs[v].down)
    ensures UndoneInReverse(rules, UpHooks(defs, UpPath(a, b)), DownHooks(defs, DownPath(b, a)))
  {
    var ups, downs := UpHooks(defs, UpPath(a, b)), DownHooks(defs, DownPath(b, a));
    forall i | 0 <= i < b - a ensures Undoes(rules, ups[i], downs[b - a - 1 - i]) {
      var v := a + 1 + i;
      assert ups[i] == defs[v].up && downs[b - a - 1 - i] == defs[v].down;
    }
  }

  /** Migrating up and back down restores config, user labels and annotations when every down hook undoes its up hook. */
  lemma UpThenDownRestores(rules: Rules, defs: map<nat, VersionDef>, a: nat, b: nat, c: Candidate, back: Candidate)
    requires a <= b && forall v :: a < v <= b ==> v in defs && Undoes(rules, defs[v].up, defs[v].down)
    requires Fresh(c) && Fresh(back) && RunHooks(rules, UpHooks(defs, UpPath(a, b)), c).Some?
    requires back.content == RunHooks(rules, UpHooks(defs, UpPath(a, b)), c).value.content
    ensures RunHooks(rules, DownHooks(defs, DownPath(b, a)), back).Some?
    ensures RunHooks(rules, DownHooks(defs, DownPath(b, a)), back).value.content == c.content
  {
    var ups, downs := UpHooks(defs, UpPath(a, b)), DownHooks(defs, DownPath(b, a));
    HooksActOnContent(rules, ups, c);
    HooksActOnContent(rules, downs, back);
    PathUndone(rules, defs, a, b);
    HooksUndone(rules, ups, downs, c.content, back.content);
  }
}
