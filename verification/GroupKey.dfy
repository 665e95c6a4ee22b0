/**
 The string that stands for a label map in the metrics accumulators: the labels in key order, each written as
 key, '=', value, NUL. Go iterates maps in any order, so the keys are collected in any order and then sorted.
 */
module GroupKey {
  import opened Sequences

  type Labels = map<string, string>

  // ---------------------------------------------------------------------------------------------
  // Sorting
  // ---------------------------------------------------------------------------------------------

  /** Strict lexicographic order. */
  predicate Below(a: string, b: string) {
    b != [] && (a == [] || a[0] < b[0] || (a[0] == b[0] && Below(a[1..], b[1..])))
  }

  lemma {:induction false} BelowTransitive(a: string, b: string, c: string)
    requires Below(a, b) && Below(b, c)
    ensures Below(a, c)
    decreases |a|
  {
    if a != [] && a[0] == b[0] && b[0] == c[0] {
      BelowTransitive(a[1..], b[1..], c[1..]);
    }
  }

  lemma {:induction false} BelowTotal(a: string, b: string)
    ensures Below(a, b) || Below(b, a) || a == b
    ensures !(Below(a, b) && Below(b, a)) && (a == b ==> !Below(a, b))
    decreases |a|
  {
    if a != [] && b != [] && a[0] == b[0] {
      BelowTotal(a[1..], b[1..]);
      assert a == [a[0]] + a[1..] && b == [b[0]] + b[1..];
    }
  }

  ghost predicate Ascending(ks: seq<string>) {
    forall i, j :: 0 <= i < j < |ks| ==> Below(ks[i], ks[j])
  }

  /** Two ascending sequences with the same elements are the same sequence. */
  lemma {:induction false} AscendingUnique(a: seq<string>, b: seq<string>)
    requires Ascending(a) && Ascending(b) && Elements(a) == Elements(b)
    ensures a == b
    decreases |a|
  {
    if a == [] || b == [] {
      EmptyElements(a);
      EmptyElements(b);
    } else {
      HeadsEqual(a, b);
      TailElements(a);
      TailElements(b);
      AscendingUnique(a[1..], b[1..]);
      assert a == [a[0]] + a[1..] && b == [b[0]] + b[1..];
    }
  }

  lemma EmptyElements(ks: seq<string>)
    ensures Elements(ks) == {} <==> ks == []
  {
    if ks != [] {
      assert ks[0] in Elements(ks);
    }
  }

  lemma HeadsEqual(a: seq<string>, b: seq<string>)
    requires Ascending(a) && Ascending(b) && Elements(a) == Elements(b) && a != [] && b != []
    ensures a[0] == b[0]
  {
    assert a[0] in Elements(b) && b[0] in Elements(a);
    var i :| 0 <= i < |b| && b[i] == a[0];
    var j :| 0 <= j < |a| && a[j] == b[0];
    BelowTotal(a[0], b[0]);
  }

  lemma TailElements(ks: seq<string>)
    requires Ascending(ks) && ks != []
    ensures Ascending(ks[1..]) && Elements(ks[1..]) == Elements(ks) - {ks[0]}
  {
    forall k | k in ks[1..] ensures k != ks[0] {
      var i :| 0 <= i < |ks[1..]| && ks[1..][i] == k;
      BelowTotal(ks[0], ks[i + 1]);
    }
    assert ks == [ks[0]] + ks[1..];
  }

  function Insert(k: string, ks: seq<string>): seq<string> {
    if ks == [] || Below(k, ks[0]) then [k] + ks else [ks[0]] + Insert(k, ks[1..])
  }

  lemma {:induction false} InsertAscends(k: string, ks: seq<string>)
    requires Ascending(ks) && k !in ks
    ensures Ascending(Insert(k, ks)) && Elements(Insert(k, ks)) == Elements(ks) + {k}
    decreases |ks|
  {
    if ks == [] {
    } else if Below(k, ks[0]) {
      forall i | 0 <= i < |ks| ensures Below(k, ks[i]) {
        if i > 0 {
          BelowTransitive(k, ks[0], ks[i]);
        }
      }
    } else {
      InsertAscends(k, ks[1..]);
      BelowTotal(k, ks[0]);
      var rest := Insert(k, ks[1..]);
      forall i | 0 <= i < |rest| ensures Below(ks[0], rest[i]) {
        assert rest[i] in Elements(rest);
        if rest[i] != k {
          assert rest[i] in Elements(ks[1..]);
          var j :| 0 <= j < |ks[1..]| && ks[1..][j] == rest[i];
        }
      }
      assert ks == [ks[0]] + ks[1..];
      assert Elements(ks) == {ks[0]} + Elements(ks[1..]);
    }
  }

  /** The keys in order. */
  ghost function SortedKeys(s: set<string>): (ks: seq<string>)
    ensures Ascending(ks) && Elements(ks) == s
  {
    if s == {} then [] else
      var k :| k in s;
      InsertAscends(k, SortedKeys(s - {k}));
      Insert(k, SortedKeys(s - {k}))
  }

  /** Whatever order the keys come in, sorting gives the same sequence. */
  method SortKeys(s: set<string>) returns (ks: seq<string>)
    ensures ks == SortedKeys(s)
  {
    ks := [];
    var rest := s;
    while rest != {}
      invariant rest <= s && Ascending(ks) && Elements(ks) == s - rest
      decreases rest
    {
      var k :| k in rest;
      assert k !in Elements(ks);
      InsertAscends(k, ks);
      ks := Insert(k, ks);
      rest := rest - {k};
    }
    AscendingUnique(ks, SortedKeys(s));
  }

  // ---------------------------------------------------------------------------------------------
  // Writing a key, and reading it back
  // ---------------------------------------------------------------------------------------------

  function Entry(k: string, v: string): string {
    k + "=" + v + "\0"
  }

  function Render(ks: seq<string>, labels: Labels): string
    requires forall k :: k in ks ==> k in labels
  {
    if ks == [] then "" else Entry(ks[0], labels[ks[0]]) + Render(ks[1..], labels)
  }

  ghost function KeyOf(labels: Labels): string {
    Render(Sorted(labels), labels)
  }

  ghost function Sorted(labels: Labels): (ks: seq<string>)
    ensures Ascending(ks) && Elements(ks) == labels.Keys && forall k :: k in ks ==> k in labels
  {
    var ks := SortedKeys(labels.Keys);
    assert forall k :: k in ks ==> k in Elements(ks);
    ks
  }

  lemma RenderNext(prefix: string, ks: seq<string>, i: nat, labels: Labels)
    requires i < |ks| && forall k :: k in ks ==> k in labels
    ensures prefix + Render(ks[i..], labels) == prefix + Entry(ks[i], labels[ks[i]]) + Render(ks[i + 1..], labels)
  {
    assert ks[i..][1..] == ks[i + 1..];
  }

  method WriteEntries(keys: seq<string>, labels: Labels) returns (out: string)
    requires forall k :: k in keys ==> k in labels
    ensures out == Render(keys, labels)
  {
    out := "";
    for i := 0 to |keys|
      invariant out + Render(keys[i..], labels) == Render(keys, labels)
    {
      RenderNext(out, keys, i, labels);
      out := out + Entry(keys[i], labels[keys[i]]);
    }
  }

  method GroupKeyOf(labels: Labels) returns (key: string)
    ensures key == KeyOf(labels)
  {
    if |labels| == 0 {
      assert labels.Keys == {};
      return "";
    }
    var keys := SortKeys(labels.Keys);
    assert keys == Sorted(labels);
    key := WriteEntries(keys, labels);
  }

  /** The index of the first `c`, or the length. */
  function Find(s: string, c: char): (n: nat)
    ensures n <= |s| && (n < |s| ==> s[n] == c)
  {
    if s == [] || s[0] == c then 0 else 1 + Find(s[1..], c)
  }

  lemma {:induction false} FindAfter(p: string, c: char, rest: string)
    requires c !in p
    ensures Find(p + [c] + rest, c) == |p|
    decreases |p|
  {
    var s := p + [c] + rest;
    if p != [] {
      assert s[1..] == p[1..] + [c] + rest;
      FindAfter(p[1..], c, rest);
    }
  }

  /** Reads the entries back: a key runs to the first '=', its value to the first NUL after that. */
  function Parse(s: string): Labels
    decreases |s|
  {
    var e := Find(s, '=');
    if e == |s| then map[] else
      var after := s[e + 1..];
      var n := Find(after, '\0');
      if n == |after| then map[] else Parse(after[n + 1..])[s[..e] := after[..n]]
  }

  lemma ParseEntry(k: string, v: string, rest: string)
    requires '=' !in k && '\0' !in v
    ensures Parse(Entry(k, v) + rest) == Parse(rest)[k := v]
  {
    var s := Entry(k, v) + rest;
    assert s == k + ['='] + (v + ['\0'] + rest);
    FindAfter(k, '=', v + ['\0'] + rest);
    assert s[|k| + 1..] == v + ['\0'] + rest;
    FindAfter(v, '\0', rest);
    assert (v + ['\0'] + rest)[|v| + 1..] == rest;
    assert s[..|k|] == k && (v + ['\0'] + rest)[..|v|] == v;
  }

  ghost predicate Plain(labels: Labels) {
    forall k :: k in labels ==> '=' !in k && '\0' !in labels[k]
  }

  function Restrict(labels: Labels, names: set<string>): Labels {
    map k | k in names && k in labels :: labels[k]
  }

  lemma RestrictGrows(labels: Labels, names: set<string>, k: string)
    requires k in labels
    ensures Restrict(labels, names + {k}) == Restrict(labels, names)[k := labels[k]]
  {
  }

  lemma {:induction false} RenderParses(ks: seq<string>, labels: Labels)
    requires Ascending(ks) && Plain(labels) && forall k :: k in ks ==> k in labels
    ensures Parse(Render(ks, labels)) == Restrict(labels, Elements(ks))
    decreases |ks|
  {
    if ks == [] {
      EmptyElements(ks);
    } else {
      TailElements(ks);
      RenderParses(ks[1..], labels);
      ParseEntry(ks[0], labels[ks[0]], Render(ks[1..], labels));
      RestrictGrows(labels, Elements(ks[1..]), ks[0]);
      assert Elements(ks) == Elements(ks[1..]) + {ks[0]};
    }
  }

  /** A key without NUL in its values and '=' in its label names can be read back. */
  lemma KeyRoundTrip(labels: Labels)
    requires Plain(labels)
    ensures Parse(KeyOf(labels)) == labels
  {
    RenderParses(Sorted(labels), labels);
  }

  /** So for such labels the string groups exactly as the maps do. */
  lemma KeysGroupExactly(a: Labels, b: Labels)
    requires Plain(a) && Plain(b)
    ensures KeyOf(a) == KeyOf(b) <==> a == b
  {
    KeyRoundTrip(a);
    KeyRoundTrip(b);
  }

  // ---------------------------------------------------------------------------------------------
  // Values that contain NUL
  // ---------------------------------------------------------------------------------------------

  lemma RenderOne(k: string, labels: Labels)
    requires k in labels
    ensures Render([k], labels) == Entry(k, labels[k])
  {
    assert [k][1..] == [];
    assert Entry(k, labels[k]) + "" == Entry(k, labels[k]);
  }

  /** With one label there is nothing to confuse. */
  lemma OneLabelGroupsExactly(k: string, a: Labels, b: Labels)
    requires a.Keys == {k} && b.Keys == {k}
    ensures KeyOf(a) == KeyOf(b) <==> a == b
  {
    AscendingUnique(Sorted(a), [k]);
    AscendingUnique(Sorted(b), [k]);
    RenderOne(k, a);
    RenderOne(k, b);
    if KeyOf(a) == KeyOf(b) {
      assert a[k] == KeyOf(a)[|k| + 1..|KeyOf(a)| - 1];
      assert b[k] == KeyOf(b)[|k| + 1..|KeyOf(b)| - 1];
    }
  }

  lemma RenderTwo(ks: seq<string>, labels: Labels)
    requires |ks| >= 2 && forall k :: k in ks ==> k in labels
    ensures Render(ks, labels) == Entry(ks[0], labels[ks[0]]) + Entry(ks[1], labels[ks[1]]) + Render(ks[2..], labels)
  {
    var rest := ks[1..];
    assert rest[0] == ks[1] && rest[1..] == ks[2..];
    assert Render(rest, labels) == Entry(rest[0], labels[rest[0]]) + Render(rest[1..], labels);
    assert Render(ks, labels) == Entry(ks[0], labels[ks[0]]) + Render(rest, labels);
  }

  /** A value that reads like the end of one entry and the start of the next can sit on either side of it. */
  lemma EntriesShift(p: string, q: string)
    ensures var m := "\0" + q + "="; Entry(p, m) + Entry(q, "") == Entry(p, "") + Entry(q, m)
  {
    var m := "\0" + q + "=";
    assert Entry(p, m) + Entry(q, "") == p + "=" + m + (m + "\0");
    assert Entry(p, "") + Entry(q, m) == p + "=" + m + (m + "\0");
  }

  /** With two labels or more there always is a pair of maps over the same labels that share a key. */
  lemma NulClashes(names: set<string>) returns (a: Labels, b: Labels)
    requires |names| >= 2
    ensures a.Keys == names && b.Keys == names && a != b && KeyOf(a) == KeyOf(b)
  {
    var ks := SortedKeys(names);
    AtLeastTwo(ks);
    var p, q := ks[0], ks[1];
    assert p in Elements(ks) && q in Elements(ks);
    BelowTotal(p, q);
    a, b := ClashingPair(names, p, q);
    AscendingUnique(Sorted(a), ks);
    AscendingUnique(Sorted(b), ks);
    RestAgrees(ks, 2, a, b);
    RenderTwo(ks, a);
    RenderTwo(ks, b);
    EntriesShift(p, q);
  }

  lemma ClashingPair(names: set<string>, p: string, q: string) returns (a: Labels, b: Labels)
    requires p in names && q in names && p != q
    ensures a.Keys == names && b.Keys == names && a != b
    ensures var m := "\0" + q + "="; a[p] == m && a[q] == "" && b[p] == "" && b[q] == m
    ensures forall k :: k in names && k != p && k != q ==> a[k] == b[k]
  {
    var blank: Labels := map k | k in names :: "";
    var m := "\0" + q + "=";
    a, b := blank[p := m], blank[q := m];
  }

  lemma {:induction false} ElementsFew(ks: seq<string>)
    ensures |Elements(ks)| <= |ks|
  {
    if ks == [] {
      EmptyElements(ks);
    } else {
      ElementsFew(ks[1..]);
      assert ks == [ks[0]] + ks[1..];
      assert Elements(ks) == Elements(ks[1..]) + {ks[0]};
    }
  }

  lemma AtLeastTwo(ks: seq<string>)
    requires |Elements(ks)| >= 2
    ensures |ks| >= 2
  {
    ElementsFew(ks);
  }

  lemma {:induction false} RestAgrees(ks: seq<string>, n: nat, a: Labels, b: Labels)
    requires Ascending(ks) && 2 <= n <= |ks| && Elements(ks) == a.Keys == b.Keys
    requires forall k :: k in a && k != ks[0] && k != ks[1] ==> a[k] == b[k]
    requires forall k :: k in ks[n..] ==> k in a && k in b
    ensures Render(ks[n..], a) == Render(ks[n..], b)
    decreases |ks| - n
  {
    if n < |ks| {
      assert ks[n..][1..] == ks[n + 1..];
      assert ks[n] in Elements(ks);
      BelowTotal(ks[0], ks[n]);
      BelowTotal(ks[1], ks[n]);
      RestAgrees(ks, n + 1, a, b);
    }
  }
}
