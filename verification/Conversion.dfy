/**
 What conversion yields, from the value alone: which parts of a list, map or struct appear, under which names and in
 which order, and which of them are sealed in the reference tree; and what of a value is searched for annotations.
 */
module Conversion {
  import opened Sanitizer
  import opened TagSearch

  /** The value of a field that is left out when empty. */
  predicate Blank(v: Value) {
    match v
    case Nil => true
    case Text(t) => |t| == 0
    case Scalar(_, zero) => zero
    case List(items) => |items| == 0
    case Dict(entries) => |entries| == 0
    case _ => false
  }

  /** A field appears when it is exported, not ignored, and not an empty one that is to be omitted then. */
  predicate Appears(f: Field) {
    f.exported && !f.ignored && (f.omitEmpty ==> !Blank(f.value))
  }

  /** Increasing positions of exactly the fields from k on that appear. */
  ghost predicate AppearAt(fields: seq<Field>, k: nat, at: seq<nat>) {
    && (forall a :: 0 <= a < |at| ==> k <= at[a] < |fields| && Appears(fields[at[a]]))
    && (forall a, b :: 0 <= a < b < |at| ==> at[a] < at[b])
    && forall i :: k <= i < |fields| && Appears(fields[i]) ==> i in at
  }

  /** The parts are these fields, each secret exactly when the field is. */
  ghost predicate PartsAt(ps: seq<Part>, fields: seq<Field>, at: seq<nat>) {
    && |ps| == |at| && (forall a :: 0 <= a < |at| ==> at[a] < |fields|)
    && forall a :: 0 <= a < |at| ==>
         ps[a] == Part(fields[at[a]].name, fields[at[a]].secret, fields[at[a]].value)
  }

  lemma AppearFront(fields: seq<Field>, k: nat, at: seq<nat>)
    requires k < |fields| && AppearAt(fields, k + 1, at)
    ensures AppearAt(fields, k, if Appears(fields[k]) then [k] + at else at)
  {
    var all := if Appears(fields[k]) then [k] + at else at;
    forall i | k <= i < |fields| && Appears(fields[i]) ensures i in all {
      assert i > k ==> i in at;
    }
  }

  lemma KeptAppears(f: Field)
    ensures Kept(f) <==> Appears(f)
  {
  }

  lemma PartsFront(ps: seq<Part>, fields: seq<Field>, k: nat, at: seq<nat>)
    requires k < |fields| && PartsAt(ps, fields, at)
    ensures PartsAt([Part(fields[k].name, fields[k].secret, fields[k].value)] + ps, fields, [k] + at)
  {
  }

  lemma {:induction false} FieldPartsAt(v: Value, k: nat) returns (at: seq<nat>)
    requires v.Struct? && k <= |v.fields|
    ensures AppearAt(v.fields, k, at) && PartsAt(FieldParts(v, k), v.fields, at)
    decreases |v.fields| - k
  {
    at := [];
    if k < |v.fields| {
      var rest := FieldPartsAt(v, k + 1);
      AppearFront(v.fields, k, rest);
      KeptAppears(v.fields[k]);
      PartsFront(FieldParts(v, k + 1), v.fields, k, rest);
      at := if Appears(v.fields[k]) then [k] + rest else rest;
    }
  }

  lemma PartsGrounded(s: Store, n: nat, v: Value)
    requires Grounded(s, v, n) && Composite(v)
    ensures forall w :: w in Subs(v) ==> Grounded(s, w, n)
  {
  }

  /** A list becomes a list of its elements, in order. */
  lemma ListConverts(s: Store, n: nat, items: seq<Value>)
    requires Acyclic(s) && Grounded(s, List(items), n)
    ensures forall x :: x in items ==> Grounded(s, x, n)
    ensures var p := ToPlain(s, n, List(items));
      && p.Node? && p.isList && |p.parts| == |items|
      && forall i :: 0 <= i < |items| ==> p.parts[i] == PlainPart("", ToPlain(s, n, items[i]))
    ensures var m := Mark(s, n, List(items));
      && m.Open? && m.isList && |m.parts| == |items|
      && forall i :: 0 <= i < |items| ==> m.parts[i] == MarkedPart("", Mark(s, n, items[i]))
  {
    PartsGrounded(s, n, List(items));
  }

  /** A map becomes an object with its keys, in order. */
  lemma DictConverts(s: Store, n: nat, entries: seq<Entry>)
    requires Acyclic(s) && Grounded(s, Dict(entries), n)
    ensures forall i :: 0 <= i < |entries| ==> Grounded(s, entries[i].value, n)
    ensures var p := ToPlain(s, n, Dict(entries));
      && p.Node? && !p.isList && |p.parts| == |entries|
      && forall i :: 0 <= i < |entries| ==> p.parts[i] == PlainPart(entries[i].key, ToPlain(s, n, entries[i].value))
    ensures var m := Mark(s, n, Dict(entries));
      && m.Open? && !m.isList && |m.parts| == |entries|
      && forall i :: 0 <= i < |entries| ==> m.parts[i] == MarkedPart(entries[i].key, Mark(s, n, entries[i].value))
  {
    var v := Dict(entries);
    PartsGrounded(s, n, v);
    assert forall i :: 0 <= i < |entries| ==> Subs(v)[i] == entries[i].value;
  }

  /** A struct becomes an object of the fields that appear, in field order; the secret ones are sealed. */
  lemma StructConverts(s: Store, n: nat, fields: seq<Field>) returns (at: seq<nat>)
    requires Acyclic(s) && Grounded(s, Struct(fields), n)
    ensures AppearAt(fields, 0, at) && forall i :: 0 <= i < |fields| ==> Grounded(s, fields[i].value, n)
    ensures var p := ToPlain(s, n, Struct(fields));
      && p.Node? && !p.isList && |p.parts| == |at|
      && forall a :: 0 <= a < |at| ==>
           p.parts[a] == PlainPart(fields[at[a]].name, ToPlain(s, n, fields[at[a]].value))
    ensures var m := Mark(s, n, Struct(fields));
      && m.Open? && !m.isList && |m.parts| == |at|
      && forall a :: 0 <= a < |at| ==>
           var f := fields[at[a]];
           m.parts[a] == MarkedPart(f.name, if f.secret then Sealed(ToPlain(s, n, f.value)) else Mark(s, n, f.value))
  {
    var v := Struct(fields);
    PartsGrounded(s, n, v);
    assert forall i :: 0 <= i < |fields| ==> Subs(v)[i] == fields[i].value;
    at := FieldPartsAt(v, 0);
  }

  /** Pointers, interfaces and wrappers convert to what they hold; text, numbers and nil to themselves. */
  lemma HeldConverts(s: Store, n: nat, v: Value)
    requires Acyclic(s) && Grounded(s, v, n) && !Composite(v)
    ensures v.Nil? ==> ToPlain(s, n, v) == Null && Mark(s, n, v) == Leaf(Null)
    ensures v.Text? ==> ToPlain(s, n, v) == String(v.s) && Mark(s, n, v) == Leaf(String(v.s))
    ensures v.Scalar? ==> ToPlain(s, n, v) == Number(v.text) && Mark(s, n, v) == Leaf(Number(v.text))
    ensures v.Iface? || v.Wrapper? ==>
      Grounded(s, v.inner, n) && ToPlain(s, n, v) == ToPlain(s, n, v.inner) && Mark(s, n, v) == Mark(s, n, v.inner)
    ensures v.Ptr? ==>
      && v.ref in s.heap && v.ref in s.rank && Grounded(s, s.heap[v.ref], s.rank[v.ref])
      && ToPlain(s, n, v) == ToPlain(s, s.rank[v.ref], s.heap[v.ref])
      && Mark(s, n, v) == Mark(s, s.rank[v.ref], s.heap[v.ref])
  {
    if v.Iface? || v.Wrapper? {
      assert v.inner in Subs(v);
    }
  }

  // ---------------------------------------------------------------------------------------------
  // What is searched for annotations
  // ---------------------------------------------------------------------------------------------

  /** One of the fields from k on is exported, annotated or not as asked, and has this value unless it is annotated. */
  ghost predicate HasField(fields: seq<Field>, k: nat, secret: bool, w: Value) {
    exists i ::
      k <= i < |fields| && fields[i].exported && fields[i].secret == secret && (secret || fields[i].value == w)
  }

  lemma {:induction false} FieldsSearched(v: Value, k: nat, w: Value)
    requires v.Struct? && k <= |v.fields|
    ensures Secret in FieldEdges(v, k) <==> HasField(v.fields, k, true, w)
    ensures Child(w) in FieldEdges(v, k) <==> HasField(v.fields, k, false, w)
    decreases |v.fields| - k
  {
    if k < |v.fields| {
      FieldsSearched(v, k + 1, w);
    }
  }

  /** The search looks at exported fields, an annotated one ending it, and at all elements and map values. */
  lemma PartsSearched(heap: Heap, v: Value, w: Value)
    ensures Annotated(v) <==> v.Struct? && exists i :: 0 <= i < |v.fields| && v.fields[i].exported && v.fields[i].secret
    ensures Leads(heap, v, w) <==>
      match v
      case Struct(fields) =>
        exists i :: 0 <= i < |fields| && fields[i].exported && !fields[i].secret && fields[i].value == w
      case List(items) => w in items
      case Dict(entries) => exists i :: 0 <= i < |entries| && entries[i].value == w
      case Iface(x) => w == x
      case Wrapper(x, _) => w == x
      case Ptr(r) => r in heap && w == heap[r]
      case _ => false
  {
    match v
    case Struct(_) => FieldsSearched(v, 0, w);
    case List(items) => assert forall i :: 0 <= i < |items| ==> Edges(v)[i] == Child(items[i]);
    case Dict(entries) => assert forall i :: 0 <= i < |entries| ==> Edges(v)[i] == Child(entries[i].value);
    case _ =>
  }
}
