/**
 The API serializer over acyclic heaps: plain conversion, sanitizing with its fast path, and masking. `Marked` is the
 reference: the converted tree with the annotated positions sealed.
 */
module Sanitizer {
  import opened TagSearch

  datatype PlainPart = PlainPart(name: string, value: Plain)

  /** JSON-ready data; a node is a list (unnamed parts) or an object. */
  datatype Plain = Null | String(s: string) | Number(text: string) | Node(isList: bool, parts: seq<PlainPart>)

  /** Cells with a rank that every pointer inside a cell goes below: no cycles, sharing allowed. */
  datatype Store = Store(heap: Heap, rank: map<nat, nat>)

  // ---------------------------------------------------------------------------------------------
  // Acyclic stores
  // ---------------------------------------------------------------------------------------------

  /** Every value directly inside v that conversion may go into. */
  function Subs(v: Value): (vs: seq<Value>)
    ensures forall w :: w in vs ==> w < v
  {
    match v
    case Iface(x) => [x]
    case Wrapper(x, _) => [x]
    case Struct(fields) => seq(|fields|, i requires 0 <= i < |fields| => fields[i].value)
    case List(items) => items
    case Dict(entries) => seq(|entries|, i requires 0 <= i < |entries| => entries[i].value)
    case _ => []
  }

  /** Pointers inside v lead to cells of rank below n. */
  ghost predicate Grounded(s: Store, v: Value, n: nat) {
    if v.Ptr? then v.ref in s.heap && v.ref in s.rank && s.rank[v.ref] < n
    else forall w :: w in Subs(v) ==> Grounded(s, w, n)
  }

  ghost predicate Acyclic(s: Store) {
    forall r :: r in s.heap ==> r in s.rank && Grounded(s, s.heap[r], s.rank[r])
  }

  // ---------------------------------------------------------------------------------------------
  // Conversion
  // ---------------------------------------------------------------------------------------------

  predicate Empty(v: Value) {
    v.Nil? || v == Text("") || (v.Scalar? && v.zero) || v == List([]) || v == Dict([])
  }

  datatype Part = Part(name: string, secret: bool, value: Value)

  predicate Kept(f: Field) {
    f.exported && !f.ignored && !(f.omitEmpty && Empty(f.value))
  }

  function FieldParts(v: Value, k: nat): (ps: seq<Part>)
    requires v.Struct? && k <= |v.fields|
    ensures forall p :: p in ps ==> p.value in Subs(v)
    ensures forall p :: p in ps && p.secret ==> Secret in FieldEdges(v, k)
    ensures forall p :: p in ps && !p.secret ==> Child(p.value) in FieldEdges(v, k)
    decreases |v.fields| - k
  {
    if k == |v.fields| then []
    else
      var f := v.fields[k];
      assert Subs(v)[k] == f.value;
      var rest := FieldParts(v, k + 1);
      if Kept(f) then [Part(f.name, f.secret, f.value)] + rest else rest
  }

  /** The parts of a struct, list or map that appear in the output, in order. */
  function Parts(v: Value): (ps: seq<Part>)
    ensures forall p :: p in ps ==> p.value in Subs(v)
    ensures forall p :: p in ps && p.secret ==> Secret in Edges(v)
    ensures forall p :: p in ps && !p.secret ==> Child(p.value) in Edges(v)
  {
    match v
    case Struct(_) => FieldParts(v, 0)
    case List(items) =>
      assert forall i :: 0 <= i < |items| ==> Edges(v)[i] == Child(items[i]);
      seq(|items|, i requires 0 <= i < |items| => Part("", false, items[i]))
    case Dict(entries) =>
      assert forall i :: 0 <= i < |entries| ==> Edges(v)[i] == Child(entries[i].value) && Subs(v)[i] == entries[i].value;
      seq(|entries|, i requires 0 <= i < |entries| => Part(entries[i].key, false, entries[i].value))
    case _ => []
  }

  predicate Composite(v: Value) {
    v.Struct? || v.List? || v.Dict?
  }

  function ToPlain(s: Store, n: nat, v: Value): Plain
    requires Acyclic(s) && Grounded(s, v, n)
    decreases n, v
  {
    match v
    case Nil => Null
    case Text(t) => String(t)
    case Scalar(t, _) => Number(t)
    case Iface(x) => ToPlain(s, n, x)
    case Wrapper(x, _) => ToPlain(s, n, x)
    case Ptr(r) => ToPlain(s, s.rank[r], s.heap[r])
    case _ =>
      var ps := Parts(v);
      Node(v.List?, seq(|ps|, i requires 0 <= i < |ps| => PlainPart(ps[i].name, ToPlain(s, n, ps[i].value))))
  }

  // ---------------------------------------------------------------------------------------------
  // Masking
  // ---------------------------------------------------------------------------------------------

  datatype Masked = Masked(plain: Plain, redacted: bool)

  function Stars(n: nat): (s: string)
    ensures |s| == n && forall i :: 0 <= i < n ==> s[i] == '*'
  {
    seq(n, i => '*')
  }

  function Mask(p: Plain): Masked {
    match p
    case Null => Masked(Null, false)
    case String(t) => if t == "" then Masked(p, false) else Masked(String(Stars(|t|)), true)
    case Number(t) => if t == "" then Masked(p, false) else Masked(String(Stars(|t|)), true)
    case Node(isList, parts) =>
      Masked(Node(isList, seq(|parts|, i requires 0 <= i < |parts| => PlainPart(parts[i].name, Mask(parts[i].value).plain))),
             exists i :: 0 <= i < |parts| && Mask(parts[i].value).redacted)
  }

  /** Some text or number inside is not empty. */
  predicate HasContent(p: Plain) {
    match p
    case Null => false
    case String(t) => t != ""
    case Number(t) => t != ""
    case Node(_, parts) => exists i :: 0 <= i < |parts| && HasContent(parts[i].value)
  }

  /** Same shape and names; every text and number replaced by as many stars as it had characters. */
  predicate MaskOf(p: Plain, q: Plain) {
    match p
    case Null => q == Null
    case String(t) => if t == "" then q == p else q == String(Stars(|t|))
    case Number(t) => if t == "" then q == p else q == String(Stars(|t|))
    case Node(isList, parts) =>
      && q.Node? && q.isList == isList && |q.parts| == |parts|
      && forall i :: 0 <= i < |parts| ==> q.parts[i].name == parts[i].name && MaskOf(parts[i].value, q.parts[i].value)
  }

  lemma {:induction false} MaskIsFaithful(p: Plain)
    ensures MaskOf(p, Mask(p).plain) && (Mask(p).redacted <==> HasContent(p))
    decreases p
  {
    if p.Node? {
      forall i | 0 <= i < |p.parts|
        ensures var m := Mask(p.parts[i].value); MaskOf(p.parts[i].value, m.plain) && (m.redacted <==> HasContent(p.parts[i].value))
      {
        MaskIsFaithful(p.parts[i].value);
      }
    }
  }

  /** A text made of nothing but stars somewhere inside. */
  predicate ContainsMaskOnly(p: Plain) {
    match p
    case String(t) => t != "" && forall i :: 0 <= i < |t| ==> t[i] == '*'
    case Node(_, parts) => exists i :: 0 <= i < |parts| && ContainsMaskOnly(parts[i].value)
    case _ => false
  }

  /** A masked value is recognised as a placeholder exactly when masking hid something. */
  lemma {:induction false} MaskedIsPlaceholder(p: Plain, q: Plain)
    requires MaskOf(p, q)
    ensures ContainsMaskOnly(q) <==> HasContent(p)
    decreases p
  {
    if p.Node? {
      forall i | 0 <= i < |p.parts|
        ensures ContainsMaskOnly(q.parts[i].value) <==> HasContent(p.parts[i].value)
      {
        MaskedIsPlaceholder(p.parts[i].value, q.parts[i].value);
      }
    }
  }

  // ---------------------------------------------------------------------------------------------
  // The reference: the converted tree with its annotated positions sealed
  // ---------------------------------------------------------------------------------------------

  datatype MarkedPart = MarkedPart(name: string, value: Marked)

  datatype Marked = Leaf(plain: Plain) | Sealed(plain: Plain) | Open(isList: bool, parts: seq<MarkedPart>)

  function Mark(s: Store, n: nat, v: Value): Marked
    requires Acyclic(s) && Grounded(s, v, n)
    decreases n, v
  {
    match v
    case Nil => Leaf(Null)
    case Text(t) => Leaf(String(t))
    case Scalar(t, _) => Leaf(Number(t))
    case Iface(x) => Mark(s, n, x)
    case Wrapper(x, _) => Mark(s, n, x)
    case Ptr(r) => Mark(s, s.rank[r], s.heap[r])
    case _ =>
      var ps := Parts(v);
      Open(v.List?, seq(|ps|, i requires 0 <= i < |ps| =>
        MarkedPart(ps[i].name, if ps[i].secret then Sealed(ToPlain(s, n, ps[i].value)) else Mark(s, n, ps[i].value))))
  }

  /** The tree without the seals. */
  predicate Unseals(m: Marked, p: Plain) {
    match m
    case Leaf(x) => p == x
    case Sealed(x) => p == x
    case Open(isList, parts) =>
      && p.Node? && p.isList == isList && |p.parts| == |parts|
      && forall i :: 0 <= i < |parts| ==> p.parts[i].name == parts[i].name && Unseals(parts[i].value, p.parts[i].value)
  }

  /** The tree with every sealed position masked and everything else untouched. */
  predicate Masks(m: Marked, p: Plain) {
    match m
    case Leaf(x) => p == x
    case Sealed(x) => MaskOf(x, p)
    case Open(isList, parts) =>
      && p.Node? && p.isList == isList && |p.parts| == |parts|
      && forall i :: 0 <= i < |parts| ==> p.parts[i].name == parts[i].name && Masks(parts[i].value, p.parts[i].value)
  }

  /** Some sealed position holds content. */
  predicate Hides(m: Marked) {
    match m
    case Leaf(_) => false
    case Sealed(x) => HasContent(x)
    case Open(_, parts) => exists i :: 0 <= i < |parts| && Hides(parts[i].value)
  }

  /** Taking the seals off gives the plain conversion. */
  lemma {:induction false} MarkedIsPlain(s: Store, n: nat, v: Value)
    requires Acyclic(s) && Grounded(s, v, n)
    ensures Unseals(Mark(s, n, v), ToPlain(s, n, v))
    decreases n, v
  {
    match v
    case Nil =>
    case Text(_) =>
    case Scalar(_, _) =>
    case Iface(x) => MarkedIsPlain(s, n, x);
    case Wrapper(x, _) => MarkedIsPlain(s, n, x);
    case Ptr(r) => MarkedIsPlain(s, s.rank[r], s.heap[r]);
    case _ =>
      var ps := Parts(v);
      forall i | 0 <= i < |ps| ensures Unseals(Mark(s, n, ps[i].value), ToPlain(s, n, ps[i].value)) {
        MarkedIsPlain(s, n, ps[i].value);
      }
  }

  // ---------------------------------------------------------------------------------------------
  // Sanitizing
  // ---------------------------------------------------------------------------------------------

  function HasTag(s: Store, v: Value): bool {
    Search(s.heap, v, {}).tag
  }

  /** Values without a reachable tag go straight to plain conversion; in the others, secret fields are masked. */
  function Sanitize(s: Store, n: nat, v: Value): Masked
    requires Acyclic(s) && Grounded(s, v, n)
    decreases n, v, 1
  {
    if !HasTag(s, v) then Masked(ToPlain(s, n, v), false) else SanitizeTagged(s, n, v)
  }

  function SanitizeTagged(s: Store, n: nat, v: Value): Masked
    requires Acyclic(s) && Grounded(s, v, n)
    decreases n, v, 0
  {
    match v
    case Iface(x) => SanitizeTagged(s, n, x)
    case Ptr(r) => SanitizeTagged(s, s.rank[r], s.heap[r])
    case Wrapper(x, _) => if HasTag(s, x) then Sanitize(s, n, x) else Masked(ToPlain(s, n, x), false)
    case Nil => Masked(Null, false)
    case Text(t) => Masked(String(t), false)
    case Scalar(t, _) => Masked(Number(t), false)
    case _ =>
      var ps := Parts(v);
      Masked(Node(v.List?, seq(|ps|, i requires 0 <= i < |ps| => PlainPart(ps[i].name, SanitizePart(s, n, ps[i]).plain))),
             exists i :: 0 <= i < |ps| && SanitizePart(s, n, ps[i]).redacted)
  }

  function SanitizePart(s: Store, n: nat, p: Part): Masked
    requires Acyclic(s) && Grounded(s, p.value, n)
    decreases n, p.value, 2
  {
    if p.secret then Mask(ToPlain(s, n, p.value)) else Sanitize(s, n, p.value)
  }

  /** The output masks exactly the sealed positions, and says so exactly when one of them held content. */
  ghost predicate Faithful(m: Marked, r: Masked) {
    Masks(m, r.plain) && (r.redacted <==> Hides(m))
  }

  /** No secret part anywhere: nothing is sealed. */
  ghost predicate SealFree(m: Marked) {
    match m
    case Leaf(_) => true
    case Sealed(_) => false
    case Open(_, parts) => forall i :: 0 <= i < |parts| ==> SealFree(parts[i].value)
  }

  lemma {:induction false} SealFreeIsPlain(m: Marked, p: Plain)
    requires SealFree(m) && Unseals(m, p)
    ensures Faithful(m, Masked(p, false))
    decreases m
  {
    if m.Open? {
      forall i | 0 <= i < |m.parts|
        ensures Masks(m.parts[i].value, p.parts[i].value) && !Hides(m.parts[i].value)
      {
        SealFreeIsPlain(m.parts[i].value, p.parts[i].value);
      }
    }
  }

  lemma {:induction false} ClearIsSealFree(s: Store, n: nat, v: Value, S: set<nat>)
    requires Acyclic(s) && Grounded(s, v, n) && Clear(s.heap, v, S) && CellsClear(s.heap, {}, S)
    ensures SealFree(Mark(s, n, v))
    decreases n, v
  {
    match v
    case Nil =>
    case Text(_) =>
    case Scalar(_, _) =>
    case Iface(x) => assert Child(x) in Edges(v); ClearIsSealFree(s, n, x, S);
    case Wrapper(x, _) => assert Child(x) in Edges(v); ClearIsSealFree(s, n, x, S);
    case Ptr(r) => ClearIsSealFree(s, s.rank[r], s.heap[r], S);
    case _ =>
      var ps := Parts(v);
      forall i | 0 <= i < |ps| ensures !ps[i].secret && SealFree(Mark(s, n, ps[i].value)) {
        assert ps[i] in ps;
        ClearIsSealFree(s, n, ps[i].value, S);
      }
  }

  /** The fast path is right: without a reachable tag there is nothing to mask. */
  lemma FastPathFaithful(s: Store, n: nat, v: Value)
    requires Acyclic(s) && Grounded(s, v, n) && !HasTag(s, v)
    ensures Faithful(Mark(s, n, v), Masked(ToPlain(s, n, v), false))
  {
    SearchComplete(s.heap, v, {});
    ClearIsSealFree(s, n, v, Search(s.heap, v, {}).seen);
    MarkedIsPlain(s, n, v);
    SealFreeIsPlain(Mark(s, n, v), ToPlain(s, n, v));
  }

  /** Sanitizing is plain conversion with masking at exactly the annotated positions; redaction is reported exactly. */
  lemma {:induction false} SanitizeFaithful(s: Store, n: nat, v: Value)
    requires Acyclic(s) && Grounded(s, v, n)
    ensures Faithful(Mark(s, n, v), Sanitize(s, n, v))
    decreases n, v, 2
  {
    if HasTag(s, v) {
      SanitizeTaggedFaithful(s, n, v);
    } else {
      FastPathFaithful(s, n, v);
    }
  }

  lemma {:induction false} SanitizeTaggedFaithful(s: Store, n: nat, v: Value)
    requires Acyclic(s) && Grounded(s, v, n)
    ensures Faithful(Mark(s, n, v), SanitizeTagged(s, n, v))
    decreases n, v, 1
  {
    match v
    case Nil =>
    case Text(_) =>
    case Scalar(_, _) =>
    case Iface(x) => SanitizeTaggedFaithful(s, n, x);
    case Ptr(r) => SanitizeTaggedFaithful(s, s.rank[r], s.heap[r]);
    case Wrapper(x, _) => if HasTag(s, x) { SanitizeFaithful(s, n, x); } else { FastPathFaithful(s, n, x); }
    case _ => SanitizePartsFaithful(s, n, v);
  }

  lemma {:induction false} SanitizePartsFaithful(s: Store, n: nat, v: Value)
    requires Acyclic(s) && Grounded(s, v, n) && Composite(v)
    ensures Faithful(Mark(s, n, v), SanitizeTagged(s, n, v))
    decreases n, v, 0
  {
    var ps, m := Parts(v), Mark(s, n, v);
    forall i | 0 <= i < |ps| ensures Faithful(m.parts[i].value, SanitizePart(s, n, ps[i])) {
      assert ps[i] in ps;
      if ps[i].secret {
        MaskIsFaithful(ToPlain(s, n, ps[i].value));
      } else {
        SanitizeFaithful(s, n, ps[i].value);
      }
    }
  }

  // ---------------------------------------------------------------------------------------------
  // The serializer with its report
  // ---------------------------------------------------------------------------------------------

  class Report {
    var redacted: bool

    constructor ()
      ensures !redacted
    {
      redacted := false;
    }
  }

  /** With permission to replay secrets the plain value is returned; otherwise the sanitized one, with the report. */
  method SanitizeForApi(s: Store, n: nat, v: Value, replay: bool) returns (plain: Plain, redacted: bool)
    requires Acyclic(s) && Grounded(s, v, n)
    ensures replay ==> plain == ToPlain(s, n, v) && !redacted
    ensures !replay ==> Faithful(Mark(s, n, v), Masked(plain, redacted))
  {
    var visited := new Visited();
    var tagged := visited.HasRedactionTag(s.heap, v);
    if replay || !tagged {
      if !replay { FastPathFaithful(s, n, v); }
      return ToPlain(s, n, v), false;
    }
    var report := new Report();
    plain := SanitizeValue(s, n, v, report);
    redacted := report.redacted;
    SanitizeFaithful(s, n, v);
  }

  method SanitizeValue(s: Store, n: nat, v: Value, report: Report) returns (plain: Plain)
    requires Acyclic(s) && Grounded(s, v, n)
    modifies report
    ensures plain == Sanitize(s, n, v).plain
    ensures report.redacted == (old(report.redacted) || Sanitize(s, n, v).redacted)
    decreases n, v, 2
  {
    var visited := new Visited();
    var tagged := visited.HasRedactionTag(s.heap, v);
    if !tagged { return ToPlain(s, n, v); }
    plain := SanitizeTaggedValue(s, n, v, report);
  }

  method SanitizeTaggedValue(s: Store, n: nat, v: Value, report: Report) returns (plain: Plain)
    requires Acyclic(s) && Grounded(s, v, n)
    modifies report
    ensures plain == SanitizeTagged(s, n, v).plain
    ensures report.redacted == (old(report.redacted) || SanitizeTagged(s, n, v).redacted)
    decreases n, v, 1
  {
    match v
    case Nil => plain := Null;
    case Text(t) => plain := String(t);
    case Scalar(t, _) => plain := Number(t);
    case Iface(x) => plain := SanitizeTaggedValue(s, n, x, report);
    case Ptr(r) => plain := SanitizeTaggedValue(s, s.rank[r], s.heap[r], report);
    case Wrapper(x, _) =>
      var visited := new Visited();
      var tagged := visited.HasRedactionTag(s.heap, x);
      if tagged { plain := SanitizeValue(s, n, x, report); } else { plain := ToPlain(s, n, x); }
    case _ =>
      var out := SanitizeNode(s, n, v, report);
      plain := Node(v.List?, out);
  }

  /** One output part: a secret one is converted and masked, any other sanitized in turn. */
  method SanitizePartValue(s: Store, n: nat, p: Part, report: Report) returns (plain: Plain)
    requires Acyclic(s) && Grounded(s, p.value, n)
    modifies report
    ensures plain == SanitizePart(s, n, p).plain
    ensures report.redacted == (old(report.redacted) || SanitizePart(s, n, p).redacted)
    decreases n, p.value, 3
  {
    if p.secret {
      var m := Mask(ToPlain(s, n, p.value));
      if m.redacted { report.redacted := true; }
      plain := m.plain;
    } else {
      plain := SanitizeValue(s, n, p.value, report);
    }
  }

  ghost predicate AnyRedacted(s: Store, n: nat, ps: seq<Part>, k: nat)
    requires Acyclic(s) && k <= |ps| && forall p :: p in ps ==> Grounded(s, p.value, n)
  {
    exists i :: 0 <= i < k && SanitizePart(s, n, ps[i]).redacted
  }

  ghost predicate PartsDone(s: Store, n: nat, ps: seq<Part>, out: seq<PlainPart>)
    requires Acyclic(s) && |out| <= |ps| && forall p :: p in ps ==> Grounded(s, p.value, n)
  {
    forall k :: 0 <= k < |out| ==> out[k] == PlainPart(ps[k].name, SanitizePart(s, n, ps[k]).plain)
  }

  /** The outputs of the parts, as the definition of a composite puts them together. */
  function PlainParts(s: Store, n: nat, ps: seq<Part>): seq<PlainPart>
    requires Acyclic(s) && forall p :: p in ps ==> Grounded(s, p.value, n)
  {
    seq(|ps|, i requires 0 <= i < |ps| => PlainPart(ps[i].name, SanitizePart(s, n, ps[i]).plain))
  }

  lemma CompositeParts(s: Store, n: nat, v: Value)
    requires Acyclic(s) && Grounded(s, v, n) && Composite(v)
    ensures SanitizeTagged(s, n, v).plain == Node(v.List?, PlainParts(s, n, Parts(v)))
    ensures SanitizeTagged(s, n, v).redacted <==> AnyRedacted(s, n, Parts(v), |Parts(v)|)
  {
  }

  lemma PartsAreDone(s: Store, n: nat, ps: seq<Part>, out: seq<PlainPart>)
    requires Acyclic(s) && |out| == |ps| && (forall p :: p in ps ==> Grounded(s, p.value, n)) && PartsDone(s, n, ps, out)
    ensures out == PlainParts(s, n, ps)
  {
  }

  method SanitizeNode(s: Store, n: nat, v: Value, report: Report) returns (out: seq<PlainPart>)
    requires Acyclic(s) && Grounded(s, v, n) && Composite(v)
    modifies report
    ensures Node(v.List?, out) == SanitizeTagged(s, n, v).plain
    ensures report.redacted == (old(report.redacted) || SanitizeTagged(s, n, v).redacted)
    decreases n, v, 0
  {
    var parts := Parts(v);
    out := [];
    for i := 0 to |parts|
      invariant |out| == i && PartsDone(s, n, parts, out)
      invariant report.redacted <==> old(report.redacted) || AnyRedacted(s, n, parts, i)
    {
      assert parts[i] in parts;
      assert AnyRedacted(s, n, parts, i + 1) <==> AnyRedacted(s, n, parts, i) || SanitizePart(s, n, parts[i]).redacted;
      var plain := SanitizePartValue(s, n, parts[i], report);
      out := out + [PlainPart(parts[i].name, plain)];
    }
    CompositeParts(s, n, v);
    PartsAreDone(s, n, parts, out);
  }
}
