/**
 Values as the API serializer sees them, and its fast-path question: is any field annotated as secret reachable?
 Structs, lists and maps are held inline; a pointer names a cell of the heap, so cells may be shared or cyclic.
 */
module TagSearch {

  datatype Field = Field(name: string, exported: bool, secret: bool, ignored: bool, omitEmpty: bool, value: Value)

  datatype Entry = Entry(key: string, value: Value)

  /** A Wrapper is a struct whose InnerVal is set: the search and the conversion go to the inner value only. */
  datatype Value =
    | Nil
    | Text(s: string)
    | Scalar(text: string, zero: bool)
    | Iface(inner: Value)
    | Ptr(ref: nat)
    | Wrapper(inner: Value, others: seq<Field>)
    | Struct(fields: seq<Field>)
    | List(items: seq<Value>)
    | Dict(entries: seq<Entry>)

  type Heap = map<nat, Value>

  /** What the search meets inside a value, in order. */
  datatype Edge = Secret | Child(value: Value)

  function FieldEdges(v: Value, k: nat): (es: seq<Edge>)
    requires v.Struct? && k <= |v.fields|
    ensures forall e :: e in es && e.Child? ==> e.value < v
    decreases |v.fields| - k
  {
    if k == |v.fields| then []
    else
      var f := v.fields[k];
      var rest := FieldEdges(v, k + 1);
      if !f.exported then rest else [if f.secret then Secret else Child(f.value)] + rest
  }

  function Edges(v: Value): (es: seq<Edge>)
    ensures forall e :: e in es && e.Child? ==> e.value < v
  {
    match v
    case Iface(x) => [Child(x)]
    case Wrapper(x, _) => [Child(x)]
    case Struct(_) => FieldEdges(v, 0)
    case List(items) => seq(|items|, i requires 0 <= i < |items| => Child(items[i]))
    case Dict(entries) => seq(|entries|, i requires 0 <= i < |entries| => Child(entries[i].value))
    case _ => []
  }

  // ---------------------------------------------------------------------------------------------
  // The search with its visited set
  // ---------------------------------------------------------------------------------------------

  datatype Found = Found(tag: bool, seen: set<nat>)

  function Search(heap: Heap, v: Value, seen: set<nat>): (r: Found)
    ensures seen <= r.seen
    decreases heap.Keys - seen, v, |Edges(v)| + 1
  {
    if v.Ptr? then
      if v.ref in seen || v.ref !in heap then Found(false, seen) else Search(heap, heap[v.ref], seen + {v.ref})
    else SearchFrom(heap, v, 0, seen)
  }

  function SearchFrom(heap: Heap, v: Value, i: nat, seen: set<nat>): (r: Found)
    requires i <= |Edges(v)|
    ensures seen <= r.seen
    decreases heap.Keys - seen, v, |Edges(v)| - i
  {
    if i == |Edges(v)| then Found(false, seen)
    else if Edges(v)[i].Secret? then Found(true, seen)
    else
      var r := Search(heap, Edges(v)[i].value, seen);
      if r.tag then r else SearchFrom(heap, v, i + 1, r.seen)
  }

  /** The visited set the source threads through the recursion by reference. */
  class Visited {
    var seen: set<nat>

    constructor ()
      ensures seen == {}
    {
      seen := {};
    }

    method HasRedactionTag(heap: Heap, v: Value) returns (tag: bool)
      modifies this
      ensures Found(tag, seen) == Search(heap, v, old(seen))
      decreases heap.Keys - seen, v
    {
      if v.Ptr? {
        if v.ref in seen || v.ref !in heap { return false; }
        seen := seen + {v.ref};
        tag := HasRedactionTag(heap, heap[v.ref]);
        return;
      }
      var edges := Edges(v);
      for i := 0 to |edges|
        invariant old(seen) <= seen
        invariant Search(heap, v, old(seen)) == SearchFrom(heap, v, i, seen)
      {
        if edges[i].Secret? { return true; }
        assert edges[i] in edges;
        tag := HasRedactionTag(heap, edges[i].value);
        if tag { return; }
      }
      return false;
    }
  }

  // ---------------------------------------------------------------------------------------------
  // Reachability
  // ---------------------------------------------------------------------------------------------

  predicate Annotated(v: Value) {
    Secret in Edges(v)
  }

  predicate Leads(heap: Heap, v: Value, w: Value) {
    Child(w) in Edges(v) || (v.Ptr? && v.ref in heap && w == heap[v.ref])
  }

  /** A path along the edges from v to a value with an annotated field. */
  ghost predicate TagPath(heap: Heap, v: Value, path: seq<Value>)
    decreases |path|
  {
    path != [] && path[0] == v
    && if |path| == 1 then Annotated(v) else Leads(heap, v, path[1]) && TagPath(heap, path[1], path[1..])
  }

  ghost predicate TagReachable(heap: Heap, v: Value) {
    exists path :: TagPath(heap, v, path)
  }

  lemma ExtendPath(heap: Heap, v: Value, w: Value, path: seq<Value>)
    requires Leads(heap, v, w) && TagPath(heap, w, path)
    ensures TagPath(heap, v, [v] + path)
  {
    assert ([v] + path)[1..] == path;
  }

  /** A positive answer comes with a path. */
  lemma {:induction false} SearchSound(heap: Heap, v: Value, seen: set<nat>) returns (path: seq<Value>)
    requires Search(heap, v, seen).tag
    ensures TagPath(heap, v, path)
    decreases heap.Keys - seen, v, |Edges(v)| + 1
  {
    if v.Ptr? {
      var rest := SearchSound(heap, heap[v.ref], seen + {v.ref});
      ExtendPath(heap, v, heap[v.ref], rest);
      path := [v] + rest;
    } else {
      path := SearchFromSound(heap, v, 0, seen);
    }
  }

  lemma {:induction false} SearchFromSound(heap: Heap, v: Value, i: nat, seen: set<nat>) returns (path: seq<Value>)
    requires i <= |Edges(v)| && SearchFrom(heap, v, i, seen).tag
    ensures TagPath(heap, v, path)
    decreases heap.Keys - seen, v, |Edges(v)| - i
  {
    var e := Edges(v)[i];
    assert e in Edges(v);
    if e.Secret? {
      path := [v];
    } else {
      var r := Search(heap, e.value, seen);
      if r.tag {
        var rest := SearchSound(heap, e.value, seen);
        ExtendPath(heap, v, e.value, rest);
        path := [v] + rest;
      } else {
        path := SearchFromSound(heap, v, i + 1, r.seen);
      }
    }
  }

  /** No annotated field inside v, and every pointer inside v leads into S. */
  ghost predicate Clear(heap: Heap, v: Value, S: set<nat>) {
    if v.Ptr? then v.ref in S || v.ref !in heap
    else forall e :: e in Edges(v) ==> e.Child? && Clear(heap, e.value, S)
  }

  lemma ClearGrows(heap: Heap, v: Value, S: set<nat>, T: set<nat>)
    requires Clear(heap, v, S) && S <= T
    ensures Clear(heap, v, T)
    decreases v
  {
    if !v.Ptr? {
      forall e | e in Edges(v) ensures e.Child? && Clear(heap, e.value, T) {
        ClearGrows(heap, e.value, S, T);
      }
    }
  }

  /** Every cell entered by the search, that is in T and not in S, is clear with respect to T. */
  ghost predicate CellsClear(heap: Heap, S: set<nat>, T: set<nat>) {
    S <= T && forall r :: r in T && r !in S ==> r in heap && Clear(heap, heap[r], T)
  }

  lemma CellsClearChain(heap: Heap, S: set<nat>, T: set<nat>, U: set<nat>)
    requires CellsClear(heap, S, T) && CellsClear(heap, T, U)
    ensures CellsClear(heap, S, U)
  {
    forall r | r in U && r !in S ensures r in heap && Clear(heap, heap[r], U) {
      if r in T {
        ClearGrows(heap, heap[r], T, U);
      }
    }
  }

  /** A negative answer leaves v and every cell entered clear. */
  lemma {:induction false} SearchComplete(heap: Heap, v: Value, seen: set<nat>)
    requires !Search(heap, v, seen).tag
    ensures Clear(heap, v, Search(heap, v, seen).seen) && CellsClear(heap, seen, Search(heap, v, seen).seen)
    decreases heap.Keys - seen, v, |Edges(v)| + 1
  {
    if v.Ptr? {
      if v.ref !in seen && v.ref in heap {
        SearchComplete(heap, heap[v.ref], seen + {v.ref});
      }
    } else {
      SearchFromComplete(heap, v, 0, seen);
    }
  }

  lemma {:induction false} SearchFromComplete(heap: Heap, v: Value, i: nat, seen: set<nat>)
    requires !v.Ptr? && i <= |Edges(v)| && !SearchFrom(heap, v, i, seen).tag
    ensures var T := SearchFrom(heap, v, i, seen).seen;
            && CellsClear(heap, seen, T)
            && forall k :: i <= k < |Edges(v)| ==> Edges(v)[k].Child? && Clear(heap, Edges(v)[k].value, T)
    decreases heap.Keys - seen, v, |Edges(v)| - i
  {
    if i < |Edges(v)| {
      var e := Edges(v)[i];
      assert e in Edges(v);
      var mid := Search(heap, e.value, seen).seen;
      var T := SearchFrom(heap, v, i, seen).seen;
      SearchComplete(heap, e.value, seen);
      SearchFromComplete(heap, v, i + 1, mid);
      CellsClearChain(heap, seen, mid, T);
      ClearGrows(heap, e.value, mid, T);
    }
  }

  lemma {:induction false} NoPathFromClear(heap: Heap, v: Value, S: set<nat>, path: seq<Value>)
    requires CellsClear(heap, {}, S) && Clear(heap, v, S)
    ensures !TagPath(heap, v, path)
    decreases |path|
  {
    if |path| > 1 && Leads(heap, v, path[1]) {
      NoPathFromClear(heap, path[1], S, path[1..]);
    }
  }

  /** On every finite heap, shared and cyclic pointers included: the answer is yes exactly when a tag is reachable. */
  lemma SearchIffReachable(heap: Heap, v: Value)
    ensures Search(heap, v, {}).tag <==> TagReachable(heap, v)
  {
    if Search(heap, v, {}).tag {
      var path := SearchSound(heap, v, {});
      assert TagPath(heap, v, path);
    } else {
      SearchComplete(heap, v, {});
      forall path ensures !TagPath(heap, v, path) {
        NoPathFromClear(heap, v, Search(heap, v, {}).seen, path);
      }
    }
  }
}
