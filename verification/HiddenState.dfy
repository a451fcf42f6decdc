/**
The hidden-state search of the credential store.

Before a token storage is marshalled, the store walks the object graph behind it and asks
whether a JSON encoding would lose anything: a struct field that encoding/json skips and that
is not the zero value. The graph may share and may be cyclic; the walk remembers references in
a visited set keyed by (type, pointer).

`Search` says what the recursive walk computes, `JsonValueHasHiddenState` is the walk in its own
mutable form, and `HiddenReachable` is an independent definition by paths.
*/
module HiddenState {
  import opened Options

  datatype Kind = PointerKind | MapKind | SliceKind

  /** A type of references. It fixes the kind, and whether its values themselves have a marshalling method. */
  datatype RefType = RefType(id: nat, kind: Kind, marshals: bool)

  /** Key of the visited set. Two slices over one array differ in length but not in this key. */
  datatype Visit = Visit(typeOfValue: RefType, pointer: nat)

  /** A reflect.Value: no value, an interface (nil or not), or a value of a concrete kind. */
  datatype Value =
    | Invalid
    | Interface(elem: Option<Value>)
    | Concrete(supportsJson: bool, shape: Shape)

  datatype Shape =
    | Scalar(zero: bool)
    | NilReference
    | Pointer(at: Visit)
    | Map(at: Visit)
    | Slice(at: Visit, len: nat)
    | Struct(fields: seq<Field>)
    | Array(elems: seq<Value>)

  datatype Field = Field(pkgPath: string, jsonTag: string, value: Value)

  /** Cells by identity: the pointee, the map values in iteration order, or the array behind a slice. */
  type Heap = map<Visit, seq<Value>>

  /** The part of a json struct tag before the first comma. */
  function TagName(tag: string): string {
    if tag == "" || tag[0] == ',' then "" else [tag[0]] + TagName(tag[1..])
  }

  /**
  What the code takes for a field that encoding/json skips. Two such fields are encoded after all: one with
  the tag `json:"-,"`, and an embedded struct of an unexported type, whose exported fields are promoted.
  */
  predicate Ignored(f: Field) {
    f.pkgPath != "" || TagName(f.jsonTag) == "-"
  }

  predicate IsZero(v: Value) {
    match v
    case Invalid => true
    case Interface(elem) => elem.None?
    case Concrete(_, shape) =>
      match shape
      case Scalar(zero) => zero
      case NilReference => true
      case Pointer(_) => false
      case Map(_) => false
      case Slice(_, _) => false
      case Struct(fields) => forall i | 0 <= i < |fields| :: IsZero(fields[i].value)
      case Array(elems) => forall i | 0 <= i < |elems| :: IsZero(elems[i])
  }

  /** A reference of this type can be of this kind, and supports JSON if all values of the type do. */
  predicate Typed(at: Visit, kind: Kind, supportsJson: bool) {
    at.typeOfValue.kind == kind && (at.typeOfValue.marshals ==> supportsJson)
  }

  /** Every reference in v is well typed and leads to a cell of the heap of the right size. */
  predicate Resident(h: Heap, v: Value)
    decreases v
  {
    match v
    case Invalid => true
    case Interface(elem) => elem.Some? ==> Resident(h, elem.value)
    case Concrete(supportsJson, shape) =>
      match shape
      case Scalar(_) => true
      case NilReference => true
      case Pointer(at) => Typed(at, PointerKind, supportsJson) && at in h && |h[at]| == 1
      case Map(at) => Typed(at, MapKind, supportsJson) && at in h
      case Slice(at, len) => Typed(at, SliceKind, supportsJson) && at in h && len <= |h[at]|
      case Struct(fields) => forall i | 0 <= i < |fields| :: Resident(h, fields[i].value)
      case Array(elems) => forall i | 0 <= i < |elems| :: Resident(h, elems[i])
  }

  predicate WellFormed(h: Heap) {
    forall id, i | id in h && 0 <= i < |h[id]| :: Resident(h, h[id][i])
  }

  /** Every slice in v spans its whole cell, so equal (type, pointer) means equal contents. */
  predicate WholeSlices(h: Heap, v: Value)
    decreases v
  {
    match v
    case Invalid => true
    case Interface(elem) => elem.Some? ==> WholeSlices(h, elem.value)
    case Concrete(_, shape) =>
      match shape
      case Slice(at, len) => at in h && len == |h[at]|
      case Struct(fields) => forall i | 0 <= i < |fields| :: WholeSlices(h, fields[i].value)
      case Array(elems) => forall i | 0 <= i < |elems| :: WholeSlices(h, elems[i])
      case _ => true
  }

  predicate WholeSliceHeap(h: Heap) {
    forall id, i | id in h && 0 <= i < |h[id]| :: WholeSlices(h, h[id][i])
  }

  // ---------------------------------------------------------------- what the walk computes

  datatype Outcome = Outcome(found: bool, visited: set<Visit>)

  function Search(h: Heap, v: Value, visited: set<Visit>): (r: Outcome)
    requires WellFormed(h) && Resident(h, v)
    ensures visited <= r.visited
    decreases h.Keys - visited, v
  {
    match v
    case Invalid => Outcome(false, visited)
    case Interface(elem) => if elem.None? then Outcome(false, visited) else Search(h, elem.value, visited)
    case Concrete(supportsJson, shape) =>
      if supportsJson then Outcome(false, visited)
      else
        match shape
        case Scalar(_) => Outcome(false, visited)
        case NilReference => Outcome(false, visited)
        case Pointer(at) => if at in visited then Outcome(false, visited) else SearchAll(h, h[at], visited + {at})
        case Map(at) => if at in visited then Outcome(false, visited) else SearchAll(h, h[at], visited + {at})
        case Slice(at, len) =>
          if at in visited then Outcome(false, visited) else SearchAll(h, h[at][..len], visited + {at})
        case Struct(fields) => SearchFields(h, fields, visited)
        case Array(elems) => SearchAll(h, elems, visited)
  }

  function SearchAll(h: Heap, vs: seq<Value>, visited: set<Visit>): (r: Outcome)
    requires WellFormed(h) && forall i | 0 <= i < |vs| :: Resident(h, vs[i])
    ensures visited <= r.visited
    decreases h.Keys - visited, vs
  {
    if vs == [] then Outcome(false, visited)
    else
      var first := Search(h, vs[0], visited);
      if first.found then first else SearchAll(h, vs[1..], first.visited)
  }

  function SearchFields(h: Heap, fields: seq<Field>, visited: set<Visit>): (r: Outcome)
    requires WellFormed(h) && forall i | 0 <= i < |fields| :: Resident(h, fields[i].value)
    ensures visited <= r.visited
    decreases h.Keys - visited, fields
  {
    if fields == [] then Outcome(false, visited)
    else if Ignored(fields[0]) then
      if !IsZero(fields[0].value) then Outcome(true, visited) else SearchFields(h, fields[1..], visited)
    else
      var first := Search(h, fields[0].value, visited);
      if first.found then first else SearchFields(h, fields[1..], first.visited)
  }

  // ---------------------------------------------------------------- the walk itself

  /** The Go map that all recursive calls share. */
  class VisitedSet {
    var seen: set<Visit>

    constructor ()
      ensures seen == {}
    {
      seen := {};
    }

    /** Reports whether the reference was seen before, and marks it as seen. */
    method ReflectionValueVisited(at: Visit) returns (before: bool)
      modifies this
      ensures before == (at in old(seen))
      ensures seen == old(seen) + {at}
    {
      if at in seen {
        return true;
      }
      seen := seen + {at};
      return false;
    }
  }

  method JsonValueHasHiddenState(h: Heap, v: Value, visited: VisitedSet) returns (found: bool)
    requires WellFormed(h) && Resident(h, v)
    modifies visited
    ensures Outcome(found, visited.seen) == Search(h, v, old(visited.seen))
    decreases h.Keys - visited.seen, v, 1
  {
    match v {
      case Invalid =>
        return false;
      case Interface(elem) =>
        if elem.None? {
          return false;
        }
        found := JsonValueHasHiddenState(h, elem.value, visited);
      case Concrete(supportsJson, shape) =>
        if supportsJson {
          return false;
        }
        match shape {
          case Scalar(_) =>
          case NilReference =>
          case Pointer(at) =>
            var before := visited.ReflectionValueVisited(at);
            if before {
              assert visited.seen == old(visited.seen);
              return false;
            }
            found := AnyHasHiddenState(h, h[at], visited);
            return;
          case Map(at) =>
            var before := visited.ReflectionValueVisited(at);
            if before {
              assert visited.seen == old(visited.seen);
              return false;
            }
            found := AnyHasHiddenState(h, h[at], visited);
            return;
          case Slice(at, len) =>
            var before := visited.ReflectionValueVisited(at);
            if before {
              assert visited.seen == old(visited.seen);
              return false;
            }
            found := AnyHasHiddenState(h, h[at][..len], visited);
            return;
          case Struct(fields) =>
            var i := 0;
            while i < |fields|
              invariant 0 <= i <= |fields|
              invariant old(visited.seen) <= visited.seen
              invariant SearchFields(h, fields, old(visited.seen)) == SearchFields(h, fields[i..], visited.seen)
            {
              if Ignored(fields[i]) {
                if !IsZero(fields[i].value) {
                  return true;
                }
              } else {
                var hidden := JsonValueHasHiddenState(h, fields[i].value, visited);
                if hidden {
                  return true;
                }
              }
              assert fields[i..][1..] == fields[i + 1..];
              i := i + 1;
            }
          case Array(elems) =>
            found := AnyHasHiddenState(h, elems, visited);
            return;
        }
        return false;
    }
  }

  /** The loop over map values, slice elements or array elements. */
  method AnyHasHiddenState(h: Heap, vs: seq<Value>, visited: VisitedSet) returns (found: bool)
    requires WellFormed(h) && forall i | 0 <= i < |vs| :: Resident(h, vs[i])
    modifies visited
    ensures Outcome(found, visited.seen) == SearchAll(h, vs, old(visited.seen))
    decreases h.Keys - visited.seen, vs, 0
  {
    for i := 0 to |vs|
      invariant old(visited.seen) <= visited.seen
      invariant SearchAll(h, vs, old(visited.seen)) == SearchAll(h, vs[i..], visited.seen)
    {
      var hidden := JsonValueHasHiddenState(h, vs[i], visited);
      if hidden {
        return true;
      }
      assert vs[i..][1..] == vs[i + 1..];
    }
    return false;
  }

  // ---------------------------------------------------------------- reachability by paths

  /** encoding/json, walking v, goes on to c. It goes nowhere from a value that marshals itself. */
  ghost predicate Visible(h: Heap, v: Value, c: Value) {
    match v
    case Invalid => false
    case Interface(elem) => elem == Some(c)
    case Concrete(supportsJson, shape) =>
      !supportsJson &&
      match shape
      case Scalar(_) => false
      case NilReference => false
      case Pointer(at) => at in h && c in h[at]
      case Map(at) => at in h && c in h[at]
      case Slice(at, len) => at in h && len <= |h[at]| && c in h[at][..len]
      case Struct(fields) => exists i | 0 <= i < |fields| :: !Ignored(fields[i]) && fields[i].value == c
      case Array(elems) => c in elems
  }

  /** v is a struct whose own encoding would drop a non-zero field. */
  ghost predicate Exposes(v: Value) {
    v.Concrete? && !v.supportsJson && v.shape.Struct? &&
    exists i | 0 <= i < |v.shape.fields| :: Ignored(v.shape.fields[i]) && !IsZero(v.shape.fields[i].value)
  }

  ghost predicate IsPath(h: Heap, p: seq<Value>) {
    |p| > 0 && (|p| > 1 ==> Visible(h, p[0], p[1]) && IsPath(h, p[1..]))
  }

  ghost predicate IsHiddenPath(h: Heap, v: Value, p: seq<Value>) {
    IsPath(h, p) && p[0] == v && Exposes(p[|p| - 1])
  }

  ghost predicate HiddenReachable(h: Heap, v: Value) {
    exists p :: IsHiddenPath(h, v, p)
  }

  // ---------------------------------------------------------------- found means reachable

  lemma ExtendPath(h: Heap, v: Value, c: Value, p: seq<Value>)
    requires Visible(h, v, c) && IsHiddenPath(h, c, p)
    ensures IsHiddenPath(h, v, [v] + p)
  {
  }

  lemma {:induction false} SearchSound(h: Heap, v: Value, visited: set<Visit>) returns (p: seq<Value>)
    requires WellFormed(h) && Resident(h, v)
    requires Search(h, v, visited).found
    ensures IsHiddenPath(h, v, p)
    decreases h.Keys - visited, v, 1
  {
    if v.Interface? {
      var q := SearchSound(h, v.elem.value, visited);
      ExtendPath(h, v, v.elem.value, q);
      return [v] + q;
    }
    match v.shape {
      case Pointer(at) =>
        var c, q := SearchAllSound(h, h[at], visited + {at});
        ExtendPath(h, v, c, q);
        p := [v] + q;
      case Map(at) =>
        var c, q := SearchAllSound(h, h[at], visited + {at});
        ExtendPath(h, v, c, q);
        p := [v] + q;
      case Slice(at, len) =>
        var c, q := SearchAllSound(h, h[at][..len], visited + {at});
        ExtendPath(h, v, c, q);
        p := [v] + q;
      case Array(elems) =>
        var c, q := SearchAllSound(h, elems, visited);
        ExtendPath(h, v, c, q);
        p := [v] + q;
      case Struct(fields) =>
        var i, q := SearchFieldsSound(h, fields, visited);
        if q == [] {
          return [v];
        }
        ExtendPath(h, v, fields[i].value, q);
        p := [v] + q;
    }
  }

  lemma {:induction false} SearchAllSound(h: Heap, vs: seq<Value>, visited: set<Visit>)
    returns (c: Value, p: seq<Value>)
    requires WellFormed(h) && forall i | 0 <= i < |vs| :: Resident(h, vs[i])
    requires SearchAll(h, vs, visited).found
    ensures c in vs && IsHiddenPath(h, c, p)
    decreases h.Keys - visited, vs, 0
  {
    var first := Search(h, vs[0], visited);
    if first.found {
      c := vs[0];
      p := SearchSound(h, vs[0], visited);
    } else {
      c, p := SearchAllSound(h, vs[1..], first.visited);
    }
  }

  /** Either field i is itself a dropped non-zero field (p is empty) or it is visible and starts p. */
  lemma {:induction false} SearchFieldsSound(h: Heap, fields: seq<Field>, visited: set<Visit>)
    returns (i: nat, p: seq<Value>)
    requires WellFormed(h) && forall i | 0 <= i < |fields| :: Resident(h, fields[i].value)
    requires SearchFields(h, fields, visited).found
    ensures i < |fields|
    ensures p == [] ==> Ignored(fields[i]) && !IsZero(fields[i].value)
    ensures p != [] ==> !Ignored(fields[i]) && IsHiddenPath(h, fields[i].value, p)
    decreases h.Keys - visited, fields, 0
  {
    if Ignored(fields[0]) {
      if !IsZero(fields[0].value) {
        return 0, [];
      }
      i, p := SearchFieldsSound(h, fields[1..], visited);
      i := i + 1;
    } else {
      var first := Search(h, fields[0].value, visited);
      if first.found {
        p := SearchSound(h, fields[0].value, visited);
        return 0, p;
      }
      i, p := SearchFieldsSound(h, fields[1..], first.visited);
      i := i + 1;
    }
  }

  // ---------------------------------------------------------------- not found means unreachable

  /** Nothing hidden shows up in v before a reference is followed, and every such reference is in seen. */
  ghost predicate Clean(v: Value, seen: set<Visit>)
    decreases v
  {
    match v
    case Invalid => true
    case Interface(elem) => elem.Some? ==> Clean(elem.value, seen)
    case Concrete(supportsJson, shape) =>
      supportsJson ||
      match shape
      case Scalar(_) => true
      case NilReference => true
      case Pointer(at) => at in seen
      case Map(at) => at in seen
      case Slice(at, _) => at in seen
      case Struct(fields) =>
        forall i | 0 <= i < |fields| ::
          if Ignored(fields[i]) then IsZero(fields[i].value) else Clean(fields[i].value, seen)
      case Array(elems) => forall i | 0 <= i < |elems| :: Clean(elems[i], seen)
  }

  lemma {:induction false} CleanMonotone(v: Value, seen: set<Visit>, more: set<Visit>)
    requires Clean(v, seen) && seen <= more
    ensures Clean(v, more)
    decreases v
  {
    match v
    case Invalid =>
    case Interface(elem) =>
      if elem.Some? { CleanMonotone(elem.value, seen, more); }
    case Concrete(supportsJson, shape) =>
      if !supportsJson {
        match shape
        case Struct(fields) =>
          forall i | 0 <= i < |fields| && !Ignored(fields[i]) ensures Clean(fields[i].value, more) {
            CleanMonotone(fields[i].value, seen, more);
          }
        case Array(elems) =>
          forall i | 0 <= i < |elems| ensures Clean(elems[i], more) {
            CleanMonotone(elems[i], seen, more);
          }
        case _ =>
      }
  }

  /** The walk along visible edges gets from v to c. */
  ghost predicate LeadsTo(h: Heap, v: Value, c: Value) {
    exists p :: IsPath(h, p) && p[0] == v && p[|p| - 1] == c
  }

  lemma {:induction false} PathOn(h: Heap, p: seq<Value>, c: Value)
    requires IsPath(h, p) && Visible(h, p[|p| - 1], c)
    ensures IsPath(h, p + [c])
    decreases |p|
  {
    if |p| > 1 {
      PathOn(h, p[1..], c);
      assert (p + [c])[1..] == p[1..] + [c];
    } else {
      assert (p + [c])[1..] == [c];
    }
  }

  lemma LeadsOn(h: Heap, root: Value, v: Value, c: Value)
    requires LeadsTo(h, root, v) && Visible(h, v, c)
    ensures LeadsTo(h, root, c)
  {
    var p :| IsPath(h, p) && p[0] == root && p[|p| - 1] == v;
    PathOn(h, p, c);
  }

  lemma LeadsOnToAll(h: Heap, root: Value, v: Value, vs: seq<Value>)
    requires LeadsTo(h, root, v) && forall c | c in vs :: Visible(h, v, c)
    ensures forall i | 0 <= i < |vs| :: LeadsTo(h, root, vs[i])
  {
    forall i | 0 <= i < |vs| ensures LeadsTo(h, root, vs[i]) {
      LeadsOn(h, root, v, vs[i]);
    }
  }

  /** The first w values of the cell are clean, and they are all of it or what some slice below root shows. */
  ghost predicate CleanUpTo(h: Heap, root: Value, id: Visit, w: nat, seen: set<Visit>)
    requires id in h
  {
    && w <= |h[id]| && (w == |h[id]| || LeadsTo(h, root, Concrete(false, Slice(id, w))))
    && forall i | 0 <= i < w :: Clean(h[id][i], seen)
  }

  /** Every cell in ids is clean as far as it was walked. */
  ghost predicate CleanCells(h: Heap, root: Value, ids: set<Visit>, seen: set<Visit>) {
    forall id | id in ids && id in h :: exists w: nat :: CleanUpTo(h, root, id, w, seen)
  }

  lemma CleanCellsMonotone(h: Heap, root: Value, ids: set<Visit>, seen: set<Visit>, more: set<Visit>)
    requires CleanCells(h, root, ids, seen) && seen <= more
    ensures CleanCells(h, root, ids, more)
  {
    forall id | id in ids && id in h ensures exists w: nat :: CleanUpTo(h, root, id, w, more) {
      var w: nat :| CleanUpTo(h, root, id, w, seen);
      forall i | 0 <= i < w ensures Clean(h[id][i], more) {
        CleanMonotone(h[id][i], seen, more);
      }
      assert CleanUpTo(h, root, id, w, more);
    }
  }

  lemma {:induction false} SearchComplete(h: Heap, root: Value, v: Value, visited: set<Visit>)
    requires WellFormed(h) && Resident(h, v) && LeadsTo(h, root, v)
    requires !Search(h, v, visited).found
    ensures var r := Search(h, v, visited).visited; Clean(v, r) && CleanCells(h, root, r - visited, r)
    decreases h.Keys - visited, v, 1
  {
    match v
    case Invalid =>
    case Interface(elem) =>
      if elem.Some? {
        LeadsOn(h, root, v, elem.value);
        SearchComplete(h, root, elem.value, visited);
      }
    case Concrete(supportsJson, shape) =>
      if !supportsJson {
        match shape
        case Scalar(_) =>
        case NilReference =>
        case Pointer(at) =>
          assert h[at][..|h[at]|] == h[at];
          if at !in visited { CellComplete(h, root, v, at, |h[at]|, visited); }
        case Map(at) =>
          assert h[at][..|h[at]|] == h[at];
          if at !in visited { CellComplete(h, root, v, at, |h[at]|, visited); }
        case Slice(at, len) =>
          if at !in visited { CellComplete(h, root, v, at, len, visited); }
        case Struct(fields) =>
          forall i | 0 <= i < |fields| && !Ignored(fields[i]) ensures LeadsTo(h, root, fields[i].value) {
            LeadsOn(h, root, v, fields[i].value);
          }
          SearchFieldsComplete(h, root, fields, visited);
        case Array(elems) =>
          LeadsOnToAll(h, root, v, elems);
          SearchAllComplete(h, root, elems, visited);
      }
  }

  /** v refers to the first w values of the cell. */
  predicate Spans(h: Heap, v: Value, at: Visit, w: nat) {
    v.Concrete? && !v.supportsJson && at in h && w <= |h[at]| &&
    match v.shape
    case Pointer(id) => id == at && w == |h[at]|
    case Map(id) => id == at && w == |h[at]|
    case Slice(id, len) => id == at && w == len
    case _ => false
  }

  /** A cell that is entered for the first time is clean as far as the reference shows it. */
  lemma {:induction false} CellComplete(h: Heap, root: Value, v: Value, at: Visit, w: nat, visited: set<Visit>)
    requires WellFormed(h) && at in h && at !in visited && Spans(h, v, at, w) && LeadsTo(h, root, v)
    requires !SearchAll(h, h[at][..w], visited + {at}).found
    ensures var r := SearchAll(h, h[at][..w], visited + {at}).visited; CleanCells(h, root, r - visited, r)
    decreases h.Keys - visited, v, 0
  {
    var vs := h[at][..w];
    var r := SearchAll(h, vs, visited + {at}).visited;
    assert w == |h[at]| ==> vs == h[at];
    LeadsOnToAll(h, root, v, vs);
    SearchAllComplete(h, root, vs, visited + {at});
    assert forall i | 0 <= i < w :: h[at][i] == vs[i];
    assert CleanUpTo(h, root, at, w, r);
    forall id | id in r - visited && id in h ensures exists u: nat :: CleanUpTo(h, root, id, u, r) {
      if id != at {
        assert id in r - (visited + {at});
      }
    }
  }

  lemma {:induction false} SearchAllComplete(h: Heap, root: Value, vs: seq<Value>, visited: set<Visit>)
    requires WellFormed(h) && forall i | 0 <= i < |vs| :: Resident(h, vs[i])
    requires forall i | 0 <= i < |vs| :: LeadsTo(h, root, vs[i])
    requires !SearchAll(h, vs, visited).found
    ensures var r := SearchAll(h, vs, visited).visited;
            (forall i | 0 <= i < |vs| :: Clean(vs[i], r)) && CleanCells(h, root, r - visited, r)
    decreases h.Keys - visited, vs, 0
  {
    if vs != [] {
      var first := Search(h, vs[0], visited).visited;
      var r := SearchAll(h, vs, visited).visited;
      SearchComplete(h, root, vs[0], visited);
      SearchAllComplete(h, root, vs[1..], first);
      CleanMonotone(vs[0], first, r);
      CleanCellsMonotone(h, root, first - visited, first, r);
      assert forall i | 0 < i < |vs| :: vs[i] == vs[1..][i - 1];
    }
  }

  lemma {:induction false} SearchFieldsComplete(h: Heap, root: Value, fields: seq<Field>, visited: set<Visit>)
    requires WellFormed(h) && forall i | 0 <= i < |fields| :: Resident(h, fields[i].value)
    requires forall i | 0 <= i < |fields| && !Ignored(fields[i]) :: LeadsTo(h, root, fields[i].value)
    requires !SearchFields(h, fields, visited).found
    ensures var r := SearchFields(h, fields, visited).visited;
            Clean(Concrete(false, Struct(fields)), r) && CleanCells(h, root, r - visited, r)
    decreases h.Keys - visited, fields, 0
  {
    if fields != [] {
      var rest := fields[1..];
      var r := SearchFields(h, fields, visited).visited;
      if Ignored(fields[0]) {
        SearchFieldsComplete(h, root, rest, visited);
      } else {
        var first := Search(h, fields[0].value, visited).visited;
        SearchComplete(h, root, fields[0].value, visited);
        SearchFieldsComplete(h, root, rest, first);
        CleanMonotone(fields[0].value, first, r);
        CleanCellsMonotone(h, root, first - visited, first, r);
      }
      assert Clean(Concrete(false, Struct(rest)), r);
      assert forall i | 0 < i < |fields| :: fields[i] == rest[i - 1];
    }
  }

  /** v leads to a reference that shows element i of the cell. */
  ghost predicate Shows(h: Heap, v: Value, at: Visit, i: nat) {
    exists c, w: nat :: Spans(h, c, at, w) && LeadsTo(h, v, c) && i < w
  }

  /**
  v leads to a slice that stops before element i of its array and to a reference that shows the element, and
  something hidden is reachable from there.
  */
  ghost predicate Overlooked(h: Heap, v: Value, at: Visit, short: nat, i: nat) {
    at in h && short <= i < |h[at]| && LeadsTo(h, v, Concrete(false, Slice(at, short))) && Shows(h, v, at, i) &&
    HiddenReachable(h, h[at][i])
  }

  /** The edge by which a path leaves what is clean starts at a reference that shows more than was walked. */
  lemma LeavingEdge(h: Heap, root: Value, seen: set<Visit>, v: Value, c: Value)
    returns (at: Visit, short: nat, i: nat)
    requires Clean(v, seen) && CleanCells(h, root, seen, seen) && LeadsTo(h, root, v)
    requires Visible(h, v, c) && !Clean(c, seen)
    ensures at in h && short <= i < |h[at]| && h[at][i] == c
    ensures LeadsTo(h, root, Concrete(false, Slice(at, short))) && Shows(h, root, at, i)
  {
    at := v.shape.at;
    var w := if v.shape.Slice? then v.shape.len else |h[at]|;
    assert h[at][..|h[at]|] == h[at];
    assert c in h[at][..w];
    i :| 0 <= i < w && h[at][i] == c;
    assert Spans(h, v, at, w);
    short :| CleanUpTo(h, root, at, short, seen);
  }

  lemma {:induction false} HiddenPathLeaves(h: Heap, root: Value, seen: set<Visit>, p: seq<Value>)
    returns (at: Visit, short: nat, i: nat)
    requires IsPath(h, p) && Clean(p[0], seen) && CleanCells(h, root, seen, seen) && LeadsTo(h, root, p[0])
    requires Exposes(p[|p| - 1])
    ensures Overlooked(h, root, at, short, i)
    decreases |p|
  {
    assert |p| > 1;
    if Clean(p[1], seen) {
      LeadsOn(h, root, p[0], p[1]);
      at, short, i := HiddenPathLeaves(h, root, seen, p[1..]);
    } else {
      at, short, i := LeavingEdge(h, root, seen, p[0], p[1]);
      assert IsHiddenPath(h, p[1], p[1..]);
    }
  }

  // ---------------------------------------------------------------- the results

  /** Whatever the slices look like, a reported hidden field is really there. */
  lemma FoundIsReachable(h: Heap, v: Value)
    requires WellFormed(h) && Resident(h, v)
    requires Search(h, v, {}).found
    ensures HiddenReachable(h, v)
  {
    var p := SearchSound(h, v, {});
  }

  /** On every heap, what the search misses lies behind a slice that is shorter than another reference. */
  lemma MissedIsOverlooked(h: Heap, v: Value) returns (at: Visit, short: nat, i: nat)
    requires WellFormed(h) && Resident(h, v)
    requires HiddenReachable(h, v) && !Search(h, v, {}).found
    ensures Overlooked(h, v, at, short, i)
  {
    assert IsPath(h, [v]);
    assert LeadsTo(h, v, v);
    SearchComplete(h, v, v, {});
    var seen := Search(h, v, {}).visited;
    assert seen - {} == seen;
    var p :| IsHiddenPath(h, v, p);
    at, short, i := HiddenPathLeaves(h, v, seen, p);
  }

  /** No slice below v stops short of something hidden that another reference below v shows. */
  ghost predicate NothingOverlooked(h: Heap, v: Value) {
    forall at, short, i :: !Overlooked(h, v, at, short, i)
  }

  /** Then the search decides reachability, on every finite heap, cyclic or shared. */
  lemma SearchDecidesReachability(h: Heap, v: Value)
    requires WellFormed(h) && Resident(h, v) && NothingOverlooked(h, v)
    ensures Search(h, v, {}).found <==> HiddenReachable(h, v)
  {
    if Search(h, v, {}).found {
      FoundIsReachable(h, v);
    } else if HiddenReachable(h, v) {
      var at, short, i := MissedIsOverlooked(h, v);
    }
  }

  lemma {:induction false} PathsKeepWholeSlices(h: Heap, p: seq<Value>)
    requires WholeSliceHeap(h) && IsPath(h, p) && WholeSlices(h, p[0])
    ensures WholeSlices(h, p[|p| - 1])
    decreases |p|
  {
    if |p| > 1 {
      PathsKeepWholeSlices(h, p[1..]);
    }
  }

  /** In particular where equal (type, pointer) means equal contents. */
  lemma WholeSlicesOverlookNothing(h: Heap, v: Value)
    requires WholeSliceHeap(h) && WholeSlices(h, v)
    ensures NothingOverlooked(h, v)
  {
    forall at, short, i ensures !Overlooked(h, v, at, short, i) {
      if Overlooked(h, v, at, short, i) {
        var p :| IsPath(h, p) && p[0] == v && p[|p| - 1] == Concrete(false, Slice(at, short));
        PathsKeepWholeSlices(h, p);
        assert false;
      }
    }
  }

  method TokenStorageHasHiddenState(h: Heap, storage: Value) returns (found: bool)
    requires WellFormed(h) && Resident(h, storage)
    ensures found ==> HiddenReachable(h, storage)
    ensures NothingOverlooked(h, storage) ==> (found <==> HiddenReachable(h, storage))
    ensures WholeSliceHeap(h) && WholeSlices(h, storage) ==> (found <==> HiddenReachable(h, storage))
  {
    var visited := new VisitedSet();
    found := JsonValueHasHiddenState(h, storage, visited);
    if found {
      FoundIsReachable(h, storage);
    }
    if WholeSliceHeap(h) && WholeSlices(h, storage) {
      WholeSlicesOverlookNothing(h, storage);
    }
    if NothingOverlooked(h, storage) {
      SearchDecidesReachability(h, storage);
    }
  }

  // ---------------------------------------------------------------- slices of different lengths

  /** The cell is an array behind slices of a type that does not marshal itself. */
  predicate Walkable(at: Visit) {
    Typed(at, SliceKind, false)
  }

  lemma {:induction false} PathsStayResident(h: Heap, p: seq<Value>)
    requires WellFormed(h) && IsPath(h, p) && Resident(h, p[0])
    ensures Resident(h, p[|p| - 1])
    decreases |p|
  {
    if |p| > 1 {
      PathsStayResident(h, p[1..]);
    }
  }

  /** A struct with two exported slices over the array `at`, the shorter one first. */
  function TwoWindows(at: Visit, short: nat, long: nat): Value {
    Concrete(false, Struct([
      Field("", "", Concrete(false, Slice(at, short))),
      Field("", "", Concrete(false, Slice(at, long)))]))
  }

  /** If nothing hidden is reachable in the shorter slice, the search ends without a result. */
  lemma SecondWindowIsSkipped(h: Heap, at: Visit, short: nat, long: nat)
    requires WellFormed(h) && at in h && Walkable(at) && short <= long <= |h[at]|
    requires forall j | 0 <= j < short :: !HiddenReachable(h, h[at][j])
    ensures Resident(h, TwoWindows(at, short, long)) && !Search(h, TwoWindows(at, short, long), {}).found
  {
    var fields := TwoWindows(at, short, long).shape.fields;
    assert !Ignored(fields[0]) && !Ignored(fields[1]);
    var none: set<Visit> := {};
    var first := SearchAll(h, h[at][..short], none + {at});
    if first.found {
      var c, p := SearchAllSound(h, h[at][..short], none + {at});
    }
    assert Search(h, fields[0].value, {}) == first;
    assert fields[1..][0] == fields[1] && fields[1..][1..] == [];
    assert Search(h, fields[1].value, first.visited) == Outcome(false, first.visited);
    assert SearchFields(h, fields[1..], first.visited) == Outcome(false, first.visited);
    assert SearchFields(h, fields, {}) == Outcome(false, first.visited);
  }

  lemma WindowReaches(h: Heap, at: Visit, short: nat, long: nat, i: nat)
    requires at in h && short <= long <= |h[at]| && i < long && HiddenReachable(h, h[at][i])
    ensures HiddenReachable(h, TwoWindows(at, short, long))
  {
    var v := TwoWindows(at, short, long);
    var window := v.shape.fields[1].value;
    assert !Ignored(v.shape.fields[1]);
    assert h[at][..long][i] == h[at][i];
    var p :| IsHiddenPath(h, h[at][i], p);
    ExtendPath(h, window, h[at][i], p);
    ExtendPath(h, v, window, [window] + p);
  }

  lemma FirstEdge(h: Heap, v: Value, p: seq<Value>)
    requires IsHiddenPath(h, v, p) && !Exposes(v)
    ensures |p| > 1 && Visible(h, v, p[1]) && IsHiddenPath(h, p[1], p[1..])
  {
  }

  lemma WindowReached(h: Heap, at: Visit, short: nat, long: nat) returns (i: nat)
    requires at in h && short <= long <= |h[at]| && HiddenReachable(h, TwoWindows(at, short, long))
    ensures i < long && HiddenReachable(h, h[at][i])
  {
    var v := TwoWindows(at, short, long);
    var p :| IsHiddenPath(h, v, p);
    assert !Ignored(v.shape.fields[0]) && !Ignored(v.shape.fields[1]);
    FirstEdge(h, v, p);
    FirstEdge(h, p[1], p[1..]);
    var c := p[1..][1];
    assert c in h[at][..long];
    i :| 0 <= i < long && h[at][..long][i] == c;
  }

  /**
  The visited key carries no length. For every heap, array behind a slice and two lengths such that nothing hidden is
  reachable from the shorter slice: the storage that holds the shorter slice first and the longer one second
  is reported clean, and that is wrong exactly if something hidden is reachable from an element between.
  */
  lemma ShorterSliceFirstHidesLonger(h: Heap, at: Visit, short: nat, long: nat)
    requires WellFormed(h) && at in h && Walkable(at) && short <= long <= |h[at]|
    requires forall j | 0 <= j < short :: !HiddenReachable(h, h[at][j])
    ensures var v := TwoWindows(at, short, long);
            && Resident(h, v) && !Search(h, v, {}).found
            && (HiddenReachable(h, v) <==> exists i | short <= i < long :: HiddenReachable(h, h[at][i]))
  {
    SecondWindowIsSkipped(h, at, short, long);
    if HiddenReachable(h, TwoWindows(at, short, long)) {
      var i := WindowReached(h, at, short, long);
      assert short <= i < long;
    }
    if i :| short <= i < long && HiddenReachable(h, h[at][i]) {
      WindowReaches(h, at, short, long, i);
    }
  }

  /** What is overlooked lies in an array behind slices. */
  lemma OverlookedIsWalkable(h: Heap, v: Value, at: Visit, short: nat, i: nat)
    requires WellFormed(h) && Resident(h, v) && Overlooked(h, v, at, short, i)
    ensures Walkable(at)
  {
    var p :| IsPath(h, p) && p[0] == v && p[|p| - 1] == Concrete(false, Slice(at, short));
    PathsStayResident(h, p);
  }

  /**
  The search is right for every storage over a heap exactly if no array behind slices leads to anything
  hidden. What lies behind pointers and maps only is never missed.
  */
  lemma RightForEveryStorageExactly(h: Heap)
    requires WellFormed(h)
    ensures (forall v | Resident(h, v) :: Search(h, v, {}).found <==> HiddenReachable(h, v)) <==>
            (forall at, i | at in h && 0 <= i < |h[at]| && at.typeOfValue.kind == SliceKind &&
                !at.typeOfValue.marshals ::
               !HiddenReachable(h, h[at][i]))
  {
    if at, i :| at in h && Walkable(at) && 0 <= i < |h[at]| && HiddenReachable(h, h[at][i]) {
      ShorterSliceFirstHidesLonger(h, at, 0, i + 1);
      assert Resident(h, TwoWindows(at, 0, i + 1));
    } else {
      forall v | Resident(h, v) ensures Search(h, v, {}).found <==> HiddenReachable(h, v) {
        forall at, short, i ensures !Overlooked(h, v, at, short, i) {
          if Overlooked(h, v, at, short, i) {
            OverlookedIsWalkable(h, v, at, short, i);
            assert false;
          }
        }
        SearchDecidesReachability(h, v);
      }
    }
  }

  const SECRET := Concrete(false, Struct([Field("pkg", "", Concrete(false, Scalar(false)))]))

  /** An empty slice before a slice with one struct that has an unexported non-zero field. */
  lemma EmptySliceHidesSecret(at: Visit)
    requires Walkable(at)
    ensures var h: Heap := map[at := [SECRET]];
            var v := TwoWindows(at, 0, 1);
            WellFormed(h) && Resident(h, v) && HiddenReachable(h, v) && !Search(h, v, {}).found
  {
    var h: Heap := map[at := [SECRET]];
    assert Ignored(SECRET.shape.fields[0]) && !IsZero(SECRET.shape.fields[0].value);
    assert IsHiddenPath(h, SECRET, [SECRET]);
    assert HiddenReachable(h, h[at][0]);
    ShorterSliceFirstHidesLonger(h, at, 0, 1);
  }

  // ---------------------------------------------------------------- structs of one field

  function OneField(pkgPath: string, tag: string, value: Value): Value {
    Concrete(false, Struct([Field(pkgPath, tag, value)]))
  }

  /** An unexported field, or one with the tag "-" alone or followed by options. */
  predicate Unencoded(pkgPath: string, tag: string) {
    pkgPath != "" || tag == "-" || (|tag| >= 2 && tag[..2] == "-,")
  }

  /** c is a field of the struct v, of whatever kind, or an element of the array v. */
  ghost predicate Holds(v: Value, c: Value) {
    v.Concrete? &&
    match v.shape
    case Struct(fields) => exists f | f in fields :: f.value == c
    case Array(elems) => c in elems
    case _ => false
  }

  /** A value whose bits are not zero: a scalar, a reference, or an interface that holds something. */
  predicate NonZeroLeaf(v: Value) {
    match v
    case Invalid => false
    case Interface(elem) => elem.Some?
    case Concrete(_, shape) => shape == Scalar(false) || shape.Pointer? || shape.Map? || shape.Slice?
  }

  /** Going down through structs and arrays, p ends at a value that is not zero. */
  ghost predicate IsNonZeroPath(v: Value, p: seq<Value>) {
    && |p| > 0 && p[0] == v && NonZeroLeaf(p[|p| - 1])
    && forall i | 0 <= i < |p| - 1 :: Holds(p[i], p[i + 1])
  }

  ghost predicate HasNonZeroPart(v: Value) {
    exists p :: IsNonZeroPath(v, p)
  }

  lemma NonZeroPathOn(v: Value, c: Value, p: seq<Value>)
    requires Holds(v, c) && IsNonZeroPath(c, p)
    ensures IsNonZeroPath(v, [v] + p)
  {
    var q := [v] + p;
    assert forall i | 0 <= i < |p| :: q[i + 1] == p[i];
  }

  lemma {:induction false} NonZeroHasPart(v: Value)
    requires !IsZero(v)
    ensures HasNonZeroPart(v)
    decreases v
  {
    if NonZeroLeaf(v) {
      assert IsNonZeroPath(v, [v]);
    } else if v.shape.Struct? {
      var i :| 0 <= i < |v.shape.fields| && !IsZero(v.shape.fields[i].value);
      NonZeroHasPart(v.shape.fields[i].value);
      var p :| IsNonZeroPath(v.shape.fields[i].value, p);
      assert v.shape.fields[i] in v.shape.fields;
      NonZeroPathOn(v, v.shape.fields[i].value, p);
    } else {
      var i :| 0 <= i < |v.shape.elems| && !IsZero(v.shape.elems[i]);
      NonZeroHasPart(v.shape.elems[i]);
      var p :| IsNonZeroPath(v.shape.elems[i], p);
      NonZeroPathOn(v, v.shape.elems[i], p);
    }
  }

  lemma {:induction false} PartIsNonZero(v: Value, p: seq<Value>)
    requires IsNonZeroPath(v, p)
    ensures !IsZero(v)
    decreases |p|
  {
    if |p| > 1 {
      assert Holds(p[0], p[1]);
      PartIsNonZero(p[1], p[1..]);
    }
  }

  lemma TagNameIsEmpty(tag: string)
    ensures TagName(tag) == "" <==> tag == "" || tag[0] == ','
  {
  }

  lemma TagNameIsDash(tag: string)
    ensures TagName(tag) == "-" <==> tag == "-" || (|tag| >= 2 && tag[..2] == "-,")
  {
    var dash := "-";
    if tag == "" || tag[0] == ',' {
      assert TagName(tag) == "";
      assert |tag| >= 2 ==> tag[..2][0] == ',';
    } else {
      var rest := TagName(tag[1..]);
      TagNameIsEmpty(tag[1..]);
      assert TagName(tag) == [tag[0]] + rest;
      assert TagName(tag) == dash ==> TagName(tag)[0] == '-' && |TagName(tag)| == 1;
      assert tag[0] == '-' && rest == "" ==> TagName(tag) == dash;
      assert tag == dash <==> tag[0] == '-' && tag[1..] == "";
      if |tag| >= 2 {
        assert tag[..2][0] == tag[0] && tag[..2][1] == tag[1] && tag[1..][0] == tag[1];
        assert tag[..2] == "-," <==> tag[0] == '-' && tag[1] == ',';
      }
    }
  }

  lemma SearchOneField(h: Heap, f: Field)
    requires WellFormed(h) && Resident(h, f.value)
    ensures Search(h, Concrete(false, Struct([f])), {}).found ==
            if Ignored(f) then !IsZero(f.value) else Search(h, f.value, {}).found
  {
    var fields := [f];
    assert fields[1..] == [];
    assert SearchFields(h, fields, {}).found == if Ignored(f) then !IsZero(f.value) else Search(h, f.value, {}).found;
  }

  /**
  Which fields count, said outright: a struct of one unexported field, or of one field with the tag "-" or
  "-," and options, is reported exactly if something in the field is not zero; with any other tag it is
  reported exactly if the field's own value is.
  */
  lemma OneFieldExactly(h: Heap, pkgPath: string, tag: string, value: Value)
    requires WellFormed(h) && Resident(h, value)
    ensures var found := Search(h, OneField(pkgPath, tag, value), {}).found;
            if Unencoded(pkgPath, tag) then found <==> HasNonZeroPart(value) else found <==> Search(h, value, {}).found
  {
    TagNameIsDash(tag);
    SearchOneField(h, Field(pkgPath, tag, value));
    if HasNonZeroPart(value) {
      var p :| IsNonZeroPath(value, p);
      PartIsNonZero(value, p);
    } else if !IsZero(value) {
      NonZeroHasPart(value);
    }
  }

  /** So a non-zero scalar is reported exactly in a field that is not encoded. */
  lemma ScalarFieldExactly(h: Heap, pkgPath: string, tag: string)
    requires WellFormed(h)
    ensures Search(h, OneField(pkgPath, tag, Concrete(false, Scalar(false))), {}).found <==>
            pkgPath != "" || tag == "-" || (|tag| >= 2 && tag[..2] == "-,")
  {
    var value := Concrete(false, Scalar(false));
    OneFieldExactly(h, pkgPath, tag, value);
    assert IsNonZeroPath(value, [value]);
  }

  /** Values without contents, and values that marshal themselves, are never reported. */
  lemma LeavesAreClean(h: Heap, supportsJson: bool, zero: bool, v: Value)
    requires WellFormed(h) && Resident(h, v) && v.Concrete? && v.supportsJson
    ensures Resident(h, Invalid) && !Search(h, Invalid, {}).found
    ensures Resident(h, Interface(None)) && !Search(h, Interface(None), {}).found
    ensures var leaf := Concrete(supportsJson, NilReference); Resident(h, leaf) && !Search(h, leaf, {}).found
    ensures var leaf := Concrete(supportsJson, Scalar(zero)); Resident(h, leaf) && !Search(h, leaf, {}).found
    ensures !Search(h, v, {}).found
  {
  }

  /** A secret behind a pointer, in a map, in a slice, in an interface or in an array is found. */
  lemma SecretIsFound(at: Visit)
    requires !at.typeOfValue.marshals
    ensures var h: Heap := map[at := [SECRET]];
            var v := Concrete(false, match at.typeOfValue.kind
                                     case PointerKind => Pointer(at)
                                     case MapKind => Map(at)
                                     case SliceKind => Slice(at, 1));
            && WellFormed(h) && Resident(h, v) && WholeSlices(h, v) && Search(h, v, {}).found
            && Search(h, Interface(Some(SECRET)), {}).found && Search(h, Concrete(false, Array([SECRET])), {}).found
  {
    var h: Heap := map[at := [SECRET]];
    assert Ignored(SECRET.shape.fields[0]) && !IsZero(SECRET.shape.fields[0].value);
    forall visited: set<Visit> ensures Search(h, SECRET, visited).found && SearchAll(h, [SECRET], visited).found {
    }
    assert h[at][..1] == [SECRET];
  }
}
