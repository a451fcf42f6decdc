/**
The OpenAPI 3.1 to 3.0 projection of cmd/openapiogen/main.go: union types with "null" become a
single type with `nullable`, and object/array/null becomes a `oneOf` with `nullable`.

`Normalize` is the rewriting as a function; the methods are the recursion and the loops of the
program, proved to compute it. This module shows that the rewriting is idempotent and leaves nothing
to rewrite; OpenApiMeaning shows what it does to the meaning of a schema.
*/
module OpenApiNormalize {
  /** A parsed YAML value. A mapping with a key that is not a string is a MixedMap, of which the values matter. */
  datatype Yaml =
    | Null
    | Bool(b: bool)
    | Num(n: real)
    | Str(s: string)
    | List(items: seq<Yaml>)
    | Map(members: map<string, Yaml>)
    | MixedMap(values: seq<Yaml>)

  type Members = map<string, Yaml>

  function Normalize(v: Yaml): Yaml
    decreases v, 1
  {
    match v
    case List(items) => List(seq(|items|, i requires 0 <= i < |items| => Normalize(items[i])))
    case Map(m) => Map(UnionType(Children(v)))
    case _ => v
  }

  /** The members of a mapping, each normalized. */
  function Children(v: Yaml): (n: Members)
    requires v.Map?
    ensures n.Keys == v.members.Keys && forall k | k in n :: n[k] == Normalize(v.members[k])
    decreases v, 0
  {
    map k | k in v.members :: Normalize(v.members[k])
  }

  predicate AllStrings(types: seq<Yaml>) {
    forall t | t in types :: t.Str?
  }

  function NonNull(types: seq<Yaml>): (r: seq<Yaml>)
    ensures forall t :: t in r <==> t in types && t != Str("null")
  {
    if types == [] then []
    else (if types[0] == Str("null") then [] else [types[0]]) + NonNull(types[1..])
  }

  predicate NullableUnion(m: Members) {
    "type" in m && m["type"].List? && AllStrings(m["type"].items) && Str("null") in m["type"].items
  }

  predicate SingleType(m: Members) {
    NullableUnion(m) && |NonNull(m["type"].items)| == 1
  }

  predicate ObjectOrArray(m: Members) {
    NullableUnion(m) && NonNull(m["type"].items) == [Str("object"), Str("array")]
  }

  predicate Rewritable(m: Members) {
    SingleType(m) || ObjectOrArray(m)
  }

  function ObjectBranch(m: Members): Members {
    if "additionalProperties" in m
    then map["type" := Str("object"), "additionalProperties" := m["additionalProperties"]]
    else map["type" := Str("object")]
  }

  function ArrayBranch(m: Members): Members {
    if "items" in m then map["type" := Str("array"), "items" := m["items"]] else map["type" := Str("array")]
  }

  function UnionType(m: Members): Members {
    if SingleType(m) then m["type" := NonNull(m["type"].items)[0]]["nullable" := Bool(true)]
    else if ObjectOrArray(m) then
      (m - {"additionalProperties", "items", "type"})
        ["oneOf" := List([Map(ObjectBranch(m)), Map(ArrayBranch(m))])]["nullable" := Bool(true)]
    else m
  }

  // ---------------------------------------------------------------- the program

  method NormalizeUnionType(schema: Members) returns (out: Members)
    ensures out == UnionType(schema)
  {
    out := schema;
    if "type" !in schema || !schema["type"].List? {
      return;
    }
    var types := schema["type"].items;
    var hasNull := false;
    var nonNull: seq<Yaml> := [];
    for i := 0 to |types|
      invariant AllStrings(types[..i])
      invariant hasNull <==> Str("null") in types[..i]
      invariant nonNull == NonNull(types[..i])
    {
      NonNullSnoc(types[..i], types[i]);
      assert types[..i + 1] == types[..i] + [types[i]];
      if !types[i].Str? {
        assert types[i] in types;
        return;
      }
      if types[i].s == "null" {
        hasNull := true;
        continue;
      }
      nonNull := nonNull + [types[i]];
    }
    assert types[..|types|] == types;
    if !hasNull {
      return;
    }
    if |nonNull| == 1 {
      out := out["type" := nonNull[0]];
      out := out["nullable" := Bool(true)];
      return;
    }
    if |nonNull| == 2 && nonNull[0] == Str("object") && nonNull[1] == Str("array") {
      var object_: Members := map["type" := Str("object")];
      if "additionalProperties" in out {
        object_ := object_["additionalProperties" := out["additionalProperties"]];
        out := out - {"additionalProperties"};
      }
      var array_: Members := map["type" := Str("array")];
      if "items" in out {
        array_ := array_["items" := out["items"]];
        out := out - {"items"};
      }
      out := out - {"type"};
      assert object_ == ObjectBranch(schema) && array_ == ArrayBranch(schema);
      assert out == schema - {"additionalProperties", "items", "type"};
      out := out["oneOf" := List([Map(object_), Map(array_)])];
      out := out["nullable" := Bool(true)];
    }
  }

  lemma {:induction false} NonNullSnoc(types: seq<Yaml>, t: Yaml)
    ensures NonNull(types + [t]) == NonNull(types) + (if t == Str("null") then [] else [t])
  {
    if types != [] {
      NonNullSnoc(types[1..], t);
      assert (types + [t])[1..] == types[1..] + [t];
    }
  }

  method NormalizeForOgen(value: Yaml) returns (out: Yaml)
    ensures out == Normalize(value)
    decreases value
  {
    match value {
      case List(items) =>
        var done: seq<Yaml> := [];
        for i := 0 to |items|
          invariant |done| == i && forall j | 0 <= j < i :: done[j] == Normalize(items[j])
        {
          var item := NormalizeForOgen(items[i]);
          done := done + [item];
        }
        assert done == Normalize(value).items;
        out := List(done);
      case Map(m) =>
        var done: Members := map[];
        var pending := m.Keys;
        while pending != {}
          invariant pending <= m.Keys && done.Keys == m.Keys - pending
          invariant forall k | k in done :: done[k] == Normalize(m[k])
          decreases pending
        {
          var key :| key in pending;
          var item := NormalizeForOgen(m[key]);
          done := done[key := item];
          pending := pending - {key};
        }
        assert done == Children(value);
        var schema := NormalizeUnionType(done);
        out := Map(schema);
      case _ =>
        out := value;
    }
  }

  // ---------------------------------------------------------------- idempotence

  lemma UnionTypeLeavesNothing(m: Members)
    ensures !Rewritable(UnionType(m))
  {
    if SingleType(m) {
      assert NonNull(m["type"].items)[0] in m["type"].items;
    }
  }

  /** Every child of a rewritten node is a child of the node or one of the new scalars and branches. */
  lemma UnionTypeKeepsFixpoints(m: Members)
    requires forall k | k in m :: Normalize(m[k]) == m[k]
    ensures forall k | k in UnionType(m) :: Normalize(UnionType(m)[k]) == UnionType(m)[k]
  {
    if SingleType(m) {
      assert NonNull(m["type"].items)[0] in m["type"].items;
    } else if ObjectOrArray(m) {
      BranchesAreFixed(m);
    }
  }

  lemma BranchesAreFixed(m: Members)
    requires forall k | k in m :: Normalize(m[k]) == m[k]
    ensures var branches := List([Map(ObjectBranch(m)), Map(ArrayBranch(m))]); Normalize(branches) == branches
  {
    BranchIsFixed(ObjectBranch(m));
    BranchIsFixed(ArrayBranch(m));
    var branches := List([Map(ObjectBranch(m)), Map(ArrayBranch(m))]);
    assert Normalize(branches).items == branches.items;
  }

  lemma BranchIsFixed(m: Members)
    requires "type" in m && m["type"].Str?
    requires forall k | k in m :: Normalize(m[k]) == m[k]
    ensures Normalize(Map(m)) == Map(m)
  {
  }

  lemma {:induction false} NormalizeIsIdempotent(v: Yaml)
    ensures Normalize(Normalize(v)) == Normalize(v)
    decreases v
  {
    match v
    case List(items) =>
      forall i | 0 <= i < |items| ensures Normalize(Normalize(items[i])) == Normalize(items[i]) {
        NormalizeIsIdempotent(items[i]);
      }
      assert Normalize(Normalize(v)).items == Normalize(v).items;
    case Map(m) =>
      var n := Children(v);
      forall k | k in n ensures Normalize(n[k]) == n[k] {
        NormalizeIsIdempotent(m[k]);
      }
      UnionTypeKeepsFixpoints(n);
      UnionTypeLeavesNothing(n);
      var u := UnionType(n);
      assert Children(Map(u)) == u;
    case _ =>
  }

  // ---------------------------------------------------------------- nothing is left to rewrite

  /** No mapping anywhere in v is in a form that the rewriting would change. */
  predicate Tidy(v: Yaml) {
    match v
    case List(items) => forall i | 0 <= i < |items| :: Tidy(items[i])
    case Map(m) => !Rewritable(m) && forall k | k in m :: Tidy(m[k])
    case MixedMap(values) => forall i | 0 <= i < |values| :: Tidy(values[i])
    case _ => true
  }

  /** The member is overwritten when its mapping is rewritten. */
  predicate Overwritten(m: Members, k: string) {
    (k == "nullable" && Rewritable(m)) || (k == "oneOf" && ObjectOrArray(m))
  }

  /** Every surviving mapping with a non-string key, which the recursion does not enter, is tidy inside. */
  predicate MixedMapsTidy(v: Yaml) {
    match v
    case List(items) => forall i | 0 <= i < |items| :: MixedMapsTidy(items[i])
    case Map(m) => forall k | k in m && !Overwritten(m, k) :: MixedMapsTidy(m[k])
    case MixedMap(values) => forall i | 0 <= i < |values| :: Tidy(values[i])
    case _ => true
  }

  /** Normalizing the members does not change what the `type` member says about the rewriting. */
  lemma ChildrenKeepRewritability(m: Members)
    ensures var n := Children(Map(m));
            SingleType(n) == SingleType(m) && ObjectOrArray(n) == ObjectOrArray(m)
  {
    var n := Children(Map(m));
    assert "type" in m ==> n["type"] == Normalize(m["type"]);
    if "type" in m && m["type"].List? {
      var a, b := m["type"].items, n["type"].items;
      assert |a| == |b| && forall i | 0 <= i < |a| :: b[i] == Normalize(a[i]);
      if AllStrings(a) || AllStrings(b) {
        forall i | 0 <= i < |a| ensures a[i] == b[i] {
          assert a[i] in a && b[i] in b;
        }
        assert a == b;
      }
    }
  }

  lemma StringTypesAreTidy(n: Members)
    requires NullableUnion(n)
    ensures Tidy(n["type"])
  {
  }

  lemma TidyObjectBranch(n: Members)
    ensures Tidy(Map(ObjectBranch(n))) <==> ("additionalProperties" in n ==> Tidy(n["additionalProperties"]))
  {
    var branch := ObjectBranch(n);
    assert !Rewritable(branch) && Tidy(branch["type"]);
    if "additionalProperties" in n {
      assert branch["additionalProperties"] == n["additionalProperties"];
    }
  }

  lemma TidyArrayBranch(n: Members)
    ensures Tidy(Map(ArrayBranch(n))) <==> ("items" in n ==> Tidy(n["items"]))
  {
    var branch := ArrayBranch(n);
    assert !Rewritable(branch) && Tidy(branch["type"]);
    if "items" in n {
      assert branch["items"] == n["items"];
    }
  }

  ghost predicate KeptMembersTidy(n: Members) {
    forall k | k in n && !Overwritten(n, k) :: Tidy(n[k])
  }

  lemma TidyAfterSingle(n: Members)
    requires SingleType(n)
    ensures Tidy(Map(UnionType(n))) <==> KeptMembersTidy(n)
  {
    UnionTypeLeavesNothing(n);
    StringTypesAreTidy(n);
    var u := UnionType(n);
    assert NonNull(n["type"].items)[0] in n["type"].items;
    assert Tidy(u["type"]) && Tidy(u["nullable"]);
    assert u.Keys == n.Keys + {"nullable"};
    assert forall k | k in n && k != "type" && k != "nullable" :: u[k] == n[k];
    assert !ObjectOrArray(n);
  }

  lemma TidyOneOf(n: Members)
    requires ObjectOrArray(n)
    ensures "oneOf" in UnionType(n)
    ensures Tidy(UnionType(n)["oneOf"]) <==>
            ("additionalProperties" in n ==> Tidy(n["additionalProperties"])) && ("items" in n ==> Tidy(n["items"]))
  {
    TidyObjectBranch(n);
    TidyArrayBranch(n);
    var branches := UnionType(n)["oneOf"].items;
    assert Tidy(UnionType(n)["oneOf"]) <==> Tidy(branches[0]) && Tidy(branches[1]);
  }

  lemma TidyAfterBranches(n: Members)
    requires ObjectOrArray(n)
    ensures Tidy(Map(UnionType(n))) <==> KeptMembersTidy(n)
  {
    UnionTypeLeavesNothing(n);
    StringTypesAreTidy(n);
    TidyOneOf(n);
    var u := UnionType(n);
    var moved := {"additionalProperties", "items", "type"};
    assert u.Keys == (n.Keys - moved) + {"oneOf", "nullable"};
    assert forall k | k in u && k != "oneOf" && k != "nullable" :: u[k] == n[k];
    assert Tidy(u["nullable"]);
    if KeptMembersTidy(n) {
      assert "items" in n ==> !Overwritten(n, "items");
      assert "additionalProperties" in n ==> !Overwritten(n, "additionalProperties");
    }
    if Tidy(Map(u)) {
      assert Tidy(u["oneOf"]);
    }
  }

  lemma TidyAfterUnion(n: Members)
    ensures Tidy(Map(UnionType(n))) <==> KeptMembersTidy(n)
  {
    if SingleType(n) {
      TidyAfterSingle(n);
    } else if ObjectOrArray(n) {
      TidyAfterBranches(n);
    }
  }

  lemma TidyMembers(m: Members, n: Members)
    requires n == Children(Map(m))
    requires forall k | k in m :: Tidy(n[k]) <==> MixedMapsTidy(m[k])
    ensures Tidy(Normalize(Map(m))) <==> MixedMapsTidy(Map(m))
  {
    ChildrenKeepRewritability(m);
    TidyAfterUnion(n);
    assert forall k | k in m :: Overwritten(m, k) == Overwritten(n, k);
  }

  /** The result has nothing left to rewrite exactly if no mapping with a non-string key hides something. */
  lemma {:induction false} NormalizeTidies(v: Yaml)
    ensures Tidy(Normalize(v)) <==> MixedMapsTidy(v)
    decreases v
  {
    match v
    case List(items) =>
      forall i | 0 <= i < |items| ensures Tidy(Normalize(items[i])) <==> MixedMapsTidy(items[i]) {
        NormalizeTidies(items[i]);
      }
      assert forall i | 0 <= i < |items| :: Normalize(v).items[i] == Normalize(items[i]);
    case Map(m) =>
      var n := Children(v);
      forall k | k in m ensures Tidy(n[k]) <==> MixedMapsTidy(m[k]) {
        NormalizeTidies(m[k]);
      }
      TidyMembers(m, n);
    case _ =>
  }

  predicate StringKeyed(v: Yaml) {
    match v
    case List(items) => forall i | 0 <= i < |items| :: StringKeyed(items[i])
    case Map(m) => forall k | k in m :: StringKeyed(m[k])
    case MixedMap(_) => false
    case _ => true
  }

  /** In a document whose mappings all have string keys, nothing is left anywhere. */
  lemma {:induction false} StringKeyedBecomesTidy(v: Yaml)
    requires StringKeyed(v)
    ensures Tidy(Normalize(v))
  {
    StringKeyedHasNoMixedMaps(v);
    NormalizeTidies(v);
  }

  lemma {:induction false} StringKeyedHasNoMixedMaps(v: Yaml)
    requires StringKeyed(v)
    ensures MixedMapsTidy(v)
    decreases v
  {
    match v
    case List(items) =>
      forall i | 0 <= i < |items| ensures MixedMapsTidy(items[i]) {
        StringKeyedHasNoMixedMaps(items[i]);
      }
    case Map(m) =>
      forall k | k in m ensures MixedMapsTidy(m[k]) {
        StringKeyedHasNoMixedMaps(m[k]);
      }
    case _ =>
  }

  /** A mapping with a non-string key is returned as it is, whatever it holds that should be rewritten. */
  lemma IntegerKeysAreNotEntered(values: seq<Yaml>, v: Yaml)
    requires v in values && !Tidy(v)
    ensures Normalize(MixedMap(values)) == MixedMap(values) && !Tidy(Normalize(MixedMap(values)))
  {
    var i :| 0 <= i < |values| && values[i] == v;
    assert !Tidy(values[i]);
  }

  lemma UnionTypeIsSingle(m: Members, name: string)
    requires "type" in m && m["type"] == List([Str(name), Str("null")]) && name != "null"
    ensures SingleType(m)
  {
    var types, tail := [Str(name), Str("null")], [Str("null")];
    assert types[1] == Str("null") && types[1..] == tail && tail[1..] == [];
    assert NonNull(tail) == [];
    assert NonNull(types) == [Str(name)];
  }

  /** For every type name, a union with null is such a value: a response map by status code keeps it. */
  lemma UnionTypeIsUntidy(name: string)
    requires name != "null"
    ensures !Tidy(Map(map["type" := List([Str(name), Str("null")])]))
  {
    var m: Members := map["type" := List([Str(name), Str("null")])];
    UnionTypeIsSingle(m, name);
  }
}
