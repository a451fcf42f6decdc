/**
What the OpenAPI projection does to the meaning of a schema.

`Accepts` evaluates a schema on a JSON instance: `type` after section 6.1.1 of JSON Schema Validation
2020-12; `oneOf`, `anyOf`, `allOf`, `not`, `prefixItems`, `items`, `properties`, `patternProperties` and
`additionalProperties` after section 10 of JSON Schema Core 2020-12. Every other keyword is a parameter.
The two dialects differ in `nullable` (section 4.7.24 of OpenAPI 3.0.3): 3.1 does not know it, and the
target reads `nullable: true` as adding null to the whole schema, which is what the rewriting relies on
where it puts `nullable` beside `oneOf` and no `type`.
*/
module OpenApiMeaning {
  import opened OpenApiNormalize

  datatype Json =
    | JNull
    | JBool(b: bool)
    | JNum(n: real)
    | JStr(s: string)
    | JArr(elems: seq<Json>)
    | JObj(props: map<string, Json>)

  datatype Dialect = V31 | V30

  /** matches evaluates a pattern on a property name, other evaluates a keyword not listed in KEYWORDS. */
  datatype Rules = Rules(matches: (string, string) -> bool, other: (string, Yaml, Json) -> bool)

  const KEYWORDS := {"type", "nullable", "oneOf", "anyOf", "allOf", "not", "prefixItems", "items",
                     "properties", "patternProperties", "additionalProperties"}

  predicate TypeMatches(name: string, x: Json) {
    match x
    case JNull => name == "null"
    case JBool(_) => name == "boolean"
    case JNum(n) => name == "number" || (name == "integer" && n.Floor as real == n)
    case JStr(_) => name == "string"
    case JArr(_) => name == "array"
    case JObj(_) => name == "object"
  }

  /** One name or a union of names; anything else asserts nothing. */
  predicate TypeOk(t: Yaml, x: Json) {
    match t
    case Str(name) => TypeMatches(name, x)
    case List(items) => exists i | 0 <= i < |items| :: items[i].Str? && TypeMatches(items[i].s, x)
    case _ => true
  }

  function CountTrue(vs: seq<bool>): nat {
    if vs == [] then 0 else (if vs[0] then 1 else 0) + CountTrue(vs[1..])
  }

  predicate IsNullable(m: Members) {
    "nullable" in m && m["nullable"] == Bool(true)
  }

  predicate Accepts(rules: Rules, d: Dialect, s: Yaml, x: Json)
    decreases s, 2
  {
    match s
    case Bool(b) => b
    case Map(m) => (d.V30? && IsNullable(m) && x.JNull?) || Holds(rules, d, s, x)
    case _ => true
  }

  /** Every keyword but nullable. */
  predicate Holds(rules: Rules, d: Dialect, s: Yaml, x: Json)
    requires s.Map?
    decreases s, 1
  {
    var m := s.members;
    && ("type" in m ==> TypeOk(m["type"], x))
    && ("oneOf" in m && m["oneOf"].List? ==> CountTrue(Verdicts(rules, d, m["oneOf"], x)) == 1)
    && ("items" in m ==> ItemsOk(rules, d, m["items"], PrefixLength(m), x))
    && ("additionalProperties" in m ==> AdditionalOk(rules, d, m["additionalProperties"], m, x))
    && RestHolds(rules, d, s, x)
  }

  /** The keywords that the rewriting never touches. */
  predicate RestHolds(rules: Rules, d: Dialect, s: Yaml, x: Json)
    requires s.Map?
    decreases s, 0
  {
    var m := s.members;
    && ("anyOf" in m && m["anyOf"].List? ==> CountTrue(Verdicts(rules, d, m["anyOf"], x)) >= 1)
    && ("allOf" in m && m["allOf"].List? ==> CountTrue(Verdicts(rules, d, m["allOf"], x)) == |m["allOf"].items|)
    && ("not" in m ==> !Accepts(rules, d, m["not"], x))
    && ("prefixItems" in m && m["prefixItems"].List? ==> PrefixOk(rules, d, m["prefixItems"], x))
    && ("properties" in m && m["properties"].Map? ==> PropertiesOk(rules, d, m["properties"], x))
    && ("patternProperties" in m && m["patternProperties"].Map? ==> PatternsOk(rules, d, m["patternProperties"], x))
    && (forall k | k in m && k !in KEYWORDS :: rules.other(k, m[k], x))
  }

  function Verdicts(rules: Rules, d: Dialect, s: Yaml, x: Json): (vs: seq<bool>)
    requires s.List?
    ensures |vs| == |s.items| && forall i | 0 <= i < |vs| :: vs[i] == Accepts(rules, d, s.items[i], x)
    decreases s, 0
  {
    seq(|s.items|, i requires 0 <= i < |s.items| => Accepts(rules, d, s.items[i], x))
  }

  function PrefixLength(m: Members): nat {
    if "prefixItems" in m && m["prefixItems"].List? then |m["prefixItems"].items| else 0
  }

  predicate PrefixOk(rules: Rules, d: Dialect, s: Yaml, x: Json)
    requires s.List?
    decreases s, 0
  {
    x.JArr? ==> forall i | 0 <= i < |s.items| && i < |x.elems| :: Accepts(rules, d, s.items[i], x.elems[i])
  }

  predicate ItemsOk(rules: Rules, d: Dialect, s: Yaml, from: nat, x: Json)
    decreases s, 3
  {
    x.JArr? ==> forall i | from <= i < |x.elems| :: Accepts(rules, d, s, x.elems[i])
  }

  predicate PropertiesOk(rules: Rules, d: Dialect, s: Yaml, x: Json)
    requires s.Map?
    decreases s, 0
  {
    x.JObj? ==> forall k | k in s.members && k in x.props :: Accepts(rules, d, s.members[k], x.props[k])
  }

  predicate PatternsOk(rules: Rules, d: Dialect, s: Yaml, x: Json)
    requires s.Map?
    decreases s, 0
  {
    x.JObj? ==> forall p, k | p in s.members && k in x.props && rules.matches(p, k) ::
        Accepts(rules, d, s.members[p], x.props[k])
  }

  /** The property is evaluated by an adjacent properties or patternProperties. */
  predicate Covered(rules: Rules, m: Members, k: string) {
    || ("properties" in m && m["properties"].Map? && k in m["properties"].members)
    || ("patternProperties" in m && m["patternProperties"].Map? &&
        exists p | p in m["patternProperties"].members :: rules.matches(p, k))
  }

  predicate AdditionalOk(rules: Rules, d: Dialect, s: Yaml, m: Members, x: Json)
    decreases s, 3
  {
    x.JObj? ==> forall k | k in x.props && !Covered(rules, m, k) :: Accepts(rules, d, s, x.props[k])
  }

  // ---------------------------------------------------------------- when the rewriting keeps the meaning

  /**
  What is left of an object/array/null node with its moved keywords: an object or an array, and the moved
  keyword speaks about every property and every element.
  */
  predicate BranchTakes(rules: Rules, d: Dialect, m: Members, x: Json) {
    || (x.JObj? && ("additionalProperties" in m ==>
          forall k | k in x.props :: Accepts(rules, d, m["additionalProperties"], x.props[k])))
    || (x.JArr? && ("items" in m ==>
          forall i | 0 <= i < |x.elems| :: Accepts(rules, d, m["items"], x.elems[i])))
  }

  /** additionalProperties accepts what stands at the covered properties, too. */
  predicate CoveredPass(rules: Rules, m: Members, x: Json) {
    x.JObj? && "additionalProperties" in m ==>
      forall k | k in x.props && Covered(rules, m, k) :: Accepts(rules, V31, m["additionalProperties"], x.props[k])
  }

  /** items accepts the elements that prefixItems speaks about, too. */
  predicate PrefixPass(rules: Rules, m: Members, x: Json) {
    x.JArr? && "items" in m ==>
      forall i | 0 <= i < |x.elems| && i < PrefixLength(m) :: Accepts(rules, V31, m["items"], x.elems[i])
  }

  /** What the moved keywords newly speak about, they accept wherever the schema does. */
  ghost predicate MovesHarmless(rules: Rules, s: Yaml)
    requires s.Map?
  {
    forall x | Accepts(rules, V31, s, x) :: CoveredPass(rules, s.members, x) && PrefixPass(rules, s.members, x)
  }

  /** A oneOf of the node's own, which counts before the rewriting. */
  predicate OwnOneOfHolds(rules: Rules, m: Members, x: Json) {
    "oneOf" in m && m["oneOf"].List? ==> CountTrue(Verdicts(rules, V31, m["oneOf"], x)) == 1
  }

  /** A oneOf of the node's own, which the rewriting overwrites, refuses nothing that the rest lets through. */
  ghost predicate OwnOneOfRedundant(rules: Rules, s: Yaml)
    requires s.Map?
  {
    forall x | BranchTakes(rules, V31, s.members, x) && RestHolds(rules, V31, s, x) ::
      OwnOneOfHolds(rules, s.members, x)
  }

  /** A node that is rewritten, or that says `nullable: true` itself, accepts null, and moving keywords is harmless. */
  ghost predicate NodeConvertible(rules: Rules, s: Yaml)
    requires s.Map?
  {
    && (Rewritable(s.members) || IsNullable(s.members) ==> Accepts(rules, V31, s, JNull))
    && (ObjectOrArray(s.members) ==> MovesHarmless(rules, s) && OwnOneOfRedundant(rules, s))
  }

  /** A schema that is convertible at every schema position, and whose other keywords do not change meaning. */
  ghost predicate Convertible(rules: Rules, s: Yaml)
    decreases s, 1
  {
    match s
    case Map(m) =>
      && NodeConvertible(rules, s)
      && (forall k | k in m && k !in KEYWORDS :: SameOther(rules, k, m[k], Normalize(m[k])))
      && (forall k | k in m && k in {"oneOf", "anyOf", "allOf", "prefixItems"} && m[k].List? ::
            ListConvertible(rules, m[k]))
      && (forall k | k in m && k in {"not", "items", "additionalProperties"} :: Convertible(rules, m[k]))
      && (forall k | k in m && k in {"properties", "patternProperties"} && m[k].Map? :: MapConvertible(rules, m[k]))
    case _ => true
  }

  ghost predicate SameOther(rules: Rules, k: string, a: Yaml, b: Yaml) {
    forall x :: rules.other(k, a, x) == rules.other(k, b, x)
  }

  ghost predicate ListConvertible(rules: Rules, s: Yaml)
    requires s.List?
    decreases s, 0
  {
    forall i | 0 <= i < |s.items| :: Convertible(rules, s.items[i])
  }

  /** A table of schemas by name. A name "type" is a property like any other, so it must not hold a union. */
  ghost predicate MapConvertible(rules: Rules, s: Yaml)
    requires s.Map?
    decreases s, 0
  {
    !Rewritable(s.members) && forall k | k in s.members :: Convertible(rules, s.members[k])
  }

  // ---------------------------------------------------------------- same meaning, part by part

  /** b means in 3.0 what a means in 3.1. */
  ghost predicate Same(rules: Rules, a: Yaml, b: Yaml) {
    forall x :: Accepts(rules, V31, a, x) == Accepts(rules, V30, b, x)
  }

  ghost predicate SameList(rules: Rules, a: Yaml, b: Yaml) {
    a.List? == b.List? &&
    (a.List? ==> |a.items| == |b.items| && forall i | 0 <= i < |a.items| :: Same(rules, a.items[i], b.items[i]))
  }

  ghost predicate SameMap(rules: Rules, a: Yaml, b: Yaml) {
    a.Map? == b.Map? &&
    (a.Map? ==>
       a.members.Keys == b.members.Keys && forall k | k in a.members :: Same(rules, a.members[k], b.members[k]))
  }

  ghost predicate SameMembers(rules: Rules, m: Members, n: Members) {
    && m.Keys == n.Keys
    && ("type" in m ==> forall x :: TypeOk(m["type"], x) == TypeOk(n["type"], x))
    && (forall k | k in m && k in {"oneOf", "anyOf", "allOf", "prefixItems"} :: SameList(rules, m[k], n[k]))
    && (forall k | k in m && k in {"not", "items", "additionalProperties"} :: Same(rules, m[k], n[k]))
    && (forall k | k in m && k in {"properties", "patternProperties"} :: SameMap(rules, m[k], n[k]))
    && (forall k | k in m && k !in KEYWORDS :: SameOther(rules, k, m[k], n[k]))
  }

  lemma SameAdditional(rules: Rules, m: Members, n: Members, x: Json)
    requires SameMembers(rules, m, n) && "additionalProperties" in m
    ensures AdditionalOk(rules, V31, m["additionalProperties"], m, x) ==
            AdditionalOk(rules, V30, n["additionalProperties"], n, x)
  {
  }

  lemma SameItems(rules: Rules, m: Members, n: Members, x: Json)
    requires SameMembers(rules, m, n) && "items" in m
    ensures ItemsOk(rules, V31, m["items"], PrefixLength(m), x) == ItemsOk(rules, V30, n["items"], PrefixLength(n), x)
  {
  }

  lemma SameListKeyword(rules: Rules, m: Members, n: Members, k: string, x: Json)
    requires SameMembers(rules, m, n) && k in {"oneOf", "anyOf", "allOf", "prefixItems"}
    ensures k in m ==> m[k].List? == n[k].List?
    ensures k in m && m[k].List? ==>
              && |m[k].items| == |n[k].items|
              && Verdicts(rules, V31, m[k], x) == Verdicts(rules, V30, n[k], x)
              && PrefixOk(rules, V31, m[k], x) == PrefixOk(rules, V30, n[k], x)
  {
  }

  lemma SameMapKeyword(rules: Rules, m: Members, n: Members, k: string, x: Json)
    requires SameMembers(rules, m, n) && k in {"properties", "patternProperties"}
    ensures k in m ==> m[k].Map? == n[k].Map?
    ensures k in m && m[k].Map? ==>
              && PropertiesOk(rules, V31, m[k], x) == PropertiesOk(rules, V30, n[k], x)
              && PatternsOk(rules, V31, m[k], x) == PatternsOk(rules, V30, n[k], x)
  {
  }

  lemma SameNot(rules: Rules, m: Members, n: Members, x: Json)
    requires SameMembers(rules, m, n)
    ensures "not" in m ==> Accepts(rules, V31, m["not"], x) == Accepts(rules, V30, n["not"], x)
  {
  }

  lemma SameRest(rules: Rules, m: Members, n: Members, x: Json)
    requires SameMembers(rules, m, n)
    ensures RestHolds(rules, V31, Map(m), x) == RestHolds(rules, V30, Map(n), x)
  {
    SameListKeyword(rules, m, n, "anyOf", x);
    SameListKeyword(rules, m, n, "allOf", x);
    SameListKeyword(rules, m, n, "prefixItems", x);
    SameMapKeyword(rules, m, n, "properties", x);
    SameMapKeyword(rules, m, n, "patternProperties", x);
    SameNot(rules, m, n, x);
    var a, b := Map(m), Map(n);
    assert a.members == m && b.members == n;
  }

  lemma SameHolds(rules: Rules, m: Members, n: Members, x: Json)
    requires SameMembers(rules, m, n)
    ensures Holds(rules, V31, Map(m), x) == Holds(rules, V30, Map(n), x)
  {
    SameRest(rules, m, n, x);
    SameListKeyword(rules, m, n, "oneOf", x);
    if "additionalProperties" in m { SameAdditional(rules, m, n, x); }
    if "items" in m { SameItems(rules, m, n, x); }
  }

  lemma SameType(t: Yaml, x: Json)
    ensures TypeOk(t, x) == TypeOk(Normalize(t), x)
  {
    if t.List? {
      var n := Normalize(t).items;
      assert forall i | 0 <= i < |n| :: n[i] == Normalize(t.items[i]);
      if i :| 0 <= i < |n| && t.items[i].Str? && TypeMatches(t.items[i].s, x) {
        assert n[i].Str? && TypeMatches(n[i].s, x);
      }
    }
  }

  // ---------------------------------------------------------------- the rewriting of one node

  /** On anything but null, a union with null and one other type means that type. */
  lemma UnionWithoutNull(types: seq<Yaml>, x: Json)
    requires AllStrings(types) && !x.JNull?
    ensures TypeOk(List(types), x) == TypeOk(List(NonNull(types)), x)
  {
    var rest := NonNull(types);
    if TypeOk(List(types), x) {
      var i :| 0 <= i < |types| && types[i].Str? && TypeMatches(types[i].s, x);
      assert types[i] in rest;
    }
    if TypeOk(List(rest), x) {
      var i :| 0 <= i < |rest| && rest[i].Str? && TypeMatches(rest[i].s, x);
      assert rest[i] in types;
    }
  }

  const TOUCHED := {"type", "nullable", "oneOf", "items", "additionalProperties"}

  lemma RestUntouched(rules: Rules, n: Members, u: Members, x: Json)
    requires forall k | k !in TOUCHED :: (k in n <==> k in u) && (k in n ==> n[k] == u[k])
    ensures RestHolds(rules, V30, Map(n), x) == RestHolds(rules, V30, Map(u), x)
    ensures PrefixLength(n) == PrefixLength(u)
    ensures forall k :: Covered(rules, n, k) == Covered(rules, u, k)
  {
  }

  lemma SingleTypeMeans(n: Members, x: Json)
    requires SingleType(n) && !x.JNull?
    ensures TypeOk(UnionType(n)["type"], x) == TypeOk(n["type"], x)
  {
    var rest := NonNull(n["type"].items);
    UnionWithoutNull(n["type"].items, x);
    assert rest == [rest[0]] && rest[0] in n["type"].items;
  }

  lemma SingleTypeOnNonNull(rules: Rules, n: Members, x: Json)
    requires SingleType(n) && !x.JNull?
    ensures Holds(rules, V30, Map(UnionType(n)), x) == Holds(rules, V30, Map(n), x)
  {
    var u := UnionType(n);
    SingleTypeMeans(n, x);
    RestUntouched(rules, n, u, x);
    forall k | k in {"oneOf", "items", "additionalProperties"}
      ensures (k in n <==> k in u) && (k in n ==> n[k] == u[k])
    {
    }
  }

  /** The object branch alone. */
  lemma ObjectBranchMeans(rules: Rules, n: Members, x: Json)
    ensures Accepts(rules, V30, Map(ObjectBranch(n)), x) <==>
            x.JObj? && ("additionalProperties" in n ==>
                          forall k | k in x.props :: Accepts(rules, V30, n["additionalProperties"], x.props[k]))
  {
    var branch := ObjectBranch(n);
    var s := Map(branch);
    assert forall k | k in branch :: k in KEYWORDS;
    assert RestHolds(rules, V30, s, x);
    assert forall k :: !Covered(rules, branch, k);
    assert Accepts(rules, V30, s, x) == Holds(rules, V30, s, x);
    if "additionalProperties" in n {
      var ap := n["additionalProperties"];
      assert x.JObj? ==> AdditionalOk(rules, V30, ap, branch, x) == forall k | k in x.props ::
          Accepts(rules, V30, ap, x.props[k]);
    }
  }

  lemma ArrayBranchMeans(rules: Rules, n: Members, x: Json)
    ensures Accepts(rules, V30, Map(ArrayBranch(n)), x) <==>
            x.JArr? && ("items" in n ==>
                          forall i | 0 <= i < |x.elems| :: Accepts(rules, V30, n["items"], x.elems[i]))
  {
    var branch := ArrayBranch(n);
    var s := Map(branch);
    assert forall k | k in branch :: k in KEYWORDS;
    assert RestHolds(rules, V30, s, x);
    assert PrefixLength(branch) == 0;
    assert Accepts(rules, V30, s, x) == Holds(rules, V30, s, x);
    if "items" in n {
      var items := n["items"];
      assert x.JArr? ==> ItemsOk(rules, V30, items, 0, x) == forall i | 0 <= i < |x.elems| ::
          Accepts(rules, V30, items, x.elems[i]);
    }
  }

  lemma CountTwo(vs: seq<bool>)
    requires |vs| == 2
    ensures CountTrue(vs) == (if vs[0] then 1 else 0) + (if vs[1] then 1 else 0)
  {
    assert vs[1..][1..] == [];
    assert CountTrue(vs[1..]) == if vs[1] then 1 else 0;
  }

  /** The rewritten union node, on anything but null: one branch takes the instance and the rest holds. */
  lemma BranchesOnNonNull(rules: Rules, n: Members, x: Json)
    requires ObjectOrArray(n) && !x.JNull?
    ensures Accepts(rules, V30, Map(UnionType(n)), x) <==>
            BranchTakes(rules, V30, n, x) && RestHolds(rules, V30, Map(n), x)
  {
    ObjectBranchMeans(rules, n, x);
    ArrayBranchMeans(rules, n, x);
    var branches := List([Map(ObjectBranch(n)), Map(ArrayBranch(n))]);
    CountTwo(Verdicts(rules, V30, branches, x));
    var u := UnionType(n);
    RestUntouched(rules, n, u, x);
    assert u["oneOf"] == branches;
    assert "type" !in u && "items" !in u && "additionalProperties" !in u;
  }

  lemma SameBranchTakes(rules: Rules, m: Members, n: Members, x: Json)
    requires SameMembers(rules, m, n)
    ensures BranchTakes(rules, V31, m, x) == BranchTakes(rules, V30, n, x)
  {
    assert "additionalProperties" in m ==> Same(rules, m["additionalProperties"], n["additionalProperties"]);
    assert "items" in m ==> Same(rules, m["items"], n["items"]);
  }

  /** What an object/array/null node over children that keep their meaning is rewritten to. */
  lemma UnionNodeBecomes(rules: Rules, s: Yaml, x: Json)
    requires s.Map? && ObjectOrArray(s.members) && SameMembers(rules, s.members, Children(s))
    ensures Accepts(rules, V30, Normalize(s), x) <==>
            x.JNull? || (BranchTakes(rules, V31, s.members, x) && RestHolds(rules, V31, s, x))
  {
    var m, n := s.members, Children(s);
    ChildrenKeepRewritability(m);
    assert Map(m) == s;
    if x.JNull? {
      assert IsNullable(UnionType(n));
    } else {
      BranchesOnNonNull(rules, n, x);
      SameBranchTakes(rules, m, n, x);
      SameRest(rules, m, n, x);
    }
  }

  lemma UnionTypeMeans(m: Members, x: Json)
    requires ObjectOrArray(m) && !x.JNull?
    ensures TypeOk(m["type"], x) <==> x.JObj? || x.JArr?
  {
    UnionWithoutNull(m["type"].items, x);
    var rest := NonNull(m["type"].items);
    assert TypeOk(List(rest), x) <==> TypeMatches(rest[0].s, x) || TypeMatches(rest[1].s, x);
  }

  /** What the node meant before: the moved keywords speak about less. */
  lemma UnionNodeWas(rules: Rules, s: Yaml, x: Json)
    requires s.Map? && ObjectOrArray(s.members) && !x.JNull?
    ensures var m := s.members;
            Accepts(rules, V31, s, x) <==>
            && (x.JObj? || x.JArr?) && OwnOneOfHolds(rules, m, x) && RestHolds(rules, V31, s, x)
            && ("items" in m ==> ItemsOk(rules, V31, m["items"], PrefixLength(m), x))
            && ("additionalProperties" in m ==> AdditionalOk(rules, V31, m["additionalProperties"], m, x))
  {
    UnionTypeMeans(s.members, x);
    assert Accepts(rules, V31, s, x) == Holds(rules, V31, s, x);
  }

  /** The moved keywords speak about all of an object or array exactly if they did, and also pass the rest. */
  lemma BranchTakesMore(rules: Rules, m: Members, x: Json)
    ensures BranchTakes(rules, V31, m, x) <==>
            && (x.JObj? || x.JArr?) && CoveredPass(rules, m, x) && PrefixPass(rules, m, x)
            && ("items" in m ==> ItemsOk(rules, V31, m["items"], PrefixLength(m), x))
            && ("additionalProperties" in m ==> AdditionalOk(rules, V31, m["additionalProperties"], m, x))
  {
  }

  /** Before and after, on anything but null. */
  lemma UnionNodeCompared(rules: Rules, s: Yaml, x: Json)
    requires s.Map? && ObjectOrArray(s.members) && SameMembers(rules, s.members, Children(s)) && !x.JNull?
    ensures var m := s.members;
            var before, after := Accepts(rules, V31, s, x), Accepts(rules, V30, Normalize(s), x);
            && (before ==>
                  OwnOneOfHolds(rules, m, x) && (after <==> CoveredPass(rules, m, x) && PrefixPass(rules, m, x)))
            && (after ==>
                  && CoveredPass(rules, m, x) && PrefixPass(rules, m, x)
                  && BranchTakes(rules, V31, m, x) && RestHolds(rules, V31, s, x)
                  && (before <==> OwnOneOfHolds(rules, m, x)))
  {
    UnionNodeBecomes(rules, s, x);
    UnionNodeWas(rules, s, x);
    BranchTakesMore(rules, s.members, x);
  }

  // ---------------------------------------------------------------- the results

  /** The hypothesis of the induction: every smaller convertible schema keeps its meaning. */
  ghost predicate SmallerAreSame(rules: Rules, s: Yaml) {
    forall t | t < s && Convertible(rules, t) :: Same(rules, t, Normalize(t))
  }

  lemma ListIsSame(rules: Rules, s: Yaml, list: Yaml)
    requires SmallerAreSame(rules, s) && list < s && (list.List? ==> ListConvertible(rules, list))
    ensures SameList(rules, list, Normalize(list))
  {
  }

  lemma TableIsSame(rules: Rules, s: Yaml, table: Yaml)
    requires SmallerAreSame(rules, s) && table < s && (table.Map? ==> MapConvertible(rules, table))
    ensures SameMap(rules, table, Normalize(table))
  {
    if table.Map? {
      ChildrenKeepRewritability(table.members);
      assert Normalize(table).members == Children(table);
      forall k | k in table.members ensures Same(rules, table.members[k], Children(table)[k]) {
        assert table.members[k] < s;
      }
    }
  }

  lemma ChildrenAreSame(rules: Rules, s: Yaml)
    requires s.Map? && Convertible(rules, s) && SmallerAreSame(rules, s)
    ensures SameMembers(rules, s.members, Children(s))
  {
    var m, n := s.members, Children(s);
    forall k | k in m ensures m[k] < s && n[k] == Normalize(m[k]) {
    }
    if "type" in m {
      forall x ensures TypeOk(m["type"], x) == TypeOk(n["type"], x) {
        SameType(m["type"], x);
      }
    }
    forall k | k in m && k in {"oneOf", "anyOf", "allOf", "prefixItems"} ensures SameList(rules, m[k], n[k]) {
      ListIsSame(rules, s, m[k]);
    }
    forall k | k in m && k in {"properties", "patternProperties"} ensures SameMap(rules, m[k], n[k]) {
      TableIsSame(rules, s, m[k]);
    }
  }

  /** The projection accepts the same instances, for every convertible schema tree. */
  lemma {:induction false} NormalizePreservesMeaning(rules: Rules, s: Yaml)
    requires Convertible(rules, s)
    ensures Same(rules, s, Normalize(s))
    decreases s
  {
    if s.Map? {
      forall t | t < s && Convertible(rules, t) ensures Same(rules, t, Normalize(t)) {
        NormalizePreservesMeaning(rules, t);
      }
      assert SmallerAreSame(rules, s);
      ChildrenAreSame(rules, s);
      forall x ensures Accepts(rules, V31, s, x) == Accepts(rules, V30, Normalize(s), x) {
        NodePreserved(rules, s, x);
      }
    }
  }

  lemma NodePreserved(rules: Rules, s: Yaml, x: Json)
    requires s.Map? && NodeConvertible(rules, s) && SameMembers(rules, s.members, Children(s))
    ensures Accepts(rules, V31, s, x) == Accepts(rules, V30, Normalize(s), x)
  {
    var m, n := s.members, Children(s);
    SameHolds(rules, m, n, x);
    ChildrenKeepRewritability(m);
    assert Map(m) == s;
    if x.JNull? && (Rewritable(n) || IsNullable(n)) {
      assert IsNullable(UnionType(n));
    } else if SingleType(n) {
      SingleTypeOnNonNull(rules, n, x);
    } else if ObjectOrArray(n) {
      UnionNodeCompared(rules, s, x);
    }
  }

  /** An object/array/null node that keeps its meaning moves nothing harmful. */
  lemma PreservedUnionMovesHarmlessly(rules: Rules, s: Yaml)
    requires s.Map? && ObjectOrArray(s.members) && SameMembers(rules, s.members, Children(s))
    requires Same(rules, s, Normalize(s))
    ensures MovesHarmless(rules, s) && OwnOneOfRedundant(rules, s)
  {
    forall x: Json | !x.JNull?
      ensures Accepts(rules, V31, s, x) ==> CoveredPass(rules, s.members, x) && PrefixPass(rules, s.members, x)
      ensures BranchTakes(rules, V31, s.members, x) && RestHolds(rules, V31, s, x) ==>
              OwnOneOfHolds(rules, s.members, x)
    {
      UnionNodeBecomes(rules, s, x);
      UnionNodeCompared(rules, s, x);
    }
  }

  /**
  One node over children that keep their meaning keeps its own exactly if it is convertible: a node that
  ends up nullable accepted null before, and a union node with moved keywords moves them harmlessly and
  has no oneOf of its own that matters.
  */
  lemma NodePreservedExactly(rules: Rules, s: Yaml)
    requires s.Map? && SameMembers(rules, s.members, Children(s))
    ensures Same(rules, s, Normalize(s)) <==> NodeConvertible(rules, s)
  {
    ChildrenKeepRewritability(s.members);
    if NodeConvertible(rules, s) {
      forall x ensures Accepts(rules, V31, s, x) == Accepts(rules, V30, Normalize(s), x) {
        NodePreserved(rules, s, x);
      }
    }
    if Same(rules, s, Normalize(s)) {
      if Rewritable(s.members) || IsNullable(s.members) {
        assert IsNullable(UnionType(Children(s)));
        assert Accepts(rules, V30, Normalize(s), JNull);
      }
      if ObjectOrArray(s.members) {
        PreservedUnionMovesHarmlessly(rules, s);
      }
    }
  }

  /** No sibling that a moved keyword depends on, and no oneOf. */
  predicate MovesSafely(m: Members) {
    && "oneOf" !in m
    && ("additionalProperties" in m ==> "properties" !in m && "patternProperties" !in m)
    && ("items" in m ==> "prefixItems" !in m)
  }

  /** Without such siblings, moving is harmless whatever the keywords say. */
  lemma SafeSiblingsAreHarmless(rules: Rules, s: Yaml)
    requires s.Map? && MovesSafely(s.members)
    ensures MovesHarmless(rules, s) && OwnOneOfRedundant(rules, s)
  {
    assert "additionalProperties" in s.members ==> forall k :: !Covered(rules, s.members, k);
  }

  /**
  A tree that a reader can check: object/array/null nodes have no sibling that a moved keyword depends on,
  nodes that end up nullable accept null, and what the other keywords hold is left alone by the projection.
  */
  predicate SafeTree(rules: Rules, s: Yaml)
    decreases s, 1
  {
    match s
    case Map(m) =>
      && (ObjectOrArray(m) ==> MovesSafely(m))
      && (Rewritable(m) || IsNullable(m) ==> Accepts(rules, V31, s, JNull))
      && (forall k | k in m && k !in KEYWORDS :: Normalize(m[k]) == m[k])
      && (forall k | k in m && k in {"oneOf", "anyOf", "allOf", "prefixItems"} && m[k].List? :: SafeList(rules, m[k]))
      && (forall k | k in m && k in {"not", "items", "additionalProperties"} :: SafeTree(rules, m[k]))
      && (forall k | k in m && k in {"properties", "patternProperties"} && m[k].Map? :: SafeTable(rules, m[k]))
    case _ => true
  }

  predicate SafeList(rules: Rules, s: Yaml)
    requires s.List?
    decreases s, 0
  {
    forall i | 0 <= i < |s.items| :: SafeTree(rules, s.items[i])
  }

  predicate SafeTable(rules: Rules, s: Yaml)
    requires s.Map?
    decreases s, 0
  {
    !Rewritable(s.members) && forall k | k in s.members :: SafeTree(rules, s.members[k])
  }

  lemma {:induction false} SafeTreeIsConvertible(rules: Rules, s: Yaml)
    requires SafeTree(rules, s)
    ensures Convertible(rules, s)
    decreases s, 1
  {
    if s.Map? {
      var m := s.members;
      if ObjectOrArray(m) {
        SafeSiblingsAreHarmless(rules, s);
      }
      forall k | k in m && k in {"oneOf", "anyOf", "allOf", "prefixItems"} && m[k].List?
        ensures ListConvertible(rules, m[k])
      {
        SafeListIsConvertible(rules, m[k]);
      }
      forall k | k in m && k in {"not", "items", "additionalProperties"} ensures Convertible(rules, m[k]) {
        SafeTreeIsConvertible(rules, m[k]);
      }
      forall k | k in m && k in {"properties", "patternProperties"} && m[k].Map? ensures MapConvertible(rules, m[k]) {
        SafeTableIsConvertible(rules, m[k]);
      }
    }
  }

  lemma {:induction false} SafeListIsConvertible(rules: Rules, s: Yaml)
    requires s.List? && SafeList(rules, s)
    ensures ListConvertible(rules, s)
    decreases s, 0
  {
    forall i | 0 <= i < |s.items| ensures Convertible(rules, s.items[i]) {
      SafeTreeIsConvertible(rules, s.items[i]);
    }
  }

  lemma {:induction false} SafeTableIsConvertible(rules: Rules, s: Yaml)
    requires s.Map? && SafeTable(rules, s)
    ensures MapConvertible(rules, s)
    decreases s, 0
  {
    forall k | k in s.members ensures Convertible(rules, s.members[k]) {
      SafeTreeIsConvertible(rules, s.members[k]);
    }
  }

  /** Every such tree keeps its meaning. */
  lemma SafeTreeKeepsMeaning(rules: Rules, s: Yaml)
    requires SafeTree(rules, s)
    ensures Same(rules, s, Normalize(s))
  {
    SafeTreeIsConvertible(rules, s);
    NormalizePreservesMeaning(rules, s);
  }

  // ---------------------------------------------------------------- null is let in

  /** Every rewritten node accepts null, whatever its other keywords say. */
  lemma RewrittenAcceptsNull(rules: Rules, s: Yaml)
    requires s.Map? && Rewritable(s.members)
    ensures Accepts(rules, V30, Normalize(s), JNull)
  {
    ChildrenKeepRewritability(s.members);
    assert IsNullable(UnionType(Children(s)));
  }

  /** A union of a type with null, beside another keyword. */
  function UnionBeside(name: string, keyword: string, value: Yaml): Members {
    map["type" := List([Str(name), Str("null")]), keyword := value]
  }

  /** Beside a keyword that refuses null, such as an enum without it, null was refused and is accepted. */
  lemma RefusedNullIsLetIn(rules: Rules, name: string, keyword: string, value: Yaml)
    requires name != "null" && keyword !in KEYWORDS && !rules.other(keyword, value, JNull)
    ensures var s := Map(UnionBeside(name, keyword, value));
            !Accepts(rules, V31, s, JNull) && Accepts(rules, V30, Normalize(s), JNull)
  {
    var m := UnionBeside(name, keyword, value);
    assert keyword in m && m[keyword] == value;
    assert !RestHolds(rules, V31, Map(m), JNull);
    UnionTypeIsSingle(m, name);
    RewrittenAcceptsNull(rules, Map(m));
  }

  // ---------------------------------------------------------------- unsafe moves change the meaning

  const UNION := List([Str("object"), Str("array"), Str("null")])

  lemma UnionIsRewritten(m: Members)
    requires "type" in m && m["type"] == UNION
    ensures ObjectOrArray(m)
  {
  }

  lemma UnionAcceptsShape(x: Json)
    ensures TypeOk(UNION, x) <==> x.JObj? || x.JArr? || x.JNull?
  {
    var types := UNION.items;
    assert types[0] == Str("object") && types[1] == Str("array") && types[2] == Str("null");
  }

  /** A node whose members are all fixed points keeps them, and an instance that no branch takes is refused. */
  lemma RefusedByBranches(rules: Rules, m: Members, x: Json)
    requires ObjectOrArray(m) && !x.JNull? && (forall k | k in m :: Normalize(m[k]) == m[k])
    requires x.JObj? ==>
               "additionalProperties" in m &&
               exists k | k in x.props :: !Accepts(rules, V30, m["additionalProperties"], x.props[k])
    requires x.JArr? ==> "items" in m && exists i | 0 <= i < |x.elems| :: !Accepts(rules, V30, m["items"], x.elems[i])
    ensures !Accepts(rules, V30, Normalize(Map(m)), x)
  {
    assert Children(Map(m)) == m;
    ObjectBranchMeans(rules, m, x);
    ArrayBranchMeans(rules, m, x);
    var branches := List([Map(ObjectBranch(m)), Map(ArrayBranch(m))]);
    CountTwo(Verdicts(rules, V30, branches, x));
    assert UnionType(m)["oneOf"] == branches;
  }

  lemma UnionIsFixed()
    ensures Normalize(UNION) == UNION
  {
  }

  lemma OneEntryTableIsFixed(k: string)
    ensures Normalize(Map(map[k := Bool(true)])) == Map(map[k := Bool(true)])
  {
  }

  /** A closed object schema: one table of allowed properties, by name or by pattern, and nothing else. */
  function ClosedObject(keyword: string, entry: string): Members {
    map["type" := UNION, keyword := Map(map[entry := Bool(true)]), "additionalProperties" := Bool(false)]
  }

  lemma ClosedObjectAcceptsCovered(rules: Rules, keyword: string, entry: string, name: string, y: Json)
    requires (keyword == "properties" && entry == name) ||
               (keyword == "patternProperties" && rules.matches(entry, name))
    ensures Accepts(rules, V31, Map(ClosedObject(keyword, entry)), JObj(map[name := y]))
  {
    var m := ClosedObject(keyword, entry);
    var x := JObj(map[name := y]);
    UnionAcceptsShape(x);
    assert Covered(rules, m, name);
    assert forall k | k in m :: k in KEYWORDS;
    assert RestHolds(rules, V31, Map(m), x);
    assert AdditionalOk(rules, V31, Bool(false), m, x);
    assert Holds(rules, V31, Map(m), x);
  }

  lemma ClosedObjectIsFixed(keyword: string, entry: string)
    requires keyword == "properties" || keyword == "patternProperties"
    ensures var m := ClosedObject(keyword, entry); ObjectOrArray(m) && forall k | k in m :: Normalize(m[k]) == m[k]
  {
    UnionIsRewritten(ClosedObject(keyword, entry));
    UnionIsFixed();
    OneEntryTableIsFixed(entry);
  }

  /** For every property that properties or patternProperties covers: it becomes an additional one and is refused. */
  lemma CoveredPropertyBecomesAdditional(rules: Rules, keyword: string, entry: string, name: string, y: Json)
    requires (keyword == "properties" && entry == name) ||
               (keyword == "patternProperties" && rules.matches(entry, name))
    ensures var s := Map(ClosedObject(keyword, entry));
            var x := JObj(map[name := y]);
            Accepts(rules, V31, s, x) && !Accepts(rules, V30, Normalize(s), x)
  {
    var m := ClosedObject(keyword, entry);
    var x := JObj(map[name := y]);
    ClosedObjectAcceptsCovered(rules, keyword, entry, name, y);
    ClosedObjectIsFixed(keyword, entry);
    assert name in x.props && !Accepts(rules, V30, Bool(false), x.props[name]);
    RefusedByBranches(rules, m, x);
  }

  lemma BooleansAreFixed(items: seq<Yaml>)
    requires forall i | 0 <= i < |items| :: items[i].Bool?
    ensures Normalize(List(items)) == List(items)
  {
  }

  /** A tuple of the given element schemas and nothing more. */
  function ClosedTuple(prefix: seq<Yaml>): Members {
    map["type" := UNION, "prefixItems" := List(prefix), "items" := Bool(false)]
  }

  lemma ClosedTupleAcceptsItsLength(rules: Rules, prefix: seq<Yaml>, elems: seq<Json>)
    requires |elems| <= |prefix| && forall i | 0 <= i < |prefix| :: prefix[i] == Bool(true)
    ensures Accepts(rules, V31, Map(ClosedTuple(prefix)), JArr(elems))
  {
    var m := ClosedTuple(prefix);
    var x := JArr(elems);
    UnionAcceptsShape(x);
    assert PrefixLength(m) == |prefix|;
    assert forall k | k in m :: k in KEYWORDS;
    assert PrefixOk(rules, V31, m["prefixItems"], x);
    assert RestHolds(rules, V31, Map(m), x);
    assert ItemsOk(rules, V31, Bool(false), |prefix|, x);
    assert Holds(rules, V31, Map(m), x);
  }

  lemma ClosedTupleIsFixed(prefix: seq<Yaml>)
    requires forall i | 0 <= i < |prefix| :: prefix[i].Bool?
    ensures var m := ClosedTuple(prefix); ObjectOrArray(m) && forall k | k in m :: Normalize(m[k]) == m[k]
  {
    UnionIsRewritten(ClosedTuple(prefix));
    UnionIsFixed();
    BooleansAreFixed(prefix);
  }

  /** For every tuple schema: an element that prefixItems covers falls under items and is refused. */
  lemma CoveredElementFallsUnderItems(rules: Rules, prefix: seq<Yaml>, elems: seq<Json>)
    requires 0 < |elems| <= |prefix| && forall i | 0 <= i < |prefix| :: prefix[i] == Bool(true)
    ensures var s := Map(ClosedTuple(prefix));
            Accepts(rules, V31, s, JArr(elems)) && !Accepts(rules, V30, Normalize(s), JArr(elems))
  {
    var m := ClosedTuple(prefix);
    var x := JArr(elems);
    ClosedTupleAcceptsItsLength(rules, prefix, elems);
    ClosedTupleIsFixed(prefix);
    assert !Accepts(rules, V30, m["items"], x.elems[0]);
    RefusedByBranches(rules, m, x);
  }

  /** The object/array/null union with a oneOf of its own. */
  function UnionWithOneOf(branches: seq<Yaml>): Members {
    map["type" := UNION, "oneOf" := List(branches)]
  }

  lemma FalseBranchesRefuse(rules: Rules, branches: seq<Yaml>, x: Json)
    requires forall i | 0 <= i < |branches| :: branches[i] == Bool(false)
    ensures !Accepts(rules, V31, Map(UnionWithOneOf(branches)), x)
  {
    var m := UnionWithOneOf(branches);
    NoneTrue(Verdicts(rules, V31, m["oneOf"], x));
    assert !Holds(rules, V31, Map(m), x);
  }

  lemma {:induction false} NoneTrue(vs: seq<bool>)
    requires forall i | 0 <= i < |vs| :: !vs[i]
    ensures CountTrue(vs) == 0
  {
    if vs != [] {
      NoneTrue(vs[1..]);
    }
  }

  lemma OwnOneOfIsFixed(branches: seq<Yaml>)
    requires forall i | 0 <= i < |branches| :: branches[i] == Bool(false)
    ensures var m := UnionWithOneOf(branches); ObjectOrArray(m) && Children(Map(m)) == m
  {
    var m := UnionWithOneOf(branches);
    UnionIsFixed();
    BooleansAreFixed(branches);
    UnionIsRewritten(m);
  }

  lemma UnionTakesObjects(rules: Rules, m: Members, props: map<string, Json>)
    requires ObjectOrArray(m) && m.Keys == {"type", "oneOf"}
    ensures Accepts(rules, V30, Map(UnionType(m)), JObj(props))
  {
    BranchesOnNonNull(rules, m, JObj(props));
    assert RestHolds(rules, V30, Map(m), JObj(props));
  }

  /** A oneOf of the node's own is overwritten: branches that refuse everything are gone. */
  lemma OwnOneOfIsLost(rules: Rules, branches: seq<Yaml>, props: map<string, Json>)
    requires forall i | 0 <= i < |branches| :: branches[i] == Bool(false)
    ensures !Accepts(rules, V31, Map(UnionWithOneOf(branches)), JObj(props))
    ensures Accepts(rules, V30, Normalize(Map(UnionWithOneOf(branches))), JObj(props))
  {
    FalseBranchesRefuse(rules, branches, JObj(props));
    OwnOneOfIsFixed(branches);
    UnionTakesObjects(rules, UnionWithOneOf(branches), props);
  }
}
