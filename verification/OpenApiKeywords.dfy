/**
What the evaluation of schemas in OpenApiMeaning says about each keyword on its own, in the words of the
standards: `type` of section 6.1.1 of JSON Schema Validation 2020-12, the applicators of section 10 of JSON
Schema Core 2020-12, and `nullable` of section 4.7.24 of OpenAPI 3.0.3.
*/
module OpenApiKeywords {
  import opened OpenApiNormalize
  import opened OpenApiMeaning

  /** The schema with this one keyword. */
  function Only(keyword: string, value: Yaml): Yaml {
    Map(map[keyword := value])
  }

  // ---------------------------------------------------------------- counting

  lemma {:induction false} CountBounds(vs: seq<bool>)
    ensures CountTrue(vs) <= |vs|
    ensures CountTrue(vs) == |vs| <==> forall i | 0 <= i < |vs| :: vs[i]
    ensures CountTrue(vs) >= 1 <==> exists i | 0 <= i < |vs| :: vs[i]
  {
    if vs != [] {
      CountBounds(vs[1..]);
      assert forall i | 0 < i < |vs| :: vs[i] == vs[1..][i - 1];
    }
  }

  ghost predicate OnlyAt(vs: seq<bool>, i: nat) {
    i < |vs| && vs[i] && forall j | 0 <= j < |vs| && j != i :: !vs[j]
  }

  lemma {:induction false} CountOne(vs: seq<bool>)
    ensures CountTrue(vs) == 1 <==> exists i: nat :: OnlyAt(vs, i)
  {
    if vs != [] {
      var rest := vs[1..];
      CountOne(rest);
      CountBounds(rest);
      assert forall j | 0 < j < |vs| :: vs[j] == rest[j - 1];
      if CountTrue(vs) == 1 {
        if vs[0] {
          assert OnlyAt(vs, 0);
        } else {
          var i: nat :| OnlyAt(rest, i);
          assert OnlyAt(vs, i + 1);
        }
      }
      if i: nat :| OnlyAt(vs, i) {
        if i > 0 {
          assert OnlyAt(rest, i - 1);
        }
      }
    }
  }

  // ---------------------------------------------------------------- single keywords

  lemma OnlyHolds(rules: Rules, d: Dialect, keyword: string, value: Yaml, x: Json)
    requires keyword != "nullable"
    ensures var s := Only(keyword, value);
            Accepts(rules, d, s, x) == Holds(rules, d, s, x) && s.members.Keys == {keyword} &&
                s.members[keyword] == value
  {
  }

  predicate Equals(n: real, i: int) {
    n == i as real
  }

  /** A type name is matched by the instances of that type; an integer is a number without a fraction. */
  lemma TypeMeans(rules: Rules, d: Dialect, name: string, x: Json)
    ensures Accepts(rules, d, Only("type", Str(name)), x) <==>
            || (name == "null" && x.JNull?) || (name == "boolean" && x.JBool?) || (name == "string" && x.JStr?)
            || (name == "array" && x.JArr?) || (name == "object" && x.JObj?) || (name == "number" && x.JNum?)
            || (name == "integer" && x.JNum? && exists i :: Equals(x.n, i))
  {
    OnlyHolds(rules, d, "type", Str(name), x);
    if x.JNum? {
      assert x.n.Floor as real == x.n ==> Equals(x.n, x.n.Floor);
      if i :| Equals(x.n, i) {
        assert x.n.Floor == i;
      }
    }
  }

  /** A list of names is matched by the instances of any of them. */
  lemma UnionMeans(rules: Rules, d: Dialect, types: seq<Yaml>, x: Json)
    requires AllStrings(types)
    ensures Accepts(rules, d, Only("type", List(types)), x) <==>
            exists t | t in types :: Accepts(rules, d, Only("type", t), x)
  {
    OnlyHolds(rules, d, "type", List(types), x);
    forall t | t in types ensures Accepts(rules, d, Only("type", t), x) == TypeMatches(t.s, x) {
      OnlyHolds(rules, d, "type", t, x);
    }
    if i :| 0 <= i < |types| && TypeMatches(types[i].s, x) {
      assert types[i] in types;
    }
  }

  lemma NotMeans(rules: Rules, d: Dialect, s: Yaml, x: Json)
    ensures Accepts(rules, d, Only("not", s), x) <==> !Accepts(rules, d, s, x)
  {
    OnlyHolds(rules, d, "not", s, x);
  }

  /** Every element, and nothing about other instances. */
  lemma ItemsMean(rules: Rules, d: Dialect, s: Yaml, x: Json)
    ensures Accepts(rules, d, Only("items", s), x) <==>
            (x.JArr? ==> forall i | 0 <= i < |x.elems| :: Accepts(rules, d, s, x.elems[i]))
  {
    OnlyHolds(rules, d, "items", s, x);
    assert RestHolds(rules, d, Only("items", s), x);
  }

  lemma AdditionalPropertiesMean(rules: Rules, d: Dialect, s: Yaml, x: Json)
    ensures Accepts(rules, d, Only("additionalProperties", s), x) <==>
            (x.JObj? ==> forall k | k in x.props :: Accepts(rules, d, s, x.props[k]))
  {
    OnlyHolds(rules, d, "additionalProperties", s, x);
    assert RestHolds(rules, d, Only("additionalProperties", s), x);
    assert forall k :: !Covered(rules, Only("additionalProperties", s).members, k);
  }

  /** Element by element, as far as both go. */
  lemma PrefixItemsMean(rules: Rules, d: Dialect, schemas: seq<Yaml>, x: Json)
    ensures Accepts(rules, d, Only("prefixItems", List(schemas)), x) <==>
            (x.JArr? ==>
               forall i | 0 <= i < |schemas| && i < |x.elems| :: Accepts(rules, d, schemas[i], x.elems[i]))
  {
    OnlyHolds(rules, d, "prefixItems", List(schemas), x);
    assert RestHolds(rules, d, Only("prefixItems", List(schemas)), x) == PrefixOk(rules, d, List(schemas), x);
  }

  lemma PropertiesMean(rules: Rules, d: Dialect, table: Members, x: Json)
    ensures Accepts(rules, d, Only("properties", Map(table)), x) <==>
            (x.JObj? ==> forall k | k in table && k in x.props :: Accepts(rules, d, table[k], x.props[k]))
  {
    OnlyHolds(rules, d, "properties", Map(table), x);
    assert RestHolds(rules, d, Only("properties", Map(table)), x) == PropertiesOk(rules, d, Map(table), x);
  }

  lemma PatternPropertiesMean(rules: Rules, d: Dialect, table: Members, x: Json)
    ensures Accepts(rules, d, Only("patternProperties", Map(table)), x) <==>
            (x.JObj? ==>
               forall p, k | p in table && k in x.props && rules.matches(p, k) ::
                   Accepts(rules, d, table[p], x.props[k]))
  {
    OnlyHolds(rules, d, "patternProperties", Map(table), x);
    assert RestHolds(rules, d, Only("patternProperties", Map(table)), x) == PatternsOk(rules, d, Map(table), x);
  }

  lemma AllOfMeans(rules: Rules, d: Dialect, schemas: seq<Yaml>, x: Json)
    ensures Accepts(rules, d, Only("allOf", List(schemas)), x) <==>
            forall i | 0 <= i < |schemas| :: Accepts(rules, d, schemas[i], x)
  {
    OnlyHolds(rules, d, "allOf", List(schemas), x);
    var vs := Verdicts(rules, d, List(schemas), x);
    CountBounds(vs);
    assert RestHolds(rules, d, Only("allOf", List(schemas)), x) == (CountTrue(vs) == |schemas|);
    assert forall i | 0 <= i < |schemas| :: vs[i] == Accepts(rules, d, schemas[i], x);
  }

  lemma AnyOfMeans(rules: Rules, d: Dialect, schemas: seq<Yaml>, x: Json)
    ensures Accepts(rules, d, Only("anyOf", List(schemas)), x) <==>
            exists i | 0 <= i < |schemas| :: Accepts(rules, d, schemas[i], x)
  {
    OnlyHolds(rules, d, "anyOf", List(schemas), x);
    var vs := Verdicts(rules, d, List(schemas), x);
    CountBounds(vs);
    assert RestHolds(rules, d, Only("anyOf", List(schemas)), x) == (CountTrue(vs) >= 1);
    assert forall i | 0 <= i < |schemas| :: vs[i] == Accepts(rules, d, schemas[i], x);
  }

  ghost predicate AcceptedOnlyBy(rules: Rules, d: Dialect, schemas: seq<Yaml>, x: Json, i: nat) {
    && i < |schemas| && Accepts(rules, d, schemas[i], x)
    && forall j | 0 <= j < |schemas| && j != i :: !Accepts(rules, d, schemas[j], x)
  }

  /** Exactly one of them. */
  lemma OneOfMeans(rules: Rules, d: Dialect, schemas: seq<Yaml>, x: Json)
    ensures Accepts(rules, d, Only("oneOf", List(schemas)), x) <==>
            exists i: nat :: AcceptedOnlyBy(rules, d, schemas, x, i)
  {
    OnlyHolds(rules, d, "oneOf", List(schemas), x);
    var vs := Verdicts(rules, d, List(schemas), x);
    CountOne(vs);
    assert RestHolds(rules, d, Only("oneOf", List(schemas)), x);
    assert forall i | 0 <= i < |schemas| :: vs[i] == Accepts(rules, d, schemas[i], x);
    if i: nat :| OnlyAt(vs, i) {
      assert AcceptedOnlyBy(rules, d, schemas, x, i);
    }
    if i: nat :| AcceptedOnlyBy(rules, d, schemas, x, i) {
      assert OnlyAt(vs, i);
    }
  }

  /** In 3.0, `nullable: true` beside a type adds null; in 3.1 it means nothing. */
  lemma NullableMeans(rules: Rules, name: string, x: Json)
    ensures var s := Map(map["type" := Str(name), "nullable" := Bool(true)]);
            && (Accepts(rules, V30, s, x) <==> x.JNull? || Accepts(rules, V30, Only("type", Str(name)), x))
            && (Accepts(rules, V31, s, x) <==> Accepts(rules, V31, Only("type", Str(name)), x))
  {
    var s := Map(map["type" := Str(name), "nullable" := Bool(true)]);
    forall d ensures Holds(rules, d, s, x) == TypeMatches(name, x) {
      assert RestHolds(rules, d, s, x);
    }
    OnlyHolds(rules, V30, "type", Str(name), x);
    OnlyHolds(rules, V31, "type", Str(name), x);
  }

  /** The boolean schemas, and that what is no schema at all asserts nothing. */
  lemma ConstantSchemas(rules: Rules, d: Dialect, x: Json)
    ensures Accepts(rules, d, Bool(true), x) && !Accepts(rules, d, Bool(false), x)
    ensures Accepts(rules, d, Null, x) && Accepts(rules, d, Only("type", Null), x)
  {
    OnlyHolds(rules, d, "type", Null, x);
  }

  /** Keywords beside each other: a property that `properties` names is no additional one. */
  lemma CoveredIsNotAdditional(rules: Rules, d: Dialect, table: Members, s: Yaml, x: Json)
    requires x.JObj?
    ensures Accepts(rules, d, Map(map["properties" := Map(table), "additionalProperties" := s]), x) <==>
            && (forall k | k in x.props && k in table :: Accepts(rules, d, table[k], x.props[k]))
            && (forall k | k in x.props && k !in table :: Accepts(rules, d, s, x.props[k]))
  {
    var m: Members := map["properties" := Map(table), "additionalProperties" := s];
    assert forall k :: Covered(rules, m, k) <==> k in table;
    assert RestHolds(rules, d, Map(m), x) == PropertiesOk(rules, d, Map(table), x);
    assert Accepts(rules, d, Map(m), x) == Holds(rules, d, Map(m), x);
    assert Holds(rules, d, Map(m), x) == (AdditionalOk(rules, d, s, m, x) && PropertiesOk(rules, d, Map(table), x));
    assert AdditionalOk(rules, d, s, m, x) <==>
           forall k | k in x.props && !Covered(rules, m, k) :: Accepts(rules, d, s, x.props[k]);
    assert PropertiesOk(rules, d, Map(table), x) <==>
           forall k | k in table && k in x.props :: Accepts(rules, d, table[k], x.props[k]);
  }

  /** An element that `prefixItems` speaks about is none of the `items`. */
  lemma PrefixIsNotItems(rules: Rules, d: Dialect, schemas: seq<Yaml>, s: Yaml, x: Json)
    requires x.JArr?
    ensures Accepts(rules, d, Map(map["prefixItems" := List(schemas), "items" := s]), x) <==>
            && (forall i | 0 <= i < |x.elems| && i < |schemas| :: Accepts(rules, d, schemas[i], x.elems[i]))
            && (forall i | |schemas| <= i < |x.elems| :: Accepts(rules, d, s, x.elems[i]))
  {
    var m: Members := map["prefixItems" := List(schemas), "items" := s];
    assert PrefixLength(m) == |schemas|;
    assert RestHolds(rules, d, Map(m), x) == PrefixOk(rules, d, List(schemas), x);
    assert Accepts(rules, d, Map(m), x) == Holds(rules, d, Map(m), x);
    assert Holds(rules, d, Map(m), x) ==
           (ItemsOk(rules, d, s, |schemas|, x) && PrefixOk(rules, d, List(schemas), x));
    assert ItemsOk(rules, d, s, |schemas|, x) <==>
           forall i | |schemas| <= i < |x.elems| :: Accepts(rules, d, s, x.elems[i]);
    assert PrefixOk(rules, d, List(schemas), x) <==>
           forall i | 0 <= i < |schemas| && i < |x.elems| :: Accepts(rules, d, schemas[i], x.elems[i]);
  }
}
