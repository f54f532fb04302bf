/**
 * The schema to search-index mapping translator
 * (`elasticsearch/es_mapper.py`): walks an object schema and emits, per
 * property, the mapping entry the index should use.
 *
 * Per property, the first rule that applies wins:
 *  - an object with properties: `{'type': 'object', 'properties': <walk>}`;
 *  - an object without properties: `{'type': 'object'}`;
 *  - items that declare properties: `{'type': 'nested'}`, not walked;
 *  - a truthy per-field override `special[key]`: `{'type': special[key]}`;
 *  - otherwise the leaf translation, when there is one.
 */
module EsMapper {
  import opened Results
  import opened Dicts
  import opened JsonValues
  import opened Strings
  import opened Schemas

  const UrlEmailAnalyzer: string := "url_email_analyzer"
  const DateFormats: string := "yyyy-MM-dd HH:mm:ss||yyyy-MM-dd||epoch_millis||strict_date_optional_time"

  /** The formats analysed as URLs and e-mail addresses. */
  predicate IsUrlOrEmailFormat(f: string) {
    f in ["email", "idn-email", "hostname", "uri", "uri-reference", "iri", "iri-reference"]
  }

  /** The leaf rules that look at the format, which come before every type rule. */
  predicate HasFormatRule(f: string) {
    IsUrlOrEmailFormat(f) || Infix("ip", f) || Infix("date", f)
  }

  /** `{'type': t}`. */
  function TypeEntry(t: Json): Fields {
    [("type", t)]
  }

  /** `__translate_simple_type`: the mapping of a leaf property, `None` for an array of scalars. */
  function TranslateSimpleType(pv: Schema): (r: Option<Fields>)
    ensures r.None? <==> !HasFormatRule(FormatOrEmpty(pv)) && pv.typ == JStr("array")
    ensures r.Some? ==> |r.value| >= 1 && r.value[0].0 == "type"
  {
    var f := FormatOrEmpty(pv);
    if IsUrlOrEmailFormat(f) then Some([("type", JStr("text")), ("analyzer", JStr(UrlEmailAnalyzer))])
    else if Infix("ip", f) then Some(TypeEntry(JStr("ip")))
    else if Infix("date", f) then Some([("type", JStr("date")), ("format", JStr(DateFormats))])
    else if pv.typ == JStr("number") then Some(TypeEntry(JStr("long")))
    else if pv.typ == JStr("string") then
      if f == "byte" then Some(TypeEntry(JStr("binary"))) else Some(TypeEntry(JStr("text")))
    else if pv.typ == JStr("array") then None
    else Some(TypeEntry(pv.typ))
  }

  /**
   * The leaf rules over every property, in the order they are tried: the
   * URL/e-mail formats, a format containing "ip", one containing "date",
   * and only then the type.
   */
  lemma TranslationRules(pv: Schema)
    ensures var f := FormatOrEmpty(pv);
      IsUrlOrEmailFormat(f) ==>
        TranslateSimpleType(pv) == Some([("type", JStr("text")), ("analyzer", JStr(UrlEmailAnalyzer))])
    ensures var f := FormatOrEmpty(pv);
      !IsUrlOrEmailFormat(f) && Infix("ip", f) ==> TranslateSimpleType(pv) == Some(TypeEntry(JStr("ip")))
    ensures var f := FormatOrEmpty(pv);
      !IsUrlOrEmailFormat(f) && !Infix("ip", f) && Infix("date", f) ==>
        TranslateSimpleType(pv) == Some([("type", JStr("date")), ("format", JStr(DateFormats))])
    ensures !HasFormatRule(FormatOrEmpty(pv)) && pv.typ == JStr("number") ==>
      TranslateSimpleType(pv) == Some(TypeEntry(JStr("long")))
    ensures !HasFormatRule(FormatOrEmpty(pv)) && pv.typ == JStr("string") ==>
      TranslateSimpleType(pv) == Some(TypeEntry(JStr(if FormatOrEmpty(pv) == "byte" then "binary" else "text")))
    ensures !HasFormatRule(FormatOrEmpty(pv)) && pv.typ == JStr("array") ==> TranslateSimpleType(pv) == None
    ensures !HasFormatRule(FormatOrEmpty(pv)) && pv.typ !in [JStr("number"), JStr("string"), JStr("array")] ==>
      TranslateSimpleType(pv) == Some(TypeEntry(pv.typ))
  {
  }

  /** A format rule decides a leaf whatever its type: two leaves with the same such format translate alike. */
  lemma FormatRuleIgnoresType(pv: Schema, other: Schema)
    requires FormatOrEmpty(pv) == FormatOrEmpty(other) && HasFormatRule(FormatOrEmpty(pv))
    ensures TranslateSimpleType(pv) == TranslateSimpleType(other)
    ensures TranslateSimpleType(pv).Some?
  {
  }

  /** `special and isinstance(special, dict) and special.get(key)`: the override for a key, if truthy. */
  function Override(special: Json, k: string): (r: Option<Json>)
    ensures r.Some? ==> special.JObj? && Get(special.fields, k) == r && Truthy(r.value)
    ensures r.None? ==> !special.JObj? || !Truthy(GetOrNull(special.fields, k))
  {
    if Truthy(special) && special.JObj? && Truthy(GetOrNull(special.fields, k)) then
      Some(GetOrNull(special.fields, k))
    else None
  }

  // ---------------------------------------------------------------------
  // Specification functions
  // ---------------------------------------------------------------------

  /** The entry `__walk_schema` stores under property `k`, or `None` when it stores nothing. */
  function MappingEntry(pv: Schema, k: string, special: Json): Option<Json>
    decreases pv, 1
  {
    if IsObjectType(pv) && HasProperties(pv) then
      Some(JObj([("type", JStr("object")), ("properties", JObj(WalkedFrom(pv, [], special, 0)))]))
    else if IsObjectType(pv) then Some(JObj(TypeEntry(JStr("object"))))
    else if HasItemProperties(pv) then Some(JObj(TypeEntry(JStr("nested"))))
    else if Override(special, k).Some? then Some(JObj(TypeEntry(Override(special, k).value)))
    else
      match TranslateSimpleType(pv)
      case None => None
      case Some(t) => Some(JObj(t))
  }

  /** The mapping after the properties of `s` before position `i` have been walked into `mapping`. */
  function WalkedFrom(s: Schema, mapping: Fields, special: Json, i: nat): Fields
    requires i <= |Props(s)|
    decreases s, 0, |Props(s)| - i
  {
    if i == |Props(s)| then mapping
    else
      PropertyBelow(s, i);
      var k := Props(s)[i].0;
      var e := MappingEntry(Props(s)[i].1, k, special);
      WalkedFrom(s, if e.Some? then Set(mapping, k, e.value) else mapping, special, i + 1)
  }

  /** Every object-typed component walks the top-level `properties`, which must then be present. */
  predicate Convertible(schema: Schema) {
    forall j :: 0 <= j < |Components(schema)| && IsObjectType(Components(schema)[j]) ==>
      schema.properties.Declared?
  }

  /** The mapping after components from position `i` on; each object-typed one walks `schema`'s own properties. */
  function ConvertedFrom(comps: seq<Schema>, schema: Schema, mapping: Fields, special: Json, i: nat): Fields
    requires i <= |comps|
    decreases |comps| - i
  {
    if i == |comps| then mapping
    else ConvertedFrom(comps, schema,
      if IsObjectType(comps[i]) then WalkedFrom(schema, mapping, special, 0) else mapping, special, i + 1)
  }

  /** `convert_schema_to_mapping(schema, special)`. */
  function Converted(schema: Schema, special: Json): Fields
    requires Convertible(schema)
  {
    [("properties", JObj(ConvertedFrom(Components(schema), schema, [], special, 0)))]
  }

  /** Building `{'type': t}` key by key into a fresh dict. */
  lemma TypeEntryBuilt(t: Json)
    ensures Set([], "type", t) == TypeEntry(t)
  {
  }

  /** Assigning a key into a fresh dict. */
  lemma OneKeyBuilt<V>(k: string, v: V)
    ensures Set([], k, v) == [(k, v)]
  {
    var empty: Dict<V> := [];
    assert !HasKey(empty, k);
  }

  /** A one-entry dict has no other key. */
  lemma OneKeyOnly<V>(k1: string, k2: string, v: V)
    requires k1 != k2
    ensures !HasKey([(k1, v)], k2)
  {
    assert Keys([(k1, v)]) == [k1];
  }

  /** Assigning two keys into a fresh dict, the second one twice. */
  lemma TwoKeysBuilt<V>(k1: string, k2: string, v1: V, v2: V, v3: V)
    requires k1 != k2
    ensures Set(Set(Set([], k1, v1), k2, v2), k2, v3) == [(k1, v1), (k2, v3)]
  {
    OneKeyBuilt(k1, v1);
    OneKeyOnly(k1, k2, v1);
    SetTwice([(k1, v1)], k2, v2, v3);
  }

  /** Building `{'type': 'object', 'properties': inner}` key by key into a fresh dict. */
  lemma ObjectEntryBuilt(inner: Fields)
    ensures Set(Set(Set([], "type", JStr("object")), "properties", JObj([])), "properties", JObj(inner))
         == [("type", JStr("object")), ("properties", JObj(inner))]
  {
    assert |"type"| != |"properties"|;
    TwoKeysBuilt("type", "properties", JStr("object"), JObj([]), JObj(inner));
  }

  // ---------------------------------------------------------------------
  // The translator's functions, step by step
  // ---------------------------------------------------------------------

  method ConvertSchemaToMapping(schema: Schema, special: Json := JNull) returns (r: Fields)
    requires Convertible(schema)
    ensures r == Converted(schema, special)
  {
    var mapping: Fields := [];
    var schemas := if schema.allOf != [] then schema.allOf else [schema];
    for i := 0 to |schemas|
      invariant ConvertedFrom(schemas, schema, mapping, special, i) == ConvertedFrom(schemas, schema, [], special, 0)
    {
      if IsObjectType(schemas[i]) {
        mapping := WalkSchema(schema, mapping, special);
      }
    }
    r := [("properties", JObj(mapping))];
  }

  method WalkSchema(s: Schema, mapping: Fields, special: Json) returns (r: Fields)
    ensures r == WalkedFrom(s, mapping, special, 0)
    decreases s, 1
  {
    r := mapping;
    for i := 0 to |Props(s)|
      invariant WalkedFrom(s, r, special, i) == WalkedFrom(s, mapping, special, 0)
    {
      r := WalkProperty(s, i, r, special);
    }
  }

  /** One pass of the loop in `__walk_schema`: the property at position `i` walked into `mapping`. */
  method WalkProperty(s: Schema, i: nat, mapping: Fields, special: Json) returns (r: Fields)
    requires i < |Props(s)|
    ensures r == Stepped(s, mapping, special, i)
    decreases s, 0
  {
    PropertyBelow(s, i);
    var propertyKey, propertyValue := Props(s)[i].0, Props(s)[i].1;
    r := mapping;
    if IsObjectType(propertyValue) && HasProperties(propertyValue) {
      var built: Fields := [];
      built := Set(built, "type", JStr("object"));
      built := Set(built, "properties", JObj([]));
      var inner := WalkSchema(propertyValue, [], special);
      built := Set(built, "properties", JObj(inner));
      ObjectEntryBuilt(inner);
      r := Set(r, propertyKey, JObj(built));
    } else if IsObjectType(propertyValue) {
      var built: Fields := [];
      built := Set(built, "type", JStr("object"));
      TypeEntryBuilt(JStr("object"));
      r := Set(r, propertyKey, JObj(built));
    } else if HasItemProperties(propertyValue) {
      var built: Fields := [];
      built := Set(built, "type", JStr("nested"));
      TypeEntryBuilt(JStr("nested"));
      r := Set(r, propertyKey, JObj(built));
    } else if Truthy(special) && special.JObj? && Truthy(GetOrNull(special.fields, propertyKey)) {
      r := Set(r, propertyKey, JObj(TypeEntry(GetOrNull(special.fields, propertyKey))));
    } else {
      var simpleType := TranslateSimpleType(propertyValue);
      if simpleType.Some? {
        r := Set(r, propertyKey, JObj(simpleType.value));
      }
    }
  }

  // ---------------------------------------------------------------------
  // What a mapping holds
  // ---------------------------------------------------------------------

  /** The walk adds no key other than the schema's property names. */
  lemma {:induction false} WalkedKeys(s: Schema, mapping: Fields, special: Json, i: nat, k: string)
    requires i <= |Props(s)|
    ensures HasKey(WalkedFrom(s, mapping, special, i), k) ==> HasKey(mapping, k) || HasKey(Props(s), k)
    decreases |Props(s)| - i
  {
    if i < |Props(s)| {
      var e := MappingEntry(Props(s)[i].1, Props(s)[i].0, special);
      var next := if e.Some? then Set(mapping, Props(s)[i].0, e.value) else mapping;
      WalkedKeys(s, next, special, i + 1, k);
      assert Keys(Props(s))[i] == Props(s)[i].0;
    }
  }

  /** A name the schema does not declare from position `i` on reads the same after the walk. */
  lemma {:induction false} WalkedOther(s: Schema, mapping: Fields, special: Json, i: nat, k: string)
    requires i <= |Props(s)|
    requires forall j :: i <= j < |Props(s)| ==> Props(s)[j].0 != k
    ensures Get(WalkedFrom(s, mapping, special, i), k) == Get(mapping, k)
    decreases |Props(s)| - i
  {
    if i < |Props(s)| {
      var next := Stepped(s, mapping, special, i);
      assert Get(next, k) == Get(mapping, k);
      WalkedOther(s, next, special, i + 1, k);
    }
  }

  /** The mapping after walking the property at position `i` into `mapping`. */
  function Stepped(s: Schema, mapping: Fields, special: Json, i: nat): (r: Fields)
    requires i < |Props(s)|
    ensures var e := MappingEntry(Props(s)[i].1, Props(s)[i].0, special);
      WalkedFrom(s, mapping, special, i) == WalkedFrom(s, r, special, i + 1) &&
      Get(r, Props(s)[i].0) == (if e.Some? then e else Get(mapping, Props(s)[i].0))
  {
    var e := MappingEntry(Props(s)[i].1, Props(s)[i].0, special);
    if e.Some? then Set(mapping, Props(s)[i].0, e.value) else mapping
  }

  /** A step that stores under a name already present keeps the keys and their order. */
  lemma SteppedKeepsKeys(s: Schema, mapping: Fields, special: Json, i: nat)
    requires i < |Props(s)|
    requires MappingEntry(Props(s)[i].1, Props(s)[i].0, special).Some? ==> HasKey(mapping, Props(s)[i].0)
    ensures Keys(Stepped(s, mapping, special, i)) == Keys(mapping)
  {
  }

  /** A declared name holds its entry, or what it held before when the walk stores nothing for it. */
  lemma {:induction false} WalkedAt(s: Schema, mapping: Fields, special: Json, i: nat, j: nat)
    requires i <= j < |Props(s)| && UniqueKeys(Props(s))
    ensures var e := MappingEntry(Props(s)[j].1, Props(s)[j].0, special);
      Get(WalkedFrom(s, mapping, special, i), Props(s)[j].0) == if e.Some? then e else Get(mapping, Props(s)[j].0)
    decreases |Props(s)| - i
  {
    var next := Stepped(s, mapping, special, i);
    if j == i {
      var k := Props(s)[i].0;
      assert forall j' :: i + 1 <= j' < |Props(s)| ==> Props(s)[j'].0 != k;
      WalkedOther(s, next, special, i + 1, k);
    } else {
      WalkedAt(s, next, special, i + 1, j);
      assert Props(s)[i].0 != Props(s)[j].0;
    }
  }

  lemma {:induction false} WalkedUnique(s: Schema, mapping: Fields, special: Json, i: nat)
    requires i <= |Props(s)| && UniqueKeys(mapping)
    ensures UniqueKeys(WalkedFrom(s, mapping, special, i))
    decreases |Props(s)| - i
  {
    if i < |Props(s)| {
      WalkedUnique(s, Stepped(s, mapping, special, i), special, i + 1);
    }
  }

  /** When every name the walk stores is already a key, the walk keeps the keys and their order. */
  lemma {:induction false} WalkedKeepsKeyOrder(s: Schema, mapping: Fields, special: Json, i: nat)
    requires i <= |Props(s)|
    requires forall j :: i <= j < |Props(s)| && MappingEntry(Props(s)[j].1, Props(s)[j].0, special).Some? ==>
      HasKey(mapping, Props(s)[j].0)
    ensures Keys(WalkedFrom(s, mapping, special, i)) == Keys(mapping)
    decreases |Props(s)| - i
  {
    if i < |Props(s)| {
      var next := Stepped(s, mapping, special, i);
      SteppedKeepsKeys(s, mapping, special, i);
      WalkedKeepsKeyOrder(s, next, special, i + 1);
    }
  }

  /** Walking the same properties twice into one mapping is walking them once. */
  lemma WalkTwice(s: Schema, mapping: Fields, special: Json)
    requires UniqueKeys(Props(s)) && UniqueKeys(mapping)
    ensures WalkedFrom(s, WalkedFrom(s, mapping, special, 0), special, 0) == WalkedFrom(s, mapping, special, 0)
  {
    var once := WalkedFrom(s, mapping, special, 0);
    var twice := WalkedFrom(s, once, special, 0);
    forall j | 0 <= j < |Props(s)|
      ensures Get(twice, Props(s)[j].0) == Get(once, Props(s)[j].0)
      ensures MappingEntry(Props(s)[j].1, Props(s)[j].0, special).Some? ==> HasKey(once, Props(s)[j].0)
    {
      WalkedAt(s, mapping, special, 0, j);
      WalkedAt(s, once, special, 0, j);
    }
    forall k
      ensures Get(twice, k) == Get(once, k)
    {
      if !HasKey(Props(s), k) {
        WalkedOther(s, once, special, 0, k);
      } else {
        var j := Find(Keys(Props(s)), k);
        assert Props(s)[j].0 == k;
      }
    }
    WalkedKeepsKeyOrder(s, once, special, 0);
    WalkedUnique(s, mapping, special, 0);
    DictsEqual(twice, once);
  }

  /** The mapping after the components from `i` on is `[]`-or-one-walk, and one walk once any is object-typed. */
  lemma {:induction false} ConvertedFromOneWalk(comps: seq<Schema>, schema: Schema, mapping: Fields, special: Json, i: nat)
    requires i <= |comps| && UniqueKeys(Props(schema))
    requires mapping == [] || mapping == WalkedFrom(schema, [], special, 0)
    ensures var r := ConvertedFrom(comps, schema, mapping, special, i);
      if exists j :: i <= j < |comps| && IsObjectType(comps[j])
      then r == WalkedFrom(schema, [], special, 0)
      else r == mapping
    decreases |comps| - i
  {
    if i < |comps| {
      var next := if IsObjectType(comps[i]) then WalkedFrom(schema, mapping, special, 0) else mapping;
      if IsObjectType(comps[i]) && mapping != [] {
        WalkTwice(schema, [], special);
      }
      ConvertedFromOneWalk(comps, schema, next, special, i + 1);
      if !IsObjectType(comps[i]) && exists j :: i <= j < |comps| && IsObjectType(comps[j]) {
        var j :| i <= j < |comps| && IsObjectType(comps[j]);
        assert j > i;
      }
    }
  }

  /**
   * `convert_schema_to_mapping` is `{'properties': m}` where `m` is one walk
   * of the top-level properties when any component is object-typed (however
   * many are), and `{}` otherwise; every key of `m` is a top-level property name.
   */
  lemma ConvertedShape(schema: Schema, special: Json)
    requires Convertible(schema) && UniqueKeys(Props(schema))
    ensures var r := Converted(schema, special);
      |r| == 1 && r[0].0 == "properties" && r[0].1.JObj? &&
      (forall k :: HasKey(r[0].1.fields, k) ==> HasKey(Props(schema), k)) &&
      if exists j :: 0 <= j < |Components(schema)| && IsObjectType(Components(schema)[j])
      then r[0].1.fields == WalkedFrom(schema, [], special, 0)
      else r[0].1.fields == []
  {
    ConvertedFromOneWalk(Components(schema), schema, [], special, 0);
    forall k
      ensures HasKey(WalkedFrom(schema, [], special, 0), k) ==> HasKey(Props(schema), k)
    {
      WalkedKeys(schema, [], special, 0, k);
    }
  }

  // ---------------------------------------------------------------------
  // Entries
  // ---------------------------------------------------------------------

  /**
   * The override never changes a container: objects and arrays of objects
   * get the same entry with or without it, apart from what the nested walk
   * of an object's own properties does with it.
   */
  lemma OverrideIgnoredForContainers(pv: Schema, k: string, special: Json)
    requires IsObjectType(pv) || HasItemProperties(pv)
    ensures MappingEntry(pv, k, special).Some?
    ensures MappingEntry(pv, k, special).value.JObj?
    ensures var f := MappingEntry(pv, k, special).value.fields;
      f != [] && f[0] == ("type", if IsObjectType(pv) then JStr("object") else JStr("nested"))
    ensures !(IsObjectType(pv) && HasProperties(pv)) ==> MappingEntry(pv, k, special) == MappingEntry(pv, k, JNull)
  {
  }

  /** A truthy override replaces the leaf translation of that key, whatever it would have been. */
  lemma OverrideWinsForLeaves(pv: Schema, k: string, special: Json, t: Json)
    requires !IsObjectType(pv) && !HasItemProperties(pv)
    requires special.JObj? && Get(special.fields, k) == Some(t) && Truthy(t)
    ensures MappingEntry(pv, k, special) == Some(JObj(TypeEntry(t)))
  {
  }

  /** Without an override, a leaf gets its translation, and an array of scalars gets nothing. */
  lemma LeafTranslated(pv: Schema, k: string, special: Json)
    requires !IsObjectType(pv) && !HasItemProperties(pv) && Override(special, k).None?
    ensures MappingEntry(pv, k, special).None? <==> !HasFormatRule(FormatOrEmpty(pv)) && pv.typ == JStr("array")
  {
  }

  /** The URL and e-mail formats come first. */
  lemma TranslateEmail()
    ensures TranslateSimpleType(Leaf("string", Some("email")))
         == Some([("type", JStr("text")), ("analyzer", JStr(UrlEmailAnalyzer))])
  {
  }

  /** A substring test fails when the string lacks one of the needle's characters. */
  lemma NotInfix(needle: string, f: string, c: char)
    requires c in needle && c !in f
    ensures !Infix(needle, f)
  {
    if Infix(needle, f) {
      InfixChars(needle, f, c);
    }
  }

  /** Then a format containing "ip"... */
  lemma TranslateIp()
    ensures TranslateSimpleType(Leaf("string", Some("ipv4"))) == Some(TypeEntry(JStr("ip")))
  {
    assert !IsUrlOrEmailFormat("ipv4");
    assert StartsWith("ipv4", "ip");
  }

  /** ...then one containing "date". */
  lemma TranslateDate()
    ensures TranslateSimpleType(Leaf("string", Some("date-time")))
         == Some([("type", JStr("date")), ("format", JStr(DateFormats))])
  {
    assert !IsUrlOrEmailFormat("date-time");
    NotInfix("ip", "date-time", 'p');
    assert StartsWith("date-time", "date");
  }

  /** Without a format, the type rules decide; a scalar array has no entry. */
  lemma TranslateTypes()
    ensures TranslateSimpleType(Leaf("number", None)) == Some(TypeEntry(JStr("long")))
    ensures TranslateSimpleType(Leaf("string", None)) == Some(TypeEntry(JStr("text")))
    ensures TranslateSimpleType(Leaf("boolean", None)) == Some(TypeEntry(JStr("boolean")))
    ensures TranslateSimpleType(Leaf("array", None)) == None
  {
    assert !HasFormatRule("");
  }

  /** A string with the `byte` format is binary. */
  lemma TranslateBinary()
    ensures TranslateSimpleType(Leaf("string", Some("byte"))) == Some(TypeEntry(JStr("binary")))
  {
    assert !IsUrlOrEmailFormat("byte");
    NotInfix("ip", "byte", 'i');
    NotInfix("date", "byte", 'd');
  }

  /**
   * The format rules test substrings and come before the type rules: any
   * format containing "ip", such as "zip", makes an `ip` field, even for a
   * number.
   */
  lemma FormatSubstringBeatsType()
    ensures TranslateSimpleType(Leaf("number", Some("zip"))) == Some(TypeEntry(JStr("ip")))
  {
    assert !IsUrlOrEmailFormat("zip");
    assert "zip"[1..] == "ip";
  }

  /**
   * The override reaches every depth: a leaf inside an object's properties
   * whose name has a truthy override gets `{'type': special[name]}` in the
   * object's nested mapping.
   */
  lemma OverrideAtEveryDepth(pv: Schema, k: string, special: Json, j: nat, t: Json)
    requires IsObjectType(pv) && HasProperties(pv) && UniqueKeys(Props(pv)) && j < |Props(pv)|
    requires !IsObjectType(Props(pv)[j].1) && !HasItemProperties(Props(pv)[j].1)
    requires special.JObj? && Get(special.fields, Props(pv)[j].0) == Some(t) && Truthy(t)
    ensures MappingEntry(pv, k, special).Some? && MappingEntry(pv, k, special).value.JObj?
    ensures var e := MappingEntry(pv, k, special).value.fields;
      |e| == 2 && e[1].0 == "properties" && e[1].1.JObj? &&
      Get(e[1].1.fields, Props(pv)[j].0) == Some(JObj(TypeEntry(t)))
  {
    WalkedAt(pv, [], special, 0, j);
    OverrideWinsForLeaves(Props(pv)[j].1, Props(pv)[j].0, special, t);
  }
}
