/**
 * The already-resolved OpenAPI-style object schemas both the record
 * projector and the search-index mapping translator walk.
 */
module Schemas {
  import opened Results
  import opened Dicts
  import opened JsonValues

  /**
   * One schema node. `typ` is what `schema.get('type')` reads (`JNull` when
   * absent); `format` is absent or a string; `properties` maps property
   * names to their schemas; `items` is the element schema of an array;
   * `allOf` lists the components of a composed schema.
   */
  datatype Schema = Schema(
    typ: Json,
    format: Option<string>,
    properties: PropertyMap,
    items: Option<Schema>,
    allOf: seq<Schema>)

  /** A schema's `properties` entry: absent, or a dict of property schemas. */
  datatype PropertyMap = Absent | Declared(entries: Dict<Schema>)

  /** An object schema with the given properties and nothing else. */
  function ObjectOf(ps: Dict<Schema>): Schema {
    Schema(JStr("object"), None, Declared(ps), None, [])
  }

  /** A schema with only a `type` (and optionally a `format`). */
  function Leaf(typ: string, format: Option<string>): Schema {
    Schema(JStr(typ), format, Absent, None, [])
  }

  /** `schema.get('properties', {})`. */
  function Props(s: Schema): (ps: Dict<Schema>)
    ensures s.properties.Declared? ==> ps == s.properties.entries
    ensures s.properties.Absent? ==> ps == []
  {
    if s.properties.Declared? then s.properties.entries else []
  }

  /** `schema.get('properties')` is truthy: a non-empty properties dict. */
  predicate HasProperties(s: Schema) {
    s.properties.Declared? && s.properties.entries != []
  }

  /** `schema.get('items', {}).get('properties')` is truthy. */
  predicate HasItemProperties(s: Schema) {
    s.items.Some? && HasProperties(s.items.value)
  }

  /** `schema.get('type') == 'object'`. */
  predicate IsObjectType(s: Schema) {
    s.typ == JStr("object")
  }

  /** `schema.get('format', '')`. */
  function FormatOrEmpty(s: Schema): string {
    if s.format.Some? then s.format.value else ""
  }

  /** The components a composed schema is read as: `allOf` when non-empty, else the schema itself. */
  function Components(s: Schema): (cs: seq<Schema>)
    ensures s.allOf != [] ==> cs == s.allOf
    ensures s.allOf == [] ==> cs == [s]
  {
    if s.allOf != [] then s.allOf else [s]
  }

  /** A property schema is smaller than the schema that declares it. */
  lemma PropertyBelow(s: Schema, i: nat)
    requires i < |Props(s)|
    ensures Props(s)[i].1 < s
  {
    var ps := s.properties.entries;
    assert ps[i] in ps;
  }

  /** Every properties dict at every depth has unique names, as a parsed schema does. */
  predicate SchemaWellFormed(s: Schema)
    decreases s
  {
    UniqueKeys(Props(s)) &&
    (forall i :: 0 <= i < |Props(s)| ==> (PropertyBelow(s, i); SchemaWellFormed(Props(s)[i].1))) &&
    (s.items.Some? ==> SchemaWellFormed(s.items.value)) &&
    (forall j :: 0 <= j < |s.allOf| ==> SchemaWellFormed(s.allOf[j]))
  }
}
