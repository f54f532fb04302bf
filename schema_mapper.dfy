/**
 * The record projector (`common/schema_mapper.py`): projects an arbitrary
 * record onto an object schema, keeping only the declared properties.
 *
 * At each level a truthy dict input yields one entry per declared property,
 * in declaration order: nested objects (a non-empty `properties`) are
 * projected recursively, arrays whose `items` declare properties are
 * projected element by element, and every other property is copied from the
 * input (`None` when missing). Any other input yields `{}`.
 *
 * The source passes a schema's `properties` dict down the recursion; here
 * the schema that owns the dict is passed instead and `Props` reads it.
 */
module SchemaMapper {
  import opened Results
  import opened Dicts
  import opened JsonValues
  import opened Schemas

  /** `data and isinstance(data, dict)`: the inputs a level is projected from. */
  predicate IsRecord(data: Json) {
    Truthy(data) && data.JObj?
  }

  /**
   * The inputs the projector takes without raising: under an array-of-objects
   * property, `len(data.get(key, []))` needs a list, string or dict (or a
   * missing key), and `None`, a number or a bool raise `TypeError`.
   */
  predicate Projectable(s: Schema, data: Json)
    decreases s, 3
  {
    IsRecord(data) ==>
      forall i :: 0 <= i < |Props(s)| ==>
        (PropertyBelow(s, i); PropertyProjectable(Props(s)[i].1, data.fields, Props(s)[i].0))
  }

  predicate PropertyProjectable(pv: Schema, data: Fields, k: string)
    decreases pv, 4
  {
    if HasProperties(pv) then Projectable(pv, GetOrNull(data, k))
    else if HasItemProperties(pv) then
      match Get(data, k)
      case None => true
      case Some(v) =>
        v.JStr? || v.JObj? ||
        (v.JArr? && forall j :: 0 <= j < |v.items| ==> Projectable(pv.items.value, v.items[j]))
    else true
  }

  // ---------------------------------------------------------------------
  // Specification functions
  // ---------------------------------------------------------------------

  /** `_populate_model_data(props, data, model)`: the dict `model` becomes. */
  function PopulatedData(s: Schema, data: Json, model: Fields): Fields
    requires Projectable(s, data)
    decreases s, 3
  {
    if IsRecord(data) then PopulatedDict(s, data.fields, model, 0) else model
  }

  /** The dict `model` after the properties before position `i` have been written. */
  function PopulatedDict(s: Schema, data: Fields, model: Fields, i: nat): Fields
    requires i <= |Props(s)|
    requires forall j :: i <= j < |Props(s)| ==> PropertyProjectable(Props(s)[j].1, data, Props(s)[j].0)
    decreases s, 2, |Props(s)| - i
  {
    if i == |Props(s)| then model
    else
      PropertyBelow(s, i);
      var k := Props(s)[i].0;
      PopulatedDict(s, data, Set(model, k, PropertyValue(Props(s)[i].1, data, k)), i + 1)
  }

  /** The value one declared property takes in the projection of `data`. */
  function PropertyValue(pv: Schema, data: Fields, k: string): Json
    requires PropertyProjectable(pv, data, k)
    decreases pv, 4
  {
    if HasProperties(pv) then JObj(PopulatedData(pv, GetOrNull(data, k), []))
    else if HasItemProperties(pv) then
      match Get(data, k)
      case Some(v) => if v.JArr? then JArr(ProjectedItems(pv.items.value, v.items)) else JArr([])
      case None => JArr([])
    else GetOrNull(data, k)
  }

  /** Each element of an array projected onto the item schema, in order. */
  function ProjectedItems(item: Schema, xs: seq<Json>): (r: seq<Json>)
    requires forall j :: 0 <= j < |xs| ==> Projectable(item, xs[j])
    ensures |r| == |xs|
    ensures forall j :: 0 <= j < |xs| ==> r[j] == JObj(PopulatedData(item, xs[j], []))
    decreases item, 5, |xs|
  {
    seq(|xs|, j requires 0 <= j < |xs| => JObj(PopulatedData(item, xs[j], [])))
  }

  /** Projecting one more element of an array appends its projection. */
  lemma ProjectedItemsSnoc(item: Schema, xs: seq<Json>, i: nat)
    requires i < |xs| && forall j :: 0 <= j < |xs| ==> Projectable(item, xs[j])
    ensures ProjectedItems(item, xs[..i + 1]) == ProjectedItems(item, xs[..i]) + [JObj(PopulatedData(item, xs[i], []))]
  {
  }

  /** The components that contribute, `type == 'object'`, can take `data`. */
  predicate ComponentsProjectable(comps: seq<Schema>, data: Json, i: nat) {
    forall j :: i <= j < |comps| && IsObjectType(comps[j]) ==> Projectable(comps[j], data)
  }

  predicate Mappable(schema: Schema, data: Json) {
    ComponentsProjectable(Components(schema), data, 0)
  }

  /** The shared output dict after the components from position `i` on have been applied to `model`. */
  function MappedFrom(comps: seq<Schema>, data: Json, model: Fields, i: nat): Fields
    requires i <= |comps| && ComponentsProjectable(comps, data, i)
    decreases |comps| - i
  {
    if i == |comps| then model
    else MappedFrom(comps, data, if IsObjectType(comps[i]) then PopulatedData(comps[i], data, model) else model, i + 1)
  }

  /** `map_to_schema(data, schema)`. */
  function MappedToSchema(data: Json, schema: Schema): Fields
    requires Mappable(schema, data)
  {
    MappedFrom(Components(schema), data, [], 0)
  }

  // ---------------------------------------------------------------------
  // The projector's functions, step by step
  // ---------------------------------------------------------------------

  method MapToSchema(data: Json, modelSchema: Schema) returns (modelData: Fields)
    requires Mappable(modelSchema, data)
    ensures modelData == MappedToSchema(data, modelSchema)
  {
    modelData := [];
    var schemas := if modelSchema.allOf != [] then modelSchema.allOf else [modelSchema];
    for i := 0 to |schemas|
      invariant MappedFrom(schemas, data, modelData, i) == MappedFrom(schemas, data, [], 0)
    {
      if IsObjectType(schemas[i]) {
        modelData := PopulateModelData(schemas[i], data, modelData);
      }
    }
  }

  method PopulateModelData(s: Schema, data: Json, modelData: Fields) returns (r: Fields)
    requires Projectable(s, data)
    ensures r == PopulatedData(s, data, modelData)
    decreases s, 3
  {
    r := modelData;
    if Truthy(data) && data.JObj? {
      r := PopulateModelDict(s, data.fields, modelData);
    }
  }

  method PopulateModelDict(s: Schema, data: Fields, modelData: Fields) returns (r: Fields)
    requires forall j :: 0 <= j < |Props(s)| ==> PropertyProjectable(Props(s)[j].1, data, Props(s)[j].0)
    ensures r == PopulatedDict(s, data, modelData, 0)
    decreases s, 2
  {
    r := modelData;
    for i := 0 to |Props(s)|
      invariant PopulatedDict(s, data, r, i) == PopulatedDict(s, data, modelData, 0)
    {
      PropertyBelow(s, i);
      var propertyKey, propertyValue := Props(s)[i].0, Props(s)[i].1;
      var before := r;
      r := Set(r, propertyKey, JObj([]));
      if HasProperties(propertyValue) {
        // the nested level is written into the `{}` just stored under the key
        var inner := PopulateModelData(propertyValue, GetOrNull(data, propertyKey), []);
        r := Set(r, propertyKey, JObj(inner));
      } else if HasItemProperties(propertyValue) {
        r := PopulateModelList(r, propertyKey, propertyValue, data);
      } else {
        r := Set(r, propertyKey, GetOrNull(data, propertyKey));
      }
      SetTwice(before, propertyKey, JObj([]), PropertyValue(propertyValue, data, propertyKey));
    }
  }

  method PopulateModelList(modelData: Fields, propertyKey: string, propertyValue: Schema, data: Fields)
    returns (r: Fields)
    requires !HasProperties(propertyValue) && HasItemProperties(propertyValue)
    requires PropertyProjectable(propertyValue, data, propertyKey)
    ensures r == Set(modelData, propertyKey, PropertyValue(propertyValue, data, propertyKey))
    decreases propertyValue, 4
  {
    var item := propertyValue.items.value;
    r := Set(modelData, propertyKey, JArr([]));
    // `data.get(property_key, [])`, whose length bounds the index loop
    var sized := if HasKey(data, propertyKey) then Get(data, propertyKey).value else JArr([]);
    assert sized.JStr? || sized.JObj? || sized.JArr?;
    var n := if sized.JStr? then |sized.s| else if sized.JObj? then |sized.fields| else |sized.items|;
    var items: seq<Json> := [];
    for index := 0 to n
      invariant r == Set(modelData, propertyKey, JArr(items))
      invariant sized.JArr? ==> n == |sized.items| && items == ProjectedItems(item, sized.items[..index])
      invariant !sized.JArr? ==> items == []
    {
      var current := GetOrNull(data, propertyKey);
      if Truthy(current) && current.JArr? && index < |current.items| {
        ProjectedItemsSnoc(item, current.items, index);
        var pop := PopulateModelData(item, current.items[index], []);
        SetTwice(modelData, propertyKey, JArr(items), JArr(items + [JObj(pop)]));
        items := items + [JObj(pop)];
        r := Set(r, propertyKey, JArr(items));
      }
    }
    if sized.JArr? {
      assert sized.items[..n] == sized.items;
    }
    SetTwice(modelData, propertyKey, JArr([]), JArr(items));
  }

  // ---------------------------------------------------------------------
  // What a projection holds
  // ---------------------------------------------------------------------

  /** Writing the declared properties from position `i` on leaves their names as the keys. */
  lemma {:induction false} PopulatedDictKeys(s: Schema, data: Fields, model: Fields, i: nat)
    requires i <= |Props(s)|
    requires forall j :: i <= j < |Props(s)| ==> PropertyProjectable(Props(s)[j].1, data, Props(s)[j].0)
    requires UniqueKeys(Props(s)) && Keys(model) == Keys(Props(s))[..i]
    ensures Keys(PopulatedDict(s, data, model, i)) == Keys(Props(s))
    decreases |Props(s)| - i
  {
    var ks := Keys(Props(s));
    if i < |Props(s)| {
      var k := Props(s)[i].0;
      assert !HasKey(model, k) by {
        forall j | 0 <= j < i
          ensures Keys(model)[j] != k
        {
          assert Keys(model)[j] == ks[j] == Props(s)[j].0;
        }
      }
      assert ks[..i + 1] == ks[..i] + [k];
      PopulatedDictKeys(s, data, Set(model, k, PropertyValue(Props(s)[i].1, data, k)), i + 1);
    } else {
      assert ks[..i] == ks;
    }
  }

  /** A name not declared from position `i` on reads the same as in `model`. */
  lemma {:induction false} PopulatedDictOther(s: Schema, data: Fields, model: Fields, i: nat, k: string)
    requires i <= |Props(s)|
    requires forall j :: i <= j < |Props(s)| ==> PropertyProjectable(Props(s)[j].1, data, Props(s)[j].0)
    requires forall j :: i <= j < |Props(s)| ==> Props(s)[j].0 != k
    ensures Get(PopulatedDict(s, data, model, i), k) == Get(model, k)
    decreases |Props(s)| - i
  {
    if i < |Props(s)| {
      var k' := Props(s)[i].0;
      PopulatedDictOther(s, data, Set(model, k', PropertyValue(Props(s)[i].1, data, k')), i + 1, k);
    }
  }

  /** A declared name holds the value its property takes. */
  lemma {:induction false} PopulatedDictAt(s: Schema, data: Fields, model: Fields, i: nat, j: nat)
    requires i <= j < |Props(s)| && UniqueKeys(Props(s))
    requires forall j :: i <= j < |Props(s)| ==> PropertyProjectable(Props(s)[j].1, data, Props(s)[j].0)
    ensures Get(PopulatedDict(s, data, model, i), Props(s)[j].0)
         == Some(PropertyValue(Props(s)[j].1, data, Props(s)[j].0))
    decreases |Props(s)| - i
  {
    var k := Props(s)[i].0;
    var next := Set(model, k, PropertyValue(Props(s)[i].1, data, k));
    assert PopulatedDict(s, data, model, i) == PopulatedDict(s, data, next, i + 1);
    if j == i {
      assert forall j' :: i + 1 <= j' < |Props(s)| ==> Props(s)[j'].0 != k;
      PopulatedDictOther(s, data, next, i + 1, k);
    } else {
      PopulatedDictAt(s, data, next, i + 1, j);
    }
  }

  /**
   * The projection of one level: a truthy dict yields exactly the declared
   * names, in declaration order, each holding its property's value, and
   * drops everything else; any other input yields `{}`.
   */
  lemma ProjectionCharacterised(s: Schema, data: Json)
    requires Projectable(s, data) && UniqueKeys(Props(s))
    ensures !IsRecord(data) ==> PopulatedData(s, data, []) == []
    ensures IsRecord(data) ==>
      var r := PopulatedData(s, data, []);
      Keys(r) == Keys(Props(s)) &&
      forall j :: 0 <= j < |Props(s)| ==>
        Get(r, Props(s)[j].0) == Some(PropertyValue(Props(s)[j].1, data.fields, Props(s)[j].0))
  {
    if IsRecord(data) {
      PopulatedDictKeys(s, data.fields, [], 0);
      forall j | 0 <= j < |Props(s)|
        ensures Get(PopulatedData(s, data, []), Props(s)[j].0)
             == Some(PropertyValue(Props(s)[j].1, data.fields, Props(s)[j].0))
      {
        PopulatedDictAt(s, data.fields, [], 0, j);
      }
    }
  }

  /**
   * Object-ness is decided by a non-empty `properties`, not by `type`: an
   * object-typed property without properties is copied as a leaf, and so is
   * anything else without nested or item properties.
   */
  lemma LeafIsCopied(pv: Schema, data: Fields, k: string)
    requires !HasProperties(pv) && !HasItemProperties(pv)
    ensures PropertyValue(pv, data, k) == GetOrNull(data, k)
    ensures !HasKey(data, k) ==> PropertyValue(pv, data, k) == JNull
  {
  }

  /** An array-of-objects property: an input list projected element by element, anything else `[]`. */
  lemma ArrayPropertyProjected(pv: Schema, data: Fields, k: string)
    requires !HasProperties(pv) && HasItemProperties(pv) && PropertyProjectable(pv, data, k)
    ensures var v := PropertyValue(pv, data, k);
      v.JArr? &&
      (GetOrNull(data, k).JArr? ==>
        |v.items| == |GetOrNull(data, k).items| &&
        forall j :: 0 <= j < |v.items| ==>
          v.items[j] == JObj(PopulatedData(pv.items.value, GetOrNull(data, k).items[j], []))) &&
      (!GetOrNull(data, k).JArr? ==> v.items == [])
  {
  }

  // ---------------------------------------------------------------------
  // Composed schemas
  // ---------------------------------------------------------------------

  /** The last object-typed component from position `i` on that declares `k`, or -1. */
  function LastDeclaring(comps: seq<Schema>, k: string, i: nat): (r: int)
    requires i <= |comps|
    ensures r == -1 || i <= r < |comps|
    ensures r >= 0 ==> IsObjectType(comps[r]) && HasKey(Props(comps[r]), k)
    ensures forall j :: r < j < |comps| && i <= j ==> !(IsObjectType(comps[j]) && HasKey(Props(comps[j]), k))
    decreases |comps| - i
  {
    if i == |comps| then -1
    else
      var later := LastDeclaring(comps, k, i + 1);
      if later >= 0 then later
      else if IsObjectType(comps[i]) && HasKey(Props(comps[i]), k) then i
      else -1
  }

  /** The value the property named `k` of `s` takes in the projection of `data`. */
  function DeclaredValue(s: Schema, data: Json, k: string): Json
    requires Projectable(s, data) && IsRecord(data) && HasKey(Props(s), k)
  {
    PropertyValue(Get(Props(s), k).value, data.fields, k)
  }

  /**
   * `allOf` components accumulate into one dict: each name holds the value
   * of the last object-typed component that declares it, and names no
   * component declares keep what `model` held.
   */
  lemma {:induction false} MappedFromAt(comps: seq<Schema>, data: Json, model: Fields, i: nat, k: string)
    requires i <= |comps| && ComponentsProjectable(comps, data, i) && IsRecord(data)
    requires forall j :: i <= j < |comps| ==> UniqueKeys(Props(comps[j]))
    ensures var w := LastDeclaring(comps, k, i);
      Get(MappedFrom(comps, data, model, i), k)
      == if w < 0 then Get(model, k) else Some(DeclaredValue(comps[w], data, k))
    decreases |comps| - i
  {
    if i < |comps| {
      var c := comps[i];
      var next := if IsObjectType(c) then PopulatedData(c, data, model) else model;
      MappedFromAt(comps, data, next, i + 1, k);
      if IsObjectType(c) {
        if HasKey(Props(c), k) {
          var j := Find(Keys(Props(c)), k);
          GetAt(Props(c), j);
          PopulatedDictAt(c, data.fields, model, 0, j);
        } else {
          PopulatedDictOther(c, data.fields, model, 0, k);
        }
      }
    }
  }

  /** `map_to_schema` in terms of its components: the last declaring object component wins. */
  lemma MapToSchemaAt(data: Json, schema: Schema, k: string)
    requires Mappable(schema, data) && IsRecord(data)
    requires forall j :: 0 <= j < |Components(schema)| ==> UniqueKeys(Props(Components(schema)[j]))
    ensures var w := LastDeclaring(Components(schema), k, 0);
      Get(MappedToSchema(data, schema), k)
      == if w < 0 then None else Some(DeclaredValue(Components(schema)[w], data, k))
  {
    MappedFromAt(Components(schema), data, [], 0, k);
  }

  /** A falsy or non-dict record maps to `{}`, whatever the schema. */
  lemma {:induction false} MapNonRecordIsEmpty(comps: seq<Schema>, data: Json, i: nat)
    requires i <= |comps| && ComponentsProjectable(comps, data, i) && !IsRecord(data)
    ensures MappedFrom(comps, data, [], i) == []
    decreases |comps| - i
  {
    if i < |comps| {
      MapNonRecordIsEmpty(comps, data, i + 1);
    }
  }

  // ---------------------------------------------------------------------
  // Idempotence
  // ---------------------------------------------------------------------

  /**
   * Projection is idempotent: a projected record can be projected again
   * without raising, and maps to itself.
   */
  lemma {:induction false} ProjectIdempotent(s: Schema, data: Json)
    requires SchemaWellFormed(s) && Projectable(s, data)
    ensures Projectable(s, JObj(PopulatedData(s, data, [])))
    ensures PopulatedData(s, JObj(PopulatedData(s, data, [])), []) == PopulatedData(s, data, [])
    decreases s, 3
  {
    var p := PopulatedData(s, data, []);
    if !IsRecord(JObj(p)) {
      assert p == [] by { assert !Truthy(JObj(p)); }
      ProjectionCharacterised(s, JObj(p));
    } else {
      ProjectionCharacterised(s, data);
      assert IsRecord(data);
      forall j | 0 <= j < |Props(s)|
        ensures PropertyProjectable(Props(s)[j].1, p, Props(s)[j].0)
        ensures PropertyValue(Props(s)[j].1, p, Props(s)[j].0)
             == PropertyValue(Props(s)[j].1, data.fields, Props(s)[j].0)
      {
        PropertyBelow(s, j);
        PropertyIdempotent(Props(s)[j].1, data.fields, Props(s)[j].0, p);
      }
      assert Projectable(s, JObj(p));
      ProjectionCharacterised(s, JObj(p));
      var q := PopulatedData(s, JObj(p), []);
      forall k
        ensures Get(q, k) == Get(p, k)
      {
        if HasKey(Props(s), k) {
          var j := Find(Keys(Props(s)), k);
          assert Props(s)[j].0 == k;
        }
      }
      DictsEqual(q, p);
    }
  }

  /** One property's value is unchanged by projecting the projection again. */
  lemma {:induction false} PropertyIdempotent(pv: Schema, data: Fields, k: string, p: Fields)
    requires SchemaWellFormed(pv) && PropertyProjectable(pv, data, k)
    requires Get(p, k) == Some(PropertyValue(pv, data, k))
    ensures PropertyProjectable(pv, p, k)
    ensures PropertyValue(pv, p, k) == PropertyValue(pv, data, k)
    decreases pv, 4
  {
    if HasProperties(pv) {
      ProjectIdempotent(pv, GetOrNull(data, k));
    } else if HasItemProperties(pv) {
      var item := pv.items.value;
      var v := GetOrNull(data, k);
      if HasKey(data, k) && v.JArr? {
        var ys := ProjectedItems(item, v.items);
        forall j | 0 <= j < |ys|
          ensures Projectable(item, ys[j]) && JObj(PopulatedData(item, ys[j], [])) == ys[j]
        {
          ProjectIdempotent(item, v.items[j]);
        }
        assert ProjectedItems(item, ys) == ys;
      }
    }
  }
}
