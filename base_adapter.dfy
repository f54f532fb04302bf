/**
 * The part every storage adapter shares: the SNS settings it was built
 * with, the default message attributes, and the formatting of those
 * attributes when a change is published.
 *
 * Attribute dictionaries are modelled as maps: the attributes end up as SNS
 * message attributes, which are read by name, so their order plays no part.
 */
module BaseAdapters {
  import opened Results
  import opened Dicts
  import opened JsonValues
  import opened Publisher

  /** A dict of attribute values by name. */
  type Values = map<string, Json>

  /** The names `__init__` seeds the default attributes with. */
  const DefaultNames: set<string> := {"model_schema", "model_identifier", "model_version_key", "author_identifier"}

  /** `{'model_schema': kwargs.get('model_schema'), ...}`: a name the caller left out holds `None`. */
  function InitialDefaults(kwargs: Fields): (r: Values)
    ensures r.Keys == DefaultNames
    ensures forall k :: k in r ==> (r[k] != JNull ==> HasKey(kwargs, k)) && (HasKey(kwargs, k) ==> Get(kwargs, k) == Some(r[k]))
  {
    map k | k in DefaultNames :: GetOrNull(kwargs, k)
  }

  /** A dict given as keyword argument, read by name: the first entry for a name wins, as in a Python dict. */
  function ValuesOf(fields: Fields): (r: Values)
    ensures forall k :: k in r <==> HasKey(fields, k)
    ensures forall k :: k in r ==> Get(fields, k) == Some(r[k])
  {
    map k | k in Keys(fields) :: GetOrNull(fields, k)
  }

  /**
   * `get_attributes()`: defaults and custom attributes as the two switches
   * say, a custom value overriding a default of the same name. `None` when
   * the custom attributes are a truthy value that is not a dict, which the
   * source cannot merge or iterate.
   */
  function AttributesOf(snsDefaults: Json, snsCustom: Json, defaults: Values): (r: Option<Values>)
    ensures r.None? <==> Truthy(snsCustom) && !snsCustom.JObj?
    ensures r.Some? ==> forall k :: k in r.value <==>
              (Truthy(snsDefaults) && k in defaults) || (Truthy(snsCustom) && snsCustom.JObj? && HasKey(snsCustom.fields, k))
    ensures r.Some? ==> forall k :: k in r.value ==>
              if Truthy(snsCustom) && snsCustom.JObj? && HasKey(snsCustom.fields, k)
              then Get(snsCustom.fields, k) == Some(r.value[k])
              else r.value[k] == defaults[k]
  {
    if Truthy(snsDefaults) && Truthy(snsCustom) then
      if snsCustom.JObj? then Some(defaults + ValuesOf(snsCustom.fields)) else None
    else if !Truthy(snsDefaults) && Truthy(snsCustom) then
      if snsCustom.JObj? then Some(ValuesOf(snsCustom.fields)) else None
    else if Truthy(snsDefaults) && !Truthy(snsCustom) then Some(defaults)
    else Some(map[])
  }

  /** The attributes among `names` that `create_format_attibutes` sends: those not `None`, typed by value. */
  function FormattedOver(attributes: Values, names: set<string>): MessageAttributes {
    map k | k in names && k in attributes && attributes[k] != JNull :: CustomAttribute(attributes[k])
  }

  /** Formatting one more name adds its attribute, unless its value is `None`. */
  lemma FormattedStep(attributes: Values, done: set<string>, key: string)
    requires key in attributes
    ensures attributes[key] == JNull ==> FormattedOver(attributes, done + {key}) == FormattedOver(attributes, done)
    ensures attributes[key] != JNull ==>
              FormattedOver(attributes, done + {key}) == FormattedOver(attributes, done)[key := CustomAttribute(attributes[key])]
  {
  }

  /** The attributes `create_format_attibutes` sends. */
  function Formatted(attributes: Values): MessageAttributes {
    FormattedOver(attributes, attributes.Keys)
  }

  /** The loop of `create_format_attibutes`: each attribute not `None`, typed by its value. */
  method FormatAttributes(attributes: Values) returns (formatted: MessageAttributes)
    ensures formatted == Formatted(attributes)
  {
    formatted := map[];
    var pending := attributes.Keys;
    while pending != {}
      invariant pending <= attributes.Keys
      invariant formatted == FormattedOver(attributes, attributes.Keys - pending)
      decreases |pending|
    {
      var key :| key in pending;
      var value := attributes[key];
      FormattedStep(attributes, attributes.Keys - pending, key);
      if value != JNull {
        var dataType := if value.JStr? then "String" else "Number";
        formatted := formatted[key := MessageAttribute(dataType, value)];
      }
      assert attributes.Keys - (pending - {key}) == (attributes.Keys - pending) + {key};
      pending := pending - {key};
    }
    assert attributes.Keys - pending == attributes.Keys;
  }

  class BaseAdapter {
    var snsArn: Json
    var snsCustom: Json
    var snsDefaults: Json
    var defaultAttributes: Values

    /** `__init__(**kwargs)`: custom attributes default to `{}`, the defaults switch to `True`. */
    constructor(kwargs: Fields)
      ensures snsArn == GetOrNull(kwargs, "sns_arn")
      ensures snsCustom == GetOr(kwargs, "sns_attributes", JObj([]))
      ensures snsDefaults == GetOr(kwargs, "sns_default_attributes", JBool(true))
      ensures defaultAttributes == InitialDefaults(kwargs)
    {
      snsArn := GetOrNull(kwargs, "sns_arn");
      snsCustom := GetOr(kwargs, "sns_attributes", JObj([]));
      snsDefaults := GetOr(kwargs, "sns_default_attributes", JBool(true));
      defaultAttributes := InitialDefaults(kwargs);
    }

    /** `get_attributes()` on this adapter's current state. */
    function GetAttributes(): Option<Values>
      reads this
    {
      AttributesOf(snsDefaults, snsCustom, defaultAttributes)
    }

    /**
     * `create_format_attibutes(operation)`: records the operation among the
     * defaults, then formats the attributes one by one. `None` when the
     * custom attributes cannot be read as a dict.
     */
    method CreateFormatAttributes(operation: Json) returns (r: Option<MessageAttributes>)
      modifies this
      ensures defaultAttributes == old(defaultAttributes)["operation" := operation]
      ensures snsArn == old(snsArn) && snsCustom == old(snsCustom) && snsDefaults == old(snsDefaults)
      ensures GetAttributes().None? ==> r.None?
      ensures GetAttributes().Some? ==> r == Some(Formatted(GetAttributes().value))
    {
      defaultAttributes := defaultAttributes["operation" := operation];
      var custom := GetAttributes();
      if custom.None? {
        return None;
      }
      var formatted := FormatAttributes(custom.value);
      r := Some(formatted);
    }

    /**
     * `publish(operation, data)`: formats the attributes, then hands the
     * topic and the record to the publisher under `arn` and `data`. `None`
     * when formatting raised before anything was handed over; otherwise the
     * publisher as written, which looks for `sns_arn` and so skips the call.
     */
    method Publish(operation: Json, data: Json) returns (r: Option<PublishOutcome>)
      modifies this
      ensures defaultAttributes == old(defaultAttributes)["operation" := operation]
      ensures snsArn == old(snsArn) && snsCustom == old(snsCustom) && snsDefaults == old(snsDefaults)
      ensures GetAttributes().None? ==> r.None?
      ensures GetAttributes().Some? ==> r == Some(Publisher.Publish([("arn", snsArn), ("data", data)]))
      ensures GetAttributes().Some? ==> r == Some(Skipped)
    {
      var attributes := CreateFormatAttributes(operation);
      if attributes.None? {
        return None;
      }
      AdapterCallSkipped(snsArn, data);
      r := Some(Publisher.Publish([("arn", snsArn), ("data", data)]));
    }
  }

  /**
   * What `create_format_attibutes` sends: a name is sent exactly when the
   * enabled defaults or custom attributes hold a value other than `None`
   * for it, the custom value winning, typed `String` exactly when it is a string.
   */
  lemma FormattedAttributes(snsDefaults: Json, custom: Fields, defaults: Values, k: string)
    ensures var r := Formatted(AttributesOf(snsDefaults, JObj(custom), defaults).value);
      var v := if custom != [] && HasKey(custom, k) then GetOrNull(custom, k)
               else if Truthy(snsDefaults) && k in defaults then defaults[k]
               else JNull;
      (k in r <==> v != JNull) &&
      (k in r ==> r[k].stringValue == v && (r[k].dataType == "String" <==> v.JStr?))
  {
  }

  /** A default the caller did not pass holds `None` and is never sent. */
  lemma UnpassedDefaultNotSent(kwargs: Fields, snsCustom: Json, operation: Json, k: string)
    requires k in DefaultNames && !HasKey(kwargs, k)
    requires snsCustom.JObj? && !HasKey(snsCustom.fields, k)
    ensures k !in Formatted(AttributesOf(JBool(true), snsCustom, InitialDefaults(kwargs)["operation" := operation]).value)
  {
  }

  /** With the defaults switched on and no custom attributes, the operation is sent as recorded. */
  lemma OperationSent(defaults: Values, operation: Json)
    requires operation != JNull
    ensures var r := Formatted(AttributesOf(JBool(true), JObj([]), defaults["operation" := operation]).value);
      "operation" in r && r["operation"] == CustomAttribute(operation)
  {
  }

  /** With the defaults switched off and no custom attributes, nothing is sent. */
  lemma NothingSent(defaults: Values)
    ensures Formatted(AttributesOf(JBool(false), JObj([]), defaults).value) == map[]
  {
  }

  /** The defaults the adapter tests build: four names passed, and the operation recorded. */
  const TestDefaults: Values := map["model_schema" := JStr("test-dynamo-model"),
                                    "model_identifier" := JStr("test_id"),
                                    "model_version_key" := JStr("modified"),
                                    "author_identifier" := JStr("unit-test"),
                                    "operation" := JStr("unit-test")]

  /** Every default of the tests is a string. */
  lemma TestDefaultsAreStrings()
    ensures forall k :: k in TestDefaults ==> TestDefaults[k].JStr?
  {
  }

  /** The tests' custom attribute is not one of their defaults. */
  lemma UnitTestNotDefault()
    ensures "unit_test" !in TestDefaults
  {
  }

  /** Attributes whose values are all strings are all sent, each typed `String`. */
  lemma StringsFormatted(attributes: Values)
    requires forall k :: k in attributes ==> attributes[k].JStr?
    ensures Formatted(attributes).Keys == attributes.Keys
    ensures forall k :: k in attributes ==> Formatted(attributes)[k] == StringAttribute(attributes[k])
  {
  }

  /** A one-entry custom dict read by name. */
  lemma SingleValue(k: string, v: Json)
    ensures ValuesOf([(k, v)]) == map[k := v]
  {
    GetFirst([(k, v)], 0);
    assert Keys([(k, v)]) == [k];
  }

  /** One custom attribute over the defaults: the custom value is assigned over them. */
  lemma SingleCustom(snsDefaults: Json, k: string, v: Json, defaults: Values)
    ensures AttributesOf(snsDefaults, JObj([(k, v)]), defaults)
         == Some(if Truthy(snsDefaults) then defaults[k := v] else map[k := v])
  {
    SingleValue(k, v);
    assert Truthy(JObj([(k, v)]));
    assert defaults + map[k := v] == defaults[k := v];
  }

  /** The defaults alone are sent as five `String` attributes. */
  lemma DefaultAttributesExample()
    ensures var r := Formatted(AttributesOf(JBool(true), JObj([]), TestDefaults).value);
      r.Keys == TestDefaults.Keys && forall k :: k in r ==> r[k] == StringAttribute(TestDefaults[k])
  {
    StringsFormatted(TestDefaults);
  }

  /** A single attribute is sent typed by its value, unless it is `None`. */
  lemma FormattedSingle(k: string, v: Json)
    ensures Formatted(map[k := v]) == if v == JNull then map[] else map[k := CustomAttribute(v)]
  {
  }

  /** String defaults with one string assigned over them are all sent as `String` attributes. */
  lemma StringsOverridden(defaults: Values, k: string, v: Json)
    requires forall k' :: k' in defaults ==> defaults[k'].JStr?
    requires v.JStr?
    ensures var r := Formatted(defaults[k := v]);
      r.Keys == defaults.Keys + {k} && r[k] == StringAttribute(v) &&
      forall k' :: k' in defaults && k' != k ==> r[k'] == StringAttribute(defaults[k'])
  {
    StringsFormatted(defaults[k := v]);
  }

  /** A custom string alone is sent as a `String` attribute. */
  lemma CustomStringExample()
    ensures Formatted(AttributesOf(JBool(false), JObj([("unit_test", JStr("passed"))]), TestDefaults).value)
         == map["unit_test" := StringAttribute(JStr("passed"))]
  {
    SingleCustom(JBool(false), "unit_test", JStr("passed"), TestDefaults);
    FormattedSingle("unit_test", JStr("passed"));
  }

  /** A custom number alone is sent as a `Number` attribute. */
  lemma CustomNumberExample()
    ensures Formatted(AttributesOf(JBool(false), JObj([("unit_test", JInt(1))]), TestDefaults).value)
         == map["unit_test" := MessageAttribute("Number", JInt(1))]
  {
    SingleCustom(JBool(false), "unit_test", JInt(1), TestDefaults);
    FormattedSingle("unit_test", JInt(1));
  }

  /** Custom attributes and defaults together: six `String` attributes. */
  lemma CombinedAttributesExample()
    ensures var r := Formatted(AttributesOf(JBool(true), JObj([("unit_test", JStr("passed"))]), TestDefaults).value);
      r.Keys == TestDefaults.Keys + {"unit_test"} &&
      r["unit_test"] == StringAttribute(JStr("passed")) &&
      forall k :: k in TestDefaults ==> r[k] == StringAttribute(TestDefaults[k])
  {
    SingleCustom(JBool(true), "unit_test", JStr("passed"), TestDefaults);
    TestDefaultsAreStrings();
    StringsOverridden(TestDefaults, "unit_test", JStr("passed"));
    UnitTestNotDefault();
  }

  /** As written, the publisher skips every call the adapter makes: it looks for `sns_arn`. */
  lemma AdapterCallSkipped(arn: Json, data: Json)
    ensures Publish([("arn", arn), ("data", data)]) == Skipped
  {
    assert Keys([("arn", arn), ("data", data)]) == ["arn", "data"];
  }

  /**
   * Under the corrected publisher, the adapter's call passes the guard when
   * topic and record are truthy, and then fails: it does not pass the
   * `model_schema` the publisher's default attributes require.
   */
  lemma AdapterCallLacksSchema(arn: Json, data: Json)
    ensures Truthy(arn) && Truthy(data) ==> PublishFixed([("arn", arn), ("data", data)]) == Failed(MissingKey("model_schema"))
    ensures !(Truthy(arn) && Truthy(data)) ==> PublishFixed([("arn", arn), ("data", data)]) == Skipped
  {
    var kwargs := [("arn", arn), ("data", data)];
    assert Keys(kwargs) == ["arn", "data"];
    GetFirst(kwargs, 0);
    GetFirst(kwargs, 1);
  }
}
