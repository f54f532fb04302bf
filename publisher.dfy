/**
 * Publishing a record change to an SNS topic.
 *
 * A publish call carries keyword arguments: the topic, the record and the
 * values of the message attributes. Every message attribute becomes a
 * `{DataType, StringValue}` pair: the three default attributes are always
 * typed `String`; a custom attribute is `String` when its value is a string
 * and `Number` otherwise. The SNS client is outside the model: a call that
 * passes the guard is described by the topic, message and attributes it
 * would send.
 */
module Publisher {
  import opened Results
  import opened Dicts
  import opened JsonValues

  /** One SNS message attribute. */
  datatype MessageAttribute = MessageAttribute(dataType: string, stringValue: Json)

  /** SNS reads message attributes by name, so their order plays no part. */
  type MessageAttributes = map<string, MessageAttribute>

  /** Why a publish that passed the guard was abandoned; the source prints it and carries on. */
  datatype PublishError =
    | MissingKey(key: string)        // `kwargs[key]` on a call without it
    | AttributesNotADict             // `sns_attributes` has no `.items()`

  /** What a publish call does. */
  datatype PublishOutcome =
    | Skipped
    | Published(topicArn: Json, message: Json, attributes: MessageAttributes)
    | Failed(error: PublishError)

  /** `'String' if isinstance(value, str) else 'Number'`. */
  function DataType(value: Json): string {
    if value.JStr? then "String" else "Number"
  }

  /** A custom attribute, typed by its value. */
  function CustomAttribute(value: Json): MessageAttribute {
    MessageAttribute(DataType(value), value)
  }

  /** The custom attributes of the first `n` entries of `sns`, assigned one by one onto `attributes`. */
  function WithCustom(attributes: MessageAttributes, sns: Fields, n: nat): MessageAttributes
    requires n <= |sns|
  {
    if n == 0 then attributes else WithCustom(attributes, sns, n - 1)[sns[n - 1].0 := CustomAttribute(sns[n - 1].1)]
  }

  /**
   * `_format_custom_attributes(attributes, sns_attributes)`: every custom
   * value, `None` included, is typed and assigned onto the attributes.
   */
  method FormatCustomAttributes(attributes: MessageAttributes, sns: Fields) returns (r: MessageAttributes)
    ensures r == WithCustom(attributes, sns, |sns|)
  {
    r := attributes;
    for i := 0 to |sns|
      invariant r == WithCustom(attributes, sns, i)
    {
      var (key, value) := sns[i];
      var dataType := "Number";
      if value.JStr? {
        dataType := "String";
      }
      r := r[key := MessageAttribute(dataType, value)];
    }
  }

  /**
   * With distinct custom keys, every custom key carries its own typed value,
   * every other attribute is kept, and nothing else appears.
   */
  lemma WithCustomContents(attributes: MessageAttributes, sns: Fields, n: nat)
    requires n <= |sns| && UniqueKeys(sns)
    ensures var r := WithCustom(attributes, sns, n);
      (forall k :: k in r <==> k in attributes || k in Keys(sns[..n])) &&
      (forall i :: 0 <= i < n ==> r[sns[i].0] == CustomAttribute(sns[i].1)) &&
      (forall k :: k in attributes && k !in Keys(sns[..n]) ==> r[k] == attributes[k])
  {
    WithCustomKeys(attributes, sns, n);
    WithCustomValues(attributes, sns, n);
    WithCustomKept(attributes, sns, n);
  }

  /** The keys after `n` custom attributes: the old ones and the first `n` custom names. */
  lemma {:induction false} WithCustomKeys(attributes: MessageAttributes, sns: Fields, n: nat)
    requires n <= |sns|
    ensures forall k :: k in WithCustom(attributes, sns, n) <==> k in attributes || k in Keys(sns[..n])
    decreases n
  {
    if n > 0 {
      WithCustomKeys(attributes, sns, n - 1);
      assert Keys(sns[..n]) == Keys(sns[..n - 1]) + [sns[n - 1].0];
    }
  }

  /** With distinct names, each of the first `n` custom names holds its own typed value. */
  lemma {:induction false} WithCustomValues(attributes: MessageAttributes, sns: Fields, n: nat)
    requires n <= |sns| && UniqueKeys(sns)
    ensures forall i :: 0 <= i < n ==>
      sns[i].0 in WithCustom(attributes, sns, n) && WithCustom(attributes, sns, n)[sns[i].0] == CustomAttribute(sns[i].1)
    decreases n
  {
    if n > 0 {
      WithCustomValues(attributes, sns, n - 1);
      WithCustomKeys(attributes, sns, n - 1);
      forall i | 0 <= i < n - 1
        ensures sns[i].0 in Keys(sns[..n - 1])
      {
        assert Keys(sns[..n - 1])[i] == sns[i].0;
      }
    }
  }

  /** An attribute that none of the first `n` custom names overrides keeps its value. */
  lemma {:induction false} WithCustomKept(attributes: MessageAttributes, sns: Fields, n: nat)
    requires n <= |sns|
    ensures forall k :: k in attributes && k !in Keys(sns[..n]) ==>
      k in WithCustom(attributes, sns, n) && WithCustom(attributes, sns, n)[k] == attributes[k]
    decreases n
  {
    if n > 0 {
      WithCustomKept(attributes, sns, n - 1);
      WithCustomKeys(attributes, sns, n - 1);
      assert Keys(sns[..n]) == Keys(sns[..n - 1]) + [sns[n - 1].0];
    }
  }

  /** A default attribute: typed `String` whatever its value. */
  function StringAttribute(value: Json): MessageAttribute {
    MessageAttribute("String", value)
  }

  /** The default attribute names: schema, identifier and operation always, the author only when truthy. */
  function DefaultKeys(kwargs: Fields): set<string> {
    {"model_schema", "model_identifier", "operation"} +
    (if Truthy(GetOrNull(kwargs, "author_identifier")) then {"author_identifier"} else {})
  }

  /**
   * `_get_default_attributes(**kwargs)`: schema, identifier and operation
   * always, the author only when truthy; a missing schema, identifier or
   * operation is a KeyError, reported for the first missing one.
   */
  function DefaultAttributes(kwargs: Fields): (r: Result<MessageAttributes, PublishError>)
    ensures r.Ok? <==> HasKey(kwargs, "model_schema") && HasKey(kwargs, "model_identifier") && HasKey(kwargs, "operation")
    ensures !HasKey(kwargs, "model_schema") ==> r == Err(MissingKey("model_schema"))
    ensures r.Ok? ==> r.value.Keys == DefaultKeys(kwargs)
    ensures r.Ok? ==> forall k :: k in r.value ==> r.value[k] == StringAttribute(GetOrNull(kwargs, k))
  {
    if !HasKey(kwargs, "model_schema") then Err(MissingKey("model_schema"))
    else if !HasKey(kwargs, "model_identifier") then Err(MissingKey("model_identifier"))
    else if !HasKey(kwargs, "operation") then Err(MissingKey("operation"))
    else
      Ok(map k | k in DefaultKeys(kwargs) :: StringAttribute(GetOrNull(kwargs, k)))
  }

  /**
   * `publish(**kwargs)`, with the topic read under `arnKey`: nothing
   * happens without a truthy topic and record; otherwise the default
   * attributes, overridden by the custom ones, go out with the record.
   */
  function PublishReading(arnKey: string, kwargs: Fields): (r: PublishOutcome)
    ensures r.Skipped? <==> !Truthy(GetOrNull(kwargs, arnKey)) || !Truthy(GetOrNull(kwargs, "data"))
    ensures r.Published? ==> r.topicArn == GetOrNull(kwargs, arnKey) && r.message == GetOrNull(kwargs, "data")
  {
    if !Truthy(GetOrNull(kwargs, arnKey)) || !Truthy(GetOrNull(kwargs, "data")) then Skipped
    else
      match DefaultAttributes(kwargs)
      case Err(e) => Failed(e)
      case Ok(defaults) =>
        var sns := GetOr(kwargs, "sns_attributes", JObj([]));
        if !sns.JObj? then Failed(AttributesNotADict)
        else Published(GetOrNull(kwargs, arnKey), GetOrNull(kwargs, "data"), WithCustom(defaults, sns.fields, |sns.fields|))
  }

  /** `publish` as written: the guard and the topic read `sns_arn`. */
  function Publish(kwargs: Fields): (r: PublishOutcome)
    ensures r.Skipped? <==> !Truthy(GetOrNull(kwargs, "sns_arn")) || !Truthy(GetOrNull(kwargs, "data"))
    ensures r.Published? ==> r.topicArn == GetOrNull(kwargs, "sns_arn") && r.message == GetOrNull(kwargs, "data")
  {
    PublishReading("sns_arn", kwargs)
  }

  /**
   * `publish` reading the topic as `kwargs.get('sns_arn') or kwargs.get('arn')`:
   * callers passing `sns_arn` are served as before, callers passing `arn`
   * are no longer skipped.
   */
  function PublishFixed(kwargs: Fields): (r: PublishOutcome)
    ensures var topic := if Truthy(GetOrNull(kwargs, "sns_arn")) then GetOrNull(kwargs, "sns_arn") else GetOrNull(kwargs, "arn");
      (r.Skipped? <==> !Truthy(topic) || !Truthy(GetOrNull(kwargs, "data"))) &&
      (r.Published? ==> r.topicArn == topic && r.message == GetOrNull(kwargs, "data"))
  {
    if Truthy(GetOrNull(kwargs, "sns_arn")) then PublishReading("sns_arn", kwargs)
    else PublishReading("arn", kwargs)
  }

  /** The correction changes nothing for a call with a truthy `sns_arn`, such as the DynamoDB adapter's. */
  lemma FixKeepsSnsArnCallers(kwargs: Fields)
    requires Truthy(GetOrNull(kwargs, "sns_arn"))
    ensures PublishFixed(kwargs) == Publish(kwargs)
    ensures PublishFixed(kwargs).Skipped? <==> !Truthy(GetOrNull(kwargs, "data"))
  {
  }

  /** Without a truthy `sns_arn` the correction reads the topic under `arn`. */
  lemma FixServesArnCallers(kwargs: Fields)
    requires !Truthy(GetOrNull(kwargs, "sns_arn"))
    ensures PublishFixed(kwargs).Skipped? <==> !Truthy(GetOrNull(kwargs, "arn")) || !Truthy(GetOrNull(kwargs, "data"))
    ensures PublishFixed(kwargs).Published? ==> PublishFixed(kwargs).topicArn == GetOrNull(kwargs, "arn")
    ensures Publish(kwargs) == Skipped
  {
  }

  /** A call passing the topic as `arn` never passes the guard as written. */
  lemma CallersByArnAreSkipped(kwargs: Fields)
    requires !HasKey(kwargs, "sns_arn")
    ensures Publish(kwargs) == Skipped
  {
  }

  /** The arguments the publisher's own test passes. */
  const TestArn := JStr("arn:aws:sns:us-east-2:111111111111:unittest-mock-sns-topic")
  const TestData := JObj([("key", JStr("value"))])
  const TestCall: Fields := [("arn", TestArn),
                             ("data", TestData),
                             ("model_schema", JStr("unit-test")),
                             ("model_identifier", JStr("unit_test_id")),
                             ("region", JStr("us-east-2")),
                             ("operation", JStr("create"))]

  /** The keys of the test's call all differ in length, so a key of any other length is absent. */
  lemma TestCallAbsent(k: string)
    requires |k| !in {3, 4, 12, 16, 6, 9}
    ensures !HasKey(TestCall, k)
  {
    assert forall i :: 0 <= i < |TestCall| ==> |TestCall[i].0| in {3, 4, 12, 16, 6, 9};
  }

  /** As written, the test's call publishes nothing. */
  lemma TestCallSkipped(kwargs: Fields)
    requires kwargs == TestCall
    ensures Publish(kwargs) == Skipped
  {
    TestCallAbsent("sns_arn");
  }

  /** What the test's call looks up. */
  lemma TestCallLookups()
    ensures GetOrNull(TestCall, "arn") == TestArn
    ensures GetOrNull(TestCall, "data") == TestData
    ensures GetOrNull(TestCall, "model_schema") == JStr("unit-test")
    ensures GetOrNull(TestCall, "model_identifier") == JStr("unit_test_id")
    ensures GetOrNull(TestCall, "operation") == JStr("create")
  {
    forall i, j | 0 <= j < i < |TestCall|
      ensures TestCall[j].0 != TestCall[i].0
    {
      assert |TestCall[j].0| != |TestCall[i].0|;
    }
    GetFirst(TestCall, 0);
    GetFirst(TestCall, 1);
    GetFirst(TestCall, 2);
    GetFirst(TestCall, 3);
    GetFirst(TestCall, 5);
  }

  /** The test's call has the three `String` defaults and no author. */
  lemma TestCallDefaults()
    ensures DefaultAttributes(TestCall).Ok?
    ensures var defaults := DefaultAttributes(TestCall).value;
      defaults.Keys == {"model_schema", "model_identifier", "operation"} &&
      defaults["model_schema"] == StringAttribute(JStr("unit-test")) &&
      defaults["model_identifier"] == StringAttribute(JStr("unit_test_id")) &&
      defaults["operation"] == StringAttribute(JStr("create"))
  {
    TestCallLookups();
    TestCallAbsent("author_identifier");
    assert DefaultKeys(TestCall) == {"model_schema", "model_identifier", "operation"};
  }

  /** Under the correction, the test's call publishes the record with its default attributes alone. */
  lemma TestCallPublishesWhenFixed(kwargs: Fields)
    requires kwargs == TestCall
    ensures DefaultAttributes(TestCall).Ok?
    ensures PublishFixed(kwargs) == Published(TestArn, TestData, DefaultAttributes(TestCall).value)
  {
    TestCallLookups();
    TestCallDefaults();
    TestCallAbsent("sns_attributes");
    TestCallAbsent("sns_arn");
    assert Truthy(TestData) by { assert |TestData.fields| == 1; }
    PublishedWithoutCustom("arn", kwargs);
  }

  /** A call passing the guard without custom attributes publishes its default attributes alone. */
  lemma PublishedWithoutCustom(arnKey: string, kwargs: Fields)
    requires Truthy(GetOrNull(kwargs, arnKey)) && Truthy(GetOrNull(kwargs, "data"))
    requires DefaultAttributes(kwargs).Ok? && !HasKey(kwargs, "sns_attributes")
    ensures PublishReading(arnKey, kwargs) ==
      Published(GetOrNull(kwargs, arnKey), GetOrNull(kwargs, "data"), DefaultAttributes(kwargs).value)
  {
    var defaults := DefaultAttributes(kwargs).value;
    assert GetOr(kwargs, "sns_attributes", JObj([])) == JObj([]);
    assert WithCustom(defaults, [], 0) == defaults;
  }

  /**
   * A published message carries every custom attribute, typed by its
   * value, and every default attribute it does not override.
   */
  lemma PublishedAttributes(arnKey: string, kwargs: Fields, i: nat)
    requires PublishReading(arnKey, kwargs).Published?
    requires var sns := GetOr(kwargs, "sns_attributes", JObj([]));
      sns.JObj? && UniqueKeys(sns.fields) && i < |sns.fields|
    ensures var sns := GetOr(kwargs, "sns_attributes", JObj([])).fields;
      var attributes := PublishReading(arnKey, kwargs).attributes;
      sns[i].0 in attributes && attributes[sns[i].0] == CustomAttribute(sns[i].1) &&
      ("model_schema" !in Keys(sns) ==>
         "model_schema" in attributes && attributes["model_schema"] == StringAttribute(GetOrNull(kwargs, "model_schema")))
  {
    var sns := GetOr(kwargs, "sns_attributes", JObj([])).fields;
    assert sns[..|sns|] == sns;
    WithCustomContents(DefaultAttributes(kwargs).value, sns, |sns|);
  }
}
