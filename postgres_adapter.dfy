/**
 * The Postgres adapter's SQL text and parameter binding.
 *
 * Queries are psycopg2 templates: `%(name)s` placeholders filled from a
 * params dict, where an `AsIs` value is spliced in as raw SQL (table and
 * column names) and any other value is bound as a literal. The clause
 * builders append WHERE, ORDER BY, LIMIT and OFFSET text and write the
 * names they use into one shared params dict; the UPDATE builder binds one
 * `%(k)s = %(k-value)s` pair per column. Two guards screen free-form SQL,
 * and insert, update and upsert branch on whether a row with the record's
 * identifier already exists, which the database reports and which is an
 * input here.
 */
module Postgres {
  import opened Results
  import opened Dicts
  import opened Strings
  import opened JsonValues
  import opened Schemas
  import opened SchemaMapper
  import opened DictMerger

  /** A query parameter: an `AsIs` splice of raw SQL text, a bound value, or a tuple of values. */
  datatype Param = AsIs(sql: Json) | Bound(value: Json) | Values(items: seq<Json>)

  /**
   * The params dict. psycopg2 reads it only by placeholder name, so its
   * insertion order plays no part and it is a map.
   */
  type Params = map<string, Param>

  /** `a` and `b` agree on `q`: both lack it or both hold the same value. */
  predicate SameEntry(a: Params, b: Params, q: string) {
    (q in a <==> q in b) && (q in a ==> a[q] == b[q])
  }

  /** The exceptions `__raise_error` raises, by the error type it is given. */
  datatype Raised =
    | ParamsRequired
    | ReadOnly
    | TableWriteOnly                           // raised as a CreateTableException
    | NotUnique(identifier: string, value: Json)
    | NotExists(identifier: string, value: Json)
    | Unrecognised(errorType: string)

  /** Everything an adapter operation can raise in this model. */
  datatype AdapterError =
    | Raise(raised: Raised)
    | KeyError(key: string)                    // `data[model_identifier]` on a record without it
    | MergeFailed(error: MergeError)           // the record merger raised
    | TypeError(keyword: string)               // a call Python refuses for the keyword argument named

  // ---------------------------------------------------------------------
  // Errors
  // ---------------------------------------------------------------------

  /** `__raise_error(error_type, data=data)`: the exception for an error type name. */
  function RaiseError(errorType: string, identifier: string, data: Fields): (r: Raised)
    ensures r.Unrecognised? <==>
      errorType !in {"PARAMS_REQUIRED", "READ_ONLY", "TABLE_WRITE_ONLY", "NOT_UNIQUE", "NOT_EXISTS"}
  {
    if errorType == "PARAMS_REQUIRED" then ParamsRequired
    else if errorType == "READ_ONLY" then ReadOnly
    else if errorType == "TABLE_WRITE_ONLY" then TableWriteOnly
    else if errorType == "NOT_UNIQUE" then NotUnique(identifier, GetOrNull(data, identifier))
    else if errorType == "NOT_EXISTS" then NotExists(identifier, GetOrNull(data, identifier))
    else Unrecognised(errorType)
  }

  /** The error type name a caller passes to raise `r`. */
  function ErrorTypeName(r: Raised): string {
    match r
    case ParamsRequired => "PARAMS_REQUIRED"
    case ReadOnly => "READ_ONLY"
    case TableWriteOnly => "TABLE_WRITE_ONLY"
    case NotUnique(_, _) => "NOT_UNIQUE"
    case NotExists(_, _) => "NOT_EXISTS"
    case Unrecognised(t) => t
  }

  /**
   * Every exception is raised by its own name: the five known names give
   * their exceptions, the row errors carrying the record's identifier value,
   * and any other name falls through to the catch-all.
   */
  lemma RaiseErrorByName(r: Raised, identifier: string, data: Fields)
    requires r.NotUnique? || r.NotExists? ==> r.identifier == identifier && r.value == GetOrNull(data, identifier)
    requires r.Unrecognised? ==>
      r.errorType !in {"PARAMS_REQUIRED", "READ_ONLY", "TABLE_WRITE_ONLY", "NOT_UNIQUE", "NOT_EXISTS"}
    ensures RaiseError(ErrorTypeName(r), identifier, data) == r
  {
  }

  /** The exception's message; `str` is Python's `str()` of the identifier value. */
  function Message(r: Raised, str: Json -> string): string {
    match r
    case ParamsRequired => "params kwargs are required to prevent sql inject; send empty dict if not needed"
    case ReadOnly => "query method is for read-only operations; please use another function for destructive operatins"
    case TableWriteOnly => "create table query-string must start with \"create table\""
    case NotUnique(id, v) => "row already exist with " + id + " = " + str(v)
    case NotExists(id, v) => "row does not exist with " + id + " = " + str(v)
    case Unrecognised(t) => "Something went wrong and I am not sure how I got here: " + t
  }

  /** The record the tests insert twice is refused with its identifier in the message. */
  lemma NotUniqueMessageExample(str: Json -> string)
    requires str(JStr("some-unique-thing")) == "some-unique-thing"
    ensures Message(RaiseError("NOT_UNIQUE", "user_id", [("user_id", JStr("some-unique-thing"))]), str) ==
      "row already exist with " + "user_id" + " = " + "some-unique-thing"
  {
    var data: Fields := [("user_id", JStr("some-unique-thing"))];
    GetFirst(data, 0);
    assert RaiseError("NOT_UNIQUE", "user_id", data) == NotUnique("user_id", JStr("some-unique-thing"));
  }

  // ---------------------------------------------------------------------
  // Guards
  // ---------------------------------------------------------------------

  /** The words `query` refuses anywhere in the lowercased text. */
  const DestructiveWords: seq<string> := ["insert", "update", "delete"]

  predicate Destructive(query: string) {
    exists w :: w in DestructiveWords && Infix(w, Lower(query))
  }

  /**
   * `query(query=..., params=...)`: refuses a call without params, then any
   * text mentioning a destructive word; otherwise the text and params are
   * what gets executed.
   */
  function Query(query: string, params: Option<Json>): (r: Result<(string, Json), Raised>)
    ensures r.Ok? <==> params.Some? && !Destructive(query)
    ensures params.None? ==> r == Err(ParamsRequired)
    ensures r.Ok? ==> r.value == (query, params.value)
  {
    if params.None? then Err(ParamsRequired)
    else if Infix("insert", Lower(query)) || Infix("update", Lower(query)) || Infix("delete", Lower(query)) then
      Err(ReadOnly)
    else Ok((query, params.value))
  }

  /** Lowercasing twice is lowercasing once. */
  lemma LowerIdempotent(s: string)
    ensures Lower(Lower(s)) == Lower(s)
  {
  }

  /** The guard reads only the lowercase text: changing letter case never changes its verdict. */
  lemma QueryIgnoresCase(a: string, b: string, params: Option<Json>)
    requires Lower(a) == Lower(b)
    ensures Query(a, params).Ok? == Query(b, params).Ok?
    ensures Query(a, params).Err? ==> Query(a, params) == Query(b, params)
  {
  }

  /** A missing params argument is reported before destructive text. */
  lemma QueryParamsFirst(query: string)
    requires Destructive(query)
    ensures Query(query, None) == Err(ParamsRequired)
    ensures forall p :: Query(query, Some(p)) == Err(ReadOnly)
  {
  }

  /** The guard matches substrings, not words: reading a column named `updated_at` is refused. */
  lemma QueryRefusesUpdatedAt(p: Json)
    ensures Query("SELECT updated_at FROM users", Some(p)) == Err(ReadOnly)
  {
    InfixLowerAt("update", "SELECT updated_at FROM users", 7);
  }

  /**
   * `create_table(query=...)`: only text whose lowercase form starts with
   * `create table` is executed.
   */
  function CreateTable(query: string): (r: Result<string, Raised>)
    ensures r.Ok? <==> StartsWith(Lower(query), "create table")
    ensures r.Ok? ==> r.value == query
    ensures r.Err? ==> r.error == TableWriteOnly
  {
    if StartsWith(Lower(query), "create table") then Ok(query) else Err(TableWriteOnly)
  }

  /** Any letter case of `create table` passes. */
  lemma CreateTableAnyCase()
    ensures CreateTable("CREATE TABLE users (id text)") == Ok("CREATE TABLE users (id text)")
    ensures CreateTable("Create Table users (id text)").Ok?
  {
    StartsWithLower("CREATE TABLE users (id text)", "create table");
    StartsWithLower("Create Table users (id text)", "create table");
  }

  /** Leading blanks or another statement are refused. */
  lemma CreateTableRefusals()
    ensures CreateTable(" create table users (id text)") == Err(TableWriteOnly)
    ensures CreateTable("drop table users") == Err(TableWriteOnly)
  {
    assert Lower(" create table users (id text)")[0] == ' ';
    assert Lower("drop table users")[0] == 'd';
  }

  // ---------------------------------------------------------------------
  // CREATE INDEX
  // ---------------------------------------------------------------------

  /** `create_index(table, columns)`: the index is named after its columns. */
  function CreateIndex(table: string, columns: seq<string>): (r: string)
    ensures var name := Join("_", columns);
      |r| == 19 + |name| + 4 + |table| + 1 + |Join(", ", columns)| + 2 &&
      StartsWith(r, "CREATE INDEX index_") &&
      r[19..19 + |name|] == name &&
      r[19 + |name|..19 + |name| + 4 + |table| + 1] == " ON " + table + " " &&
      EndsWith(r, "(" + Join(", ", columns) + ")")
  {
    var head := "CREATE INDEX index_";
    var name := Join("_", columns);
    var on := " ON " + table + " ";
    var cols := "(" + Join(", ", columns) + ")";
    var r := head + name + on + cols;
    assert r[..|head|] == head;
    assert r[|head|..|head| + |name|] == name;
    assert r[|head| + |name|..|head| + |name| + |on|] == on;
    assert r[|r| - |cols|..] == cols;
    r
  }

  /** The indexed column list reads back as the columns when no column name holds a comma. */
  lemma IndexListsColumns(table: string, columns: seq<string>)
    requires columns != [] && forall i :: 0 <= i < |columns| ==> ',' !in columns[i]
    ensures var r := CreateIndex(table, columns);
      r[|r| - |Join(", ", columns)| - 1..|r| - 1] == Join(", ", columns) &&
      Split(Join(", ", columns), ", ") == columns
  {
    SplitJoin(columns, ", ");
  }

  /** Index names are not unique per column list: `a_b` alone and `a`, `b` share one name. */
  lemma IndexNamesCollide(table: string)
    ensures CreateIndex(table, ["a_b"]) != CreateIndex(table, ["a", "b"])
    ensures CreateIndex(table, ["a_b"])[..22] == CreateIndex(table, ["a", "b"])[..22] == "CREATE INDEX index_a_b"
  {
    assert Join("_", ["a", "b"]) == "a_b";
    assert Join(", ", ["a", "b"]) == "a, b";
  }

  // ---------------------------------------------------------------------
  // Binding columns: WHERE and UPDATE SET
  // ---------------------------------------------------------------------

  /** The placeholder a column's value is bound under. */
  function ValueKey(k: string): string {
    k + "-value"
  }

  /** `<prefix>%(k)s = %(k-value)s`: one column compared with, or set to, its bound value. */
  function Binding(prefix: string, k: string): string {
    prefix + "%(" + k + ")s = %(" + ValueKey(k) + ")s"
  }

  /** A binding has no comma of its own. */
  lemma BindingCommaFree(k: string)
    requires ',' !in k
    ensures ',' !in Binding("", k)
  {
  }

  /** The bindings of the first `n` columns of `fields`, in order. */
  function Bindings(prefix: string, fields: Fields, n: nat): (r: seq<string>)
    requires n <= |fields|
    ensures |r| == n
  {
    if n == 0 then [] else Bindings(prefix, fields, n - 1) + [Binding(prefix, fields[n - 1].0)]
  }

  lemma {:induction false} BindingsAt(prefix: string, fields: Fields, n: nat, i: nat)
    requires i < n <= |fields|
    ensures Bindings(prefix, fields, n)[i] == Binding(prefix, fields[i].0)
    decreases n
  {
    if i < n - 1 {
      BindingsAt(prefix, fields, n - 1, i);
    }
  }

  /** `params` after the first `n` columns have bound `k-value` to their value and `k` to their name. */
  function BoundColumns(params: Params, fields: Fields, n: nat): Params
    requires n <= |fields|
  {
    if n == 0 then params
    else
      var k := fields[n - 1].0;
      BoundColumns(params, fields, n - 1)[ValueKey(k) := Bound(fields[n - 1].1)][k := AsIs(JStr(k))]
  }

  /** Column names the binding cannot confuse: none holds a `-`, so none is another's value key. */
  predicate PlainColumns(fields: Fields) {
    forall i :: 0 <= i < |fields| ==> '-' !in fields[i].0
  }

  lemma ValueKeyInjective(a: string, b: string)
    requires ValueKey(a) == ValueKey(b)
    ensures a == b
  {
    assert |a| == |b|;
    assert a == ValueKey(a)[..|a|];
  }

  lemma ValueKeyNotPlain(a: string, b: string)
    requires '-' !in b
    ensures ValueKey(a) != b
  {
    assert ValueKey(a)[|a|] == '-';
  }

  /** A plain, distinct column is named after itself once bound. */
  lemma {:induction false} BoundColumnsName(params: Params, fields: Fields, n: nat, i: nat)
    requires i < n <= |fields| && UniqueKeys(fields) && PlainColumns(fields)
    ensures var bound := BoundColumns(params, fields, n);
      fields[i].0 in bound && bound[fields[i].0] == AsIs(JStr(fields[i].0))
    decreases n
  {
    if i < n - 1 {
      BoundColumnsName(params, fields, n - 1, i);
      ValueKeyNotPlain(fields[n - 1].0, fields[i].0);
    }
  }

  /** A plain, distinct column's value is bound under its value key. */
  lemma {:induction false} BoundColumnsValue(params: Params, fields: Fields, n: nat, i: nat)
    requires i < n <= |fields| && UniqueKeys(fields) && PlainColumns(fields)
    ensures var bound := BoundColumns(params, fields, n);
      ValueKey(fields[i].0) in bound && bound[ValueKey(fields[i].0)] == Bound(fields[i].1)
    decreases n
  {
    var k := fields[n - 1].0;
    ValueKeyNotPlain(fields[i].0, k);
    if i < n - 1 {
      BoundColumnsValue(params, fields, n - 1, i);
      if ValueKey(k) == ValueKey(fields[i].0) {
        ValueKeyInjective(k, fields[i].0);
      }
    }
  }

  /** Binding columns leaves every entry that is neither a column nor a value key alone. */
  lemma {:induction false} BoundColumnsOther(params: Params, fields: Fields, n: nat, q: string)
    requires n <= |fields|
    requires forall i :: 0 <= i < n ==> fields[i].0 != q && ValueKey(fields[i].0) != q
    ensures SameEntry(BoundColumns(params, fields, n), params, q)
    decreases n
  {
    if n > 0 {
      BoundColumnsOther(params, fields, n - 1, q);
    }
  }

  /** A name no column has and no value key can be keeps its entry. */
  lemma BoundColumnsUnshadowed(params: Params, fields: Fields, q: string)
    requires '-' !in q && !HasKey(fields, q)
    ensures SameEntry(BoundColumns(params, fields, |fields|), params, q)
  {
    forall i | 0 <= i < |fields|
      ensures fields[i].0 != q && ValueKey(fields[i].0) != q
    {
      assert Keys(fields)[i] == fields[i].0;
      ValueKeyNotPlain(fields[i].0, q);
    }
    BoundColumnsOther(params, fields, |fields|, q);
  }

  lemma BoundColumnAt(params: Params, fields: Fields, i: nat)
    requires i < |fields| && UniqueKeys(fields) && PlainColumns(fields)
    ensures var bound := BoundColumns(params, fields, |fields|);
      fields[i].0 in bound && bound[fields[i].0] == AsIs(JStr(fields[i].0)) &&
      ValueKey(fields[i].0) in bound && bound[ValueKey(fields[i].0)] == Bound(fields[i].1)
  {
    BoundColumnsName(params, fields, |fields|, i);
    BoundColumnsValue(params, fields, |fields|, i);
  }

  /** The WHERE clause's text: empty without a filter, one comparison per key otherwise. */
  function WhereClause(where: Json): string
    requires where.JNull? || where.JObj?
  {
    if where.JNull? then "" else " WHERE " + Join(" AND ", Bindings("%(table)s.", where.fields, |where.fields|))
  }

  function WhereParams(params: Params, where: Json): Params
    requires where.JNull? || where.JObj?
  {
    if where.JNull? then params else BoundColumns(params, where.fields, |where.fields|)
  }

  /** A comparison on a column name without spaces holds no `" A"`. */
  lemma WhereBindingPlain(k: string)
    requires ' ' !in k
    ensures NoSpaceBeforeA(Binding("%(table)s.", k))
  {
    var a, b, c := "%(table)s.%(", ")s = %(", "-value)s";
    assert NoSpaceBeforeA(a);
    assert NoSpaceBeforeA(c);
    assert NoSpaceBeforeA(b) by {
      forall j | 0 <= j < |b| && b[j] == ' '
        ensures j + 1 < |b| && b[j + 1] != 'A'
      {
        assert j == 2 || j == 4;
      }
    }
    assert NoSpaceBeforeA(k);
    NoSpaceBeforeAJoin(a, k);
    NoSpaceBeforeAJoin(a + k, b);
    NoSpaceBeforeAJoin(a + k + b, k);
    NoSpaceBeforeAJoin(a + k + b + k, c);
    assert Binding("%(table)s.", k) == a + k + b + k + c;
  }

  /**
   * A filter on columns without spaces reads back, split at `" AND "`, as one
   * `%(table)s.%(k)s = %(k-value)s` comparison per key in key order; an
   * empty filter still leaves a bare `" WHERE "`.
   */
  lemma WhereClauseLists(where: Json)
    requires where.JObj? && forall i :: 0 <= i < |where.fields| ==> ' ' !in where.fields[i].0
    ensures StartsWith(WhereClause(where), " WHERE ")
    ensures where.fields == [] ==> WhereClause(where) == " WHERE "
    ensures where.fields != [] ==>
      var conditions := Split(WhereClause(where)[7..], " AND ");
      |conditions| == |where.fields| &&
      forall i :: 0 <= i < |conditions| ==> conditions[i] == Binding("%(table)s.", where.fields[i].0)
  {
    var fields := where.fields;
    var conditions := Bindings("%(table)s.", fields, |fields|);
    var r := WhereClause(where);
    assert r == " WHERE " + Join(" AND ", conditions);
    assert r[..7] == " WHERE " && r[7..] == Join(" AND ", conditions);
    if fields != [] {
      forall i | 0 <= i < |conditions|
        ensures NoSpaceBeforeA(conditions[i]) && conditions[i] == Binding("%(table)s.", fields[i].0)
      {
        BindingsAt("%(table)s.", fields, |fields|, i);
        WhereBindingPlain(fields[i].0);
      }
      SplitJoinPlain(conditions, " AND ");
    }
  }

  /** The LIMIT clause: dropped, with its param, for an explicit `None`. */
  function LimitClause(limit: Json): string {
    if limit.JNull? then "" else " LIMIT %(limit)s"
  }

  function LimitParams(params: Params, limit: Json): Params {
    if limit.JNull? then params else params["limit" := Bound(limit)]
  }

  /** The OFFSET clause: dropped, with its param, for an explicit `None`. */
  function OffsetClause(offset: Json): string {
    if offset.JNull? then "" else " OFFSET %(offset)s"
  }

  function OffsetParams(params: Params, offset: Json): Params {
    if offset.JNull? then params else params["offset" := Bound(offset)]
  }

  /** The ORDER BY clause always appears; column and direction are spliced in as raw SQL. */
  const OrderClause: string := " ORDER BY %(table)s.%(orderby_column)s %(orderby_order)s"

  function OrderParams(params: Params, column: Json, order: Json): Params {
    params["orderby_column" := AsIs(column)]["orderby_order" := AsIs(order)]
  }

  /** The `where` argument, absent or `None` or a dict: the builder cannot take anything else. */
  predicate WhereArgument(kwargs: Fields) {
    GetOrNull(kwargs, "where").JNull? || GetOrNull(kwargs, "where").JObj?
  }

  /** The clauses appended to a SELECT: WHERE, ORDER BY, LIMIT, OFFSET, in that order. */
  function AddonClause(kwargs: Fields, identifier: string): string
    requires WhereArgument(kwargs)
  {
    WhereClause(GetOrNull(kwargs, "where")) + OrderClause +
    LimitClause(GetOr(kwargs, "limit", JInt(1000))) + OffsetClause(GetOr(kwargs, "offset", JInt(0)))
  }

  /** The params after the four clause builders have run, in the same order. */
  function AddonParams(params: Params, kwargs: Fields, identifier: string): Params
    requires WhereArgument(kwargs)
  {
    var afterWhere := WhereParams(params, GetOrNull(kwargs, "where"));
    var afterOrder := OrderParams(afterWhere, GetOr(kwargs, "orderby_column", JStr(identifier)),
                                  GetOr(kwargs, "orderby_order", JStr("ASC")));
    var afterLimit := LimitParams(afterOrder, GetOr(kwargs, "limit", JInt(1000)));
    OffsetParams(afterLimit, GetOr(kwargs, "offset", JInt(0)))
  }

  /**
   * Without arguments a SELECT is ordered by the identifier ascending and
   * reads at most 1000 rows from the first.
   */
  lemma AddonDefaults(params: Params, identifier: string)
    ensures AddonClause([], identifier) == OrderClause + " LIMIT %(limit)s" + " OFFSET %(offset)s"
    ensures AddonParams(params, [], identifier) ==
      params["orderby_column" := AsIs(JStr(identifier))]["orderby_order" := AsIs(JStr("ASC"))]
            ["limit" := Bound(JInt(1000))]["offset" := Bound(JInt(0))]
  {
    var none: Fields := [];
    assert forall k :: !HasKey(none, k);
    assert GetOrNull(none, "where") == JNull;
  }

  /** Explicit `None` for where, limit and offset leaves only ORDER BY, and binds no limit or offset. */
  lemma AddonExplicitNone(params: Params, identifier: string, kwargs: Fields)
    requires kwargs == [("where", JNull), ("limit", JNull), ("offset", JNull)]
    ensures AddonClause(kwargs, identifier) == OrderClause
    ensures var p := AddonParams(params, kwargs, identifier);
      SameEntry(p, params, "limit") && SameEntry(p, params, "offset")
  {
    GetFirst(kwargs, 0);
    GetFirst(kwargs, 1);
    GetFirst(kwargs, 2);
    assert "" + OrderClause + "" + "" == OrderClause;
  }

  /** A filter adds its comparisons ahead of the ORDER BY clause. */
  lemma AddonWhereFirst(kwargs: Fields, identifier: string)
    requires WhereArgument(kwargs) && GetOrNull(kwargs, "where").JObj?
    ensures StartsWith(AddonClause(kwargs, identifier), " WHERE ")
  {
    var w := WhereClause(GetOrNull(kwargs, "where"));
    var r := AddonClause(kwargs, identifier);
    assert r[..7] == w[..7];
  }

  // ---------------------------------------------------------------------
  // Params for a record
  // ---------------------------------------------------------------------

  /**
   * `__compose_params(data, columns, values)`: the record, the table, the
   * column list, the values tuple and the identifier with its value.
   * `columns` defaults to `"*"`, which joins to itself.
   */
  function ComposeParams(table: string, identifier: string, data: Fields, columns: seq<string>, values: seq<Json>)
    : (r: Result<Params, AdapterError>)
    ensures r.Err? <==> !HasKey(data, identifier)
    ensures r.Err? ==> r.error == KeyError(identifier)
    ensures r.Ok? ==>
              r.value.Keys == {"data", "table", "columns", "values", "identifier", "identifier_value"} &&
              r.value["identifier_value"] == Bound(GetOrNull(data, identifier)) &&
              r.value["data"] == Bound(JObj(data)) &&
              r.value["table"] == AsIs(JStr(table)) &&
              r.value["columns"] == AsIs(JStr(Join(", ", columns))) &&
              r.value["values"] == Values(values) &&
              r.value["identifier"] == AsIs(JStr(identifier))
  {
    if !HasKey(data, identifier) then Err(KeyError(identifier))
    else
      Ok(map["data" := Bound(JObj(data)), "table" := AsIs(JStr(table)), "columns" := AsIs(JStr(Join(", ", columns))),
             "values" := Values(values), "identifier" := AsIs(JStr(identifier)),
             "identifier_value" := Bound(GetOrNull(data, identifier))])
  }

  /** The values of a record, in key order. */
  function FieldValues(data: Fields): (vs: seq<Json>)
    ensures |vs| == |data| && forall i :: 0 <= i < |data| ==> vs[i] == data[i].1
  {
    seq(|data|, i requires 0 <= i < |data| => data[i].1)
  }

  /** The params of an insert: the record's columns with their values in the same order. */
  function DataParams(table: string, identifier: string, data: Fields): Result<Params, AdapterError> {
    ComposeParams(table, identifier, data, Keys(data), FieldValues(data))
  }

  /** The inserted columns and values line up: the `i`-th value is the record's value for the `i`-th column. */
  lemma DataParamsAlign(table: string, identifier: string, data: Fields, i: nat)
    requires UniqueKeys(data) && HasKey(data, identifier) && i < |data|
    ensures DataParams(table, identifier, data).Ok?
    ensures DataParams(table, identifier, data).value["values"] == Values(FieldValues(data))
    ensures Get(data, Keys(data)[i]) == Some(FieldValues(data)[i])
  {
    GetAt(data, i);
  }

  /** Merging a patch into a dict leaves a dict. */
  lemma {:induction false} WalkedIsObject(current: Json, patch: Fields, i: nat, listOp: string, dictOp: string)
    requires i <= |patch| && current.JObj?
    ensures Walked(current, patch, i, listOp, dictOp).Ok? ==> Walked(current, patch, i, listOp, dictOp).value.JObj?
    decreases |patch| - i
  {
    if i < |patch| {
      var k := patch[i].0;
      var outcome := KeyOutcome(GetOrNull(current.fields, k), patch[i].1, listOp, dictOp);
      if outcome.Ok? {
        WalkedIsObject(JObj(Apply(current.fields, k, outcome.value)), patch, i + 1, listOp, dictOp);
      }
    }
  }

  /**
   * The call `publish(operation, record, **kwargs)` a write makes on the
   * base adapter, whose `publish` takes only `operation` and `data`: the two
   * positional arguments fill both, so Python refuses any keyword argument,
   * as a second value for a parameter or as unexpected, naming the first.
   */
  function PublishCall(kwargs: Fields): (r: Option<AdapterError>)
    ensures r.None? <==> kwargs == []
    ensures r.Some? ==> r.value.TypeError? && HasKey(kwargs, r.value.keyword)
  {
    if kwargs == [] then None else Some(TypeError(kwargs[0].0))
  }

  /** A write's outcome once the publish call that follows it has been made with the caller's keyword arguments. */
  function AfterPublish(written: Result<Fields, AdapterError>, kwargs: Fields): (r: Result<Fields, AdapterError>)
    ensures written.Err? ==> r == written
    ensures written.Ok? ==> (r.Ok? <==> kwargs == [])
    ensures r.Ok? ==> r == written
    ensures written.Ok? && r.Err? ==> r.error.TypeError? && HasKey(kwargs, r.error.keyword)
  {
    match written
    case Err(e) => Err(e)
    case Ok(record) => if kwargs == [] then Ok(record) else Err(PublishCall(kwargs).value)
  }

  /**
   * The record always travels as the keyword argument `data`, so the publish
   * call after a successful write is always refused: as written, insert and
   * update never return the record, although the row has been written.
   */
  lemma WriteNeverReturns(written: Result<Fields, AdapterError>, kwargs: Fields)
    requires HasKey(kwargs, "data")
    ensures AfterPublish(written, kwargs).Err?
    ensures written.Ok? ==> AfterPublish(written, kwargs).error.TypeError?
  {
  }

  // ---------------------------------------------------------------------
  // The adapter
  // ---------------------------------------------------------------------

  /** The table and filter of the queries that address one row by its identifier. */
  const RowByIdentifier: string := " FROM %(table)s WHERE %(identifier)s = %(identifier_value)s"

  /** The join query's head: both tables' columns, joined on the related column. */
  const JoinHead: string :=
    "SELECT %(table)s.*, %(relationship)s.* FROM %(table)s JOIN %(relationship)s ON %(relationship)s.%(related)s = %(table)s.%(identifier)s"

  /** The params dict the clause builders share and write into. */
  class ParamDict {
    var entries: Params

    constructor(initial: Params)
      ensures entries == initial
    {
      entries := initial;
    }

    /** `params[k] = v`. */
    method Put(k: string, v: Param)
      modifies this
      ensures entries == old(entries)[k := v]
    {
      entries := entries[k := v];
    }
  }

  class PostgresAdapter {
    const table: string
    const modelIdentifier: string
    const modelSchema: Schema
    const relationships: Fields

    constructor(table: string, modelIdentifier: string, modelSchema: Schema, relationships: Fields)
      ensures this.table == table && this.modelIdentifier == modelIdentifier
      ensures this.modelSchema == modelSchema && this.relationships == relationships
    {
      this.table := table;
      this.modelIdentifier := modelIdentifier;
      this.modelSchema := modelSchema;
      this.relationships := relationships;
    }

    /** One comparison per filter key; each key binds `k-value` to its value and `k` to its name. */
    method BuildWhereStatement(where: Json, params: ParamDict) returns (clause: string)
      requires where.JNull? || where.JObj?
      modifies params
      ensures clause == WhereClause(where)
      ensures params.entries == WhereParams(old(params.entries), where)
    {
      if where.JNull? {
        return "";
      }
      var whereList: seq<string> := [];
      for i := 0 to |where.fields|
        invariant whereList == Bindings("%(table)s.", where.fields, i)
        invariant params.entries == BoundColumns(old(params.entries), where.fields, i)
      {
        var whereKey := where.fields[i].0;
        var whereValue := whereKey + "-value";
        whereList := whereList + ["%(table)s." + "%(" + whereKey + ")s = %(" + whereValue + ")s"];
        params.Put(whereValue, Bound(where.fields[i].1));
        params.Put(whereKey, AsIs(JStr(whereKey)));
      }
      clause := " WHERE " + Join(" AND ", whereList);
    }

    method BuildLimitStatement(limit: Json, params: ParamDict) returns (clause: string)
      modifies params
      ensures clause == LimitClause(limit)
      ensures params.entries == LimitParams(old(params.entries), limit)
    {
      if limit.JNull? {
        return "";
      }
      params.Put("limit", Bound(limit));
      clause := " LIMIT %(limit)s";
    }

    method BuildOffsetStatement(offset: Json, params: ParamDict) returns (clause: string)
      modifies params
      ensures clause == OffsetClause(offset)
      ensures params.entries == OffsetParams(old(params.entries), offset)
    {
      if offset.JNull? {
        return "";
      }
      params.Put("offset", Bound(offset));
      clause := " OFFSET %(offset)s";
    }

    method BuildOrderByStatement(column: Json, order: Json, params: ParamDict) returns (clause: string)
      modifies params
      ensures clause == OrderClause
      ensures params.entries == OrderParams(old(params.entries), column, order)
    {
      params.Put("orderby_column", AsIs(column));
      params.Put("orderby_order", AsIs(order));
      clause := OrderClause;
    }

    /** The four clause builders in order, with their defaults. */
    method BuildAddonStatements(params: ParamDict, kwargs: Fields) returns (query: string)
      requires WhereArgument(kwargs)
      modifies params
      ensures query == AddonClause(kwargs, modelIdentifier)
      ensures params.entries == AddonParams(old(params.entries), kwargs, modelIdentifier)
    {
      query := BuildWhereStatement(GetOrNull(kwargs, "where"), params);
      var order := BuildOrderByStatement(GetOr(kwargs, "orderby_column", JStr(modelIdentifier)),
                                         GetOr(kwargs, "orderby_order", JStr("ASC")), params);
      query := query + order;
      var limit := BuildLimitStatement(GetOr(kwargs, "limit", JInt(1000)), params);
      query := query + limit;
      var offset := BuildOffsetStatement(GetOr(kwargs, "offset", JInt(0)), params);
      query := query + offset;
    }

    /** `read_all`'s query: every row of the table, filtered, ordered and paged. */
    method CreateGetAllQuery(kwargs: Fields) returns (query: string, params: Params)
      requires WhereArgument(kwargs)
      ensures query == "SELECT * FROM %(table)s " + AddonClause(kwargs, modelIdentifier)
      ensures params == AddonParams(map["table" := AsIs(JStr(table))], kwargs, modelIdentifier)
    {
      var dict := new ParamDict(map["table" := AsIs(JStr(table))]);
      var whereQuery := BuildAddonStatements(dict, kwargs);
      query := "SELECT * FROM %(table)s " + whereQuery;
      params := dict.entries;
    }

    /** `get_relationship`'s query: the table joined with a related table on the configured column. */
    method CreateJoinQuery(relationship: string, kwargs: Fields) returns (query: string, params: Params)
      requires WhereArgument(kwargs)
      ensures query == JoinHead + AddonClause(kwargs, modelIdentifier)
      ensures params == AddonParams(JoinParams(relationship), kwargs, modelIdentifier)
    {
      var dict := new ParamDict(JoinParams(relationship));
      query := JoinHead;
      var addon := BuildAddonStatements(dict, kwargs);
      query := query + addon;
      params := dict.entries;
    }

    /** The join's own params; an unconfigured relationship splices in `None`. */
    function JoinParams(relationship: string): (r: Params)
      ensures r.Keys == {"table", "identifier", "relationship", "related"}
      ensures r["related"] == AsIs(GetOrNull(relationships, relationship))
      ensures r["relationship"] == AsIs(JStr(relationship))
    {
      map["table" := AsIs(JStr(table)), "identifier" := AsIs(JStr(modelIdentifier)),
          "relationship" := AsIs(JStr(relationship)), "related" := AsIs(GetOrNull(relationships, relationship))]
    }

    /** The params naming the table and the row an UPDATE targets. */
    function UpdateTarget(data: Fields): Params {
      map["table" := AsIs(JStr(table)), "identifier" := AsIs(JStr(modelIdentifier)),
          "identifier_value" := Bound(GetOrNull(data, modelIdentifier))]
    }

    /** The UPDATE query and its params for a record, or a KeyError when it has no identifier. */
    function UpdateQuery(data: Fields): Result<(string, Params), AdapterError> {
      if !HasKey(data, modelIdentifier) then Err(KeyError(modelIdentifier))
      else
        var params := UpdateTarget(data);
        Ok(("UPDATE %(table)s SET " + Join(", ", Bindings("", data, |data|)) +
            " WHERE %(identifier)s = %(identifier_value)s",
            BoundColumns(params, data, |data|)))
    }

    /** `__create_update_query(data)`: one `%(k)s = %(k-value)s` assignment per column. */
    method CreateUpdateQuery(data: Fields) returns (r: Result<(string, Params), AdapterError>)
      ensures r == UpdateQuery(data)
    {
      if !HasKey(data, modelIdentifier) {
        return Err(KeyError(modelIdentifier));
      }
      var params := new ParamDict(map["table" := AsIs(JStr(table)), "identifier" := AsIs(JStr(modelIdentifier)),
                                      "identifier_value" := Bound(Get(data, modelIdentifier).value)]);
      ghost var initial := params.entries;
      var updateList: seq<string> := [];
      for i := 0 to |data|
        invariant updateList == Bindings("", data, i)
        invariant params.entries == BoundColumns(initial, data, i)
      {
        var key := data[i].0;
        var value := key + "-value";
        updateList := updateList + ["" + "%(" + key + ")s = %(" + value + ")s"];
        params.Put(value, Bound(data[i].1));
        params.Put(key, AsIs(JStr(key)));
      }
      var query := Join(", ", updateList);
      r := Ok(("UPDATE %(table)s SET " + query + " WHERE %(identifier)s = %(identifier_value)s", params.entries));
    }

    /**
     * The SET list of a record with comma-free column names reads back,
     * split at `", "`, as one `%(k)s = %(k-value)s` assignment per column in
     * key order.
     */
    lemma UpdateListsColumns(data: Fields)
      requires HasKey(data, modelIdentifier) && data != []
      requires forall i :: 0 <= i < |data| ==> ',' !in data[i].0
      ensures UpdateQuery(data).Ok?
      ensures StartsWith(UpdateQuery(data).value.0, "UPDATE %(table)s SET ")
      ensures var assignments := Split(Join(", ", Bindings("", data, |data|)), ", ");
        |assignments| == |data| &&
        forall i :: 0 <= i < |data| ==> assignments[i] == Binding("", data[i].0)
    {
      var query := UpdateQuery(data).value.0;
      var head := "UPDATE %(table)s SET ";
      assert query[..|head|] == head;
      var bindings := Bindings("", data, |data|);
      forall i | 0 <= i < |data|
        ensures bindings[i] == Binding("", data[i].0) && ',' !in bindings[i]
      {
        BindingsAt("", data, |data|, i);
        BindingCommaFree(data[i].0);
      }
      SplitJoin(bindings, ", ");
    }

    /**
     * The UPDATE's params bind every plain, distinct column to its name and
     * its value, and keep the table, identifier and identifier value unless
     * a column shadows them.
     */
    lemma UpdateBindsColumns(data: Fields)
      requires HasKey(data, modelIdentifier) && UniqueKeys(data) && PlainColumns(data)
      ensures UpdateQuery(data).Ok?
      ensures var params := UpdateQuery(data).value.1;
        (forall q | q in UpdateTarget(data) && !HasKey(data, q) :: q in params && params[q] == UpdateTarget(data)[q]) &&
        forall i :: 0 <= i < |data| ==>
          data[i].0 in params && params[data[i].0] == AsIs(JStr(data[i].0)) &&
          ValueKey(data[i].0) in params && params[ValueKey(data[i].0)] == Bound(data[i].1)
    {
      var params := UpdateQuery(data).value.1;
      forall i | 0 <= i < |data|
        ensures data[i].0 in params && params[data[i].0] == AsIs(JStr(data[i].0))
        ensures ValueKey(data[i].0) in params && params[ValueKey(data[i].0)] == Bound(data[i].1)
      {
        BoundColumnAt(UpdateTarget(data), data, i);
      }
      forall q | q in UpdateTarget(data) && !HasKey(data, q)
        ensures q in params && params[q] == UpdateTarget(data)[q]
      {
        BoundColumnsUnshadowed(UpdateTarget(data), data, q);
      }
    }

    /** A column named `identifier` shadows the WHERE target: the row is then chosen by that column's name. */
    lemma UpdateColumnNamedIdentifier()
      requires modelIdentifier == "user_id"
      ensures var data: Fields := [("user_id", JStr("u1")), ("identifier", JStr("x"))];
        UpdateQuery(data).Ok? && UpdateQuery(data).value.1["identifier"] == AsIs(JStr("identifier"))
    {
      var data: Fields := [("user_id", JStr("u1")), ("identifier", JStr("x"))];
      assert HasKey(data, "user_id") by { assert Keys(data)[0] == "user_id"; }
    }

    // -------------------------------------------------------------------
    // Queries by identifier: get, delete and the existing-row lookup
    // -------------------------------------------------------------------

    /**
     * The params `get` and `delete` compose for an identifier value: the
     * one-field record `{identifier: value}`, the default `*` column list and
     * no values.
     */
    function IdentifierParams(identifierValue: Json): (p: Params)
      ensures p.Keys == {"data", "table", "columns", "values", "identifier", "identifier_value"}
      ensures p["identifier_value"] == Bound(identifierValue)
      ensures p["data"] == Bound(JObj([(modelIdentifier, identifierValue)]))
      ensures p["table"] == AsIs(JStr(table)) && p["identifier"] == AsIs(JStr(modelIdentifier))
      ensures p["columns"] == AsIs(JStr("*")) && p["values"] == Values([])
    {
      var record: Fields := [(modelIdentifier, identifierValue)];
      assert Keys(record) == [modelIdentifier];
      GetFirst(record, 0);
      assert Join(", ", ["*"]) == "*";
      ComposeParams(table, modelIdentifier, record, ["*"], []).value
    }

    /** `get(identifier_value)`, and `read`, which calls it: the row whose identifier holds the value. */
    function GetQuery(identifierValue: Json): (r: (string, Params))
      ensures r.0 == "SELECT *" + RowByIdentifier
      ensures r.1 == IdentifierParams(identifierValue)
    {
      ("SELECT *" + RowByIdentifier, IdentifierParams(identifierValue))
    }

    /** `delete(identifier_value)`: deletes the row `get` reads, with the same params. */
    function DeleteQuery(identifierValue: Json): (r: (string, Params))
      ensures r.0 == "DELETE" + RowByIdentifier && GetQuery(identifierValue).0 == "SELECT *" + RowByIdentifier
      ensures r.1 == GetQuery(identifierValue).1
    {
      ("DELETE" + RowByIdentifier, IdentifierParams(identifierValue))
    }

    /** `__get_existing(data=record)`: the first row with the record's identifier, a KeyError without one. */
    function ExistingQuery(data: Fields): (r: Result<(string, Params), AdapterError>)
      ensures r.Err? <==> !HasKey(data, modelIdentifier)
      ensures r.Err? ==> r.error == KeyError(modelIdentifier)
      ensures r.Ok? ==> r.value.0 == GetQuery(GetOrNull(data, modelIdentifier)).0 + " LIMIT 1"
    {
      match ComposeParams(table, modelIdentifier, data, ["*"], [])
      case Err(e) => Err(e)
      case Ok(p) => Ok(("SELECT *" + RowByIdentifier + " LIMIT 1", p))
    }

    /**
     * The existing-row lookup addresses the row `get` would read for the
     * record's identifier value: same table, identifier and value, and the
     * whole record as `data`.
     */
    lemma ExistingLooksUpGetRow(data: Fields)
      requires HasKey(data, modelIdentifier)
      ensures ExistingQuery(data).Ok?
      ensures var p := ExistingQuery(data).value.1;
        var q := GetQuery(GetOrNull(data, modelIdentifier)).1;
        p["table"] == q["table"] && p["identifier"] == q["identifier"] &&
        p["identifier_value"] == q["identifier_value"] && p["data"] == Bound(JObj(data))
    {
    }

    // -------------------------------------------------------------------
    // Insert, update and upsert over an existing-row lookup
    // -------------------------------------------------------------------

    /**
     * `insert(data=data)`: the record projected onto the model schema is
     * inserted unless a row with its identifier exists; `existing` is what
     * the lookup by identifier returned, `[]` for no row.
     */
    function Insert(data: Fields, existing: Fields): (r: Result<Fields, AdapterError>)
      requires Mappable(modelSchema, JObj(data))
      ensures r.Ok? ==> r.value == MappedToSchema(JObj(data), modelSchema)
      ensures r.Ok? <==>
        HasKey(MappedToSchema(JObj(data), modelSchema), modelIdentifier) && HasKey(data, modelIdentifier) && existing == []
    {
      var mapped := MappedToSchema(JObj(data), modelSchema);
      if DataParams(table, modelIdentifier, mapped).Err? then Err(KeyError(modelIdentifier))
      else if !HasKey(data, modelIdentifier) then Err(KeyError(modelIdentifier))
      else if existing != [] then Err(Raise(RaiseError("NOT_UNIQUE", modelIdentifier, data)))
      else Ok(mapped)
    }

    /**
     * `update(data=data)`: an existing row is merged with the record under
     * the two merge policies and the merge is written back and returned, as
     * merged and not projected onto the schema.
     */
    function Update(data: Fields, existing: Fields, listOp: string, dictOp: string): (r: Result<Fields, AdapterError>)
      ensures r.Ok? ==> Merged(JObj(existing), data, listOp, dictOp) == Ok(JObj(r.value))
      ensures r.Ok? ==> HasKey(r.value, modelIdentifier) && existing != []
      ensures var m := Merged(JObj(existing), data, listOp, dictOp);
        (HasKey(data, modelIdentifier) && existing != [] && m.Ok? && m.value.JObj? &&
         HasKey(m.value.fields, modelIdentifier)) ==> r == Ok(m.value.fields)
      ensures var m := Merged(JObj(existing), data, listOp, dictOp);
        HasKey(data, modelIdentifier) && existing != [] && m.Err? ==> r == Err(MergeFailed(m.error))
      ensures !HasKey(data, modelIdentifier) ==> r == Err(KeyError(modelIdentifier))
    {
      if !HasKey(data, modelIdentifier) then Err(KeyError(modelIdentifier))
      else if existing == [] then Err(Raise(RaiseError("NOT_EXISTS", modelIdentifier, data)))
      else
        WalkedIsObject(JObj(existing), data, 0, listOp, dictOp);
        match Merged(JObj(existing), data, listOp, dictOp)
        case Err(e) => Err(MergeFailed(e))
        case Ok(merged) =>
          match UpdateQuery(merged.fields)
          case Err(e) => Err(e)
          case Ok(_) => Ok(merged.fields)
    }

    /** `upsert(data=data)`: an update when the row exists, an insert otherwise. */
    function Upsert(data: Fields, existing: Fields, listOp: string, dictOp: string): (r: Result<Fields, AdapterError>)
      requires existing == [] ==> Mappable(modelSchema, JObj(data))
      ensures HasKey(data, modelIdentifier) && existing != [] ==> r == Update(data, existing, listOp, dictOp)
      ensures HasKey(data, modelIdentifier) && existing == [] ==> r == Insert(data, existing)
    {
      if !HasKey(data, modelIdentifier) then Err(KeyError(modelIdentifier))
      else if existing != [] then Update(data, existing, listOp, dictOp)
      else Insert(data, existing)
    }

    /**
     * The documented call `insert(data=record)`, as written: the row is
     * written, then the publish call is refused for its `data` keyword.
     */
    lemma InsertCallRefusedAfterWrite(data: Fields, existing: Fields)
      requires Mappable(modelSchema, JObj(data)) && Insert(data, existing).Ok?
      ensures AfterPublish(Insert(data, existing), [("data", JObj(data))]) == Err(TypeError("data"))
    {
    }

    /** Insert refuses an existing row, naming the record's identifier value. */
    lemma InsertRefusesExistingRow(data: Fields, existing: Fields)
      requires Mappable(modelSchema, JObj(data))
      requires HasKey(MappedToSchema(JObj(data), modelSchema), modelIdentifier) && HasKey(data, modelIdentifier)
      requires existing != []
      ensures Insert(data, existing) == Err(Raise(NotUnique(modelIdentifier, GetOrNull(data, modelIdentifier))))
    {
    }

    /** Update refuses a missing row, naming the record's identifier value. */
    lemma UpdateRefusesMissingRow(data: Fields, listOp: string, dictOp: string)
      requires HasKey(data, modelIdentifier)
      ensures Update(data, [], listOp, dictOp) == Err(Raise(NotExists(modelIdentifier, GetOrNull(data, modelIdentifier))))
    {
    }

    /** Upsert never reports a row conflict: neither "already exist" nor "does not exist". */
    lemma UpsertRaisesNoRowError(data: Fields, existing: Fields, listOp: string, dictOp: string)
      requires existing == [] ==> Mappable(modelSchema, JObj(data))
      ensures var r := Upsert(data, existing, listOp, dictOp);
        r.Err? ==> !(r.error.Raise? && (r.error.raised.NotUnique? || r.error.raised.NotExists?))
    {
    }

    /**
     * Under the `remove` dict policy an update deletes every patched scalar
     * key, the identifier among them, so building the UPDATE query fails.
     */
    lemma UpdateWithRemoveLosesIdentifier(data: Fields, existing: Fields, listOp: string)
      requires UniqueKeys(data) && UniqueKeys(existing) && existing != []
      requires HasKey(data, modelIdentifier)
      requires var v := GetOrNull(data, modelIdentifier); !v.JObj? && !v.JArr?
      ensures Update(data, existing, listOp, "remove").Err?
    {
      MergeCharacterised(existing, data, listOp, "remove");
      WalkedIsObject(JObj(existing), data, 0, listOp, "remove");
      var m := Merged(JObj(existing), data, listOp, "remove");
      if m.Ok? {
        var j :| 0 <= j < |data| && data[j].0 == modelIdentifier;
        GetAt(data, j);
        assert KeyOutcome(GetOrNull(existing, modelIdentifier), data[j].1, listOp, "remove") == Ok(None);
        assert !HasKey(m.value.fields, modelIdentifier);
      }
    }
  }
}
