/**
 * The bulk JSON insert builder of the Postgres adapter.
 *
 * One INSERT ... SELECT statement loads every element of a JSON array:
 * a CTE binds the document, a subquery unnests the array found under the
 * common root of the JSON paths, the SELECT list computes plain columns
 * from SQL expressions and JSON columns from `root.key` or
 * `root.key.subkey` paths, optionally wrapped in an SQL function template,
 * and an optional ON CONFLICT clause either ignores or updates clashing
 * rows. Column maps are ordered dicts from column alias to definition.
 */
module JsonFormatting {
  import opened Results
  import opened Dicts
  import opened Strings

  /** An ordered dict from column alias to a SQL expression, a JSON path or a template. */
  type ColumnMap = Dict<string>

  /** The CTE binding the document; `json` is its Python `str()` rendering. */
  function JsonCte(json: string): (r: string)
    ensures |r| == 27 + |json| + 17
    ensures StartsWith(r, "WITH _json_cte AS (SELECT \"")
    ensures r[27..|r| - 17] == json
    ensures EndsWith(r, "\"::json AS _json)")
  {
    var r := "WITH _json_cte AS (SELECT \"" + json + "\"::json AS _json)";
    assert r[27..|r| - 17] == json;
    assert r[|r| - 17..] == "\"::json AS _json)";
    r
  }

  /** The target columns: the plain columns, then the JSON columns. */
  function ColumnOrder(columnMap: ColumnMap, jsonColumnMap: ColumnMap): (r: seq<string>)
    ensures |r| == |columnMap| + |jsonColumnMap|
    ensures forall i :: 0 <= i < |columnMap| ==> r[i] == columnMap[i].0
    ensures forall i :: 0 <= i < |jsonColumnMap| ==> r[|columnMap| + i] == jsonColumnMap[i].0
  {
    Keys(columnMap) + Keys(jsonColumnMap)
  }

  /** The INSERT header naming the target columns. */
  function InsertStatement(table: string, columnMap: ColumnMap, jsonColumnMap: ColumnMap): string
  {
    "INSERT INTO " + table + " (" + Join(", ", ColumnOrder(columnMap, jsonColumnMap)) + ")"
  }

  /**
   * The column list of the INSERT header reads back as the column order,
   * as long as no column name holds a comma.
   */
  lemma InsertListsColumns(table: string, columnMap: ColumnMap, jsonColumnMap: ColumnMap)
    requires columnMap + jsonColumnMap != []
    requires forall i :: 0 <= i < |columnMap| ==> ',' !in columnMap[i].0
    requires forall i :: 0 <= i < |jsonColumnMap| ==> ',' !in jsonColumnMap[i].0
    ensures var order := ColumnOrder(columnMap, jsonColumnMap);
      InsertStatement(table, columnMap, jsonColumnMap) == "INSERT INTO " + table + " (" + Join(", ", order) + ")" &&
      Split(Join(", ", order), ", ") == order
  {
    var order := ColumnOrder(columnMap, jsonColumnMap);
    forall i | 0 <= i < |order|
      ensures ", "[0] !in order[i]
    {
      if i >= |columnMap| {
        assert order[i] == jsonColumnMap[i - |columnMap|].0;
      }
    }
    SplitJoin(order, ", ");
  }

  /** `"excluded." + x` for every update column. */
  function Excluded(updateCols: seq<string>): (r: seq<string>)
    ensures |r| == |updateCols|
    ensures forall i :: 0 <= i < |r| ==> r[i] == "excluded." + updateCols[i]
  {
    seq(|updateCols|, i requires 0 <= i < |updateCols| => "excluded." + updateCols[i])
  }

  /**
   * The ON CONFLICT clause. Column tuples are compared by truthiness, so an
   * absent tuple and an empty one are both `[]` here.
   */
  function OnConflict(conflictCols: seq<string>, updateCols: seq<string>): (r: string)
    ensures r == "" <==> conflictCols == []
    ensures r == "ON CONFLICT DO NOTHING" <==> conflictCols != [] && updateCols == []
    ensures conflictCols != [] && updateCols != [] ==>
      StartsWith(r, "ON CONFLICT (" + Join(", ", conflictCols) + ") DO UPDATE SET (")
  {
    if conflictCols != [] && updateCols != [] then
      var head := "ON CONFLICT (" + Join(", ", conflictCols) + ") DO UPDATE SET (";
      var r := head + Join(",", updateCols) + ") = (" + Join(",", Excluded(updateCols)) + ")";
      assert r[..|head|] == head;
      assert r[..11] == head[..11] == "ON CONFLICT";
      r
    else if conflictCols != [] then "ON CONFLICT DO NOTHING"
    else ""
  }

  /**
   * When both tuples are given, the SET list names the update columns and the
   * value list pairs each of them, in the same position, with its `excluded.`
   * counterpart (for column names without commas).
   */
  lemma OnConflictPairsColumns(conflictCols: seq<string>, updateCols: seq<string>)
    requires conflictCols != [] && updateCols != []
    requires forall i :: 0 <= i < |updateCols| ==> ',' !in updateCols[i]
    ensures OnConflict(conflictCols, updateCols) ==
      "ON CONFLICT (" + Join(", ", conflictCols) + ") DO UPDATE SET (" +
      Join(",", updateCols) + ") = (" + Join(",", Excluded(updateCols)) + ")"
    ensures Split(Join(",", updateCols), ",") == updateCols
    ensures var values := Split(Join(",", Excluded(updateCols)), ",");
      |values| == |updateCols| &&
      forall i :: 0 <= i < |values| ==> values[i] == "excluded." + updateCols[i]
  {
    SplitJoin(updateCols, ",");
    var ex := Excluded(updateCols);
    forall i | 0 <= i < |ex|
      ensures ","[0] !in ex[i]
    {
      assert ex[i] == "excluded." + updateCols[i];
    }
    SplitJoin(ex, ",");
  }

  /** Why building the statement raises instead of returning text. */
  datatype FormatError =
    | UnboundStatement    // a JSON path with neither two nor three segments leaves the entry unassigned
    | NotOneAlias         // unpacking a select entry around `" AS "` does not yield exactly two parts
    | UnsupportedTemplate // a function template that is not a single `{}` field
    | NoSingleRoot        // the JSON paths do not share exactly one root segment

  /** The subquery unnesting the array stored under `targetKey`. */
  function JsonArraySubquery(targetKey: string): (r: string)
    ensures |r| == 35 + |targetKey| + 30
    ensures StartsWith(r, "SELECT json_array_elements(_json->\"")
    ensures r[35..|r| - 30] == targetKey
    ensures EndsWith(r, "\") AS _jsondict FROM _json_cte")
  {
    var head := "SELECT json_array_elements(_json->\"";
    var tail := "\") AS _jsondict FROM _json_cte";
    var r := head + targetKey + tail;
    assert r[..|head|] == head;
    assert r[|head|..|r| - |tail|] == targetKey;
    assert r[|r| - |tail|..] == tail;
    r
  }

  /** The expression reading segment 1, and for three segments its segment 2, of one array element. */
  function JsonExpression(parts: seq<string>): string
    requires |parts| == 2 || |parts| == 3
  {
    if |parts| == 2 then "_jsondict ->> \"" + parts[1] + "\""
    else "_jsondict -> \"" + parts[1] + "\" ->> \"" + parts[2] + "\""
  }

  /**
   * A JSON column's select entry, aliased to its column. A path with
   * neither two nor three dot-separated segments has no translation.
   */
  function ParseJsonLine(k: string, path: string): (r: Result<string, FormatError>)
    ensures r.Err? ==> r.error == UnboundStatement
  {
    var parts := Split(path, ".");
    if |parts| == 2 || |parts| == 3 then Ok(JsonExpression(parts) + " AS " + k)
    else Err(UnboundStatement)
  }

  /** A path written as `root.key` or `root.key.subkey` reads the key, then the subkey. */
  lemma JsonLineOfSegments(k: string, segments: seq<string>)
    requires forall i :: 0 <= i < |segments| ==> '.' !in segments[i]
    ensures |segments| == 2 ==>
      ParseJsonLine(k, Join(".", segments)) == Ok("_jsondict ->> \"" + segments[1] + "\"" + " AS " + k)
    ensures |segments| == 3 ==>
      ParseJsonLine(k, Join(".", segments)) ==
        Ok("_jsondict -> \"" + segments[1] + "\" ->> \"" + segments[2] + "\"" + " AS " + k)
    ensures |segments| != 2 && |segments| != 3 ==> ParseJsonLine(k, Join(".", segments)) == Err(UnboundStatement)
  {
    var path := Join(".", segments);
    if segments == [] {
      assert Split(path, ".") == [""];
    } else {
      assert Split(path, ".") == segments by {
        SplitJoin(segments, ".");
      }
    }
  }

  /** `template.format(x)`, for a template with a single `{}` field and no other braces. */
  function Format(template: string, x: string): (r: Result<string, FormatError>)
    ensures r.Err? ==> r.error == UnsupportedTemplate
  {
    var parts := Split(template, "{}");
    if |parts| == 2 && '{' !in parts[0] + parts[1] && '}' !in parts[0] + parts[1] then Ok(parts[0] + x + parts[1])
    else Err(UnsupportedTemplate)
  }

  /** Formatting puts the argument in place of the `{}` field. */
  lemma FormatFills(before: string, after: string, x: string)
    requires '{' !in before + after && '}' !in before + after
    ensures Format(before + "{}" + after, x) == Ok(before + x + after)
  {
    assert forall c :: c in before ==> c in before + after;
    assert forall c :: c in after ==> c in before + after;
    SplitFirst(before, "{}", after);
    SplitNone(after, "{}");
  }

  /** A template without a `{}` field is refused. */
  lemma FormatNeedsField(template: string, x: string)
    requires '{' !in template
    ensures Format(template, x) == Err(UnsupportedTemplate)
  {
    SplitNone(template, "{}");
  }

  /**
   * The statement's expression wrapped in `k`'s template, aliased with a
   * lowercase `as`. The statement is split around `" AS "` first, then the
   * template is looked up and filled.
   */
  function ApplyFunction(k: string, statement: string, functionMap: ColumnMap): (r: Result<string, FormatError>)
    requires HasKey(functionMap, k)
    ensures r.Err? ==> r.error == NotOneAlias || r.error == UnsupportedTemplate
  {
    var parts := Split(statement, " AS ");
    if |parts| != 2 then Err(NotOneAlias)
    else
      match Format(Get(functionMap, k).value, parts[0])
      case Err(e) => Err(e)
      case Ok(wrapped) => Ok(wrapped + " as " + parts[1])
  }

  /** The literal text around the segments of a JSON expression holds no `" A"`. */
  lemma ExpressionNoSpaceBeforeA(parts: seq<string>)
    requires |parts| == 2 || |parts| == 3
    requires forall i :: 1 <= i < |parts| ==> NoSpaceBeforeA(parts[i])
    ensures NoSpaceBeforeA(JsonExpression(parts))
  {
    var q := "\"";
    assert NoSpaceBeforeA(q);
    if |parts| == 2 {
      var lead := "_jsondict ->> \"";
      assert NoSpaceBeforeA(lead) by {
        forall j | 0 <= j < |lead| && lead[j] == ' '
          ensures j + 1 < |lead| && lead[j + 1] != 'A'
        {
          assert j == 9 || j == 13;
        }
      }
      NoSpaceBeforeAJoin(lead, parts[1]);
      NoSpaceBeforeAJoin(lead + parts[1], q);
    } else {
      var lead := "_jsondict -> \"";
      var mid := "\" ->> \"";
      assert NoSpaceBeforeA(lead) by {
        forall j | 0 <= j < |lead| && lead[j] == ' '
          ensures j + 1 < |lead| && lead[j + 1] != 'A'
        {
          assert j == 9 || j == 12;
        }
      }
      assert NoSpaceBeforeA(mid) by {
        forall j | 0 <= j < |mid| && mid[j] == ' '
          ensures j + 1 < |mid| && mid[j + 1] != 'A'
        {
          assert j == 1 || j == 5;
        }
      }
      NoSpaceBeforeAJoin(lead, parts[1]);
      NoSpaceBeforeAJoin(lead + parts[1], mid);
      NoSpaceBeforeAJoin(lead + parts[1] + mid, parts[2]);
      NoSpaceBeforeAJoin(lead + parts[1] + mid + parts[2], q);
    }
  }

  /** The expression of a JSON column holds no `" AS "` when its path has no spaces. */
  lemma JsonExpressionNoSpaceBeforeA(path: string)
    requires ' ' !in path
    requires |Split(path, ".")| == 2 || |Split(path, ".")| == 3
    ensures NoSpaceBeforeA(JsonExpression(Split(path, ".")))
  {
    var parts := Split(path, ".");
    JoinSplit(path, ".");
    forall i | 1 <= i < |parts|
      ensures NoSpaceBeforeA(parts[i])
    {
      if ' ' in parts[i] {
        JoinChars(".", parts, i, ' ');
      }
    }
    ExpressionNoSpaceBeforeA(parts);
  }

  /**
   * Wrapping an entry whose expression holds no `" AS "` fills the template
   * with the expression and keeps the alias.
   */
  lemma ApplyFunctionKeepsAlias(k: string, expression: string, functionMap: ColumnMap, r: string)
    requires NoSpaceBeforeA(expression) && HasKey(functionMap, k)
    requires ApplyFunction(k, expression + " AS " + k, functionMap) == Ok(r)
    ensures Format(Get(functionMap, k).value, expression).Ok?
    ensures r == Format(Get(functionMap, k).value, expression).value + " as " + k
  {
    SplitAfterPlain(expression, " AS ", k);
    SplitSingle(k, " AS ");
  }

  /** The select entry of a plain column. */
  function ColumnLine(alias: string, definition: string, functionMap: ColumnMap): (r: Result<string, FormatError>)
  {
    if HasKey(functionMap, alias) then
      match ApplyFunction(alias, definition, functionMap)
      case Err(e) => Err(e)
      case Ok(wrapped) => Ok(wrapped + " AS " + alias)
    else Ok(definition + " AS " + alias)
  }

  /** The select entry of a JSON column. */
  function JsonColumnLine(alias: string, path: string, functionMap: ColumnMap): (r: Result<string, FormatError>)
  {
    match ParseJsonLine(alias, path)
    case Err(e) => Err(e)
    case Ok(line) => if HasKey(functionMap, alias) then ApplyFunction(alias, line, functionMap) else Ok(line)
  }

  /** The select entry of a JSON column when `isJson` holds, of a plain column otherwise. */
  function EntryLine(isJson: bool, alias: string, definition: string, functionMap: ColumnMap): Result<string, FormatError>
  {
    if isJson then JsonColumnLine(alias, definition, functionMap) else ColumnLine(alias, definition, functionMap)
  }

  /** The entries of the first `n` columns of `columnMap`, in order; the first failing entry raises. */
  function Lines(columnMap: ColumnMap, functionMap: ColumnMap, isJson: bool, n: nat): (r: Result<seq<string>, FormatError>)
    requires n <= |columnMap|
    ensures r.Ok? ==> |r.value| == n
  {
    if n == 0 then Ok([])
    else
      match Lines(columnMap, functionMap, isJson, n - 1)
      case Err(e) => Err(e)
      case Ok(prev) =>
        match EntryLine(isJson, columnMap[n - 1].0, columnMap[n - 1].1, functionMap)
        case Err(e) => Err(e)
        case Ok(line) => Ok(prev + [line])
  }

  /** The `i`-th entry of the first `n` is the `i`-th column's own entry. */
  lemma {:induction false} LinesAt(columnMap: ColumnMap, functionMap: ColumnMap, isJson: bool, n: nat, lines: seq<string>, i: nat)
    requires n <= |columnMap| && Lines(columnMap, functionMap, isJson, n) == Ok(lines) && i < n
    ensures EntryLine(isJson, columnMap[i].0, columnMap[i].1, functionMap) == Ok(lines[i])
    decreases n
  {
    LinesLast(columnMap, functionMap, isJson, n, lines);
    if i < n - 1 {
      LinesAt(columnMap, functionMap, isJson, n - 1, lines[..n - 1], i);
      assert lines[..n - 1][i] == lines[i];
    }
  }

  /** A built prefix is the prefix one shorter, built, followed by its last column's entry. */
  lemma LinesLast(columnMap: ColumnMap, functionMap: ColumnMap, isJson: bool, n: nat, lines: seq<string>)
    requires 0 < n <= |columnMap| && Lines(columnMap, functionMap, isJson, n) == Ok(lines)
    ensures Lines(columnMap, functionMap, isJson, n - 1) == Ok(lines[..n - 1])
    ensures EntryLine(isJson, columnMap[n - 1].0, columnMap[n - 1].1, functionMap) == Ok(lines[n - 1])
  {
    var prev := Lines(columnMap, functionMap, isJson, n - 1);
    var last := EntryLine(isJson, columnMap[n - 1].0, columnMap[n - 1].1, functionMap);
    assert prev.Ok? && last.Ok? && lines == prev.value + [last.value];
    assert lines[..n - 1] == prev.value;
  }

  /** The first `n` entries are built exactly when each of them can be built. */
  lemma {:induction false} LinesOk(columnMap: ColumnMap, functionMap: ColumnMap, isJson: bool, n: nat)
    requires n <= |columnMap|
    ensures Lines(columnMap, functionMap, isJson, n).Ok? <==>
      forall i :: 0 <= i < n ==> EntryLine(isJson, columnMap[i].0, columnMap[i].1, functionMap).Ok?
    decreases n
  {
    if n > 0 {
      LinesOk(columnMap, functionMap, isJson, n - 1);
    }
  }

  /** Building one more entry appends it. */
  lemma LinesSnoc(columnMap: ColumnMap, functionMap: ColumnMap, isJson: bool, n: nat, prev: seq<string>, line: string)
    requires n < |columnMap| && Lines(columnMap, functionMap, isJson, n) == Ok(prev)
    requires EntryLine(isJson, columnMap[n].0, columnMap[n].1, functionMap) == Ok(line)
    ensures Lines(columnMap, functionMap, isJson, n + 1) == Ok(prev + [line])
  {
  }

  /** Three columns whose entries all succeed give those three entries, in order. */
  lemma LinesOfThree(columnMap: ColumnMap, functionMap: ColumnMap, isJson: bool, a: string, b: string, c: string)
    requires |columnMap| == 3
    requires EntryLine(isJson, columnMap[0].0, columnMap[0].1, functionMap) == Ok(a)
    requires EntryLine(isJson, columnMap[1].0, columnMap[1].1, functionMap) == Ok(b)
    requires EntryLine(isJson, columnMap[2].0, columnMap[2].1, functionMap) == Ok(c)
    ensures Lines(columnMap, functionMap, isJson, 3) == Ok([a, b, c])
  {
    LinesSnoc(columnMap, functionMap, isJson, 0, [], a);
    assert [] + [a] == [a];
    LinesSnoc(columnMap, functionMap, isJson, 1, [a], b);
    assert [a] + [b] == [a, b];
    LinesSnoc(columnMap, functionMap, isJson, 2, [a, b], c);
    assert [a, b] + [c] == [a, b, c];
  }

  /** A prefix that fails makes the next prefix fail with the same error. */
  lemma LinesErrorStays(columnMap: ColumnMap, functionMap: ColumnMap, isJson: bool, n: nat, e: FormatError)
    requires n < |columnMap| && Lines(columnMap, functionMap, isJson, n) == Err(e)
    ensures Lines(columnMap, functionMap, isJson, n + 1) == Err(e)
  {
  }

  /** Once the entry after a built prefix fails, every longer prefix fails with its error. */
  lemma {:induction false} LinesFirstError(columnMap: ColumnMap, functionMap: ColumnMap, isJson: bool, i: nat, n: nat, e: FormatError)
    requires i < n <= |columnMap| && Lines(columnMap, functionMap, isJson, i).Ok?
    requires EntryLine(isJson, columnMap[i].0, columnMap[i].1, functionMap) == Err(e)
    ensures Lines(columnMap, functionMap, isJson, n) == Err(e)
    decreases n
  {
    if n - 1 > i {
      LinesFirstError(columnMap, functionMap, isJson, i, n - 1, e);
      LinesErrorStays(columnMap, functionMap, isJson, n - 1, e);
    }
  }

  /** The SELECT entries: one per plain column, then one per JSON column. */
  function SelectLines(columnMap: ColumnMap, jsonColumnMap: ColumnMap, functionMap: ColumnMap): (r: Result<seq<string>, FormatError>)
    ensures r.Ok? ==> |r.value| == |columnMap| + |jsonColumnMap|
  {
    match Lines(columnMap, functionMap, false, |columnMap|)
    case Err(e) => Err(e)
    case Ok(plain) =>
      match Lines(jsonColumnMap, functionMap, true, |jsonColumnMap|)
      case Err(e) => Err(e)
      case Ok(json) => Ok(plain + json)
  }

  /** Three plain entries and three JSON entries make a SELECT list of six, plain ones first. */
  lemma SelectOfThrees(columnMap: ColumnMap, jsonColumnMap: ColumnMap, functionMap: ColumnMap,
                       a: string, b: string, c: string, d: string, e: string, f: string)
    requires |columnMap| == 3 && |jsonColumnMap| == 3
    requires Lines(columnMap, functionMap, false, 3) == Ok([a, b, c])
    requires Lines(jsonColumnMap, functionMap, true, 3) == Ok([d, e, f])
    ensures SelectLines(columnMap, jsonColumnMap, functionMap) == Ok([a, b, c, d, e, f])
  {
    assert [a, b, c] + [d, e, f] == [a, b, c, d, e, f];
  }

  /** The SELECT list can be built exactly when every plain and every JSON entry can. */
  lemma SelectLinesOk(columnMap: ColumnMap, jsonColumnMap: ColumnMap, functionMap: ColumnMap)
    ensures SelectLines(columnMap, jsonColumnMap, functionMap).Ok? <==>
      (forall i :: 0 <= i < |columnMap| ==> ColumnLine(columnMap[i].0, columnMap[i].1, functionMap).Ok?) &&
      (forall j :: 0 <= j < |jsonColumnMap| ==> JsonColumnLine(jsonColumnMap[j].0, jsonColumnMap[j].1, functionMap).Ok?)
  {
    LinesOk(columnMap, functionMap, false, |columnMap|);
    LinesOk(jsonColumnMap, functionMap, true, |jsonColumnMap|);
  }

  function SelectStatement(columnMap: ColumnMap, jsonColumnMap: ColumnMap, functionMap: ColumnMap): (r: Result<string, FormatError>)
    ensures r.Ok? ==> StartsWith(r.value, "SELECT ")
    ensures r.Err? <==> SelectLines(columnMap, jsonColumnMap, functionMap).Err?
  {
    match SelectLines(columnMap, jsonColumnMap, functionMap)
    case Err(e) => Err(e)
    case Ok(lines) =>
      var r := "SELECT " + Join(", ", lines);
      assert r[..7] == "SELECT ";
      Ok(r)
  }

  /** The SELECT list, built entry by entry as the two loops over the column maps do. */
  method BuildSelectStatement(columnMap: ColumnMap, jsonColumnMap: ColumnMap, functionMap: ColumnMap)
    returns (r: Result<string, FormatError>)
    ensures r == SelectStatement(columnMap, jsonColumnMap, functionMap)
  {
    var lines: seq<string> := [];
    for i := 0 to |columnMap|
      invariant Lines(columnMap, functionMap, false, i) == Ok(lines)
    {
      var alias, definition := columnMap[i].0, columnMap[i].1;
      var result: string;
      if HasKey(functionMap, alias) {
        var applied := ApplyFunction(alias, definition, functionMap);
        if applied.Err? {
          LinesFirstError(columnMap, functionMap, false, i, |columnMap|, applied.error);
          return Err(applied.error);
        }
        result := applied.value + " AS " + alias;
      } else {
        result := definition + " AS " + alias;
      }
      LinesSnoc(columnMap, functionMap, false, i, lines, result);
      lines := lines + [result];
    }
    ghost var plain := lines;
    for i := 0 to |jsonColumnMap|
      invariant Lines(jsonColumnMap, functionMap, true, i).Ok?
      invariant lines == plain + Lines(jsonColumnMap, functionMap, true, i).value
    {
      var alias, definition := jsonColumnMap[i].0, jsonColumnMap[i].1;
      var parsed := ParseJsonLine(alias, definition);
      if parsed.Err? {
        LinesFirstError(jsonColumnMap, functionMap, true, i, |jsonColumnMap|, parsed.error);
        return Err(parsed.error);
      }
      var result := parsed.value;
      if HasKey(functionMap, alias) {
        var applied := ApplyFunction(alias, result, functionMap);
        if applied.Err? {
          LinesFirstError(jsonColumnMap, functionMap, true, i, |jsonColumnMap|, applied.error);
          return Err(applied.error);
        }
        result := applied.value;
      }
      ghost var prev := Lines(jsonColumnMap, functionMap, true, i).value;
      LinesSnoc(jsonColumnMap, functionMap, true, i, prev, result);
      assert plain + (prev + [result]) == lines + [result];
      lines := lines + [result];
    }
    r := Ok("SELECT " + Join(", ", lines));
  }

  /** A select entry names column `c`, with an upper- or lowercase `AS`. */
  predicate NamesColumn(line: string, c: string) {
    EndsWith(line, " AS " + c) || EndsWith(line, " as " + c)
  }

  /** A plain column's entry is aliased to the column. */
  lemma ColumnLineNamesColumn(alias: string, definition: string, functionMap: ColumnMap, line: string)
    requires ColumnLine(alias, definition, functionMap) == Ok(line)
    ensures NamesColumn(line, alias)
  {
    var tail := " AS " + alias;
    var front := if HasKey(functionMap, alias) then ApplyFunction(alias, definition, functionMap).value else definition;
    assert line == front + tail;
    assert line[|front|..] == tail;
  }

  /** A JSON column's entry is aliased to the column when its path holds no spaces. */
  lemma JsonColumnLineNamesColumn(alias: string, path: string, functionMap: ColumnMap, line: string)
    requires JsonColumnLine(alias, path, functionMap) == Ok(line) && ' ' !in path
    ensures NamesColumn(line, alias)
  {
    var parts := Split(path, ".");
    var expression := JsonExpression(parts);
    if HasKey(functionMap, alias) {
      JsonExpressionNoSpaceBeforeA(path);
      ApplyFunctionKeepsAlias(alias, expression, functionMap, line);
      var front := Format(Get(functionMap, alias).value, expression).value;
      var tail := " as " + alias;
      assert line == front + tail;
      assert line[|front|..] == tail;
    } else {
      var tail := " AS " + alias;
      assert line == expression + tail;
      assert line[|expression|..] == tail;
    }
  }

  /** The SELECT entry of the `i`-th plain column is aliased to it. */
  lemma PlainSelectLineNamesColumn(columnMap: ColumnMap, jsonColumnMap: ColumnMap, functionMap: ColumnMap,
                                   lines: seq<string>, i: nat)
    requires SelectLines(columnMap, jsonColumnMap, functionMap) == Ok(lines) && i < |columnMap|
    ensures NamesColumn(lines[i], columnMap[i].0)
  {
    var plain := Lines(columnMap, functionMap, false, |columnMap|).value;
    var json := Lines(jsonColumnMap, functionMap, true, |jsonColumnMap|).value;
    assert lines == plain + json;
    assert lines[i] == plain[i];
    LinesAt(columnMap, functionMap, false, |columnMap|, plain, i);
    ColumnLineNamesColumn(columnMap[i].0, columnMap[i].1, functionMap, plain[i]);
  }

  /** The SELECT entry of the `j`-th JSON column is aliased to it when its path holds no spaces. */
  lemma JsonSelectLineNamesColumn(columnMap: ColumnMap, jsonColumnMap: ColumnMap, functionMap: ColumnMap,
                                  lines: seq<string>, j: nat)
    requires SelectLines(columnMap, jsonColumnMap, functionMap) == Ok(lines) && j < |jsonColumnMap|
    requires ' ' !in jsonColumnMap[j].1
    ensures NamesColumn(lines[|columnMap| + j], jsonColumnMap[j].0)
  {
    var plain := Lines(columnMap, functionMap, false, |columnMap|).value;
    var json := Lines(jsonColumnMap, functionMap, true, |jsonColumnMap|).value;
    assert lines == plain + json;
    assert lines[|columnMap| + j] == json[j];
    LinesAt(jsonColumnMap, functionMap, true, |jsonColumnMap|, json, j);
    JsonColumnLineNamesColumn(jsonColumnMap[j].0, jsonColumnMap[j].1, functionMap, json[j]);
  }

  /**
   * The SELECT entries line up with the INSERT columns: the entry at each
   * position is aliased to the column at that position of the column order,
   * whenever the JSON paths hold no spaces.
   */
  lemma SelectAlignsWithInsert(columnMap: ColumnMap, jsonColumnMap: ColumnMap, functionMap: ColumnMap, lines: seq<string>)
    requires SelectLines(columnMap, jsonColumnMap, functionMap) == Ok(lines)
    requires forall i :: 0 <= i < |jsonColumnMap| ==> ' ' !in jsonColumnMap[i].1
    ensures var order := ColumnOrder(columnMap, jsonColumnMap);
      |lines| == |order| &&
      (forall i :: 0 <= i < |columnMap| ==> NamesColumn(lines[i], order[i])) &&
      (forall j :: 0 <= j < |jsonColumnMap| ==>
        order[|columnMap| + j] == jsonColumnMap[j].0 && NamesColumn(lines[|columnMap| + j], jsonColumnMap[j].0))
  {
    forall i | 0 <= i < |columnMap|
      ensures NamesColumn(lines[i], columnMap[i].0)
    {
      PlainSelectLineNamesColumn(columnMap, jsonColumnMap, functionMap, lines, i);
    }
    forall j | 0 <= j < |jsonColumnMap|
      ensures NamesColumn(lines[|columnMap| + j], jsonColumnMap[j].0)
    {
      JsonSelectLineNamesColumn(columnMap, jsonColumnMap, functionMap, lines, j);
    }
  }

  /** The first segment of a JSON path. */
  function Root(path: string): string {
    Split(path, ".")[0]
  }

  /** The root segments of all JSON paths. */
  function Roots(jsonColumnMap: ColumnMap): set<string> {
    set i | 0 <= i < |jsonColumnMap| :: Root(jsonColumnMap[i].1)
  }

  /** The one root segment all JSON paths share; anything else cannot be unpacked. */
  function TargetKey(jsonColumnMap: ColumnMap): (r: Result<string, FormatError>)
    ensures r.Err? ==> r.error == NoSingleRoot
  {
    if jsonColumnMap != [] && forall i :: 0 <= i < |jsonColumnMap| ==> Root(jsonColumnMap[i].1) == Root(jsonColumnMap[0].1)
    then Ok(Root(jsonColumnMap[0].1))
    else Err(NoSingleRoot)
  }

  /** A single root shared by a non-empty map is the root of every path. */
  lemma SingleRoot(jsonColumnMap: ColumnMap)
    requires jsonColumnMap != [] && |Roots(jsonColumnMap)| == 1
    ensures forall i :: 0 <= i < |jsonColumnMap| ==> Root(jsonColumnMap[i].1) == Root(jsonColumnMap[0].1)
  {
    var roots := Roots(jsonColumnMap);
    var t := Root(jsonColumnMap[0].1);
    assert t in roots;
    assert roots == {t} by {
      assert |roots - {t}| == 0;
      assert roots - {t} == {};
    }
    forall i | 0 <= i < |jsonColumnMap|
      ensures Root(jsonColumnMap[i].1) == t
    {
      assert Root(jsonColumnMap[i].1) in roots;
    }
  }

  /** A target key exists exactly when the set of roots has one element, and it is that element. */
  lemma TargetKeyUnpacksRoots(jsonColumnMap: ColumnMap)
    ensures TargetKey(jsonColumnMap).Ok? <==> |Roots(jsonColumnMap)| == 1
    ensures TargetKey(jsonColumnMap).Ok? ==> Roots(jsonColumnMap) == {TargetKey(jsonColumnMap).value}
  {
    var roots := Roots(jsonColumnMap);
    if jsonColumnMap == [] {
      assert roots == {};
    } else {
      var t := Root(jsonColumnMap[0].1);
      if TargetKey(jsonColumnMap).Ok? {
        assert roots == {t} by {
          forall x | x in roots
            ensures x == t
          {
          }
          assert t in roots;
        }
      }
      if |roots| == 1 {
        SingleRoot(jsonColumnMap);
      }
    }
  }

  /** The first segment of every JSON path is the target key. */
  lemma TargetKeyIsEveryRoot(jsonColumnMap: ColumnMap, i: nat)
    requires TargetKey(jsonColumnMap).Ok? && i < |jsonColumnMap|
    ensures StartsWith(jsonColumnMap[i].1, TargetKey(jsonColumnMap).value)
  {
    var parts := Split(jsonColumnMap[i].1, ".");
    JoinSplit(jsonColumnMap[i].1, ".");
    if |parts| > 1 {
      assert Join(".", parts) == parts[0] + "." + Join(".", parts[1..]);
      assert jsonColumnMap[i].1[..|parts[0]|] == parts[0];
    }
  }

  /** The lines of the statement: CTE, INSERT header, SELECT list, and FROM the unnested array. */
  function StatementLines(json: string, table: string, columnMap: ColumnMap, jsonColumnMap: ColumnMap,
                          select: string, targetKey: string, conflictCols: seq<string>, updateCols: seq<string>): seq<string>
  {
    [JsonCte(json),
     "        " + InsertStatement(table, columnMap, jsonColumnMap),
     "        " + select,
     "        FROM (" + JsonArraySubquery(targetKey) + ")x " + OnConflict(conflictCols, updateCols)]
  }

  /**
   * The whole statement, a multi-line text whose lines after the first are
   * indented by eight spaces and whose last line ends with a newline. The
   * target key is unpacked before any part of the text is built.
   */
  function InsertJsonIntoTable(json: string, table: string, columnMap: ColumnMap, jsonColumnMap: ColumnMap,
                               functionMap: ColumnMap, conflictCols: seq<string>, updateCols: seq<string>)
    : (r: Result<string, FormatError>)
    ensures TargetKey(jsonColumnMap).Err? ==> r == Err(NoSingleRoot)
    ensures TargetKey(jsonColumnMap).Ok? ==>
      (r.Ok? <==> SelectStatement(columnMap, jsonColumnMap, functionMap).Ok?)
  {
    match TargetKey(jsonColumnMap)
    case Err(e) => Err(e)
    case Ok(targetKey) =>
      match SelectStatement(columnMap, jsonColumnMap, functionMap)
      case Err(e) => Err(e)
      case Ok(select) =>
        Ok(Join("\n", StatementLines(json, table, columnMap, jsonColumnMap, select, targetKey, conflictCols, updateCols) + [""]))
  }

  /**
   * Read line by line, the statement is the CTE, the INSERT header, the
   * SELECT list and the FROM line over the array under the shared root of
   * the JSON paths, followed by an empty line, as long as no clause spans a line.
   */
  lemma InsertJsonLines(json: string, table: string, columnMap: ColumnMap, jsonColumnMap: ColumnMap,
                        functionMap: ColumnMap, conflictCols: seq<string>, updateCols: seq<string>,
                        select: string, targetKey: string, r: string)
    requires TargetKey(jsonColumnMap) == Ok(targetKey)
    requires SelectStatement(columnMap, jsonColumnMap, functionMap) == Ok(select)
    requires InsertJsonIntoTable(json, table, columnMap, jsonColumnMap, functionMap, conflictCols, updateCols) == Ok(r)
    requires forall i :: 0 <= i < 4 ==>
      '\n' !in StatementLines(json, table, columnMap, jsonColumnMap, select, targetKey, conflictCols, updateCols)[i]
    ensures Split(r, "\n") ==
      StatementLines(json, table, columnMap, jsonColumnMap, select, targetKey, conflictCols, updateCols) + [""]
  {
    var lines := StatementLines(json, table, columnMap, jsonColumnMap, select, targetKey, conflictCols, updateCols) + [""];
    forall i | 0 <= i < |lines|
      ensures "\n"[0] !in lines[i]
    {
    }
    SplitJoin(lines, "\n");
  }

  /** The column maps of the library's own examples. */
  const ExampleColumns: ColumnMap := [("guuid", "generate_uuid_v4()"), ("created_at", "now()"), ("updated_at", "now()")]
  const ExampleJsonColumns: ColumnMap :=
    [("time", "feature.properties.Time"), ("machine", "feature.properties.Machine"), ("secID", "feature.properties.SecID")]

  lemma ColumnOrderExample()
    ensures ColumnOrder(ExampleColumns, ExampleJsonColumns) == ["guuid", "created_at", "updated_at", "time", "machine", "secID"]
  {
  }

  /** `feature.properties.<key>` reads `<key>` inside the `properties` object of each element. */
  lemma ExamplePath(k: string, key: string)
    requires '.' !in key
    ensures ParseJsonLine(k, "feature.properties." + key) ==
      Ok("_jsondict -> \"" + "properties" + "\" ->> \"" + key + "\"" + " AS " + k)
  {
    var segments := ["feature", "properties", key];
    assert segments[1..] == ["properties", key] && segments[1..][1..] == [key];
    assert Join(".", segments[1..]) == "properties" + "." + key;
    assert Join(".", segments) == "feature" + "." + ("properties" + "." + key);
    assert "feature.properties." + key == "feature" + "." + ("properties" + "." + key);
    JsonLineOfSegments(k, segments);
  }

  /** The keys the example's JSON columns read inside `properties`. */
  const ExampleKeys := ["Time", "Machine", "SecID"]

  lemma ExampleJsonColumnLine(i: nat)
    requires i < 3
    ensures JsonColumnLine(ExampleJsonColumns[i].0, ExampleJsonColumns[i].1, []) ==
      Ok("_jsondict -> \"" + "properties" + "\" ->> \"" + ExampleKeys[i] + "\"" + " AS " + ExampleJsonColumns[i].0)
  {
    var none: ColumnMap := [];
    var (alias, path) := ExampleJsonColumns[i];
    assert path == "feature.properties." + ExampleKeys[i];
    ExamplePath(alias, ExampleKeys[i]);
    assert !HasKey(none, alias);
  }

  /**
   * A function on a JSON column of the example's shape wraps the column's
   * expression in the template and keeps the alias, written ` as `.
   */
  lemma FunctionOnJsonColumn(alias: string, key: string, before: string, after: string)
    requires '.' !in key && ' ' !in key && ' ' !in alias
    requires '{' !in before + after && '}' !in before + after
    ensures JsonColumnLine(alias, "feature.properties." + key, [(alias, before + "{}" + after)]) ==
      Ok(before + ("_jsondict -> \"" + "properties" + "\" ->> \"" + key + "\"") + after + " as " + alias)
  {
    var fm: ColumnMap := [(alias, before + "{}" + after)];
    var path := "feature.properties." + key;
    var expression := "_jsondict -> \"" + "properties" + "\" ->> \"" + key + "\"";
    ExamplePath(alias, key);
    var parsed := JsonExpression(Split(path, "."));
    assert parsed + " AS " + alias == expression + " AS " + alias;
    assert parsed == expression by {
      assert parsed == (parsed + " AS " + alias)[..|parsed|];
    }
    assert ' ' !in path by {
      assert forall c :: c in path ==> c in "feature.properties." || c in key;
    }
    JsonExpressionNoSpaceBeforeA(path);
    SplitAfterPlain(expression, " AS ", alias);
    SplitNone(alias, " AS ");
    assert Keys(fm) == [alias];
    GetFirst(fm, 0);
    FormatFills(before, after, expression);
  }

  /** The function-map example: `cast({} as varchar)` on the `secID` column. */
  lemma FunctionMapExample()
    ensures JsonColumnLine("secID", "feature.properties." + "SecID", [("secID", "cast(" + "{}" + " as varchar)")]) ==
      Ok("cast(" + ("_jsondict -> \"" + "properties" + "\" ->> \"" + "SecID" + "\"") + " as varchar)" + " as " + "secID")
  {
    FunctionOnJsonColumn("secID", "SecID", "cast(", " as varchar)");
  }

  /** The entries of the example's JSON columns read `properties.<key>` of each element. */
  lemma JsonLinesExample(columns: ColumnMap, none: ColumnMap)
    requires columns == ExampleJsonColumns && none == []
    ensures Lines(columns, none, true, 3) ==
      Ok(["_jsondict -> \"" + "properties" + "\" ->> \"" + "Time" + "\"" + " AS " + "time",
          "_jsondict -> \"" + "properties" + "\" ->> \"" + "Machine" + "\"" + " AS " + "machine",
          "_jsondict -> \"" + "properties" + "\" ->> \"" + "SecID" + "\"" + " AS " + "secID"])
  {
    ExampleJsonColumnLine(0);
    ExampleJsonColumnLine(1);
    ExampleJsonColumnLine(2);
    LinesOfThree(columns, none, true,
      "_jsondict -> \"" + "properties" + "\" ->> \"" + "Time" + "\"" + " AS " + "time",
      "_jsondict -> \"" + "properties" + "\" ->> \"" + "Machine" + "\"" + " AS " + "machine",
      "_jsondict -> \"" + "properties" + "\" ->> \"" + "SecID" + "\"" + " AS " + "secID");
  }

  /** The entries of the example's plain columns alias their SQL expressions. */
  lemma PlainLinesExample(columns: ColumnMap, none: ColumnMap)
    requires columns == ExampleColumns && none == []
    ensures Lines(columns, none, false, 3) ==
      Ok(["generate_uuid_v4()" + " AS " + "guuid", "now()" + " AS " + "created_at", "now()" + " AS " + "updated_at"])
  {
    assert !HasKey(none, "guuid") && !HasKey(none, "created_at") && !HasKey(none, "updated_at");
    LinesOfThree(columns, none, false,
      "generate_uuid_v4()" + " AS " + "guuid", "now()" + " AS " + "created_at", "now()" + " AS " + "updated_at");
  }

  /** The SELECT entries of the example: plain expressions, then nested JSON reads. */
  lemma SelectLinesExample(columns: ColumnMap, jsonColumns: ColumnMap, none: ColumnMap)
    requires columns == ExampleColumns && jsonColumns == ExampleJsonColumns && none == []
    ensures SelectLines(columns, jsonColumns, none) ==
      Ok(["generate_uuid_v4()" + " AS " + "guuid",
          "now()" + " AS " + "created_at",
          "now()" + " AS " + "updated_at",
          "_jsondict -> \"" + "properties" + "\" ->> \"" + "Time" + "\"" + " AS " + "time",
          "_jsondict -> \"" + "properties" + "\" ->> \"" + "Machine" + "\"" + " AS " + "machine",
          "_jsondict -> \"" + "properties" + "\" ->> \"" + "SecID" + "\"" + " AS " + "secID"])
  {
    JsonLinesExample(jsonColumns, none);
    PlainLinesExample(columns, none);
    SelectOfThrees(columns, jsonColumns, none,
      "generate_uuid_v4()" + " AS " + "guuid",
      "now()" + " AS " + "created_at",
      "now()" + " AS " + "updated_at",
      "_jsondict -> \"" + "properties" + "\" ->> \"" + "Time" + "\"" + " AS " + "time",
      "_jsondict -> \"" + "properties" + "\" ->> \"" + "Machine" + "\"" + " AS " + "machine",
      "_jsondict -> \"" + "properties" + "\" ->> \"" + "SecID" + "\"" + " AS " + "secID");
  }

  /** Conflict columns `a, b, c` updating `b` and `c`, piece by piece. */
  lemma OnConflictUpdateExample()
    ensures OnConflict(["a", "b", "c"], ["b", "c"]) ==
      "ON CONFLICT (" + "a, b, c" + ") DO UPDATE SET (" + "b,c" + ") = (" + "excluded.b,excluded.c" + ")"
  {
    var conflict: seq<string>, update: seq<string> := ["a", "b", "c"], ["b", "c"];
    assert Join(", ", conflict[2..]) == "c";
    assert Join(", ", conflict[1..]) == "b, c" by {
      assert conflict[1..][1..] == conflict[2..];
    }
    assert Join(", ", conflict) == "a, b, c";
    assert Join(",", update) == "b,c";
    var ex := Excluded(update);
    assert ex[0] == "excluded." + "b" == "excluded.b";
    assert ex[1] == "excluded." + "c" == "excluded.c";
    assert ex == ["excluded.b", "excluded.c"];
    assert Join(",", ex) == "excluded.b,excluded.c" by {
      assert ex[1..] == ["excluded.c"];
    }
  }

  lemma OnConflictOtherExamples()
    ensures OnConflict(["a", "b", "c"], []) == "ON CONFLICT DO NOTHING"
    ensures OnConflict([], []) == ""
  {
  }
}
