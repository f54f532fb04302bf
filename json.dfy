/**
 * JSON-like Python values: the records, patches and attribute values the
 * library passes around. Numbers are integers; objects are ordered dicts.
 */
module JsonValues {
  import opened Results
  import opened Dicts

  datatype Json =
    | JNull
    | JBool(b: bool)
    | JInt(n: int)
    | JStr(s: string)
    | JArr(items: seq<Json>)
    | JObj(fields: Dict<Json>)

  /** The contents of a Python dict whose values are JSON-like. */
  type Fields = Dict<Json>

  /** Python truthiness: `None`, `False`, `0`, `""`, `[]` and `{}` are false. */
  predicate Truthy(j: Json) {
    match j
    case JNull => false
    case JBool(b) => b
    case JInt(n) => n != 0
    case JStr(s) => s != ""
    case JArr(xs) => xs != []
    case JObj(fs) => fs != []
  }

  /** `d.get(k)`, where a missing key reads as `None`. */
  function GetOrNull(d: Fields, k: string): (r: Json)
    ensures !HasKey(d, k) ==> r == JNull
    ensures HasKey(d, k) ==> Get(d, k) == Some(r)
  {
    match Get(d, k)
    case None => JNull
    case Some(v) => v
  }

  /** `d.get(k, default)`. */
  function GetOr(d: Fields, k: string, default: Json): (r: Json)
    ensures !HasKey(d, k) ==> r == default
    ensures HasKey(d, k) ==> Get(d, k) == Some(r)
  {
    match Get(d, k)
    case None => default
    case Some(v) => v
  }

  /** Every dict at every depth has unique keys, as Python dicts do. */
  predicate WellFormed(j: Json) {
    match j
    case JArr(xs) => forall i :: 0 <= i < |xs| ==> WellFormed(xs[i])
    case JObj(fs) => UniqueKeys(fs) && forall i :: 0 <= i < |fs| ==> WellFormed(fs[i].1)
    case _ => true
  }

  /** Python counts `bool` as a number: `True == 1` and `False == 0`. */
  predicate IsNumeric(j: Json) {
    j.JBool? || j.JInt?
  }

  function NumericValue(j: Json): int
    requires IsNumeric(j)
  {
    if j.JInt? then j.n else if j.b then 1 else 0
  }

  /**
   * Python's `==` on these values: numbers compare by value across `bool`
   * and `int`, lists element by element, dicts key by key regardless of order.
   */
  predicate PyEq(a: Json, b: Json)
    decreases a, 1, 0
  {
    if IsNumeric(a) || IsNumeric(b) then
      IsNumeric(a) && IsNumeric(b) && NumericValue(a) == NumericValue(b)
    else
      match a
      case JNull => b.JNull?
      case JStr(s) => b.JStr? && b.s == s
      case JArr(xs) => b.JArr? && |xs| == |b.items| && ItemsEqFrom(a, b, 0)
      case JObj(fa) => b.JObj? && |fa| == |b.fields| && EntriesEqFrom(a, b, 0)
      case _ => false
  }

  /** The list elements from position `i` on are pairwise equal. */
  predicate ItemsEqFrom(a: Json, b: Json, i: nat)
    requires a.JArr? && b.JArr? && |a.items| == |b.items| && i <= |a.items|
    decreases a, 0, |a.items| - i
  {
    i == |a.items| || (PyEq(a.items[i], b.items[i]) && ItemsEqFrom(a, b, i + 1))
  }

  /** Every key of `a` from position `i` on is in `b` with an equal value. */
  predicate EntriesEqFrom(a: Json, b: Json, i: nat)
    requires a.JObj? && b.JObj? && i <= |a.fields|
    decreases a, 0, |a.fields| - i
  {
    i == |a.fields| ||
    (match Get(b.fields, a.fields[i].0)
     case None => false
     case Some(v) => PyEq(a.fields[i].1, v) && EntriesEqFrom(a, b, i + 1))
  }

  lemma {:induction false} PyEqReflexive(a: Json)
    requires WellFormed(a)
    ensures PyEq(a, a)
    decreases a, 1
  {
    match a
    case JArr(xs) => ItemsEqReflexive(a, 0);
    case JObj(fa) => EntriesEqReflexive(a, 0);
    case _ =>
  }

  lemma {:induction false} ItemsEqReflexive(a: Json, i: nat)
    requires a.JArr? && WellFormed(a) && i <= |a.items|
    ensures ItemsEqFrom(a, a, i)
    decreases a, 0, |a.items| - i
  {
    if i < |a.items| {
      PyEqReflexive(a.items[i]);
      ItemsEqReflexive(a, i + 1);
    }
  }

  lemma {:induction false} EntriesEqReflexive(a: Json, i: nat)
    requires a.JObj? && WellFormed(a) && i <= |a.fields|
    ensures EntriesEqFrom(a, a, i)
    decreases a, 0, |a.fields| - i
  {
    if i < |a.fields| {
      GetAt(a.fields, i);
      PyEqReflexive(a.fields[i].1);
      EntriesEqReflexive(a, i + 1);
    }
  }

  /** Python's `x in xs` on a list. */
  predicate Contains(xs: seq<Json>, x: Json) {
    exists j :: 0 <= j < |xs| && PyEq(xs[j], x)
  }

  /**
   * The test `json.dumps(sorted(a.items()) if dict else a) == json.dumps(...)`:
   * two dicts match when they hold the same entries in any order, anything
   * else matches only an identical value.
   */
  predicate ItemsMatch(a: Json, b: Json) {
    if a.JObj? && b.JObj? then multiset(a.fields) == multiset(b.fields) else a == b
  }
}
