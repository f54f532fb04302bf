/**
 * The recursive patch merger behind every update: `merge(original, patch)`
 * copies the original record and walks the patch into the copy, key by key.
 *
 * For each key of the patch, in the patch's order:
 *  - a truthy original value and a dict in the patch: the merger descends;
 *  - a list on both sides: the list policy ("remove", "add", "replace",
 *    anything else keeps the original list) decides the new list;
 *  - otherwise the dict policy ("remove" deletes the key, anything else
 *    assigns the patch value).
 *
 * Values are immutable here, so the deep copy the source makes before
 * walking is implicit: the caller's original is never changed.
 */
module DictMerger {
  import opened Results
  import opened Dicts
  import opened JsonValues

  /** The exceptions the merger raises on shapes it does not expect. */
  datatype MergeError =
    /** `.get` on a truthy value that is not a dict, reached with a non-empty patch dict (AttributeError). */
    | GetOnNonDict
    /** `new_list[0]` on an empty patch list while the original list is non-empty (IndexError). */
    | IndexIntoEmptyList

  const DefaultListOperation: string := "add"
  const DefaultDictOperation: string := "upsert"

  // ---------------------------------------------------------------------
  // Specification functions
  // ---------------------------------------------------------------------

  /** `xs.remove(x)`: drops the first element equal to `x` (Python `==`). */
  function RemoveFirst(xs: seq<Json>, x: Json): (r: seq<Json>)
    ensures Contains(xs, x) ==> |r| == |xs| - 1
    ensures !Contains(xs, x) ==> r == xs
    ensures multiset(r) <= multiset(xs)
  {
    if xs == [] then []
    else if PyEq(xs[0], x) then
      assert xs == [xs[0]] + xs[1..];
      xs[1..]
    else
      var rest := RemoveFirst(xs[1..], x);
      assert xs == [xs[0]] + xs[1..];
      assert Contains(xs, x) ==> Contains(xs[1..], x) by {
        if Contains(xs, x) {
          var j :| 0 <= j < |xs| && PyEq(xs[j], x);
          assert j > 0 && xs[1..][j - 1] == xs[j];
        }
      }
      assert !Contains(xs, x) ==> !Contains(xs[1..], x) by {
        if Contains(xs[1..], x) {
          var j :| 0 <= j < |xs[1..]| && PyEq(xs[1..][j], x);
          assert xs[j + 1] == xs[1..][j];
        }
      }
      [xs[0]] + rest
  }

  /**
   * The state of the removal loop: the list as it stands and the position
   * the list iterator reads next. Every element that matches `key` is
   * removed with `list.remove`, so the element that slides into its place is
   * never inspected.
   */
  function RemoveScan(xs: seq<Json>, i: nat, key: Json): seq<Json>
    decreases |xs| - i
  {
    if i >= |xs| then xs
    else if ItemsMatch(xs[i], key) then RemoveScan(RemoveFirst(xs, xs[i]), i + 1, key)
    else RemoveScan(xs, i + 1, key)
  }

  /** What `_remove_item_in_list` leaves of `oldList`, or the error it raises. */
  function ListWithout(oldList: seq<Json>, newList: seq<Json>): Result<seq<Json>, MergeError> {
    if oldList == [] then Ok(oldList)
    else if newList == [] then Err(IndexIntoEmptyList)
    else Ok(RemoveScan(oldList, 0, newList[0]))
  }

  /** What `_add_unique_item_in_list` leaves: each new item appended unless already there. */
  function ListWithUnique(oldList: seq<Json>, newList: seq<Json>): seq<Json>
    decreases |newList|
  {
    if newList == [] then oldList
    else
      var next := if Contains(oldList, newList[0]) then oldList else oldList + [newList[0]];
      ListWithUnique(next, newList[1..])
  }

  /** The list `_merge_lists` returns under the given list policy. */
  function MergedList(oldList: seq<Json>, newList: seq<Json>, op: string): Result<seq<Json>, MergeError> {
    if op == "remove" then ListWithout(oldList, newList)
    else if op == "add" then Ok(ListWithUnique(oldList, newList))
    else if op == "replace" then Ok(newList)
    else Ok(oldList)
  }

  /** The dict `_merge_dicts` leaves: the key deleted under "remove", assigned otherwise. */
  function DictWithKey(oldDict: Fields, key: string, value: Json, op: string): Fields {
    if op == "remove" then Remove(oldDict, key) else Set(oldDict, key, value)
  }

  /**
   * What one key of the patch leaves in the dict being walked, given
   * `current`, the value `old_data.get(key)` reads there (`JNull` for a
   * missing key), and `v`, the patch's value: `Ok(Some(x))` stores `x` under
   * the key, `Ok(None)` deletes the key.
   */
  function KeyOutcome(current: Json, v: Json, listOp: string, dictOp: string): Result<Option<Json>, MergeError>
    decreases v, 2
  {
    if Truthy(current) && v.JObj? then
      match Walked(current, v.fields, 0, listOp, dictOp)
      case Err(e) => Err(e)
      case Ok(x) => Ok(Some(x))
    else if current.JArr? && v.JArr? then
      match MergedList(current.items, v.items, listOp)
      case Err(e) => Err(e)
      case Ok(l) => Ok(Some(JArr(l)))
    else if dictOp == "remove" then Ok(None)
    else Ok(Some(v))
  }

  /** Storing a key's outcome: assignment in place, or deletion. */
  function Apply(fields: Fields, k: string, outcome: Option<Json>): Fields {
    if outcome.Some? then Set(fields, k, outcome.value) else Remove(fields, k)
  }

  /**
   * The state of `_walk_dict(old, patch)` once the keys before position `i`
   * of the patch have been walked into `current`.
   */
  function Walked(current: Json, patch: Fields, i: nat, listOp: string, dictOp: string): Result<Json, MergeError>
    requires i <= |patch|
    decreases JObj(patch), 1, |patch| - i
  {
    if i == |patch| then Ok(current)
    else if !current.JObj? then Err(GetOnNonDict)
    else
      var k := patch[i].0;
      match KeyOutcome(GetOrNull(current.fields, k), patch[i].1, listOp, dictOp)
      case Err(e) => Err(e)
      case Ok(o) => Walked(JObj(Apply(current.fields, k, o)), patch, i + 1, listOp, dictOp)
  }

  /** The whole merge: `merge(original, patch, ...)`. */
  function Merged(original: Json, patch: Fields, listOp: string, dictOp: string): Result<Json, MergeError> {
    Walked(original, patch, 0, listOp, dictOp)
  }

  // ---------------------------------------------------------------------
  // The merger's functions, step by step
  // ---------------------------------------------------------------------

  method Merge(originalData: Json, newData: Fields, updateListOperation: string := DefaultListOperation,
               updateDictOperation: string := DefaultDictOperation)
    returns (r: Result<Json, MergeError>)
    requires WellFormed(JObj(newData))
    ensures r == Merged(originalData, newData, updateListOperation, updateDictOperation)
    ensures newData == [] ==> r == Ok(originalData)
  {
    var updatedData := originalData;
    r := WalkDict(updatedData, newData, updateListOperation, updateDictOperation);
  }

  method WalkDict(oldData: Json, newData: Fields, listOp: string, dictOp: string)
    returns (r: Result<Json, MergeError>)
    requires WellFormed(JObj(newData))
    ensures r == Walked(oldData, newData, 0, listOp, dictOp)
    decreases JObj(newData), 1
  {
    var data := oldData;
    var i := 0;
    while i < |newData|
      invariant 0 <= i <= |newData|
      invariant Walked(data, newData, i, listOp, dictOp) == Walked(oldData, newData, 0, listOp, dictOp)
    {
      if !data.JObj? {
        return Err(GetOnNonDict);
      }
      var step := WalkKey(data.fields, newData, i, listOp, dictOp);
      if step.Err? {
        return Err(step.error);
      }
      data := JObj(step.value);
      i := i + 1;
    }
    return Ok(data);
  }

  /** One pass of the loop in `_walk_dict`: the key at position `i` of the patch walked into `fields`. */
  method WalkKey(fields: Fields, newData: Fields, i: nat, listOp: string, dictOp: string)
    returns (r: Result<Fields, MergeError>)
    requires i < |newData| && WellFormed(JObj(newData))
    ensures r == match KeyOutcome(GetOrNull(fields, newData[i].0), newData[i].1, listOp, dictOp)
                 case Err(e) => Err(e)
                 case Ok(o) => Ok(Apply(fields, newData[i].0, o))
    decreases JObj(newData), 0
  {
    var newKey, newValue := newData[i].0, newData[i].1;
    var oldValue := GetOrNull(fields, newKey);
    if Truthy(oldValue) && newValue.JObj? {
      assert WellFormed(JObj(newValue.fields));
      var inner := WalkDict(oldValue, newValue.fields, listOp, dictOp);
      if inner.Err? {
        return Err(inner.error);
      }
      r := Ok(Set(fields, newKey, inner.value));
    } else if oldValue.JArr? && newValue.JArr? {
      var merged := MergeLists(oldValue.items, newValue.items, listOp);
      if merged.Err? {
        return Err(merged.error);
      }
      r := Ok(Set(fields, newKey, JArr(merged.value)));
    } else {
      GetAt(newData, i);
      var merged := MergeDicts(newKey, fields, newData, dictOp);
      r := Ok(merged);
    }
  }

  method MergeDicts(dictKey: string, oldDict: Fields, newDict: Fields, updateDictOperation: string)
    returns (r: Fields)
    requires HasKey(newDict, dictKey)
    ensures r == DictWithKey(oldDict, dictKey, Get(newDict, dictKey).value, updateDictOperation)
    ensures updateDictOperation == "remove" ==> !HasKey(r, dictKey) || !UniqueKeys(oldDict)
    ensures updateDictOperation != "remove" ==> Get(r, dictKey) == Get(newDict, dictKey)
    ensures forall k :: k != dictKey ==> Get(r, k) == Get(oldDict, k)
  {
    if updateDictOperation == "remove" {
      r := Remove(oldDict, dictKey);
    } else {
      r := Set(oldDict, dictKey, Get(newDict, dictKey).value);
    }
  }

  method MergeLists(oldList: seq<Json>, newList: seq<Json>, updateListOperation: string)
    returns (r: Result<seq<Json>, MergeError>)
    ensures r == MergedList(oldList, newList, updateListOperation)
  {
    if updateListOperation == "remove" {
      r := RemoveItemInList(oldList, newList);
    } else if updateListOperation == "add" {
      var l := AddUniqueItemInList(oldList, newList);
      r := Ok(l);
    } else if updateListOperation == "replace" {
      r := Ok(newList);
    } else {
      r := Ok(oldList);
    }
  }

  method RemoveItemInList(oldList: seq<Json>, newList: seq<Json>)
    returns (r: Result<seq<Json>, MergeError>)
    ensures r == ListWithout(oldList, newList)
  {
    var xs := oldList;
    var i := 0;
    while i < |xs|
      invariant newList == [] ==> xs == oldList && i == 0
      invariant newList != [] ==> RemoveScan(xs, i, newList[0]) == RemoveScan(oldList, 0, newList[0])
      decreases |xs| - i
    {
      if newList == [] {
        return Err(IndexIntoEmptyList);
      }
      var oldItem := xs[i];
      if ItemsMatch(oldItem, newList[0]) {
        xs := RemoveFirst(xs, oldItem);
      }
      i := i + 1;
    }
    return Ok(xs);
  }

  method AddUniqueItemInList(oldList: seq<Json>, newList: seq<Json>) returns (r: seq<Json>)
    ensures r == ListWithUnique(oldList, newList)
  {
    r := oldList;
    for i := 0 to |newList|
      invariant ListWithUnique(r, newList[i..]) == ListWithUnique(oldList, newList)
    {
      assert newList[i..][1..] == newList[i + 1..];
      if !Contains(r, newList[i]) {
        r := r + [newList[i]];
      }
    }
    assert newList[|newList|..] == [];
  }

  // ---------------------------------------------------------------------
  // What a merge does to the record, key by key
  // ---------------------------------------------------------------------

  /** The keys of `patch` from position `i` on do not include `k`. */
  predicate NotPatchedFrom(patch: Fields, i: nat, k: string) {
    forall j :: i <= j < |patch| ==> patch[j].0 != k
  }

  /** Every key of the patch from position `i` on has a key outcome that is not an error. */
  predicate OutcomesOkFrom(current: Fields, patch: Fields, i: nat, listOp: string, dictOp: string) {
    forall j :: i <= j < |patch| ==> KeyOutcome(GetOrNull(current, patch[j].0), patch[j].1, listOp, dictOp).Ok?
  }

  /** Applying one key's outcome does not change what the other keys read. */
  lemma ApplyOther(fields: Fields, k: string, o: Option<Json>, k': string)
    requires k' != k
    ensures Get(Apply(fields, k, o), k') == Get(fields, k')
    ensures GetOrNull(Apply(fields, k, o), k') == GetOrNull(fields, k')
  {
  }

  /**
   * The merge fails exactly when one of the patch's keys fails, and a dict
   * original stays a dict.
   */
  lemma {:induction false} WalkedOkIff(current: Json, patch: Fields, i: nat, listOp: string, dictOp: string)
    requires current.JObj? && UniqueKeys(patch) && i <= |patch|
    ensures Walked(current, patch, i, listOp, dictOp).Ok? <==> OutcomesOkFrom(current.fields, patch, i, listOp, dictOp)
    ensures Walked(current, patch, i, listOp, dictOp).Ok? ==> Walked(current, patch, i, listOp, dictOp).value.JObj?
    decreases |patch| - i
  {
    if i < |patch| {
      var k := patch[i].0;
      var o := KeyOutcome(GetOrNull(current.fields, k), patch[i].1, listOp, dictOp);
      if o.Ok? {
        var next := Apply(current.fields, k, o.value);
        WalkedOkIff(JObj(next), patch, i + 1, listOp, dictOp);
        forall j | i < j < |patch|
          ensures GetOrNull(next, patch[j].0) == GetOrNull(current.fields, patch[j].0)
        {
          ApplyOther(current.fields, k, o.value, patch[j].0);
        }
      }
    }
  }

  /** A key the patch does not mention reads the same after the merge. */
  lemma {:induction false} WalkedKeepsOtherKeys(current: Json, patch: Fields, i: nat, listOp: string, dictOp: string, k: string)
    requires current.JObj? && i <= |patch| && NotPatchedFrom(patch, i, k)
    requires Walked(current, patch, i, listOp, dictOp).Ok?
    ensures Walked(current, patch, i, listOp, dictOp).value.JObj?
    ensures Get(Walked(current, patch, i, listOp, dictOp).value.fields, k) == Get(current.fields, k)
    decreases |patch| - i
  {
    if i < |patch| {
      var o := KeyOutcome(GetOrNull(current.fields, patch[i].0), patch[i].1, listOp, dictOp);
      var next := Apply(current.fields, patch[i].0, o.value);
      WalkedKeepsOtherKeys(JObj(next), patch, i + 1, listOp, dictOp, k);
      ApplyOther(current.fields, patch[i].0, o.value, k);
    }
  }

  /** A key the patch mentions ends up holding exactly its key outcome. */
  lemma {:induction false} WalkedAtKey(current: Json, patch: Fields, i: nat, listOp: string, dictOp: string, j: nat)
    requires current.JObj? && UniqueKeys(current.fields) && UniqueKeys(patch) && i <= j < |patch|
    requires Walked(current, patch, i, listOp, dictOp).Ok?
    ensures Walked(current, patch, i, listOp, dictOp).value.JObj?
    ensures KeyOutcome(GetOrNull(current.fields, patch[j].0), patch[j].1, listOp, dictOp)
         == Ok(Get(Walked(current, patch, i, listOp, dictOp).value.fields, patch[j].0))
    decreases |patch| - i
  {
    var k := patch[i].0;
    var o := KeyOutcome(GetOrNull(current.fields, k), patch[i].1, listOp, dictOp);
    var next := Apply(current.fields, k, o.value);
    if j == i {
      WalkedKeepsOtherKeys(JObj(next), patch, i + 1, listOp, dictOp, k);
    } else {
      WalkedAtKey(JObj(next), patch, i + 1, listOp, dictOp, j);
      ApplyOther(current.fields, k, o.value, patch[j].0);
    }
  }

  /**
   * The merge, key by key: it succeeds exactly when every patched key's
   * outcome does; then each patched key holds its outcome and every other
   * key of the original is untouched.
   */
  lemma MergeCharacterised(original: Fields, patch: Fields, listOp: string, dictOp: string)
    requires UniqueKeys(original) && UniqueKeys(patch)
    ensures Merged(JObj(original), patch, listOp, dictOp).Ok? <==> OutcomesOkFrom(original, patch, 0, listOp, dictOp)
    ensures Merged(JObj(original), patch, listOp, dictOp).Ok? ==>
      var r := Merged(JObj(original), patch, listOp, dictOp).value;
      r.JObj? &&
      (forall k :: !HasKey(patch, k) ==> Get(r.fields, k) == Get(original, k)) &&
      (forall j :: 0 <= j < |patch| ==>
         KeyOutcome(GetOrNull(original, patch[j].0), patch[j].1, listOp, dictOp) == Ok(Get(r.fields, patch[j].0)))
  {
    WalkedOkIff(JObj(original), patch, 0, listOp, dictOp);
    if Merged(JObj(original), patch, listOp, dictOp).Ok? {
      var r := Merged(JObj(original), patch, listOp, dictOp).value;
      forall k | !HasKey(patch, k)
        ensures Get(r.fields, k) == Get(original, k)
      {
        WalkedKeepsOtherKeys(JObj(original), patch, 0, listOp, dictOp, k);
      }
      forall j | 0 <= j < |patch|
        ensures KeyOutcome(GetOrNull(original, patch[j].0), patch[j].1, listOp, dictOp) == Ok(Get(r.fields, patch[j].0))
      {
        WalkedAtKey(JObj(original), patch, 0, listOp, dictOp, j);
      }
    }
  }

  /** The keys of `patch` that `base` lacks, in patch order: where a merge appends. */
  function NewKeys(base: seq<string>, patch: Fields): (ks: seq<string>)
    ensures forall k :: k in ks ==> k !in base && exists j :: 0 <= j < |patch| && patch[j].0 == k
  {
    if patch == [] then []
    else
      var last := patch[|patch| - 1].0;
      var front := NewKeys(base, patch[..|patch| - 1]);
      assert forall k :: k in front ==> exists j :: 0 <= j < |patch| && patch[j].0 == k by {
        forall k | k in front
          ensures exists j :: 0 <= j < |patch| && patch[j].0 == k
        {
          var j :| 0 <= j < |patch| - 1 && patch[..|patch| - 1][j].0 == k;
          assert patch[j].0 == k;
        }
      }
      front + (if last in base then [] else [last])
  }

  /**
   * Without deletions, a walk keeps the keys it starts from in place and
   * appends the patch keys that are new, in patch order.
   */
  lemma {:induction false} WalkedKeyOrder(current: Json, patch: Fields, i: nat, listOp: string, dictOp: string,
                                          base: seq<string>)
    requires i <= |patch| && UniqueKeys(patch) && dictOp != "remove"
    requires current.JObj? && Keys(current.fields) == base + NewKeys(base, patch[..i])
    ensures var r := Walked(current, patch, i, listOp, dictOp);
      r.Ok? ==> r.value.JObj? && Keys(r.value.fields) == base + NewKeys(base, patch)
    decreases |patch| - i
  {
    if i == |patch| {
      assert patch[..i] == patch;
    } else {
      var k := patch[i].0;
      var outcome := KeyOutcome(GetOrNull(current.fields, k), patch[i].1, listOp, dictOp);
      if outcome.Ok? {
        var v := outcome.value.value;
        var next := Set(current.fields, k, v);
        forall j | 0 <= j < i
          ensures patch[..i][j].0 != k
        {
          assert patch[..i][j] == patch[j];
        }
        assert k !in NewKeys(base, patch[..i]);
        assert HasKey(current.fields, k) <==> k in base;
        assert patch[..i + 1][..i] == patch[..i];
        assert Keys(next) == base + NewKeys(base, patch[..i + 1]);
        WalkedKeyOrder(JObj(next), patch, i + 1, listOp, dictOp, base);
      }
    }
  }

  /**
   * The key order of a merge under any dict policy but `remove`: the
   * original keys stay where they were, and the patch's new keys follow in
   * patch order.
   */
  lemma MergeKeyOrder(original: Fields, patch: Fields, listOp: string, dictOp: string)
    requires UniqueKeys(patch) && dictOp != "remove"
    ensures var r := Merged(JObj(original), patch, listOp, dictOp);
      r.Ok? ==> r.value.JObj? && Keys(r.value.fields) == Keys(original) + NewKeys(Keys(original), patch)
  {
    assert patch[..0] == [];
    WalkedKeyOrder(JObj(original), patch, 0, listOp, dictOp, Keys(original));
  }

  /** A truthy value that is not a dict cannot take a non-empty dict patch. */
  lemma NonDictTakesNoNestedPatch(current: Json, v: Json, listOp: string, dictOp: string)
    requires Truthy(current) && !current.JObj? && v.JObj? && v.fields != []
    ensures KeyOutcome(current, v, listOp, dictOp) == Err(GetOnNonDict)
  {
  }

  /**
   * A falsy original value (missing, `None`, `{}`, `[]`, `""`, `0`) is not
   * descended into: a patch dict replaces it wholesale.
   */
  lemma FalsyValueIsReplaced(current: Json, v: Json, listOp: string, dictOp: string)
    requires !Truthy(current) && v.JObj? && dictOp != "remove"
    ensures KeyOutcome(current, v, listOp, dictOp) == Ok(Some(v))
  {
  }

  // ---------------------------------------------------------------------
  // The "add" list policy
  // ---------------------------------------------------------------------

  lemma ContainsInPrefix(xs: seq<Json>, ys: seq<Json>, x: Json)
    requires |xs| <= |ys| && ys[..|xs|] == xs && Contains(xs, x)
    ensures Contains(ys, x)
  {
    var j :| 0 <= j < |xs| && PyEq(xs[j], x);
    assert ys[j] == xs[j];
  }

  /** The original list is kept, in order, at the front. */
  lemma {:induction false} AddUniqueKeepsPrefix(oldList: seq<Json>, newList: seq<Json>)
    ensures |oldList| <= |ListWithUnique(oldList, newList)|
    ensures ListWithUnique(oldList, newList)[..|oldList|] == oldList
    decreases |newList|
  {
    if newList != [] {
      var next := if Contains(oldList, newList[0]) then oldList else oldList + [newList[0]];
      AddUniqueKeepsPrefix(next, newList[1..]);
      assert next[..|oldList|] == oldList;
    }
  }

  /** Every item of the patch list is in the result afterwards. */
  lemma {:induction false} AddUniqueCovers(oldList: seq<Json>, newList: seq<Json>)
    requires forall j :: 0 <= j < |newList| ==> WellFormed(newList[j])
    ensures forall j :: 0 <= j < |newList| ==> Contains(ListWithUnique(oldList, newList), newList[j])
    decreases |newList|
  {
    if newList != [] {
      var next := if Contains(oldList, newList[0]) then oldList else oldList + [newList[0]];
      var r := ListWithUnique(next, newList[1..]);
      assert r == ListWithUnique(oldList, newList);
      AddUniqueCovers(next, newList[1..]);
      PyEqReflexive(newList[0]);
      assert Contains(next, newList[0]) by {
        if !Contains(oldList, newList[0]) {
          assert next[|oldList|] == newList[0];
        }
      }
      AddUniqueKeepsPrefix(next, newList[1..]);
      ContainsInPrefix(next, r, newList[0]);
      forall j | 1 <= j < |newList|
        ensures Contains(r, newList[j])
      {
        assert newList[j] == newList[1..][j - 1];
      }
    }
  }

  /**
   * Everything appended comes from the patch list and equals nothing before
   * it: the policy adds no duplicates.
   */
  lemma {:induction false} AddUniqueAppendsFreshItems(oldList: seq<Json>, newList: seq<Json>)
    ensures var r := ListWithUnique(oldList, newList);
      |oldList| <= |r| &&
      forall j :: |oldList| <= j < |r| ==> r[j] in newList && !Contains(r[..j], r[j])
    decreases |newList|
  {
    if newList != [] {
      var next := if Contains(oldList, newList[0]) then oldList else oldList + [newList[0]];
      var r := ListWithUnique(next, newList[1..]);
      assert r == ListWithUnique(oldList, newList);
      AddUniqueAppendsFreshItems(next, newList[1..]);
      AddUniqueKeepsPrefix(next, newList[1..]);
      forall j | |oldList| <= j < |r|
        ensures r[j] in newList && !Contains(r[..j], r[j])
      {
        if j < |next| {
          assert j == |oldList| && next == oldList + [newList[0]];
          assert r[j] == next[j] == newList[0];
          assert r[..j] == next[..j] == oldList;
        } else {
          assert r[j] in newList[1..];
        }
      }
    }
  }

  /** A list that already holds every patch item is left as it is. */
  lemma {:induction false} AddUniqueNothingNew(oldList: seq<Json>, newList: seq<Json>)
    requires forall j :: 0 <= j < |newList| ==> Contains(oldList, newList[j])
    ensures ListWithUnique(oldList, newList) == oldList
    decreases |newList|
  {
    if newList != [] {
      forall j | 0 <= j < |newList[1..]|
        ensures Contains(oldList, newList[1..][j])
      {
        assert newList[1..][j] == newList[j + 1];
      }
      AddUniqueNothingNew(oldList, newList[1..]);
    }
  }

  /** Adding the same items twice is adding them once. */
  lemma AddUniqueIdempotent(oldList: seq<Json>, newList: seq<Json>)
    requires forall j :: 0 <= j < |newList| ==> WellFormed(newList[j])
    ensures ListWithUnique(ListWithUnique(oldList, newList), newList) == ListWithUnique(oldList, newList)
  {
    AddUniqueCovers(oldList, newList);
    AddUniqueNothingNew(ListWithUnique(oldList, newList), newList);
  }

  // ---------------------------------------------------------------------
  // The "remove" list policy
  // ---------------------------------------------------------------------

  /** `n` copies of the same value. */
  function Copies(a: Json, n: nat): (r: seq<Json>)
    ensures |r| == n && forall j :: 0 <= j < n ==> r[j] == a
  {
    seq(n, _ => a)
  }

  /**
   * The removal loop skips the element after each one it removes: of `m`
   * equal copies it removes only every other one, leaving half.
   */
  lemma {:induction false} RemoveScanHalves(a: Json, m: nat, i: nat)
    requires WellFormed(a) && i <= m
    ensures RemoveScan(Copies(a, m), i, a) == Copies(a, (m + i) / 2)
    decreases m - i
  {
    if i < m {
      RemoveScanCopy(a, m, i);
      if i + 1 <= m - 1 {
        RemoveScanHalves(a, m - 1, i + 1);
        assert (m - 1 + (i + 1)) / 2 == (m + i) / 2;
      } else {
        assert RemoveScan(Copies(a, m - 1), i + 1, a) == Copies(a, m - 1);
        assert (m + i) / 2 == m - 1;
      }
    }
  }

  /** One step of the scan over copies: the copy at `i` matches and the first copy goes. */
  lemma RemoveScanCopy(a: Json, m: nat, i: nat)
    requires WellFormed(a) && i < m
    ensures RemoveScan(Copies(a, m), i, a) == RemoveScan(Copies(a, m - 1), i + 1, a)
  {
    PyEqReflexive(a);
    assert RemoveFirst(Copies(a, m), a) == Copies(a, m - 1);
  }

  /** Removing one copy of `a` from a list of two copies leaves one copy. */
  lemma RemoveFromTwinsLeavesOne(a: Json)
    requires WellFormed(a)
    ensures ListWithout([a, a], [a]) == Ok([a])
  {
    RemoveScanHalves(a, 2, 0);
    assert Copies(a, 2) == [a, a];
    assert Copies(a, 1) == [a];
  }

  /** A list with no element matching the first patch item is left as it is. */
  lemma {:induction false} RemoveScanNoMatch(xs: seq<Json>, i: nat, key: Json)
    requires forall j :: i <= j < |xs| ==> !ItemsMatch(xs[j], key)
    ensures RemoveScan(xs, i, key) == xs
    decreases |xs| - i
  {
    if i < |xs| {
      RemoveScanNoMatch(xs, i + 1, key);
    }
  }

  /** The removal policy only ever takes elements away. */
  lemma {:induction false} RemoveScanSubMultiset(xs: seq<Json>, i: nat, key: Json)
    ensures multiset(RemoveScan(xs, i, key)) <= multiset(xs)
    decreases |xs| - i
  {
    if i < |xs| {
      if ItemsMatch(xs[i], key) {
        RemoveScanSubMultiset(RemoveFirst(xs, xs[i]), i + 1, key);
      } else {
        RemoveScanSubMultiset(xs, i + 1, key);
      }
    }
  }

  /** When the first element matches, the list loses at least one element. */
  lemma RemoveScanShrinksOnMatch(xs: seq<Json>, key: Json)
    requires xs != [] && ItemsMatch(xs[0], key) && WellFormed(xs[0])
    ensures |RemoveScan(xs, 0, key)| < |xs|
  {
    PyEqReflexive(xs[0]);
    var next := RemoveFirst(xs, xs[0]);
    assert Contains(xs, xs[0]);
    RemoveScanSubMultiset(next, 1, key);
    var rest := multiset(RemoveScan(next, 1, key));
    assert multiset(next) == rest + (multiset(next) - rest);
  }

  /**
   * Removal goes by Python equality: removing `True` from `[1, True]` removes
   * the `1`, which compares equal to it, although only `True` matched.
   */
  lemma RemoveByPythonEquality()
    ensures ListWithout([JInt(1), JBool(true)], [JBool(true)]) == Ok([JBool(true)])
  {
    var xs := [JInt(1), JBool(true)];
    assert RemoveScan(xs, 0, JBool(true)) == RemoveScan(xs, 1, JBool(true));
    assert RemoveFirst(xs, JBool(true)) == [JBool(true)];
  }

  // ---------------------------------------------------------------------
  // Worked examples
  // ---------------------------------------------------------------------

  /** A new key is appended after the original ones. */
  lemma MergeAddsNewKey()
    ensures Merged(JObj([("key1", JStr("value1"))]), [("key2", JStr("value2"))], "add", "upsert")
         == Ok(JObj([("key1", JStr("value1")), ("key2", JStr("value2"))]))
  {
    var o := [("key1", JStr("value1"))];
    var patch := [("key2", JStr("value2"))];
    assert GetOrNull(o, "key2") == JNull;
    assert KeyOutcome(JNull, JStr("value2"), "add", "upsert") == Ok(Some(JStr("value2")));
    var r := o + [("key2", JStr("value2"))];
    assert Apply(o, "key2", Some(JStr("value2"))) == r;
    assert Walked(JObj(r), patch, 1, "add", "upsert") == Ok(JObj(r));
    assert Walked(JObj(o), patch, 0, "add", "upsert") == Walked(JObj(r), patch, 1, "add", "upsert");
    assert r == [("key1", JStr("value1")), ("key2", JStr("value2"))];
    assert Merged(JObj(o), patch, "add", "upsert") == Walked(JObj(o), patch, 0, "add", "upsert");
  }

  /** Under the "remove" dict policy a key the original lacks changes nothing. */
  lemma MergeRemoveMissingKey()
    ensures Merged(JObj([("key1", JStr("value1"))]), [("key2", JStr("value2"))], "add", "remove")
         == Ok(JObj([("key1", JStr("value1"))]))
  {
    var o := [("key1", JStr("value1"))];
    assert GetOrNull(o, "key2") == JNull;
    assert Remove(o, "key2") == o;
  }

  /** Lists are merged by the list policy, whatever the dict policy says. */
  lemma MergeListsIgnoreDictPolicy(dictOp: string)
    ensures var original := [("list1", JArr([JInt(0), JInt(1), JInt(2)]))];
      Merged(JObj(original), [("list1", JArr([JInt(0), JInt(1)]))], "add", dictOp) == Ok(JObj(original))
  {
    var xs := [JInt(0), JInt(1), JInt(2)];
    var original := [("list1", JArr(xs))];
    assert GetOrNull(original, "list1") == JArr(xs);
    assert Contains(xs, JInt(0)) by { assert PyEq(xs[0], JInt(0)); }
    assert Contains(xs, JInt(1)) by { assert PyEq(xs[1], JInt(1)); }
    AddUniqueNothingNew(xs, [JInt(0), JInt(1)]);
    assert Set(original, "list1", JArr(xs)) == original;
  }

  /** The "add" policy appends only the items not already present. */
  lemma AddUniqueExample()
    ensures ListWithUnique([JInt(1), JInt(2)], [JInt(2), JInt(3)]) == [JInt(1), JInt(2), JInt(3)]
  {
    var xs := [JInt(1), JInt(2)];
    assert Contains(xs, JInt(2)) by { assert PyEq(xs[1], JInt(2)); }
    assert !Contains(xs, JInt(3));
    assert [JInt(2), JInt(3)][1..] == [JInt(3)];
  }
}
