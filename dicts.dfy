/**
 * Python dictionaries as ordered association lists.
 *
 * A Python `dict` remembers insertion order: assigning to a key that is
 * already present keeps its position, assigning to a new key appends it,
 * and `pop` closes the gap. `Dict<V>` is a sequence of key/value pairs and
 * the dictionaries the library builds always have unique keys.
 */
module Dicts {
  import opened Results

  type Dict<V> = seq<(string, V)>

  /** The keys of `d`, in insertion order. */
  function Keys<V>(d: Dict<V>): (ks: seq<string>)
    ensures |ks| == |d|
    ensures forall i :: 0 <= i < |d| ==> ks[i] == d[i].0
  {
    seq(|d|, i requires 0 <= i < |d| => d[i].0)
  }

  predicate HasKey<V>(d: Dict<V>, k: string) {
    k in Keys(d)
  }

  /** Every key occurs once, as in every Python dict. */
  predicate UniqueKeys<V>(d: Dict<V>) {
    forall i, j :: 0 <= i < j < |d| ==> d[i].0 != d[j].0
  }

  /** The first position of `k` in `ks`, or -1. */
  function Find(ks: seq<string>, k: string): (r: int)
    ensures -1 <= r < |ks|
    ensures r >= 0 ==> ks[r] == k && forall j :: 0 <= j < r ==> ks[j] != k
    ensures r < 0 <==> k !in ks
  {
    if ks == [] then -1
    else if ks[0] == k then 0
    else
      var r := Find(ks[1..], k);
      if r < 0 then -1 else r + 1
  }

  lemma FindAppend(ks: seq<string>, x: string, k: string)
    requires x != k
    ensures Find(ks + [x], k) == Find(ks, k)
  {
    var a, b := Find(ks + [x], k), Find(ks, k);
    if b >= 0 {
      assert (ks + [x])[b] == k;
    }
    if a >= 0 {
      assert a < |ks| && ks[a] == k;
    }
  }

  /** `d.get(k)`: the value stored under `k`, if any. */
  function Get<V>(d: Dict<V>, k: string): (r: Option<V>)
    ensures r.Some? <==> HasKey(d, k)
    ensures r.Some? ==> exists i :: 0 <= i < |d| && d[i] == (k, r.value)
  {
    var i := Find(Keys(d), k);
    if i < 0 then None else Some(d[i].1)
  }

  lemma GetAt<V>(d: Dict<V>, i: nat)
    requires UniqueKeys(d) && i < |d|
    ensures Get(d, d[i].0) == Some(d[i].1)
  {
    var j := Find(Keys(d), d[i].0);
    assert j >= 0 && d[j].0 == d[i].0;
  }

  /** Looking a key up finds its first entry. */
  lemma GetFirst<V>(d: Dict<V>, i: nat)
    requires i < |d| && forall j :: 0 <= j < i ==> d[j].0 != d[i].0
    ensures Get(d, d[i].0) == Some(d[i].1)
  {
    var j := Find(Keys(d), d[i].0);
    assert Keys(d)[i] == d[i].0;
  }

  /** Looking a key up in a dict is looking at its first entry, then at the rest. */
  lemma GetTail<V>(d: Dict<V>, k: string)
    requires UniqueKeys(d) && d != []
    ensures k == d[0].0 ==> Get(d, k) == Some(d[0].1) && !HasKey(d[1..], k)
    ensures k != d[0].0 ==> Get(d, k) == Get(d[1..], k)
  {
    var a, b := Find(Keys(d), k), Find(Keys(d[1..]), k);
    if k != d[0].0 {
      if b >= 0 {
        assert Keys(d)[b + 1] == k;
      }
      if a >= 0 {
        assert a > 0 && Keys(d[1..])[a - 1] == k;
      }
    } else {
      forall j | 0 <= j < |d| - 1
        ensures Keys(d[1..])[j] != k
      {
        assert d[1..][j] == d[j + 1];
      }
    }
  }

  /** `d[k] = v`: replaces the value in place when `k` is present, appends otherwise. */
  function Set<V>(d: Dict<V>, k: string, v: V): (r: Dict<V>)
    ensures Get(r, k) == Some(v)
    ensures forall k' :: k' != k ==> Get(r, k') == Get(d, k')
    ensures HasKey(d, k) ==> Keys(r) == Keys(d)
    ensures !HasKey(d, k) ==> Keys(r) == Keys(d) + [k] && r == d + [(k, v)]
    ensures UniqueKeys(d) ==> UniqueKeys(r)
  {
    var i := Find(Keys(d), k);
    if i < 0 then
      var r := d + [(k, v)];
      assert Keys(r) == Keys(d) + [k];
      forall k' | k' != k
        ensures Get(r, k') == Get(d, k')
      {
        FindAppend(Keys(d), k, k');
      }
      r
    else
      var r := d[i := (k, v)];
      assert Keys(r) == Keys(d);
      r
  }

  /** Dropping a position that does not hold `k` moves the first `k` left by one when it came later, and nowhere else. */
  lemma {:induction false} FindDropped(ks: seq<string>, i: nat, k: string)
    requires i < |ks| && ks[i] != k
    ensures var a, b := Find(ks[..i] + ks[i + 1..], k), Find(ks, k);
      (b < 0 ==> a < 0) && (0 <= b < i ==> a == b) && (b > i ==> a == b - 1)
  {
    if i == 0 {
      assert ks[..i] + ks[i + 1..] == ks[1..];
    } else if ks[0] != k {
      var rest := ks[1..];
      assert ks[..i] + ks[i + 1..] == [ks[0]] + (rest[..i - 1] + rest[i..]);
      assert ([ks[0]] + (rest[..i - 1] + rest[i..]))[1..] == rest[..i - 1] + rest[i..];
      FindDropped(rest, i - 1, k);
    }
  }

  /** The keys of a dict with one entry dropped. */
  lemma KeysDropped<V>(d: Dict<V>, i: nat)
    requires i < |d|
    ensures Keys(d[..i] + d[i + 1..]) == Keys(d)[..i] + Keys(d)[i + 1..]
  {
  }

  /** Looking `k` up reads the entry at its first position. */
  lemma GetIsFind<V>(d: Dict<V>, k: string)
    ensures var j := Find(Keys(d), k); Get(d, k) == if j < 0 then None else Some(d[j].1)
  {
  }

  /** Dropping an entry with a different key does not change what `k` looks up. */
  lemma DropGet<V>(d: Dict<V>, i: nat, k: string)
    requires i < |d| && d[i].0 != k
    ensures Get(d[..i] + d[i + 1..], k) == Get(d, k)
  {
    var r := d[..i] + d[i + 1..];
    KeysDropped(d, i);
    FindDropped(Keys(d), i, k);
    GetIsFind(r, k);
    GetIsFind(d, k);
    var b := Find(Keys(d), k);
    if 0 <= b < i {
      assert r[b] == d[b];
    } else if b > i {
      assert r[b - 1] == d[b];
    }
  }

  /** Assigning a key twice is assigning it the second value. */
  lemma SetTwice<V>(d: Dict<V>, k: string, a: V, b: V)
    ensures Set(Set(d, k, a), k, b) == Set(d, k, b)
  {
    var i := Find(Keys(d), k);
    var once := Set(d, k, a);
    if i < 0 {
      assert once == d + [(k, a)];
      assert Find(Keys(once), k) == |d|;
    } else {
      assert once == d[i := (k, a)];
      assert Find(Keys(once), k) == i;
    }
  }

  /** Two dicts with the same keys in the same order and the same lookups are equal. */
  lemma DictsEqual<V>(a: Dict<V>, b: Dict<V>)
    requires UniqueKeys(a) && Keys(a) == Keys(b)
    requires forall k :: Get(a, k) == Get(b, k)
    ensures a == b
  {
    assert UniqueKeys(b) by {
      forall i, j | 0 <= i < j < |b|
        ensures b[i].0 != b[j].0
      {
        assert Keys(a)[i] == Keys(b)[i] && Keys(a)[j] == Keys(b)[j];
      }
    }
    forall i | 0 <= i < |a|
      ensures a[i] == b[i]
    {
      GetAt(a, i);
      GetAt(b, i);
      assert a[i].0 == Keys(a)[i] == Keys(b)[i] == b[i].0;
    }
  }

  /** `d.pop(k, None)`: removes `k` if present, leaves `d` alone otherwise. */
  function Remove<V>(d: Dict<V>, k: string): (r: Dict<V>)
    ensures UniqueKeys(d) ==> !HasKey(r, k) && UniqueKeys(r)
    ensures forall k' :: k' != k ==> Get(r, k') == Get(d, k')
    ensures !HasKey(d, k) ==> r == d
  {
    var i := Find(Keys(d), k);
    if i < 0 then d
    else
      var r := d[..i] + d[i + 1..];
      assert forall j :: 0 <= j < |r| ==> r[j] == if j < i then d[j] else d[j + 1];
      forall k' | k' != k
        ensures Get(r, k') == Get(d, k')
      {
        DropGet(d, i, k');
      }
      r
  }

  /** `{**a, **b}`: the entries of `b` assigned one by one onto `a`. */
  function Union<V>(a: Dict<V>, b: Dict<V>): (r: Dict<V>)
    decreases |b|
  {
    if b == [] then a else Union(Set(a, b[0].0, b[0].1), b[1..])
  }

  /** In a union the right-hand dictionary wins, and no other key appears. */
  lemma {:induction false} UnionGet<V>(a: Dict<V>, b: Dict<V>, k: string)
    requires UniqueKeys(b)
    ensures Get(Union(a, b), k) == if HasKey(b, k) then Get(b, k) else Get(a, k)
    decreases |b|
  {
    if b != [] {
      UnionGet(Set(a, b[0].0, b[0].1), b[1..], k);
      GetTail(b, k);
    }
  }

  /** A union keeps the left-hand keys in place and appends the new right-hand keys. */
  lemma {:induction false} UnionUnique<V>(a: Dict<V>, b: Dict<V>)
    requires UniqueKeys(a)
    ensures UniqueKeys(Union(a, b))
    decreases |b|
  {
    if b != [] {
      UnionUnique(Set(a, b[0].0, b[0].1), b[1..]);
    }
  }
}
