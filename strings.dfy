/** The few Python `str` operations the SQL and mapping builders rely on. */
module Strings {

  /** `s.startswith(prefix)`. */
  predicate StartsWith(s: string, prefix: string) {
    |prefix| <= |s| && s[..|prefix|] == prefix
  }

  /** `needle in s`: `needle` occurs in `s` as a contiguous substring. */
  predicate Infix(needle: string, s: string)
    decreases |s|
  {
    StartsWith(s, needle) || (s != [] && Infix(needle, s[1..]))
  }

  /** `needle in s` holds exactly when `needle` starts at some position of `s`. */
  lemma {:induction false} InfixAt(needle: string, s: string)
    ensures Infix(needle, s) <==> exists i :: 0 <= i <= |s| - |needle| && StartsWith(s[i..], needle)
    decreases |s|
  {
    if Infix(needle, s) {
      if !StartsWith(s, needle) {
        InfixAt(needle, s[1..]);
        var i :| 0 <= i <= |s[1..]| - |needle| && StartsWith(s[1..][i..], needle);
        assert s[1..][i..] == s[i + 1..];
      } else {
        assert s[0..] == s;
      }
    }
    if exists i :: 0 <= i <= |s| - |needle| && StartsWith(s[i..], needle) {
      var i :| 0 <= i <= |s| - |needle| && StartsWith(s[i..], needle);
      if i == 0 {
        assert s[0..] == s;
      } else {
        assert s[1..][i - 1..] == s[i..];
        InfixAt(needle, s[1..]);
      }
    }
  }

  /** Every character of a substring occurs in the string. */
  lemma InfixChars(needle: string, s: string, c: char)
    requires Infix(needle, s) && c in needle
    ensures c in s
  {
    InfixAt(needle, s);
    var i :| 0 <= i <= |s| - |needle| && StartsWith(s[i..], needle);
    var j :| 0 <= j < |needle| && needle[j] == c;
    assert s[i + j] == s[i..][j] == c;
  }

  /** ASCII `str.lower()` on one character. */
  function LowerChar(c: char): (r: char)
    ensures 'A' <= c <= 'Z' ==> r as int == c as int + 32
    ensures !('A' <= c <= 'Z') ==> r == c
  {
    if 'A' <= c <= 'Z' then (c as int + 32) as char else c
  }

  /** `s.lower()` on ASCII text. */
  function Lower(s: string): (r: string)
    ensures |r| == |s| && forall i :: 0 <= i < |s| ==> r[i] == LowerChar(s[i])
  {
    seq(|s|, i requires 0 <= i < |s| => LowerChar(s[i]))
  }

  /** `s.endswith(suffix)`. */
  predicate EndsWith(s: string, suffix: string) {
    |suffix| <= |s| && s[|s| - |suffix|..] == suffix
  }

  /** `sep.join(parts)`. */
  function Join(sep: string, parts: seq<string>): string
    decreases |parts|
  {
    if parts == [] then ""
    else if |parts| == 1 then parts[0]
    else parts[0] + sep + Join(sep, parts[1..])
  }

  /**
   * `s.split(sep)` for a non-empty separator: scanning left to right, each
   * occurrence of `sep` ends one part and starts the next.
   */
  function Split(s: string, sep: string): (parts: seq<string>)
    requires sep != []
    ensures |parts| >= 1
    decreases |s|
  {
    if |s| < |sep| then [s]
    else if s[..|sep|] == sep then [""] + Split(s[|sep|..], sep)
    else
      var rest := Split(s[1..], sep);
      [[s[0]] + rest[0]] + rest[1..]
  }

  /** Joining after an empty first part starts with the separator. */
  lemma JoinEmptyFirst(sep: string, rest: seq<string>)
    requires |rest| >= 1
    ensures Join(sep, [""] + rest) == sep + Join(sep, rest)
  {
    assert ([""] + rest)[1..] == rest;
  }

  /** Joining after a character is glued onto the first part puts that character first. */
  lemma JoinGlued(sep: string, c: char, rest: seq<string>)
    requires |rest| >= 1
    ensures Join(sep, [[c] + rest[0]] + rest[1..]) == [c] + Join(sep, rest)
  {
    var parts := [[c] + rest[0]] + rest[1..];
    if |rest| > 1 {
      assert parts[1..] == rest[1..];
    }
  }

  /** Joining the parts of a split with the same separator gives back the string. */
  lemma {:induction false} JoinSplit(s: string, sep: string)
    requires sep != []
    ensures Join(sep, Split(s, sep)) == s
    decreases |s|
  {
    if |s| < |sep| {
    } else if s[..|sep|] == sep {
      JoinSplit(s[|sep|..], sep);
      JoinEmptyFirst(sep, Split(s[|sep|..], sep));
      assert s == sep + s[|sep|..];
    } else {
      JoinSplit(s[1..], sep);
      JoinGlued(sep, s[0], Split(s[1..], sep));
      assert s == [s[0]] + s[1..];
    }
  }

  /** A string without the separator's first character is one part. */
  lemma {:induction false} SplitNone(s: string, sep: string)
    requires sep != [] && sep[0] !in s
    ensures Split(s, sep) == [s]
    decreases |s|
  {
    if |s| >= |sep| {
      assert s[..|sep|][0] == s[0];
      SplitNone(s[1..], sep);
      assert s == [s[0]] + s[1..];
    }
  }

  /** The first part of a split runs up to the first occurrence of the separator. */
  lemma {:induction false} SplitAtFirst(a: string, sep: string, b: string)
    requires sep != []
    requires forall j :: 0 <= j < |a| ==> !StartsWith((a + sep + b)[j..], sep)
    ensures Split(a + sep + b, sep) == [a] + Split(b, sep)
    decreases |a|
  {
    var s := a + sep + b;
    if a == [] {
      assert s == sep + b && s[..|sep|] == sep && s[|sep|..] == b;
    } else {
      assert s[0..] == s;
      assert !StartsWith(s, sep);
      assert s[1..] == a[1..] + sep + b;
      forall j | 0 <= j < |a[1..]|
        ensures !StartsWith((a[1..] + sep + b)[j..], sep)
      {
        assert (a[1..] + sep + b)[j..] == s[j + 1..];
      }
      SplitAtFirst(a[1..], sep, b);
      assert a == [a[0]] + a[1..];
    }
  }

  /** A separator after a part without its first character splits exactly there. */
  lemma SplitFirst(a: string, sep: string, b: string)
    requires sep != [] && sep[0] !in a
    ensures Split(a + sep + b, sep) == [a] + Split(b, sep)
  {
    forall j | 0 <= j < |a|
      ensures !StartsWith((a + sep + b)[j..], sep)
    {
      assert (a + sep + b)[j..][0] == a[j];
    }
    SplitAtFirst(a, sep, b);
  }

  /** A split with one part leaves the string whole. */
  lemma SplitSingle(s: string, sep: string)
    requires sep != [] && |Split(s, sep)| == 1
    ensures Split(s, sep) == [s]
  {
    JoinSplit(s, sep);
  }

  /** Every character of a joined part occurs in the joined string. */
  lemma {:induction false} JoinChars(sep: string, parts: seq<string>, i: nat, c: char)
    requires i < |parts| && c in parts[i]
    ensures c in Join(sep, parts)
    decreases |parts|
  {
    if i > 0 {
      JoinChars(sep, parts[1..], i - 1, c);
    }
  }

  /**
   * Splitting undoes joining when no part holds the separator's first
   * character.
   */
  lemma {:induction false} SplitJoin(parts: seq<string>, sep: string)
    requires sep != [] && parts != []
    requires forall i :: 0 <= i < |parts| ==> sep[0] !in parts[i]
    ensures Split(Join(sep, parts), sep) == parts
    decreases |parts|
  {
    if |parts| == 1 {
      SplitNone(parts[0], sep);
    } else {
      SplitJoin(parts[1..], sep);
      SplitFirst(parts[0], sep, Join(sep, parts[1..]));
      assert parts == [parts[0]] + parts[1..];
    }
  }

  /**
   * No space in `s` is followed by an `A`, and `s` does not end with a
   * space: no separator such as `" AND "` or `" AS "` can start inside `s`.
   */
  predicate NoSpaceBeforeA(s: string) {
    forall j :: 0 <= j < |s| && s[j] == ' ' ==> j + 1 < |s| && s[j + 1] != 'A'
  }

  lemma NoSpaceBeforeAJoin(a: string, b: string)
    requires NoSpaceBeforeA(a) && NoSpaceBeforeA(b)
    ensures NoSpaceBeforeA(a + b)
  {
    var s := a + b;
    forall j | 0 <= j < |s| && s[j] == ' '
      ensures j + 1 < |s| && s[j + 1] != 'A'
    {
      if j < |a| {
        assert a[j] == ' ';
      } else {
        assert b[j - |a|] == ' ';
      }
    }
  }

  /** A separator that starts with `" A"`. */
  predicate SpaceASeparator(sep: string) {
    |sep| >= 2 && sep[0] == ' ' && sep[1] == 'A'
  }

  /** A part without `" A"` splits off at the `" A…"` separator that follows it. */
  lemma SplitAfterPlain(a: string, sep: string, b: string)
    requires SpaceASeparator(sep) && NoSpaceBeforeA(a)
    ensures Split(a + sep + b, sep) == [a] + Split(b, sep)
  {
    var s := a + sep + b;
    forall j | 0 <= j < |a|
      ensures !StartsWith(s[j..], sep)
    {
      assert s[j..][0] == a[j];
      if a[j] == ' ' {
        assert s[j..][1] == a[j + 1] != 'A';
      }
    }
    SplitAtFirst(a, sep, b);
  }

  /** A string without `" A"` is not split by a `" A…"` separator. */
  lemma {:induction false} SplitPlain(s: string, sep: string)
    requires SpaceASeparator(sep) && NoSpaceBeforeA(s)
    ensures Split(s, sep) == [s]
    decreases |s|
  {
    if |s| >= |sep| {
      if s[0] == ' ' {
        assert s[..|sep|][1] == s[1] != 'A';
      }
      assert s[..|sep|][0] == s[0];
      assert NoSpaceBeforeA(s[1..]) by {
        forall j | 0 <= j < |s[1..]| && s[1..][j] == ' '
          ensures j + 1 < |s[1..]| && s[1..][j + 1] != 'A'
        {
          assert s[j + 1] == ' ';
        }
      }
      SplitPlain(s[1..], sep);
      assert s == [s[0]] + s[1..];
    }
  }

  /** Splitting undoes joining with a `" A…"` separator when no part holds `" A"`. */
  lemma {:induction false} SplitJoinPlain(parts: seq<string>, sep: string)
    requires SpaceASeparator(sep) && parts != []
    requires forall i :: 0 <= i < |parts| ==> NoSpaceBeforeA(parts[i])
    ensures Split(Join(sep, parts), sep) == parts
    decreases |parts|
  {
    if |parts| == 1 {
      SplitPlain(parts[0], sep);
    } else {
      SplitJoinPlain(parts[1..], sep);
      SplitAfterPlain(parts[0], sep, Join(sep, parts[1..]));
      assert parts == [parts[0]] + parts[1..];
    }
  }

  /** The lowercase text starts with `prefix` when the first characters lowercase to it. */
  lemma StartsWithLower(s: string, prefix: string)
    requires |prefix| <= |s| && Lower(s[..|prefix|]) == prefix
    ensures StartsWith(Lower(s), prefix)
  {
    assert Lower(s)[..|prefix|] == Lower(s[..|prefix|]);
  }

  /** `needle` occurs in the lowercase text where its characters are the lowercased ones at `i`. */
  lemma InfixLowerAt(needle: string, s: string, i: nat)
    requires i + |needle| <= |s|
    requires forall j :: 0 <= j < |needle| ==> LowerChar(s[i + j]) == needle[j]
    ensures Infix(needle, Lower(s))
  {
    var l := Lower(s);
    assert l[i..][..|needle|] == needle;
    InfixAt(needle, l);
  }
}
