/** `string.Join` and its inverse, splitting at a separator character. */
module Strings {

  /** `string.Join(separator, parts)`: the parts with the separator between
      each adjacent pair; no parts give the empty string. */
  function Join(separator: string, parts: seq<string>): (r: string)
    ensures parts == [] ==> r == []
    ensures |parts| == 1 ==> r == parts[0]
    ensures |parts| >= 1 ==> |r| >= |parts[0]| && r[..|parts[0]|] == parts[0]
    decreases |parts|
  {
    if parts == [] then ""
    else if |parts| == 1 then parts[0]
    else parts[0] + separator + Join(separator, parts[1..])
  }

  /** The position of the first occurrence of `c` in `s`. */
  function IndexOf(s: string, c: char): (i: nat)
    requires c in s
    ensures i < |s| && s[i] == c && c !in s[..i]
  {
    if s[0] == c then 0
    else
      assert c in s[1..] by { assert s == [s[0]] + s[1..]; }
      var j := IndexOf(s[1..], c);
      assert s[..j + 1] == [s[0]] + s[1..][..j];
      1 + j
  }

  /** The pieces of `s` between occurrences of `c` (always at least one). */
  function Split(s: string, c: char): (parts: seq<string>)
    ensures |parts| >= 1
    ensures forall k :: 0 <= k < |parts| ==> c !in parts[k]
    decreases |s|
  {
    if c !in s then [s]
    else
      var i := IndexOf(s, c);
      [s[..i]] + Split(s[i + 1..], c)
  }

  /** No part contains the separator character. */
  predicate FreeOf(parts: seq<string>, c: char) {
    forall k :: 0 <= k < |parts| ==> c !in parts[k]
  }

  /** The first separator of `head + [c] + rest` is the one after `head`. */
  lemma FirstSeparator(head: string, rest: string, c: char)
    requires c !in head
    ensures c in head + [c] + rest && IndexOf(head + [c] + rest, c) == |head|
  {
    var s := head + [c] + rest;
    assert s[|head|] == c;
    assert s[..|head|] == head;
    assert c in s[..|head| + 1] by { assert s[..|head| + 1][|head|] == c; }
  }

  /** Splitting a join gives back the parts, provided there was at least one
      part and no part contains the separator. */
  lemma {:induction false} SplitJoin(parts: seq<string>, c: char)
    requires |parts| >= 1 && FreeOf(parts, c)
    ensures Split(Join([c], parts), c) == parts
    decreases |parts|
  {
    if |parts| > 1 {
      var head, rest := parts[0], Join([c], parts[1..]);
      var s := head + [c] + rest;
      assert Join([c], parts) == s;
      FirstSeparator(head, rest, c);
      assert s[..|head|] == head;
      assert s[|head| + 1..] == rest;
      assert Split(s, c) == [head] + Split(rest, c);
      SplitJoin(parts[1..], c);
      assert parts == [parts[0]] + parts[1..];
    }
  }

  /** Joining the pieces of a split gives back the string. */
  lemma {:induction false} JoinSplit(s: string, c: char)
    ensures Join([c], Split(s, c)) == s
    decreases |s|
  {
    if c in s {
      var i := IndexOf(s, c);
      var tail := Split(s[i + 1..], c);
      JoinSplit(s[i + 1..], c);
      assert Split(s, c) == [s[..i]] + tail;
      assert ([s[..i]] + tail)[1..] == tail;
      assert s == s[..i] + [c] + s[i + 1..];
    }
  }

  /** The first occurrence in a prefix is the first occurrence overall. */
  lemma IndexOfInPrefix(a: string, b: string, c: char)
    requires c in a
    ensures c in a + b && IndexOf(a + b, c) == IndexOf(a, c)
  {
    var i := IndexOf(a, c);
    assert (a + b)[..i] == a[..i];
    assert c in (a + b)[..i + 1] by { assert (a + b)[..i + 1][i] == c; }
  }

  /** Splitting at a separator that sits between two strings splits each
      side on its own. */
  lemma {:induction false} SplitAround(a: string, b: string, c: char)
    ensures Split(a + [c] + b, c) == Split(a, c) + Split(b, c)
    decreases |a|
  {
    var s := a + [c] + b;
    if c !in a {
      FirstSeparator(a, b, c);
      assert s[..|a|] == a;
      assert s[|a| + 1..] == b;
    } else {
      var i := IndexOf(a, c);
      assert s == a + ([c] + b);
      IndexOfInPrefix(a, [c] + b, c);
      assert s[..i] == a[..i];
      assert s[i + 1..] == a[i + 1..] + [c] + b;
      SplitAround(a[i + 1..], b, c);
      assert Split(s, c) == [a[..i]] + Split(a[i + 1..], c) + Split(b, c);
    }
  }
}
