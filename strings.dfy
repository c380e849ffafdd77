/** String operations of the JavaScript standard library that the frontend uses. */
module Strings {

  /** The position of the first c in s (String.prototype.indexOf). */
  function IndexOf(s: string, c: char): (i: nat)
    requires c in s
    ensures i < |s| && s[i] == c && c !in s[..i]
  {
    if s[0] == c then 0 else 1 + IndexOf(s[1..], c)
  }

  /** The parts joined back with sep between them (Array.prototype.join). */
  function Join(parts: seq<string>, sep: char): string
  {
    if |parts| <= 1 then (if parts == [] then "" else parts[0])
    else parts[0] + [sep] + Join(parts[1..], sep)
  }

  /** `s.split(sep)` for a one-character separator: the pieces between occurrences of sep. */
  function Split(s: string, sep: char): (parts: seq<string>)
    ensures |parts| >= 1
    ensures Join(parts, sep) == s
    ensures forall k :: 0 <= k < |parts| ==> sep !in parts[k]
    decreases |s|
  {
    if sep !in s then [s]
    else
      var i := IndexOf(s, sep);
      assert s == s[..i] + [sep] + s[i + 1..];
      [s[..i]] + Split(s[i + 1..], sep)
  }

  /** The first c in a + [c] + b is right after a when a holds no c. */
  lemma {:induction false} IndexOfAfter(a: string, c: char, b: string)
    requires c !in a
    ensures c in a + [c] + b && IndexOf(a + [c] + b, c) == |a|
    decreases |a|
  {
    var s := a + [c] + b;
    assert s[|a|] == c;
    if a != [] {
      assert s[1..] == a[1..] + [c] + b;
      IndexOfAfter(a[1..], c, b);
    }
  }

  /** Splitting parts joined with sep gives the parts back when none of them holds sep. */
  lemma {:induction false} SplitJoin(parts: seq<string>, sep: char)
    requires |parts| >= 1
    requires forall k :: 0 <= k < |parts| ==> sep !in parts[k]
    ensures Split(Join(parts, sep), sep) == parts
    decreases |parts|
  {
    if |parts| == 1 {
      assert Join(parts, sep) == parts[0];
    } else {
      var rest := Join(parts[1..], sep);
      var s := parts[0] + [sep] + rest;
      assert Join(parts, sep) == s;
      IndexOfAfter(parts[0], sep, rest);
      assert s[..|parts[0]|] == parts[0];
      assert s[|parts[0]| + 1..] == rest;
      assert Split(s, sep) == [parts[0]] + Split(rest, sep);
      SplitJoin(parts[1..], sep);
      assert parts == [parts[0]] + parts[1..];
    }
  }

  /** `s.slice(0, n)` for n >= 0. */
  function Prefix(s: string, n: nat): (r: string)
    ensures |r| <= n && r <= s
    ensures |r| == if |s| < n then |s| else n
  {
    if |s| <= n then s else s[..n]
  }
}
