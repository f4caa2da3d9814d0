/**
 * The two functions of Go's `strings` package that the loader applies to
 * its configuration text, for a separator of one character:
 * `strings.Split(s, sep)` and `strings.SplitN(s, sep, 2)`.
 */
module GoStrings {

  /** Position of the first `c` in `s`, or `|s|` when `s` has none. */
  function IndexOf(s: string, c: char): (i: nat)
    ensures i <= |s|
    ensures i < |s| ==> s[i] == c
    ensures forall k | 0 <= k < i :: s[k] != c
    decreases |s|
  {
    if s == [] then 0
    else if s[0] == c then 0
    else 1 + IndexOf(s[1..], c)
  }

  /** `strings.Split(s, string(c))`: the pieces between the separators, never an empty list. */
  function Split(s: string, c: char): (parts: seq<string>)
    ensures |parts| >= 1
    ensures forall k | 0 <= k < |parts| :: c !in parts[k]
    decreases |s|
  {
    var i := IndexOf(s, c);
    if i == |s| then [s] else [s[..i]] + Split(s[i + 1..], c)
  }

  /** `strings.Join(parts, string(c))`, the reference for what `Split` undoes. */
  function Join(parts: seq<string>, c: char): string
    requires |parts| >= 1
  {
    if |parts| == 1 then parts[0] else parts[0] + [c] + Join(parts[1..], c)
  }

  /** Joining the pieces of a split gives back the text. */
  lemma {:induction false} JoinSplit(s: string, c: char)
    ensures Join(Split(s, c), c) == s
    decreases |s|
  {
    var i := IndexOf(s, c);
    if i < |s| {
      var head, rest := s[..i], s[i + 1..];
      var ps := Split(s, c);
      assert ps == [head] + Split(rest, c);
      assert ps[0] == head && ps[1..] == Split(rest, c);
      JoinSplit(rest, c);
      assert Join(ps, c) == head + [c] + rest;
      assert s == head + [c] + rest;
    }
  }

  /** Splitting a join of separator-free pieces gives back the pieces. */
  lemma {:induction false} SplitJoin(parts: seq<string>, c: char)
    requires |parts| >= 1
    requires forall k | 0 <= k < |parts| :: c !in parts[k]
    ensures Split(Join(parts, c), c) == parts
    decreases |parts|
  {
    if |parts| == 1 {
      IndexOfAbsent(parts[0], c);
    } else {
      var p, tail := parts[0], parts[1..];
      var rest := Join(tail, c);
      IndexOfFirst(p, c, rest);
      SplitAt(p, c, rest);
      SplitJoin(tail, c);
      assert [p] + tail == parts;
    }
  }

  /** The split of a text whose first separator follows `p`. */
  lemma SplitAt(p: string, c: char, rest: string)
    requires IndexOf(p + [c] + rest, c) == |p|
    ensures Split(p + [c] + rest, c) == [p] + Split(rest, c)
  {
    var s := p + [c] + rest;
    assert s[..|p|] == p && s[|p| + 1..] == rest;
  }

  lemma {:induction false} IndexOfAbsent(s: string, c: char)
    requires c !in s
    ensures IndexOf(s, c) == |s|
    decreases |s|
  {
    if s != [] {
      assert s == [s[0]] + s[1..];
      IndexOfAbsent(s[1..], c);
    }
  }

  lemma {:induction false} IndexOfFirst(p: string, c: char, rest: string)
    requires c !in p
    ensures IndexOf(p + [c] + rest, c) == |p|
    decreases |p|
  {
    var s := p + [c] + rest;
    if p == [] {
      assert s[0] == c;
    } else {
      assert p == [p[0]] + p[1..];
      assert s[1..] == p[1..] + [c] + rest;
      IndexOfFirst(p[1..], c, rest);
    }
  }

  /** `strings.SplitN(s, string(c), 2)`: the text before and after the first `c`, or the whole text. */
  function SplitN2(s: string, c: char): (fields: seq<string>)
    ensures 1 <= |fields| <= 2
    ensures |fields| == 1 <==> c !in s
    ensures |fields| == 1 ==> fields[0] == s
    ensures |fields| == 2 ==> fields[0] + [c] + fields[1] == s && c !in fields[0]
  {
    var i := IndexOf(s, c);
    if i == |s| then [s]
    else
      assert s == s[..i] + [c] + s[i + 1..];
      [s[..i], s[i + 1..]]
  }
}
