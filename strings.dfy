/**
 * The Python string operations the crawler uses: `s.split(sep)`, `sep.join(parts)`
 * and `s.rsplit(sep, 1)[0]`, for a one-character separator.
 */
module Strings {

  /**
   * `sep.join(parts)`. When no part holds the separator, the joined string
   * holds it exactly when there are at least two parts.
   */
  function Join(parts: seq<string>, sep: char): (s: string)
    ensures (forall i :: 0 <= i < |parts| ==> sep !in parts[i]) ==> (sep in s <==> |parts| >= 2)
  {
    if |parts| == 0 then ""
    else if |parts| == 1 then parts[0]
    else parts[0] + [sep] + Join(parts[1..], sep)
  }

  /**
   * `s.split(sep)`: always at least one part, no part contains the separator,
   * and joining the parts gives back s.
   */
  function Split(s: string, sep: char): (parts: seq<string>)
    ensures |parts| >= 1
    ensures forall i :: 0 <= i < |parts| ==> sep !in parts[i]
    ensures Join(parts, sep) == s
  {
    if s == [] then [""]
    else
      var rest := Split(s[1..], sep);
      if s[0] == sep then
        assert s == [] + [sep] + Join(rest, sep);
        [""] + rest
      else
        assert Join([[s[0]] + rest[0]] + rest[1..], sep) == [s[0]] + Join(rest, sep) by {
          if |rest| > 1 {
            assert ([[s[0]] + rest[0]] + rest[1..])[1..] == rest[1..];
          }
        }
        [[s[0]] + rest[0]] + rest[1..]
  }

  /** Splitting a string without the separator gives the string itself. */
  lemma {:induction false} SplitNoSep(s: string, sep: char)
    requires sep !in s
    ensures Split(s, sep) == [s]
  {
    if s != [] {
      SplitNoSep(s[1..], sep);
    }
  }

  /** A string splits into two or more parts exactly when it holds the separator. */
  lemma SplitHasSeveralParts(s: string, sep: char)
    ensures |Split(s, sep)| >= 2 <==> sep in s
  {
    if sep !in s {
      SplitNoSep(s, sep);
    }
  }

  /** Splitting `a + sep + b`, where a holds no separator, peels off a. */
  lemma {:induction false} SplitCons(a: string, sep: char, b: string)
    requires sep !in a
    ensures Split(a + [sep] + b, sep) == [a] + Split(b, sep)
  {
    if a == [] {
      assert (a + [sep] + b)[1..] == b;
    } else {
      assert (a + [sep] + b)[1..] == a[1..] + [sep] + b;
      SplitCons(a[1..], sep, b);
      assert [a[0]] + a[1..] == a;
    }
  }

  /** The other round trip: splitting a join of separator-free parts gives the parts. */
  lemma {:induction false} SplitJoin(parts: seq<string>, sep: char)
    requires |parts| >= 1
    requires forall i :: 0 <= i < |parts| ==> sep !in parts[i]
    ensures Split(Join(parts, sep), sep) == parts
  {
    if |parts| == 1 {
      SplitNoSep(parts[0], sep);
    } else {
      SplitJoin(parts[1..], sep);
      SplitCons(parts[0], sep, Join(parts[1..], sep));
      assert [parts[0]] + parts[1..] == parts;
    }
  }

  /** Index of the last occurrence of c in s, or -1. */
  function LastIndex(s: string, c: char): (k: int)
    ensures -1 <= k < |s|
    ensures k == -1 <==> c !in s
    ensures k >= 0 ==> s[k] == c && c !in s[k + 1..]
  {
    if s == [] then -1
    else
      var k := LastIndex(s[1..], c);
      assert s == [s[0]] + s[1..];
      if k >= 0 then
        assert s[k + 2..] == s[1..][k + 1..];
        k + 1
      else if s[0] == c then 0
      else -1
  }

  /**
   * `s.rsplit(c, 1)[0]`: s up to (not including) its last c, or all of s
   * when c does not occur.
   */
  function BeforeLast(s: string, c: char): (r: string)
    ensures c !in s ==> r == s
    ensures c in s ==> |r| < |s| && r == s[..|r|] && s[|r|] == c && c !in s[|r| + 1..]
  {
    var k := LastIndex(s, c);
    if k == -1 then s else s[..k]
  }

  /** The last c of a + [c] + b is the one after a, when b holds none. */
  lemma {:induction false} LastIndexAfter(a: string, c: char, b: string)
    requires c !in b
    ensures LastIndex(a + [c] + b, c) == |a|
  {
    var s := a + [c] + b;
    if a == [] {
      assert s[1..] == b;
      assert LastIndex(s[1..], c) == -1;
    } else {
      assert s[1..] == a[1..] + [c] + b;
      LastIndexAfter(a[1..], c, b);
      assert LastIndex(s[1..], c) == |a| - 1;
    }
  }

  /** When a ends before the last separator, `rsplit` returns exactly a. */
  lemma BeforeLastOf(a: string, c: char, b: string)
    requires c !in b
    ensures BeforeLast(a + [c] + b, c) == a
  {
    LastIndexAfter(a, c, b);
    assert (a + [c] + b)[..|a|] == a;
  }
}
