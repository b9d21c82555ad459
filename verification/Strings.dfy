/**
 * Python's `str.split(sep, maxsplit)` for a one-character separator, and its
 * inverse `sep.join(parts)`. A negative `maxsplit` means "no limit", as in Python.
 */
module Strings {

  /** Number of occurrences of `c` in `s`. */
  function Count(s: string, c: char): nat
  {
    if |s| == 0 then 0 else (if s[0] == c then 1 else 0) + Count(s[1..], c)
  }

  /** `s.split(sep, maxsplit)`: cut `s` at the first `maxsplit` occurrences of `sep` (all when negative). */
  function Split(s: string, sep: char, maxsplit: int): (parts: seq<string>)
    ensures |parts| >= 1
    decreases |s|
  {
    if maxsplit == 0 then [s]
    else if |s| == 0 then [""]
    else if s[0] == sep then [""] + Split(s[1..], sep, maxsplit - 1)
    else
      var rest := Split(s[1..], sep, maxsplit);
      [[s[0]] + rest[0]] + rest[1..]
  }

  /** The parts joined into one string with `sep` between consecutive parts, as `str.join` does. */
  function Join(parts: seq<string>, sep: char): string
    requires |parts| >= 1
    decreases |parts|
  {
    if |parts| == 1 then parts[0] else parts[0] + [sep] + Join(parts[1..], sep)
  }

  /** Joining the pieces of a split with the separator gives back the string. */
  lemma {:induction false} JoinSplit(s: string, sep: char, maxsplit: int)
    ensures Join(Split(s, sep, maxsplit), sep) == s
    decreases |s|
  {
    if maxsplit != 0 && |s| > 0 {
      JoinSplit(s[1..], sep, if s[0] == sep then maxsplit - 1 else maxsplit);
      if s[0] == sep {
        assert s == [sep] + s[1..];
      } else {
        var rest := Split(s[1..], sep, maxsplit);
        var parts := Split(s, sep, maxsplit);
        assert parts[1..] == rest[1..];
        if |rest| > 1 {
          assert Join(rest, sep) == rest[0] + [sep] + Join(rest[1..], sep);
          assert s == [s[0]] + s[1..];
        } else {
          assert s == [s[0]] + s[1..];
        }
      }
    }
  }

  /** Without a limit, there is one piece more than there are separators, and no piece holds one. */
  lemma {:induction false} SplitUnlimited(s: string, sep: char, maxsplit: int)
    requires maxsplit < 0
    ensures |Split(s, sep, maxsplit)| == Count(s, sep) + 1
    ensures forall i :: 0 <= i < |Split(s, sep, maxsplit)| ==> sep !in Split(s, sep, maxsplit)[i]
    decreases |s|
  {
    if |s| > 0 {
      SplitUnlimited(s[1..], sep, if s[0] == sep then maxsplit - 1 else maxsplit);
      if s[0] != sep {
        var rest := Split(s[1..], sep, maxsplit);
        var parts := Split(s, sep, maxsplit);
        assert parts[0] == [s[0]] + rest[0];
        forall i | 1 <= i < |parts| ensures sep !in parts[i] {
          assert parts[i] == rest[i];
        }
      }
    }
  }

  /** A string without the separator is not cut. */
  lemma {:induction false} SplitNoSeparator(s: string, sep: char, maxsplit: int)
    requires sep !in s
    ensures Split(s, sep, maxsplit) == [s]
    decreases |s|
  {
    if maxsplit != 0 && |s| > 0 {
      assert sep !in s[1..];
      SplitNoSeparator(s[1..], sep, maxsplit);
      assert s == [s[0]] + s[1..];
    }
  }

  /** The first cut falls at the first separator; the rest is split with one cut fewer. */
  lemma {:induction false} SplitAtSeparator(a: string, b: string, sep: char, maxsplit: int)
    requires sep !in a && maxsplit != 0
    ensures Split(a + [sep] + b, sep, maxsplit) == [a] + Split(b, sep, maxsplit - 1)
    decreases |a|
  {
    var s := a + [sep] + b;
    if |a| == 0 {
      assert s[0] == sep && s[1..] == b;
    } else {
      assert s[0] == a[0] && s[1..] == a[1..] + [sep] + b;
      assert sep !in a[1..];
      SplitAtSeparator(a[1..], b, sep, maxsplit);
      assert a == [a[0]] + a[1..];
    }
  }
}
