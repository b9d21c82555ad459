/**
 * Filtering a list, as Python's list comprehensions with a condition and Python 2's
 * eager `filter(predicate, list)` do, and what "order-preserving subsequence" means.
 */
module Sequences {
  import opened Wrappers

  /** `r` is obtained from `s` by deleting elements, without reordering the others. */
  ghost predicate IsSubsequence<T>(r: seq<T>, s: seq<T>)
    decreases |s|
  {
    if |s| == 0 then r == []
    else (|r| > 0 && r[0] == s[0] && IsSubsequence(r[1..], s[1..])) || IsSubsequence(r, s[1..])
  }

  /** The elements of `s` that satisfy `p`, in their order in `s`. */
  function Filter<T>(s: seq<T>, p: T -> bool): (r: seq<T>)
    ensures |r| <= |s|
    ensures forall i :: 0 <= i < |r| ==> p(r[i])
  {
    if |s| == 0 then []
    else if p(s[0]) then [s[0]] + Filter(s[1..], p)
    else Filter(s[1..], p)
  }

  lemma {:induction false} FilterIsSubsequence<T>(s: seq<T>, p: T -> bool)
    ensures IsSubsequence(Filter(s, p), s)
  {
    if |s| > 0 {
      FilterIsSubsequence(s[1..], p);
      if p(s[0]) {
        var r := Filter(s, p);
        assert r[0] == s[0] && r[1..] == Filter(s[1..], p);
      }
    }
  }

  /** Each value occurs in the result exactly as often as in `s` when it satisfies `p`, and never otherwise. */
  lemma {:induction false} FilterMultiplicity<T>(s: seq<T>, p: T -> bool, x: T)
    ensures multiset(Filter(s, p))[x] == if p(x) then multiset(s)[x] else 0
  {
    if |s| > 0 {
      FilterMultiplicity(s[1..], p, x);
      assert s == [s[0]] + s[1..];
      assert multiset(s) == multiset{s[0]} + multiset(s[1..]);
      if p(s[0]) {
        assert multiset(Filter(s, p)) == multiset{s[0]} + multiset(Filter(s[1..], p));
      }
    }
  }

  lemma FilterMembership<T>(s: seq<T>, p: T -> bool, x: T)
    ensures x in Filter(s, p) <==> x in s && p(x)
  {
    FilterMultiplicity(s, p, x);
    assert x in Filter(s, p) <==> x in multiset(Filter(s, p));
    assert x in s <==> x in multiset(s);
  }

  /** Nothing is dropped when every element passes. */
  lemma {:induction false} FilterKeepsAll<T>(s: seq<T>, p: T -> bool)
    requires forall i :: 0 <= i < |s| ==> p(s[i])
    ensures Filter(s, p) == s
  {
    if |s| > 0 {
      FilterKeepsAll(s[1..], p);
      assert s == [s[0]] + s[1..];
    }
  }

  lemma FilterIdempotent<T>(s: seq<T>, p: T -> bool)
    ensures Filter(Filter(s, p), p) == Filter(s, p)
  {
    FilterKeepsAll(Filter(s, p), p);
  }

  /** Only the predicate's values on the elements of `s` matter. */
  lemma {:induction false} FilterCongruent<T>(s: seq<T>, p: T -> bool, q: T -> bool)
    requires forall i :: 0 <= i < |s| ==> p(s[i]) == q(s[i])
    ensures Filter(s, p) == Filter(s, q)
  {
    if |s| > 0 {
      FilterCongruent(s[1..], p, q);
    }
  }

  /**
   * Python 2's `filter(pred, s)` with a predicate that may raise: `pred` is applied to
   * the elements in order, and the first exception it raises ends the whole call.
   */
  function TryFilter<T, E>(s: seq<T>, pred: T -> Result<bool, E>): Result<seq<T>, E>
  {
    if |s| == 0 then Success([])
    else match pred(s[0])
      case Failure(e) => Failure(e)
      case Success(keep) =>
        match TryFilter(s[1..], pred)
        case Failure(e) => Failure(e)
        case Success(rest) => Success(if keep then [s[0]] + rest else rest)
  }

  /** The elements that a raising predicate accepts. */
  function Kept<T, E>(pred: T -> Result<bool, E>): T -> bool
  {
    x => pred(x).Success? && pred(x).value
  }

  /** When the predicate raises on no element, the call is an ordinary filter. */
  lemma {:induction false} TryFilterSucceeds<T, E>(s: seq<T>, pred: T -> Result<bool, E>)
    requires forall i :: 0 <= i < |s| ==> pred(s[i]).Success?
    ensures TryFilter(s, pred) == Success(Filter(s, Kept(pred)))
  {
    if |s| > 0 {
      TryFilterSucceeds(s[1..], pred);
    }
  }

  /** The call fails exactly when the predicate raises on some element, with the error of the first such element. */
  lemma {:induction false} TryFilterFails<T, E>(s: seq<T>, pred: T -> Result<bool, E>)
    ensures TryFilter(s, pred).Failure? <==> exists i :: 0 <= i < |s| && pred(s[i]).Failure?
    ensures TryFilter(s, pred).Failure? ==>
      exists i :: 0 <= i < |s| && pred(s[i]).Failure? && TryFilter(s, pred).error == pred(s[i]).error
        && forall j :: 0 <= j < i ==> pred(s[j]).Success?
  {
    if |s| > 0 {
      TryFilterFails(s[1..], pred);
      if pred(s[0]).Success? && TryFilter(s[1..], pred).Failure? {
        var i :| 0 <= i < |s| - 1 && pred(s[1..][i]).Failure? && TryFilter(s[1..], pred).error == pred(s[1..][i]).error
          && forall j :: 0 <= j < i ==> pred(s[1..][j]).Success?;
        assert pred(s[i + 1]).Failure? && TryFilter(s, pred).error == pred(s[i + 1]).error;
        assert forall j :: 0 <= j < i + 1 ==> pred(s[j]).Success? by {
          forall j | 0 <= j < i + 1 ensures pred(s[j]).Success? {
            if j > 0 { assert s[j] == s[1..][j - 1]; }
          }
        }
      }
      if TryFilter(s, pred).Success? {
        forall i | 0 <= i < |s| ensures pred(s[i]).Success? {
          if i > 0 { assert s[i] == s[1..][i - 1]; }
        }
      }
    }
  }
}
