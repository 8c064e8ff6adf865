/** Generic sequence helpers shared by the modules of the model. */
module Seqs {

  /** The elements of `s` that satisfy `p`, in their original order (`Array.prototype.filter`). */
  function Filter<T>(s: seq<T>, p: T -> bool): (r: seq<T>)
    ensures |r| <= |s|
    ensures forall x | x in r :: x in s && p(x)
  {
    if |s| == 0 then []
    else if p(s[0]) then [s[0]] + Filter(s[1..], p)
    else Filter(s[1..], p)
  }

  /** Number of elements of `s` that fail `p`. */
  function CountFailing<T>(s: seq<T>, p: T -> bool): nat
  {
    if |s| == 0 then 0
    else (if p(s[0]) then 0 else 1) + CountFailing(s[1..], p)
  }

  /** Every element of `s` that satisfies `p` is kept. */
  lemma {:induction false} FilterKeepsAll<T>(s: seq<T>, p: T -> bool, x: T)
    requires x in s && p(x)
    ensures x in Filter(s, p)
  {
    if s[0] != x {
      assert x in s[1..];
      FilterKeepsAll(s[1..], p, x);
    }
  }

  /** `Filter` keeps every element that satisfies `p` as often as `s` holds it, and no other. */
  lemma {:induction false} FilterMultiset<T>(s: seq<T>, p: T -> bool)
    ensures forall x :: multiset(Filter(s, p))[x] == if p(x) then multiset(s)[x] else 0
  {
    if |s| > 0 {
      FilterMultiset(s[1..], p);
      assert s == [s[0]] + s[1..];
    }
  }

  /** What `Filter` drops is exactly what fails `p`. */
  lemma {:induction false} FilterCount<T>(s: seq<T>, p: T -> bool)
    ensures |s| - |Filter(s, p)| == CountFailing(s, p)
  {
    if |s| > 0 {
      FilterCount(s[1..], p);
    }
  }

  function Min(a: int, b: int): int {
    if a <= b then a else b
  }

  /** Concatenation of a sequence of sequences. */
  function Flatten<T>(ss: seq<seq<T>>): seq<T>
  {
    if |ss| == 0 then [] else ss[0] + Flatten(ss[1..])
  }

  lemma {:induction false} FlattenAppend<T>(ss: seq<seq<T>>, last: seq<T>)
    ensures Flatten(ss + [last]) == Flatten(ss) + last
  {
    if |ss| == 0 {
      assert ss + [last] == [last];
    } else {
      assert (ss + [last])[1..] == ss[1..] + [last];
      FlattenAppend(ss[1..], last);
    }
  }

  /** The first `n` elements, or all of them when there are fewer (`Array.prototype.slice(0, n)`). */
  function Take<T>(s: seq<T>, n: nat): (r: seq<T>)
    ensures |r| == if n < |s| then n else |s|
    ensures r <= s
  {
    if n < |s| then s[..n] else s
  }
}
