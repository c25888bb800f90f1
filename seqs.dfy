/** The array built-ins the application uses on its plant list, as functions on
    sequences: `filter`, `find` (by index) and the order-preserving
    "subsequence" relation that describes what `filter` keeps. */
module Seqs {
  import opened Wrappers

  /** `s.filter(keep)`: the elements of `s` that satisfy `keep`, in order. */
  function Filter<T>(keep: T -> bool, s: seq<T>): (r: seq<T>)
    ensures |r| <= |s|
    ensures forall i :: 0 <= i < |r| ==> r[i] in s && keep(r[i])
    ensures forall i :: 0 <= i < |s| && keep(s[i]) ==> s[i] in r
  {
    if s == [] then []
    else (if keep(s[0]) then [s[0]] else []) + Filter(keep, s[1..])
  }

  /** `r` can be obtained from `s` by deleting elements, keeping the order. */
  ghost predicate IsSubsequence<T>(r: seq<T>, s: seq<T>)
    decreases |s|
  {
    if r == [] then true
    else if s == [] then false
    else (r[0] == s[0] && IsSubsequence(r[1..], s[1..])) || IsSubsequence(r, s[1..])
  }

  lemma {:induction false} FilterIsSubsequence<T>(keep: T -> bool, s: seq<T>)
    ensures IsSubsequence(Filter(keep, s), s)
  {
    if s != [] {
      FilterIsSubsequence(keep, s[1..]);
      if keep(s[0]) {
        assert Filter(keep, s)[1..] == Filter(keep, s[1..]);
      } else {
        assert Filter(keep, s) == Filter(keep, s[1..]);
      }
    }
  }

  /** Each element kept occurs exactly as often as in `s`; the others not at all. */
  lemma {:induction false} FilterCounts<T>(keep: T -> bool, s: seq<T>, x: T)
    ensures multiset(Filter(keep, s))[x] == if keep(x) then multiset(s)[x] else 0
  {
    if s != [] {
      FilterCounts(keep, s[1..], x);
      assert s == [s[0]] + s[1..];
    }
  }

  lemma FilterCons<T>(keep: T -> bool, x: T, s: seq<T>)
    ensures Filter(keep, [x] + s) == (if keep(x) then [x] else []) + Filter(keep, s)
  {
    assert ([x] + s)[1..] == s;
  }

  /** What `filter` keeps of `[a] + t` depends on `t` only through what it
      keeps of `t`. */
  lemma FilterConsCongruent<T>(keep: T -> bool, a: T, t: seq<T>, u: seq<T>)
    requires Filter(keep, u) == Filter(keep, t)
    ensures Filter(keep, [a] + u) == Filter(keep, [a] + t)
  {
    FilterCons(keep, a, u);
    FilterCons(keep, a, t);
  }

  /** When `a` and `b` are not both kept, moving `b` in front of `a` does
      not change what `filter` keeps. */
  lemma FilterSwap<T>(keep: T -> bool, a: T, b: T, t: seq<T>, u: seq<T>)
    requires Filter(keep, u) == Filter(keep, [a] + t)
    requires !(keep(a) && keep(b))
    ensures Filter(keep, [b] + u) == Filter(keep, [a] + ([b] + t))
  {
    FilterCons(keep, a, t);
    FilterCons(keep, a, [b] + t);
    if keep(a) {
      FilterCons(keep, b, u);
      FilterCons(keep, b, t);
    } else {
      FilterConsCongruent(keep, b, t, u);
    }
  }

  lemma {:induction false} FilterConcat<T>(keep: T -> bool, s: seq<T>, t: seq<T>)
    ensures Filter(keep, s + t) == Filter(keep, s) + Filter(keep, t)
  {
    if s == [] {
      assert s + t == t;
    } else {
      assert (s + t)[0] == s[0];
      assert (s + t)[1..] == s[1..] + t;
      FilterConcat(keep, s[1..], t);
      var head := if keep(s[0]) then [s[0]] else [];
      calc {
        Filter(keep, s + t);
        head + Filter(keep, s[1..] + t);
        head + (Filter(keep, s[1..]) + Filter(keep, t));
        (head + Filter(keep, s[1..])) + Filter(keep, t);
      }
    }
  }

  /** Filtering with a test every element passes returns the same sequence. */
  lemma {:induction false} FilterKeepsAll<T>(keep: T -> bool, s: seq<T>)
    requires forall i :: 0 <= i < |s| ==> keep(s[i])
    ensures Filter(keep, s) == s
  {
    if s != [] {
      FilterKeepsAll(keep, s[1..]);
    }
  }

  /** The index `s.find(p)` stops at: the first element satisfying `p`. */
  function FirstIndex<T>(p: T -> bool, s: seq<T>): (r: Option<nat>)
    ensures r.Some? ==> r.value < |s| && p(s[r.value])
                        && forall j :: 0 <= j < r.value ==> !p(s[j])
    ensures r.None? ==> forall j :: 0 <= j < |s| ==> !p(s[j])
  {
    if s == [] then None
    else if p(s[0]) then Some(0)
    else match FirstIndex(p, s[1..])
      case None => None
      case Some(i) => Some(i + 1)
  }

  /** `s.find(p)`: the first element satisfying `p`, or None (`undefined`). */
  function Find<T>(p: T -> bool, s: seq<T>): Option<T> {
    match FirstIndex(p, s)
    case None => None
    case Some(i) => Some(s[i])
  }

  /** `s.map(f)` where `f` may throw: None (the exception) as soon as `f`
      fails on some element, otherwise the mapped sequence. */
  function MapAll<T, U>(f: T -> Option<U>, s: seq<T>): (r: Option<seq<U>>)
    ensures r.Some? <==> forall i :: 0 <= i < |s| ==> f(s[i]).Some?
    ensures r.Some? ==> |r.value| == |s| && forall i :: 0 <= i < |s| ==> r.value[i] == f(s[i]).value
  {
    if s == [] then Some([])
    else match f(s[0])
      case None => None
      case Some(x) =>
        match MapAll(f, s[1..])
        case None => None
        case Some(xs) => Some([x] + xs)
  }
}
