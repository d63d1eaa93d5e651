/** Specifications of the three kinds of linear scan the package performs over
    the runes of a string (every rune in a class, some rune in a class, the
    runes of a class in order), and of mapping a function over every rune. */
module Scans {

  /** Every element of `s` satisfies `p`. */
  predicate All<T>(p: T -> bool, s: seq<T>)
    decreases |s|
  {
    s == [] || (p(s[0]) && All(p, s[1..]))
  }

  /** Some element of `s` satisfies `p`. */
  predicate Any<T>(p: T -> bool, s: seq<T>)
    decreases |s|
  {
    s != [] && (p(s[0]) || Any(p, s[1..]))
  }

  /** The elements of `s` that satisfy `p`, in their original order. */
  function Filter<T>(p: T -> bool, s: seq<T>): (t: seq<T>)
    ensures |t| <= |s|
    ensures forall j :: 0 <= j < |t| ==> p(t[j])
    decreases |s|
  {
    if s == [] then []
    else if p(s[0]) then [s[0]] + Filter(p, s[1..])
    else Filter(p, s[1..])
  }

  /** `f` applied to every element of `s` (Go's `strings.Map` with a mapping
      that never drops a rune). */
  function MapEach<T>(f: T -> T, s: seq<T>): (t: seq<T>)
    ensures |t| == |s|
    ensures forall i :: 0 <= i < |s| ==> t[i] == f(s[i])
    decreases |s|
  {
    if s == [] then [] else [f(s[0])] + MapEach(f, s[1..])
  }

  /** The positions of `s` whose element satisfies `p`. */
  function IndicesWhere<T>(p: T -> bool, s: seq<T>): set<nat>
  {
    set i: nat | i < |s| && p(s[i])
  }

  lemma {:induction false} AllIff<T>(p: T -> bool, s: seq<T>)
    ensures All(p, s) <==> forall i :: 0 <= i < |s| ==> p(s[i])
    decreases |s|
  {
    if s != [] {
      AllIff(p, s[1..]);
      assert forall i :: 1 <= i < |s| ==> s[i] == s[1..][i - 1];
    }
  }

  lemma {:induction false} AnyIff<T>(p: T -> bool, s: seq<T>)
    ensures Any(p, s) <==> exists i :: 0 <= i < |s| && p(s[i])
    decreases |s|
  {
    if s != [] {
      AnyIff(p, s[1..]);
      if exists i :: 1 <= i < |s| && p(s[i]) {
        var i :| 1 <= i < |s| && p(s[i]);
        assert s[1..][i - 1] == s[i];
      }
      if exists i :: 0 <= i < |s[1..]| && p(s[1..][i]) {
        var i :| 0 <= i < |s[1..]| && p(s[1..][i]);
        assert s[i + 1] == s[1..][i];
      }
    }
  }

  /** Filtering a concatenation filters each part: the kept elements stay in
      their order of appearance and none is merged or dropped. */
  lemma {:induction false} FilterAppend<T>(p: T -> bool, a: seq<T>, b: seq<T>)
    ensures Filter(p, a + b) == Filter(p, a) + Filter(p, b)
    decreases |a|
  {
    if a != [] {
      assert (a + b)[1..] == a[1..] + b;
      FilterAppend(p, a[1..], b);
    } else {
      assert a + b == b;
    }
  }

  /** Every occurrence of an element that satisfies `p` is kept, repeats
      included, and nothing else is. */
  lemma {:induction false} FilterMultiset<T>(p: T -> bool, s: seq<T>)
    ensures forall x :: multiset(Filter(p, s))[x] == if p(x) then multiset(s)[x] else 0
    decreases |s|
  {
    if s != [] {
      FilterMultiset(p, s[1..]);
      assert s == [s[0]] + s[1..];
      assert multiset(s) == multiset{s[0]} + multiset(s[1..]);
    }
  }

  lemma FilterMembers<T>(p: T -> bool, s: seq<T>)
    ensures forall x :: x in Filter(p, s) <==> x in s && p(x)
  {
    FilterMultiset(p, s);
    forall x ensures x in Filter(p, s) <==> x in s && p(x) {
      assert x in Filter(p, s) <==> multiset(Filter(p, s))[x] > 0;
      assert x in s <==> multiset(s)[x] > 0;
    }
  }

  /** The length of the filtered sequence is the number of positions whose
      element satisfies `p`. */
  lemma {:induction false} FilterLength<T>(p: T -> bool, s: seq<T>)
    ensures |Filter(p, s)| == |IndicesWhere(p, s)|
    decreases |s|
  {
    if s == [] {
      assert IndicesWhere(p, s) == {};
    } else {
      var front, x := s[..|s| - 1], s[|s| - 1];
      assert s == front + [x];
      FilterAppend(p, front, [x]);
      FilterLength(p, front);
      assert forall i :: 0 <= i < |front| ==> s[i] == front[i];
      if p(x) {
        assert IndicesWhere(p, s) == IndicesWhere(p, front) + {|front|};
      } else {
        assert IndicesWhere(p, s) == IndicesWhere(p, front);
      }
    }
  }

  lemma {:induction false} FilterEmptyIff<T>(p: T -> bool, s: seq<T>)
    ensures Filter(p, s) == [] <==> forall i :: 0 <= i < |s| ==> !p(s[i])
    decreases |s|
  {
    if s != [] {
      FilterEmptyIff(p, s[1..]);
      assert forall i :: 1 <= i < |s| ==> s[i] == s[1..][i - 1];
    }
  }

  /** Every kept element satisfies `q` exactly when every element of `s` that
      satisfies `p` does. */
  lemma {:induction false} FilterAllIff<T>(p: T -> bool, q: T -> bool, s: seq<T>)
    ensures All(q, Filter(p, s)) <==> forall i :: 0 <= i < |s| && p(s[i]) ==> q(s[i])
    decreases |s|
  {
    if s != [] {
      FilterAllIff(p, q, s[1..]);
      assert forall i :: 1 <= i < |s| ==> s[i] == s[1..][i - 1];
    }
  }
}
