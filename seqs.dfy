/** Filtering a sequence, as SQL `WHERE` clauses and list comprehensions do. */
module Seqs {
  import opened Wrappers

  /** The elements of `s` that `keep` accepts, in order. */
  function Filter<T>(s: seq<T>, keep: T -> bool): (r: seq<T>)
    ensures |r| <= |s|
  {
    if s == [] then []
    else Filter(s[..|s| - 1], keep) + (if keep(s[|s| - 1]) then [s[|s| - 1]] else [])
  }

  /** The filter keeps exactly the elements `keep` accepts. */
  lemma {:induction false} FilterMember<T>(s: seq<T>, keep: T -> bool)
    ensures forall i :: 0 <= i < |Filter(s, keep)| ==> Filter(s, keep)[i] in s && keep(Filter(s, keep)[i])
    ensures forall i :: 0 <= i < |s| && keep(s[i]) ==> s[i] in Filter(s, keep)
  {
    if s != [] {
      FilterMember(s[..|s| - 1], keep);
      assert s == s[..|s| - 1] + [s[|s| - 1]];
    }
  }

  lemma {:induction false} FilterAppend<T>(a: seq<T>, b: seq<T>, keep: T -> bool)
    ensures Filter(a + b, keep) == Filter(a, keep) + Filter(b, keep)
    decreases |b|
  {
    if b != [] {
      var ab := a + b;
      assert ab[..|ab| - 1] == a + b[..|b| - 1];
      assert ab[|ab| - 1] == b[|b| - 1];
      FilterAppend(a, b[..|b| - 1], keep);
    } else {
      assert a + b == a;
    }
  }

  /** Filtering keeps a sequence all of whose elements pass. */
  lemma {:induction false} FilterKeepsAll<T>(s: seq<T>, keep: T -> bool)
    requires forall x :: x in s ==> keep(x)
    ensures Filter(s, keep) == s
  {
    if s != [] {
      assert s[|s| - 1] in s;
      assert forall x :: x in s[..|s| - 1] ==> x in s;
      FilterKeepsAll(s[..|s| - 1], keep);
      assert s == s[..|s| - 1] + [s[|s| - 1]];
    }
  }

  /** Filtering empties a sequence none of whose elements pass. */
  lemma {:induction false} FilterDropsAll<T>(s: seq<T>, keep: T -> bool)
    requires forall x :: x in s ==> !keep(x)
    ensures Filter(s, keep) == []
  {
    if s != [] {
      assert s[|s| - 1] in s;
      assert forall x :: x in s[..|s| - 1] ==> x in s;
      FilterDropsAll(s[..|s| - 1], keep);
    }
  }

  /** `rel` holds from every element to every later one. */
  predicate Pairwise<T>(s: seq<T>, rel: (T, T) -> bool) {
    forall i, j :: 0 <= i < j < |s| ==> rel(s[i], s[j])
  }

  /** A relation that holds from every element to every later one still does after filtering. */
  lemma {:induction false} FilterPairwise<T>(s: seq<T>, keep: T -> bool, rel: (T, T) -> bool)
    requires Pairwise(s, rel)
    ensures Pairwise(Filter(s, keep), rel)
  {
    if s != [] {
      var init := s[..|s| - 1];
      var last := s[|s| - 1];
      assert Pairwise(init, rel) by {
        forall i, j | 0 <= i < j < |init| ensures rel(init[i], init[j]) {
          assert init[i] == s[i] && init[j] == s[j];
        }
      }
      FilterPairwise(init, keep, rel);
      var fi := Filter(init, keep);
      var r := Filter(s, keep);
      assert r == fi + (if keep(last) then [last] else []);
      forall i, j | 0 <= i < j < |r| ensures rel(r[i], r[j]) {
        if j < |fi| {
          assert r[i] == fi[i] && r[j] == fi[j];
        } else {
          assert r[i] == fi[i] && r[j] == last;
          FilterMember(init, keep);
          assert fi[i] in init;
          var k :| 0 <= k < |init| && init[k] == fi[i];
          assert s[k] == init[k];
        }
      }
    }
  }

  /** Filtering twice is filtering once by the conjunction. */
  lemma {:induction false} FilterTwice<T>(s: seq<T>, p: T -> bool, q: T -> bool, both: T -> bool)
    requires forall x :: both(x) == (p(x) && q(x))
    ensures Filter(Filter(s, p), q) == Filter(s, both)
  {
    if s != [] {
      var init := s[..|s| - 1];
      var last := s[|s| - 1];
      FilterTwice(init, p, q, both);
      var kept := if p(last) then [last] else [];
      FilterAppend(Filter(init, p), kept, q);
      assert Filter(kept, q) == (if both(last) then [last] else []) by {
        if p(last) {
          assert kept[..0] == [];
        }
      }
    }
  }

  /** Filtering again with the same test keeps what was kept and drops
      appended elements the test rejects. */
  lemma RefilterAppend<T>(s: seq<T>, extra: seq<T>, keep: T -> bool)
    requires forall x :: x in extra ==> !keep(x)
    ensures Filter(Filter(s, keep) + extra, keep) == Filter(s, keep)
  {
    FilterAppend(Filter(s, keep), extra, keep);
    FilterTwice(s, keep, keep, keep);
    FilterDropsAll(extra, keep);
  }

  /** The values `f` yields over `s`, in order, skipping the elements it maps to None. */
  function FilterMap<T, U>(s: seq<T>, f: T -> Option<U>): (r: seq<U>)
    ensures |r| <= |s|
  {
    if s == [] then []
    else
      var y := f(s[|s| - 1]);
      FilterMap(s[..|s| - 1], f) + (if y.Some? then [y.value] else [])
  }

  lemma {:induction false} FilterMapAppend<T, U>(a: seq<T>, b: seq<T>, f: T -> Option<U>)
    ensures FilterMap(a + b, f) == FilterMap(a, f) + FilterMap(b, f)
    decreases |b|
  {
    if b == [] {
      assert a + b == a;
    } else {
      var ab := a + b;
      assert ab[..|ab| - 1] == a + b[..|b| - 1];
      assert ab[|ab| - 1] == b[|b| - 1];
      FilterMapAppend(a, b[..|b| - 1], f);
    }
  }

  /** When `f` maps every element to a value, there is one value per element, in order. */
  lemma {:induction false} FilterMapTotal<T, U>(s: seq<T>, f: T -> Option<U>)
    requires forall k :: 0 <= k < |s| ==> f(s[k]).Some?
    ensures |FilterMap(s, f)| == |s|
    ensures forall k :: 0 <= k < |s| ==> FilterMap(s, f)[k] == f(s[k]).value
  {
    if s != [] {
      var init := s[..|s| - 1];
      assert forall k :: 0 <= k < |init| ==> init[k] == s[k];
      FilterMapTotal(init, f);
    }
  }

  /** When `f` maps every element to None, nothing is left. */
  lemma {:induction false} FilterMapNone<T, U>(s: seq<T>, f: T -> Option<U>)
    requires forall k :: 0 <= k < |s| ==> f(s[k]).None?
    ensures FilterMap(s, f) == []
  {
    if s != [] {
      var init := s[..|s| - 1];
      assert forall k :: 0 <= k < |init| ==> init[k] == s[k];
      FilterMapNone(init, f);
    }
  }

  /** `f` applied to each element of `s`, in order. */
  function Map<T, U>(s: seq<T>, f: T -> U): (r: seq<U>)
    ensures |r| == |s|
  {
    if s == [] then [] else Map(s[..|s| - 1], f) + [f(s[|s| - 1])]
  }

  lemma {:induction false} MapAt<T, U>(s: seq<T>, f: T -> U, i: int)
    requires 0 <= i < |s|
    ensures Map(s, f)[i] == f(s[i])
  {
    var init := s[..|s| - 1];
    assert Map(s, f) == Map(init, f) + [f(s[|s| - 1])];
    if i < |init| {
      MapAt(init, f, i);
      assert init[i] == s[i];
    }
  }

  /** Runs a state machine `step` over `xs` from `init`: the final state and
      the outputs the steps emitted, in order. */
  function Scan<S, X, Y>(init: S, xs: seq<X>, step: (S, X) -> (S, Option<Y>)): (r: (S, seq<Y>))
    ensures |r.1| <= |xs|
  {
    if xs == [] then (init, [])
    else
      var prev := Scan(init, xs[..|xs| - 1], step);
      var out := step(prev.0, xs[|xs| - 1]);
      (out.0, prev.1 + (if out.1.Some? then [out.1.value] else []))
  }

  /** One more input runs one more step from where the run stood. */
  lemma ScanSnoc<S, X, Y>(init: S, xs: seq<X>, x: X, step: (S, X) -> (S, Option<Y>))
    ensures var prev := Scan(init, xs, step);
      var out := step(prev.0, x);
      Scan(init, xs + [x], step) == (out.0, prev.1 + (if out.1.Some? then [out.1.value] else []))
  {
    assert (xs + [x])[..|xs|] == xs;
  }
}
