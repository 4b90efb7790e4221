/** Generic facts about sequences used by the querysets: filtering keeps
    order and multiplicities, and concatenation of pages. */
module Sequences {

  /** The elements of `s` satisfying `p`, in their original order
      (a queryset `.filter(...)` over a table kept in storage order). */
  function Filter<T>(s: seq<T>, p: T -> bool): (r: seq<T>)
    ensures |r| <= |s|
    ensures forall i :: 0 <= i < |r| ==> p(r[i])
  {
    if s == [] then []
    else (if p(s[0]) then [s[0]] else []) + Filter(s[1..], p)
  }

  /** Filtering keeps every element satisfying `p` as often as it occurs,
      and drops the others. */
  lemma {:induction false} FilterCount<T(!new)>(s: seq<T>, p: T -> bool)
    ensures forall x :: multiset(Filter(s, p))[x] == if p(x) then multiset(s)[x] else 0
  {
    if s != [] {
      assert s == [s[0]] + s[1..];
      FilterCount(s[1..], p);
    }
  }

  /** An element is kept exactly when it occurs and satisfies `p`. */
  lemma {:induction false} FilterMembers<T(!new)>(s: seq<T>, p: T -> bool)
    ensures forall x :: x in Filter(s, p) <==> x in s && p(x)
  {
    FilterCount(s, p);
    forall x ensures x in Filter(s, p) <==> x in s && p(x) {
      assert x in Filter(s, p) <==> x in multiset(Filter(s, p));
    }
  }

  /** Filtering a concatenation filters each part: the filter preserves storage order. */
  lemma {:induction false} FilterAppend<T>(a: seq<T>, b: seq<T>, p: T -> bool)
    ensures Filter(a + b, p) == Filter(a, p) + Filter(b, p)
  {
    if a == [] {
      assert a + b == b;
    } else {
      assert (a + b)[1..] == a[1..] + b;
      FilterAppend(a[1..], b, p);
    }
  }

  /** The sequences of `ss` joined end to end. */
  function Concat<T>(ss: seq<seq<T>>): seq<T> {
    if ss == [] then [] else ss[0] + Concat(ss[1..])
  }

  lemma {:induction false} ConcatAppend<T>(ss: seq<seq<T>>, s: seq<T>)
    ensures Concat(ss + [s]) == Concat(ss) + s
  {
    if ss == [] {
      assert ss + [s] == [s];
    } else {
      assert (ss + [s])[1..] == ss[1..] + [s];
      ConcatAppend(ss[1..], s);
    }
  }

  /** Elements at distinct positions differ. */
  predicate NoDuplicates<T(==)>(s: seq<T>) {
    forall i, j :: 0 <= i < j < |s| ==> s[i] != s[j]
  }

  lemma {:induction false} NoDuplicatesCount<T>(s: seq<T>, x: T)
    requires NoDuplicates(s)
    ensures multiset(s)[x] <= 1
  {
    if s != [] {
      assert s == [s[0]] + s[1..];
      NoDuplicatesCount(s[1..], x);
      if s[0] == x {
        assert x !in s[1..];
      }
    }
  }

  lemma {:induction false} RepeatedCount<T>(s: seq<T>, i: nat, j: nat)
    requires i < j < |s| && s[i] == s[j]
    ensures multiset(s)[s[i]] >= 2
  {
    assert s == s[..j] + s[j..];
    assert s[i] in s[..j];
    assert s[j] == s[j..][0];
  }
}
