/** Sequences: filtering, and what does not depend on the order of their elements. */
module Sequences {

  ghost predicate Distinct<T>(s: seq<T>) {
    forall i, j :: 0 <= i < j < |s| ==> s[i] != s[j]
  }

  function Filter<T>(keep: T -> bool, items: seq<T>): seq<T> {
    if items == [] then [] else (if keep(items[0]) then [items[0]] else []) + Filter(keep, items[1..])
  }

  function RemoveAt<T>(s: seq<T>, k: nat): seq<T>
    requires k < |s|
  {
    s[..k] + s[k + 1..]
  }

  lemma RemoveLater<T>(s: seq<T>, k: nat)
    requires 0 < k < |s|
    ensures s[1..][k - 1] == s[k] && RemoveAt(s, k) == [s[0]] + RemoveAt(s[1..], k - 1)
  {
  }

  lemma SameRest<T>(a: seq<T>, b: seq<T>, k: nat)
    requires a != [] && k < |b| && b[k] == a[0] && multiset(a) == multiset(b)
    ensures multiset(a[1..]) == multiset(RemoveAt(b, k))
  {
    assert a == [a[0]] + a[1..];
    assert b == b[..k] + [b[k]] + b[k + 1..];
    assert multiset(a[1..]) == multiset(a) - multiset{a[0]};
    assert multiset(RemoveAt(b, k)) == multiset(b) - multiset{b[k]};
  }

  /** Each element of the set occurs exactly once. */
  ghost predicate Lists<T(!new)>(s: seq<T>, elements: set<T>) {
    Distinct(s) && forall x :: x in s <==> x in elements
  }

  ghost function SomeList<T>(elements: set<T>): seq<T> {
    if elements == {} then []
    else
      var x :| x in elements;
      [x] + SomeList(elements - {x})
  }

  lemma {:induction false} SomeListLists<T(!new)>(elements: set<T>)
    ensures Lists(SomeList(elements), elements)
    decreases elements
  {
    if elements != {} {
      var all := SomeList(elements);
      var x := all[0];
      SomeListLists(elements - {x});
      assert all[1..] == SomeList(elements - {x});
      forall y ensures y in all <==> y in elements {
        assert y in all <==> y == x || y in all[1..];
      }
      forall i, j | 0 <= i < j < |all| ensures all[i] != all[j] {
        assert all[j] == all[1..][j - 1];
      }
    }
  }

  lemma {:induction false} CountedOnce<T>(s: seq<T>, x: T)
    requires Distinct(s)
    ensures multiset(s)[x] == if x in s then 1 else 0
    decreases |s|
  {
    if s != [] {
      CountedOnce(s[1..], x);
      assert s == [s[0]] + s[1..];
      assert s[0] !in s[1..];
    }
  }

  /** Two lists of the same elements differ only in their order. */
  lemma ListsAreSame<T(!new)>(a: seq<T>, b: seq<T>, elements: set<T>)
    requires Lists(a, elements) && Lists(b, elements)
    ensures multiset(a) == multiset(b)
  {
    forall x ensures multiset(a)[x] == multiset(b)[x] {
      CountedOnce(a, x);
      CountedOnce(b, x);
    }
  }
}
