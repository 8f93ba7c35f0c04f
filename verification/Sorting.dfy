/** A sort by any total preorder, for the library sorts the program relies on. */
module Sorting {
  ghost predicate TotalPreorder<T(!new)>(leq: (T, T) -> bool) {
    && (forall x, y :: leq(x, y) || leq(y, x))
    && (forall x, y, z :: leq(x, y) && leq(y, z) ==> leq(x, z))
  }

  ghost predicate SortedBy<T>(s: seq<T>, leq: (T, T) -> bool) {
    forall i, j :: 0 <= i < j < |s| ==> leq(s[i], s[j])
  }

  function Insert<T>(s: seq<T>, x: T, leq: (T, T) -> bool): seq<T> {
    if s == [] || leq(x, s[0]) then [x] + s else [s[0]] + Insert(s[1..], x, leq)
  }

  function Sort<T>(s: seq<T>, leq: (T, T) -> bool): seq<T> {
    if s == [] then [] else Insert(Sort(s[1..], leq), s[0], leq)
  }

  lemma {:induction false} InsertSorts<T(!new)>(s: seq<T>, x: T, leq: (T, T) -> bool)
    requires TotalPreorder(leq) && SortedBy(s, leq)
    ensures SortedBy(Insert(s, x, leq), leq)
    ensures multiset(Insert(s, x, leq)) == multiset(s) + multiset{x}
  {
    if s == [] || leq(x, s[0]) {
    } else {
      InsertSorts(s[1..], x, leq);
      var r := Insert(s[1..], x, leq);
      assert s == [s[0]] + s[1..];
      forall i | 0 <= i < |r| ensures leq(s[0], r[i]) {
        assert r[i] in multiset(r);
        assert r[i] == x || r[i] in s[1..];
      }
    }
  }

  /** Sort returns the same elements, in order. */
  lemma {:induction false} SortSorts<T(!new)>(s: seq<T>, leq: (T, T) -> bool)
    requires TotalPreorder(leq)
    ensures SortedBy(Sort(s, leq), leq)
    ensures multiset(Sort(s, leq)) == multiset(s) && |Sort(s, leq)| == |s|
  {
    if s == [] {
    } else {
      SortSorts(s[1..], leq);
      InsertSorts(Sort(s[1..], leq), s[0], leq);
      assert s == [s[0]] + s[1..];
    }
    assert |multiset(Sort(s, leq))| == |multiset(s)|;
  }

  /** a lists the elements of s, each once. */
  ghost predicate Lists<T(!new)>(a: seq<T>, s: set<T>) {
    && |a| == |s|
    && (forall x :: x in a <==> x in s)
    && (forall i, j :: 0 <= i < j < |a| ==> a[i] != a[j])
  }

  lemma SameElementsList<T(!new)>(a: seq<T>, s: set<T>)
    requires multiset(a) == multiset(s)
    ensures Lists(a, s)
  {
    assert |multiset(a)| == |multiset(s)|;
    forall x ensures x in a <==> x in s {
      assert x in a <==> x in multiset(a);
    }
    forall i, j | 0 <= i < j < |a| ensures a[i] != a[j] {
      EqualPairCountsTwice(a, i, j);
      assert multiset(s)[a[i]] <= 1;
    }
  }

  lemma EqualPairCountsTwice<T(!new)>(a: seq<T>, i: nat, j: nat)
    requires i < j < |a|
    ensures a[i] == a[j] ==> multiset(a)[a[i]] >= 2
  {
    assert a == a[..i] + [a[i]] + a[i + 1..j] + [a[j]] + a[j + 1..];
  }

  /** The elements of a set, in no particular order. */
  method Elements<T(==)>(s: set<T>) returns (a: seq<T>)
    ensures multiset(a) == multiset(s)
  {
    a := [];
    var todo := s;
    while todo != {}
      invariant todo <= s && multiset(a) + multiset(todo) == multiset(s)
      decreases |todo|
    {
      var x :| x in todo;
      a := a + [x];
      todo := todo - {x};
    }
  }

  /** The elements of a set in the order of leq; elements leq does not tell apart come in any order. */
  method Arrange<T(==, !new)>(s: set<T>, leq: (T, T) -> bool) returns (a: seq<T>)
    requires TotalPreorder(leq)
    ensures Lists(a, s) && SortedBy(a, leq)
  {
    a := Elements(s);
    SortSorts(a, leq);
    a := Sort(a, leq);
    SameElementsList(a, s);
  }
}
