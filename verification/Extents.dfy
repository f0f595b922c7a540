/** Half-open address ranges, and how often a list of them covers an address.

    Coverage counts turn every claim about overlap, gaps and lost bytes into
    additive arithmetic: moving a range from one list to another moves exactly
    its own addresses. */
module Extents {

  datatype Extent = Extent(base: int, size: int) {
    function End(): int {
      base + size
    }

    predicate Holds(a: int) {
      base <= a < base + size
    }
  }

  function At(e: Extent, a: int): nat {
    if e.Holds(a) then 1 else 0
  }

  /** How many extents of the list contain address a. */
  function Cover(es: seq<Extent>, a: int): nat {
    if es == [] then 0 else At(es[0], a) + Cover(es[1..], a)
  }

  /** Sum of the sizes. */
  function Total(es: seq<Extent>): int {
    if es == [] then 0 else es[0].size + Total(es[1..])
  }

  /** The list without its i-th element; an index outside the list removes nothing. */
  function Drop<T>(s: seq<T>, i: int): seq<T> {
    if 0 <= i < |s| then s[..i] + s[i + 1..] else s
  }

  lemma DropTakesOne<T>(s: seq<T>, i: nat)
    requires i < |s|
    ensures multiset(s) == multiset(Drop(s, i)) + multiset{s[i]}
  {
    assert s == s[..i] + ([s[i]] + s[i + 1..]);
  }

  ghost predicate AllPositive(es: seq<Extent>) {
    forall e :: e in es ==> e.size > 0
  }

  /** No address lies in two list positions. */
  ghost predicate Disjoint(es: seq<Extent>) {
    forall a :: Cover(es, a) <= 1
  }

  /** No extent ends where another one starts. */
  ghost predicate Apart(es: seq<Extent>) {
    forall x, y :: x in es && y in es ==> x.End() != y.base
  }

  lemma {:induction false} CoverConcat(x: seq<Extent>, y: seq<Extent>, a: int)
    ensures Cover(x + y, a) == Cover(x, a) + Cover(y, a)
  {
    if x == [] {
      assert x + y == y;
    } else {
      assert (x + y)[1..] == x[1..] + y;
      CoverConcat(x[1..], y, a);
    }
  }

  lemma {:induction false} TotalConcat(x: seq<Extent>, y: seq<Extent>)
    ensures Total(x + y) == Total(x) + Total(y)
  {
    if x == [] {
      assert x + y == y;
    } else {
      assert (x + y)[1..] == x[1..] + y;
      TotalConcat(x[1..], y);
    }
  }

  lemma CoverAppend(es: seq<Extent>, e: Extent, a: int)
    ensures Cover(es + [e], a) == Cover(es, a) + At(e, a)
  {
    CoverConcat(es, [e], a);
  }

  lemma CoverDrop(es: seq<Extent>, i: nat, a: int)
    requires i < |es|
    ensures Cover(es, a) == Cover(Drop(es, i), a) + At(es[i], a)
  {
    assert es == es[..i] + ([es[i]] + es[i + 1..]);
    CoverConcat(es[..i], [es[i]] + es[i + 1..], a);
    CoverConcat([es[i]], es[i + 1..], a);
    CoverConcat(es[..i], es[i + 1..], a);
  }

  /** Replacing one extent exchanges its addresses for the new one's. */
  lemma CoverUpdate(es: seq<Extent>, i: nat, e: Extent, a: int)
    requires i < |es|
    ensures Cover(es[i := e], a) + At(es[i], a) == Cover(es, a) + At(e, a)
  {
    CoverDrop(es, i, a);
    CoverDrop(es[i := e], i, a);
    assert Drop(es[i := e], i) == Drop(es, i);
  }

  lemma CoverMember(es: seq<Extent>, i: nat, a: int)
    requires i < |es| && es[i].Holds(a)
    ensures Cover(es, a) >= 1
  {
    CoverDrop(es, i, a);
  }

  /** A covered address lies in some extent of the list. */
  lemma {:induction false} CoverWitness(es: seq<Extent>, a: int) returns (i: nat)
    requires Cover(es, a) >= 1
    ensures i < |es| && es[i].Holds(a)
  {
    if es[0].Holds(a) {
      i := 0;
    } else {
      var j := CoverWitness(es[1..], a);
      i := j + 1;
    }
  }

  /** Two list positions holding the same address cover it at least twice. */
  lemma CoverTwice(es: seq<Extent>, i: nat, j: nat, a: int)
    requires i < j < |es| && es[i].Holds(a) && es[j].Holds(a)
    ensures Cover(es, a) >= 2
  {
    CoverDrop(es, j, a);
    assert Drop(es, j)[i] == es[i];
    CoverMember(Drop(es, j), i, a);
  }

  /** In a disjoint list, an address singles out one list element. */
  lemma SharedAddress(es: seq<Extent>, x: Extent, y: Extent, a: int)
    requires Cover(es, a) <= 1
    requires x in es && y in es && x.Holds(a) && y.Holds(a)
    ensures x == y
  {
    var i :| 0 <= i < |es| && es[i] == x;
    var j :| 0 <= j < |es| && es[j] == y;
    if i < j {
      CoverTwice(es, i, j, a);
    } else if j < i {
      CoverTwice(es, j, i, a);
    }
  }

  lemma DropKeepsForm(es: seq<Extent>, i: int)
    requires Disjoint(es) && AllPositive(es)
    ensures Disjoint(Drop(es, i)) && AllPositive(Drop(es, i))
    ensures forall g :: g in Drop(es, i) ==> g in es
    ensures 0 <= i < |es| ==> es[i] !in Drop(es, i)
  {
    if 0 <= i < |es| {
      forall a ensures Cover(Drop(es, i), a) <= 1 {
        CoverDrop(es, i, a);
        assert Cover(es, a) <= 1;
      }
      assert es[i] in es;
      if es[i] in Drop(es, i) {
        var j :| 0 <= j < |Drop(es, i)| && Drop(es, i)[j] == es[i];
        CoverDrop(es, i, es[i].base);
        CoverMember(Drop(es, i), j, es[i].base);
      }
    }
  }

  /** Addresses counted below n, with multiplicity. */
  function CoverBelow(es: seq<Extent>, n: nat): nat {
    if n == 0 then 0 else CoverBelow(es, n - 1) + Cover(es, n - 1)
  }

  lemma {:induction false} CoverBelowSplit(es: seq<Extent>, n: nat)
    requires es != []
    ensures CoverBelow(es, n) == CoverBelow([es[0]], n) + CoverBelow(es[1..], n)
  {
    if n > 0 {
      CoverBelowSplit(es, n - 1);
      assert [es[0]] + es[1..] == es;
      CoverConcat([es[0]], es[1..], n - 1);
    }
  }

  lemma {:induction false} CoverBelowOne(e: Extent, n: nat)
    requires e.base >= 0 && e.size >= 0
    ensures CoverBelow([e], n) ==
            if n <= e.base then 0 else if n <= e.End() then n - e.base else e.size
  {
    if n > 0 {
      CoverBelowOne(e, n - 1);
      CoverConcat([e], [], n - 1);
      assert [e] + [] == [e];
    }
  }

  /** When every extent lies within [0, n), the sizes add up to the addresses covered. */
  lemma {:induction false} TotalCountsAddresses(es: seq<Extent>, n: nat)
    requires forall i :: 0 <= i < |es| ==> 0 <= es[i].base && 0 <= es[i].size && es[i].End() <= n
    ensures Total(es) == CoverBelow(es, n)
  {
    if es == [] {
      EmptyCoverBelow(n);
    } else {
      CoverBelowSplit(es, n);
      CoverBelowOne(es[0], n);
      TotalCountsAddresses(es[1..], n);
    }
  }

  lemma EmptyCoverBelow(n: nat)
    ensures CoverBelow([], n) == 0
  {
  }
}
