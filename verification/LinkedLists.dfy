/** The singly linked list with its removing iterator (utils/collections/list.c), as nodes on the
    heap. A slot is a place that holds a node reference: the list's head or some node's next. */
module LinkedLists {
  import opened Options

  class Node<T> {
    const data: T
    var next: Node?<T>

    constructor (data: T, next: Node?<T>)
      ensures this.data == data && this.next == next
    {
      this.data := data;
      this.next := next;
    }
  }

  datatype Slot<T> = Head | After(node: Node<T>)

  // ---------- what the operations do to the contents ----------

  function Values<T>(nodes: seq<Node<T>>): (r: seq<T>)
    ensures |r| == |nodes| && forall k :: 0 <= k < |nodes| ==> r[k] == nodes[k].data
  {
    seq(|nodes|, k requires 0 <= k < |nodes| => nodes[k].data)
  }

  function Insert<T>(l: seq<T>, i: nat, x: T): seq<T>
    requires i <= |l|
  {
    l[..i] + [x] + l[i..]
  }

  function Delete<T>(l: seq<T>, i: nat): seq<T>
    requires i < |l|
  {
    l[..i] + l[i + 1..]
  }

  /** Where x goes: in front of the first element it belongs before. */
  function SortedIndex<T>(l: seq<T>, x: T, before: (T, T) -> bool): (i: nat)
    ensures i <= |l|
    ensures forall k :: 0 <= k < i ==> !before(x, l[k])
    ensures i < |l| ==> before(x, l[i])
  {
    if l == [] || before(x, l[0]) then 0 else 1 + SortedIndex(l[1..], x, before)
  }

  /** Those of the first k elements whose flag is set, in order. */
  function Kept<T>(l: seq<T>, keep: seq<bool>, k: nat): seq<T>
    requires |keep| == |l| && k <= |l|
  {
    if k == 0 then [] else Kept(l, keep, k - 1) + if keep[k - 1] then [l[k - 1]] else []
  }

  ghost predicate Ordered<T(!new)>(l: seq<T>, le: (T, T) -> bool) {
    forall i, j :: 0 <= i < j < |l| ==> le(l[i], l[j])
  }

  /** A comparator that decides a total order one way or the other keeps the list ordered. */
  lemma SortedInsertionKeepsOrder<T(!new)>(l: seq<T>, x: T, before: (T, T) -> bool, le: (T, T) -> bool)
    requires Ordered(l, le)
    requires forall a, b, c :: le(a, b) && le(b, c) ==> le(a, c)
    requires forall a, b :: if before(a, b) then le(a, b) else le(b, a)
    ensures Ordered(Insert(l, SortedIndex(l, x, before), x), le)
  {
    var i := SortedIndex(l, x, before);
    forall k | 0 <= k < |l| ensures if k < i then le(l[k], x) else le(x, l[k]) {
      if k >= i {
        assert le(x, l[i]);
        if k > i { assert le(l[i], l[k]); }
      }
    }
  }

  class LinkedList<T(==)> {
    var head: Node?<T>
    var elementsCount: int
    ghost var nodes: seq<Node<T>>

    ghost predicate Valid()
      reads this, nodes
    {
      && elementsCount == |nodes|
      && (forall i, j :: 0 <= i < j < |nodes| ==> nodes[i] != nodes[j])
      && head == NodeAt(0)
      && forall i {:trigger Linked(i)} :: 0 <= i < |nodes| ==> Linked(i)
    }

    /** The i-th node leads to the next one. */
    ghost predicate Linked(i: nat)
      requires i < |nodes|
      reads this, nodes
    {
      nodes[i].next == NodeAt(i + 1)
    }

    ghost function NodeAt(i: nat): Node?<T>
      reads this
    {
      if i < |nodes| then nodes[i] else null
    }

    ghost function Contents(): (l: seq<T>)
      reads this, nodes
      ensures |l| == |nodes|
    {
      Values(nodes)
    }

    /** The slot that holds the i-th node. */
    ghost function SlotAt(i: nat): Slot<T>
      requires i <= |nodes|
      reads this
    {
      if i == 0 then Head else After(nodes[i - 1])
    }

    function Deref(slot: Slot<T>): Node?<T>
      reads this, if slot.After? then {slot.node} else {}
    {
      match slot
      case Head => head
      case After(node) => node.next
    }

    /** The slot in front of the i-th node holds it. */
    lemma SlotHolds(slot: Slot<T>, i: nat)
      requires Valid() && i <= |nodes| && slot == SlotAt(i)
      ensures Deref(slot) == NodeAt(i)
    {
      if i > 0 { assert Linked(i - 1); }
    }

    constructor ()
      ensures Valid() && Contents() == [] && fresh(nodes)
    {
      head := null;
      elementsCount := 0;
      nodes := [];
    }

    /** *slot = node. */
    method Assign(slot: Slot<T>, node: Node?<T>)
      modifies if slot.Head? then {this} else {}, if slot.After? then {slot.node} else {}
      ensures slot.Head? ==> head == node && elementsCount == old(elementsCount) && nodes == old(nodes)
      ensures slot.After? ==> slot.node.next == node
    {
      match slot {
        case Head => head := node;
        case After(n) => n.next := node;
      }
    }

    method Link(slot: Slot<T>, ghost i: nat, element: Node<T>)
      requires Valid() && i <= |nodes| && slot == SlotAt(i) && element !in nodes && element.next == NodeAt(i)
      modifies this, nodes
      ensures Valid() && nodes == Insert(old(nodes), i, element)
    {
      ghost var ns := nodes;
      Assign(slot, element);
      elementsCount := elementsCount + 1;
      nodes := Insert(ns, i, element);
      forall k | 0 <= k < |nodes| ensures Linked(k) {
        if k < i {
          assert nodes[k] == ns[k] && old(Linked(k));
        } else if k > i {
          assert nodes[k] == ns[k - 1] && old(Linked(k - 1));
        }
      }
    }

    method InsertAt(slot: Slot<T>, ghost i: nat, x: T)
      requires Valid() && i <= |nodes| && slot == SlotAt(i)
      modifies this, nodes
      ensures Valid() && Contents() == Insert(old(Contents()), i, x)
    {
      SlotHolds(slot, i);
      var element := new Node(x, Deref(slot));
      Link(slot, i, element);
      assert Contents() == Insert(old(Contents()), i, x);
    }

    method RemoveAt(slot: Slot<T>, ghost i: nat) returns (data: T)
      requires Valid() && i < |nodes| && slot == SlotAt(i)
      modifies this, nodes
      ensures Valid() && nodes == Delete(old(nodes), i)
      ensures data == old(Contents())[i] && Contents() == Delete(old(Contents()), i)
    {
      ghost var ns, l := nodes, Contents();
      SlotHolds(slot, i);
      assert Linked(i);
      var removed: Node<T> := Deref(slot);
      data := removed.data;
      Assign(slot, removed.next);
      elementsCount := elementsCount - 1;
      nodes := Delete(ns, i);
      forall k | 0 <= k < |nodes| ensures Linked(k) {
        if k < i {
          assert nodes[k] == ns[k] && old(Linked(k));
        } else {
          assert nodes[k] == ns[k + 1] && old(Linked(k + 1));
        }
      }
      assert Contents() == Delete(l, i);
    }

    method AddSorted(x: T, before: (T, T) -> bool) returns (index: nat)
      requires Valid()
      modifies this, nodes
      ensures Valid() && index == SortedIndex(old(Contents()), x, before)
      ensures Contents() == Insert(old(Contents()), index, x)
    {
      var slot: Slot<T> := Head;
      index := 0;
      ghost var l := Contents();
      var element := Deref(slot);
      while element != null && !before(x, element.data)
        invariant Valid() && nodes == old(nodes) && Contents() == l
        invariant index <= |nodes| && slot == SlotAt(index) && element == NodeAt(index)
        invariant SortedIndex(l, x, before) == index + SortedIndex(l[index..], x, before)
        decreases |nodes| - index
      {
        assert l[index..][1..] == l[index + 1..];
        slot := After(element);
        index := index + 1;
        SlotHolds(slot, index);
        element := Deref(slot);
      }
      InsertAt(slot, index, x);
    }

    /** list_get_slot. */
    method GetSlot(index: int) returns (slot: Slot<T>)
      requires Valid()
      ensures var i := if index < 0 then 0 else if index > |nodes| then |nodes| else index; slot == SlotAt(i)
    {
      slot := Head;
      var i := 0;
      var element := Deref(slot);
      while i < index && element != null
        invariant 0 <= i <= |nodes| && slot == SlotAt(i) && element == NodeAt(i) && (i <= index || i == 0)
        decreases |nodes| - i
      {
        slot := After(element);
        i := i + 1;
        SlotHolds(slot, i);
        element := Deref(slot);
      }
    }

    method Add(x: T) returns (index: int)
      requires Valid()
      modifies this, nodes
      ensures Valid() && index == |old(Contents())| && Contents() == old(Contents()) + [x]
    {
      var slot := GetSlot(elementsCount);
      index := elementsCount;
      InsertAt(slot, |nodes|, x);
    }

    /** An index outside the list, as in an empty list, removes nothing. */
    method Remove(index: int) returns (data: Option<T>)
      requires Valid()
      modifies this, nodes
      ensures Valid()
      ensures if 0 <= index < |old(Contents())|
              then data == Some(old(Contents())[index]) && Contents() == Delete(old(Contents()), index)
              else data == None && Contents() == old(Contents())
    {
      if index < 0 || index >= elementsCount {
        return None;
      }
      var slot := GetSlot(index);
      var removed := RemoveAt(slot, index);
      data := Some(removed);
    }

    method RemoveElement(x: T) returns (found: bool)
      requires Valid()
      modifies this, nodes
      ensures Valid() && found == (x in old(Contents()))
      ensures if found then exists i :: 0 <= i < |old(Contents())| && old(Contents())[i] == x
                                        && x !in old(Contents())[..i] && Contents() == Delete(old(Contents()), i)
              else Contents() == old(Contents())
    {
      var slot: Slot<T> := Head;
      ghost var i := 0;
      var element := Deref(slot);
      while element != null
        invariant 0 <= i <= |nodes| && slot == SlotAt(i) && element == NodeAt(i)
        invariant x !in Contents()[..i]
        invariant nodes == old(nodes) && Valid() && Contents() == old(Contents())
        decreases |nodes| - i
      {
        if element.data == x {
          assert Contents()[i] == x;
          var _ := RemoveAt(slot, i);
          return true;
        }
        assert Contents()[..i + 1] == Contents()[..i] + [Contents()[i]];
        slot := After(element);
        i := i + 1;
        SlotHolds(slot, i);
        element := Deref(slot);
      }
      assert Contents()[..i] == Contents();
      found := false;
    }
  }

  /** A cursor over a list that may remove the element it returned last. */
  class ListCursor<T(==)> {
    const list: LinkedList<T>
    var current: Slot<T>
    var next: Slot<T>
    var index: int
    /** Whether the element at current was returned and is still there. */
    ghost var onElement: bool

    /** The cursor stands in front of element pos of its list. */
    ghost predicate At(pos: nat)
      reads this, list, list.nodes
    {
      && list.Valid() && pos <= |list.nodes| && index == pos - 1
      && next == list.SlotAt(pos)
      && (onElement ==> pos > 0 && current == list.SlotAt(pos - 1))
    }

    constructor (list: LinkedList<T>)
      requires list.Valid()
      ensures this.list == list && At(0) && !onElement
    {
      this.list := list;
      current, next, index := Head, Head, -1;
      onElement := false;
    }

    function HasNext(): bool
      reads this, list, if next.After? then {next.node} else {}
    {
      list.Deref(next) != null
    }

    lemma HasNextIff(pos: nat)
      requires At(pos)
      ensures HasNext() <==> pos < |list.Contents()|
    {
      list.SlotHolds(next, pos);
    }

    method Next(ghost pos: nat) returns (data: T)
      requires At(pos) && pos < |list.Contents()|
      modifies this
      ensures At(pos + 1) && onElement && data == list.Contents()[pos]
    {
      current := next;
      index := index + 1;
      list.SlotHolds(current, pos);
      var element: Node<T> := list.Deref(current);
      next := After(element);
      data := element.data;
      onElement := true;
    }

    method Remove(ghost pos: nat)
      requires At(pos) && onElement
      modifies this, list, list.nodes
      ensures At(pos - 1) && !onElement && list.nodes == Delete(old(list.nodes), pos - 1)
      ensures list.Contents() == Delete(old(list.Contents()), pos - 1)
    {
      var _ := list.RemoveAt(current, pos - 1);
      next := current;
      index := index - 1;
      onElement := false;
    }
  }

  /** The list after the first k elements of l were visited and those without a flag removed. */
  function Midway<T>(l: seq<T>, keep: seq<bool>, k: nat): seq<T>
    requires |keep| == |l| && k <= |l|
  {
    Kept(l, keep, k) + l[k..]
  }

  lemma MidwayStep<T>(l: seq<T>, keep: seq<bool>, k: nat)
    requires |keep| == |l| && k < |l|
    ensures var now, pos := Midway(l, keep, k), |Kept(l, keep, k)|;
            && pos < |now| && now[pos] == l[k]
            && Midway(l, keep, k + 1) == (if keep[k] then now else Delete(now, pos))
            && |Kept(l, keep, k + 1)| == if keep[k] then pos + 1 else pos
  {
    var f, now := Kept(l, keep, k), Midway(l, keep, k);
    assert l[k..] == [l[k]] + l[k + 1..];
    if keep[k] {
      assert (f + [l[k]]) + l[k + 1..] == now;
    } else {
      assert f + l[k + 1..] == Delete(now, |f|);
    }
  }

  lemma MidwayEnds<T>(l: seq<T>, keep: seq<bool>, k: nat)
    requires |keep| == |l| && k <= |l|
    ensures |Kept(l, keep, k)| < |Midway(l, keep, k)| <==> k < |l|
    ensures k == |l| ==> Midway(l, keep, k) == Kept(l, keep, |l|)
  {
    if k == |l| { assert l[k..] == []; }
  }

  /** One round of a removing iteration: the k-th element of l is visited, and removed unless it is
      to be kept. The list's nodes are in footprint. */
  method VisitNext<T(==)>(list: LinkedList<T>, cursor: ListCursor<T>, keepIt: bool, ghost l: seq<T>,
                          ghost keep: seq<bool>, ghost k: nat, ghost footprint: set<Node<T>>) returns (data: T)
    requires |keep| == |l| && k < |l| && keepIt == keep[k]
    requires cursor.list == list && cursor.At(|Kept(l, keep, k)|) && list.Contents() == Midway(l, keep, k)
    requires forall n :: n in list.nodes ==> n in footprint
    modifies cursor, list, footprint
    ensures data == l[k]
    ensures cursor.At(|Kept(l, keep, k + 1)|) && list.Contents() == Midway(l, keep, k + 1)
    ensures forall n :: n in list.nodes ==> n in footprint
  {
    ghost var pos := |Kept(l, keep, k)|;
    MidwayStep(l, keep, k);
    data := cursor.Next(pos);
    if !keepIt {
      DeletedMembers(list.nodes, pos);
      cursor.Remove(pos + 1);
    }
  }

  lemma DeletedMembers<T>(l: seq<T>, i: nat)
    requires i < |l|
    ensures forall x :: x in Delete(l, i) ==> x in l
  {
  }

  lemma PrefixGrows<T>(l: seq<T>, k: nat)
    requires k < |l|
    ensures l[..k] + [l[k]] == l[..k + 1]
  {
  }

  /** Removing while iterating: every element is visited exactly once, in order, and exactly those
      whose flag is not set are gone afterwards, whatever the flags. */
  method RemoveWhileIterating<T(==)>(list: LinkedList<T>, keep: seq<bool>) returns (visited: seq<T>)
    requires list.Valid() && |keep| == |list.Contents()|
    modifies list, list.nodes
    ensures list.Valid() && visited == old(list.Contents())
    ensures list.Contents() == Kept(old(list.Contents()), keep, |keep|)
  {
    var cursor := new ListCursor(list);
    var k := 0;
    visited := [];
    ghost var l, footprint := list.Contents(), set n | n in list.nodes;
    while cursor.HasNext()
      invariant k <= |l| && visited == l[..k] && cursor.list == list && fresh(cursor)
      invariant cursor.At(|Kept(l, keep, k)|) && list.Contents() == Midway(l, keep, k)
      invariant forall n :: n in list.nodes ==> n in footprint
      decreases |l| - k
    {
      MidwayEnds(l, keep, k);
      cursor.HasNextIff(|Kept(l, keep, k)|);
      PrefixGrows(l, k);
      var data := VisitNext(list, cursor, keep[k], l, keep, k, footprint);
      visited := visited + [data];
      k := k + 1;
    }
    cursor.HasNextIff(|Kept(l, keep, k)|);
    MidwayEnds(l, keep, k);
  }
}
