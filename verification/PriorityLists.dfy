/** Sorted insertion and removal as the scheduler's lists do it (list.c list_add_sorted, mutex.c
    remove_priority_list and remove_pcb_list), on sequences. */
module PriorityLists {

  ghost predicate Sorted(l: seq<int>) {
    forall i, j :: 0 <= i < j < |l| ==> l[i] <= l[j]
  }

  /** The position where x goes: before the first strictly greater value. */
  function PriorityIndex(l: seq<int>, x: int): (i: nat)
    ensures i <= |l|
  {
    if l == [] || x < l[0] then 0 else 1 + PriorityIndex(l[1..], x)
  }

  function AddPriority(l: seq<int>, x: int): seq<int> {
    l[..PriorityIndex(l, x)] + [x] + l[PriorityIndex(l, x)..]
  }

  /** The position of the first occurrence of x, or the length of the list. */
  function IndexOf<T(==)>(l: seq<T>, x: T): (i: nat)
    ensures i <= |l|
    ensures i < |l| ==> l[i] == x
    ensures i < |l| <==> x in l
  {
    if l == [] || l[0] == x then 0 else 1 + IndexOf(l[1..], x)
  }

  /** The list without its first occurrence of x. */
  function RemoveFirst<T(==)>(l: seq<T>, x: T): seq<T> {
    var i := IndexOf(l, x);
    if i == |l| then l else l[..i] + l[i + 1..]
  }

  lemma {:induction false} PriorityIndexSpec(l: seq<int>, x: int)
    requires Sorted(l)
    ensures forall k :: 0 <= k < PriorityIndex(l, x) ==> l[k] <= x
    ensures forall k :: PriorityIndex(l, x) <= k < |l| ==> x < l[k]
  {
    if l != [] && l[0] <= x {
      PriorityIndexSpec(l[1..], x);
      forall k | 0 <= k < |l| ensures if k < PriorityIndex(l, x) then l[k] <= x else x < l[k] {
        if k > 0 { assert l[1..][k - 1] == l[k]; }
      }
    }
  }

  lemma AddPriorityLaws(l: seq<int>, x: int)
    requires Sorted(l)
    ensures Sorted(AddPriority(l, x)) && AddPriority(l, x) != []
    ensures multiset(AddPriority(l, x)) == multiset(l) + multiset{x}
    ensures AddPriority(l, x)[0] == if l == [] || x < l[0] then x else l[0]
  {
    PriorityIndexSpec(l, x);
    var i := PriorityIndex(l, x);
    assert l == l[..i] + l[i..];
    SortedAround(l, i, x);
  }

  lemma SortedAround(l: seq<int>, i: nat, x: int)
    requires Sorted(l) && i <= |l|
    requires (forall k :: 0 <= k < i ==> l[k] <= x) && forall k :: i <= k < |l| ==> x <= l[k]
    ensures Sorted(l[..i] + [x] + l[i..])
  {
    var l' := l[..i] + [x] + l[i..];
    forall k | 0 <= k < |l'| ensures l'[k] == if k < i then l[k] else if k == i then x else l[k - 1] {
    }
  }

  lemma RemoveFirstCounts(l: seq<int>, x: int)
    ensures multiset(RemoveFirst(l, x)) == multiset(l) - multiset{x}
  {
    var i := IndexOf(l, x);
    if i < |l| {
      var front, back := l[..i], l[i + 1..];
      assert l == front + ([x] + back);
      assert multiset(l) == multiset(front) + multiset([x] + back);
      assert multiset([x] + back) == multiset{x} + multiset(back);
      assert multiset(front + back) == multiset(front) + multiset(back);
    } else {
      assert multiset(l)[x] == 0;
    }
  }

  lemma RemoveFirstSorted(l: seq<int>, x: int)
    requires Sorted(l)
    ensures Sorted(RemoveFirst(l, x))
  {
  }

  lemma RemovedMembers<T>(l: seq<T>, x: T)
    ensures forall w :: w in RemoveFirst(l, x) ==> w in l
  {
    var i, r := IndexOf(l, x), RemoveFirst(l, x);
    forall w | w in r ensures w in l {
      var k :| 0 <= k < |r| && r[k] == w;
      assert r[k] == l[if k < i then k else k + 1];
    }
  }

  /** In a list without duplicates, removal takes out exactly the one element. */
  lemma RemoveFirstMembers(l: seq<nat>, x: nat, w: nat)
    requires NoDuplicates(l)
    ensures w in RemoveFirst(l, x) <==> w in l && w != x
  {
    var i := IndexOf(l, x);
    if i < |l| {
      var rest := l[..i] + l[i + 1..];
      if w in l && w != x {
        var k :| 0 <= k < |l| && l[k] == w;
        assert rest[if k < i then k else k - 1] == w;
      }
      if w in rest {
        var k :| 0 <= k < |rest| && rest[k] == w;
        assert l[if k < i then k else k + 1] == w;
      }
    }
  }

  // ---------- process lists ordered by priority ----------

  /** Best priority (smallest number) first. */
  ghost predicate SortedBy(ws: seq<nat>, prio: map<nat, int>)
    requires forall w :: w in ws ==> w in prio
  {
    forall i, j :: 0 <= i < j < |ws| ==> prio[ws[i]] <= prio[ws[j]]
  }

  ghost predicate NoDuplicates<T>(l: seq<T>) {
    forall i, j :: 0 <= i < j < |l| ==> l[i] != l[j]
  }

  /** Where a process goes: before the first one whose priority is not better, so that among
      equals the newest comes first. */
  function WaiterIndex(ws: seq<nat>, x: int, prio: map<nat, int>): (i: nat)
    requires forall w :: w in ws ==> w in prio
    ensures i <= |ws|
  {
    if ws == [] || x <= prio[ws[0]] then 0 else 1 + WaiterIndex(ws[1..], x, prio)
  }

  function AddWaiter(ws: seq<nat>, p: nat, x: int, prio: map<nat, int>): seq<nat>
    requires forall w :: w in ws ==> w in prio
  {
    ws[..WaiterIndex(ws, x, prio)] + [p] + ws[WaiterIndex(ws, x, prio)..]
  }

  lemma AddedMembers(ws: seq<nat>, p: nat, x: int, prio: map<nat, int>)
    requires forall w :: w in ws ==> w in prio
    ensures forall w :: w in AddWaiter(ws, p, x, prio) ==> w in ws || w == p
  {
  }

  lemma {:induction false} WaiterIndexSpec(ws: seq<nat>, x: int, prio: map<nat, int>)
    requires forall w :: w in ws ==> w in prio
    requires SortedBy(ws, prio)
    ensures forall k :: 0 <= k < WaiterIndex(ws, x, prio) ==> prio[ws[k]] < x
    ensures forall k :: WaiterIndex(ws, x, prio) <= k < |ws| ==> x <= prio[ws[k]]
  {
    if ws != [] && prio[ws[0]] < x {
      WaiterIndexSpec(ws[1..], x, prio);
      forall k | 0 <= k < |ws| ensures if k < WaiterIndex(ws, x, prio) then prio[ws[k]] < x else x <= prio[ws[k]] {
        if k > 0 { assert ws[1..][k - 1] == ws[k]; }
      }
    }
  }

  lemma InsertedMembers(ws: seq<nat>, i: nat, p: nat)
    requires i <= |ws|
    ensures forall w :: w in ws[..i] + [p] + ws[i..] <==> w in ws || w == p
  {
    assert ws == ws[..i] + ws[i..];
  }

  lemma InsertedDistinct(ws: seq<nat>, i: nat, p: nat)
    requires i <= |ws| && NoDuplicates(ws) && p !in ws
    ensures NoDuplicates(ws[..i] + [p] + ws[i..])
  {
    var r := ws[..i] + [p] + ws[i..];
    forall k | 0 <= k < |r| ensures r[k] == if k < i then ws[k] else if k == i then p else ws[k - 1] {}
  }

  lemma InsertedSorted(ws: seq<nat>, i: nat, p: nat, prio: map<nat, int>)
    requires i <= |ws| && p in prio && (forall w :: w in ws ==> w in prio) && SortedBy(ws, prio)
    requires forall k :: 0 <= k < i ==> prio[ws[k]] <= prio[p]
    requires forall k :: i <= k < |ws| ==> prio[p] <= prio[ws[k]]
    ensures var r := ws[..i] + [p] + ws[i..]; (forall w :: w in r ==> w in prio) && SortedBy(r, prio)
  {
    var r := ws[..i] + [p] + ws[i..];
    InsertedMembers(ws, i, p);
    forall k | 0 <= k < |r| ensures r[k] == if k < i then ws[k] else if k == i then p else ws[k - 1] {}
  }

  lemma AddWaiterLaws(ws: seq<nat>, p: nat, x: int, prio: map<nat, int>)
    requires forall w :: w in ws ==> w in prio
    requires SortedBy(ws, prio) && NoDuplicates(ws) && p !in ws && p in prio && prio[p] == x
    ensures var ws' := AddWaiter(ws, p, x, prio);
            && (forall w :: w in ws' <==> w in ws || w == p)
            && SortedBy(ws', prio) && NoDuplicates(ws') && |ws'| == |ws| + 1
            && (if WaiterIndex(ws, x, prio) == 0 then ws'[0] == p else ws != [] && ws'[0] == ws[0])
  {
    WaiterIndexSpec(ws, x, prio);
    var i := WaiterIndex(ws, x, prio);
    InsertedMembers(ws, i, p);
    InsertedDistinct(ws, i, p);
    InsertedSorted(ws, i, p, prio);
  }

  lemma RemoveWaiterLaws(ws: seq<nat>, p: nat, prio: map<nat, int>)
    requires forall w :: w in ws ==> w in prio
    requires SortedBy(ws, prio) && NoDuplicates(ws) && p in ws
    ensures var rest := RemoveFirst(ws, p);
            && (forall w :: w in rest <==> w in ws && w != p)
            && SortedBy(rest, prio) && NoDuplicates(rest) && |rest| == |ws| - 1
            && (ws[0] != p ==> rest != [] && rest[0] == ws[0])
  {
    forall w ensures w in RemoveFirst(ws, p) <==> w in ws && w != p {
      RemoveFirstMembers(ws, p, w);
    }
    var i, rest := IndexOf(ws, p), RemoveFirst(ws, p);
    forall k | 0 <= k < |rest| ensures rest[k] == ws[if k < i then k else k + 1] {}
  }

  // ---------- arrival order ----------

  /** A newcomer goes last if and only if everybody who is there is strictly better. */
  lemma {:induction false} InsertedLastIff(ws: seq<nat>, x: int, prio: map<nat, int>)
    requires forall w :: w in ws ==> w in prio
    ensures WaiterIndex(ws, x, prio) == |ws| <==> forall w :: w in ws ==> prio[w] < x
  {
    if ws != [] {
      InsertedLastIff(ws[1..], x, prio);
      assert ws[0] in ws;
      assert forall w :: w in ws ==> w == ws[0] || w in ws[1..];
      assert forall w :: w in ws[1..] ==> w in ws;
    }
  }

  /** The list that processes form when they arrive one after another. */
  function Queued(arrivals: seq<nat>, prio: map<nat, int>): (ws: seq<nat>)
    requires forall w :: w in arrivals ==> w in prio
    ensures forall w :: w in ws ==> w in arrivals
  {
    if arrivals == [] then []
    else
      var n := |arrivals| - 1;
      var front := Queued(arrivals[..n], prio);
      AddedMembers(front, arrivals[n], prio[arrivals[n]], prio);
      AddWaiter(front, arrivals[n], prio[arrivals[n]], prio)
  }

  lemma {:induction false} QueuedMembers(arrivals: seq<nat>, prio: map<nat, int>)
    requires forall w :: w in arrivals ==> w in prio
    ensures |Queued(arrivals, prio)| == |arrivals|
    ensures forall w :: w in arrivals ==> w in Queued(arrivals, prio)
  {
    if arrivals != [] {
      var n := |arrivals| - 1;
      QueuedMembers(arrivals[..n], prio);
      var front := Queued(arrivals[..n], prio);
      InsertedMembers(front, WaiterIndex(front, prio[arrivals[n]], prio), arrivals[n]);
      assert arrivals == arrivals[..n] + [arrivals[n]];
    }
  }

  /** The list ws after more arrivals. */
  function QueuedBehind(ws: seq<nat>, arrivals: seq<nat>, prio: map<nat, int>): seq<nat>
    requires (forall w :: w in ws ==> w in prio) && (forall w :: w in arrivals ==> w in prio)
    decreases |arrivals|
  {
    if arrivals == [] then ws
    else
      AddedMembers(ws, arrivals[0], prio[arrivals[0]], prio);
      QueuedBehind(AddWaiter(ws, arrivals[0], prio[arrivals[0]], prio), arrivals[1..], prio)
  }

  lemma {:induction false} QueuedInTwo(x: seq<nat>, y: seq<nat>, prio: map<nat, int>)
    requires (forall w :: w in x ==> w in prio) && (forall w :: w in y ==> w in prio)
    ensures QueuedBehind(Queued(x, prio), y, prio) == Queued(x + y, prio)
    decreases |y|
  {
    if y == [] {
      assert x + y == x;
    } else {
      assert (x + [y[0]])[..|x|] == x;
      assert x + y == (x + [y[0]]) + y[1..];
      QueuedInTwo(x + [y[0]], y[1..], prio);
    }
  }

  lemma QueuedFromNothing(arrivals: seq<nat>, prio: map<nat, int>)
    requires forall w :: w in arrivals ==> w in prio
    ensures QueuedBehind([], arrivals, prio) == Queued(arrivals, prio)
  {
    assert [] + arrivals == arrivals;
    QueuedInTwo([], arrivals, prio);
  }

  lemma {:induction false} WaiterIndexSame(ws: seq<nat>, x: int, prio: map<nat, int>, prio': map<nat, int>)
    requires forall w :: w in ws ==> w in prio && w in prio' && prio[w] == prio'[w]
    ensures WaiterIndex(ws, x, prio) == WaiterIndex(ws, x, prio')
  {
    if ws != [] {
      WaiterIndexSame(ws[1..], x, prio, prio');
    }
  }

  /** Only the priorities of those involved matter. */
  lemma {:induction false} QueuedBehindSame(ws: seq<nat>, arrivals: seq<nat>, prio: map<nat, int>, prio': map<nat, int>)
    requires forall w :: w in ws || w in arrivals ==> w in prio && w in prio' && prio[w] == prio'[w]
    ensures QueuedBehind(ws, arrivals, prio) == QueuedBehind(ws, arrivals, prio')
    decreases |arrivals|
  {
    if arrivals != [] {
      var p := arrivals[0];
      assert p in arrivals;
      WaiterIndexSame(ws, prio[p], prio, prio');
      AddedMembers(ws, p, prio[p], prio);
      assert forall w :: w in arrivals[1..] ==> w in arrivals;
      QueuedBehindSame(AddWaiter(ws, p, prio[p], prio), arrivals[1..], prio, prio');
    }
  }

  ghost predicate StrictlyWorsening(l: seq<nat>, prio: map<nat, int>)
    requires forall w :: w in l ==> w in prio
  {
    forall i, j :: 0 <= i < j < |l| ==> prio[l[i]] < prio[l[j]]
  }

  lemma WorseningEnd(front: seq<nat>, p: nat, prio: map<nat, int>)
    requires (forall w :: w in front ==> w in prio) && p in prio
    ensures StrictlyWorsening(front + [p], prio) <==>
              StrictlyWorsening(front, prio) && forall w :: w in front ==> prio[w] < prio[p]
  {
    var l := front + [p];
    if StrictlyWorsening(l, prio) {
      forall i, j | 0 <= i < j < |front| ensures prio[front[i]] < prio[front[j]] { assert l[i] == front[i] && l[j] == front[j]; }
      forall w | w in front ensures prio[w] < prio[p] {
        var i :| 0 <= i < |front| && front[i] == w;
        assert l[i] == w && l[|front|] == p;
      }
    }
    if StrictlyWorsening(front, prio) && forall w :: w in front ==> prio[w] < prio[p] {
      forall i, j | 0 <= i < j < |l| ensures prio[l[i]] < prio[l[j]] {
        if j == |front| { assert front[i] in front; }
      }
    }
  }

  /** An insertion that leaves a list with the newcomer at the end put it there. */
  lemma InsertedAtEnd(ws: seq<nat>, i: nat, p: nat, l: seq<nat>)
    requires i <= |ws| && p !in ws && |l| == |ws| && p !in l && ws[..i] + [p] + ws[i..] == l + [p]
    ensures i == |ws| && ws == l
  {
    var r := ws[..i] + [p] + ws[i..];
    assert r[i] == p;
    assert forall k :: 0 <= k < |l| ==> r[k] == l[k] && l[k] in l;
    assert ws == r[..|ws|] && l == (l + [p])[..|l|];
  }

  lemma QueuedLast(before: seq<nat>, p: nat, prio: map<nat, int>)
    requires (forall w :: w in before ==> w in prio) && p in prio
    ensures var front := Queued(before, prio);
            Queued(before + [p], prio) == AddWaiter(front, p, prio[p], prio)
  {
    assert (before + [p])[..|before|] == before;
  }

  lemma QueuedEnd(before: seq<nat>, p: nat, prio: map<nat, int>)
    requires (forall w :: w in before ==> w in prio) && p in prio && p !in before
    ensures Queued(before + [p], prio) == before + [p] <==>
              Queued(before, prio) == before && forall w :: w in before ==> prio[w] < prio[p]
  {
    var front := Queued(before, prio);
    var i := WaiterIndex(front, prio[p], prio);
    QueuedLast(before, p, prio);
    QueuedMembers(before, prio);
    InsertedLastIff(front, prio[p], prio);
    if Queued(before + [p], prio) == before + [p] {
      InsertedAtEnd(front, i, p, before);
    }
  }

  /** Different processes keep the order of their arrival if and only if each one is strictly worse
      than everybody before it. */
  lemma {:induction false} ArrivalOrderIff(arrivals: seq<nat>, prio: map<nat, int>)
    requires (forall w :: w in arrivals ==> w in prio) && NoDuplicates(arrivals)
    ensures Queued(arrivals, prio) == arrivals <==> StrictlyWorsening(arrivals, prio)
  {
    if arrivals != [] {
      var n := |arrivals| - 1;
      var before, p := arrivals[..n], arrivals[n];
      assert arrivals == before + [p];
      ArrivalOrderIff(before, prio);
      QueuedEnd(before, p, prio);
      WorseningEnd(before, p, prio);
    }
  }

  // ---------- ties ----------

  /** x has the better priority, or the same and arrived later. */
  predicate Ahead(x: nat, y: nat, arrivals: seq<nat>, prio: map<nat, int>)
    requires x in prio && y in prio
  {
    prio[x] < prio[y] || (prio[x] == prio[y] && IndexOf(arrivals, x) > IndexOf(arrivals, y))
  }

  /** Best priority first, and among equals the latest of the arrivals. */
  ghost predicate NewestFirst(l: seq<nat>, arrivals: seq<nat>, prio: map<nat, int>)
    requires forall w :: w in l ==> w in prio
  {
    forall i, j :: 0 <= i < j < |l| ==> Ahead(l[i], l[j], arrivals, prio)
  }

  lemma {:induction false} IndexInFront(l: seq<nat>, p: nat, w: nat)
    requires w in l
    ensures IndexOf(l + [p], w) == IndexOf(l, w)
  {
    if l[0] != w {
      assert (l + [p])[1..] == l[1..] + [p];
      IndexInFront(l[1..], p, w);
    }
  }

  lemma {:induction false} IndexAtEnd(l: seq<nat>, p: nat)
    requires p !in l
    ensures IndexOf(l + [p], p) == |l|
  {
    if l != [] {
      assert (l + [p])[1..] == l[1..] + [p];
      IndexAtEnd(l[1..], p);
    }
  }

  /** An arrival keeps the order: it comes before everybody that is not better. */
  lemma NewestInserted(front: seq<nat>, arrivals: seq<nat>, p: nat, prio: map<nat, int>)
    requires (forall w :: w in front ==> w in prio && w in arrivals) && p in prio && p !in arrivals
    requires NewestFirst(front, arrivals, prio)
    ensures forall w :: w in AddWaiter(front, p, prio[p], prio) ==> w in prio
    ensures NewestFirst(AddWaiter(front, p, prio[p], prio), arrivals + [p], prio)
  {
    var i, l, later := WaiterIndex(front, prio[p], prio), AddWaiter(front, p, prio[p], prio), arrivals + [p];
    AddedMembers(front, p, prio[p], prio);
    assert SortedBy(front, prio) by {
      forall a, b | 0 <= a < b < |front| ensures prio[front[a]] <= prio[front[b]] {
        assert Ahead(front[a], front[b], arrivals, prio);
      }
    }
    WaiterIndexSpec(front, prio[p], prio);
    forall a, b | 0 <= a < b < |l| ensures Ahead(l[a], l[b], later, prio) {
      InsertedPair(front, arrivals, p, i, a, b, prio);
    }
  }

  lemma InsertedPair(front: seq<nat>, arrivals: seq<nat>, p: nat, i: nat, a: nat, b: nat, prio: map<nat, int>)
    requires (forall w :: w in front ==> w in prio && w in arrivals) && p in prio && p !in arrivals
    requires i <= |front| && a < b <= |front| && NewestFirst(front, arrivals, prio)
    requires forall k :: 0 <= k < i ==> prio[front[k]] < prio[p]
    requires forall k :: i <= k < |front| ==> prio[p] <= prio[front[k]]
    ensures var l := front[..i] + [p] + front[i..];
            l[a] in prio && l[b] in prio && Ahead(l[a], l[b], arrivals + [p], prio)
  {
    if a != i && b != i {
      StillAhead(front, arrivals, p, if a < i then a else a - 1, if b < i then b else b - 1, prio);
    } else if a == i {
      assert front[b - 1] in front;
      IndexAtEnd(arrivals, p);
      IndexInFront(arrivals, p, front[b - 1]);
    } else {
      assert front[a] in front;
    }
  }

  lemma StillAhead(front: seq<nat>, arrivals: seq<nat>, p: nat, a: nat, b: nat, prio: map<nat, int>)
    requires a < b < |front| && (forall w :: w in front ==> w in prio && w in arrivals)
    requires Ahead(front[a], front[b], arrivals, prio)
    ensures Ahead(front[a], front[b], arrivals + [p], prio)
  {
    IndexInFront(arrivals, p, front[a]);
    IndexInFront(arrivals, p, front[b]);
  }

  lemma {:induction false} QueuedNewestFirst(arrivals: seq<nat>, prio: map<nat, int>)
    requires (forall w :: w in arrivals ==> w in prio) && NoDuplicates(arrivals)
    ensures NewestFirst(Queued(arrivals, prio), arrivals, prio)
  {
    if arrivals != [] {
      var n := |arrivals| - 1;
      assert arrivals == arrivals[..n] + [arrivals[n]];
      QueuedNewestFirst(arrivals[..n], prio);
      NewestInserted(Queued(arrivals[..n], prio), arrivals[..n], arrivals[n], prio);
    }
  }

  /** Best priority first, and among equals the one that was suspended first. */
  ghost predicate LongestFirst(l: seq<nat>, prio: map<nat, int>, since: map<nat, int>)
    requires forall w :: w in l ==> w in prio && w in since
  {
    forall i, j :: 0 <= i < j < |l| ==>
      prio[l[i]] < prio[l[j]] || (prio[l[i]] == prio[l[j]] && since[l[i]] <= since[l[j]])
  }

  /** Of two equals the later arrival was suspended no later. */
  ghost predicate LaterSuspendedEarlier(arrivals: seq<nat>, prio: map<nat, int>, since: map<nat, int>)
    requires forall w :: w in arrivals ==> w in prio && w in since
  {
    forall a, b :: 0 <= a < b < |arrivals| && prio[arrivals[a]] == prio[arrivals[b]] ==>
      since[arrivals[b]] <= since[arrivals[a]]
  }

  lemma LongestFirstOf(l: seq<nat>, arrivals: seq<nat>, prio: map<nat, int>, since: map<nat, int>)
    requires (forall w :: w in arrivals ==> w in prio && w in since) && (forall w :: w in l ==> w in arrivals)
    requires NewestFirst(l, arrivals, prio) && LaterSuspendedEarlier(arrivals, prio, since)
    ensures LongestFirst(l, prio, since)
  {
    forall i, j | 0 <= i < j < |l|
      ensures prio[l[i]] < prio[l[j]] || (prio[l[i]] == prio[l[j]] && since[l[i]] <= since[l[j]])
    {
      assert l[i] in arrivals && l[j] in arrivals && Ahead(l[i], l[j], arrivals, prio);
      var a, b := IndexOf(arrivals, l[j]), IndexOf(arrivals, l[i]);
      if prio[l[i]] == prio[l[j]] { assert arrivals[a] == l[j] && arrivals[b] == l[i] && a < b; }
    }
  }

  lemma {:induction false} IndexOfDistinct(l: seq<nat>, k: nat)
    requires k < |l| && NoDuplicates(l)
    ensures IndexOf(l, l[k]) == k
  {
    var i := IndexOf(l, l[k]);
    assert l[k] in l && l[i] == l[k];
  }

  lemma LaterSuspendedOf(l: seq<nat>, arrivals: seq<nat>, prio: map<nat, int>, since: map<nat, int>)
    requires (forall w :: w in arrivals ==> w in prio && w in since && w in l) && (forall w :: w in l ==> w in arrivals)
    requires NoDuplicates(arrivals) && NewestFirst(l, arrivals, prio) && LongestFirst(l, prio, since)
    ensures LaterSuspendedEarlier(arrivals, prio, since)
  {
    forall a, b | 0 <= a < b < |arrivals| && prio[arrivals[a]] == prio[arrivals[b]]
      ensures since[arrivals[b]] <= since[arrivals[a]]
    {
      assert arrivals[a] in l && arrivals[b] in l;
      var i :| 0 <= i < |l| && l[i] == arrivals[a];
      var j :| 0 <= j < |l| && l[j] == arrivals[b];
      IndexOfDistinct(arrivals, a);
      IndexOfDistinct(arrivals, b);
      assert !Ahead(l[i], l[j], arrivals, prio);
    }
  }

  /** A list that processes enter one after another is in the order "best priority, then longest
      suspended" if and only if, of any two with the same priority, the one that entered later was
      suspended no later than the other. */
  lemma TiesBrokenByTimeIff(arrivals: seq<nat>, prio: map<nat, int>, since: map<nat, int>)
    requires (forall w :: w in arrivals ==> w in prio && w in since) && NoDuplicates(arrivals)
    ensures LongestFirst(Queued(arrivals, prio), prio, since) <==> LaterSuspendedEarlier(arrivals, prio, since)
  {
    var l := Queued(arrivals, prio);
    QueuedNewestFirst(arrivals, prio);
    QueuedMembers(arrivals, prio);
    if LaterSuspendedEarlier(arrivals, prio, since) { LongestFirstOf(l, arrivals, prio, since); }
    if LongestFirst(l, prio, since) { LaterSuspendedOf(l, arrivals, prio, since); }
  }

  // ---------- the scans ----------

  /** list_add_sorted with has_higher_priority_than. */
  method AddedPriority(l: seq<int>, x: int) returns (l': seq<int>)
    ensures l' == AddPriority(l, x)
  {
    var i := 0;
    while i < |l| && !(x < l[i])
      invariant 0 <= i <= |l| && PriorityIndex(l, x) == i + PriorityIndex(l[i..], x)
    {
      assert l[i..][1..] == l[i + 1..];
      i := i + 1;
    }
    l' := l[..i] + [x] + l[i..];
  }

  /** list_remove_element, remove_priority_list and remove_pcb_list: a scan for the first occurrence. */
  method WithoutFirst<T(==)>(l: seq<T>, x: T) returns (l': seq<T>, found: bool)
    ensures l' == RemoveFirst(l, x) && found == (x in l)
  {
    var i := 0;
    while i < |l| && l[i] != x
      invariant 0 <= i <= |l| && IndexOf(l, x) == i + IndexOf(l[i..], x)
    {
      assert l[i..][1..] == l[i + 1..];
      i := i + 1;
    }
    found := i < |l|;
    l' := if found then l[..i] + l[i + 1..] else l;
  }

  /** insert_pcb_sorted, on process numbers. */
  method AddedWaiter(ws: seq<nat>, p: nat, x: int, prio: map<nat, int>) returns (ws': seq<nat>)
    requires forall w :: w in ws ==> w in prio
    ensures ws' == AddWaiter(ws, p, x, prio)
  {
    var i := 0;
    while i < |ws| && !(x <= prio[ws[i]])
      invariant 0 <= i <= |ws| && WaiterIndex(ws, x, prio) == i + WaiterIndex(ws[i..], x, prio)
    {
      assert ws[i..][1..] == ws[i + 1..];
      i := i + 1;
    }
    ws' := ws[..i] + [p] + ws[i..];
  }
}
