/** The mutexes and process control blocks as the scheduler's objects, linked by references and
    updated in place. Every method is tied to the function of the same name in MutexTables. */
module Mutexes {
  import opened Options
  import opened PriorityLists
  import M = MutexTables
  import MutexLaws
  import LockUnlock

  class Pcb {
    const pid: nat
    var priority: int
    var priorities: seq<int>
    var blocking: Mutex?

    constructor (pid: nat, priority: int)
      ensures this.pid == pid && PcbValue(this) == M.Pcb(priority, [priority], None)
    {
      this.pid := pid;
      this.priority := priority;
      this.priorities := [priority];
      this.blocking := null;
    }
  }

  class Mutex {
    ghost const id: nat
    const active: bool
    var next: int
    var waiters: seq<Pcb>
    var owner: Pcb?
    var state: int

    constructor (ghost id: nat, active: bool)
      ensures this.id == id && MutexValue(this) == M.Mutex(INT_MAX, active, [], None, 1)
    {
      this.id := id;
      this.active := active;
      this.next := INT_MAX;
      this.waiters := [];
      this.owner := null;
      this.state := 1;
    }
  }

  // ---------- the objects as values ----------

  ghost function PcbValue(c: Pcb): M.Pcb
    reads c
  {
    M.Pcb(c.priority, c.priorities, if c.blocking == null then None else Some(c.blocking.id))
  }

  ghost function Pids(ws: seq<Pcb>): (r: seq<nat>)
    ensures |r| == |ws| && forall k :: 0 <= k < |ws| ==> r[k] == ws[k].pid
  {
    seq(|ws|, k requires 0 <= k < |ws| => ws[k].pid)
  }

  ghost function MutexValue(m: Mutex): M.Mutex
    reads m
  {
    M.Mutex(m.next, m.active, Pids(m.waiters), if m.owner == null then None else Some(m.owner.pid), m.state)
  }

  /** All processes by pid, all mutexes in creation order, and the mutexes' names. */
  datatype World = World(pcbs: map<nat, Pcb>, mutexes: seq<Mutex>, names: map<string, nat>)

  predicate Known(w: World, c: Pcb) {
    c.pid in w.pcbs && w.pcbs[c.pid] == c
  }

  ghost predicate Listed(w: World, m: Mutex) {
    m.id < |w.mutexes| && w.mutexes[m.id] == m
  }

  /** Every reference leads to an object of the world, which is filed under its own number. */
  ghost predicate Valid(w: World)
    reads w.pcbs.Values`blocking, w.mutexes`owner, w.mutexes`waiters
  {
    && (forall p :: p in w.pcbs ==> w.pcbs[p].pid == p && (w.pcbs[p].blocking != null ==> Listed(w, w.pcbs[p].blocking)))
    && (forall i :: 0 <= i < |w.mutexes| ==>
          && w.mutexes[i].id == i
          && (w.mutexes[i].owner != null ==> Known(w, w.mutexes[i].owner))
          && (forall c :: c in w.mutexes[i].waiters ==> Known(w, c)))
  }

  ghost function MutexValues(ms: seq<Mutex>): (r: seq<M.Mutex>)
    reads ms
    ensures |r| == |ms| && forall k :: 0 <= k < |ms| ==> r[k] == MutexValue(ms[k])
  {
    if ms == [] then [] else [MutexValue(ms[0])] + MutexValues(ms[1..])
  }

  ghost function Snapshot(w: World): M.State
    reads w.pcbs.Values, w.mutexes
  {
    M.State(map p | p in w.pcbs :: PcbValue(w.pcbs[p]), MutexValues(w.mutexes), w.names)
  }

  /** After an update of one process, its entry is all that changed in the snapshot s. */
  lemma PcbUpdated(w: World, c: Pcb, s: M.State)
    requires Known(w, c) && s.pcbs.Keys == w.pcbs.Keys && s.names == w.names && |s.mutexes| == |w.mutexes|
    requires forall p :: p in w.pcbs && p != c.pid ==> PcbValue(w.pcbs[p]) == s.pcbs[p]
    requires forall i :: 0 <= i < |w.mutexes| ==> MutexValue(w.mutexes[i]) == s.mutexes[i]
    ensures Snapshot(w) == s.(pcbs := s.pcbs[c.pid := PcbValue(c)])
  {
    assert Snapshot(w).mutexes == s.mutexes;
  }

  /** After an update of one mutex, its entry is all that changed in the snapshot s. */
  lemma MutexUpdated(w: World, m: Mutex, s: M.State)
    requires Listed(w, m) && s.pcbs.Keys == w.pcbs.Keys && s.names == w.names && |s.mutexes| == |w.mutexes|
    requires forall p :: p in w.pcbs ==> PcbValue(w.pcbs[p]) == s.pcbs[p]
    requires forall i :: 0 <= i < |w.mutexes| && i != m.id ==> MutexValue(w.mutexes[i]) == s.mutexes[i]
    ensures Snapshot(w) == M.SetMutex(s, m.id, MutexValue(m))
  {
    assert Snapshot(w).pcbs == s.pcbs;
  }

  lemma PidsAreKnown(w: World, l: seq<Pcb>)
    requires forall x :: x in l ==> Known(w, x)
    ensures forall x :: x in Pids(l) ==> x in M.Priorities(Snapshot(w))
  {
    forall x | x in Pids(l) ensures x in M.Priorities(Snapshot(w)) {
      var k :| 0 <= k < |l| && Pids(l)[k] == x;
      assert Known(w, l[k]);
    }
  }

  // ---------- the lists ----------

  /** The scan of insert_pcb_sorted: the place in front of the first process that is not better. */
  method PlaceFor(ghost w: World, l: seq<Pcb>, c: Pcb) returns (index: nat)
    requires Valid(w) && Known(w, c) && forall x :: x in l ==> Known(w, x)
    ensures index <= |l|
    ensures var prio := M.Priorities(Snapshot(w));
            (forall x :: x in Pids(l) ==> x in prio) && index == WaiterIndex(Pids(l), c.priority, prio)
  {
    ghost var prio, pids := M.Priorities(Snapshot(w)), Pids(l);
    PidsAreKnown(w, l);
    index := 0;
    while index < |l| && !(c.priority <= l[index].priority)
      invariant 0 <= index <= |l|
      invariant WaiterIndex(pids, c.priority, prio) == index + WaiterIndex(pids[index..], c.priority, prio)
    {
      assert pids[index..][1..] == pids[index + 1..];
      assert Known(w, l[index]) && prio[pids[index]] == l[index].priority;
      index := index + 1;
    }
    assert index < |l| ==> Known(w, l[index]) && prio[pids[index]] == l[index].priority;
  }

  lemma PidsAfterInsertion(l: seq<Pcb>, c: Pcb, i: nat)
    requires i <= |l|
    ensures Pids(l[..i] + [c] + l[i..]) == Pids(l)[..i] + [c.pid] + Pids(l)[i..]
    ensures forall x :: x in l[..i] + [c] + l[i..] ==> x == c || x in l
  {
  }

  /** insert_pcb_sorted. */
  method AddedPcb(ghost w: World, l: seq<Pcb>, c: Pcb) returns (l': seq<Pcb>, index: nat)
    requires Valid(w) && Known(w, c) && forall x :: x in l ==> Known(w, x)
    ensures var prio := M.Priorities(Snapshot(w));
            && (forall x :: x in Pids(l) ==> x in prio)
            && index == WaiterIndex(Pids(l), c.priority, prio)
            && Pids(l') == AddWaiter(Pids(l), c.pid, c.priority, prio)
    ensures forall x :: x in l' ==> x == c || x in l
  {
    index := PlaceFor(w, l, c);
    l' := l[..index] + [c] + l[index..];
    PidsAfterInsertion(l, c, index);
  }

  // ---------- priority changes ----------

  method InsertPriority(ghost w: World, c: Pcb, x: int)
    requires Valid(w) && Known(w, c)
    modifies c
    ensures Valid(w) && Snapshot(w) == M.InsertPriority(old(Snapshot(w)), c.pid, x)
  {
    var l := AddedPriority(c.priorities, x);
    Raise(w, c, l, x);
  }

  method Raise(ghost w: World, c: Pcb, l: seq<int>, x: int)
    requires Valid(w) && Known(w, c)
    modifies c
    ensures Valid(w)
    ensures var s := old(Snapshot(w));
            var pcb := s.pcbs[c.pid];
            Snapshot(w) == s.(pcbs := s.pcbs[c.pid := pcb.(priorities := l, priority := if x < pcb.priority then x else pcb.priority)])
  {
    ghost var s, v := Snapshot(w), PcbValue(c);
    c.priorities := l;
    if x < c.priority {
      c.priority := x;
    }
    assert PcbValue(c) == v.(priorities := l, priority := if x < v.priority then x else v.priority);
    PcbUpdated(w, c, s);
  }

  lemma {:induction false} IndexOfPid(w: World, l: seq<Pcb>, c: Pcb)
    requires Known(w, c) && forall x :: x in l ==> Known(w, x)
    ensures IndexOf(Pids(l), c.pid) == IndexOf(l, c)
  {
    if l != [] {
      assert Pids(l)[1..] == Pids(l[1..]);
      assert Known(w, l[0]);
      IndexOfPid(w, l[1..], c);
    }
  }

  lemma RemovalOfPid(w: World, l: seq<Pcb>, c: Pcb)
    requires Known(w, c) && forall x :: x in l ==> Known(w, x)
    ensures Pids(RemoveFirst(l, c)) == RemoveFirst(Pids(l), c.pid)
    ensures c in l <==> c.pid in Pids(l)
    ensures forall x :: x in RemoveFirst(l, c) ==> Known(w, x)
  {
    IndexOfPid(w, l, c);
  }

  /** A new priority list; its head becomes the process's priority. */
  method StoreList(ghost w: World, c: Pcb, l: seq<int>)
    requires Valid(w) && Known(w, c) && l != []
    modifies c
    ensures Valid(w) && Snapshot(w) == M.SetPriorities(old(Snapshot(w)), c.pid, l) && c.priority == l[0]
  {
    ghost var s, v := Snapshot(w), PcbValue(c);
    c.priorities := l;
    if c.priority != l[0] {
      c.priority := l[0];
    }
    assert PcbValue(c) == v.(priorities := l, priority := l[0]);
    PcbUpdated(w, c, s);
  }

  /** The part of a replacement that is done under the process's own lock. */
  method ExchangePriority(ghost w: World, c: Pcb, old_: int, new_: int) returns (act: bool)
    requires Valid(w) && Known(w, c)
    modifies c
    ensures Valid(w) && Snapshot(w) == MutexLaws.AfterEntry(old(Snapshot(w)), c.pid, old_, new_)
    ensures act == (c.priority != old(c.priority))
  {
    var previous := c.priority;
    var rest, _ := WithoutFirst(c.priorities, old_);
    var l := AddedPriority(rest, new_);
    StoreList(w, c, l);
    act := c.priority != previous;
  }

  method ReplacePriority(ghost w: World, c: Pcb, old_: int, new_: int)
    requires Valid(w) && Known(w, c) && M.Linked(Snapshot(w)) && M.Acyclic(M.Waits(Snapshot(w)))
    modifies w.pcbs.Values, w.mutexes
    ensures Valid(w) && Snapshot(w) == M.ReplacePriority(old(Snapshot(w)), c.pid, old_, new_)
    decreases M.Depth(M.Waits(Snapshot(w)), c.pid), 1
  {
    ghost var s := Snapshot(w);
    assert s.pcbs[c.pid] == PcbValue(c);
    MutexLaws.ReplaceUnfold(s, c.pid, old_, new_);
    var act := ExchangePriority(w, c, old_, new_);
    ghost var s1 := MutexLaws.AfterEntry(s, c.pid, old_, new_);
    assert Snapshot(w) == s1 && s1.pcbs[c.pid] == PcbValue(c);
    if act {
      PropagatePriority(w, c, c.priority);
    }
  }

  predicate WaitersKnown(s: M.State, i: nat) {
    i < |s.mutexes| && forall w :: w in s.mutexes[i].waiters ==> w in s.pcbs
  }

  function WithoutWaiter(s: M.State, i: nat, p: nat): M.State
    requires i < |s.mutexes|
  {
    M.SetMutex(s, i, s.mutexes[i].(waiters := RemoveFirst(s.mutexes[i].waiters, p)))
  }

  function WithWaiter(s: M.State, i: nat, p: nat): M.State
    requires WaitersKnown(s, i) && p in s.pcbs
  {
    M.SetMutex(s, i, LockUnlock.Joined(s, i, p))
  }

  method SetWaiters(ghost w: World, m: Mutex, ws: seq<Pcb>)
    requires Valid(w) && Listed(w, m) && forall c :: c in ws ==> Known(w, c)
    modifies m`waiters
    ensures Valid(w) && m.waiters == ws
    ensures var s := old(Snapshot(w)); Snapshot(w) == M.SetMutex(s, m.id, s.mutexes[m.id].(waiters := Pids(ws)))
  {
    ghost var s := Snapshot(w);
    m.waiters := ws;
    MutexUpdated(w, m, s);
  }

  method RemovePcb(ghost w: World, m: Mutex, c: Pcb) returns (found: bool)
    requires Valid(w) && Known(w, c) && Listed(w, m)
    modifies m`waiters
    ensures Valid(w) && Snapshot(w) == WithoutWaiter(old(Snapshot(w)), m.id, c.pid)
    ensures found == (c.pid in old(Snapshot(w)).mutexes[m.id].waiters)
  {
    ghost var s := Snapshot(w);
    RemovalOfPid(w, m.waiters, c);
    var rest;
    rest, found := WithoutFirst(m.waiters, c);
    SetWaiters(w, m, rest);
  }

  method InsertPcb(ghost w: World, m: Mutex, c: Pcb) returns (index: nat)
    requires Valid(w) && Known(w, c) && Listed(w, m)
    modifies m`waiters
    ensures WaitersKnown(old(Snapshot(w)), m.id)
    ensures Valid(w) && Snapshot(w) == WithWaiter(old(Snapshot(w)), m.id, c.pid)
    ensures var s := old(Snapshot(w));
            index == WaiterIndex(s.mutexes[m.id].waiters, s.pcbs[c.pid].priority, M.Priorities(s))
  {
    ghost var s := Snapshot(w);
    assert s.mutexes[m.id] == MutexValue(m) && s.pcbs[c.pid] == PcbValue(c);
    assert WaitersKnown(s, m.id) by { PidsAreKnown(w, m.waiters); }
    ghost var ws0, prio := s.mutexes[m.id].waiters, M.Priorities(s);
    var ws;
    ws, index := AddedPcb(w, m.waiters, c);
    assert Pids(ws) == AddWaiter(ws0, c.pid, s.pcbs[c.pid].priority, prio);
    assert index == WaiterIndex(ws0, s.pcbs[c.pid].priority, prio);
    SetWaiters(w, m, ws);
  }

  /** Taking a waiter out and putting it back in one go. */
  lemma ReinsertInPlace(s: M.State, i: nat, p: nat)
    requires M.Linked(s) && i < |s.mutexes| && p in s.pcbs
    ensures var s1 := WithoutWaiter(s, i, p);
            && WaitersKnown(s1, i)
            && WithWaiter(s1, i, p) == M.SetMutex(s, i, s.mutexes[i].(waiters := M.Reinserted(s, i, p)))
            && M.ReinsertedFirst(s, i, p)
               == (WaiterIndex(s1.mutexes[i].waiters, s.pcbs[p].priority, M.Priorities(s1)) == 0)
  {
    assert M.Priorities(WithoutWaiter(s, i, p)) == M.Priorities(s);
  }

  lemma NotWaiting(s: M.State, i: nat, p: nat)
    requires i < |s.mutexes| && p !in s.mutexes[i].waiters
    ensures WithoutWaiter(s, i, p) == s
  {
    assert s.mutexes[i := s.mutexes[i]] == s.mutexes;
  }

  method SetNext(ghost w: World, m: Mutex, next: int)
    requires Valid(w) && Listed(w, m)
    modifies m`next
    ensures Valid(w)
    ensures var s := old(Snapshot(w)); Snapshot(w) == M.SetMutex(s, m.id, s.mutexes[m.id].(next := next))
  {
    ghost var s := Snapshot(w);
    m.next := next;
    MutexUpdated(w, m, s);
  }

  lemma SetMutexTwice(s: M.State, i: nat, m: M.Mutex, m': M.Mutex)
    requires i < |s.mutexes|
    ensures M.SetMutex(M.SetMutex(s, i, m), i, m') == M.SetMutex(s, i, m')
  {
  }

  method PropagatePriority(ghost w: World, c: Pcb, new_: int)
    requires Valid(w) && Known(w, c) && M.Linked(Snapshot(w)) && M.Acyclic(M.Waits(Snapshot(w)))
    modifies w.pcbs.Values, w.mutexes
    ensures Valid(w) && Snapshot(w) == M.PropagatePriority(old(Snapshot(w)), c.pid, new_)
    decreases M.Depth(M.Waits(Snapshot(w)), c.pid), 0
  {
    if c.blocking == null {
      return;
    }
    var m := c.blocking;
    if !m.active {
      return;
    }
    var found := RemovePcb(w, m, c);
    if !found {
      NotWaiting(old(Snapshot(w)), m.id, c.pid);
      return;
    }
    PropagateInserted(w, m, c, old(Snapshot(w)), new_);
  }

  /** The rest of the propagation, for a waiter that was found and taken out of the list. */
  method PropagateInserted(ghost w: World, m: Mutex, c: Pcb, ghost s: M.State, new_: int)
    requires Valid(w) && Known(w, c) && Listed(w, m) && M.Linked(s) && M.Acyclic(M.Waits(s))
    requires c.pid in s.pcbs && s.pcbs[c.pid].blocking == Some(m.id) && m.id < |s.mutexes|
    requires s.mutexes[m.id].active && c.pid in s.mutexes[m.id].waiters
    requires Snapshot(w) == WithoutWaiter(s, m.id, c.pid)
    modifies w.pcbs.Values, w.mutexes
    ensures Valid(w) && Snapshot(w) == M.PropagatePriority(s, c.pid, new_)
    decreases M.Depth(M.Waits(s), c.pid), 0, 0
  {
    ghost var i, p := m.id, c.pid;
    ghost var m0 := s.mutexes[i];
    MutexLaws.WaitsStep(s, p, i);
    ReinsertInPlace(s, i, p);
    var index := InsertPcb(w, m, c);
    ghost var m1 := m0.(waiters := M.Reinserted(s, i, p));
    assert Snapshot(w) == M.SetMutex(s, i, m1);
    assert m.next == m0.next && m.owner != null && m.owner.pid == m0.owner.value by {
      assert MutexValue(m) == Snapshot(w).mutexes[i];
    }
    MutexLaws.PropagateUnfold(s, p, i, new_);
    if index == 0 && new_ != m.next {
      var previous := m.next;
      SetNext(w, m, new_);
      SetMutexTwice(s, i, m1, m1.(next := new_));
      assert Snapshot(w) == M.SetMutex(s, i, m1.(next := new_));
      ReplacePriority(w, m.owner, previous, new_);
    }
  }

  /** remove_priority: tells whether the process's priority changed. */
  method RemovePriority(ghost w: World, c: Pcb, x: int) returns (updated: bool)
    requires Valid(w) && Known(w, c) && RemoveFirst(c.priorities, x) != []
    modifies c
    ensures Valid(w)
    ensures var s := old(Snapshot(w)); Snapshot(w) == M.SetPriorities(s, c.pid, RemoveFirst(s.pcbs[c.pid].priorities, x))
    ensures updated <==> c.priority != old(c.priority)
  {
    var rest, _ := WithoutFirst(c.priorities, x);
    updated := c.priority != rest[0];
    StoreList(w, c, rest);
  }

  method SetMutexBlocking(ghost w: World, c: Pcb, m: Mutex?)
    requires Valid(w) && Known(w, c) && (m != null ==> Listed(w, m))
    modifies c`blocking
    ensures Valid(w)
    ensures Snapshot(w) == M.SetBlocking(old(Snapshot(w)), c.pid, if m == null then None else Some(m.id))
  {
    ghost var s := Snapshot(w);
    c.blocking := m;
    PcbUpdated(w, c, s);
  }

  method AddToState(ghost w: World, m: Mutex, d: int)
    requires Valid(w) && Listed(w, m)
    modifies m`state
    ensures Valid(w) && Snapshot(w) == M.AddState(old(Snapshot(w)), m.id, d)
  {
    ghost var s, v := Snapshot(w), MutexValue(m);
    m.state := m.state + d;
    assert MutexValue(m) == v.(state := v.state + d);
    MutexUpdated(w, m, s);
  }

  // ---------- the system calls ----------

  method SetOwner(ghost w: World, m: Mutex, c: Pcb?, next: int)
    requires Valid(w) && Listed(w, m) && (c != null ==> Known(w, c))
    modifies m`owner, m`next
    ensures Valid(w)
    ensures var s := old(Snapshot(w));
            Snapshot(w) == M.SetMutex(s, m.id, s.mutexes[m.id].(owner := if c == null then None else Some(c.pid), next := next))
  {
    ghost var s, v := Snapshot(w), MutexValue(m);
    m.owner := c;
    m.next := next;
    assert MutexValue(m) == v.(owner := if c == null then None else Some(c.pid), next := next);
    MutexUpdated(w, m, s);
  }

  /** The three ways of joining the waiters. */
  lemma JoinCases(s: M.State, i: nat, p: nat)
    requires M.Linked(s) && M.Acyclic(M.Waits(s)) && p in s.pcbs && WaitersKnown(s, i) && s.mutexes[i].owner.Some?
    ensures var m, prio, s1 := s.mutexes[i], s.pcbs[p].priority, WithWaiter(s, i, p);
            if !m.active then M.JoinWaiters(s, i, p) == M.SetMutex(s, i, m.(waiters := m.waiters + [p]))
            else if WaiterIndex(m.waiters, prio, M.Priorities(s)) != 0 then M.JoinWaiters(s, i, p) == s1
            else
              && M.Linked(s1) && M.Waits(s1) == M.Waits(s) && m.owner.value in s1.pcbs
              && var s2 := M.ReplacePriority(s1, m.owner.value, m.next, prio);
              i < |s2.mutexes| ==> M.JoinWaiters(s, i, p) == M.SetMutex(s2, i, s2.mutexes[i].(next := prio))
  {
    LockUnlock.JoinedLinked(s, i, p);
  }

  /** Waiting at an owned mutex with priorities, and lending the owner the new priority when the
      process comes first. */
  method JoinByPriority(ghost w: World, m: Mutex, c: Pcb)
    requires Valid(w) && Known(w, c) && Listed(w, m) && m.owner != null && m.active
    requires M.Linked(Snapshot(w)) && M.Acyclic(M.Waits(Snapshot(w))) && WaitersKnown(Snapshot(w), m.id)
    modifies w.pcbs.Values, w.mutexes
    ensures Valid(w) && Snapshot(w) == M.JoinWaiters(old(Snapshot(w)), m.id, c.pid)
  {
    ghost var s, i, p := Snapshot(w), m.id, c.pid;
    assert s.mutexes[i] == MutexValue(m) && s.pcbs[p] == PcbValue(c);
    JoinCases(s, i, p);
    var priority := c.priority;
    var index := InsertPcb(w, m, c);
    if index == 0 {
      assert MutexValue(m) == Snapshot(w).mutexes[i];
      ReplacePriority(w, m.owner, m.next, priority);
      SetNext(w, m, priority);
    }
  }

  /** Waiting at an owned mutex without priorities. */
  method JoinLast(ghost w: World, m: Mutex, c: Pcb)
    requires Valid(w) && Known(w, c) && Listed(w, m)
    modifies m`waiters
    ensures Valid(w)
    ensures var s := old(Snapshot(w));
            Snapshot(w) == M.SetMutex(s, m.id, s.mutexes[m.id].(waiters := s.mutexes[m.id].waiters + [c.pid]))
  {
    ghost var s := Snapshot(w);
    assert s.mutexes[m.id] == MutexValue(m);
    assert Pids(m.waiters + [c]) == s.mutexes[m.id].waiters + [c.pid];
    SetWaiters(w, m, m.waiters + [c]);
  }

  /** Waiting at an owned mutex. */
  method JoinWaiters(ghost w: World, m: Mutex, c: Pcb)
    requires Valid(w) && Known(w, c) && Listed(w, m) && m.owner != null
    requires M.Linked(Snapshot(w)) && M.Acyclic(M.Waits(Snapshot(w)))
    modifies w.pcbs.Values, w.mutexes
    ensures Valid(w) && Snapshot(w) == M.JoinWaiters(old(Snapshot(w)), m.id, c.pid)
  {
    assert Snapshot(w).mutexes[m.id] == MutexValue(m);
    assert WaitersKnown(Snapshot(w), m.id);
    if m.active {
      JoinByPriority(w, m, c);
    } else {
      JoinCases(Snapshot(w), m.id, c.pid);
      JoinLast(w, m, c);
    }
  }

  method MutexLock(ghost w: World, m: Mutex, c: Pcb) returns (r: M.MutexResult)
    requires Valid(w) && Known(w, c) && Listed(w, m) && (m.state == 1 || m.owner != null)
    requires M.Linked(Snapshot(w)) && M.Acyclic(M.Waits(Snapshot(w)))
    modifies w.pcbs.Values, w.mutexes
    ensures Valid(w) && (Snapshot(w), r) == M.LockMutex(old(Snapshot(w)), m.id, c.pid)
  {
    r := M.WaitingMutex;
    if m.state == 1 {
      SetOwner(w, m, c, INT_MAX);
      InsertPriority(w, c, m.next);
      r := M.MutexLocked;
    } else {
      JoinWaiters(w, m, c);
      SetMutexBlocking(w, c, m);
    }
    AddToState(w, m, -1);
  }

  /** The mutex in the hands of the heir, before the rest of the waiters lend their priority. */
  function PassedOn(s: M.State, i: nat, heir: nat, rest: seq<nat>): M.State
    requires i < |s.mutexes|
  {
    M.SetBlocking(M.SetMutex(s, i, s.mutexes[i].(owner := Some(heir), waiters := rest)), heir, None)
  }

  lemma HandOverCases(s: M.State, i: nat, heir: nat, rest: seq<nat>)
    requires WaitersKnown(s, i) && s.mutexes[i].waiters == [heir] + rest
    requires s.mutexes[i].state == -1 || |s.mutexes[i].waiters| > 1
    ensures var m, s1 := s.mutexes[i], PassedOn(s, i, heir, rest);
            if !m.active then M.HandOver(s, i) == s1
            else
              var next := if m.state == -1 then INT_MAX else s.pcbs[m.waiters[1]].priority;
              M.HandOver(s, i) == M.InsertPriority(M.SetMutex(s1, i, s1.mutexes[i].(next := next)), heir, next)
  {
    assert s.mutexes[i].waiters[1..] == rest;
  }

  method PassOn(ghost w: World, m: Mutex) returns (heir: Pcb)
    requires Valid(w) && Listed(w, m) && m.waiters != []
    modifies w.pcbs.Values, m
    ensures Valid(w) && Known(w, heir) && heir == old(m.waiters[0]) && m.waiters == old(m.waiters[1..])
    ensures m.state == old(m.state)
    ensures Snapshot(w) == PassedOn(old(Snapshot(w)), m.id, heir.pid, Pids(m.waiters))
  {
    var rest := m.waiters[1..];
    heir := m.waiters[0];
    SetOwner(w, m, heir, m.next);
    SetWaiters(w, m, rest);
    SetMutexBlocking(w, heir, null);
  }

  /** What the first of the waiters left behind lends. */
  lemma NextWaiter(w: World, s: M.State, i: nat, heir: nat, rest: seq<Pcb>)
    requires WaitersKnown(s, i) && rest != [] && Known(w, rest[0]) && rest[0].pid in s.pcbs
    requires Snapshot(w) == PassedOn(s, i, heir, Pids(rest))
    ensures rest[0].priority == s.pcbs[rest[0].pid].priority
  {
    assert PcbValue(rest[0]) == Snapshot(w).pcbs[rest[0].pid];
  }

  /** The mutex passes to its first waiter. */
  method HandOver(ghost w: World, m: Mutex)
    requires Valid(w) && Listed(w, m) && m.waiters != [] && (m.state == -1 || |m.waiters| > 1)
    modifies w.pcbs.Values, w.mutexes
    ensures Valid(w)
    ensures WaitersKnown(old(Snapshot(w)), m.id) && Snapshot(w) == M.HandOver(old(Snapshot(w)), m.id)
  {
    ghost var s, i := Snapshot(w), m.id;
    assert WaitersKnown(s, i) by { PidsAreKnown(w, m.waiters); }
    assert s.mutexes[i] == MutexValue(m);
    assert s.mutexes[i].waiters == [m.waiters[0].pid] + Pids(m.waiters[1..]);
    HandOverCases(s, i, m.waiters[0].pid, Pids(m.waiters[1..]));
    var heir := PassOn(w, m);
    if m.active {
      if m.state != -1 { NextWaiter(w, s, i, heir.pid, m.waiters); }
      LendRest(w, m, heir, if m.state == -1 then INT_MAX else m.waiters[0].priority);
    }
  }

  method LendRest(ghost w: World, m: Mutex, heir: Pcb, next: int)
    requires Valid(w) && Known(w, heir) && Listed(w, m)
    modifies m`next, heir
    ensures Valid(w)
    ensures var s := old(Snapshot(w));
            Snapshot(w) == M.InsertPriority(M.SetMutex(s, m.id, s.mutexes[m.id].(next := next)), heir.pid, next)
  {
    SetNext(w, m, next);
    InsertPriority(w, heir, next);
  }

  method MutexUnlock(ghost w: World, m: Mutex, c: Pcb) returns (r: M.MutexResult)
    requires Valid(w) && Known(w, c) && Listed(w, m) && M.Linked(Snapshot(w))
    requires m.owner == c ==>
               && RemoveFirst(c.priorities, m.next) != []
               && (m.state < 0 ==> m.waiters != [])
               && (m.state < -1 ==> |m.waiters| > 1)
    modifies w.pcbs.Values, w.mutexes
    ensures Valid(w) && (Snapshot(w), r) == M.UnlockMutex(old(Snapshot(w)), m.id, c.pid)
  {
    if c != m.owner {
      return M.ProcessHasNoLockedMutex;
    }
    if m.active {
      var _ := RemovePriority(w, c, m.next);
    }
    if m.state == 0 {
      SetOwner(w, m, null, INT_MAX);
    } else if m.state < 0 {
      HandOver(w, m);
    }
    AddToState(w, m, 1);
    r := M.MutexUnlocked;
  }

  lemma NewMutexJoins(w: World, m: Mutex, name: string)
    requires Valid(w) && m.id == |w.mutexes| && m.waiters == [] && m.owner == null
    ensures var w' := w.(mutexes := w.mutexes + [m], names := w.names[name := m.id]);
            var s := Snapshot(w);
            && Valid(w')
            && Snapshot(w') == s.(mutexes := s.mutexes + [MutexValue(m)], names := s.names[name := m.id])
  {
    var w' := w.(mutexes := w.mutexes + [m], names := w.names[name := m.id]);
    assert Snapshot(w').pcbs == Snapshot(w).pcbs;
    assert Snapshot(w').mutexes == Snapshot(w).mutexes + [MutexValue(m)];
  }

  /** The dictionary and the world agree about the names. */
  ghost predicate Catalogued(list: map<string, Mutex>, w: World) {
    list.Keys == w.names.Keys && forall name :: name in list ==> Listed(w, list[name]) && list[name].id == w.names[name]
  }

  /** t_mutex_list: the named mutexes. */
  class MutexList {
    var list: map<string, Mutex>
    ghost var world: World

    ghost predicate ValidList()
      reads this, world.pcbs.Values, world.mutexes
    {
      Valid(world) && Catalogued(list, world)
    }

    /** dictionary_put of a mutex made by create_mutex. */
    method Put(name: string, m: Mutex)
      requires ValidList() && name !in list && m.id == |world.mutexes| && m.waiters == [] && m.owner == null
      modifies this
      ensures list == old(list)[name := m]
      ensures world == old(world).(mutexes := old(world).mutexes + [m], names := old(world).names[name := m.id])
      ensures Valid(world)
      ensures var s := old(Snapshot(world));
              Snapshot(world) == s.(mutexes := s.mutexes + [MutexValue(m)], names := s.names[name := m.id])
    {
      NewMutexJoins(world, m, name);
      list := list[name := m];
      world := world.(mutexes := world.mutexes + [m], names := world.names[name := m.id]);
    }

    method CreateAndAddMutex(name: string, active: bool) returns (r: M.MutexResult)
      requires ValidList()
      modifies this
      ensures Valid(world) && Catalogued(list, world)
      ensures (Snapshot(world), r) == M.CreateMutex(old(Snapshot(world)), name, active)
    {
      if name in list {
        return M.NameAlreadyExists;
      }
      var m := new Mutex(|world.mutexes|, active);
      assert Snapshot(world) == old(Snapshot(world));
      Put(name, m);
      r := M.MutexCreated;
    }
  }

  method ListMutexLock(ghost w: World, list: map<string, Mutex>, name: string, c: Pcb) returns (r: M.MutexResult)
    requires Valid(w) && Catalogued(list, w) && Known(w, c) && M.Linked(Snapshot(w)) && M.Acyclic(M.Waits(Snapshot(w)))
    requires name in list ==> list[name].state == 1 || list[name].owner != null
    modifies w.pcbs.Values, w.mutexes
    ensures Valid(w) && (Snapshot(w), r) == M.ListMutexLock(old(Snapshot(w)), name, c.pid)
  {
    if name in list {
      r := MutexLock(w, list[name], c);
    } else {
      r := M.NameNotFound;
    }
  }

  method ListMutexUnlock(ghost w: World, list: map<string, Mutex>, name: string, c: Pcb) returns (r: M.MutexResult)
    requires Valid(w) && Catalogued(list, w) && Known(w, c) && M.Linked(Snapshot(w))
    requires name in list && list[name].owner == c ==>
               && RemoveFirst(c.priorities, list[name].next) != []
               && (list[name].state < 0 ==> list[name].waiters != [])
               && (list[name].state < -1 ==> |list[name].waiters| > 1)
    modifies w.pcbs.Values, w.mutexes
    ensures Valid(w) && (Snapshot(w), r) == M.ListMutexUnlock(old(Snapshot(w)), name, c.pid)
  {
    if name in list {
      r := MutexUnlock(w, list[name], c);
    } else {
      r := M.NameNotFound;
    }
  }
}
