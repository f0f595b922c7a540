/** Every mutex system call keeps the bookkeeping of MutexLaws. */
module LockUnlock {
  import opened Options
  import opened PriorityLists
  import opened MutexTables
  import opened MutexLaws
  import opened MutexCalls

  lemma PriorityAtMostBase(s: State, base: Bases, p: nat)
    requires p in s.pcbs && p in base && PcbOk(s, base, p)
    ensures s.pcbs[p].priority <= base[p]
  {
    assert base[p] in Entitled(s, base, p);
    var l := s.pcbs[p].priorities;
    assert base[p] in multiset(l);
    var k :| 0 <= k < |l| && l[k] == base[p];
  }

  lemma InvIsLinked(s: State, base: Bases)
    requires Inv(s, base)
    ensures Linked(s) && Acyclic(Waits(s))
  {
    forall p | p in s.pcbs ensures ListOk(s.pcbs[p]) { assert PcbOk(s, base, p); }
    FrameIsLinked(s, base, Priorities(s));
  }

  // ---------- taking a free mutex ----------

  lemma NobodyWaitsAtFree(s: State, base: Bases, i: nat, x: nat)
    requires Inv(s, base) && i < |s.mutexes| && s.mutexes[i].waiters == [] && x in s.pcbs
    ensures s.pcbs[x].blocking != Some(i)
  {
    assert BlockOk(s, x);
  }

  /** Giving p one more list entry, lent by mutex i, in exchange for owning it. */
  lemma TakenPcbs(s: State, base: Bases, i: nat, p: nat, m: Mutex)
    requires p in s.pcbs && i < |s.mutexes| && base.Keys == s.pcbs.Keys
    requires forall q {:trigger PcbOk(s, base, q)} :: q in s.pcbs ==> PcbOk(s, base, q)
    requires s.mutexes[i].owner.None? && m.owner == Some(p) && m.next >= s.pcbs[p].priority
    ensures var r := InsertPriority(SetMutex(s, i, m), p, m.next);
            && (forall q {:trigger PcbOk(r, base, q)} :: q in r.pcbs ==> PcbOk(r, base, q))
            && r.pcbs[p].priority == s.pcbs[p].priority
  {
    var r := InsertPriority(SetMutex(s, i, m), p, m.next);
    forall q | q in r.pcbs ensures PcbOk(r, base, q) {
      assert PcbOk(s, base, q);
      EntitledAfterTake(s, base, i, m, q);
      if q == p { AddPriorityLaws(s.pcbs[p].priorities, m.next); }
    }
    assert PcbOk(s, base, p);
  }

  lemma EntitledAfterTake(s: State, base: Bases, i: nat, m: Mutex, q: nat)
    requires q in base && i < |s.mutexes| && s.mutexes[i].owner.None?
    ensures Entitled(SetMutex(s, i, m), base, q) == Entitled(s, base, q) + Lending(m, q)
  {
    HeldUpdate(s.mutexes, i, m, q);
    var n := |s.mutexes|;
    var b, h, h' := multiset{base[q]}, Held(s.mutexes, q, n), Held(s.mutexes[i := m], q, n);
    assert Lending(s.mutexes[i], q) == multiset{};
    assert h' + multiset{} == h';
    assert (b + h) + Lending(m, q) == b + (h + Lending(m, q));
  }

  lemma SetStateKeepsPcbs(s: State, base: Bases, i: nat, d: int)
    requires i < |s.mutexes| && base.Keys == s.pcbs.Keys
    requires forall q {:trigger PcbOk(s, base, q)} :: q in s.pcbs ==> PcbOk(s, base, q)
    ensures forall q {:trigger PcbOk(AddState(s, i, d), base, q)} :: q in s.pcbs ==> PcbOk(AddState(s, i, d), base, q)
  {
    var r := AddState(s, i, d);
    forall q | q in s.pcbs ensures PcbOk(r, base, q) {
      assert PcbOk(s, base, q);
      HeldSame(s.mutexes, r.mutexes, q, |s.mutexes|);
    }
  }

  /** r differs from s in mutex i, which has no waiters, and in the lists of running processes. */
  ghost predicate IdleChange(s: State, r: State, i: nat) {
    && i < |s.mutexes| && s.mutexes[i].waiters == []
    && |r.mutexes| == |s.mutexes| && r.names == s.names && r.pcbs.Keys == s.pcbs.Keys
    && (forall k :: 0 <= k < |s.mutexes| && k != i ==> r.mutexes[k] == s.mutexes[k])
    && (forall x :: x in s.pcbs ==> r.pcbs[x].blocking == s.pcbs[x].blocking)
    && (forall x :: x in s.pcbs && s.pcbs[x].blocking.Some? ==> r.pcbs[x].priority == s.pcbs[x].priority)
  }

  lemma IdleOther(s: State, r: State, base: Bases, i: nat, k: nat)
    requires Inv(s, base) && IdleChange(s, r, i) && k < |s.mutexes| && k != i
    ensures MutexOk(r, k, Priorities(r))
  {
    assert MutexOk(s, k, Priorities(s));
    forall w | w in s.mutexes[k].waiters ensures w in r.pcbs && r.pcbs[w].priority == s.pcbs[w].priority {
      assert s.pcbs[w].blocking == Some(k);
    }
  }

  lemma IdleBlocked(s: State, r: State, base: Bases, i: nat, x: nat)
    requires Inv(s, base) && IdleChange(s, r, i) && x in s.pcbs
    ensures s.pcbs[x].blocking != Some(i) && BlockOk(r, x)
  {
    NobodyWaitsAtFree(s, base, i, x);
    assert BlockOk(s, x);
  }

  lemma IdleWaits(s: State, r: State, base: Bases, i: nat)
    requires Inv(s, base) && IdleChange(s, r, i)
    ensures Waits(r) == Waits(s)
  {
    forall x | x in s.pcbs ensures s.pcbs[x].blocking != Some(i) { IdleBlocked(s, r, base, i, x); }
  }

  /** A state in which a mutex without waiters changed hands, or its owner's list. */
  lemma IdleMutexFrame(s: State, r: State, base: Bases, i: nat)
    requires Inv(s, base) && IdleChange(s, r, i) && MutexOk(r, i, Priorities(r)) && r.mutexes[i].waiters == []
    ensures Frame(r, base, Priorities(r))
  {
    forall x | x in r.pcbs ensures BlockOk(r, x) { IdleBlocked(s, r, base, i, x); }
    forall k | 0 <= k < |r.mutexes| ensures MutexOk(r, k, Priorities(r)) {
      if k != i { IdleOther(s, r, base, i, k); }
    }
    IdleWaits(s, r, base, i);
  }

  /** The result of taking free mutex i. */
  function Taken(s: State, i: nat, p: nat): State
    requires p in s.pcbs && i < |s.mutexes|
  {
    AddState(InsertPriority(SetMutex(s, i, s.mutexes[i].(owner := Some(p), next := INT_MAX)), p, INT_MAX), i, -1)
  }

  lemma TakenFrame(s: State, base: Bases, i: nat, p: nat)
    requires Inv(s, base) && p in s.pcbs && i < |s.mutexes| && s.mutexes[i].state == 1
    requires s.pcbs[p].priority <= INT_MAX
    ensures s.mutexes[i].owner.None? && Frame(Taken(s, i, p), base, Priorities(Taken(s, i, p)))
  {
    assert MutexOk(s, i, Priorities(s));
    var r := Taken(s, i, p);
    assert MutexOk(r, i, Priorities(r));
    IdleMutexFrame(s, r, base, i);
  }

  lemma TakenSettles(s: State, base: Bases, i: nat, p: nat)
    requires Inv(s, base) && p in s.pcbs && i < |s.mutexes| && s.mutexes[i].owner.None?
    requires s.pcbs[p].priority <= INT_MAX
    ensures var r := Taken(s, i, p); forall q {:trigger PcbOk(r, base, q)} :: q in r.pcbs ==> PcbOk(r, base, q)
  {
    var m := s.mutexes[i].(owner := Some(p), next := INT_MAX);
    TakenPcbs(s, base, i, p, m);
    SetStateKeepsPcbs(InsertPriority(SetMutex(s, i, m), p, INT_MAX), base, i, -1);
  }

  lemma LockFreeKeeps(s: State, base: Bases, i: nat, p: nat)
    requires Inv(s, base) && p in s.pcbs && i < |s.mutexes| && s.mutexes[i].state == 1
    ensures Inv(Taken(s, i, p), base)
  {
    assert s.pcbs[p].priority <= INT_MAX by {
      assert PcbOk(s, base, p);
      PriorityAtMostBase(s, base, p);
    }
    TakenFrame(s, base, i, p);
    TakenSettles(s, base, i, p);
  }

  // ---------- waiting at an owned mutex ----------

  /** Mutex i with p among its waiters, as a waiting lock leaves it apart from the inheritance. */
  function Joined(s: State, i: nat, p: nat): Mutex
    requires i < |s.mutexes| && p in s.pcbs && forall w :: w in s.mutexes[i].waiters ==> w in s.pcbs
  {
    s.mutexes[i].(waiters := AddWaiter(s.mutexes[i].waiters, p, s.pcbs[p].priority, Priorities(s)))
  }

  /** The frame after p joined: only the waiting process, its mutex and the new edge changed. */
  lemma JoinedFrame(s: State, base: Bases, i: nat, p: nat, next: int)
    requires Inv(s, base) && p in s.pcbs && s.pcbs[p].blocking.None? && i < |s.mutexes| && s.mutexes[i].owner.Some?
    requires p !in Chain(Waits(s), s.mutexes[i].owner.value)
    requires forall w :: w in s.mutexes[i].waiters ==> w in s.pcbs
    requires var ws := Joined(s, i, p).waiters; ws != [] && ws[0] in s.pcbs && next == s.pcbs[ws[0]].priority
    ensures var t := Waiting(SetMutex(s, i, Joined(s, i, p)), i, p, next);
            Frame(t, base, Priorities(t)) && Waits(t) == Waits(s)[p := s.mutexes[i].owner.value]
  {
    var t := Waiting(SetMutex(s, i, Joined(s, i, p)), i, p, next);
    forall k | 0 <= k < |t.mutexes| ensures MutexOk(t, k, Priorities(t)) {
      JoinedMutexes(s, base, i, p, next, k);
    }
    forall x | x in t.pcbs ensures BlockOk(t, x) {
      JoinedBlocks(s, base, i, p, next, x);
    }
    JoinedWaits(s, i, p, next);
    AddEdgeAcyclic(Waits(s), p, s.mutexes[i].owner.value);
  }

  lemma JoinedMutexes(s: State, base: Bases, i: nat, p: nat, next: int, k: nat)
    requires Inv(s, base) && p in s.pcbs && s.pcbs[p].blocking.None? && i < |s.mutexes| && s.mutexes[i].owner.Some?
    requires forall w :: w in s.mutexes[i].waiters ==> w in s.pcbs
    requires var ws := Joined(s, i, p).waiters; ws != [] && ws[0] in s.pcbs && next == s.pcbs[ws[0]].priority
    requires k < |s.mutexes|
    ensures var t := Waiting(SetMutex(s, i, Joined(s, i, p)), i, p, next); MutexOk(t, k, Priorities(t))
  {
    var prio, ws := Priorities(s), s.mutexes[i].waiters;
    var t := Waiting(SetMutex(s, i, Joined(s, i, p)), i, p, next);
    assert Priorities(t) == prio;
    assert MutexOk(s, k, prio);
    if k == i {
      assert p !in ws;
      AddWaiterLaws(ws, p, prio[p], prio);
    }
  }

  lemma JoinedBlocks(s: State, base: Bases, i: nat, p: nat, next: int, x: nat)
    requires Inv(s, base) && p in s.pcbs && s.pcbs[p].blocking.None? && i < |s.mutexes| && s.mutexes[i].owner.Some?
    requires forall w :: w in s.mutexes[i].waiters ==> w in s.pcbs
    requires x in s.pcbs
    ensures BlockOk(Waiting(SetMutex(s, i, Joined(s, i, p)), i, p, next), x)
  {
    assert MutexOk(s, i, Priorities(s));
    assert p !in s.mutexes[i].waiters;
    AddWaiterLaws(s.mutexes[i].waiters, p, s.pcbs[p].priority, Priorities(s));
    if x != p { assert BlockOk(s, x); }
  }

  lemma JoinedWaits(s: State, i: nat, p: nat, next: int)
    requires p in s.pcbs && s.pcbs[p].blocking.None? && i < |s.mutexes| && s.mutexes[i].owner.Some?
    requires forall w :: w in s.mutexes[i].waiters ==> w in s.pcbs
    ensures Waits(Waiting(SetMutex(s, i, Joined(s, i, p)), i, p, next)) == Waits(s)[p := s.mutexes[i].owner.value]
    ensures Waits(SetMutex(s, i, Joined(s, i, p))) == Waits(s)
  {
    var t := SetMutex(s, i, Joined(s, i, p));
    SameWaits(s, t);
    WaitingWaits(t, i, p, next);
  }

  lemma WaitingWaits(s: State, i: nat, p: nat, next: int)
    requires p in s.pcbs && s.pcbs[p].blocking.None? && i < |s.mutexes| && s.mutexes[i].owner.Some?
    ensures Waits(Waiting(s, i, p, next)) == Waits(s)[p := s.mutexes[i].owner.value]
  {
    var t := Waiting(s, i, p, next);
    forall k | 0 <= k < |s.mutexes| ensures t.mutexes[k].owner == s.mutexes[k].owner {
    }
  }

  lemma JoinedPcbs(s: State, base: Bases, i: nat, p: nat, next: int)
    requires p in s.pcbs && i < |s.mutexes| && base.Keys == s.pcbs.Keys
    requires forall w :: w in s.mutexes[i].waiters ==> w in s.pcbs
    requires forall q {:trigger PcbOk(s, base, q)} :: q in s.pcbs ==> PcbOk(s, base, q)
    ensures var t := Waiting(SetMutex(s, i, Joined(s, i, p)), i, p, next);
            forall q {:trigger PcbOk(t, base, q)} ::
              q in s.pcbs && (s.mutexes[i].owner != Some(q) || next == s.mutexes[i].next) ==> PcbOk(t, base, q)
  {
    var m := Joined(s, i, p).(next := next);
    var t := Waiting(SetMutex(s, i, Joined(s, i, p)), i, p, next);
    PcbsAfterMutex(s, i, m, base);
    forall q | q in s.pcbs && (s.mutexes[i].owner != Some(q) || next == s.mutexes[i].next) ensures PcbOk(t, base, q) {
      assert PcbOk(SetMutex(s, i, m), base, q);
      HeldSame(SetMutex(s, i, m).mutexes, t.mutexes, q, |s.mutexes|);
    }
  }

  /** Joining behind a better waiter settles everything at once. */
  lemma JoinBehindKeeps(s: State, base: Bases, i: nat, p: nat)
    requires Inv(s, base) && p in s.pcbs && s.pcbs[p].blocking.None? && i < |s.mutexes| && s.mutexes[i].owner.Some?
    requires p !in Chain(Waits(s), s.mutexes[i].owner.value)
    requires forall w :: w in s.mutexes[i].waiters ==> w in s.pcbs
    requires WaiterIndex(s.mutexes[i].waiters, s.pcbs[p].priority, Priorities(s)) != 0
    ensures Inv(Waiting(SetMutex(s, i, Joined(s, i, p)), i, p, s.mutexes[i].next), base)
  {
    assert MutexOk(s, i, Priorities(s));
    assert p !in s.mutexes[i].waiters;
    AddWaiterLaws(s.mutexes[i].waiters, p, s.pcbs[p].priority, Priorities(s));
    JoinedFrame(s, base, i, p, s.mutexes[i].next);
    JoinedPcbs(s, base, i, p, s.mutexes[i].next);
  }

  /** Joining in front leaves the owner's list to be repaired. */
  lemma JoinInFrontPending(s: State, base: Bases, i: nat, p: nat)
    requires Inv(s, base) && p in s.pcbs && s.pcbs[p].blocking.None? && i < |s.mutexes| && s.mutexes[i].owner.Some?
    requires p !in Chain(Waits(s), s.mutexes[i].owner.value)
    requires forall w :: w in s.mutexes[i].waiters ==> w in s.pcbs
    requires WaiterIndex(s.mutexes[i].waiters, s.pcbs[p].priority, Priorities(s)) == 0
    ensures Pending(Waiting(SetMutex(s, i, Joined(s, i, p)), i, p, s.pcbs[p].priority), base,
                    s.mutexes[i].owner.value, s.mutexes[i].next, s.pcbs[p].priority)
  {
    var prio, m, x := Priorities(s), s.mutexes[i], s.pcbs[p].priority;
    var o := m.owner.value;
    assert MutexOk(s, i, prio);
    assert p !in m.waiters;
    AddWaiterLaws(m.waiters, p, x, prio);
    WaiterIndexSpec(m.waiters, x, prio);
    assert PcbOk(s, base, p);
    PriorityAtMostBase(s, base, p);
    assert x <= m.next;
    JoinedFrame(s, base, i, p, x);
    JoinedPcbs(s, base, i, p, x);
    ChainEnds(Waits(s), o);
    OwnerPending(s, base, i, p, x);
  }

  lemma OwnerPending(s: State, base: Bases, i: nat, p: nat, x: int)
    requires Inv(s, base) && p in s.pcbs && i < |s.mutexes| && s.mutexes[i].owner.Some?
    requires s.mutexes[i].owner.value in s.pcbs && s.mutexes[i].owner.value != p
    requires forall w :: w in s.mutexes[i].waiters ==> w in s.pcbs
    ensures var t := Waiting(SetMutex(s, i, Joined(s, i, p)), i, p, x);
            var o, old_ := s.mutexes[i].owner.value, s.mutexes[i].next;
            && ListOk(t.pcbs[o]) && old_ in t.pcbs[o].priorities
            && multiset(t.pcbs[o].priorities) + multiset{x} == Entitled(t, base, o) + multiset{old_}
  {
    var o := s.mutexes[i].owner.value;
    var m := Joined(s, i, p).(next := x);
    var t := Waiting(SetMutex(s, i, Joined(s, i, p)), i, p, x);
    assert PcbOk(s, base, o);
    EntitledAfterMutex(s, i, m, base, o);
    HeldSame(SetMutex(s, i, m).mutexes, t.mutexes, o, |s.mutexes|);
    HeldHas(s.mutexes, i, o, |s.mutexes|);
    assert s.mutexes[i].next in multiset(s.pcbs[o].priorities);
  }

  /** Waiting inserts the process, runs the inheritance and only then records the lent priority and
      the blocking mutex; the result is the inheritance run on the finished bookkeeping. */
  lemma LockWaitUnfold(s: State, i: nat, p: nat)
    requires Linked(s) && Acyclic(Waits(s)) && p in s.pcbs && i < |s.mutexes|
    requires s.mutexes[i].state != 1 && s.mutexes[i].owner.Some? && s.mutexes[i].active
    requires var t := Waiting(SetMutex(s, i, Joined(s, i, p)), i, p, s.pcbs[p].priority);
             Linked(t) && Acyclic(Waits(t)) && s.mutexes[i].owner.value in t.pcbs
    requires Clear(s, s.mutexes[i].owner.value, i, p)
    requires WaiterIndex(s.mutexes[i].waiters, s.pcbs[p].priority, Priorities(s)) == 0
    ensures var t := Waiting(SetMutex(s, i, Joined(s, i, p)), i, p, s.pcbs[p].priority);
            LockMutex(s, i, p) == (ReplacePriority(t, s.mutexes[i].owner.value, s.mutexes[i].next, s.pcbs[p].priority), WaitingMutex)
  {
    var m, x := s.mutexes[i], s.pcbs[p].priority;
    var s1 := SetMutex(s, i, Joined(s, i, p));
    JoinWaitersUnfold(s, i, p);
    ClearNext(s, s1, m.owner.value, i, p);
    ReplaceCommutes(s1, m.owner.value, m.next, x, i, p, x);
    RecordedIsWaiting(ReplacePriority(s1, m.owner.value, m.next, x), i, p, x);
  }

  lemma JoinWaitersUnfold(s: State, i: nat, p: nat)
    requires Linked(s) && Acyclic(Waits(s)) && p in s.pcbs && i < |s.mutexes|
    requires s.mutexes[i].owner.Some? && s.mutexes[i].active
    requires WaiterIndex(s.mutexes[i].waiters, s.pcbs[p].priority, Priorities(s)) == 0
    ensures var s1 := SetMutex(s, i, Joined(s, i, p));
            && Linked(s1) && Waits(s1) == Waits(s) && s.mutexes[i].owner.value in s1.pcbs
            && var s2 := ReplacePriority(s1, s.mutexes[i].owner.value, s.mutexes[i].next, s.pcbs[p].priority);
            && |s2.mutexes| == |s.mutexes| && p in s2.pcbs
            && JoinWaiters(s, i, p) == SetMutex(s2, i, s2.mutexes[i].(next := s.pcbs[p].priority))
  {
    JoinedLinked(s, i, p);
    ReplaceShape(SetMutex(s, i, Joined(s, i, p)), s.mutexes[i].owner.value, s.mutexes[i].next, s.pcbs[p].priority);
  }

  lemma JoinedLinked(s: State, i: nat, p: nat)
    requires Linked(s) && p in s.pcbs && i < |s.mutexes|
    ensures Linked(SetMutex(s, i, Joined(s, i, p))) && Waits(SetMutex(s, i, Joined(s, i, p))) == Waits(s)
  {
    SameWaits(s, SetMutex(s, i, Joined(s, i, p)));
    assert forall w :: w in Joined(s, i, p).waiters ==> w in s.pcbs;
  }

  lemma RecordedIsWaiting(s: State, i: nat, p: nat, x: int)
    requires p in s.pcbs && i < |s.mutexes|
    ensures AddState(SetBlocking(SetMutex(s, i, s.mutexes[i].(next := x)), p, Some(i)), i, -1) == Waiting(s, i, p, x)
  {
  }

  lemma {:induction false} ChainDepth(g: Graph, o: nat, x: nat)
    requires Acyclic(g) && x in Chain(g, o)
    ensures Depth(g, x) <= Depth(g, o)
    decreases Depth(g, o)
  {
    if x != o {
      ChainDepth(g, g[o], x);
    }
  }

  /** Nobody the owner waits for can itself be blocked on the owner's mutex. */
  lemma OwnerChainIsClear(s: State, base: Bases, i: nat, p: nat)
    requires Inv(s, base) && i < |s.mutexes| && s.mutexes[i].owner.Some?
    requires p !in Chain(Waits(s), s.mutexes[i].owner.value)
    ensures Clear(s, s.mutexes[i].owner.value, i, p)
  {
    var o := s.mutexes[i].owner.value;
    forall x | x in Chain(Waits(s), o) && x in s.pcbs ensures s.pcbs[x].blocking != Some(i) {
      if s.pcbs[x].blocking == Some(i) {
        assert Waits(s)[x] == o;
        ChainDepth(Waits(s), o, x);
      }
    }
  }

  lemma OwnedMutex(s: State, base: Bases, i: nat)
    requires Inv(s, base) && i < |s.mutexes| && s.mutexes[i].state != 1
    ensures s.mutexes[i].owner.Some? && s.mutexes[i].owner.value in s.pcbs && s.mutexes[i].active
    ensures forall w :: w in s.mutexes[i].waiters ==> w in s.pcbs
  {
    assert MutexOk(s, i, Priorities(s));
  }

  lemma LockInFrontKeeps(s: State, base: Bases, i: nat, p: nat)
    requires Inv(s, base) && p in s.pcbs && s.pcbs[p].blocking.None? && i < |s.mutexes| && s.mutexes[i].state != 1
    requires Linked(s) && Acyclic(Waits(s)) && s.mutexes[i].owner.Some?
    requires p !in Chain(Waits(s), s.mutexes[i].owner.value)
    requires WaiterIndex(s.mutexes[i].waiters, s.pcbs[p].priority, Priorities(s)) == 0
    ensures Inv(LockMutex(s, i, p).0, base) && LockMutex(s, i, p).1 == WaitingMutex
  {
    OwnedMutex(s, base, i);
    var t := Waiting(SetMutex(s, i, Joined(s, i, p)), i, p, s.pcbs[p].priority);
    var o, old_, x := s.mutexes[i].owner.value, s.mutexes[i].next, s.pcbs[p].priority;
    JoinInFrontPending(s, base, i, p);
    PendingIsLinked(t, base, o, old_, x);
    OwnerChainIsClear(s, base, i, p);
    LockWaitUnfold(s, i, p);
    ReplaceKeeps(t, base, o, old_, x);
  }

  lemma LockBehindKeeps(s: State, base: Bases, i: nat, p: nat)
    requires Inv(s, base) && p in s.pcbs && s.pcbs[p].blocking.None? && i < |s.mutexes| && s.mutexes[i].state != 1
    requires Linked(s) && Acyclic(Waits(s)) && s.mutexes[i].owner.Some?
    requires p !in Chain(Waits(s), s.mutexes[i].owner.value)
    requires WaiterIndex(s.mutexes[i].waiters, s.pcbs[p].priority, Priorities(s)) != 0
    ensures Inv(LockMutex(s, i, p).0, base) && LockMutex(s, i, p).1 == WaitingMutex
  {
    OwnedMutex(s, base, i);
    JoinBehindKeeps(s, base, i, p);
    RecordedIsWaiting(SetMutex(s, i, Joined(s, i, p)), i, p, s.mutexes[i].next);
    assert LockMutex(s, i, p).0 == AddState(SetBlocking(SetMutex(s, i, Joined(s, i, p)), p, Some(i)), i, -1);
  }

  /** A lock by a running process that closes no cycle keeps the bookkeeping. */
  lemma LockKeeps(s: State, base: Bases, i: nat, p: nat)
    requires Inv(s, base) && p in s.pcbs && s.pcbs[p].blocking.None? && i < |s.mutexes|
    requires s.mutexes[i].owner.Some? ==> p !in Chain(Waits(s), s.mutexes[i].owner.value)
    ensures Linked(s) && Acyclic(Waits(s)) && (s.mutexes[i].state == 1 || s.mutexes[i].owner.Some?)
    ensures Inv(LockMutex(s, i, p).0, base)
    ensures LockMutex(s, i, p).1 == if s.mutexes[i].owner.None? then MutexLocked else WaitingMutex
  {
    InvIsLinked(s, base);
    assert s.mutexes[i].state == 1 <==> s.mutexes[i].owner.None? by { assert MutexOk(s, i, Priorities(s)); }
    if s.mutexes[i].state == 1 {
      LockFreeKeeps(s, base, i, p);
    } else if WaiterIndex(s.mutexes[i].waiters, s.pcbs[p].priority, Priorities(s)) == 0 {
      LockInFrontKeeps(s, base, i, p);
    } else {
      LockBehindKeeps(s, base, i, p);
    }
  }

  // ---------- unlocking ----------

  lemma EntitledAfterMove(s: State, base: Bases, i: nat, m: Mutex, q: nat)
    requires q in base && i < |s.mutexes|
    ensures Entitled(SetMutex(s, i, m), base, q) + Lending(s.mutexes[i], q) == Entitled(s, base, q) + Lending(m, q)
  {
    HeldUpdate(s.mutexes, i, m, q);
    var n := |s.mutexes|;
    var b, h, h' := multiset{base[q]}, Held(s.mutexes, q, n), Held(s.mutexes[i := m], q, n);
    assert (b + h) + Lending(m, q) == b + (h + Lending(m, q));
    assert (b + h') + Lending(s.mutexes[i], q) == b + (h' + Lending(s.mutexes[i], q));
  }

  /** The owner's list without what the mutex lends. */
  lemma ReleasedList(s: State, base: Bases, i: nat, p: nat)
    requires p in s.pcbs && p in base && i < |s.mutexes| && s.mutexes[i].owner == Some(p) && PcbOk(s, base, p)
    ensures var l := RemoveFirst(s.pcbs[p].priorities, s.mutexes[i].next);
            l != [] && Sorted(l) && multiset(l) + multiset{s.mutexes[i].next} == Entitled(s, base, p)
  {
    var next, l0 := s.mutexes[i].next, s.pcbs[p].priorities;
    var l := RemoveFirst(l0, next);
    RemoveFirstCounts(l0, next);
    RemoveFirstSorted(l0, next);
    HeldHas(s.mutexes, i, p, |s.mutexes|);
    var b, h := multiset{base[p]}, Held(s.mutexes, p, |s.mutexes|);
    assert multiset(l0) == b + h;
    assert multiset(l0)[base[p]] == 1 + h[base[p]];
    assert multiset(l0)[next] >= 1;
    assert multiset(l)[base[p]] >= 1;
    forall x: int ensures (multiset(l) + multiset{next})[x] == multiset(l0)[x] {}
    assert base[p] in multiset(l);
    assert base[p] in l;
  }

  /** The state after the owner gave the mutex up and it became m, held by nobody or by the heir,
      whose list got what m lends. */
  function Moved(s: State, i: nat, p: nat, m: Mutex): State
    requires p in s.pcbs && i < |s.mutexes|
  {
    var l := RemoveFirst(s.pcbs[p].priorities, s.mutexes[i].next);
    var s1 := if l != [] then SetPriorities(s, p, l) else s;
    var s2 := SetMutex(s1, i, m);
    match m.owner
    case None => s2
    case Some(heir) => if heir in s2.pcbs then InsertPriority(SetBlocking(s2, heir, None), heir, m.next) else s2
  }

  lemma MovedOwner(s: State, base: Bases, i: nat, p: nat, m: Mutex)
    requires p in s.pcbs && i < |s.mutexes| && base.Keys == s.pcbs.Keys && s.mutexes[i].owner == Some(p)
    requires PcbOk(s, base, p) && m.owner != Some(p)
    ensures p in Moved(s, i, p, m).pcbs && PcbOk(Moved(s, i, p, m), base, p)
  {
    var r := Moved(s, i, p, m);
    ReleasedList(s, base, i, p);
    EntitledAfterMove(s, base, i, m, p);
    assert Entitled(r, base, p) == Entitled(SetMutex(s, i, m), base, p);
    assert Lending(m, p) == multiset{} && Entitled(s, base, p) + multiset{} == Entitled(s, base, p);
    Cancel(multiset(r.pcbs[p].priorities), Entitled(r, base, p), s.mutexes[i].next);
  }

  lemma MovedOthers(s: State, base: Bases, i: nat, p: nat, m: Mutex, q: nat)
    requires p in s.pcbs && i < |s.mutexes| && base.Keys == s.pcbs.Keys && s.mutexes[i].owner == Some(p)
    requires q in s.pcbs && q != p && PcbOk(s, base, q)
    requires m.owner.Some? ==> m.owner.value in s.pcbs && m.owner.value != p && s.pcbs[m.owner.value].priority <= m.next
    ensures q in Moved(s, i, p, m).pcbs && PcbOk(Moved(s, i, p, m), base, q)
  {
    var r := Moved(s, i, p, m);
    EntitledAfterMove(s, base, i, m, q);
    assert Entitled(r, base, q) == Entitled(SetMutex(s, i, m), base, q);
    assert Lending(s.mutexes[i], q) == multiset{} && Entitled(r, base, q) + multiset{} == Entitled(r, base, q);
    if m.owner == Some(q) {
      AddPriorityLaws(s.pcbs[q].priorities, m.next);
    } else {
      assert Entitled(s, base, q) + multiset{} == Entitled(s, base, q);
    }
  }

  lemma MovedPcb(s: State, base: Bases, i: nat, p: nat, m: Mutex, q: nat)
    requires p in s.pcbs && i < |s.mutexes| && base.Keys == s.pcbs.Keys && s.mutexes[i].owner == Some(p)
    requires forall x {:trigger PcbOk(s, base, x)} :: x in s.pcbs ==> PcbOk(s, base, x)
    requires m.owner.Some? ==> m.owner.value in s.pcbs && m.owner.value != p && s.pcbs[m.owner.value].priority <= m.next
    requires q in s.pcbs
    ensures q in Moved(s, i, p, m).pcbs && PcbOk(Moved(s, i, p, m), base, q)
  {
    assert PcbOk(s, base, q);
    if q == p {
      MovedOwner(s, base, i, p, m);
    } else {
      MovedOthers(s, base, i, p, m, q);
    }
  }

  /** Giving up a mutex nobody waits for. */
  lemma ReleaseKeeps(s: State, base: Bases, i: nat, p: nat)
    requires Inv(s, base) && p in s.pcbs && s.pcbs[p].blocking.None? && i < |s.mutexes|
    requires s.mutexes[i].owner == Some(p) && s.mutexes[i].state == 0
    ensures Inv(Moved(s, i, p, s.mutexes[i].(owner := None, next := INT_MAX, state := 1)), base)
  {
    var m := s.mutexes[i].(owner := None, next := INT_MAX, state := 1);
    var r := Moved(s, i, p, m);
    assert MutexOk(s, i, Priorities(s));
    assert MutexOk(r, i, Priorities(r));
    IdleMutexFrame(s, r, base, i);
    forall q | q in r.pcbs ensures PcbOk(r, base, q) { MovedPcb(s, base, i, p, m, q); }
  }

  /** Mutex i in the hands of its first waiter. */
  function Inherited(s: State, i: nat): Mutex
    requires i < |s.mutexes| && s.mutexes[i].waiters != [] && forall w :: w in s.mutexes[i].waiters ==> w in s.pcbs
  {
    var m := s.mutexes[i];
    m.(owner := Some(m.waiters[0]), waiters := m.waiters[1..], state := m.state + 1,
       next := if |m.waiters| == 1 then INT_MAX else s.pcbs[m.waiters[1]].priority)
  }

  /** What is known about the waiters of an owned mutex. */
  lemma HeirFacts(s: State, base: Bases, i: nat, p: nat)
    requires Inv(s, base) && p in s.pcbs && s.pcbs[p].blocking.None? && i < |s.mutexes|
    requires s.mutexes[i].owner == Some(p) && s.mutexes[i].state < 0
    ensures var m := s.mutexes[i];
            && m.active && m.waiters != [] && m.state == -|m.waiters| && (forall w :: w in m.waiters ==> w in s.pcbs)
            && m.waiters[0] != p && p !in m.waiters && s.pcbs[m.waiters[0]].blocking == Some(i)
            && s.pcbs[m.waiters[0]].priority <= Inherited(s, i).next
  {
    assert MutexOk(s, i, Priorities(s));
    var heir := s.mutexes[i].waiters[0];
    assert heir in s.mutexes[i].waiters;
    assert PcbOk(s, base, heir);
    PriorityAtMostBase(s, base, heir);
  }

  /** Mutex i passed from p to its first waiter, the heir, who is blocked no more; nobody else's
      entry changed. */
  ghost predicate Handed(s: State, r: State, i: nat, p: nat) {
    && i < |s.mutexes| && s.mutexes[i].waiters != [] && (forall w :: w in s.mutexes[i].waiters ==> w in s.pcbs)
    && r.mutexes == s.mutexes[i := Inherited(s, i)] && r.names == s.names && r.pcbs.Keys == s.pcbs.Keys
    && p in s.pcbs && r.pcbs[p].blocking == s.pcbs[p].blocking
    && var heir := s.mutexes[i].waiters[0];
    && heir != p && r.pcbs[heir].blocking.None?
    && forall x :: x in s.pcbs && x != p && x != heir ==> r.pcbs[x] == s.pcbs[x]
  }

  lemma MovedIsHanded(s: State, base: Bases, i: nat, p: nat)
    requires Inv(s, base) && p in s.pcbs && s.pcbs[p].blocking.None? && i < |s.mutexes|
    requires s.mutexes[i].owner == Some(p) && s.mutexes[i].state < 0
    requires s.mutexes[i].waiters != [] && forall w :: w in s.mutexes[i].waiters ==> w in s.pcbs
    ensures Handed(s, Moved(s, i, p, Inherited(s, i)), i, p)
  {
    HeirFacts(s, base, i, p);
    MovedFrame(s, i, p, Inherited(s, i), s.mutexes[i].waiters[0]);
  }

  lemma MovedFrame(s: State, i: nat, p: nat, m: Mutex, heir: nat)
    requires p in s.pcbs && heir in s.pcbs && heir != p && i < |s.mutexes| && m.owner == Some(heir)
    ensures var r := Moved(s, i, p, m);
            && r.mutexes == s.mutexes[i := m] && r.names == s.names && r.pcbs.Keys == s.pcbs.Keys
            && r.pcbs[p].blocking == s.pcbs[p].blocking && r.pcbs[heir].blocking.None?
            && forall x :: x in s.pcbs && x != p && x != heir ==> r.pcbs[x] == s.pcbs[x]
  {
  }

  /** The processes that keep waiting keep their entries. */
  lemma StillWaiting(s: State, r: State, base: Bases, i: nat, p: nat, k: nat, w: nat)
    requires Inv(s, base) && Handed(s, r, i, p) && s.pcbs[p].blocking.None? && k < |s.mutexes|
    requires w in s.mutexes[k].waiters && (k == i ==> w != s.mutexes[i].waiters[0])
    ensures w in s.pcbs && s.pcbs[w].blocking == Some(k) && w in r.pcbs && r.pcbs[w] == s.pcbs[w]
  {
    assert MutexOk(s, k, Priorities(s));
    assert MutexOk(s, i, Priorities(s));
    var heir := s.mutexes[i].waiters[0];
    assert heir in s.mutexes[i].waiters;
  }

  lemma HandedOther(s: State, r: State, base: Bases, i: nat, p: nat, k: nat)
    requires Inv(s, base) && Handed(s, r, i, p) && s.pcbs[p].blocking.None? && k < |s.mutexes| && k != i
    ensures MutexOk(r, k, Priorities(r))
  {
    assert MutexOk(s, k, Priorities(s));
    forall w | w in s.mutexes[k].waiters ensures w in r.pcbs && r.pcbs[w] == s.pcbs[w] {
      StillWaiting(s, r, base, i, p, k, w);
    }
  }

  lemma HandedSame(s: State, r: State, base: Bases, i: nat, p: nat)
    requires Inv(s, base) && Handed(s, r, i, p) && s.pcbs[p].blocking.None? && s.mutexes[i].owner == Some(p)
    ensures MutexOk(r, i, Priorities(r))
  {
    var m := s.mutexes[i];
    assert MutexOk(s, i, Priorities(s));
    var ws := m.waiters[1..];
    forall x | 0 <= x < |ws| ensures ws[x] in r.pcbs && r.pcbs[ws[x]] == s.pcbs[ws[x]] && s.pcbs[ws[x]].blocking == Some(i) {
      assert ws[x] == m.waiters[x + 1];
      assert m.waiters[x + 1] != m.waiters[0];
      StillWaiting(s, r, base, i, p, i, ws[x]);
    }
    assert m.waiters[0] in r.pcbs;
  }

  lemma HandedWaits(s: State, r: State, base: Bases, i: nat, p: nat)
    requires Inv(s, base) && Handed(s, r, i, p) && s.pcbs[p].blocking.None? && s.mutexes[i].owner == Some(p)
    ensures Acyclic(Waits(r))
  {
    HandOverAcyclic(Waits(s), Waits(r), s.mutexes[i].waiters[0]);
  }

  lemma HandedBlock(s: State, r: State, base: Bases, i: nat, p: nat, x: nat)
    requires Inv(s, base) && Handed(s, r, i, p) && s.pcbs[p].blocking.None? && x in s.pcbs
    ensures BlockOk(r, x)
  {
    assert BlockOk(s, x);
    var ws := s.mutexes[i].waiters;
    if s.pcbs[x].blocking == Some(i) && x != ws[0] {
      var k :| 0 <= k < |ws| && ws[k] == x;
      assert ws[1..][k - 1] == x;
    }
  }

  lemma HandedFrame(s: State, r: State, base: Bases, i: nat, p: nat)
    requires Inv(s, base) && Handed(s, r, i, p) && s.pcbs[p].blocking.None? && s.mutexes[i].owner == Some(p)
    ensures Frame(r, base, Priorities(r))
  {
    forall k | 0 <= k < |r.mutexes| ensures MutexOk(r, k, Priorities(r)) {
      if k == i { HandedSame(s, r, base, i, p); } else { HandedOther(s, r, base, i, p, k); }
    }
    forall x | x in r.pcbs ensures BlockOk(r, x) { HandedBlock(s, r, base, i, p, x); }
    HandedWaits(s, r, base, i, p);
  }

  lemma HandKeeps(s: State, base: Bases, i: nat, p: nat)
    requires Inv(s, base) && p in s.pcbs && s.pcbs[p].blocking.None? && i < |s.mutexes|
    requires s.mutexes[i].owner == Some(p) && s.mutexes[i].state < 0
    requires s.mutexes[i].waiters != [] && forall w :: w in s.mutexes[i].waiters ==> w in s.pcbs
    ensures Inv(Moved(s, i, p, Inherited(s, i)), base)
  {
    var r := Moved(s, i, p, Inherited(s, i));
    assert forall q {:trigger PcbOk(r, base, q)} :: q in r.pcbs ==> PcbOk(r, base, q) by {
      HeirFacts(s, base, i, p);
      forall q | q in r.pcbs ensures PcbOk(r, base, q) { MovedPcb(s, base, i, p, Inherited(s, i), q); }
    }
    assert Frame(r, base, Priorities(r)) by {
      MovedIsHanded(s, base, i, p);
      HandedFrame(s, r, base, i, p);
    }
  }

  lemma OwnerCanUnlock(s: State, base: Bases, i: nat, p: nat)
    requires Inv(s, base) && p in s.pcbs && i < |s.mutexes|
    ensures Linked(s) && CanUnlock(s, i, p)
    ensures s.mutexes[i].owner == Some(p) ==> s.mutexes[i].active && s.mutexes[i].state == -|s.mutexes[i].waiters|
  {
    InvIsLinked(s, base);
    assert MutexOk(s, i, Priorities(s));
    assert PcbOk(s, base, p);
    if s.mutexes[i].owner == Some(p) { ReleasedList(s, base, i, p); }
  }

  lemma UnlockReleases(s: State, base: Bases, i: nat, p: nat)
    requires Inv(s, base) && p in s.pcbs && s.pcbs[p].blocking.None? && i < |s.mutexes|
    requires Linked(s) && CanUnlock(s, i, p) && s.mutexes[i].owner == Some(p) && s.mutexes[i].active
    requires s.mutexes[i].state == 0
    ensures var r := UnlockMutex(s, i, p);
            Inv(r.0, base) && r.1 == MutexUnlocked && r.0.mutexes[i].owner == None
  {
    ReleaseKeeps(s, base, i, p);
    ReleaseUnfold(s, i, p);
  }

  lemma UnlockHands(s: State, base: Bases, i: nat, p: nat)
    requires Inv(s, base) && p in s.pcbs && s.pcbs[p].blocking.None? && i < |s.mutexes|
    requires Linked(s) && CanUnlock(s, i, p) && s.mutexes[i].owner == Some(p) && s.mutexes[i].active
    requires s.mutexes[i].state < 0
    ensures var r := UnlockMutex(s, i, p);
            Inv(r.0, base) && r.1 == MutexUnlocked && r.0.mutexes[i].owner == Some(s.mutexes[i].waiters[0])
  {
    HeirFacts(s, base, i, p);
    HandKeeps(s, base, i, p);
    HandUnfold(s, i, p);
  }

  /** An unlock by the running owner keeps the bookkeeping and either frees the mutex or hands it
      to the best waiter; an unlock by anybody else changes nothing. */
  lemma UnlockKeeps(s: State, base: Bases, i: nat, p: nat)
    requires Inv(s, base) && p in s.pcbs && s.pcbs[p].blocking.None? && i < |s.mutexes|
    ensures Linked(s) && CanUnlock(s, i, p)
    ensures var r := UnlockMutex(s, i, p);
            && Inv(r.0, base) && |r.0.mutexes| == |s.mutexes|
            && (if s.mutexes[i].owner != Some(p) then r == (s, ProcessHasNoLockedMutex)
                else r.1 == MutexUnlocked
                     && r.0.mutexes[i].owner
                        == if s.mutexes[i].waiters == [] then None else Some(s.mutexes[i].waiters[0]))
  {
    OwnerCanUnlock(s, base, i, p);
    if s.mutexes[i].owner == Some(p) {
      if s.mutexes[i].state == 0 {
        UnlockReleases(s, base, i, p);
      } else {
        UnlockHands(s, base, i, p);
      }
    }
  }

  lemma ReleaseUnfold(s: State, i: nat, p: nat)
    requires Linked(s) && p in s.pcbs && i < |s.mutexes| && s.mutexes[i].owner == Some(p) && s.mutexes[i].active
    requires CanUnlock(s, i, p) && s.mutexes[i].state == 0
    ensures UnlockMutex(s, i, p)
         == (Moved(s, i, p, s.mutexes[i].(owner := None, next := INT_MAX, state := 1)), MutexUnlocked)
  {
    var r, r' := UnlockMutex(s, i, p).0, Moved(s, i, p, s.mutexes[i].(owner := None, next := INT_MAX, state := 1));
    assert r.mutexes == r'.mutexes;
  }

  lemma HandUnfold(s: State, i: nat, p: nat)
    requires Linked(s) && p in s.pcbs && i < |s.mutexes| && s.mutexes[i].owner == Some(p) && s.mutexes[i].active
    requires CanUnlock(s, i, p)
    requires s.mutexes[i].waiters != [] && s.mutexes[i].state == -|s.mutexes[i].waiters|
    requires p !in s.mutexes[i].waiters
    ensures UnlockMutex(s, i, p) == (Moved(s, i, p, Inherited(s, i)), MutexUnlocked)
  {
    var ws := s.mutexes[i].waiters;
    assert ws[0] in ws && (|ws| > 1 ==> ws[1] in ws);
    var s1 := SetPriorities(s, p, RemoveFirst(s.pcbs[p].priorities, s.mutexes[i].next));
    HandOverUnfold(s1, i);
    assert UnlockMutex(s, i, p) == (AddState(HandOver(s1, i), i, 1), MutexUnlocked);
    assert Inherited(s1, i) == Inherited(s, i);
  }

  /** The hand-over itself: the first waiter inherits the mutex and stops waiting. */
  lemma HandOverUnfold(s: State, i: nat)
    requires Linked(s) && i < |s.mutexes| && s.mutexes[i].active && s.mutexes[i].waiters != []
    requires s.mutexes[i].state == -|s.mutexes[i].waiters|
    requires forall w :: w in s.mutexes[i].waiters ==> w in s.pcbs
    ensures var m := Inherited(s, i);
            AddState(HandOver(s, i), i, 1)
            == InsertPriority(SetBlocking(SetMutex(s, i, m), s.mutexes[i].waiters[0], None), s.mutexes[i].waiters[0], m.next)
  {
  }
}
