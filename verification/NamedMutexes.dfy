/** The mutexes as the system calls name them: who holds which and who waits for which after every call,
    that unlocking undoes locking, and that different names are different mutexes. */
module NamedMutexes {
  import opened Options
  import opened PriorityLists
  import opened MutexTables
  import opened MutexLaws
  import opened MutexCalls
  import opened LockUnlock
  import opened Inheritance

  // ---------- who holds and who waits ----------

  function OwnerOf(s: State, i: nat): Option<nat> {
    if i < |s.mutexes| then s.mutexes[i].owner else None
  }

  function BlockedOn(s: State, p: nat): Option<nat> {
    if p in s.pcbs then s.pcbs[p].blocking else None
  }

  /** Mutex i gets this owner and process p this mutex to wait for; no other mutex changes its owner, no
      other process what it waits for. */
  ghost predicate Holdings(s: State, t: State, i: nat, owner: Option<nat>, p: nat, blocked: Option<nat>) {
    && |t.mutexes| == |s.mutexes| && t.names == s.names && t.pcbs.Keys == s.pcbs.Keys
    && (forall k: nat {:trigger OwnerOf(t, k)} :: OwnerOf(t, k) == if k == i then owner else OwnerOf(s, k))
    && (forall x: nat {:trigger BlockedOn(t, x)} :: BlockedOn(t, x) == if x == p then blocked else BlockedOn(s, x))
  }

  // ---------- locking ----------

  lemma TakingIs(s: State, base: Bases, i: nat, p: nat)
    requires Inv(s, base) && p in s.pcbs && i < |s.mutexes| && s.mutexes[i].owner.None?
    ensures Linked(s) && Acyclic(Waits(s)) && s.mutexes[i].state == 1
    ensures LockMutex(s, i, p) == (Taken(s, i, p), MutexLocked)
    ensures Holdings(s, Taken(s, i, p), i, Some(p), p, BlockedOn(s, p))
  {
    InvIsLinked(s, base);
    assert MutexOk(s, i, Priorities(s));
    TakenHoldings(s, i, p);
  }

  lemma TakenHoldings(s: State, i: nat, p: nat)
    requires p in s.pcbs && i < |s.mutexes|
    ensures Holdings(s, Taken(s, i, p), i, Some(p), p, BlockedOn(s, p))
  {
  }

  /** Same owners, same waiting. */
  ghost predicate SameHoldings(s: State, t: State) {
    && |t.mutexes| == |s.mutexes| && t.names == s.names && t.pcbs.Keys == s.pcbs.Keys
    && (forall k: nat {:trigger OwnerOf(t, k)} :: OwnerOf(t, k) == OwnerOf(s, k))
    && (forall x: nat {:trigger BlockedOn(t, x)} :: BlockedOn(t, x) == BlockedOn(s, x))
  }

  lemma SetMutexHoldings(s: State, i: nat, m: Mutex)
    requires i < |s.mutexes| && m.owner == s.mutexes[i].owner
    ensures SameHoldings(s, SetMutex(s, i, m))
  {
  }

  lemma SameShapeHoldings(s: State, t: State)
    requires SameShape(s, t)
    ensures SameHoldings(s, t)
  {
  }

  lemma SameHoldingsTrans(s: State, t: State, u: State)
    requires SameHoldings(s, t) && SameHoldings(t, u)
    ensures SameHoldings(s, u)
  {
    forall k: nat ensures OwnerOf(u, k) == OwnerOf(s, k) { assert OwnerOf(t, k) == OwnerOf(s, k); }
    forall x: nat ensures BlockedOn(u, x) == BlockedOn(s, x) { assert BlockedOn(t, x) == BlockedOn(s, x); }
  }

  /** Whoever joins in front lends its priority along the chain. */
  lemma JoiningInFront(s: State, i: nat, p: nat) returns (lent: State)
    requires Linked(s) && Acyclic(Waits(s)) && p in s.pcbs && i < |s.mutexes| && s.mutexes[i].owner.Some? && s.mutexes[i].active
    requires WaiterIndex(s.mutexes[i].waiters, s.pcbs[p].priority, Priorities(s)) == 0
    ensures i < |lent.mutexes| && SameShape(SetMutex(s, i, Joined(s, i, p)), lent)
    ensures JoinWaiters(s, i, p) == SetMutex(lent, i, lent.mutexes[i].(next := s.pcbs[p].priority))
  {
    var s1, m := SetMutex(s, i, Joined(s, i, p)), s.mutexes[i];
    JoinedLinked(s, i, p);
    ReplaceShape(s1, m.owner.value, m.next, s.pcbs[p].priority);
    lent := ReplacePriority(s1, m.owner.value, m.next, s.pcbs[p].priority);
  }

  /** The inheritance that joining the waiters causes changes no owner and no waiting. */
  lemma JoiningHoldings(s: State, i: nat, p: nat)
    requires Linked(s) && Acyclic(Waits(s)) && p in s.pcbs && i < |s.mutexes| && s.mutexes[i].owner.Some?
    ensures SameHoldings(s, JoinWaiters(s, i, p))
  {
    var m := s.mutexes[i];
    if m.active {
      SetMutexHoldings(s, i, Joined(s, i, p));
      if WaiterIndex(m.waiters, s.pcbs[p].priority, Priorities(s)) == 0 {
        var s1 := SetMutex(s, i, Joined(s, i, p));
        var lent := JoiningInFront(s, i, p);
        SameShapeHoldings(s1, lent);
        SetMutexHoldings(lent, i, lent.mutexes[i].(next := s.pcbs[p].priority));
        SameHoldingsTrans(s, s1, lent);
        SameHoldingsTrans(s, lent, JoinWaiters(s, i, p));
      }
    } else {
      SetMutexHoldings(s, i, m.(waiters := m.waiters + [p]));
    }
  }

  lemma WaitingHoldings(s: State, i: nat, p: nat)
    requires Linked(s) && Acyclic(Waits(s)) && p in s.pcbs && i < |s.mutexes| && s.mutexes[i].owner.Some?
    requires s.mutexes[i].state != 1
    ensures LockMutex(s, i, p).1 == WaitingMutex
    ensures Holdings(s, LockMutex(s, i, p).0, i, s.mutexes[i].owner, p, Some(i))
  {
    JoiningHoldings(s, i, p);
    RecordingHoldings(s, JoinWaiters(s, i, p), i, p);
  }

  lemma RecordingHoldings(s: State, t: State, i: nat, p: nat)
    requires p in s.pcbs && i < |s.mutexes| && SameHoldings(s, t)
    ensures Holdings(s, AddState(SetBlocking(t, p, Some(i)), i, -1), i, s.mutexes[i].owner, p, Some(i))
  {
    var r := AddState(SetBlocking(t, p, Some(i)), i, -1);
    forall k: nat ensures OwnerOf(r, k) == OwnerOf(t, k) {
    }
    forall x: nat ensures BlockedOn(r, x) == if x == p then Some(i) else BlockedOn(t, x) {
    }
  }

  /** A lock by name: an unknown name changes nothing; a free mutex is the caller's; at an owned one the
      caller waits. No other mutex changes hands, and nobody else starts or stops waiting. */
  lemma LockByName(s: State, base: Bases, name: string, p: nat)
    requires Inv(s, base) && p in s.pcbs && s.pcbs[p].blocking.None?
    ensures Linked(s) && Acyclic(Waits(s))
    ensures name in s.names ==>
              && s.names[name] < |s.mutexes|
              && (s.mutexes[s.names[name]].state == 1 || s.mutexes[s.names[name]].owner.Some?)
    ensures var (t, result) := ListMutexLock(s, name, p);
            if name !in s.names then t == s && result == NameNotFound
            else
              var i := s.names[name];
              if OwnerOf(s, i).None? then result == MutexLocked && Holdings(s, t, i, Some(p), p, None)
              else result == WaitingMutex && Holdings(s, t, i, OwnerOf(s, i), p, Some(i))
  {
    InvIsLinked(s, base);
    if name in s.names {
      var i := s.names[name];
      assert MutexOk(s, i, Priorities(s));
      if s.mutexes[i].owner.None? { TakingIs(s, base, i, p); } else { WaitingHoldings(s, i, p); }
    }
  }

  // ---------- unlocking ----------

  lemma ReleasingIs(s: State, base: Bases, i: nat, p: nat)
    requires Inv(s, base) && p in s.pcbs && i < |s.mutexes| && s.mutexes[i].owner == Some(p) && s.mutexes[i].waiters == []
    ensures Linked(s) && CanUnlock(s, i, p)
    ensures UnlockMutex(s, i, p).1 == MutexUnlocked
    ensures Holdings(s, UnlockMutex(s, i, p).0, i, None, p, BlockedOn(s, p))
  {
    OwnerCanUnlock(s, base, i, p);
    ReleaseUnfold(s, i, p);
  }

  lemma HandingIs(s: State, base: Bases, i: nat, p: nat)
    requires Inv(s, base) && p in s.pcbs && s.pcbs[p].blocking.None? && i < |s.mutexes|
    requires s.mutexes[i].owner == Some(p) && s.mutexes[i].waiters != []
    ensures Linked(s) && CanUnlock(s, i, p)
    ensures var heir := s.mutexes[i].waiters[0];
            && UnlockMutex(s, i, p).1 == MutexUnlocked
            && Holdings(s, UnlockMutex(s, i, p).0, i, Some(heir), heir, None)
            && UnlockMutex(s, i, p).0.mutexes[i].waiters == s.mutexes[i].waiters[1..]
  {
    OwnerCanUnlock(s, base, i, p);
    HeirFacts(s, base, i, p);
    var heir, r := s.mutexes[i].waiters[0], Moved(s, i, p, Inherited(s, i));
    assert heir in s.mutexes[i].waiters;
    HandUnfold(s, i, p);
    MovedFrame(s, i, p, Inherited(s, i), heir);
    forall x: nat ensures BlockedOn(r, x) == if x == heir then None else BlockedOn(s, x) {
    }
    forall k: nat ensures OwnerOf(r, k) == if k == i then Some(heir) else OwnerOf(s, k) {
    }
  }

  /** An unlock by name: an unknown name, or somebody else's mutex, changes nothing; a mutex nobody waits
      for is free; any other one goes to its first waiter, who waits no more. No other mutex changes
      hands, and nobody else starts or stops waiting. */
  lemma UnlockByName(s: State, base: Bases, name: string, p: nat)
    requires Inv(s, base) && p in s.pcbs && s.pcbs[p].blocking.None?
    ensures Linked(s) && (name in s.names ==> s.names[name] < |s.mutexes| && CanUnlock(s, s.names[name], p))
    ensures var (t, result) := ListMutexUnlock(s, name, p);
            if name !in s.names then t == s && result == NameNotFound
            else
              var i := s.names[name];
              var ws := s.mutexes[i].waiters;
              if OwnerOf(s, i) != Some(p) then t == s && result == ProcessHasNoLockedMutex
              else
                && result == MutexUnlocked
                && if ws == [] then Holdings(s, t, i, None, p, None)
                   else Holdings(s, t, i, Some(ws[0]), ws[0], None) && t.mutexes[i].waiters == ws[1..]
  {
    InvIsLinked(s, base);
    if name in s.names {
      var i := s.names[name];
      OwnerCanUnlock(s, base, i, p);
      if s.mutexes[i].owner == Some(p) {
        if s.mutexes[i].waiters == [] { ReleasingIs(s, base, i, p); } else { HandingIs(s, base, i, p); }
      }
    }
  }

  // ---------- mutexes without inheritance ----------

  /** At an owned mutex without inheritance the caller waits behind all others, and no priority changes;
      an unlock hands it to whoever has waited longest. */
  lemma PlainMutexIsFifo(s: State, i: nat, p: nat)
    requires Linked(s) && Acyclic(Waits(s)) && p in s.pcbs && i < |s.mutexes| && s.mutexes[i].owner.Some?
    requires !s.mutexes[i].active && s.mutexes[i].state != 1
    ensures var (t, result) := LockMutex(s, i, p);
            && result == WaitingMutex && t.mutexes[i].waiters == s.mutexes[i].waiters + [p] && t.mutexes[i].owner == s.mutexes[i].owner
            && t.mutexes[i].state == s.mutexes[i].state - 1
            && (forall k :: 0 <= k < |s.mutexes| && k != i ==> t.mutexes[k] == s.mutexes[k])
            && t.pcbs == s.pcbs[p := s.pcbs[p].(blocking := Some(i))]
    ensures s.mutexes[i].owner == Some(p) && s.mutexes[i].waiters != [] && s.mutexes[i].state < 0 && CanUnlock(s, i, p) ==>
              var (t, result) := UnlockMutex(s, i, p);
              var heir := s.mutexes[i].waiters[0];
              && result == MutexUnlocked && t.mutexes[i].owner == Some(heir)
              && t.mutexes[i].waiters == s.mutexes[i].waiters[1..] && t.mutexes[i].state == s.mutexes[i].state + 1
              && (forall k :: 0 <= k < |s.mutexes| && k != i ==> t.mutexes[k] == s.mutexes[k])
              && heir in s.pcbs && t.pcbs == s.pcbs[heir := s.pcbs[heir].(blocking := None)]
  {
    var ws := s.mutexes[i].waiters;
    if ws != [] { assert ws[0] in ws; }
  }

  // ---------- unlocking undoes locking ----------

  /** Of equal entries it does not matter which one goes. */
  lemma AddedThenRemoved(l: seq<int>, x: int)
    requires Sorted(l)
    ensures RemoveFirst(AddPriority(l, x), x) == l
  {
    PriorityIndexSpec(l, x);
    AddPriorityLaws(l, x);
    var i, l' := PriorityIndex(l, x), AddPriority(l, x);
    assert l'[i] == x;
    var j := IndexOf(l', x);
    FirstIndex(l', x, i);
    forall k | j <= k <= i ensures l'[k] == x {
      assert l'[j] <= l'[k] <= l'[i];
    }
    AnyOfEquals(l, l', i, j, x);
  }

  lemma AnyOfEquals(l: seq<int>, l': seq<int>, i: nat, j: nat, x: int)
    requires j <= i <= |l| && l' == l[..i] + [x] + l[i..] && forall k :: j <= k <= i ==> l'[k] == x
    ensures l'[..j] + l'[j + 1..] == l
  {
    var rest := l'[..j] + l'[j + 1..];
    forall k | 0 <= k < |l| ensures rest[k] == l[k] {
      assert rest[k] == l'[if k < j then k else k + 1];
      assert l[k] == l'[if k < i then k else k + 1];
    }
  }

  lemma {:induction false} FirstIndex(l: seq<int>, x: int, i: nat)
    requires i < |l| && l[i] == x
    ensures IndexOf(l, x) <= i
  {
    if i > 0 {
      FirstIndex(l[1..], x, i - 1);
    }
  }

  /** Locking a free mutex and unlocking it again leaves everything as it was. */
  lemma UnlockUndoesLock(s: State, base: Bases, i: nat, p: nat)
    requires Inv(s, base) && p in s.pcbs && s.pcbs[p].blocking.None? && i < |s.mutexes| && s.mutexes[i].owner.None?
    ensures Linked(s) && Acyclic(Waits(s)) && (s.mutexes[i].state == 1 || s.mutexes[i].owner.Some?)
    ensures var t := LockMutex(s, i, p).0;
            Linked(t) && CanUnlock(t, i, p) && UnlockMutex(t, i, p).0 == s
  {
    TakingIs(s, base, i, p);
    LockKeeps(s, base, i, p);
    var t := Taken(s, i, p);
    assert MutexOk(s, i, Priorities(s)) && PcbOk(s, base, p);
    OwnerCanUnlock(t, base, i, p);
    ReleaseUnfold(t, i, p);
    TakenThenReleased(s, i, p);
  }

  lemma TakenThenReleased(s: State, i: nat, p: nat)
    requires p in s.pcbs && i < |s.mutexes| && s.mutexes[i] == Mutex(INT_MAX, true, [], None, 1) && ListOk(s.pcbs[p])
    ensures var t := Taken(s, i, p);
            i < |t.mutexes| && p in t.pcbs
            && Moved(t, i, p, t.mutexes[i].(owner := None, next := INT_MAX, state := 1)) == s
  {
    var t := Taken(s, i, p);
    TakenEntries(s, i, p);
    AddedThenRemoved(s.pcbs[p].priorities, INT_MAX);
    var r := Moved(t, i, p, s.mutexes[i]);
    assert t.mutexes[i].(owner := None, next := INT_MAX, state := 1) == s.mutexes[i];
    assert r.mutexes == s.mutexes;
    assert r.pcbs == s.pcbs;
  }

  lemma TakenEntries(s: State, i: nat, p: nat)
    requires p in s.pcbs && i < |s.mutexes| && s.mutexes[i] == Mutex(INT_MAX, true, [], None, 1)
    ensures var t := Taken(s, i, p);
            && t.names == s.names && t.mutexes == s.mutexes[i := Mutex(INT_MAX, true, [], Some(p), 0)]
            && exists x :: t.pcbs == s.pcbs[p := s.pcbs[p].(priorities := AddPriority(s.pcbs[p].priorities, INT_MAX), priority := x)]
  {
    var x := Taken(s, i, p).pcbs[p].priority;
    assert Taken(s, i, p).pcbs
        == s.pcbs[p := s.pcbs[p].(priorities := AddPriority(s.pcbs[p].priorities, INT_MAX), priority := x)];
  }

  // ---------- names ----------

  /** A creation: a known name changes nothing; a new one gets a free mutex of its own, that nobody waits
      for, and no other mutex or process changes. */
  lemma CreationByName(s: State, base: Bases, name: string, active: bool)
    requires Inv(s, base)
    ensures var (t, result) := CreateMutex(s, name, active);
            if name in s.names then t == s && result == NameAlreadyExists
            else
              && result == MutexCreated && t.pcbs == s.pcbs
              && t.names.Keys == s.names.Keys + {name} && (forall other :: other in s.names ==> t.names[other] == s.names[other])
              && (forall other :: other in s.names ==> t.names[name] != t.names[other])
              && |t.mutexes| == |s.mutexes| + 1 && t.mutexes[..|s.mutexes|] == s.mutexes
              && t.names[name] < |t.mutexes| && OwnerOf(t, t.names[name]).None? && t.mutexes[t.names[name]].waiters == []
              && t.mutexes[t.names[name]].active == active
              && forall x :: x in t.pcbs ==> BlockedOn(t, x) != Some(t.names[name])
  {
    if name !in s.names {
      forall x | x in s.pcbs ensures BlockedOn(s, x) != Some(|s.mutexes|) { assert BlockOk(s, x); }
    }
  }

  /** Different names denote different mutexes. */
  ghost predicate NamesDiffer(s: State) {
    forall a, b :: a in s.names && b in s.names && a != b ==> s.names[a] != s.names[b]
  }

  lemma CallKeepsNames(y: System, op: Op)
    requires Good(y) && Legal(y.state, op) && NamesDiffer(y.state)
    ensures NamesDiffer(Step(y, op).state)
  {
    match op
    case Create(name) => CreationByName(y.state, y.base, name, true);
    case Lock(name, pid) => LockByName(y.state, y.base, name, pid);
    case Unlock(name, pid) => UnlockByName(y.state, y.base, name, pid);
    case _ =>
  }

  lemma {:induction false} RunKeepsNames(y: System, ops: seq<Op>)
    requires Good(y) && LegalRun(y, ops) && NamesDiffer(y.state)
    ensures NamesDiffer(Run(y, ops).state)
    decreases |ops|
  {
    if ops != [] {
      StepKeepsGood(y, ops[0]);
      CallKeepsNames(y, ops[0]);
      RunKeepsNames(Step(y, ops[0]), ops[1..]);
    }
  }

  /** After every legal history, different names denote different mutexes. */
  lemma EveryRunNamesDiffer(ops: seq<Op>)
    requires LegalHistory(ops)
    ensures Good(EMPTY) && NamesDiffer(Run(EMPTY, ops).state)
  {
    EmptyIsGood();
    RunKeepsNames(EMPTY, ops);
  }
}
