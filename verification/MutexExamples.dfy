/** A run of mutex calls that hands a mutex on against the order in which it was asked for. */
module MutexExamples {
  import opened Options
  import opened PriorityLists
  import opened MutexTables
  import opened MutexLaws
  import opened MutexCalls
  import opened LockUnlock
  import opened Inheritance
  import opened HandOffs

  lemma AppendBehindFirst(ops: seq<Op>, op: Op)
    requires ops != []
    ensures (ops + [op])[1..] == ops[1..] + [op] && (ops + [op])[0] == ops[0]
  {
  }

  lemma {:induction false} LegalAppend(y: System, ops: seq<Op>, op: Op)
    requires Good(y) && LegalRun(y, ops) && Legal(Run(y, ops).state, op)
    ensures LegalRun(y, ops + [op]) && Run(y, ops + [op]) == Step(Run(y, ops), op)
    decreases |ops|
  {
    if ops == [] {
      assert [] + [op] == [op] && [op][1..] == [];
      StepKeepsGood(y, op);
    } else {
      AppendBehindFirst(ops, op);
      StepKeepsGood(y, ops[0]);
      LegalAppend(Step(y, ops[0]), ops[1..], op);
    }
  }

  /** A legal history of calls leads to this system. */
  ghost predicate Reaches(ops: seq<Op>, y: System) {
    LegalHistory(ops) && (EmptyIsGood(); Run(EMPTY, ops) == y)
  }

  lemma Then(ops: seq<Op>, y: System, op: Op)
    requires Reaches(ops, y) && Good(y) && Legal(y.state, op)
    ensures Good(Step(y, op)) && Reaches(ops + [op], Step(y, op))
  {
    EmptyIsGood();
    LegalAppend(EMPTY, ops, op);
    StepKeepsGood(y, op);
  }

  lemma ThenSpawn(ops: seq<Op>, y: System, pid: nat, priority: int)
    requires Reaches(ops, y) && Good(y) && pid !in y.state.pcbs && priority <= INT_MAX
    ensures var y' := System(y.state.(pcbs := y.state.pcbs[pid := Pcb(priority, [priority], None)]), y.base[pid := priority]);
            Good(y') && Reaches(ops + [Spawn(pid, priority)], y')
  {
    Then(ops, y, Spawn(pid, priority));
  }

  lemma ThenLock(ops: seq<Op>, y: System, name: string, i: nat, p: nat, s: State)
    requires Reaches(ops, y) && Good(y) && name in y.state.names && y.state.names[name] == i < |y.state.mutexes|
    requires p in y.state.pcbs && y.state.pcbs[p].blocking.None?
    requires y.state.mutexes[i].owner.Some? ==> p !in Chain(Waits(y.state), y.state.mutexes[i].owner.value)
    requires Linked(y.state) && (y.state.mutexes[i].state == 1 || y.state.mutexes[i].owner.Some?)
    requires LockMutex(y.state, i, p).0 == s
    ensures Good(y.(state := s)) && Reaches(ops + [Lock(name, p)], y.(state := s))
  {
    Then(ops, y, Lock(name, p));
  }

  lemma ThenUnlock(ops: seq<Op>, y: System, name: string, i: nat, p: nat)
    requires Reaches(ops, y) && Good(y) && name in y.state.names && y.state.names[name] == i < |y.state.mutexes|
    requires p in y.state.pcbs && y.state.pcbs[p].blocking.None? && Linked(y.state) && CanUnlock(y.state, i, p)
    ensures Reaches(ops + [Unlock(name, p)], y.(state := UnlockMutex(y.state, i, p).0))
  {
    Then(ops, y, Unlock(name, p));
  }

  // ---------- equal priorities ----------

  lemma JoiningKeepsNames(s: State, i: nat, p: nat)
    requires Linked(s) && Acyclic(Waits(s)) && p in s.pcbs && i < |s.mutexes| && s.mutexes[i].owner.Some?
    ensures JoinWaiters(s, i, p).names == s.names
  {
    if s.mutexes[i].active && WaiterIndex(s.mutexes[i].waiters, s.pcbs[p].priority, Priorities(s)) == 0 {
      JoinWaitersUnfold(s, i, p);
      ReplaceShape(SetMutex(s, i, Joined(s, i, p)), s.mutexes[i].owner.value, s.mutexes[i].next, s.pcbs[p].priority);
    }
  }

  lemma LockKeepsNames(s: State, i: nat, p: nat)
    requires Linked(s) && Acyclic(Waits(s)) && p in s.pcbs && i < |s.mutexes|
    requires s.mutexes[i].state == 1 || s.mutexes[i].owner.Some?
    ensures LockMutex(s, i, p).0.names == s.names
  {
    if s.mutexes[i].state == 1 {
      FreeLock(s, i, p);
    } else {
      JoiningKeepsNames(s, i, p);
    }
  }

  lemma ThenAsk(ops: seq<Op>, y: System, name: string, i: nat, p: nat)
    requires Reaches(ops, y) && Good(y) && name in y.state.names && y.state.names[name] == i
    requires CanAsk(y.state, y.base, i, p) && Linked(y.state) && Acyclic(Waits(y.state))
    ensures var s := LockMutex(y.state, i, p).0;
            Good(y.(state := s)) && s.names == y.state.names && Reaches(ops + [Lock(name, p)], y.(state := s))
  {
    LockKeepsNames(y.state, i, p);
    ThenLock(ops, y, name, i, p, LockMutex(y.state, i, p).0);
  }

  /** Of two processes of the same priority the one that asked later is served first. */
  lemma LaterEqualIsServedFirst(ops: seq<Op>, y: System, name: string, i: nat, o: nat, p: nat, q: nat) returns (y': System)
    requires Reaches(ops, y) && Good(y) && name in y.state.names && y.state.names[name] == i < |y.state.mutexes|
    requires y.state.mutexes[i].owner == Some(o) && y.state.mutexes[i].waiters == []
    requires o in y.state.pcbs && y.state.pcbs[o].blocking.None? && CanAskInTurn(y.state, y.base, i, [p, q])
    requires p in y.state.pcbs && q in y.state.pcbs && y.state.pcbs[p].priority == y.state.pcbs[q].priority
    ensures Reaches(ops + [Lock(name, p)] + [Lock(name, q)] + [Unlock(name, o)], y')
    ensures i < |y'.state.mutexes| && y'.state.mutexes[i].owner == Some(q) && y'.state.mutexes[i].waiters == [p]
  {
    var s := AskInTurn(y.state, y.base, i, [p, q]);
    ThenTwoAsk(ops, y, name, i, p, q);
    BothWait(y.state, y.base, i, o, p, q);
    UnlockHandsOn(s, y.base, i, o);
    ThenUnlock(ops + [Lock(name, p)] + [Lock(name, q)], y.(state := s), name, i, o);
    y' := y.(state := UnlockMutex(s, i, o).0);
  }

  lemma AskOne(s: State, base: Bases, i: nat, p: nat, rest: seq<nat>)
    requires CanAskInTurn(s, base, i, [p] + rest)
    ensures CanAsk(s, base, i, p) && Linked(s) && Acyclic(Waits(s))
    ensures CanAskInTurn(LockMutex(s, i, p).0, base, i, rest)
    ensures AskInTurn(s, base, i, [p] + rest) == AskInTurn(LockMutex(s, i, p).0, base, i, rest)
  {
    LockKeeps(s, base, i, p);
    assert ([p] + rest)[1..] == rest;
  }

  lemma ThenTwoAsk(ops: seq<Op>, y: System, name: string, i: nat, p: nat, q: nat)
    requires Reaches(ops, y) && Good(y) && name in y.state.names && y.state.names[name] == i
    requires CanAskInTurn(y.state, y.base, i, [p, q])
    ensures var s := AskInTurn(y.state, y.base, i, [p, q]);
            && Good(y.(state := s)) && s.names == y.state.names
            && Reaches(ops + [Lock(name, p)] + [Lock(name, q)], y.(state := s))
  {
    assert [p] + [q] == [p, q] && [q] + [] == [q];
    AskOne(y.state, y.base, i, p, [q]);
    var s1 := LockMutex(y.state, i, p).0;
    ThenAsk(ops, y, name, i, p);
    AskOne(s1, y.base, i, q, []);
    ThenAsk(ops + [Lock(name, p)], y.(state := s1), name, i, q);
  }

  lemma BothWait(s: State, base: Bases, i: nat, o: nat, p: nat, q: nat)
    requires Inv(s, base) && i < |s.mutexes| && s.mutexes[i].owner == Some(o) && s.mutexes[i].waiters == []
    requires o in s.pcbs && s.pcbs[o].blocking.None? && CanAskInTurn(s, base, i, [p, q])
    requires p in s.pcbs && q in s.pcbs && s.pcbs[p].priority == s.pcbs[q].priority
    ensures var r := AskInTurn(s, base, i, [p, q]);
            && Inv(r, base) && i < |r.mutexes| && r.mutexes[i].owner == Some(o) && r.mutexes[i].waiters == [q, p]
            && o in r.pcbs && r.pcbs[o].blocking.None?
  {
    AskersJoin(s, base, i, [p, q]);
    TwoQueued(p, q, Priorities(s));
    if o in [p, q] {
      AskersOffChain(s, base, i, [p, q], o);
      ChainEnds(Waits(s), o);
    }
    OthersStay(s, base, i, [p, q], o);
  }

  lemma TwoQueued(p: nat, q: nat, prio: map<nat, int>)
    requires p in prio && q in prio && prio[p] == prio[q]
    ensures QueuedBehind([], [p, q], prio) == [q, p]
  {
    assert AddWaiter([], p, prio[p], prio) == [p];
    assert WaiterIndex([p], prio[q], prio) == 0;
    assert AddWaiter([p], q, prio[q], prio) == [q, p];
    assert [p, q][1..] == [q] && [q][1..] == [];
    assert QueuedBehind([q, p], [], prio) == [q, p];
    assert QueuedBehind([p], [q], prio) == [q, p];
  }

  lemma StillCanAsk(s: State, base: Bases, i: nat, p: nat, q: nat)
    requires CanAsk(s, base, i, p) && CanAsk(s, base, i, q) && p != q
    ensures Linked(s) && Acyclic(Waits(s)) && (s.mutexes[i].state == 1 || s.mutexes[i].owner.Some?)
    ensures CanAsk(LockMutex(s, i, p).0, base, i, q)
  {
    OneAsks(s, base, i, p);
    EnteredCanAsk(s, LockMutex(s, i, p).0, base, i, p, q);
  }

  lemma EnteredCanAsk(s: State, r: State, base: Bases, i: nat, p: nat, q: nat)
    requires CanAsk(s, base, i, p) && CanAsk(s, base, i, q) && p != q && Acyclic(Waits(s)) && Inv(r, base)
    requires forall w :: w in s.mutexes[i].waiters ==> w in s.pcbs
    requires Entered(s, r, i, p) && Acyclic(Waits(r))
    requires Chain(Waits(r), s.mutexes[i].owner.value) == Chain(Waits(s), s.mutexes[i].owner.value)
    ensures CanAsk(r, base, i, q)
  {
  }

  lemma TwoCanAsk(s: State, base: Bases, i: nat, p: nat, q: nat)
    requires CanAsk(s, base, i, p) && CanAsk(s, base, i, q) && p != q
    ensures CanAskInTurn(s, base, i, [p, q])
  {
    assert [p, q] == [p] + [q];
    StillCanAsk(s, base, i, p, q);
    OnlyOneAsks(LockMutex(s, i, p).0, base, i, q);
    FirstAsks(s, base, i, p, [q]);
  }

  lemma FirstAsks(s: State, base: Bases, i: nat, p: nat, rest: seq<nat>)
    requires CanAsk(s, base, i, p) && Linked(s) && Acyclic(Waits(s)) && (s.mutexes[i].state == 1 || s.mutexes[i].owner.Some?)
    requires CanAskInTurn(LockMutex(s, i, p).0, base, i, rest)
    ensures CanAskInTurn(s, base, i, [p] + rest)
  {
    LockKeeps(s, base, i, p);
    assert ([p] + rest)[1..] == rest;
  }

  lemma OnlyOneAsks(s: State, base: Bases, i: nat, p: nat)
    requires CanAsk(s, base, i, p)
    ensures CanAskInTurn(s, base, i, [p])
  {
    LockKeeps(s, base, i, p);
    assert [p][1..] == [];
  }

  // ---------- such a system, from the start ----------

  function Free(pcbs: map<nat, Pcb>): State {
    State(pcbs, [Mutex(INT_MAX, true, [], None, 1)], map["m" := 0])
  }

  const CREATED: seq<Op> := [Create("m")]
  const SPAWNED: seq<Op> := CREATED + [Spawn(0, 1)] + [Spawn(1, 5)] + [Spawn(2, 5)]

  lemma CreatedFirst()
    ensures var y := System(Free(map[]), map[]); Good(y) && Reaches(CREATED, y)
  {
    EmptyIsGood();
    assert Reaches([], EMPTY);
    Then([], EMPTY, Create("m"));
    assert [] + [Create("m")] == CREATED;
    assert Step(EMPTY, Create("m")) == System(Free(map[]), map[]);
  }

  lemma SpawnedOne(ops: seq<Op>, y: System, pid: nat, priority: int)
    requires Reaches(ops, y) && Good(y) && y.state == Free(y.state.pcbs) && pid !in y.state.pcbs && priority <= INT_MAX
    ensures var y' := System(Free(y.state.pcbs[pid := Pcb(priority, [priority], None)]), y.base[pid := priority]);
            Good(y') && Reaches(ops + [Spawn(pid, priority)], y')
  {
    ThenSpawn(ops, y, pid, priority);
  }

  lemma TwoSpawned() returns (y: System)
    ensures Good(y) && Reaches(CREATED + [Spawn(0, 1)] + [Spawn(1, 5)], y)
    ensures y.state == Free(map[][0 := Pcb(1, [1], None)][1 := Pcb(5, [5], None)])
  {
    CreatedFirst();
    var y0 := System(Free(map[]), map[]);
    SpawnedOne(CREATED, y0, 0, 1);
    var y1 := System(Free(y0.state.pcbs[0 := Pcb(1, [1], None)]), y0.base[0 := 1]);
    SpawnedOne(CREATED + [Spawn(0, 1)], y1, 1, 5);
    y := System(Free(y1.state.pcbs[1 := Pcb(5, [5], None)]), y1.base[1 := 5]);
  }

  lemma Spawned() returns (y: System)
    ensures Good(y) && Reaches(SPAWNED, y)
    ensures y.state == Free(map[0 := Pcb(1, [1], None), 1 := Pcb(5, [5], None), 2 := Pcb(5, [5], None)])
  {
    var y2 := TwoSpawned();
    SpawnedOne(CREATED + [Spawn(0, 1)] + [Spawn(1, 5)], y2, 2, 5);
    y := System(Free(y2.state.pcbs[2 := Pcb(5, [5], None)]), y2.base[2 := 5]);
    assert y.state.pcbs == map[0 := Pcb(1, [1], None), 1 := Pcb(5, [5], None), 2 := Pcb(5, [5], None)];
  }

  ghost predicate OwnedByZero(s: State) {
    && s.names == map["m" := 0] && s.mutexes == [Mutex(INT_MAX, true, [], Some(0), 0)]
    && s.pcbs.Keys == {0, 1, 2} && s.pcbs[1].priority == s.pcbs[2].priority
    && s.pcbs[0].blocking.None? && s.pcbs[1].blocking.None? && s.pcbs[2].blocking.None?
  }

  lemma FirstLock(s: State)
    requires s == Free(map[0 := Pcb(1, [1], None), 1 := Pcb(5, [5], None), 2 := Pcb(5, [5], None)])
    ensures OwnedByZero(Taken(s, 0, 0))
  {
  }

  lemma FreeLock(s: State, i: nat, p: nat)
    requires Linked(s) && Acyclic(Waits(s)) && p in s.pcbs && i < |s.mutexes| && s.mutexes[i].state == 1
    ensures LockMutex(s, i, p).0 == Taken(s, i, p)
  {
  }

  lemma ZeroLocks(ops: seq<Op>, y: System)
    requires Reaches(ops, y) && Good(y) && Linked(y.state) && Acyclic(Waits(y.state)) && 0 in y.state.pcbs
    requires y.state == Free(y.state.pcbs) && y.state.pcbs[0].blocking.None?
    ensures var s := LockMutex(y.state, 0, 0).0; Good(y.(state := s)) && Reaches(ops + [Lock("m", 0)], y.(state := s))
  {
    ThenLock(ops, y, "m", 0, 0, LockMutex(y.state, 0, 0).0);
  }

  lemma OwnedByFirst() returns (y: System)
    ensures Good(y) && Reaches(SPAWNED + [Lock("m", 0)], y) && OwnedByZero(y.state)
  {
    var y0 := Spawned();
    InvIsLinked(y0.state, y0.base);
    FirstLock(y0.state);
    FreeLock(y0.state, 0, 0);
    y := y0.(state := LockMutex(y0.state, 0, 0).0);
    ZeroLocks(SPAWNED, y0);
  }

  lemma BothMayAsk(s: State, base: Bases)
    requires Inv(s, base) && OwnedByZero(s)
    ensures CanAskInTurn(s, base, 0, [1, 2])
  {
    assert Waits(s) == map[];
    assert Chain(Waits(s), 0) == {0};
    TwoCanAsk(s, base, 0, 1, 2);
  }

  /** From the start: process 1 asks before process 2, with the same priority, and process 2 gets the
      mutex first. */
  lemma ArrivalOrderIsNotKept() returns (y: System)
    ensures Reaches(SPAWNED + [Lock("m", 0)] + [Lock("m", 1)] + [Lock("m", 2)] + [Unlock("m", 0)], y)
    ensures |y.state.mutexes| > 0 && y.state.mutexes[0].owner == Some(2) && y.state.mutexes[0].waiters == [1]
  {
    var y0 := OwnedByFirst();
    BothMayAsk(y0.state, y0.base);
    y := LaterEqualIsServedFirst(SPAWNED + [Lock("m", 0)], y0, "m", 0, 0, 1, 2);
  }

  // ---------- calls that break the bookkeeping ----------

  /** From the start: the owner of a mutex locks it once more, or ends. */
  lemma OwnerLocksAgainOrEnds() returns (y: System)
    ensures Good(y) && Reaches(SPAWNED + [Lock("m", 0)], y) && Runs(y.state, 0) && OwnedByZero(y.state)
    ensures Linked(y.state) && Acyclic(Waits(y.state)) && !Inv(LockMutex(y.state, 0, 0).0, y.base)
    ensures !Inv(y.state.(pcbs := y.state.pcbs - {0}), y.base - {0})
  {
    y := OwnedByFirst();
    LockKeepsIff(y.state, y.base, 0, 0);
    ChainEnds(Waits(y.state), 0);
    ExitKeepsIff(y.state, y.base, 0);
  }
}
