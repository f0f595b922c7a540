/** Priority inheritance as a global fixpoint, over every run: a process's effective priority is the
    best base priority among itself and everybody who waits for it, directly or indirectly. */
module Inheritance {
  import opened Options
  import opened PriorityLists
  import opened MutexTables
  import opened MutexLaws
  import opened MutexCalls
  import opened LockUnlock

  // ---------- the fixpoint ----------

  /** Waiting for somebody makes the owner at least as urgent. */
  lemma OwnerAtLeastAsUrgent(s: State, base: Bases, q: nat)
    requires Inv(s, base) && q in s.pcbs && q in Waits(s)
    ensures Waits(s)[q] in s.pcbs && s.pcbs[Waits(s)[q]].priority <= s.pcbs[q].priority
  {
    var i := s.pcbs[q].blocking.value;
    var m := s.mutexes[i];
    var o := m.owner.value;
    assert BlockOk(s, q);
    assert MutexOk(s, i, Priorities(s));
    var k :| 0 <= k < |m.waiters| && m.waiters[k] == q;
    assert m.next <= s.pcbs[q].priority;
    assert PcbOk(s, base, o);
    HeldHas(s.mutexes, i, o, |s.mutexes|);
    var l := s.pcbs[o].priorities;
    assert m.next in multiset(l);
    var j :| 0 <= j < |l| && l[j] == m.next;
  }

  lemma {:induction false} AtLeastAsUrgentAlongChain(s: State, base: Bases, q: nat, p: nat)
    requires Inv(s, base) && q in s.pcbs && p in Chain(Waits(s), q)
    ensures p in s.pcbs && s.pcbs[p].priority <= s.pcbs[q].priority
    decreases Depth(Waits(s), q)
  {
    if p != q {
      OwnerAtLeastAsUrgent(s, base, q);
      AtLeastAsUrgentAlongChain(s, base, Waits(s)[q], p);
    }
  }

  lemma {:induction false} ChainExtends(g: Graph, q: nat, w: nat)
    requires Acyclic(g) && w in Chain(g, q) && w in g
    ensures g[w] in Chain(g, q)
    decreases Depth(g, q)
  {
    if w == q {
      ChainEnds(g, g[q]);
    } else {
      ChainExtends(g, g[q], w);
    }
  }

  lemma {:induction false} BoundOf(rank: map<nat, nat>, keys: set<nat>) returns (n: nat)
    requires keys <= rank.Keys
    ensures forall k :: k in keys ==> rank[k] <= n
    decreases |keys|
  {
    if keys == {} {
      n := 0;
    } else {
      var k :| k in keys;
      var n' := BoundOf(rank, keys - {k});
      n := if rank[k] > n' then rank[k] else n';
    }
  }

  lemma DepthBound(g: Graph) returns (n: nat)
    requires Acyclic(g)
    ensures forall p :: Depth(g, p) <= n
  {
    n := BoundOf(RankOf(g), RankOf(g).Keys);
  }

  /** Where a process's priority comes from: its own base, or a waiter as urgent as itself. */
  lemma PrioritySource(s: State, base: Bases, p: nat) returns (w: nat)
    requires Inv(s, base) && p in s.pcbs
    ensures w in s.pcbs && s.pcbs[w].priority == s.pcbs[p].priority
    ensures (w == p && base[p] == s.pcbs[p].priority) || (w in Waits(s) && Waits(s)[w] == p)
  {
    assert PcbOk(s, base, p);
    PriorityAtMostBase(s, base, p);
    var x := s.pcbs[p].priority;
    assert x in multiset(s.pcbs[p].priorities);
    if x == base[p] {
      return p;
    }
    var i := HeldFrom(s.mutexes, p, |s.mutexes|, x);
    assert MutexOk(s, i, Priorities(s));
    w := s.mutexes[i].waiters[0];
    assert w in s.mutexes[i].waiters;
  }

  lemma {:induction false} PriorityIsAttained(s: State, base: Bases, p: nat, n: nat) returns (q: nat)
    requires Inv(s, base) && p in s.pcbs && forall x :: Depth(Waits(s), x) <= n
    ensures q in s.pcbs && p in Chain(Waits(s), q) && base[q] == s.pcbs[p].priority
    decreases n - Depth(Waits(s), p)
  {
    var w := PrioritySource(s, base, p);
    if w == p && base[p] == s.pcbs[p].priority {
      ChainEnds(Waits(s), p);
      return p;
    }
    assert Depth(Waits(s), p) < Depth(Waits(s), w);
    q := PriorityIsAttained(s, base, w, n);
    ChainExtends(Waits(s), q, w);
  }

  /** The local bookkeeping implies the global fixpoint: a process runs at the minimum of the base
      priorities of all processes whose wait-for chain reaches it, itself included. */
  lemma EffectivePriority(s: State, base: Bases, p: nat)
    requires Inv(s, base) && p in s.pcbs
    ensures forall q :: q in s.pcbs && p in Chain(Waits(s), q) ==> s.pcbs[p].priority <= base[q]
    ensures exists q :: q in s.pcbs && p in Chain(Waits(s), q) && s.pcbs[p].priority == base[q]
  {
    forall q | q in s.pcbs && p in Chain(Waits(s), q) ensures s.pcbs[p].priority <= base[q] {
      AtLeastAsUrgentAlongChain(s, base, q, p);
      assert PcbOk(s, base, q);
      PriorityAtMostBase(s, base, q);
    }
    var n := DepthBound(Waits(s));
    var q := PriorityIsAttained(s, base, p, n);
  }

  // ---------- priorities of blocked processes only improve ----------

  ghost predicate NobodyWorse(s: State, t: State) {
    t.pcbs.Keys == s.pcbs.Keys && forall x :: x in s.pcbs ==> t.pcbs[x].priority <= s.pcbs[x].priority
  }

  lemma {:induction false} ReplaceImproves(s: State, base: Bases, q: nat, old_: int, new_: int)
    requires Pending(s, base, q, old_, new_)
    ensures Linked(s) && Acyclic(Waits(s)) && NobodyWorse(s, ReplacePriority(s, q, old_, new_))
    decreases Depth(Waits(s), q), 1
  {
    PendingIsLinked(s, base, q, old_, new_);
    AfterExchange(s, base, q, old_, new_);
    var s1 := AfterEntry(s, q, old_, new_);
    ReplaceUnfold(s, q, old_, new_);
    EntryImproves(s, q, Exchanged(s.pcbs[q].priorities, old_, new_));
    if s1.pcbs[q].priority != s.pcbs[q].priority {
      PropagateImproves(s1, base, q, s.pcbs[q].priority);
      NobodyWorseTrans(s, s1, ReplacePriority(s, q, old_, new_));
    }
  }

  lemma EntryImproves(s: State, q: nat, l: seq<int>)
    requires q in s.pcbs && l != [] && l[0] <= s.pcbs[q].priority
    ensures NobodyWorse(s, SetPriorities(s, q, l))
  {
  }

  lemma NobodyWorseTrans(s: State, t: State, u: State)
    requires NobodyWorse(s, t) && NobodyWorse(t, u)
    ensures NobodyWorse(s, u)
  {
  }

  lemma {:induction false} PropagateImproves(s: State, base: Bases, q: nat, oldp: int)
    requires Improved(s, base, q, oldp)
    ensures Linked(s) && Acyclic(Waits(s)) && NobodyWorse(s, PropagatePriority(s, q, s.pcbs[q].priority))
    decreases Depth(Waits(s), q), 0
  {
    ImprovedIsLinked(s, base, q, oldp);
    if s.pcbs[q].blocking.Some? {
      var i := s.pcbs[q].blocking.value;
      ReinsertLaws(s, base, q, oldp, i);
      assert s.mutexes[i].active by { assert MutexOk(s, i, Priorities(s)[q := oldp]); }
      PropagateUnfold(s, q, i, s.pcbs[q].priority);
      WaitsStep(s, q, i);
      var m, x := s.mutexes[i], s.pcbs[q].priority;
      if ReinsertedFirst(s, i, q) && x != m.next {
        ReinsertPending(s, base, q, oldp, i);
        ReplaceImproves(SetMutex(s, i, m.(waiters := Reinserted(s, i, q), next := x)), base, m.owner.value, m.next, x);
      }
    }
  }

  /** Recording the waiter changes no priority. */
  lemma WaitingLeavesPriorities(s: State, i: nat, p: nat, m: Mutex, next: int)
    requires p in s.pcbs && i < |s.mutexes|
    ensures NobodyWorse(s, Waiting(SetMutex(s, i, m), i, p, next))
  {
  }

  lemma LockInFrontImproves(s: State, base: Bases, i: nat, p: nat)
    requires Inv(s, base) && p in s.pcbs && s.pcbs[p].blocking.None? && i < |s.mutexes| && s.mutexes[i].state != 1
    requires Linked(s) && Acyclic(Waits(s)) && s.mutexes[i].owner.Some?
    requires p !in Chain(Waits(s), s.mutexes[i].owner.value)
    requires WaiterIndex(s.mutexes[i].waiters, s.pcbs[p].priority, Priorities(s)) == 0
    ensures NobodyWorse(s, LockMutex(s, i, p).0)
  {
    OwnedMutex(s, base, i);
    var t := Waiting(SetMutex(s, i, Joined(s, i, p)), i, p, s.pcbs[p].priority);
    var o, old_, x := s.mutexes[i].owner.value, s.mutexes[i].next, s.pcbs[p].priority;
    assert Pending(t, base, o, old_, x) by { JoinInFrontPending(s, base, i, p); }
    assert NobodyWorse(s, t) by { WaitingLeavesPriorities(s, i, p, Joined(s, i, p), x); }
    InFrontImproves(s, t, base, i, p);
  }

  lemma InFrontImproves(s: State, t: State, base: Bases, i: nat, p: nat)
    requires Inv(s, base) && p in s.pcbs && i < |s.mutexes| && s.mutexes[i].state != 1
    requires Linked(s) && Acyclic(Waits(s)) && s.mutexes[i].owner.Some? && s.mutexes[i].active
    requires p !in Chain(Waits(s), s.mutexes[i].owner.value)
    requires WaiterIndex(s.mutexes[i].waiters, s.pcbs[p].priority, Priorities(s)) == 0
    requires t == Waiting(SetMutex(s, i, Joined(s, i, p)), i, p, s.pcbs[p].priority)
    requires Pending(t, base, s.mutexes[i].owner.value, s.mutexes[i].next, s.pcbs[p].priority) && NobodyWorse(s, t)
    ensures NobodyWorse(s, LockMutex(s, i, p).0)
  {
    var o, old_, x := s.mutexes[i].owner.value, s.mutexes[i].next, s.pcbs[p].priority;
    PendingIsLinked(t, base, o, old_, x);
    assert LockMutex(s, i, p).0 == ReplacePriority(t, o, old_, x) by {
      OwnerChainIsClear(s, base, i, p);
      LockWaitUnfold(s, i, p);
    }
    assert NobodyWorse(t, ReplacePriority(t, o, old_, x)) by { ReplaceImproves(t, base, o, old_, x); }
    NobodyWorseTrans(s, t, ReplacePriority(t, o, old_, x));
  }

  lemma LockBehindImproves(s: State, i: nat, p: nat)
    requires p in s.pcbs && i < |s.mutexes| && s.mutexes[i].state != 1 && s.mutexes[i].active
    requires Linked(s) && Acyclic(Waits(s)) && s.mutexes[i].owner.Some?
    requires WaiterIndex(s.mutexes[i].waiters, s.pcbs[p].priority, Priorities(s)) != 0
    ensures NobodyWorse(s, LockMutex(s, i, p).0)
  {
    RecordedIsWaiting(SetMutex(s, i, Joined(s, i, p)), i, p, s.mutexes[i].next);
    assert LockMutex(s, i, p).0 == AddState(SetBlocking(SetMutex(s, i, Joined(s, i, p)), p, Some(i)), i, -1);
  }

  lemma LockImproves(s: State, base: Bases, i: nat, p: nat)
    requires Inv(s, base) && p in s.pcbs && s.pcbs[p].blocking.None? && i < |s.mutexes| && s.mutexes[i].state != 1
    requires Linked(s) && Acyclic(Waits(s)) && s.mutexes[i].owner.Some?
    requires p !in Chain(Waits(s), s.mutexes[i].owner.value)
    ensures NobodyWorse(s, LockMutex(s, i, p).0)
  {
    OwnedMutex(s, base, i);
    if WaiterIndex(s.mutexes[i].waiters, s.pcbs[p].priority, Priorities(s)) == 0 {
      LockInFrontImproves(s, base, i, p);
    } else {
      LockBehindImproves(s, i, p);
    }
  }

  /** Taking a free mutex or giving one up does not touch a process that is blocked throughout. */
  lemma TakeLeavesBlocked(s: State, base: Bases, i: nat, p: nat, q: nat)
    requires Inv(s, base) && Runs(s, p) && i < |s.mutexes| && s.mutexes[i].state == 1
    requires q in s.pcbs && q != p
    ensures q in Taken(s, i, p).pcbs && Taken(s, i, p).pcbs[q] == s.pcbs[q]
  {
  }

  lemma MoveLeavesBlocked(s: State, i: nat, p: nat, m: Mutex, q: nat)
    requires p in s.pcbs && i < |s.mutexes| && q in s.pcbs && q != p && m.owner != Some(q)
    ensures q in Moved(s, i, p, m).pcbs && Moved(s, i, p, m).pcbs[q] == s.pcbs[q]
  {
  }

  lemma UnlockLeavesBlocked(s: State, base: Bases, i: nat, p: nat, q: nat)
    requires Inv(s, base) && Runs(s, p) && i < |s.mutexes| && Linked(s)
    requires s.mutexes[i].owner == Some(p) && CanUnlock(s, i, p)
    requires q in s.pcbs && s.pcbs[q].blocking.Some?
    requires var t := UnlockMutex(s, i, p).0; q in t.pcbs && t.pcbs[q].blocking.Some?
    ensures UnlockMutex(s, i, p).0.pcbs[q] == s.pcbs[q]
  {
    assert MutexOk(s, i, Priorities(s));
    if s.mutexes[i].state == 0 {
      ReleaseUnfold(s, i, p);
      MoveLeavesBlocked(s, i, p, s.mutexes[i].(owner := None, next := INT_MAX, state := 1), q);
    } else {
      HeirFacts(s, base, i, p);
      HandUnfold(s, i, p);
      MoveLeavesBlocked(s, i, p, Inherited(s, i), q);
    }
  }

  // ---------- every run ----------

  datatype Op =
    | Create(name: string)
    | Spawn(pid: nat, priority: int)
    | Lock(name: string, pid: nat)
    | Unlock(name: string, pid: nat)
    | Exit(pid: nat)

  datatype System = System(state: State, base: Bases)

  predicate Runs(s: State, p: nat) {
    p in s.pcbs && s.pcbs[p].blocking.None?
  }

  /** System calls come from running processes; no lock closes a cycle; no process ends while it
      holds a mutex. */
  ghost predicate Legal(s: State, op: Op)
    requires Acyclic(Waits(s))
  {
    match op
    case Create(_) => true
    case Spawn(pid, priority) => pid !in s.pcbs && priority <= INT_MAX
    case Lock(name, pid) =>
      && Runs(s, pid)
      && (name in s.names && s.names[name] < |s.mutexes| && s.mutexes[s.names[name]].owner.Some? ==>
            pid !in Chain(Waits(s), s.mutexes[s.names[name]].owner.value))
    case Unlock(_, pid) => Runs(s, pid)
    case Exit(pid) => Runs(s, pid) && forall i :: 0 <= i < |s.mutexes| ==> s.mutexes[i].owner != Some(pid)
  }

  ghost predicate Good(y: System) {
    Inv(y.state, y.base)
  }

  function Step(y: System, op: Op): System
    requires Good(y) && Legal(y.state, op)
  {
    var s := y.state;
    match op
    case Create(name) => y.(state := CreateMutex(s, name, true).0)
    case Spawn(pid, priority) =>
      System(s.(pcbs := s.pcbs[pid := Pcb(priority, [priority], None)]), y.base[pid := priority])
    case Lock(name, pid) =>
      if name !in s.names then y
      else
        LockKeeps(s, y.base, s.names[name], pid);
        y.(state := LockMutex(s, s.names[name], pid).0)
    case Unlock(name, pid) =>
      if name !in s.names then y
      else
        UnlockKeeps(s, y.base, s.names[name], pid);
        y.(state := UnlockMutex(s, s.names[name], pid).0)
    case Exit(pid) => System(s.(pcbs := s.pcbs - {pid}), y.base - {pid})
  }

  lemma {:induction false} HeldNone(ms: seq<Mutex>, p: nat, n: nat)
    requires n <= |ms| && forall i :: 0 <= i < n ==> ms[i].owner != Some(p)
    ensures Held(ms, p, n) == multiset{}
  {
    if n > 0 {
      HeldNone(ms, p, n - 1);
    }
  }

  lemma CreateKeeps(s: State, base: Bases, name: string)
    requires Inv(s, base)
    ensures Inv(CreateMutex(s, name, true).0, base)
  {
    var r := CreateMutex(s, name, true).0;
    if name !in s.names {
      CreatedFrame(s, base, r);
      forall p | p in r.pcbs ensures PcbOk(r, base, p) {
        assert PcbOk(s, base, p);
        HeldSame(s.mutexes, r.mutexes, p, |s.mutexes|);
        assert Held(r.mutexes, p, |r.mutexes|) == Held(s.mutexes, p, |s.mutexes|) + multiset{};
      }
    }
  }

  lemma CreatedFrame(s: State, base: Bases, r: State)
    requires Inv(s, base) && r.pcbs == s.pcbs && r.mutexes == s.mutexes + [Mutex(INT_MAX, true, [], None, 1)]
    requires forall name :: name in r.names ==> r.names[name] < |r.mutexes|
    ensures Frame(r, base, Priorities(r))
  {
    assert Priorities(r) == Priorities(s);
    forall i | 0 <= i < |r.mutexes| ensures MutexOk(r, i, Priorities(r)) {
      if i < |s.mutexes| { assert MutexOk(s, i, Priorities(s)); }
    }
    forall p | p in r.pcbs ensures BlockOk(r, p) { assert BlockOk(s, p); }
    NewMutexWaits(s, base, r);
  }

  lemma NewMutexWaits(s: State, base: Bases, r: State)
    requires Inv(s, base) && r.pcbs == s.pcbs && r.mutexes == s.mutexes + [Mutex(INT_MAX, true, [], None, 1)]
    ensures Waits(r) == Waits(s)
  {
    forall p | p in s.pcbs && s.pcbs[p].blocking.Some? ensures s.pcbs[p].blocking.value < |s.mutexes| {
      assert BlockOk(s, p);
    }
  }

  /** r differs from s only in process pid, which neither runs into nor owns a mutex. */
  ghost predicate OnlyUninvolved(s: State, r: State, pid: nat) {
    && r.mutexes == s.mutexes && r.names == s.names
    && (forall p :: p != pid ==> (p in r.pcbs <==> p in s.pcbs) && (p in s.pcbs ==> r.pcbs[p] == s.pcbs[p]))
    && (pid in s.pcbs ==> s.pcbs[pid].blocking.None?)
    && (pid in r.pcbs ==> r.pcbs[pid].blocking.None?)
    && (forall i :: 0 <= i < |s.mutexes| ==> s.mutexes[i].owner != Some(pid))
  }

  /** Adding or removing a process that nobody refers to. */
  lemma FrameForOthers(s: State, base: Bases, r: State, base': Bases, pid: nat)
    requires Inv(s, base) && OnlyUninvolved(s, r, pid)
    requires r.pcbs.Keys == base'.Keys && forall p :: p in base' ==> base'[p] <= INT_MAX
    ensures Frame(r, base', Priorities(r))
  {
    forall i | 0 <= i < |r.mutexes| ensures MutexOk(r, i, Priorities(r)) {
      UntouchedMutex(s, base, r, pid, i);
    }
    forall p | p in r.pcbs ensures BlockOk(r, p) {
      UntouchedBlock(s, base, r, pid, p);
    }
    assert Waits(r) == Waits(s) by { UntouchedWaits(s, r, pid); }
  }

  lemma UntouchedBlock(s: State, base: Bases, r: State, pid: nat, p: nat)
    requires Inv(s, base) && OnlyUninvolved(s, r, pid) && p in r.pcbs
    ensures BlockOk(r, p)
  {
    if p != pid { assert BlockOk(s, p); }
  }

  lemma UntouchedWaits(s: State, r: State, pid: nat)
    requires OnlyUninvolved(s, r, pid)
    ensures Waits(r) == Waits(s)
  {
  }

  lemma UntouchedMutex(s: State, base: Bases, r: State, pid: nat, i: nat)
    requires Inv(s, base) && OnlyUninvolved(s, r, pid) && i < |s.mutexes|
    ensures MutexOk(r, i, Priorities(r))
  {
    assert MutexOk(s, i, Priorities(s));
    var ws := s.mutexes[i].waiters;
    forall w | w in ws ensures w != pid && w in r.pcbs && r.pcbs[w] == s.pcbs[w] {}
    if ws != [] { assert ws[0] in ws; }
  }

  lemma SpawnKeeps(s: State, base: Bases, pid: nat, priority: int)
    requires Inv(s, base) && pid !in s.pcbs && priority <= INT_MAX
    ensures Inv(s.(pcbs := s.pcbs[pid := Pcb(priority, [priority], None)]), base[pid := priority])
  {
    var r, base' := s.(pcbs := s.pcbs[pid := Pcb(priority, [priority], None)]), base[pid := priority];
    forall i | 0 <= i < |s.mutexes| ensures s.mutexes[i].owner != Some(pid) {
      assert MutexOk(s, i, Priorities(s));
    }
    FrameForOthers(s, base, r, base', pid);
    forall p | p in r.pcbs ensures PcbOk(r, base', p) {
      if p == pid {
        HeldNone(s.mutexes, pid, |s.mutexes|);
      } else {
        assert PcbOk(s, base, p);
      }
    }
  }

  lemma ExitKeeps(s: State, base: Bases, pid: nat)
    requires Inv(s, base) && Runs(s, pid) && forall i :: 0 <= i < |s.mutexes| ==> s.mutexes[i].owner != Some(pid)
    ensures Inv(s.(pcbs := s.pcbs - {pid}), base - {pid})
  {
    var r, base' := s.(pcbs := s.pcbs - {pid}), base - {pid};
    FrameForOthers(s, base, r, base', pid);
    forall p | p in r.pcbs ensures PcbOk(r, base', p) {
      assert PcbOk(s, base, p);
    }
  }

  /** The end of a running process keeps the bookkeeping if and only if it holds no mutex. */
  lemma ExitKeepsIff(s: State, base: Bases, pid: nat)
    requires Inv(s, base) && Runs(s, pid)
    ensures Inv(s.(pcbs := s.pcbs - {pid}), base - {pid}) <==>
              forall i :: 0 <= i < |s.mutexes| ==> s.mutexes[i].owner != Some(pid)
  {
    if i :| 0 <= i < |s.mutexes| && s.mutexes[i].owner == Some(pid) {
      var r := s.(pcbs := s.pcbs - {pid});
      assert !MutexOk(r, i, Priorities(r));
    } else {
      ExitKeeps(s, base, pid);
    }
  }

  lemma StepKeepsGood(y: System, op: Op)
    requires Good(y) && Legal(y.state, op)
    ensures Good(Step(y, op))
  {
    var s := y.state;
    match op {
      case Create(name) => CreateKeeps(s, y.base, name);
      case Spawn(pid, priority) => SpawnKeeps(s, y.base, pid, priority);
      case Lock(name, pid) => if name in s.names { LockKeeps(s, y.base, s.names[name], pid); }
      case Unlock(name, pid) => if name in s.names { UnlockKeeps(s, y.base, s.names[name], pid); }
      case Exit(pid) => ExitKeeps(s, y.base, pid);
    }
  }

  ghost predicate LegalRun(y: System, ops: seq<Op>)
    requires Good(y)
    decreases |ops|
  {
    ops != [] ==> Legal(y.state, ops[0]) && (StepKeepsGood(y, ops[0]); LegalRun(Step(y, ops[0]), ops[1..]))
  }

  function Run(y: System, ops: seq<Op>): (r: System)
    requires Good(y) && LegalRun(y, ops)
    ensures Good(r)
    decreases |ops|
  {
    if ops == [] then y
    else
      StepKeepsGood(y, ops[0]);
      Run(Step(y, ops[0]), ops[1..])
  }

  const EMPTY := System(State(map[], [], map[]), map[])

  lemma EmptyIsGood()
    ensures Good(EMPTY)
  {
    assert Ranked(Waits(EMPTY.state), map[]);
  }

  /** Each call is legal in the state that the calls before it lead to, from an empty system on. */
  ghost predicate LegalHistory(ops: seq<Op>) {
    EmptyIsGood();
    LegalRun(EMPTY, ops)
  }

  /** After any legal history, every process runs at the best base priority among itself and all who
      wait for it, directly or indirectly. */
  lemma EveryRunInherits(ops: seq<Op>, p: nat)
    requires LegalHistory(ops)
    ensures Good(EMPTY)
    ensures var y := Run(EMPTY, ops);
            var s := y.state;
            p in s.pcbs ==>
              && p in y.base
              && (forall q :: q in s.pcbs && p in Chain(Waits(s), q) ==> q in y.base && s.pcbs[p].priority <= y.base[q])
              && (exists q :: q in s.pcbs && p in Chain(Waits(s), q) && s.pcbs[p].priority == y.base[q])
  {
    EmptyIsGood();
    if p in Run(EMPTY, ops).state.pcbs {
      EffectivePriority(Run(EMPTY, ops).state, Run(EMPTY, ops).base, p);
    }
  }

  /** After any legal history, the books are in order: a process's priority list is sorted and holds
      exactly its base priority and what each held mutex lends, its head being the priority in
      force; a mutex is free, or its state counts the processes blocked on it and it lends the
      priority of the best of them, INT_MAX when nobody waits. */
  lemma EveryRunKeepsBooks(ops: seq<Op>, p: nat, i: nat)
    requires LegalHistory(ops)
    ensures Good(EMPTY)
    ensures var y := Run(EMPTY, ops);
            var s := y.state;
            && (p in s.pcbs ==>
                  && var pcb := s.pcbs[p];
                  && p in y.base && Sorted(pcb.priorities) && pcb.priorities != [] && pcb.priority == pcb.priorities[0]
                  && multiset(pcb.priorities) == multiset{y.base[p]} + Held(s.mutexes, p, |s.mutexes|))
            && (i < |s.mutexes| ==>
                  var m := s.mutexes[i];
                  && (m.owner.None? <==> m.state == 1)
                  && (m.owner.Some? ==> m.state == -|m.waiters|)
                  && (forall w :: w in m.waiters <==> w in s.pcbs && s.pcbs[w].blocking == Some(i))
                  && (m.waiters == [] ==> m.next == INT_MAX)
                  && (m.waiters != [] ==>
                        && m.waiters[0] in s.pcbs && m.next == s.pcbs[m.waiters[0]].priority
                        && (forall w :: w in m.waiters ==> w in s.pcbs && m.next <= s.pcbs[w].priority)))
  {
    EmptyIsGood();
    var y := Run(EMPTY, ops);
    if p in y.state.pcbs { assert PcbOk(y.state, y.base, p); }
    if i < |y.state.mutexes| { MutexBooks(y.state, y.base, i); }
  }

  lemma MutexBooks(s: State, base: Bases, i: nat)
    requires Inv(s, base) && i < |s.mutexes|
    ensures var m := s.mutexes[i];
            && (m.owner.None? <==> m.state == 1)
            && (m.owner.Some? ==> m.state == -|m.waiters|)
            && (forall w :: w in m.waiters <==> w in s.pcbs && s.pcbs[w].blocking == Some(i))
            && (m.waiters == [] ==> m.next == INT_MAX)
            && (m.waiters != [] ==>
                  && m.waiters[0] in s.pcbs && m.next == s.pcbs[m.waiters[0]].priority
                  && (forall w :: w in m.waiters ==> w in s.pcbs && m.next <= s.pcbs[w].priority))
  {
    var m := s.mutexes[i];
    assert MutexOk(s, i, Priorities(s));
    forall w | w in s.pcbs && s.pcbs[w].blocking == Some(i) ensures w in m.waiters { assert BlockOk(s, w); }
    if m.waiters != [] { assert m.waiters[0] in m.waiters; }
  }

  /** While a process stays blocked, its priority can only get better, whatever the others do. This
      is why only an insertion at the head of a waiter list can change what is lent. */
  lemma BlockedOnlyImproves(y: System, op: Op, q: nat)
    requires Good(y) && Legal(y.state, op)
    requires q in y.state.pcbs && y.state.pcbs[q].blocking.Some?
    requires var t := Step(y, op).state; q in t.pcbs && t.pcbs[q].blocking.Some?
    ensures Step(y, op).state.pcbs[q].priority <= y.state.pcbs[q].priority
  {
    var s := y.state;
    match op {
      case Lock(name, pid) =>
        if name in s.names {
          LockKeeps(s, y.base, s.names[name], pid);
          if s.mutexes[s.names[name]].state != 1 {
            LockImproves(s, y.base, s.names[name], pid);
          } else {
            TakeLeavesBlocked(s, y.base, s.names[name], pid, q);
          }
        }
      case Unlock(name, pid) =>
        if name in s.names {
          UnlockKeeps(s, y.base, s.names[name], pid);
          if s.mutexes[s.names[name]].owner == Some(pid) {
            UnlockLeavesBlocked(s, y.base, s.names[name], pid, q);
          }
        }
      case _ =>
    }
  }
}
