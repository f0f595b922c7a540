/** In which order a mutex is handed on, and which locks close a cycle of waiting processes. */
module HandOffs {
  import opened Options
  import opened PriorityLists
  import opened MutexTables
  import opened MutexLaws
  import opened MutexCalls
  import opened LockUnlock

  // ---------- what the inheritance leaves alone ----------

  /** Nobody on the chain from q waits for mutex j. */
  ghost predicate Misses(s: State, q: nat, j: nat)
    requires Acyclic(Waits(s))
  {
    forall x :: x in Chain(Waits(s), q) && x in s.pcbs ==> s.pcbs[x].blocking != Some(j)
  }

  /** t has the processes and the mutex of s. */
  ghost predicate SameAt(s: State, t: State, x: nat, j: nat) {
    && (x in s.pcbs ==> x in t.pcbs && t.pcbs[x] == s.pcbs[x])
    && (j < |s.mutexes| ==> j < |t.mutexes| && t.mutexes[j] == s.mutexes[j])
  }

  lemma EntryStays(s: State, q: nat, l: seq<int>, x: nat, j: nat)
    requires Acyclic(Waits(s)) && q in s.pcbs && l != [] && x !in Chain(Waits(s), q) && Misses(s, q, j)
    ensures var s1 := SetPriorities(s, q, l); Waits(s1) == Waits(s) && Misses(s1, q, j) && SameAt(s, s1, x, j)
  {
    SameWaits(s, SetPriorities(s, q, l));
    ChainEnds(Waits(s), q);
  }

  /** The inheritance from q on touches only the chain of processes that starts there and the mutexes
      they wait for. */
  lemma {:induction false} ReplaceStaysOnChain(s: State, q: nat, old_: int, new_: int, x: nat, j: nat)
    requires Linked(s) && Acyclic(Waits(s)) && q in s.pcbs && x !in Chain(Waits(s), q) && Misses(s, q, j)
    ensures SameAt(s, ReplacePriority(s, q, old_, new_), x, j)
    decreases Depth(Waits(s), q), 1
  {
    var s1 := AfterEntry(s, q, old_, new_);
    ReplaceUnfold(s, q, old_, new_);
    EntryStays(s, q, Exchanged(s.pcbs[q].priorities, old_, new_), x, j);
    if s1.pcbs[q].priority != s.pcbs[q].priority {
      PropagateStaysOnChain(s1, q, x, j);
    }
  }

  lemma {:induction false} PropagateStaysOnChain(s: State, q: nat, x: nat, j: nat)
    requires Linked(s) && Acyclic(Waits(s)) && q in s.pcbs && x !in Chain(Waits(s), q) && Misses(s, q, j)
    ensures SameAt(s, PropagatePriority(s, q, s.pcbs[q].priority), x, j)
    decreases Depth(Waits(s), q), 0
  {
    if s.pcbs[q].blocking.Some? {
      var i := s.pcbs[q].blocking.value;
      ChainEnds(Waits(s), q);
      if s.mutexes[i].active && q in s.mutexes[i].waiters {
        var m, y := s.mutexes[i], s.pcbs[q].priority;
        WaitsStep(s, q, i);
        PropagateUnfold(s, q, i, y);
        if ReinsertedFirst(s, i, q) && y != m.next {
          var s1 := SetMutex(s, i, m.(waiters := Reinserted(s, i, q), next := y));
          ReplaceStaysOnChain(s1, m.owner.value, m.next, y, x, j);
        }
      }
    }
  }

  // ---------- the wait-for graph after a lock ----------

  /** Same processes, same owners, same blocked processes. */
  ghost predicate SameEdges(s: State, t: State) {
    && t.pcbs.Keys == s.pcbs.Keys && |t.mutexes| == |s.mutexes|
    && (forall x :: x in s.pcbs ==> t.pcbs[x].blocking == s.pcbs[x].blocking)
    && (forall k :: 0 <= k < |s.mutexes| ==> t.mutexes[k].owner == s.mutexes[k].owner)
  }

  lemma MutexKeepsEdges(s: State, t: State, i: nat, m: Mutex)
    requires SameEdges(s, t) && i < |s.mutexes| && m.owner == t.mutexes[i].owner
    ensures SameEdges(s, SetMutex(t, i, m))
  {
  }

  lemma InheritanceKeepsEdges(s: State, t: State, q: nat, old_: int, new_: int)
    requires SameEdges(s, t) && Linked(t) && Acyclic(Waits(t)) && q in t.pcbs
    ensures SameEdges(s, ReplacePriority(t, q, old_, new_))
  {
    ReplaceShape(t, q, old_, new_);
  }

  lemma JoiningKeepsEdges(s: State, i: nat, p: nat)
    requires Linked(s) && Acyclic(Waits(s)) && p in s.pcbs && i < |s.mutexes|
    requires s.mutexes[i].owner.Some? && s.mutexes[i].active
    ensures SameEdges(s, JoinWaiters(s, i, p))
  {
    MutexKeepsEdges(s, s, i, Joined(s, i, p));
    if WaiterIndex(s.mutexes[i].waiters, s.pcbs[p].priority, Priorities(s)) == 0 {
      JoinWaitersUnfold(s, i, p);
      JoiningInFrontKeepsEdges(s, i, p);
    }
  }

  lemma JoiningInFrontKeepsEdges(s: State, i: nat, p: nat)
    requires Linked(s) && Acyclic(Waits(s)) && p in s.pcbs && i < |s.mutexes| && s.mutexes[i].owner.Some?
    requires var s1 := SetMutex(s, i, Joined(s, i, p));
             Linked(s1) && Waits(s1) == Waits(s) && s.mutexes[i].owner.value in s1.pcbs
    ensures var s2 := ReplacePriority(SetMutex(s, i, Joined(s, i, p)), s.mutexes[i].owner.value, s.mutexes[i].next,
                                      s.pcbs[p].priority);
            SameEdges(s, s2) && SameEdges(s, SetMutex(s2, i, s2.mutexes[i].(next := s.pcbs[p].priority)))
  {
    var s1 := SetMutex(s, i, Joined(s, i, p));
    MutexKeepsEdges(s, s, i, Joined(s, i, p));
    InheritanceKeepsEdges(s, s1, s.mutexes[i].owner.value, s.mutexes[i].next, s.pcbs[p].priority);
    var s2 := ReplacePriority(s1, s.mutexes[i].owner.value, s.mutexes[i].next, s.pcbs[p].priority);
    MutexKeepsEdges(s, s2, i, s2.mutexes[i].(next := s.pcbs[p].priority));
  }

  /** A lock that waits adds one edge, whatever it does to the priorities. */
  lemma LockAddsEdge(s: State, i: nat, p: nat)
    requires Linked(s) && Acyclic(Waits(s)) && p in s.pcbs && i < |s.mutexes|
    requires s.mutexes[i].state != 1 && s.mutexes[i].owner.Some? && s.mutexes[i].active
    ensures Waits(LockMutex(s, i, p).0) == Waits(s)[p := s.mutexes[i].owner.value]
  {
    JoiningKeepsEdges(s, i, p);
    BlockingAddsEdge(s, JoinWaiters(s, i, p), i, p);
  }

  lemma BlockingAddsEdge(s: State, t: State, i: nat, p: nat)
    requires p in s.pcbs && i < |s.mutexes| && s.mutexes[i].owner.Some? && SameEdges(s, t)
    ensures Waits(AddState(SetBlocking(t, p, Some(i)), i, -1)) == Waits(s)[p := s.mutexes[i].owner.value]
  {
    var r := AddState(SetBlocking(t, p, Some(i)), i, -1);
    var g := Waits(s)[p := s.mutexes[i].owner.value];
    forall x ensures x in Waits(r) <==> x in g {}
    forall x | x in g ensures Waits(r)[x] == g[x] {}
  }

  /** Along a chain that does not go through p, ranks that hold with p's new edge fall. */
  lemma {:induction false} RankFallsAlongChain(g: Graph, p: nat, o: nat, x: nat, rank: map<nat, nat>)
    requires Acyclic(g) && p !in g && p in Chain(g, x) && Ranked(g[p := o], rank)
    ensures p in rank && (x == p || (x in rank && rank[p] < rank[x]))
    decreases Depth(g, x)
  {
    var g' := g[p := o];
    assert p in g' && g'[p] in rank;
    if x != p {
      assert g'[x] == g[x];
      RankFallsAlongChain(g, p, o, g[x], rank);
    }
  }

  /** Letting p wait for o closes a cycle if and only if o waits for p, directly or indirectly. */
  lemma AddEdgeAcyclicIff(g: Graph, p: nat, o: nat)
    requires Acyclic(g) && p !in g
    ensures Acyclic(g[p := o]) <==> p !in Chain(g, o)
  {
    if p !in Chain(g, o) {
      AddEdgeAcyclic(g, p, o);
    } else {
      var g' := g[p := o];
      assert p in g' && g'[p] == o;
      forall rank: map<nat, nat> ensures !Ranked(g', rank) {
        if Ranked(g', rank) { RankFallsAlongChain(g, p, o, o, rank); }
      }
    }
  }

  /** A lock by a running process keeps the bookkeeping if and only if the mutex is free or its owner
      does not wait for the process, directly or indirectly. */
  lemma LockKeepsIff(s: State, base: Bases, i: nat, p: nat)
    requires Inv(s, base) && p in s.pcbs && s.pcbs[p].blocking.None? && i < |s.mutexes|
    ensures Linked(s) && Acyclic(Waits(s)) && (s.mutexes[i].state == 1 || s.mutexes[i].owner.Some?)
    ensures Inv(LockMutex(s, i, p).0, base) <==>
              s.mutexes[i].owner.None? || p !in Chain(Waits(s), s.mutexes[i].owner.value)
  {
    InvIsLinked(s, base);
    assert MutexOk(s, i, Priorities(s));
    if s.mutexes[i].owner.None? || p !in Chain(Waits(s), s.mutexes[i].owner.value) {
      LockKeeps(s, base, i, p);
    } else {
      LockAddsEdge(s, i, p);
      AddEdgeAcyclicIff(Waits(s), p, s.mutexes[i].owner.value);
    }
  }

  // ---------- processes that ask one after another ----------

  /** A running process may wait for the mutex without closing a cycle. */
  ghost predicate CanAsk(s: State, base: Bases, i: nat, p: nat) {
    && Inv(s, base) && p in s.pcbs && s.pcbs[p].blocking.None? && i < |s.mutexes| && s.mutexes[i].owner.Some?
    && p !in Chain(Waits(s), s.mutexes[i].owner.value)
  }

  ghost predicate CanAskInTurn(s: State, base: Bases, i: nat, ps: seq<nat>)
    decreases |ps|
  {
    ps != [] ==>
      && CanAsk(s, base, i, ps[0])
      && (LockKeeps(s, base, i, ps[0]); CanAskInTurn(LockMutex(s, i, ps[0]).0, base, i, ps[1..]))
  }

  /** The state after the processes have asked for mutex i, in this order. */
  ghost function AskInTurn(s: State, base: Bases, i: nat, ps: seq<nat>): State
    requires CanAskInTurn(s, base, i, ps)
    decreases |ps|
  {
    if ps == [] then s
    else
      LockKeeps(s, base, i, ps[0]);
      AskInTurn(LockMutex(s, i, ps[0]).0, base, i, ps[1..])
  }

  lemma {:induction false} ChainKept(g: Graph, p: nat, o: nat, x: nat)
    requires Acyclic(g) && Acyclic(g[p := o]) && p !in Chain(g, x)
    ensures Chain(g[p := o], x) == Chain(g, x)
    decreases Depth(g, x)
  {
    ChainEnds(g, x);
    assert x != p;
    if x in g {
      assert Depth(g, g[x]) < Depth(g, x);
      ChainKept(g, p, o, g[x]);
      assert Chain(g[p := o], x) == {x} + Chain(g[p := o], g[x]);
    }
  }

  /** What the inheritance of a request leaves of the state right after the insertion. */
  lemma InheritanceMisses(s: State, base: Bases, i: nat, p: nat)
    requires CanAsk(s, base, i, p) && Linked(s) && Acyclic(Waits(s))
    requires (forall w :: w in s.mutexes[i].waiters ==> w in s.pcbs) && s.mutexes[i].owner.value in s.pcbs
    ensures var s1, o := SetMutex(s, i, Joined(s, i, p)), s.mutexes[i].owner.value;
            && Linked(s1) && Waits(s1) == Waits(s)
            && var s2 := ReplacePriority(s1, o, s.mutexes[i].next, s.pcbs[p].priority);
            && SameEdges(s, s2) && s2.mutexes[i] == Joined(s, i, p)
            && (forall x :: x in s.pcbs && x !in Chain(Waits(s), o) ==> s2.pcbs[x] == s.pcbs[x])
  {
    var o, x := s.mutexes[i].owner.value, s.pcbs[p].priority;
    JoinedLinked(s, i, p);
    JoiningInFrontKeepsEdges(s, i, p);
    OwnerChainIsClear(s, base, i, p);
    JoinedStays(s, SetMutex(s, i, Joined(s, i, p)), o, s.mutexes[i].next, x, i, p);
  }

  lemma JoinedStays(s: State, s1: State, o: nat, old_: int, new_: int, i: nat, p: nat)
    requires Linked(s1) && Acyclic(Waits(s)) && Waits(s1) == Waits(s) && o in s1.pcbs && s1.pcbs == s.pcbs && i < |s1.mutexes|
    requires Misses(s, o, i) && p !in Chain(Waits(s), o)
    ensures var s2 := ReplacePriority(s1, o, old_, new_);
            && i < |s2.mutexes| && s2.mutexes[i] == s1.mutexes[i]
            && (forall x :: x in s.pcbs && x !in Chain(Waits(s), o) ==> x in s2.pcbs && s2.pcbs[x] == s.pcbs[x])
  {
    assert Misses(s1, o, i);
    var s2 := ReplacePriority(s1, o, old_, new_);
    ReplaceStaysOnChain(s1, o, old_, new_, p, i);
    forall x | x in s.pcbs && x !in Chain(Waits(s), o) ensures x in s2.pcbs && s2.pcbs[x] == s.pcbs[x] {
      ReplaceStaysOnChain(s1, o, old_, new_, x, i);
    }
  }

  /** p entered the waiters of mutex i by its priority, and nobody off the owner's chain noticed. */
  ghost predicate Entered(s: State, r: State, i: nat, p: nat)
    requires Acyclic(Waits(s)) && i < |s.mutexes| && s.mutexes[i].owner.Some? && p in s.pcbs
    requires forall w :: w in s.mutexes[i].waiters ==> w in s.pcbs
  {
    && r.pcbs.Keys == s.pcbs.Keys && i < |r.mutexes|
    && r.mutexes[i].waiters == Joined(s, i, p).waiters && r.mutexes[i].owner == s.mutexes[i].owner
    && (forall x :: x in s.pcbs && x != p ==> r.pcbs[x].blocking == s.pcbs[x].blocking) && r.pcbs[p].blocking == Some(i)
    && (forall x :: x in s.pcbs && x !in Chain(Waits(s), s.mutexes[i].owner.value) ==>
          r.pcbs[x].priority == s.pcbs[x].priority)
  }

  lemma AskingInFront(s: State, base: Bases, i: nat, p: nat)
    requires CanAsk(s, base, i, p) && Linked(s) && Acyclic(Waits(s)) && s.mutexes[i].state != 1 && s.mutexes[i].active
    requires (forall w :: w in s.mutexes[i].waiters ==> w in s.pcbs) && s.mutexes[i].owner.value in s.pcbs
    requires WaiterIndex(s.mutexes[i].waiters, s.pcbs[p].priority, Priorities(s)) == 0
    ensures Entered(s, LockMutex(s, i, p).0, i, p)
  {
    JoinWaitersUnfold(s, i, p);
    InheritanceMisses(s, base, i, p);
    var s2 := ReplacePriority(SetMutex(s, i, Joined(s, i, p)), s.mutexes[i].owner.value, s.mutexes[i].next, s.pcbs[p].priority);
    EnteredAfter(s, s2, i, p, s.pcbs[p].priority);
  }

  lemma EnteredAfter(s: State, s2: State, i: nat, p: nat, next: int)
    requires Acyclic(Waits(s)) && i < |s.mutexes| && s.mutexes[i].owner.Some? && p in s.pcbs
    requires forall w :: w in s.mutexes[i].waiters ==> w in s.pcbs
    requires SameEdges(s, s2) && s2.mutexes[i] == Joined(s, i, p)
    requires forall x :: x in s.pcbs && x !in Chain(Waits(s), s.mutexes[i].owner.value) ==> s2.pcbs[x] == s.pcbs[x]
    ensures Entered(s, AddState(SetBlocking(SetMutex(s2, i, s2.mutexes[i].(next := next)), p, Some(i)), i, -1), i, p)
  {
  }

  lemma AskingBehind(s: State, i: nat, p: nat)
    requires Linked(s) && Acyclic(Waits(s)) && p in s.pcbs && i < |s.mutexes| && s.mutexes[i].owner.Some?
    requires s.mutexes[i].state != 1 && s.mutexes[i].active
    requires WaiterIndex(s.mutexes[i].waiters, s.pcbs[p].priority, Priorities(s)) != 0
    ensures Entered(s, LockMutex(s, i, p).0, i, p)
  {
    assert LockMutex(s, i, p).0 == AddState(SetBlocking(SetMutex(s, i, Joined(s, i, p)), p, Some(i)), i, -1);
  }

  lemma OneAsks(s: State, base: Bases, i: nat, p: nat)
    requires CanAsk(s, base, i, p)
    ensures Linked(s) && Acyclic(Waits(s)) && (s.mutexes[i].state == 1 || s.mutexes[i].owner.Some?)
    ensures forall w :: w in s.mutexes[i].waiters ==> w in s.pcbs
    ensures var r, o := LockMutex(s, i, p).0, s.mutexes[i].owner.value;
            && Inv(r, base) && Entered(s, r, i, p)
            && Acyclic(Waits(r)) && Chain(Waits(r), o) == Chain(Waits(s), o)
  {
    var o := s.mutexes[i].owner.value;
    LockKeeps(s, base, i, p);
    OwnedMutex(s, base, i) by { assert MutexOk(s, i, Priorities(s)); }
    assert s.mutexes[i].state != 1 by { assert MutexOk(s, i, Priorities(s)); }
    if WaiterIndex(s.mutexes[i].waiters, s.pcbs[p].priority, Priorities(s)) == 0 {
      AskingInFront(s, base, i, p);
    } else {
      AskingBehind(s, i, p);
    }
    LockAddsEdge(s, i, p);
    ChainKept(Waits(s), p, o, o);
  }

  /** Blocked processes do not ask. */
  lemma {:induction false} AskersRun(s: State, base: Bases, i: nat, ps: seq<nat>, x: nat)
    requires CanAskInTurn(s, base, i, ps) && x in s.pcbs && s.pcbs[x].blocking.Some?
    ensures x !in ps
    decreases |ps|
  {
    if ps != [] {
      OneAsks(s, base, i, ps[0]);
      AskersRun(LockMutex(s, i, ps[0]).0, base, i, ps[1..], x);
    }
  }

  lemma {:induction false} AskersDiffer(s: State, base: Bases, i: nat, ps: seq<nat>)
    requires CanAskInTurn(s, base, i, ps)
    ensures NoDuplicates(ps)
    decreases |ps|
  {
    if ps != [] {
      OneAsks(s, base, i, ps[0]);
      var r := LockMutex(s, i, ps[0]).0;
      AskersRun(r, base, i, ps[1..], ps[0]);
      AskersDiffer(r, base, i, ps[1..]);
      forall a, b | 0 <= a < b < |ps| ensures ps[a] != ps[b] {
        assert ps[b] == ps[1..][b - 1];
        if a > 0 { assert ps[a] == ps[1..][a - 1]; }
      }
    }
  }

  /** Nobody who asks is waited for by the owner. */
  lemma {:induction false} AskersOffChain(s: State, base: Bases, i: nat, ps: seq<nat>, x: nat)
    requires CanAskInTurn(s, base, i, ps) && x in ps
    ensures Inv(s, base) && i < |s.mutexes| && s.mutexes[i].owner.Some?
    ensures x in s.pcbs && x !in Chain(Waits(s), s.mutexes[i].owner.value)
    decreases |ps|
  {
    OneAsks(s, base, i, ps[0]);
    if x != ps[0] {
      AskersOffChain(LockMutex(s, i, ps[0]).0, base, i, ps[1..], x);
    }
  }

  lemma WaitersOffChain(s: State, base: Bases, i: nat, x: nat)
    requires Inv(s, base) && i < |s.mutexes| && s.mutexes[i].owner.Some? && x in s.mutexes[i].waiters
    ensures x in s.pcbs && x !in Chain(Waits(s), s.mutexes[i].owner.value)
  {
    assert MutexOk(s, i, Priorities(s));
    assert Waits(s)[x] == s.mutexes[i].owner.value;
    if x in Chain(Waits(s), s.mutexes[i].owner.value) {
      ChainDepth(Waits(s), s.mutexes[i].owner.value, x);
    }
  }

  /** Nobody who waits or still asks is given another priority by a request. */
  lemma RequestKeepsPriority(s: State, base: Bases, i: nat, ps: seq<nat>, w: nat)
    requires ps != [] && CanAskInTurn(s, base, i, ps)
    ensures Linked(s) && Acyclic(Waits(s)) && CanAsk(s, base, i, ps[0])
    ensures s.mutexes[i].state == 1 || s.mutexes[i].owner.Some?
    ensures var r := LockMutex(s, i, ps[0]).0;
            i < |r.mutexes| && (w in r.mutexes[i].waiters || w in ps[1..] ==>
              w in r.pcbs && w in s.pcbs && r.pcbs[w].priority == s.pcbs[w].priority)
  {
    OneAsks(s, base, i, ps[0]);
    var r := LockMutex(s, i, ps[0]).0;
    if w in ps[1..] {
      AskersOffChain(r, base, i, ps[1..], w);
    } else if w in r.mutexes[i].waiters {
      WaitersOffChain(r, base, i, w);
    }
  }

  /** Whoever asks joins the list by the priority it had when the first one asked. */
  lemma {:induction false} AskersJoin(s: State, base: Bases, i: nat, ps: seq<nat>)
    requires Inv(s, base) && i < |s.mutexes| && s.mutexes[i].owner.Some? && CanAskInTurn(s, base, i, ps)
    ensures forall w :: w in ps || w in s.mutexes[i].waiters ==> w in s.pcbs
    ensures var r := AskInTurn(s, base, i, ps);
            && Inv(r, base) && i < |r.mutexes| && r.mutexes[i].owner == s.mutexes[i].owner
            && r.mutexes[i].waiters == QueuedBehind(s.mutexes[i].waiters, ps, Priorities(s))
    decreases |ps|
  {
    forall w | w in ps ensures w in s.pcbs { AskersOffChain(s, base, i, ps, w); }
    assert forall w :: w in s.mutexes[i].waiters ==> w in s.pcbs by { assert MutexOk(s, i, Priorities(s)); }
    if ps != [] {
      OneAsks(s, base, i, ps[0]);
      var r := LockMutex(s, i, ps[0]).0;
      AskersJoin(r, base, i, ps[1..]);
      forall w | w in r.mutexes[i].waiters || w in ps[1..]
        ensures w in r.pcbs && w in s.pcbs && r.pcbs[w].priority == s.pcbs[w].priority
      {
        RequestKeepsPriority(s, base, i, ps, w);
      }
      QueuedBehindSame(r.mutexes[i].waiters, ps[1..], Priorities(r), Priorities(s));
    }
  }

  /** Who does not ask stays blocked or running. */
  lemma {:induction false} OthersStay(s: State, base: Bases, i: nat, ps: seq<nat>, x: nat)
    requires CanAskInTurn(s, base, i, ps) && x in s.pcbs && x !in ps
    ensures var r := AskInTurn(s, base, i, ps); x in r.pcbs && r.pcbs[x].blocking == s.pcbs[x].blocking
    decreases |ps|
  {
    if ps != [] {
      OneAsks(s, base, i, ps[0]);
      OthersStay(LockMutex(s, i, ps[0]).0, base, i, ps[1..], x);
    }
  }

  // ---------- owners that unlock one after another ----------

  /** The owner hands the mutex to the first waiter, who runs again; the others keep their places. */
  lemma UnlockHandsOn(s: State, base: Bases, i: nat, p: nat)
    requires Inv(s, base) && i < |s.mutexes| && s.mutexes[i].owner == Some(p)
    requires p in s.pcbs && s.pcbs[p].blocking.None? && s.mutexes[i].waiters != []
    ensures Linked(s) && CanUnlock(s, i, p)
    ensures var r, heir := UnlockMutex(s, i, p).0, s.mutexes[i].waiters[0];
            && Inv(r, base) && i < |r.mutexes| && r.mutexes[i].owner == Some(heir)
            && r.mutexes[i].waiters == s.mutexes[i].waiters[1..]
            && heir in r.pcbs && r.pcbs[heir].blocking.None?
  {
    UnlockKeeps(s, base, i, p);
    assert MutexOk(s, i, Priorities(s));
    HeirFacts(s, base, i, p);
    HandUnfold(s, i, p);
    MovedIsHanded(s, base, i, p);
  }

  /** The processes that get mutex i when every owner unlocks it. */
  ghost function HandedTo(s: State, base: Bases, i: nat): seq<nat>
    requires Inv(s, base) && i < |s.mutexes| && s.mutexes[i].owner.Some?
    requires s.mutexes[i].owner.value in s.pcbs && s.pcbs[s.mutexes[i].owner.value].blocking.None?
    decreases |s.mutexes[i].waiters|
  {
    if s.mutexes[i].waiters == [] then []
    else
      var p := s.mutexes[i].owner.value;
      UnlockHandsOn(s, base, i, p);
      [s.mutexes[i].waiters[0]] + HandedTo(UnlockMutex(s, i, p).0, base, i)
  }

  lemma HandedToUnfold(s: State, base: Bases, i: nat, p: nat)
    requires Inv(s, base) && i < |s.mutexes| && s.mutexes[i].owner == Some(p)
    requires p in s.pcbs && s.pcbs[p].blocking.None? && s.mutexes[i].waiters != []
    requires Linked(s) && CanUnlock(s, i, p)
    requires var r := UnlockMutex(s, i, p).0;
             && Inv(r, base) && i < |r.mutexes| && r.mutexes[i].owner.Some?
             && r.mutexes[i].owner.value in r.pcbs && r.pcbs[r.mutexes[i].owner.value].blocking.None?
    ensures HandedTo(s, base, i) == [s.mutexes[i].waiters[0]] + HandedTo(UnlockMutex(s, i, p).0, base, i)
  {
  }

  lemma {:induction false} HandedToWaiters(s: State, base: Bases, i: nat)
    requires Inv(s, base) && i < |s.mutexes| && s.mutexes[i].owner.Some?
    requires s.mutexes[i].owner.value in s.pcbs && s.pcbs[s.mutexes[i].owner.value].blocking.None?
    ensures HandedTo(s, base, i) == s.mutexes[i].waiters
    decreases |s.mutexes[i].waiters|
  {
    if s.mutexes[i].waiters != [] {
      var p := s.mutexes[i].owner.value;
      UnlockHandsOn(s, base, i, p);
      HandedToUnfold(s, base, i, p);
      HandedToWaiters(UnlockMutex(s, i, p).0, base, i);
    }
  }

  /** A mutex that nobody waited for is handed on in the order in which the processes asked for it if
      and only if each of them is strictly worse than all who asked before. */
  lemma HandedOnInOrderIff(s: State, base: Bases, i: nat, ps: seq<nat>)
    requires Inv(s, base) && i < |s.mutexes| && s.mutexes[i].owner.Some? && s.mutexes[i].waiters == []
    requires s.mutexes[i].owner.value in s.pcbs && s.pcbs[s.mutexes[i].owner.value].blocking.None?
    requires CanAskInTurn(s, base, i, ps)
    ensures forall p :: p in ps ==> p in s.pcbs
    ensures var r := AskInTurn(s, base, i, ps);
            && Inv(r, base) && i < |r.mutexes| && r.mutexes[i].owner == s.mutexes[i].owner
            && r.mutexes[i].owner.value in r.pcbs && r.pcbs[r.mutexes[i].owner.value].blocking.None?
            && (HandedTo(r, base, i) == ps <==> StrictlyWorsening(ps, Priorities(s)))
  {
    var o := s.mutexes[i].owner.value;
    AskersJoin(s, base, i, ps);
    if o in ps {
      AskersOffChain(s, base, i, ps, o);
      ChainEnds(Waits(s), o);
    }
    OthersStay(s, base, i, ps, o);
    HandedToWaiters(AskInTurn(s, base, i, ps), base, i);
    QueuedFromNothing(ps, Priorities(s));
    AskersDiffer(s, base, i, ps);
    ArrivalOrderIff(ps, Priorities(s));
  }
}
