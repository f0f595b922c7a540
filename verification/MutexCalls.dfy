/** Lock and unlock keep the bookkeeping, as long as no lock closes a cycle of waiting processes. */
module MutexCalls {
  import opened Options
  import opened MutexTables
  import opened MutexLaws

  // ---------- the wait-for graph ----------

  lemma {:induction false} ChainEnds(g: Graph, x: nat)
    requires Acyclic(g)
    ensures x in Chain(g, x)
    ensures x in g ==> Chain(g, g[x]) <= Chain(g, x)
  {
  }

  /** A rank in which everybody who waits for p comes above o. */
  ghost function Raised(g: Graph, p: nat, o: nat, x: nat): nat
    requires Acyclic(g)
  {
    var rank := RankOf(g);
    (if x in rank then rank[x] else 0) + if p in Chain(g, x) then (if o in rank then rank[o] else 0) + 1 else 0
  }

  lemma RaisedDescends(g: Graph, p: nat, o: nat, x: nat)
    requires Acyclic(g) && p !in g && p !in Chain(g, o) && x in g[p := o]
    ensures Raised(g, p, o, g[p := o][x]) < Raised(g, p, o, x)
  {
    ChainEnds(g, x);
    if x != p {
      assert Chain(g, x) == {x} + Chain(g, g[x]);
      assert RankOf(g)[g[x]] < RankOf(g)[x];
    }
  }

  /** Letting an unblocked process wait for somebody who does not wait for it closes no cycle. */
  lemma AddEdgeAcyclic(g: Graph, p: nat, o: nat)
    requires Acyclic(g) && p !in g && p !in Chain(g, o)
    ensures Acyclic(g[p := o])
  {
    var g' := g[p := o];
    var rank' := map x | x in g'.Keys + g'.Values :: Raised(g, p, o, x);
    forall x {:trigger g'[x]} | x in g' ensures x in rank' && g'[x] in rank' && rank'[g'[x]] < rank'[x] {
      assert g'[x] in g'.Values;
      RaisedDescends(g, p, o, x);
    }
    assert Ranked(g', rank');
  }

  /** Handing a mutex from its owner to its first waiter closes no cycle: the heir stops waiting,
      and the waiters left behind now wait for the heir. */
  lemma HandOverAcyclic(g: Graph, g': Graph, heir: nat)
    requires Acyclic(g) && heir !in g'
    requires forall x :: x in g' ==> x in g && (g'[x] == g[x] || g'[x] == heir)
    ensures Acyclic(g')
  {
    var rank := RankOf(g);
    var rank' := (map x | x in rank :: rank[x] + 1)[heir := 0];
    forall x {:trigger g'[x]} | x in g' ensures x in rank' && g'[x] in rank' && rank'[g'[x]] < rank'[x] {
      assert g[x] in rank;
    }
    assert Ranked(g', rank');
  }

  // ---------- what the inheritance leaves alone ----------

  /** Same processes, same mutexes, same owners, same blocked processes, same names. */
  ghost predicate SameShape(s: State, t: State) {
    && t.pcbs.Keys == s.pcbs.Keys && |t.mutexes| == |s.mutexes| && t.names == s.names
    && (forall p :: p in s.pcbs ==> t.pcbs[p].blocking == s.pcbs[p].blocking)
    && (forall i :: 0 <= i < |s.mutexes| ==>
          && t.mutexes[i].owner == s.mutexes[i].owner && t.mutexes[i].state == s.mutexes[i].state
          && |t.mutexes[i].waiters| == |s.mutexes[i].waiters|)
  }

  lemma SameShapeTrans(s: State, t: State, u: State)
    requires SameShape(s, t) && SameShape(t, u)
    ensures SameShape(s, u)
  {
  }

  lemma EntryShape(s: State, q: nat, l: seq<int>)
    requires q in s.pcbs && l != []
    ensures SameShape(s, SetPriorities(s, q, l))
  {
  }

  lemma {:induction false} ReplaceShape(s: State, q: nat, old_: int, new_: int)
    requires Linked(s) && Acyclic(Waits(s)) && q in s.pcbs
    ensures SameShape(s, ReplacePriority(s, q, old_, new_))
    decreases Depth(Waits(s), q), 1
  {
    var s1 := AfterEntry(s, q, old_, new_);
    ReplaceUnfold(s, q, old_, new_);
    EntryShape(s, q, Exchanged(s.pcbs[q].priorities, old_, new_));
    if s1.pcbs[q].priority != s.pcbs[q].priority {
      PropagateShape(s1, q);
      SameShapeTrans(s, s1, ReplacePriority(s, q, old_, new_));
    }
  }

  lemma SetMutexShape(s: State, i: nat, m: Mutex)
    requires i < |s.mutexes| && m.owner == s.mutexes[i].owner && m.state == s.mutexes[i].state
    requires |m.waiters| == |s.mutexes[i].waiters|
    ensures SameShape(s, SetMutex(s, i, m))
  {
  }

  lemma ReinsertedLength(s: State, i: nat, q: nat)
    requires Linked(s) && i < |s.mutexes| && q in s.pcbs && q in s.mutexes[i].waiters
    ensures |Reinserted(s, i, q)| == |s.mutexes[i].waiters|
  {
  }

  lemma {:induction false} PropagateShape(s: State, q: nat)
    requires Linked(s) && Acyclic(Waits(s)) && q in s.pcbs
    ensures SameShape(s, PropagatePriority(s, q, s.pcbs[q].priority))
    decreases Depth(Waits(s), q), 0
  {
    if s.pcbs[q].blocking.Some? {
      var i := s.pcbs[q].blocking.value;
      if s.mutexes[i].active && q in s.mutexes[i].waiters {
        var m, x := s.mutexes[i], s.pcbs[q].priority;
        WaitsStep(s, q, i);
        PropagateUnfold(s, q, i, s.pcbs[q].priority);
        var m1 := m.(waiters := Reinserted(s, i, q));
        var s1 := SetMutex(s, i, m1.(next := x));
        ReinsertedLength(s, i, q);
        SetMutexShape(s, i, m1);
        SetMutexShape(s, i, m1.(next := x));
        if ReinsertedFirst(s, i, q) && x != m.next {
          ReplaceShape(s1, m.owner.value, m.next, x);
          SameShapeTrans(s, s1, PropagatePriority(s, q, x));
        }
      }
    }
  }

  // ---------- waiting at an owned mutex ----------

  /** The state of a lock that waits, with everything in place except the inheritance. */
  function Waiting(s: State, i: nat, p: nat, next: int): State {
    if i < |s.mutexes| && p in s.pcbs then
      s.(mutexes := s.mutexes[i := s.mutexes[i].(next := next, state := s.mutexes[i].state - 1)],
         pcbs := s.pcbs[p := s.pcbs[p].(blocking := Some(i))])
    else s
  }

  /** The chain from q avoids process p and mutex i. */
  ghost predicate Clear(s: State, q: nat, i: nat, p: nat)
    requires Acyclic(Waits(s))
  {
    && p !in Chain(Waits(s), q)
    && forall x :: x in Chain(Waits(s), q) && x in s.pcbs ==> s.pcbs[x].blocking != Some(i)
  }

  lemma EntryCommutes(s: State, q: nat, old_: int, new_: int, i: nat, p: nat, next: int)
    requires q in s.pcbs && p in s.pcbs && i < |s.mutexes| && q != p
    ensures AfterEntry(Waiting(s, i, p, next), q, old_, new_) == Waiting(AfterEntry(s, q, old_, new_), i, p, next)
  {
    var x, y := AfterEntry(Waiting(s, i, p, next), q, old_, new_), Waiting(AfterEntry(s, q, old_, new_), i, p, next);
    assert x.pcbs == y.pcbs;
  }

  lemma SetMutexCommutes(s: State, j: nat, m: Mutex, i: nat, p: nat, next: int)
    requires p in s.pcbs && i < |s.mutexes| && j < |s.mutexes| && i != j
    ensures SetMutex(Waiting(s, i, p, next), j, m) == Waiting(SetMutex(s, j, m), i, p, next)
  {
    assert SetMutex(Waiting(s, i, p, next), j, m).mutexes == Waiting(SetMutex(s, j, m), i, p, next).mutexes;
  }

  lemma ReinsertCommutes(s: State, j: nat, q: nat, i: nat, p: nat, next: int)
    requires Linked(s) && Linked(Waiting(s, i, p, next)) && q in s.pcbs && p in s.pcbs
    requires i < |s.mutexes| && j < |s.mutexes| && i != j
    ensures Reinserted(Waiting(s, i, p, next), j, q) == Reinserted(s, j, q)
    ensures ReinsertedFirst(Waiting(s, i, p, next), j, q) == ReinsertedFirst(s, j, q)
  {
    var t := Waiting(s, i, p, next);
    assert Priorities(t) == Priorities(s);
    assert t.mutexes[j] == s.mutexes[j] && t.pcbs[q].priority == s.pcbs[q].priority;
  }

  lemma ClearHere(s: State, q: nat, i: nat, p: nat)
    requires Acyclic(Waits(s)) && q in s.pcbs && Clear(s, q, i, p)
    ensures q != p && s.pcbs[q].blocking != Some(i)
  {
    ChainEnds(Waits(s), q);
  }

  lemma ClearNext(s: State, s': State, q: nat, i: nat, p: nat)
    requires Acyclic(Waits(s)) && q in s.pcbs && Clear(s, q, i, p)
    requires Waits(s') == Waits(s) && s'.pcbs.Keys == s.pcbs.Keys
    requires forall x :: x in s.pcbs ==> s'.pcbs[x].blocking == s.pcbs[x].blocking
    ensures Clear(s', q, i, p)
    ensures q in Waits(s) ==> Clear(s', Waits(s)[q], i, p)
  {
    ChainEnds(Waits(s), q);
  }

  /** The inheritance looks at nothing that the lock's own updates touch, so it can be run before or
      after them. */
  lemma {:induction false} ReplaceCommutes(s: State, q: nat, old_: int, new_: int, i: nat, p: nat, next: int)
    requires Linked(s) && Acyclic(Waits(s)) && q in s.pcbs && p in s.pcbs && i < |s.mutexes|
    requires Linked(Waiting(s, i, p, next)) && Acyclic(Waits(Waiting(s, i, p, next))) && Clear(s, q, i, p)
    ensures ReplacePriority(Waiting(s, i, p, next), q, old_, new_) == Waiting(ReplacePriority(s, q, old_, new_), i, p, next)
    decreases Depth(Waits(s), q), 1
  {
    if AfterEntry(s, q, old_, new_).pcbs[q].priority == s.pcbs[q].priority {
      ReplaceUnfold(s, q, old_, new_);
      WaitingReplaceUnfold(s, q, old_, new_, i, p, next);
    } else {
      ReplaceOnCommutes(s, q, old_, new_, i, p, next);
    }
  }

  /** The case in which the priority changes. */
  lemma {:induction false} ReplaceOnCommutes(s: State, q: nat, old_: int, new_: int, i: nat, p: nat, next: int)
    requires Linked(s) && Acyclic(Waits(s)) && q in s.pcbs && p in s.pcbs && i < |s.mutexes|
    requires Linked(Waiting(s, i, p, next)) && Acyclic(Waits(Waiting(s, i, p, next))) && Clear(s, q, i, p)
    requires AfterEntry(s, q, old_, new_).pcbs[q].priority != s.pcbs[q].priority
    ensures ReplacePriority(Waiting(s, i, p, next), q, old_, new_) == Waiting(ReplacePriority(s, q, old_, new_), i, p, next)
    decreases Depth(Waits(s), q), 1, 0
  {
    var s1 := AfterEntry(s, q, old_, new_);
    ReplaceUnfold(s, q, old_, new_);
    WaitingReplaceUnfold(s, q, old_, new_, i, p, next);
    ClearAfterEntry(s, q, old_, new_, i, p);
    PropagateCommutes(s1, q, i, p, next);
  }

  lemma ClearAfterEntry(s: State, q: nat, old_: int, new_: int, i: nat, p: nat)
    requires Linked(s) && Acyclic(Waits(s)) && q in s.pcbs && Clear(s, q, i, p)
    ensures Waits(AfterEntry(s, q, old_, new_)) == Waits(s) && Clear(AfterEntry(s, q, old_, new_), q, i, p)
  {
    ClearAfterList(s, q, Exchanged(s.pcbs[q].priorities, old_, new_), i, p);
  }

  lemma ClearAfterList(s: State, q: nat, l: seq<int>, i: nat, p: nat)
    requires Acyclic(Waits(s)) && q in s.pcbs && Clear(s, q, i, p) && l != []
    ensures Waits(SetPriorities(s, q, l)) == Waits(s) && Clear(SetPriorities(s, q, l), q, i, p)
  {
    SameWaits(s, SetPriorities(s, q, l));
  }

  lemma WaitingReplaceUnfold(s: State, q: nat, old_: int, new_: int, i: nat, p: nat, next: int)
    requires Linked(s) && Acyclic(Waits(s)) && q in s.pcbs && p in s.pcbs && i < |s.mutexes|
    requires Linked(Waiting(s, i, p, next)) && Acyclic(Waits(Waiting(s, i, p, next))) && Clear(s, q, i, p)
    ensures var s1 := AfterEntry(s, q, old_, new_);
            var t1 := Waiting(s1, i, p, next);
            && Linked(t1) && Acyclic(Waits(t1)) && q in t1.pcbs
            && ReplacePriority(Waiting(s, i, p, next), q, old_, new_)
               == if s1.pcbs[q].priority != s.pcbs[q].priority then PropagatePriority(t1, q, s1.pcbs[q].priority) else t1
  {
    ClearHere(s, q, i, p);
    EntryCommutes(s, q, old_, new_, i, p, next);
    ReplaceUnfold(Waiting(s, i, p, next), q, old_, new_);
  }

  lemma {:induction false} PropagateCommutes(s: State, q: nat, i: nat, p: nat, next: int)
    requires Linked(s) && Acyclic(Waits(s)) && q in s.pcbs && p in s.pcbs && i < |s.mutexes|
    requires Linked(Waiting(s, i, p, next)) && Acyclic(Waits(Waiting(s, i, p, next))) && Clear(s, q, i, p)
    ensures PropagatePriority(Waiting(s, i, p, next), q, s.pcbs[q].priority)
         == Waiting(PropagatePriority(s, q, s.pcbs[q].priority), i, p, next)
    decreases Depth(Waits(s), q), 0
  {
    ClearHere(s, q, i, p);
    if s.pcbs[q].blocking.Some? {
      var j := s.pcbs[q].blocking.value;
      if s.mutexes[j].active && q in s.mutexes[j].waiters {
        PropagateOnCommutes(s, q, j, i, p, next);
      }
    }
  }

  /** The case in which q is found among the waiters of mutex j. */
  lemma {:induction false} PropagateOnCommutes(s: State, q: nat, j: nat, i: nat, p: nat, next: int)
    requires Linked(s) && Acyclic(Waits(s)) && q in s.pcbs && p in s.pcbs && i < |s.mutexes|
    requires Linked(Waiting(s, i, p, next)) && Acyclic(Waits(Waiting(s, i, p, next))) && Clear(s, q, i, p)
    requires q != p && s.pcbs[q].blocking == Some(j) && j != i && s.mutexes[j].active && q in s.mutexes[j].waiters
    ensures PropagatePriority(Waiting(s, i, p, next), q, s.pcbs[q].priority)
         == Waiting(PropagatePriority(s, q, s.pcbs[q].priority), i, p, next)
    decreases Depth(Waits(s), q), 0, 0
  {
    var t, m, x := Waiting(s, i, p, next), s.mutexes[j], s.pcbs[q].priority;
    assert t.mutexes[j] == m && t.pcbs[q] == s.pcbs[q];
    WaitsStep(s, q, j);
    PropagateUnfold(s, q, j, s.pcbs[q].priority);
    PropagateUnfold(t, q, j, t.pcbs[q].priority);
    ReinsertCommutes(s, j, q, i, p, next);
    var m1 := m.(waiters := Reinserted(s, j, q));
    if ReinsertedFirst(s, j, q) && x != m.next {
      var s1 := SetMutex(s, j, m1.(next := x));
      SetMutexCommutes(s, j, m1.(next := x), i, p, next);
      ClearNext(s, s1, q, i, p);
      ReplaceCommutes(s1, m.owner.value, m.next, x, i, p, next);
    } else {
      SetMutexCommutes(s, j, m1, i, p, next);
    }
  }
}
