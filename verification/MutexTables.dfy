/** Mutexes with priority inheritance (syscalls/mutex.c), as functions on the state of all processes
    and mutexes. Mutexes.dfy has the objects that are updated in place.

    Smaller numbers are better priorities. A mutex is named by its creation order; the dictionary
    of names is part of the state. */
module MutexTables {
  import opened Options
  import opened PriorityLists

  /** priorities: the base priority and one entry for each mutex held. */
  datatype Pcb = Pcb(priority: int, priorities: seq<int>, blocking: Option<nat>)

  /** next: the priority that the waiters lend to the owner, INT_MAX when there are none.
      state: 1 when free, otherwise minus the number of waiters. */
  datatype Mutex = Mutex(next: int, active: bool, waiters: seq<nat>, owner: Option<nat>, state: int)

  datatype State = State(pcbs: map<nat, Pcb>, mutexes: seq<Mutex>, names: map<string, nat>)

  datatype MutexResult =
    | MutexCreated
    | NameAlreadyExists
    | NameNotFound
    | MutexLocked
    | WaitingMutex
    | MutexUnlocked
    | ProcessHasNoLockedMutex

  type Graph = map<nat, nat>

  /** Who waits for whom: each blocked process for the owner of its mutex. */
  function Waits(s: State): Graph {
    map p | p in s.pcbs && s.pcbs[p].blocking.Some? && s.pcbs[p].blocking.value < |s.mutexes|
            && s.mutexes[s.pcbs[p].blocking.value].owner.Some?
      :: s.mutexes[s.pcbs[p].blocking.value].owner.value
  }

  ghost predicate Ranked(g: Graph, rank: map<nat, nat>) {
    forall p {:trigger g[p]} :: p in g ==> p in rank && g[p] in rank && rank[g[p]] < rank[p]
  }

  ghost predicate Acyclic(g: Graph) {
    exists rank: map<nat, nat> :: Ranked(g, rank)
  }

  ghost function RankOf(g: Graph): (rank: map<nat, nat>)
    requires Acyclic(g)
    ensures Ranked(g, rank)
  {
    var rank: map<nat, nat> :| Ranked(g, rank);
    rank
  }

  /** A bound on the length of the wait-for chain that starts at p. */
  ghost function Depth(g: Graph, p: nat): nat
    requires Acyclic(g)
  {
    if p in g then RankOf(g)[p] else 0
  }

  /** p and everybody it waits for, directly or indirectly. */
  ghost function Chain(g: Graph, p: nat): set<nat>
    requires Acyclic(g)
    decreases Depth(g, p)
  {
    {p} + if p in g then Chain(g, g[p]) else {}
  }

  function Priorities(s: State): map<nat, int> {
    map p | p in s.pcbs :: s.pcbs[p].priority
  }

  /** References between the tables lead somewhere. */
  ghost predicate Linked(s: State) {
    && (forall p {:trigger s.pcbs[p]} :: p in s.pcbs ==> s.pcbs[p].priorities != [])
    && (forall p {:trigger s.pcbs[p]} :: p in s.pcbs && s.pcbs[p].blocking.Some? ==>
          s.pcbs[p].blocking.value < |s.mutexes| && s.mutexes[s.pcbs[p].blocking.value].owner.Some?)
    && (forall i {:trigger s.mutexes[i]} :: 0 <= i < |s.mutexes| ==>
          && (s.mutexes[i].owner.Some? ==> s.mutexes[i].owner.value in s.pcbs)
          && (forall w :: w in s.mutexes[i].waiters ==> w in s.pcbs))
  }

  // ---------- priority changes ----------

  /** A process's new priority list; its head is the effective priority. */
  function SetPriorities(s: State, p: nat, l: seq<int>): State
    requires p in s.pcbs && l != []
  {
    s.(pcbs := s.pcbs[p := s.pcbs[p].(priorities := l, priority := l[0])])
  }

  function InsertPriority(s: State, p: nat, x: int): State
    requires p in s.pcbs
  {
    var pcb := s.pcbs[p];
    s.(pcbs := s.pcbs[p := pcb.(priorities := AddPriority(pcb.priorities, x),
                                priority := if x < pcb.priority then x else pcb.priority)])
  }

  function Exchanged(l: seq<int>, old_: int, new_: int): (l': seq<int>)
    ensures l' != []
  {
    AddPriority(RemoveFirst(l, old_), new_)
  }

  lemma SameWaits(s: State, s': State)
    requires s'.pcbs.Keys == s.pcbs.Keys && |s'.mutexes| == |s.mutexes|
    requires forall p :: p in s.pcbs ==> s'.pcbs[p].blocking == s.pcbs[p].blocking
    requires forall i :: 0 <= i < |s.mutexes| ==> s'.mutexes[i].owner == s.mutexes[i].owner
    ensures Waits(s') == Waits(s)
  {
  }

  /** Exchanges one entry of a process's priority list; a changed head is passed on along the chain
      of processes it waits for. */
  function ReplacePriority(s: State, p: nat, old_: int, new_: int): State
    requires Linked(s) && Acyclic(Waits(s)) && p in s.pcbs
    decreases Depth(Waits(s), p), 1
  {
    var l := Exchanged(s.pcbs[p].priorities, old_, new_);
    var s1 := SetPriorities(s, p, l);
    SameWaits(s, s1);
    if l[0] != s.pcbs[p].priority then PropagatePriority(s1, p, l[0]) else s1
  }

  /** The waiter list of mutex i with p taken out and inserted again by its present priority. */
  function Reinserted(s: State, i: nat, p: nat): seq<nat>
    requires Linked(s) && i < |s.mutexes| && p in s.pcbs
  {
    var rest := RemoveFirst(s.mutexes[i].waiters, p);
    AddWaiter(rest, p, s.pcbs[p].priority, Priorities(s))
  }

  /** Whether that insertion happens at the head. */
  predicate ReinsertedFirst(s: State, i: nat, p: nat)
    requires Linked(s) && i < |s.mutexes| && p in s.pcbs
  {
    WaiterIndex(RemoveFirst(s.mutexes[i].waiters, p), s.pcbs[p].priority, Priorities(s)) == 0
  }

  function SetMutex(s: State, i: nat, m: Mutex): State
    requires i < |s.mutexes|
  {
    s.(mutexes := s.mutexes[i := m])
  }

  /** Re-sorts p among the waiters of the mutex it waits for, and lends its new priority to the
      owner when p now comes first. */
  function PropagatePriority(s: State, p: nat, new_: int): State
    requires Linked(s) && Acyclic(Waits(s)) && p in s.pcbs
    decreases Depth(Waits(s), p), 0
  {
    match s.pcbs[p].blocking
    case None => s
    case Some(i) =>
      var m := s.mutexes[i];
      if !m.active then s
      else if p !in m.waiters then s
      else
        var m1 := m.(waiters := Reinserted(s, i, p));
        if ReinsertedFirst(s, i, p) && new_ != m.next then
          var s1 := SetMutex(s, i, m1.(next := new_));
          SameWaits(s, s1);
          ReplacePriority(s1, m.owner.value, m.next, new_)
        else SetMutex(s, i, m1)
  }

  // ---------- the system calls ----------

  function CreateMutex(s: State, name: string, active: bool): (State, MutexResult) {
    if name in s.names then (s, NameAlreadyExists)
    else (s.(mutexes := s.mutexes + [Mutex(INT_MAX, active, [], None, 1)], names := s.names[name := |s.mutexes|]),
          MutexCreated)
  }

  /** Waiting at an owned mutex: the list insertion and the inheritance it causes. */
  function JoinWaiters(s: State, i: nat, p: nat): State
    requires Linked(s) && Acyclic(Waits(s)) && p in s.pcbs && i < |s.mutexes| && s.mutexes[i].owner.Some?
  {
    var m := s.mutexes[i];
    if m.active then
      var prio := s.pcbs[p].priority;
      var s1 := SetMutex(s, i, m.(waiters := AddWaiter(m.waiters, p, prio, Priorities(s))));
      if WaiterIndex(m.waiters, prio, Priorities(s)) == 0 then
        SameWaits(s, s1);
        var s2 := ReplacePriority(s1, m.owner.value, m.next, prio);
        if i < |s2.mutexes| then SetMutex(s2, i, s2.mutexes[i].(next := prio)) else s2
      else s1
    else SetMutex(s, i, m.(waiters := m.waiters + [p]))
  }

  function SetBlocking(s: State, p: nat, b: Option<nat>): State {
    if p in s.pcbs then s.(pcbs := s.pcbs[p := s.pcbs[p].(blocking := b)]) else s
  }

  function AddState(s: State, i: nat, d: int): State {
    if i < |s.mutexes| then SetMutex(s, i, s.mutexes[i].(state := s.mutexes[i].state + d)) else s
  }

  function LockMutex(s: State, i: nat, p: nat): (State, MutexResult)
    requires Linked(s) && Acyclic(Waits(s)) && p in s.pcbs && i < |s.mutexes|
    requires s.mutexes[i].state == 1 || s.mutexes[i].owner.Some?
  {
    if s.mutexes[i].state == 1 then
      var s1 := SetMutex(s, i, s.mutexes[i].(owner := Some(p), next := INT_MAX));
      (AddState(InsertPriority(s1, p, INT_MAX), i, -1), MutexLocked)
    else
      (AddState(SetBlocking(JoinWaiters(s, i, p), p, Some(i)), i, -1), WaitingMutex)
  }

  /** The mutex goes to the first waiter, who takes over what the rest of the waiters lend. */
  function HandOver(s: State, i: nat): State
    requires i < |s.mutexes| && s.mutexes[i].waiters != []
    requires forall w :: w in s.mutexes[i].waiters ==> w in s.pcbs
    requires s.mutexes[i].state == -1 || |s.mutexes[i].waiters| > 1
  {
    var m := s.mutexes[i];
    var heir, rest := m.waiters[0], m.waiters[1..];
    var s1 := SetBlocking(SetMutex(s, i, m.(owner := Some(heir), waiters := rest)), heir, None);
    if !m.active then s1
    else
      var next := if m.state == -1 then INT_MAX else s.pcbs[rest[0]].priority;
      InsertPriority(SetMutex(s1, i, s1.mutexes[i].(next := next)), heir, next)
  }

  /** The owner's list has an entry besides the one lent by mutex i, and the state counts no waiter
      that is not there. */
  predicate CanUnlock(s: State, i: nat, p: nat) {
    && p in s.pcbs && i < |s.mutexes|
    && (s.mutexes[i].owner == Some(p) ==>
          && RemoveFirst(s.pcbs[p].priorities, s.mutexes[i].next) != []
          && (s.mutexes[i].state < 0 ==> s.mutexes[i].waiters != [])
          && (s.mutexes[i].state < -1 ==> |s.mutexes[i].waiters| > 1))
  }

  function UnlockMutex(s: State, i: nat, p: nat): (State, MutexResult)
    requires Linked(s) && CanUnlock(s, i, p)
  {
    var m := s.mutexes[i];
    if m.owner != Some(p) then (s, ProcessHasNoLockedMutex)
    else
      var s1 := if m.active then SetPriorities(s, p, RemoveFirst(s.pcbs[p].priorities, m.next)) else s;
      var s2 := if m.state == 0 then SetMutex(s1, i, m.(owner := None, next := INT_MAX))
                else if m.state < 0 then HandOver(s1, i) else s1;
      (AddState(s2, i, 1), MutexUnlocked)
  }

  function ListMutexLock(s: State, name: string, p: nat): (State, MutexResult)
    requires Linked(s) && Acyclic(Waits(s)) && p in s.pcbs
    requires name in s.names ==>
               && s.names[name] < |s.mutexes|
               && (s.mutexes[s.names[name]].state == 1 || s.mutexes[s.names[name]].owner.Some?)
  {
    if name !in s.names then (s, NameNotFound) else LockMutex(s, s.names[name], p)
  }

  function ListMutexUnlock(s: State, name: string, p: nat): (State, MutexResult)
    requires Linked(s) && p in s.pcbs
    requires name in s.names ==> CanUnlock(s, s.names[name], p)
  {
    if name !in s.names then (s, NameNotFound) else UnlockMutex(s, s.names[name], p)
  }
}
