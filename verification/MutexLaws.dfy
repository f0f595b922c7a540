/** The bookkeeping of the mutexes, and that lock, unlock and every step of the inheritance keep it. */
module MutexLaws {
  import opened Options
  import opened PriorityLists
  import opened MutexTables

  /** The fixed base priorities the processes were created with. */
  type Bases = map<nat, int>

  /** What the waiters lend: the priority of the first one, under the given priorities. */
  function Lent(ws: seq<nat>, prio: map<nat, int>): int
    requires forall w :: w in ws ==> w in prio
  {
    if ws == [] then INT_MAX else prio[ws[0]]
  }

  /** A mutex is free, or its state counts its waiters, which are the processes blocked on it,
      best first, and the first one's priority is lent to the owner. */
  ghost predicate MutexOk(s: State, i: nat, prio: map<nat, int>)
    requires i < |s.mutexes|
  {
    var m := s.mutexes[i];
    && m.active
    && (forall w :: w in m.waiters ==> w in s.pcbs && w in prio && s.pcbs[w].blocking == Some(i))
    && NoDuplicates(m.waiters) && SortedBy(m.waiters, prio)
    && (m.owner.None? ==> m.state == 1 && m.waiters == [] && m.next == INT_MAX)
    && (m.owner.Some? ==> m.owner.value in s.pcbs && m.state == -|m.waiters| && m.next == Lent(m.waiters, prio))
  }

  /** What mutex m lends to p. */
  ghost function Lending(m: Mutex, p: nat): multiset<int> {
    if m.owner == Some(p) then multiset{m.next} else multiset{}
  }

  /** The priorities lent to p through the first n mutexes. */
  ghost function Held(ms: seq<Mutex>, p: nat, n: nat): multiset<int>
    requires n <= |ms|
  {
    if n == 0 then multiset{} else Held(ms, p, n - 1) + Lending(ms[n - 1], p)
  }

  ghost function Entitled(s: State, base: Bases, p: nat): multiset<int>
    requires p in base
  {
    multiset{base[p]} + Held(s.mutexes, p, |s.mutexes|)
  }

  ghost predicate ListOk(pcb: Pcb) {
    pcb.priorities != [] && Sorted(pcb.priorities) && pcb.priority == pcb.priorities[0]
  }

  /** The priority list is exactly the base priority and what each held mutex lends; its least
      entry is the effective priority. */
  ghost predicate PcbOk(s: State, base: Bases, p: nat)
    requires p in s.pcbs && p in base
  {
    ListOk(s.pcbs[p]) && multiset(s.pcbs[p].priorities) == Entitled(s, base, p)
  }

  ghost predicate BlockOk(s: State, p: nat)
    requires p in s.pcbs
  {
    match s.pcbs[p].blocking
    case None => true
    case Some(i) => i < |s.mutexes| && s.mutexes[i].owner.Some? && p in s.mutexes[i].waiters
  }

  /** Everything but the priority lists, with the waiter lists judged by the given priorities. */
  ghost predicate Frame(s: State, base: Bases, prio: map<nat, int>) {
    && base.Keys == s.pcbs.Keys && prio.Keys == s.pcbs.Keys
    && (forall p :: p in base ==> base[p] <= INT_MAX)
    && (forall name :: name in s.names ==> s.names[name] < |s.mutexes|)
    && (forall i {:trigger MutexOk(s, i, prio)} :: 0 <= i < |s.mutexes| ==> MutexOk(s, i, prio))
    && (forall p {:trigger BlockOk(s, p)} :: p in s.pcbs ==> BlockOk(s, p))
    && Acyclic(Waits(s))
  }

  ghost predicate Inv(s: State, base: Bases) {
    Frame(s, base, Priorities(s)) && forall p {:trigger PcbOk(s, base, p)} :: p in s.pcbs ==> PcbOk(s, base, p)
  }

  /** All is well except that q's list still holds old_ where it is entitled to new_. */
  ghost predicate Pending(s: State, base: Bases, q: nat, old_: int, new_: int) {
    && Frame(s, base, Priorities(s))
    && q in s.pcbs
    && (forall p {:trigger PcbOk(s, base, p)} :: p in s.pcbs && p != q ==> PcbOk(s, base, p))
    && ListOk(s.pcbs[q])
    && old_ in s.pcbs[q].priorities && new_ <= old_
    && multiset(s.pcbs[q].priorities) + multiset{new_} == Entitled(s, base, q) + multiset{old_}
  }

  lemma FrameIsLinked(s: State, base: Bases, prio: map<nat, int>)
    requires Frame(s, base, prio) && forall p :: p in s.pcbs ==> ListOk(s.pcbs[p])
    ensures Linked(s) && Acyclic(Waits(s))
  {
    forall i | 0 <= i < |s.mutexes|
      ensures s.mutexes[i].owner.Some? ==> s.mutexes[i].owner.value in s.pcbs
      ensures forall w :: w in s.mutexes[i].waiters ==> w in s.pcbs
    {
      assert MutexOk(s, i, prio);
    }
    forall p | p in s.pcbs && s.pcbs[p].blocking.Some?
      ensures s.pcbs[p].blocking.value < |s.mutexes| && s.mutexes[s.pcbs[p].blocking.value].owner.Some?
    {
      assert BlockOk(s, p);
    }
  }

  // ---------- how the lent priorities add up ----------

  lemma SwapSums(a: multiset<int>, x: multiset<int>, y: multiset<int>)
    ensures (a + x) + y == (a + y) + x
  {
  }

  lemma CarrySums(a: multiset<int>, b: multiset<int>, x: multiset<int>, y: multiset<int>, e: multiset<int>)
    requires a + x == b + y
    ensures (a + e) + x == (b + e) + y
  {
    SwapSums(a, e, x);
    SwapSums(b, e, y);
  }

  lemma HeldUpdate(ms: seq<Mutex>, i: nat, m: Mutex, p: nat)
    requires i < |ms|
    ensures Held(ms[i := m], p, |ms|) + Lending(ms[i], p) == Held(ms, p, |ms|) + Lending(m, p)
  {
    HeldUpdateUpTo(ms, i, m, p, |ms|);
  }

  lemma {:induction false} HeldUpdateUpTo(ms: seq<Mutex>, i: nat, m: Mutex, p: nat, n: nat)
    requires i < n <= |ms|
    ensures Held(ms[i := m], p, n) + Lending(ms[i], p) == Held(ms, p, n) + Lending(m, p)
  {
    var ms' := ms[i := m];
    if n - 1 == i {
      HeldSame(ms', ms, p, i);
      SwapSums(Held(ms, p, i), Lending(ms[i], p), Lending(m, p));
    } else {
      HeldUpdateUpTo(ms, i, m, p, n - 1);
      CarrySums(Held(ms', p, n - 1), Held(ms, p, n - 1), Lending(ms[i], p), Lending(m, p), Lending(ms[n - 1], p));
    }
  }

  lemma {:induction false} HeldSame(ms: seq<Mutex>, ms': seq<Mutex>, p: nat, n: nat)
    requires n <= |ms| && n <= |ms'|
    requires forall k :: 0 <= k < n ==> ms[k].owner == ms'[k].owner && ms[k].next == ms'[k].next
    ensures Held(ms, p, n) == Held(ms', p, n)
  {
    if n > 0 {
      HeldSame(ms, ms', p, n - 1);
    }
  }

  lemma {:induction false} HeldHas(ms: seq<Mutex>, i: nat, p: nat, n: nat)
    requires i < n <= |ms| && ms[i].owner == Some(p)
    ensures ms[i].next in Held(ms, p, n)
  {
    assert Held(ms, p, n) == Held(ms, p, n - 1) + Lending(ms[n - 1], p);
    if i < n - 1 {
      HeldHas(ms, i, p, n - 1);
    }
  }

  /** Whatever is lent comes from some held mutex. */
  lemma {:induction false} HeldFrom(ms: seq<Mutex>, p: nat, n: nat, x: int) returns (i: nat)
    requires n <= |ms| && x in Held(ms, p, n)
    ensures i < n && ms[i].owner == Some(p) && ms[i].next == x
  {
    if ms[n - 1].owner == Some(p) && ms[n - 1].next == x {
      i := n - 1;
    } else {
      i := HeldFrom(ms, p, n - 1, x);
    }
  }

  // ---------- the inheritance step ----------

  lemma ExchangedLaws(l: seq<int>, old_: int, new_: int)
    requires Sorted(l) && old_ in l && new_ <= old_
    ensures Sorted(Exchanged(l, old_, new_))
    ensures multiset(Exchanged(l, old_, new_)) + multiset{old_} == multiset(l) + multiset{new_}
    ensures Exchanged(l, old_, new_)[0] <= l[0]
  {
    RemoveFirstCounts(l, old_);
    RemoveFirstSorted(l, old_);
    var rest := RemoveFirst(l, old_);
    AddPriorityLaws(rest, new_);
    assert old_ in multiset(l);
    var l' := Exchanged(l, old_, new_);
    if l[0] == old_ {
      assert new_ in multiset(l');
      var k :| 0 <= k < |l'| && l'[k] == new_;
    } else {
      assert l[0] in multiset(l);
      assert l[0] in multiset(rest);
      assert l[0] in multiset(l');
      var k :| 0 <= k < |l'| && l'[k] == l[0];
    }
  }

  lemma Cancel(x: multiset<int>, y: multiset<int>, a: int)
    requires x + multiset{a} == y + multiset{a}
    ensures x == y
  {
    forall b: int ensures x[b] == y[b] {
      assert (x + multiset{a})[b] == (y + multiset{a})[b];
    }
  }

  /** Changing only the priority of a process disturbs no waiter list except the one it is in. */
  lemma OtherMutexesKeep(s: State, i: nat, prio: map<nat, int>, prio': map<nat, int>, q: nat)
    requires i < |s.mutexes| && MutexOk(s, i, prio)
    requires prio.Keys == prio'.Keys == s.pcbs.Keys && forall p :: p in prio && p != q ==> prio[p] == prio'[p]
    requires q in s.pcbs && s.pcbs[q].blocking != Some(i)
    ensures MutexOk(s, i, prio')
  {
    var m := s.mutexes[i];
    forall w | w in m.waiters ensures prio[w] == prio'[w] {
      assert s.pcbs[w].blocking == Some(i);
    }
  }

  /** The frame does not see priority lists. */
  lemma FrameAfterPcbs(s: State, s1: State, base: Bases, prio: map<nat, int>)
    requires Frame(s, base, prio)
    requires s1.mutexes == s.mutexes && s1.names == s.names && s1.pcbs.Keys == s.pcbs.Keys
    requires forall p :: p in s.pcbs ==> s1.pcbs[p].blocking == s.pcbs[p].blocking
    ensures Frame(s1, base, prio) && Waits(s1) == Waits(s)
  {
    SameWaits(s, s1);
    forall i | 0 <= i < |s1.mutexes| ensures MutexOk(s1, i, prio) {
      assert MutexOk(s, i, prio);
    }
    forall p | p in s1.pcbs ensures BlockOk(s1, p) {
      assert BlockOk(s, p);
    }
  }

  /** The state in which q's new priority has to be passed on: all is well except that the waiter
      lists are judged by the priorities before q improved. */
  ghost predicate Improved(s: State, base: Bases, q: nat, oldp: int) {
    && q in s.pcbs && s.pcbs[q].priority <= oldp
    && Frame(s, base, Priorities(s)[q := oldp])
    && (forall p {:trigger PcbOk(s, base, p)} :: p in s.pcbs ==> PcbOk(s, base, p))
  }

  lemma ExchangedPcb(s: State, base: Bases, q: nat, old_: int, new_: int)
    requires Pending(s, base, q, old_, new_)
    ensures var l := Exchanged(s.pcbs[q].priorities, old_, new_);
            Sorted(l) && l[0] <= s.pcbs[q].priority && multiset(l) == Entitled(s, base, q)
  {
    var l := Exchanged(s.pcbs[q].priorities, old_, new_);
    ExchangedLaws(s.pcbs[q].priorities, old_, new_);
    Cancel(multiset(l), Entitled(s, base, q), old_);
  }

  function AfterEntry(s: State, q: nat, old_: int, new_: int): State
    requires q in s.pcbs
  {
    SetPriorities(s, q, Exchanged(s.pcbs[q].priorities, old_, new_))
  }

  lemma ExchangeSettlesPcbs(s: State, base: Bases, q: nat, old_: int, new_: int)
    requires Pending(s, base, q, old_, new_)
    ensures var s1 := AfterEntry(s, q, old_, new_);
            && s1.pcbs[q].priority <= s.pcbs[q].priority
            && forall p {:trigger PcbOk(s1, base, p)} :: p in s1.pcbs ==> PcbOk(s1, base, p)
  {
    var s1 := AfterEntry(s, q, old_, new_);
    ExchangedPcb(s, base, q, old_, new_);
    forall p | p in s1.pcbs ensures PcbOk(s1, base, p) {
      if p != q { assert PcbOk(s, base, p); }
    }
  }

  lemma NewListKeepsFrame(s: State, base: Bases, prio: map<nat, int>, q: nat, l: seq<int>)
    requires Frame(s, base, prio) && q in s.pcbs && l != []
    ensures Frame(SetPriorities(s, q, l), base, prio)
  {
    FrameAfterPcbs(s, SetPriorities(s, q, l), base, prio);
  }

  lemma ExchangePriorities(s: State, q: nat, old_: int, new_: int)
    requires q in s.pcbs
    ensures Priorities(s) == Priorities(AfterEntry(s, q, old_, new_))[q := s.pcbs[q].priority]
  {
  }

  /** After its entry was exchanged, q is in order; if its priority changed, the waiter lists are
      still sorted by the old priorities. */
  lemma AfterExchange(s: State, base: Bases, q: nat, old_: int, new_: int)
    requires Pending(s, base, q, old_, new_)
    ensures Improved(AfterEntry(s, q, old_, new_), base, q, s.pcbs[q].priority)
    ensures Waits(AfterEntry(s, q, old_, new_)) == Waits(s)
  {
    ExchangePriorities(s, q, old_, new_);
    ExchangeSettlesPcbs(s, base, q, old_, new_);
    NewListKeepsFrame(s, base, Priorities(s), q, Exchanged(s.pcbs[q].priorities, old_, new_));
    SameWaits(s, AfterEntry(s, q, old_, new_));
  }

  lemma ImprovedIsLinked(s: State, base: Bases, q: nat, oldp: int)
    requires Improved(s, base, q, oldp)
    ensures Linked(s) && Acyclic(Waits(s))
  {
    forall p | p in s.pcbs ensures ListOk(s.pcbs[p]) { assert PcbOk(s, base, p); }
    FrameIsLinked(s, base, Priorities(s)[q := oldp]);
  }

  lemma FrameReprio(s: State, base: Bases, prio: map<nat, int>, prio': map<nat, int>)
    requires Frame(s, base, prio) && prio'.Keys == prio.Keys
    requires forall i :: 0 <= i < |s.mutexes| ==> MutexOk(s, i, prio')
    ensures Frame(s, base, prio')
  {
  }

  lemma UnblockedIsInNoList(s: State, base: Bases, prio: map<nat, int>, prio': map<nat, int>, q: nat)
    requires Frame(s, base, prio) && q in s.pcbs && s.pcbs[q].blocking.None?
    requires prio'.Keys == prio.Keys && forall p :: p in prio && p != q ==> prio[p] == prio'[p]
    ensures Frame(s, base, prio')
  {
    forall i | 0 <= i < |s.mutexes| ensures MutexOk(s, i, prio') {
      OtherMutexesKeep(s, i, prio, prio', q);
    }
    FrameReprio(s, base, prio, prio');
  }

  /** A process that waits for nothing has nobody to pass its priority to. */
  lemma ImprovedUnblocked(s: State, base: Bases, q: nat, oldp: int)
    requires Improved(s, base, q, oldp) && s.pcbs[q].blocking.None?
    ensures Inv(s, base)
  {
    assert Frame(s, base, Priorities(s)) by {
      UnblockedIsInNoList(s, base, Priorities(s)[q := oldp], Priorities(s), q);
    }
  }

  /** Re-inserting an improved waiter: the list is sorted by the present priorities; the waiter comes
      first, not worse than what is lent, or the first waiter and what is lent stay as they were. */
  lemma ReinsertLaws(s: State, base: Bases, q: nat, oldp: int, i: nat)
    requires Improved(s, base, q, oldp) && s.pcbs[q].blocking == Some(i)
    ensures Linked(s) && i < |s.mutexes| && s.mutexes[i].owner.Some? && q in s.mutexes[i].waiters
    ensures var m, ws, prio := s.mutexes[i], Reinserted(s, i, q), Priorities(s);
            && |ws| == |m.waiters| && (forall w :: w in ws <==> w in m.waiters)
            && NoDuplicates(ws) && SortedBy(ws, prio)
            && (if ReinsertedFirst(s, i, q) then ws[0] == q && prio[q] <= m.next
                else prio[ws[0]] == m.next)
  {
    ImprovedIsLinked(s, base, q, oldp);
    assert BlockOk(s, q);
    assert MutexOk(s, i, Priorities(s)[q := oldp]);
    ReinsertList(s.mutexes[i].waiters, q, oldp, Priorities(s));
  }

  lemma ReinsertList(waiters: seq<nat>, q: nat, oldp: int, prio: map<nat, int>)
    requires q in waiters && q in prio && prio[q] <= oldp
    requires (forall w :: w in waiters ==> w in prio) && NoDuplicates(waiters) && SortedBy(waiters, prio[q := oldp])
    ensures var rest := RemoveFirst(waiters, q);
            && (forall w :: w in rest ==> w in prio)
            && var ws, next := AddWaiter(rest, q, prio[q], prio), prio[q := oldp][waiters[0]];
            && |ws| == |waiters| && (forall w :: w in ws <==> w in waiters)
            && NoDuplicates(ws) && SortedBy(ws, prio)
            && (if WaiterIndex(rest, prio[q], prio) == 0 then ws[0] == q && prio[q] <= next
                else prio[ws[0]] == next)
  {
    var rest := RemoveFirst(waiters, q);
    RestKeepsOrder(waiters, q, oldp, prio);
    AddWaiterLaws(rest, q, prio[q], prio);
    FirstReinserted(waiters, q, oldp, prio);
  }

  /** Without the waiter that improved, the old order is the order by present priorities. */
  lemma RestKeepsOrder(waiters: seq<nat>, q: nat, oldp: int, prio: map<nat, int>)
    requires q in waiters && q in prio
    requires (forall w :: w in waiters ==> w in prio) && NoDuplicates(waiters) && SortedBy(waiters, prio[q := oldp])
    ensures var rest := RemoveFirst(waiters, q);
            && (forall w :: w in rest <==> w in waiters && w != q)
            && SortedBy(rest, prio) && NoDuplicates(rest) && |rest| == |waiters| - 1
            && (waiters[0] != q ==> rest != [] && rest[0] == waiters[0])
  {
    RemoveWaiterLaws(waiters, q, prio[q := oldp]);
    var rest := RemoveFirst(waiters, q);
    forall k | 0 <= k < |rest| ensures prio[rest[k]] == prio[q := oldp][rest[k]] {
      assert rest[k] in rest;
    }
  }

  /** Where the re-inserted waiter goes decides whether the first priority may change. */
  lemma FirstReinserted(waiters: seq<nat>, q: nat, oldp: int, prio: map<nat, int>)
    requires q in waiters && q in prio && prio[q] <= oldp
    requires (forall w :: w in waiters ==> w in prio) && NoDuplicates(waiters) && SortedBy(waiters, prio[q := oldp])
    requires var rest := RemoveFirst(waiters, q);
             && (forall w :: w in rest <==> w in waiters && w != q) && SortedBy(rest, prio)
             && (waiters[0] != q ==> rest != [] && rest[0] == waiters[0])
    ensures var rest, next := RemoveFirst(waiters, q), prio[q := oldp][waiters[0]];
            if WaiterIndex(rest, prio[q], prio) == 0 then prio[q] <= next
            else rest != [] && prio[rest[0]] == next
  {
    var rest := RemoveFirst(waiters, q);
    WaiterIndexSpec(rest, prio[q], prio);
    if waiters[0] == q && rest != [] {
      var k :| 0 <= k < |waiters| && waiters[k] == rest[0];
      assert prio[q := oldp][waiters[0]] <= prio[q := oldp][waiters[k]];
    }
  }

  // ---------- re-insertion ----------

  /** A mutex changed in place, its owner kept and no waiter lost. */
  lemma FrameAfterMutex(s: State, i: nat, m: Mutex, base: Bases, prio0: map<nat, int>, prio: map<nat, int>)
    requires Frame(s, base, prio0) && i < |s.mutexes| && prio.Keys == prio0.Keys
    requires m.owner == s.mutexes[i].owner && forall w :: w in s.mutexes[i].waiters ==> w in m.waiters
    requires MutexOk(SetMutex(s, i, m), i, prio)
    requires forall k {:trigger MutexOk(s, k, prio)} :: 0 <= k < |s.mutexes| && k != i ==> MutexOk(s, k, prio)
    ensures Frame(SetMutex(s, i, m), base, prio) && Waits(SetMutex(s, i, m)) == Waits(s)
  {
    var s' := SetMutex(s, i, m);
    SameWaits(s, s');
    forall k | 0 <= k < |s'.mutexes| ensures MutexOk(s', k, prio) {
      if k != i { assert MutexOk(s, k, prio); }
    }
    forall p | p in s'.pcbs ensures BlockOk(s', p) {
      assert BlockOk(s, p);
    }
  }

  lemma ReinsertedOk(s: State, base: Bases, q: nat, oldp: int, i: nat, next: int)
    requires Improved(s, base, q, oldp) && s.pcbs[q].blocking == Some(i)
    requires Linked(s) && i < |s.mutexes| && Reinserted(s, i, q) != []
    requires var w := Reinserted(s, i, q)[0]; w in s.pcbs && next == s.pcbs[w].priority
    ensures MutexOk(SetMutex(s, i, s.mutexes[i].(waiters := Reinserted(s, i, q), next := next)), i, Priorities(s))
    ensures forall w :: w in s.mutexes[i].waiters ==> w in Reinserted(s, i, q)
  {
    ReinsertLaws(s, base, q, oldp, i);
    assert MutexOk(s, i, Priorities(s)[q := oldp]);
  }

  lemma ReinsertedFrame(s: State, base: Bases, q: nat, oldp: int, i: nat, next: int)
    requires Improved(s, base, q, oldp) && s.pcbs[q].blocking == Some(i)
    requires Linked(s) && i < |s.mutexes| && Reinserted(s, i, q) != []
    requires var w := Reinserted(s, i, q)[0]; w in s.pcbs && next == s.pcbs[w].priority
    ensures var s' := SetMutex(s, i, s.mutexes[i].(waiters := Reinserted(s, i, q), next := next));
            Frame(s', base, Priorities(s')) && Waits(s') == Waits(s)
  {
    var prio0, prio := Priorities(s)[q := oldp], Priorities(s);
    var m := s.mutexes[i].(waiters := Reinserted(s, i, q), next := next);
    ReinsertedOk(s, base, q, oldp, i, next);
    forall k | 0 <= k < |s.mutexes| && k != i ensures MutexOk(s, k, prio) {
      OtherMutexesKeep(s, k, prio0, prio, q);
    }
    FrameAfterMutex(s, i, m, base, prio0, prio);
  }

  /** What one mutex lends to its owner changes; nobody else's entitlement does. */
  lemma EntitledAfterMutex(s: State, i: nat, m: Mutex, base: Bases, p: nat)
    requires i < |s.mutexes| && p in base && m.owner == s.mutexes[i].owner
    ensures var s' := SetMutex(s, i, m);
            if m.owner == Some(p) then Entitled(s', base, p) + multiset{s.mutexes[i].next} == Entitled(s, base, p) + multiset{m.next}
            else Entitled(s', base, p) == Entitled(s, base, p)
  {
    HeldUpdate(s.mutexes, i, m, p);
    var s', n := SetMutex(s, i, m), |s.mutexes|;
    var b, h, h' := multiset{base[p]}, Held(s.mutexes, p, n), Held(s'.mutexes, p, n);
    if m.owner == Some(p) {
      assert h' + multiset{s.mutexes[i].next} == h + multiset{m.next};
      assert (b + h') + multiset{s.mutexes[i].next} == b + (h' + multiset{s.mutexes[i].next});
      assert (b + h) + multiset{m.next} == b + (h + multiset{m.next});
    } else {
      assert h' + multiset{} == h' && h + multiset{} == h;
    }
  }

  lemma PcbsAfterMutex(s: State, i: nat, m: Mutex, base: Bases)
    requires i < |s.mutexes| && base.Keys == s.pcbs.Keys && m.owner == s.mutexes[i].owner
    requires forall p {:trigger PcbOk(s, base, p)} :: p in s.pcbs ==> PcbOk(s, base, p)
    ensures forall p {:trigger PcbOk(SetMutex(s, i, m), base, p)} ::
              p in s.pcbs && (m.owner != Some(p) || m.next == s.mutexes[i].next) ==> PcbOk(SetMutex(s, i, m), base, p)
  {
    forall p | p in s.pcbs && (m.owner != Some(p) || m.next == s.mutexes[i].next)
      ensures PcbOk(SetMutex(s, i, m), base, p)
    {
      assert PcbOk(s, base, p);
      EntitledAfterMutex(s, i, m, base, p);
      if m.owner == Some(p) { Cancel(Entitled(SetMutex(s, i, m), base, p), Entitled(s, base, p), m.next); }
    }
  }

  /** The waiter's new place does not change what is lent. */
  lemma ReinsertSettles(s: State, base: Bases, q: nat, oldp: int, i: nat)
    requires Improved(s, base, q, oldp) && s.pcbs[q].blocking == Some(i)
    requires Linked(s) && i < |s.mutexes|
    requires ReinsertedFirst(s, i, q) ==> s.pcbs[q].priority == s.mutexes[i].next
    ensures Inv(SetMutex(s, i, s.mutexes[i].(waiters := Reinserted(s, i, q))), base)
  {
    ReinsertLaws(s, base, q, oldp, i);
    var m := s.mutexes[i].(waiters := Reinserted(s, i, q));
    assert m.waiters[0] in m.waiters;
    assert m == s.mutexes[i].(waiters := Reinserted(s, i, q), next := m.next);
    PcbsAfterMutex(s, i, m, base);
    ReinsertedFrame(s, base, q, oldp, i, m.next);
  }

  /** A waiter that comes to the front lends its better priority: the owner's list is then the
      one thing left to repair. */
  lemma ReinsertPending(s: State, base: Bases, q: nat, oldp: int, i: nat)
    requires Improved(s, base, q, oldp) && s.pcbs[q].blocking == Some(i)
    requires Linked(s) && i < |s.mutexes| && s.mutexes[i].owner.Some?
    requires ReinsertedFirst(s, i, q)
    ensures var m, x := s.mutexes[i], s.pcbs[q].priority;
            var s' := SetMutex(s, i, m.(waiters := Reinserted(s, i, q), next := x));
            Pending(s', base, m.owner.value, m.next, x) && Waits(s') == Waits(s)
  {
    ReinsertLaws(s, base, q, oldp, i);
    var m0, x := s.mutexes[i], s.pcbs[q].priority;
    var o := m0.owner.value;
    var m := m0.(waiters := Reinserted(s, i, q), next := x);
    ReinsertedFrame(s, base, q, oldp, i, x);
    PcbsAfterMutex(s, i, m, base);
    assert PcbOk(s, base, o);
    EntitledAfterMutex(s, i, m, base, o);
    HeldHas(s.mutexes, i, o, |s.mutexes|);
    assert m0.next in multiset(s.pcbs[o].priorities);
  }

  lemma PendingIsLinked(s: State, base: Bases, q: nat, old_: int, new_: int)
    requires Pending(s, base, q, old_, new_)
    ensures Linked(s) && Acyclic(Waits(s))
  {
    forall p | p in s.pcbs ensures ListOk(s.pcbs[p]) { if p != q { assert PcbOk(s, base, p); } }
    FrameIsLinked(s, base, Priorities(s));
  }

  lemma AfterEntryLinked(s: State, q: nat, old_: int, new_: int)
    requires Linked(s) && q in s.pcbs
    ensures Linked(AfterEntry(s, q, old_, new_)) && Waits(AfterEntry(s, q, old_, new_)) == Waits(s)
  {
    SameWaits(s, AfterEntry(s, q, old_, new_));
  }

  lemma ReplaceUnfold(s: State, q: nat, old_: int, new_: int)
    requires Linked(s) && Acyclic(Waits(s)) && q in s.pcbs
    ensures var s1 := AfterEntry(s, q, old_, new_);
            && Linked(s1) && Waits(s1) == Waits(s)
            && ReplacePriority(s, q, old_, new_)
               == if s1.pcbs[q].priority != s.pcbs[q].priority then PropagatePriority(s1, q, s1.pcbs[q].priority) else s1
  {
    AfterEntryLinked(s, q, old_, new_);
  }

  lemma Unchanged(s: State, base: Bases, q: nat)
    requires q in s.pcbs && Improved(s, base, q, s.pcbs[q].priority)
    ensures Inv(s, base)
  {
    assert Priorities(s)[q := s.pcbs[q].priority] == Priorities(s);
  }

  lemma ReinsertedLinked(s: State, q: nat, i: nat, m: Mutex)
    requires Linked(s) && q in s.pcbs && i < |s.mutexes|
    requires m.waiters == Reinserted(s, i, q) && m.owner == s.mutexes[i].owner
    ensures Linked(SetMutex(s, i, m)) && Waits(SetMutex(s, i, m)) == Waits(s)
  {
    SameWaits(s, SetMutex(s, i, m));
    var ws := s.mutexes[i].waiters;
    RemovedMembers(ws, q);
    AddedMembers(RemoveFirst(ws, q), q, s.pcbs[q].priority, Priorities(s));
  }

  /** One level of the inheritance, for a waiter found in its mutex's list. */
  lemma PropagateUnfold(s: State, q: nat, i: nat, x: int)
    requires Linked(s) && Acyclic(Waits(s)) && q in s.pcbs && s.pcbs[q].blocking == Some(i)
    requires i < |s.mutexes| && s.mutexes[i].active && q in s.mutexes[i].waiters && s.mutexes[i].owner.Some?
    ensures var m := s.mutexes[i];
            var m1 := m.(waiters := Reinserted(s, i, q));
            var s1 := SetMutex(s, i, m1.(next := x));
            if ReinsertedFirst(s, i, q) && x != m.next
            then Linked(s1) && Waits(s1) == Waits(s) && m.owner.value in s1.pcbs
                 && PropagatePriority(s, q, x) == ReplacePriority(s1, m.owner.value, m.next, x)
            else PropagatePriority(s, q, x) == SetMutex(s, i, m1)
  {
    if ReinsertedFirst(s, i, q) && x != s.mutexes[i].next {
      ReinsertedLinked(s, q, i, s.mutexes[i].(waiters := Reinserted(s, i, q), next := x));
    }
  }

  lemma WaitsStep(s: State, q: nat, i: nat)
    requires Linked(s) && Acyclic(Waits(s)) && q in s.pcbs && s.pcbs[q].blocking == Some(i)
    ensures i < |s.mutexes| && s.mutexes[i].owner.Some?
    ensures q in Waits(s) && Waits(s)[q] == s.mutexes[i].owner.value
    ensures Depth(Waits(s), s.mutexes[i].owner.value) < Depth(Waits(s), q)
  {
    assert Waits(s)[q] == s.mutexes[i].owner.value;
  }

  /** The inheritance repairs the one stale entry and everything that follows from it. */
  lemma {:induction false} ReplaceKeeps(s: State, base: Bases, q: nat, old_: int, new_: int)
    requires Pending(s, base, q, old_, new_)
    ensures Linked(s) && Acyclic(Waits(s)) && Inv(ReplacePriority(s, q, old_, new_), base)
    decreases Depth(Waits(s), q), 1
  {
    PendingIsLinked(s, base, q, old_, new_);
    AfterExchange(s, base, q, old_, new_);
    var s1 := AfterEntry(s, q, old_, new_);
    ImprovedIsLinked(s1, base, q, s.pcbs[q].priority);
    ReplaceUnfold(s, q, old_, new_);
    if s1.pcbs[q].priority != s.pcbs[q].priority {
      PropagateKeeps(s1, base, q, s.pcbs[q].priority);
    } else {
      Unchanged(s1, base, q);
    }
  }

  lemma {:induction false} PropagateKeeps(s: State, base: Bases, q: nat, oldp: int)
    requires Improved(s, base, q, oldp)
    ensures Linked(s) && Acyclic(Waits(s)) && Inv(PropagatePriority(s, q, s.pcbs[q].priority), base)
    decreases Depth(Waits(s), q), 0
  {
    ImprovedIsLinked(s, base, q, oldp);
    match s.pcbs[q].blocking {
      case None => ImprovedUnblocked(s, base, q, oldp);
      case Some(i) =>
        ReinsertLaws(s, base, q, oldp, i);
        assert s.mutexes[i].active by { assert MutexOk(s, i, Priorities(s)[q := oldp]); }
        PropagateUnfold(s, q, i, s.pcbs[q].priority);
        WaitsStep(s, q, i);
        var m, x := s.mutexes[i], s.pcbs[q].priority;
        if ReinsertedFirst(s, i, q) && x != m.next {
          ReinsertPending(s, base, q, oldp, i);
          ReplaceKeeps(SetMutex(s, i, m.(waiters := Reinserted(s, i, q), next := x)), base, m.owner.value, m.next, x);
        } else {
          ReinsertSettles(s, base, q, oldp, i);
        }
    }
  }
}
