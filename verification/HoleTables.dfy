/** Hole tables are canonical: the free addresses alone determine which holes there are,
    so the order in which memory was given back leaves no trace in the table. */
module HoleTables {
  import opened Extents
  import opened MemoryTables
  import opened AllocatorLaws

  ghost predicate Canonical(hs: seq<Extent>) {
    Disjoint(hs) && AllPositive(hs) && Apart(hs)
  }

  ghost predicate SameAddresses(x: seq<Extent>, y: seq<Extent>) {
    forall a :: Cover(x, a) == Cover(y, a)
  }

  /** A hole of one table and a hole of the other that share the first one's base start together. */
  lemma SameBase(x: seq<Extent>, y: seq<Extent>, h: Extent, g: Extent)
    requires Canonical(x) && Canonical(y) && SameAddresses(x, y)
    requires h in x && g in y && g.Holds(h.base)
    ensures g.base == h.base
  {
    if g.base < h.base {
      var i :| 0 <= i < |y| && y[i] == g;
      CoverMember(y, i, h.base - 1);
      assert Cover(x, h.base - 1) == Cover(y, h.base - 1);
      var k := CoverWitness(x, h.base - 1);
      var h' := x[k];
      assert h'.End() != h.base;
      SharedAddress(x, h', h, h.base);
    }
  }

  /** Two holes that start together: the second table's one is not the shorter. */
  lemma NotShorter(x: seq<Extent>, y: seq<Extent>, h: Extent, g: Extent)
    requires Canonical(x) && Canonical(y) && SameAddresses(x, y)
    requires h in x && g in y && g.base == h.base
    ensures g.End() >= h.End()
  {
    if g.End() < h.End() {
      var i :| 0 <= i < |x| && x[i] == h;
      CoverMember(x, i, g.End());
      assert Cover(x, g.End()) == Cover(y, g.End());
      var k := CoverWitness(y, g.End());
      var g' := y[k];
      assert g.End() != g'.base;
      SharedAddress(y, g', g, g.End() - 1);
    }
  }

  lemma HoleIsInBoth(x: seq<Extent>, y: seq<Extent>, h: Extent)
    requires Canonical(x) && Canonical(y) && SameAddresses(x, y) && h in x
    ensures h in y
  {
    var i :| 0 <= i < |x| && x[i] == h;
    CoverMember(x, i, h.base);
    assert Cover(x, h.base) == Cover(y, h.base);
    var j := CoverWitness(y, h.base);
    SameBase(x, y, h, y[j]);
    NotShorter(x, y, h, y[j]);
    NotShorter(y, x, y[j], h);
  }

  lemma ListedOnce(es: seq<Extent>, e: Extent)
    requires Disjoint(es) && AllPositive(es)
    ensures multiset(es)[e] == if e in es then 1 else 0
  {
    if e in es {
      var i :| 0 <= i < |es| && es[i] == e;
      DropKeepsForm(es, i);
      DropTakesOne(es, i);
    }
  }

  /** Two coalesced tables with the same free addresses hold the same holes, each once. */
  lemma HoleTablesAreCanonical(x: seq<Extent>, y: seq<Extent>)
    requires Canonical(x) && Canonical(y) && SameAddresses(x, y)
    ensures multiset(x) == multiset(y)
  {
    forall h ensures multiset(x)[h] == multiset(y)[h] {
      ListedOnce(x, h);
      ListedOnce(y, h);
      if h in x { HoleIsInBoth(x, y, h); }
      if h in y { HoleIsInBoth(y, x, h); }
    }
  }

  /** In valid memories of the same size, equal segment lists force equal hole sets. */
  lemma SegmentsDetermineHoles(m: Memory, n: Memory)
    requires Valid(m) && Valid(n) && m.totalSize == n.totalSize && m.segments == n.segments
    ensures multiset(m.holes) == multiset(n.holes)
  {
    HolesDisjoint(m);
    HolesDisjoint(n);
    forall a ensures Cover(m.holes, a) == Cover(n.holes, a) {
      assert Cover(m.holes, a) + Cover(Places(m.segments), a) == Cover(n.holes, a) + Cover(Places(n.segments), a);
    }
    HoleTablesAreCanonical(m.holes, n.holes);
  }

  // ---------- MEM_ALLOC undone by MEM_FREE ----------

  /** An allocation that needed no compaction is undone by freeing its id, same segments and same
      holes, if and only if the process had no segment with that id. */
  lemma FreeUndoesAllocIff(m: Memory, id: nat, pid: nat, size: int)
    requires Valid(m) && !m.strategy.Unsupported?
    requires 0 < size <= m.maxSegmentSize && exists h :: h in m.holes && h.size >= size
    ensures var r := CreateSegment(m, id, pid, size);
            var back := RemoveSegment(r.memory, id, pid);
            && r.outcome == Allocated && back.totalSize == m.totalSize
            && (back.segments == m.segments && multiset(back.holes) == multiset(m.holes)
                <==> forall s :: s in m.segments ==> (s.id, s.pid) != (id, pid))
  {
    var h :| h in m.holes && h.size >= size;
    HoleFitsTotal(m.holes, h);
    EnoughSpaceSuffices(m, id, pid, size);
    var r := CreateSegment(m, id, pid, size);
    var n := |m.segments|;
    assert r.memory.segments == m.segments + [r.memory.segments[n]];
    if forall s :: s in m.segments ==> (s.id, s.pid) != (id, pid) {
      FreeUndoesAlloc(m, r.memory, id, pid);
    } else {
      OlderSegmentGoes(m, r.memory, id, pid);
    }
  }

  lemma FreeUndoesAlloc(m: Memory, r: Memory, id: nat, pid: nat)
    requires Valid(m) && Valid(r) && r.totalSize == m.totalSize
    requires |r.segments| == |m.segments| + 1 && r.segments[..|m.segments|] == m.segments
    requires KeyOf(r.segments[|m.segments|]) == (id, pid)
    requires forall s :: s in m.segments ==> (s.id, s.pid) != (id, pid)
    ensures RemoveSegment(r, id, pid).segments == m.segments
    ensures multiset(RemoveSegment(r, id, pid).holes) == multiset(m.holes)
  {
    FindIndexSpec(r.segments, id, pid);
    forall j | 0 <= j < |m.segments| ensures KeyOf(r.segments[j]) != (id, pid) {
      assert r.segments[j] == m.segments[j] && m.segments[j] in m.segments;
    }
    RemoveSegmentKeepsValid(r, id, pid);
    SegmentsDetermineHoles(m, RemoveSegment(r, id, pid));
  }

  /** Freeing an id that was in use takes the older segment, and the newer one stays. */
  lemma OlderSegmentGoes(m: Memory, r: Memory, id: nat, pid: nat)
    requires Valid(m) && Valid(r)
    requires |r.segments| == |m.segments| + 1 && r.segments[..|m.segments|] == m.segments
    requires exists s :: s in m.segments && (s.id, s.pid) == (id, pid)
    ensures RemoveSegment(r, id, pid).segments != m.segments
  {
    var n := |m.segments|;
    var i := FindIndex(r.segments, id, pid);
    OlderSegmentFound(m.segments, r.segments, id, pid);
    assert RemoveSegment(r, id, pid).segments[n - 1] == r.segments[n];
    assert r.segments[n - 1] == m.segments[n - 1];
    LastSegmentIsNew(r, n);
  }

  /** A search through a longer list stops in the part it already had. */
  lemma OlderSegmentFound(segments: seq<Segment>, longer: seq<Segment>, id: nat, pid: nat)
    requires |longer| == |segments| + 1 && longer[..|segments|] == segments
    requires exists s :: s in segments && (s.id, s.pid) == (id, pid)
    ensures 0 <= FindIndex(longer, id, pid) < |segments|
  {
    FindIndexSpec(longer, id, pid);
    var k :| 0 <= k < |segments| && (segments[k].id, segments[k].pid) == (id, pid);
    assert longer[k] == segments[k];
  }

  /** Neighbours in the list are different segments. */
  lemma LastSegmentIsNew(m: Memory, n: nat)
    requires Valid(m) && 0 < n < |m.segments|
    ensures m.segments[n - 1] != m.segments[n]
  {
    SegmentsDisjoint(m, n - 1, n);
    SegmentInBounds(m, n);
  }

  /** A free request takes out the first segment with this id of this process and nothing else, or, if
      there is none, changes nothing. */
  lemma FreesFirst(m: Memory, id: nat, pid: nat) returns (i: nat)
    ensures var m' := RemoveSegment(m, id, pid);
            if exists s :: s in m.segments && (s.id, s.pid) == (id, pid)
            then
              && i < |m.segments| && (m.segments[i].id, m.segments[i].pid) == (id, pid)
              && (forall j :: 0 <= j < i ==> (m.segments[j].id, m.segments[j].pid) != (id, pid))
              && m' == m.(segments := m.segments[..i] + m.segments[i + 1..], holes := m'.holes)
              && forall a :: Disjoint(m.holes) && AllPositive(m.holes) && m.segments[i].size > 0 ==>
                   Cover(m'.holes, a) == Cover(m.holes, a) + At(Place(m.segments[i]), a)
            else m' == m
  {
    FindIndexSpec(m.segments, id, pid);
    i := if FindIndex(m.segments, id, pid) < 0 then 0 else FindIndex(m.segments, id, pid);
    if Disjoint(m.holes) && AllPositive(m.holes) && i < |m.segments| && m.segments[i].size > 0 {
      forall a ensures Cover(Coalesce(m.holes, Place(m.segments[i])), a) == Cover(m.holes, a) + At(Place(m.segments[i]), a) {
        CoalesceCover(m.holes, Place(m.segments[i]), a);
      }
    }
  }

  // ---------- freeing in any order ----------

  type Key = (nat, nat)

  function KeyOf(s: Segment): Key {
    (s.id, s.pid)
  }

  function RemoveKeys(m: Memory, keys: seq<Key>): Memory
    decreases |keys|
  {
    if keys == [] then m else RemoveKeys(RemoveSegment(m, keys[0].0, keys[0].1), keys[1..])
  }

  /** The segments that survive when, for each key, as many of its first occurrences go as ks says. */
  ghost function Survivors(segs: seq<Segment>, ks: multiset<Key>): seq<Segment> {
    if segs == [] then []
    else if KeyOf(segs[0]) in ks then Survivors(segs[1..], ks - multiset{KeyOf(segs[0])})
    else [segs[0]] + Survivors(segs[1..], ks)
  }

  lemma TakeOther(ks: multiset<Key>, k: Key, s: Key)
    requires s != k
    ensures s in ks + multiset{k} <==> s in ks
    ensures (ks + multiset{k}) - multiset{s} == (ks - multiset{s}) + multiset{k}
  {
  }

  lemma TakeSame(ks: multiset<Key>, k: Key)
    ensures (ks + multiset{k}) - multiset{k} == ks
  {
  }

  lemma DropLater(segs: seq<Segment>, i: int)
    requires segs != [] && -1 <= i < |segs| - 1
    ensures Drop(segs, if i == -1 then -1 else i + 1) == [segs[0]] + Drop(segs[1..], i)
  {
  }

  lemma SurvivorsHead(head: Segment, rest: seq<Segment>, ks: multiset<Key>)
    ensures Survivors([head] + rest, ks)
         == if KeyOf(head) in ks then Survivors(rest, ks - multiset{KeyOf(head)}) else [head] + Survivors(rest, ks)
  {
    assert ([head] + rest)[1..] == rest;
  }

  lemma {:induction false} SurvivorsStep(segs: seq<Segment>, k: Key, ks: multiset<Key>)
    ensures Survivors(Drop(segs, FindIndex(segs, k.0, k.1)), ks) == Survivors(segs, ks + multiset{k})
  {
    if segs != [] {
      var s, rest := KeyOf(segs[0]), segs[1..];
      assert segs == [segs[0]] + rest;
      SurvivorsHead(segs[0], rest, ks + multiset{k});
      if s == k {
        assert Drop(segs, 0) == rest;
        TakeSame(ks, k);
      } else {
        var i := FindIndex(rest, k.0, k.1);
        DropLater(segs, i);
        TakeOther(ks, k, s);
        SurvivorsHead(segs[0], Drop(rest, i), ks);
        SurvivorsStep(rest, k, if s in ks then ks - multiset{s} else ks);
      }
    }
  }

  lemma {:induction false} SurvivorsOfNothing(segs: seq<Segment>)
    ensures Survivors(segs, multiset{}) == segs
  {
    if segs != [] {
      SurvivorsOfNothing(segs[1..]);
    }
  }

  lemma {:induction false} RemoveKeysSurvivors(m: Memory, keys: seq<Key>)
    requires Valid(m)
    ensures Valid(RemoveKeys(m, keys)) && RemoveKeys(m, keys).totalSize == m.totalSize
    ensures RemoveKeys(m, keys).segments == Survivors(m.segments, multiset(keys))
    decreases |keys|
  {
    if keys == [] {
      SurvivorsOfNothing(m.segments);
    } else {
      var k := keys[0];
      var m1 := RemoveSegment(m, k.0, k.1);
      RemoveSegmentKeepsValid(m, k.0, k.1);
      FindIndexSpec(m.segments, k.0, k.1);
      RemoveKeysSurvivors(m1, keys[1..]);
      SurvivorsStep(m.segments, k, multiset(keys[1..]));
      assert keys == [k] + keys[1..];
      assert multiset(keys) == multiset(keys[1..]) + multiset{k};
    }
  }

  /** Freeing the same segments in two different orders ends in the same segment list and
      the same set of holes, however the intermediate merges went. */
  lemma FreeOrderIsIrrelevant(m: Memory, keys: seq<Key>, keys': seq<Key>)
    requires Valid(m) && multiset(keys) == multiset(keys')
    ensures RemoveKeys(m, keys).segments == RemoveKeys(m, keys').segments
    ensures multiset(RemoveKeys(m, keys).holes) == multiset(RemoveKeys(m, keys').holes)
  {
    RemoveKeysSurvivors(m, keys);
    RemoveKeysSurvivors(m, keys');
    SegmentsDetermineHoles(RemoveKeys(m, keys), RemoveKeys(m, keys'));
  }

  // ---------- ending a process ----------

  /** The segments that belong to anybody else, in list order. */
  function OfOthers(segs: seq<Segment>, pid: nat): seq<Segment> {
    if segs == [] then []
    else if segs[0].pid != pid then [segs[0]] + OfOthers(segs[1..], pid)
    else OfOthers(segs[1..], pid)
  }

  /** Removing by id what is the process's first segment removes exactly that one. */
  lemma {:induction false} RemoveFirstOfProcess(segs: seq<Segment>, pid: nat)
    requires OfProcess(segs, pid) != []
    ensures var mine := OfProcess(segs, pid);
            var i := FindIndex(segs, mine[0].id, pid);
            && 0 <= i < |segs| && segs[i] == mine[0]
            && OfProcess(Drop(segs, i), pid) == mine[1..]
            && OfOthers(Drop(segs, i), pid) == OfOthers(segs, pid)
  {
    if segs[0].pid == pid {
      assert Drop(segs, 0) == segs[1..];
    } else {
      RemoveFirstOfProcess(segs[1..], pid);
      var i := FindIndex(segs[1..], OfProcess(segs, pid)[0].id, pid);
      assert Drop(segs, i + 1) == [segs[0]] + Drop(segs[1..], i);
    }
  }

  lemma {:induction false} RemoveAllOfProcess(m: Memory, pid: nat)
    requires Valid(m)
    ensures var e := RemoveEach(m, OfProcess(m.segments, pid), pid);
            && Valid(e) && e.totalSize == m.totalSize
            && OfProcess(e.segments, pid) == [] && OfOthers(e.segments, pid) == OfOthers(m.segments, pid)
    decreases |OfProcess(m.segments, pid)|
  {
    var mine := OfProcess(m.segments, pid);
    if mine != [] {
      RemoveFirstOfProcess(m.segments, pid);
      RemoveSegmentKeepsValid(m, mine[0].id, pid);
      RemoveAllOfProcess(RemoveSegment(m, mine[0].id, pid), pid);
    }
  }

  lemma {:induction false} OnlyOthersLeft(segs: seq<Segment>, pid: nat)
    requires OfProcess(segs, pid) == []
    ensures OfOthers(segs, pid) == segs
  {
    if segs != [] {
      OnlyOthersLeft(segs[1..], pid);
    }
  }

  /** Ending a process leaves exactly the other processes' segments, untouched and in order,
      and keeps the tables valid. */
  lemma EndProcessLeavesOthers(m: Memory, pid: nat)
    requires Valid(m)
    ensures Valid(EndProcess(m, pid))
    ensures EndProcess(m, pid).segments == OfOthers(m.segments, pid)
  {
    RemoveAllOfProcess(m, pid);
    OnlyOthersLeft(EndProcess(m, pid).segments, pid);
  }
}
