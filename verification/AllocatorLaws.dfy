/** What every allocator operation keeps: the tables tile memory and no two holes touch. */
module AllocatorLaws {
  import opened Extents
  import opened MemoryTables

  // ---------- reading the invariant ----------

  lemma HolesDisjoint(m: Memory)
    requires Valid(m)
    ensures Disjoint(m.holes)
  {
    forall a ensures Cover(m.holes, a) <= 1 {
      assert Cover(m.holes, a) + Cover(Places(m.segments), a) <= 1;
    }
  }

  lemma HoleInBounds(m: Memory, h: Extent)
    requires Valid(m) && h in m.holes
    ensures 0 <= h.base && h.End() <= m.totalSize
  {
    var i :| 0 <= i < |m.holes| && m.holes[i] == h;
    CoverMember(m.holes, i, h.base);
    CoverMember(m.holes, i, h.End() - 1);
    assert Cover(m.holes, h.base) + Cover(Places(m.segments), h.base) >= 1;
    assert Cover(m.holes, h.End() - 1) + Cover(Places(m.segments), h.End() - 1) >= 1;
  }

  lemma TilingBounds(m: Memory, i: nat)
    requires Tiles(m) && i < |m.segments| && m.segments[i].size > 0
    ensures 0 <= m.segments[i].base && m.segments[i].base + m.segments[i].size <= m.totalSize
  {
    var ps := Places(m.segments);
    var e := ps[i];
    CoverMember(ps, i, e.base);
    CoverMember(ps, i, e.End() - 1);
    assert Cover(m.holes, e.base) + Cover(ps, e.base) >= 1;
    assert Cover(m.holes, e.End() - 1) + Cover(ps, e.End() - 1) >= 1;
  }
  lemma SegmentInBounds(m: Memory, i: nat)
    requires Valid(m) && i < |m.segments|
    ensures m.segments[i].size > 0
    ensures 0 <= m.segments[i].base && m.segments[i].base + m.segments[i].size <= m.totalSize
  {
    assert Places(m.segments)[i] in Places(m.segments);
    TilingBounds(m, i);
  }

  lemma {:induction false} OfProcessMembers(segs: seq<Segment>, pid: nat)
    ensures forall s :: s in OfProcess(segs, pid) ==> s.pid == pid && s in segs
  {
    if segs != [] {
      OfProcessMembers(segs[1..], pid);
    }
  }

  /** Two different segments share no byte. */
  lemma SegmentsDisjoint(m: Memory, i: nat, j: nat)
    requires Valid(m) && i < |m.segments| && j < |m.segments| && i != j
    ensures Place(m.segments[i]).End() <= m.segments[j].base || Place(m.segments[j]).End() <= m.segments[i].base
  {
    var ps := Places(m.segments);
    assert ps[i] in ps && ps[j] in ps;
    if ps[i].base < ps[j].End() && ps[j].base < ps[i].End() {
      var a := if ps[i].base < ps[j].base then ps[j].base else ps[i].base;
      assert Cover(m.holes, a) + Cover(ps, a) <= 1;
      CoverTwice(ps, if i < j then i else j, if i < j then j else i, a);
    }
  }

  lemma {:induction false} CoverBelowSum(x: seq<Extent>, y: seq<Extent>, n: nat)
    requires forall a :: 0 <= a < n ==> Cover(x, a) + Cover(y, a) == 1
    ensures CoverBelow(x, n) + CoverBelow(y, n) == n
  {
    if n > 0 {
      assert Cover(x, n - 1) + Cover(y, n - 1) == 1;
      CoverBelowSum(x, y, n - 1);
    }
  }

  /** Conservation: free bytes plus segment bytes are all the bytes there are. */
  lemma SpaceIsConserved(m: Memory)
    requires Valid(m)
    ensures FreeSpace(m) + Total(Places(m.segments)) == m.totalSize
  {
    forall i | 0 <= i < |m.holes|
      ensures 0 <= m.holes[i].base && 0 <= m.holes[i].size && m.holes[i].End() <= m.totalSize
    {
      HoleInBounds(m, m.holes[i]);
    }
    forall i | 0 <= i < |m.segments|
      ensures 0 <= Places(m.segments)[i].base && 0 <= Places(m.segments)[i].size
      ensures Places(m.segments)[i].End() <= m.totalSize
    {
      SegmentInBounds(m, i);
    }
    TotalCountsAddresses(m.holes, m.totalSize);
    TotalCountsAddresses(Places(m.segments), m.totalSize);
    CoverBelowSum(m.holes, Places(m.segments), m.totalSize);
  }

  // ---------- hole selection ----------

  /** The hole at index i fits; no other is a better fit, and none before it is as good. */
  ghost predicate IsFirstBest(holes: seq<Extent>, size: int, strategy: Strategy, i: nat) {
    && i < |holes| && holes[i].size >= size
    && (forall j :: 0 <= j < |holes| && holes[j].size >= size ==>
          if strategy.BestFit? then holes[i].size <= holes[j].size else holes[i].size >= holes[j].size)
    && (forall j :: 0 <= j < i ==> holes[j].size != holes[i].size)
  }

  /** One round of the selection loop moves the choice from i to the new last hole or keeps it. */
  lemma BetterKeepsFirstBest(front: seq<Extent>, h: Extent, size: int, strategy: Strategy, i: nat)
    requires !strategy.Unsupported? && 0 <= size && AllPositive(front)
    requires IsFirstBest(front, size, strategy, i)
    ensures var n := if Better(front[i], h, size, strategy) == front[i] then i else |front|;
            IsFirstBest(front + [h], size, strategy, n) && (front + [h])[n] == Better(front[i], h, size, strategy)
  {
    var holes := front + [h];
    assert front[i] in front;
    forall j | 0 <= j < |front| ensures holes[j] == front[j] {}
  }

  lemma FirstFitIsBest(front: seq<Extent>, h: Extent, size: int, strategy: Strategy)
    requires h.size >= size && forall g :: g in front ==> g.size < size
    ensures IsFirstBest(front + [h], size, strategy, |front|)
  {
    forall j | 0 <= j < |front| ensures (front + [h])[j].size < size {
      assert front[j] in front;
    }
  }

  /** BEST takes the smallest hole that fits, WORST the largest, the earliest among equals;
      none is chosen exactly when none fits. */
  lemma {:induction false} ChooseHoleSpec(holes: seq<Extent>, size: int, strategy: Strategy)
    requires !strategy.Unsupported? && 0 <= size && AllPositive(holes)
    ensures var c := ChooseHole(holes, size, strategy);
            || (c == NO_HOLE && forall h :: h in holes ==> h.size < size)
            || (exists i: nat :: IsFirstBest(holes, size, strategy, i) && holes[i] == c)
  {
    if holes != [] {
      var n := |holes| - 1;
      var front, h := holes[..n], holes[n];
      assert holes == front + [h];
      ChooseHoleSpec(front, size, strategy);
      var c0 := ChooseHole(front, size, strategy);
      if c0 == NO_HOLE && forall g :: g in front ==> g.size < size {
        if h.size >= size { FirstFitIsBest(front, h, size, strategy); }
      } else {
        var i: nat :| IsFirstBest(front, size, strategy, i) && front[i] == c0;
        BetterKeepsFirstBest(front, h, size, strategy, i);
      }
    }
  }

  lemma ChosenFits(m: Memory, size: int)
    requires Valid(m) && 0 <= size
    ensures SelectedHole(m, size).size != -1 ==> SelectedHole(m, size) in m.holes && SelectedHole(m, size).size >= size
    ensures SelectedHole(m, size).size == -1 ==> SelectedHole(m, size) == NO_HOLE
    ensures !m.strategy.Unsupported? ==>
              (SelectedHole(m, size).size == -1 <==> forall h :: h in m.holes ==> h.size < size)
  {
    if !m.strategy.Unsupported? {
      ChooseHoleSpec(m.holes, size, m.strategy);
    }
  }

  // ---------- carving ----------

  lemma {:induction false} CarveCover(holes: seq<Extent>, h: Extent, size: int, a: int)
    requires h in holes && 0 <= size <= h.size
    requires forall g :: g in holes && g.base == h.base ==> g == h
    ensures Cover(Carve(holes, h.base, size), a) + At(Extent(h.base, size), a) == Cover(holes, a)
  {
    if holes[0].base == h.base {
      assert holes[0] in holes;
      assert holes[0] == h;
      var rest := Extent(h.base + size, h.size - size);
      CoverConcat([rest], holes[1..], a);
      assert At(h, a) == At(Extent(h.base, size), a) + At(rest, a);
    } else {
      assert h in holes[1..];
      CarveCover(holes[1..], h, size, a);
      CoverConcat([holes[0]], Carve(holes[1..], h.base, size), a);
    }
  }

  /** Only the first hole with the base is carved. */
  lemma {:induction false} CarvedAt(holes: seq<Extent>, i: nat, base: int, size: int)
    requires i <= |holes| && (forall k :: 0 <= k < i ==> holes[k].base != base)
    requires i < |holes| ==> holes[i].base == base
    ensures Carve(holes, base, size)
         == if i == |holes| then holes
            else if holes[i].size == size then holes[..i] + holes[i + 1..]
            else holes[i := Extent(base + size, holes[i].size - size)]
  {
    if i > 0 {
      CarvedAt(holes[1..], i - 1, base, size);
    }
  }

  ghost predicate BasesDiffer(holes: seq<Extent>) {
    forall i, j :: 0 <= i < j < |holes| ==> holes[i].base != holes[j].base
  }

  lemma OnlyOneBase(holes: seq<Extent>, i: nat, h: Extent)
    requires BasesDiffer(holes) && i < |holes| && h in holes && holes[i].base == h.base
    ensures h == holes[i]
    ensures forall j :: i < j < |holes| ==> holes[j].base != h.base
  {
    var k :| 0 <= k < |holes| && holes[k] == h;
  }

  lemma {:induction false} CarveElements(holes: seq<Extent>, h: Extent, size: int, e: Extent)
    requires BasesDiffer(holes)
    requires h in holes && e in Carve(holes, h.base, size)
    ensures (e in holes && e.base != h.base) || (e == Extent(h.base + size, h.size - size) && h.size != size)
  {
    if holes[0].base == h.base {
      OnlyOneBase(holes, 0, h);
      if e in holes[1..] {
        var j :| 0 <= j < |holes[1..]| && holes[1..][j] == e;
        assert holes[j + 1] == e;
      }
    } else if e != holes[0] {
      CarveElements(holes[1..], h, size, e);
    }
  }

  lemma DistinctBases(holes: seq<Extent>)
    requires Disjoint(holes) && AllPositive(holes)
    ensures BasesDiffer(holes)
  {
    forall i, j | 0 <= i < j < |holes| ensures holes[i].base != holes[j].base {
      assert holes[i] in holes && holes[j] in holes;
      if holes[i].base == holes[j].base {
        CoverTwice(holes, i, j, holes[i].base);
      }
    }
  }

  lemma {:induction false} NoSuchBase(holes: seq<Extent>, base: int, size: int)
    requires forall h :: h in holes ==> h.base != base
    ensures Carve(holes, base, size) == holes
  {
    if holes != [] {
      assert holes[0] in holes;
      NoSuchBase(holes[1..], base, size);
    }
  }

  lemma AppendPlaces(segs: seq<Segment>, s: Segment)
    ensures Places(segs + [s]) == Places(segs) + [Place(s)]
  {
  }

  /** Carving a hole's front and filling it leaves every address covered as before. */
  lemma PlacementCover(m: Memory, h: Extent, size: int, s: Segment, a: int)
    requires Valid(m) && h in m.holes && 0 < size <= h.size && Place(s) == Extent(h.base, size)
    ensures Cover(Carve(m.holes, h.base, size), a) + Cover(Places(m.segments + [s]), a)
         == Cover(m.holes, a) + Cover(Places(m.segments), a)
  {
    HolesDisjoint(m);
    DistinctBases(m.holes);
    AppendPlaces(m.segments, s);
    CarveCover(m.holes, h, size, a);
    CoverAppend(Places(m.segments), Place(s), a);
  }

  lemma CarvedHolesApart(m: Memory, h: Extent, size: int, x: Extent, y: Extent)
    requires Valid(m) && h in m.holes && 0 < size <= h.size
    requires x in Carve(m.holes, h.base, size) && y in Carve(m.holes, h.base, size)
    ensures x.size > 0 && x.End() != y.base
  {
    HolesDisjoint(m);
    DistinctBases(m.holes);
    CarveElements(m.holes, h, size, x);
    CarveElements(m.holes, h, size, y);
    if x.End() == y.base && y.base == h.base + size && x in m.holes && x.base != h.base {
      SharedAddress(m.holes, x, h, y.base - 1);
    }
  }

  /** A selection that finds a hole, followed by appending the segment, keeps the tables valid. */
  lemma PlacementKeepsValid(m: Memory, size: int, pid: nat, id: nat)
    requires Valid(m) && 0 < size && SelectedHole(m, size).size != -1
    ensures Valid(AppendSegment(AfterSelect(m, size), SelectedHole(m, size), size, pid, id))
  {
    var h := SelectedHole(m, size);
    ChosenFits(m, size);
    PlacedInHole(m, h, size, Segment(id, pid, h.base, size));
  }

  lemma PlacedInHole(m: Memory, h: Extent, size: int, s: Segment)
    requires Valid(m) && h in m.holes && 0 < size <= h.size && Place(s) == Extent(h.base, size)
    ensures Valid(m.(holes := Carve(m.holes, h.base, size), segments := m.segments + [s]))
  {
    PlacedTiles(m, h, size, s);
    CarvedApart(m, h, size);
    AppendPlaces(m.segments, s);
  }

  lemma PlacedTiles(m: Memory, h: Extent, size: int, s: Segment)
    requires Valid(m) && h in m.holes && 0 < size <= h.size && Place(s) == Extent(h.base, size)
    ensures Tiles(m.(holes := Carve(m.holes, h.base, size), segments := m.segments + [s]))
  {
    var holes, segments := Carve(m.holes, h.base, size), m.segments + [s];
    forall a ensures Cover(holes, a) + Cover(Places(segments), a) == if 0 <= a < m.totalSize then 1 else 0 {
      PlacementCover(m, h, size, s, a);
    }
  }

  lemma CarvedApart(m: Memory, h: Extent, size: int)
    requires Valid(m) && h in m.holes && 0 < size <= h.size
    ensures AllPositive(Carve(m.holes, h.base, size)) && Apart(Carve(m.holes, h.base, size))
  {
    var holes := Carve(m.holes, h.base, size);
    forall x, y | x in holes && y in holes ensures x.size > 0 && x.End() != y.base {
      CarvedHolesApart(m, h, size, x, y);
    }
  }

  // ---------- compaction ----------

  lemma {:induction false} PackedShapes(segs: seq<Segment>, at: int)
    ensures |Packed(segs, at)| == |segs|
    ensures Shapes(Packed(segs, at)) == Shapes(segs)
    ensures Total(Places(Packed(segs, at))) == Total(Places(segs))
    ensures segs != [] ==> LastSegmentEnd(Packed(segs, at)) == at + Total(Places(segs))
  {
    if segs != [] {
      var tail := Packed(segs[1..], at + segs[0].size);
      PackedShapes(segs[1..], at + segs[0].size);
      var p := Packed(segs, at);
      assert Places(p)[1..] == Places(tail);
      assert Places(segs)[1..] == Places(segs[1..]);
      forall i | 0 <= i < |segs| ensures Shape(p[i]) == Shape(segs[i]) {
        if i > 0 {
          assert Shapes(tail)[i - 1] == Shapes(segs[1..])[i - 1];
        }
      }
      if |segs| > 1 {
        assert p[|p| - 1] == tail[|tail| - 1];
      } else {
        assert segs[1..] == [];
      }
    }
  }

  /** A packed segment lies right behind everything listed before it. */
  lemma {:induction false} PackedBase(segs: seq<Segment>, at: int, i: nat)
    requires i < |segs|
    ensures |Packed(segs, at)| == |segs|
    ensures Packed(segs, at)[i].base == at + Total(Places(segs[..i]))
  {
    PackedShapes(segs, at);
    if i > 0 {
      PackedBase(segs[1..], at + segs[0].size, i - 1);
      assert Places(segs[..i])[1..] == Places(segs[1..][..i - 1]);
    }
  }

  lemma {:induction false} PackedCover(segs: seq<Segment>, at: int, a: int)
    requires forall i :: 0 <= i < |segs| ==> segs[i].size >= 0
    ensures Total(Places(segs)) >= 0
    ensures Cover(Places(Packed(segs, at)), a) == At(Extent(at, Total(Places(segs))), a)
  {
    if segs != [] {
      PackedShapes(segs, at);
      PackedCover(segs[1..], at + segs[0].size, a);
      assert Places(Packed(segs, at))[1..] == Places(Packed(segs[1..], at + segs[0].size)) by {
        PackedShapes(segs[1..], at + segs[0].size);
      }
      assert Places(segs)[1..] == Places(segs[1..]);
    }
  }

  /** Compaction keeps who owns what, packs it at the bottom, and gathers all the free
      space in one trailing hole. */
  lemma CompactionGathers(m: Memory)
    requires Valid(m) && m.segments != []
    ensures var c := CompactMemory(m);
            && Shapes(c.segments) == Shapes(m.segments) && c.totalSize == m.totalSize
            && c.holes == [Extent(m.totalSize - FreeSpace(m), FreeSpace(m))]
            && FreeSpace(c) == FreeSpace(m)
            && Tiles(c)
            && (FreeSpace(m) > 0 ==> Valid(c))
  {
    var c := CompactMemory(m);
    var used := Total(Places(m.segments));
    PackedShapes(m.segments, 0);
    SpaceIsConserved(m);
    forall i | 0 <= i < |m.segments| ensures m.segments[i].size >= 0 { SegmentInBounds(m, i); }
    PackedCover(m.segments, 0, 0);
    TotalNonNegative(m.holes);
    assert Total(c.holes) == c.holes[0].size + Total([]) by { assert c.holes[1..] == []; }
    forall a
      ensures Cover(c.holes, a) + Cover(Places(c.segments), a) == if 0 <= a < m.totalSize then 1 else 0
    {
      PackedCover(m.segments, 0, a);
      assert Cover(c.holes, a) == At(c.holes[0], a);
    }
    forall p | p in Places(c.segments) ensures p.size > 0 {
      var i :| 0 <= i < |c.segments| && Places(c.segments)[i] == p;
      assert Shapes(c.segments)[i] == Shapes(m.segments)[i];
      SegmentInBounds(m, i);
    }
  }

  lemma {:induction false} TotalNonNegative(es: seq<Extent>)
    requires AllPositive(es)
    ensures Total(es) >= 0
    ensures es != [] ==> Total(es) > 0
  {
    if es != [] {
      assert es[0] in es;
      TotalNonNegative(es[1..]);
    }
  }

  // ---------- create_segment ----------

  /** With no segments, the whole memory is one hole (or there is no memory at all). */
  lemma EmptyMemoryIsOneHole(m: Memory)
    requires Valid(m) && m.segments == []
    ensures m.holes == if m.totalSize == 0 then [] else [Extent(0, m.totalSize)]
  {
    if m.totalSize == 0 {
      if m.holes != [] { HoleInBounds(m, m.holes[0]); }
    } else {
      assert Cover(m.holes, 0) + Cover(Places(m.segments), 0) == 1;
      var i := CoverWitness(m.holes, 0);
      var h := m.holes[i];
      HoleInBounds(m, h);
      if h.End() < m.totalSize {
        assert Cover(m.holes, h.End()) + Cover(Places(m.segments), h.End()) == 1;
        var j := CoverWitness(m.holes, h.End());
        var g := m.holes[j];
        HoleInBounds(m, g);
        HolesDisjoint(m);
        if g.base < h.End() {
          SharedAddress(m.holes, g, h, h.End() - 1);
        }
      }
      assert h == Extent(0, m.totalSize);
      if |m.holes| > 1 {
        var k := if i == 0 then 1 else 0;
        assert m.holes[k] in m.holes;
        HoleInBounds(m, m.holes[k]);
        CoverTwice(m.holes, if k < i then k else i, if k < i then i else k, m.holes[k].base);
      }
    }
  }

  lemma {:induction false} SomeHoleFits(holes: seq<Extent>, size: int)
    requires |holes| == 1 && Total(holes) >= size
    ensures holes[0].size >= size
  {
  }

  /** The post-state of a granted request: the old segments keep their order and identity,
      one new in-bounds segment of the requested size comes last. */
  ghost predicate OneMore(m: Memory, m': Memory, id: nat, pid: nat, size: int) {
    && |m'.segments| == |m.segments| + 1
    && m'.totalSize == m.totalSize
    && Shapes(m'.segments[..|m.segments|]) == Shapes(m.segments)
    && var s := m'.segments[|m.segments|];
       s.id == id && s.pid == pid && s.size == size && 0 <= s.base && s.base + size <= m.totalSize
  }

  lemma OneMoreInBounds(m: Memory, m': Memory, id: nat, pid: nat, size: int)
    requires Valid(m') && |m'.segments| == |m.segments| + 1 && m'.totalSize == m.totalSize
    requires Shapes(m'.segments[..|m.segments|]) == Shapes(m.segments)
    requires Shape(m'.segments[|m.segments|]) == (id, pid, size)
    ensures OneMore(m, m', id, pid, size)
  {
    SegmentInBounds(m', |m.segments|);
  }

  /** Enough free bytes always suffice: whatever the fragmentation, the request is granted,
      after a compaction exactly when no single hole fits. */
  lemma EnoughSpaceSuffices(m: Memory, id: nat, pid: nat, size: int)
    requires Valid(m) && !m.strategy.Unsupported?
    requires 0 < size <= m.maxSegmentSize && size <= FreeSpace(m)
    ensures var r := CreateSegment(m, id, pid, size);
            && r.outcome == Allocated && Valid(r.memory) && OneMore(m, r.memory, id, pid, size)
            && (if forall h :: h in m.holes ==> h.size < size
                then r.replies == [CompactionNeeded, CompactionDone, MemoryAllocated]
                     && r.memory.holes == (if FreeSpace(m) == size then []
                                           else [Extent(m.totalSize - FreeSpace(m) + size, FreeSpace(m) - size)])
                else r.replies == [MemoryAllocated]
                     && r.memory.segments[..|m.segments|] == m.segments)
  {
    var r := CreateSegment(m, id, pid, size);
    ChosenFits(m, size);
    if SelectedHole(m, size).size != -1 {
      PlacementKeepsValid(m, size, pid, id);
      OneMoreInBounds(m, r.memory, id, pid, size);
    } else {
      assert AfterSelect(m, size) == m by {
        forall h | h in m.holes ensures h.base != -1 { HoleInBounds(m, h); }
        NoSuchBase(m.holes, -1, size);
      }
      if m.segments == [] {
        EmptyMemoryIsOneHole(m);
        assert m.holes[0] in m.holes;
        SomeHoleFits(m.holes, size);
      }
      PlacedAfterCompaction(m, id, pid, size);
    }
  }

  /** The hole at index i is the one that the configured strategy asks for: it fits, under BEST no
      smaller one does, under WORST there is no larger one, and it is the first of its size. */
  ghost predicate StrategysChoice(m: Memory, size: int, i: nat) {
    && i < |m.holes| && size <= m.holes[i].size
    && (m.strategy == BestFit ==> forall h :: h in m.holes && size <= h.size ==> m.holes[i].size <= h.size)
    && (m.strategy == WorstFit ==> forall h :: h in m.holes ==> h.size <= m.holes[i].size)
    && forall j :: 0 <= j < i ==> m.holes[j].size != m.holes[i].size
  }

  /** The holes when size bytes are taken off the front of hole i. */
  function Shortened(holes: seq<Extent>, i: nat, size: int): seq<Extent>
    requires i < |holes|
  {
    if holes[i].size == size then holes[..i] + holes[i + 1..]
    else holes[i := Extent(holes[i].base + size, holes[i].size - size)]
  }

  /** The tables with a new segment at the start of hole i, and the rest of that hole in its place. */
  function PlacedAt(m: Memory, i: nat, id: nat, pid: nat, size: int): Memory
    requires i < |m.holes|
  {
    m.(segments := m.segments + [Segment(id, pid, m.holes[i].base, size)], holes := Shortened(m.holes, i, size))
  }

  lemma SelectedIsStrategys(m: Memory, size: int) returns (i: nat)
    requires Valid(m) && !m.strategy.Unsupported? && 0 <= size && exists h :: h in m.holes && size <= h.size
    ensures StrategysChoice(m, size, i) && SelectedHole(m, size) == m.holes[i]
    ensures AfterSelect(m, size) == m.(holes := Shortened(m.holes, i, size))
  {
    i := FirstBestSelected(m, size);
    FirstBestIsStrategys(m, size, i);
    CarvedAtSelected(m, i, size);
  }

  lemma FirstBestSelected(m: Memory, size: int) returns (i: nat)
    requires Valid(m) && !m.strategy.Unsupported? && 0 <= size && exists h :: h in m.holes && size <= h.size
    ensures IsFirstBest(m.holes, size, m.strategy, i) && m.holes[i] == SelectedHole(m, size)
  {
    ChooseHoleSpec(m.holes, size, m.strategy);
    var h :| h in m.holes && size <= h.size;
    i :| IsFirstBest(m.holes, size, m.strategy, i) && m.holes[i] == SelectedHole(m, size);
  }

  lemma FirstBestIsStrategys(m: Memory, size: int, i: nat)
    requires !m.strategy.Unsupported? && IsFirstBest(m.holes, size, m.strategy, i)
    ensures StrategysChoice(m, size, i)
  {
    forall h | h in m.holes
      ensures m.strategy == WorstFit ==> h.size <= m.holes[i].size
      ensures m.strategy == BestFit && size <= h.size ==> m.holes[i].size <= h.size
    {
      var j :| 0 <= j < |m.holes| && m.holes[j] == h;
    }
  }

  lemma CarvedAtSelected(m: Memory, i: nat, size: int)
    requires Valid(m) && i < |m.holes|
    ensures Carve(m.holes, m.holes[i].base, size) == Shortened(m.holes, i, size)
  {
    HolesDisjoint(m);
    DistinctBases(m.holes);
    CarvedAt(m.holes, i, m.holes[i].base, size);
  }

  /** A request that some hole can take is served without compaction from the hole that the strategy
      asks for; nothing else changes. */
  lemma PlacedByStrategy(m: Memory, id: nat, pid: nat, size: int) returns (i: nat)
    requires Valid(m) && !m.strategy.Unsupported?
    requires 0 <= size <= m.maxSegmentSize && exists h :: h in m.holes && size <= h.size
    ensures StrategysChoice(m, size, i)
    ensures CreateSegment(m, id, pid, size) == CreateResult(PlacedAt(m, i, id, pid, size), [MemoryAllocated], Allocated)
  {
    i := SelectedIsStrategys(m, size);
    HoleFitsTotal(m.holes, m.holes[i]);
  }

  lemma {:induction false} HoleFitsTotal(holes: seq<Extent>, h: Extent)
    requires AllPositive(holes) && h in holes
    ensures h.size <= Total(holes)
  {
    TotalNonNegative(holes[1..]);
    assert holes[0] in holes;
    if h != holes[0] {
      HoleFitsTotal(holes[1..], h);
    }
  }

  lemma PlacedAfterCompaction(m: Memory, id: nat, pid: nat, size: int)
    requires Valid(m) && !m.strategy.Unsupported? && m.segments != [] && 0 < size <= FreeSpace(m)
    ensures SelectedHole(CompactMemory(m), size).size != -1
    ensures var c := CompactMemory(m);
            var r := AppendSegment(AfterSelect(c, size), SelectedHole(c, size), size, pid, id);
            && Valid(r) && OneMore(m, r, id, pid, size)
            && r.holes == (if FreeSpace(m) == size then []
                           else [Extent(m.totalSize - FreeSpace(m) + size, FreeSpace(m) - size)])
  {
    CompactionGathers(m);
    var c := CompactMemory(m);
    ChosenFits(c, size);
    assert c.holes[0] in c.holes;
    PlacementKeepsValid(c, size, pid, id);
    var r := AppendSegment(AfterSelect(c, size), SelectedHole(c, size), size, pid, id);
    assert r.segments[..|m.segments|] == c.segments;
    OneMoreInBounds(m, r, id, pid, size);
  }

  /** A request that no hole can take, but all together can, makes memory compact: every segment, the
      new one last, then lies right behind those listed before it, and one hole takes the rest. */
  lemma PlacedBehindAll(m: Memory, id: nat, pid: nat, size: int)
    requires Valid(m) && !m.strategy.Unsupported? && 0 < size <= m.maxSegmentSize && size <= FreeSpace(m)
    requires forall h :: h in m.holes ==> h.size < size
    ensures var r := CreateSegment(m, id, pid, size);
            var m' := r.memory;
            && r.replies == [CompactionNeeded, CompactionDone, MemoryAllocated] && r.outcome == Allocated
            && Shapes(m'.segments) == Shapes(m.segments) + [(id, pid, size)]
            && (forall k :: 0 <= k < |m'.segments| ==> m'.segments[k].base == Total(Places(m'.segments[..k])))
            && m'.holes == (if FreeSpace(m) == size then []
                            else [Extent(m.totalSize - FreeSpace(m) + size, FreeSpace(m) - size)])
            && m' == m.(segments := m'.segments, holes := m'.holes)
  {
    EnoughSpaceSuffices(m, id, pid, size);
    NothingSelected(m, size);
    var r := CreateSegment(m, id, pid, size);
    PlacedBehind(m, r.memory, id, pid, size);
  }

  /** The same request: what is selected before the compaction, and behind it. */
  lemma NothingSelected(m: Memory, size: int)
    requires Valid(m) && !m.strategy.Unsupported? && 0 < size <= FreeSpace(m) && forall h :: h in m.holes ==> h.size < size
    ensures m.segments != [] && SelectedHole(m, size).size == -1 && AfterSelect(m, size) == m
    ensures var c := CompactMemory(m);
            SelectedHole(c, size) == Extent(m.totalSize - FreeSpace(m), FreeSpace(m))
  {
    ChosenFits(m, size);
    forall h | h in m.holes ensures h.base != -1 { HoleInBounds(m, h); }
    NoSuchBase(m.holes, -1, size);
    if m.segments == [] {
      EmptyMemoryIsOneHole(m);
      assert m.holes[0] in m.holes;
      SomeHoleFits(m.holes, size);
    }
    CompactionGathers(m);
    ChosenFits(CompactMemory(m), size);
    assert CompactMemory(m).holes[0] in CompactMemory(m).holes;
  }

  lemma PlacedBehind(m: Memory, m': Memory, id: nat, pid: nat, size: int)
    requires Valid(m) && m.segments != [] && |m'.segments| == |m.segments| + 1
    requires m'.segments == Packed(m.segments, 0) + [Segment(id, pid, m.totalSize - FreeSpace(m), size)]
    ensures Shapes(m'.segments) == Shapes(m.segments) + [(id, pid, size)]
    ensures forall k :: 0 <= k < |m'.segments| ==> m'.segments[k].base == Total(Places(m'.segments[..k]))
  {
    var n, packed := |m.segments|, Packed(m.segments, 0);
    PackedShapes(m.segments, 0);
    SpaceIsConserved(m);
    assert m'.segments[..n] == packed;
    forall k | 0 <= k < |m'.segments| ensures m'.segments[k].base == Total(Places(m'.segments[..k])) {
      if k < n {
        PackedInOrder(m.segments, k);
        assert m'.segments[..k] == packed[..k];
      }
    }
  }

  lemma PackedInOrder(segs: seq<Segment>, k: nat)
    requires k < |segs|
    ensures |Packed(segs, 0)| == |segs|
    ensures Packed(segs, 0)[k].base == Total(Places(Packed(segs, 0)[..k]))
  {
    var packed := Packed(segs, 0);
    PackedShapes(segs, 0);
    PackedBase(segs, 0, k);
    forall i | 0 <= i < k ensures packed[i].size == segs[i].size {
      assert Shapes(packed)[i] == Shapes(segs)[i];
    }
    SizesDecideTotal(packed[..k], segs[..k]);
  }

  lemma {:induction false} SizesDecideTotal(x: seq<Segment>, y: seq<Segment>)
    requires |x| == |y| && forall i :: 0 <= i < |x| ==> x[i].size == y[i].size
    ensures Total(Places(x)) == Total(Places(y))
  {
    if x != [] {
      SizesDecideTotal(x[1..], y[1..]);
      assert Places(x)[1..] == Places(x[1..]) && Places(y)[1..] == Places(y[1..]);
    }
  }

  /** The handler refuses a request exactly when it exceeds the largest segment or the free space; it
      says which, and the tables stay as they are. Any other request is granted. */
  lemma HandlerRefusesIff(m: Memory, id: nat, pid: nat, size: int)
    requires Valid(m) && !m.strategy.Unsupported? && 0 < size
    ensures var r := HandleCreateSegment(m, id, pid, size);
            if size > m.maxSegmentSize then r == CreateResult(m, [SegmentSizeExceeded], Refused)
            else if size > FreeSpace(m) then r == CreateResult(m, [NotEnoughMemory], Refused)
            else r.outcome == Allocated && |r.memory.segments| == |m.segments| + 1
  {
    if size <= m.maxSegmentSize && size <= FreeSpace(m) {
      EnoughSpaceSuffices(m, id, pid, size);
    }
  }

  /** Exactly when a create request leaves the tables valid: it is refused for lack of space,
      or it asks for at least one byte under a known strategy. */
  lemma CreateKeepsValidIff(m: Memory, id: nat, pid: nat, size: nat)
    requires Valid(m) && size <= m.maxSegmentSize
    ensures var r := CreateSegment(m, id, pid, size);
            (r.outcome != Crashed && Valid(r.memory)) <==>
            (FreeSpace(m) < size || (size > 0 && !m.strategy.Unsupported?))
  {
    var r := CreateSegment(m, id, pid, size);
    if FreeSpace(m) < size {
    } else if size > 0 && !m.strategy.Unsupported? {
      EnoughSpaceSuffices(m, id, pid, size);
    } else if r.outcome != Crashed {
      var n := |r.memory.segments| - 1;
      var s := r.memory.segments[n];
      assert Places(r.memory.segments)[n] in Places(r.memory.segments);
      if size > 0 {
        assert s.base == -1;
        if Valid(r.memory) { SegmentInBounds(r.memory, n); }
      }
    }
  }

  /** The null read: a zero-byte request against a memory with neither segments nor holes,
      or any grantable request under an unknown strategy while no segment exists. */
  lemma CreateCrashesIff(m: Memory, id: nat, pid: nat, size: nat)
    requires Valid(m)
    ensures CreateSegment(m, id, pid, size).outcome == Crashed <==>
            FreeSpace(m) >= size && m.segments == [] && (m.strategy.Unsupported? || m.totalSize == 0)
  {
    ChosenFits(m, size);
    if m.segments == [] {
      EmptyMemoryIsOneHole(m);
      if m.totalSize > 0 {
        SomeHoleFits(m.holes, m.totalSize);
        assert m.holes[0] in m.holes;
        if FreeSpace(m) >= size { SomeHoleFits(m.holes, size); }
      }
    }
  }

  // ---------- remove_segment ----------

  lemma {:induction false} LastEndingAtSpec(holes: seq<Extent>, base: int)
    ensures var i := LastEndingAt(holes, base);
            && -1 <= i < |holes|
            && (i >= 0 ==> holes[i].End() == base)
            && (i == -1 ==> forall h :: h in holes ==> h.End() != base)
  {
    if holes != [] && holes[|holes| - 1].End() != base {
      LastEndingAtSpec(holes[..|holes| - 1], base);
      assert holes == holes[..|holes| - 1] + [holes[|holes| - 1]];
    }
  }

  lemma {:induction false} LastStartingAtSpec(holes: seq<Extent>, base: int)
    ensures var i := LastStartingAt(holes, base);
            && -1 <= i < |holes|
            && (i >= 0 ==> holes[i].base == base)
            && (i == -1 ==> forall h :: h in holes ==> h.base != base)
  {
    if holes != [] && holes[|holes| - 1].base != base {
      LastStartingAtSpec(holes[..|holes| - 1], base);
      assert holes == holes[..|holes| - 1] + [holes[|holes| - 1]];
    }
  }

  lemma WithoutNeighboursCover(holes: seq<Extent>, b: int, a: int, x: int)
    requires -1 <= b < |holes| && -1 <= a < |holes| && (a == b ==> a == -1)
    ensures Cover(holes, x) == Cover(WithoutNeighbours(holes, b, a), x)
                               + (if b >= 0 then At(holes[b], x) else 0) + (if a >= 0 then At(holes[a], x) else 0)
  {
    var hi, lo := if b < a then a else b, if b < a then b else a;
    if hi >= 0 {
      CoverDrop(holes, hi, x);
      if lo >= 0 {
        assert Drop(holes, hi)[lo] == holes[lo];
        CoverDrop(Drop(holes, hi), lo, x);
      }
    }
  }

  /** b and a are the positions of the holes that touch e on either side, -1 where there is none. */
  ghost predicate AreNeighbours(holes: seq<Extent>, e: Extent, b: int, a: int) {
    && -1 <= b < |holes| && -1 <= a < |holes|
    && (b >= 0 ==> holes[b].End() == e.base && holes[b].size > 0)
    && (a >= 0 ==> holes[a].base == e.End() && holes[a].size > 0)
    && (b == -1 ==> forall h :: h in holes ==> h.End() != e.base)
    && (a == -1 ==> forall h :: h in holes ==> h.base != e.End())
  }

  lemma ScanFindsNeighbours(holes: seq<Extent>, e: Extent)
    requires AllPositive(holes)
    ensures AreNeighbours(holes, e, LastEndingAt(holes, e.base), LastStartingAt(holes, e.End()))
  {
    LastEndingAtSpec(holes, e.base);
    LastStartingAtSpec(holes, e.End());
  }

  lemma MergedAt(holes: seq<Extent>, e: Extent, b: int, a: int, x: int)
    requires AreNeighbours(holes, e, b, a) && e.size > 0
    ensures At(Merged(holes, e, b, a), x)
         == At(e, x) + (if b >= 0 then At(holes[b], x) else 0) + (if a >= 0 then At(holes[a], x) else 0)
  {
  }

  lemma CoalesceCover(holes: seq<Extent>, e: Extent, x: int)
    requires AllPositive(holes) && e.size > 0
    ensures Cover(Coalesce(holes, e), x) == Cover(holes, x) + At(e, x)
  {
    var b, a := LastEndingAt(holes, e.base), LastStartingAt(holes, e.End());
    ScanFindsNeighbours(holes, e);
    MergedAt(holes, e, b, a, x);
    WithoutNeighboursCover(holes, b, a, x);
    CoverAppend(WithoutNeighbours(holes, b, a), Merged(holes, e, b, a), x);
  }

  lemma WithoutNeighboursElements(holes: seq<Extent>, b: int, a: int, g: Extent)
    requires Disjoint(holes) && AllPositive(holes)
    requires -1 <= b < |holes| && -1 <= a < |holes| && (a == b ==> a == -1)
    requires g in WithoutNeighbours(holes, b, a)
    ensures g in holes && (b >= 0 ==> g != holes[b]) && (a >= 0 ==> g != holes[a])
  {
    var hi, lo := if b < a then a else b, if b < a then b else a;
    DropKeepsForm(holes, hi);
    DropKeepsForm(Drop(holes, hi), lo);
    if lo >= 0 {
      assert Drop(holes, hi)[lo] == holes[lo];
    }
  }

  /** Once the neighbours of e are taken out, no other hole touches e. */
  lemma NoNeighbourLeft(holes: seq<Extent>, e: Extent, b: int, a: int, g: Extent)
    requires Disjoint(holes) && AllPositive(holes) && e.size > 0 && AreNeighbours(holes, e, b, a)
    requires g in WithoutNeighbours(holes, b, a)
    ensures g in holes && g.End() != e.base && g.base != e.End()
  {
    assert a == b ==> a == -1;
    WithoutNeighboursElements(holes, b, a, g);
    OnlyNeighbourTouches(holes, e, b, a, g);
  }

  /** The neighbours are the only holes that touch e. */
  lemma OnlyNeighbourTouches(holes: seq<Extent>, e: Extent, b: int, a: int, g: Extent)
    requires Disjoint(holes) && AllPositive(holes) && AreNeighbours(holes, e, b, a) && g in holes
    ensures g.End() == e.base ==> b >= 0 && g == holes[b]
    ensures g.base == e.End() ==> a >= 0 && g == holes[a]
  {
    if g.End() == e.base && g != holes[b] {
      SharedAddress(holes, g, holes[b], e.base - 1);
    }
    if g.base == e.End() && g != holes[a] {
      SharedAddress(holes, g, holes[a], e.End());
    }
  }

  lemma NoNeighbourOfMerged(holes: seq<Extent>, e: Extent, b: int, a: int, g: Extent)
    requires Disjoint(holes) && AllPositive(holes) && Apart(holes) && e.size > 0 && AreNeighbours(holes, e, b, a)
    requires g in WithoutNeighbours(holes, b, a)
    ensures g in holes && g.End() != Merged(holes, e, b, a).base && Merged(holes, e, b, a).End() != g.base
  {
    NoNeighbourLeft(holes, e, b, a, g);
    if b >= 0 { assert holes[b] in holes; }
    if a >= 0 { assert holes[a] in holes; }
  }

  lemma CoalesceKeepsForm(holes: seq<Extent>, e: Extent)
    requires Disjoint(holes) && AllPositive(holes) && Apart(holes) && e.size > 0
    ensures AllPositive(Coalesce(holes, e)) && Apart(Coalesce(holes, e))
  {
    var b, a := LastEndingAt(holes, e.base), LastStartingAt(holes, e.End());
    ScanFindsNeighbours(holes, e);
    var rest, merged := WithoutNeighbours(holes, b, a), Merged(holes, e, b, a);
    assert Coalesce(holes, e) == rest + [merged];
    forall g | g in rest ensures g in holes && g.End() != merged.base && merged.End() != g.base {
      NoNeighbourOfMerged(holes, e, b, a, g);
    }
  }

  lemma {:induction false} FindIndexSpec(segs: seq<Segment>, id: nat, pid: nat)
    ensures var i := FindIndex(segs, id, pid);
            && -1 <= i < |segs|
            && (i >= 0 ==> segs[i].id == id && segs[i].pid == pid)
            && (forall j :: 0 <= j < (if i == -1 then |segs| else i) ==> !(segs[j].id == id && segs[j].pid == pid))
  {
    if segs != [] && !(segs[0].id == id && segs[0].pid == pid) {
      FindIndexSpec(segs[1..], id, pid);
    }
  }

  lemma DropPlaces(segs: seq<Segment>, i: nat)
    requires i < |segs|
    ensures Places(Drop(segs, i)) == Drop(Places(segs), i)
  {
  }

  lemma RemoveSegmentKeepsValid(m: Memory, id: nat, pid: nat)
    requires Valid(m)
    ensures Valid(RemoveSegment(m, id, pid))
  {
    var i := FindIndex(m.segments, id, pid);
    FindIndexSpec(m.segments, id, pid);
    if i >= 0 {
      var e := Place(m.segments[i]);
      var m' := RemoveSegment(m, id, pid);
      SegmentInBounds(m, i);
      HolesDisjoint(m);
      CoalesceKeepsForm(m.holes, e);
      DropPlaces(m.segments, i);
      forall x
        ensures Cover(m'.holes, x) + Cover(Places(m'.segments), x) == if 0 <= x < m.totalSize then 1 else 0
      {
        CoalesceCover(m.holes, e, x);
        CoverDrop(Places(m.segments), i, x);
        assert Cover(m.holes, x) + Cover(Places(m.segments), x) == if 0 <= x < m.totalSize then 1 else 0;
      }
    }
  }

  predicate IsNeighbour(h: Extent, e: Extent) {
    h.End() == e.base || h.base == e.End()
  }

  /** The holes that do not touch e, in their order. */
  function Untouched(holes: seq<Extent>, e: Extent): seq<Extent> {
    if holes == [] then [] else (if IsNeighbour(holes[0], e) then [] else [holes[0]]) + Untouched(holes[1..], e)
  }

  lemma {:induction false} UntouchedConcat(x: seq<Extent>, y: seq<Extent>, e: Extent)
    ensures Untouched(x + y, e) == Untouched(x, e) + Untouched(y, e)
  {
    if x == [] {
      assert x + y == y;
    } else {
      assert (x + y)[1..] == x[1..] + y;
      UntouchedConcat(x[1..], y, e);
    }
  }

  lemma TouchingGoes(holes: seq<Extent>, i: int, e: Extent)
    requires 0 <= i < |holes| ==> IsNeighbour(holes[i], e)
    ensures Untouched(Drop(holes, i), e) == Untouched(holes, e)
  {
    if 0 <= i < |holes| {
      var front, back := holes[..i], holes[i + 1..];
      assert holes == front + ([holes[i]] + back) && ([holes[i]] + back)[1..] == back;
      UntouchedConcat(front, [holes[i]] + back, e);
      UntouchedConcat(front, back, e);
    }
  }

  lemma {:induction false} AllUntouched(holes: seq<Extent>, e: Extent)
    requires forall h :: h in holes ==> !IsNeighbour(h, e)
    ensures Untouched(holes, e) == holes
  {
    if holes != [] {
      assert holes[0] in holes;
      AllUntouched(holes[1..], e);
    }
  }

  /** Giving e back: the holes that do not touch it keep their order, and one hole behind them is e and
      whichever holes touch it. */
  lemma MergedHoleIsLast(holes: seq<Extent>, e: Extent) returns (merged: Extent)
    requires Disjoint(holes) && AllPositive(holes) && e.size > 0
    ensures Coalesce(holes, e) == Untouched(holes, e) + [merged]
    ensures merged.base == e.base || exists h :: h in holes && h.End() == e.base && merged.base == h.base
    ensures merged.End() == e.End() || exists h :: h in holes && h.base == e.End() && merged.End() == h.End()
    ensures forall h :: h in holes && h.End() == e.base ==> merged.base == h.base
    ensures forall h :: h in holes && h.base == e.End() ==> merged.End() == h.End()
  {
    var b, a := LastEndingAt(holes, e.base), LastStartingAt(holes, e.End());
    ScanFindsNeighbours(holes, e);
    merged := Merged(holes, e, b, a);
    NeighboursGo(holes, e, b, a);
    MergedEnds(holes, e, b, a);
  }

  lemma MergedEnds(holes: seq<Extent>, e: Extent, b: int, a: int)
    requires Disjoint(holes) && AllPositive(holes) && e.size > 0 && AreNeighbours(holes, e, b, a)
    ensures var merged := Merged(holes, e, b, a);
            && (merged.base == e.base || exists h :: h in holes && h.End() == e.base && merged.base == h.base)
            && (merged.End() == e.End() || exists h :: h in holes && h.base == e.End() && merged.End() == h.End())
            && (forall h :: h in holes && h.End() == e.base ==> merged.base == h.base)
            && (forall h :: h in holes && h.base == e.End() ==> merged.End() == h.End())
  {
    if b >= 0 { assert holes[b] in holes; }
    if a >= 0 { assert holes[a] in holes; }
    forall h | h in holes
      ensures h.End() == e.base ==> b >= 0 && h == holes[b]
      ensures h.base == e.End() ==> a >= 0 && h == holes[a]
    {
      OnlyNeighbourTouches(holes, e, b, a, h);
    }
  }

  lemma NeighboursGo(holes: seq<Extent>, e: Extent, b: int, a: int)
    requires Disjoint(holes) && AllPositive(holes) && e.size > 0 && AreNeighbours(holes, e, b, a)
    ensures WithoutNeighbours(holes, b, a) == Untouched(holes, e)
  {
    assert a == b ==> a == -1;
    var hi, lo := if b < a then a else b, if b < a then b else a;
    TouchingGoes(holes, hi, e);
    assert lo >= 0 ==> Drop(holes, hi)[lo] == holes[lo];
    TouchingGoes(Drop(holes, hi), lo, e);
    forall h | h in WithoutNeighbours(holes, b, a) ensures !IsNeighbour(h, e) {
      NoNeighbourLeft(holes, e, b, a, h);
    }
    AllUntouched(WithoutNeighbours(holes, b, a), e);
  }

  // ---------- add_total_memory ----------

  lemma {:induction false} FirstEndingAtSpec(holes: seq<Extent>, base: int)
    ensures var i := FirstEndingAt(holes, base);
            && -1 <= i < |holes|
            && (i >= 0 ==> holes[i].End() == base)
            && (i == -1 ==> forall h :: h in holes ==> h.End() != base)
  {
    if holes != [] && holes[0].End() != base {
      FirstEndingAtSpec(holes[1..], base);
      assert holes == [holes[0]] + holes[1..];
    }
  }

  lemma AddTotalMemoryKeepsValid(m: Memory, n: int)
    requires Valid(m) && n > 0
    ensures Valid(AddTotalMemory(m, n))
    ensures FreeSpace(AddTotalMemory(m, n)) == FreeSpace(m) + n
    ensures AddTotalMemory(m, n).segments == m.segments && AddTotalMemory(m, n).totalSize == m.totalSize + n
  {
    StickTiles(m, n);
    StickApart(m, n);
    SpaceIsConserved(m);
    SpaceIsConserved(AddTotalMemory(m, n));
  }

  /** The bytes of a new stick make the hole at the end of memory longer, in its place, or are a new hole
      behind all others. */
  lemma StickExtendsLast(m: Memory, n: int)
    requires Valid(m) && n > 0
    ensures forall i :: 0 <= i < |m.holes| && m.holes[i].End() == m.totalSize ==>
              AddTotalMemory(m, n).holes == m.holes[i := Extent(m.holes[i].base, m.holes[i].size + n)]
    ensures (forall h :: h in m.holes ==> h.End() != m.totalSize) ==>
              AddTotalMemory(m, n).holes == m.holes + [Extent(m.totalSize, n)]
  {
    var k := FirstEndingAt(m.holes, m.totalSize);
    FirstEndingAtSpec(m.holes, m.totalSize);
    HolesDisjoint(m);
    forall i | 0 <= i < |m.holes| && m.holes[i].End() == m.totalSize ensures i == k {
      assert m.holes[i] in m.holes && m.holes[k] in m.holes;
      if i != k {
        CoverTwice(m.holes, if i < k then i else k, if i < k then k else i, m.totalSize - 1);
      }
    }
    if k >= 0 { assert m.holes[k] in m.holes; }
  }

  lemma StickTiles(m: Memory, n: int)
    requires Valid(m) && n > 0
    ensures Tiles(AddTotalMemory(m, n))
  {
    var i := FirstEndingAt(m.holes, m.totalSize);
    FirstEndingAtSpec(m.holes, m.totalSize);
    var m' := AddTotalMemory(m, n);
    var fresh_ := Extent(m.totalSize, n);
    forall a
      ensures Cover(m'.holes, a) == Cover(m.holes, a) + At(fresh_, a)
      ensures Cover(m'.holes, a) + Cover(Places(m'.segments), a) == if 0 <= a < m'.totalSize then 1 else 0
    {
      assert Cover(m.holes, a) + Cover(Places(m.segments), a) == if 0 <= a < m.totalSize then 1 else 0;
      if i >= 0 {
        assert m.holes[i] in m.holes;
        CoverUpdate(m.holes, i, m'.holes[i], a);
      } else {
        CoverAppend(m.holes, fresh_, a);
      }
    }
  }

  lemma StickApart(m: Memory, n: int)
    requires Valid(m) && n > 0
    ensures AllPositive(AddTotalMemory(m, n).holes) && Apart(AddTotalMemory(m, n).holes)
  {
    var i := FirstEndingAt(m.holes, m.totalSize);
    FirstEndingAtSpec(m.holes, m.totalSize);
    var m' := AddTotalMemory(m, n);
    forall h | h in m'.holes ensures h.size > 0 && (h in m.holes || h.End() == m'.totalSize) {
      if i >= 0 { assert m.holes[i] in m.holes; }
    }
    forall x, y | x in m'.holes && y in m'.holes ensures x.End() != y.base {
      if i >= 0 { assert m.holes[i] in m.holes; }
      forall h | h in m.holes ensures 0 <= h.base && h.base < m.totalSize && h.End() <= m.totalSize { HoleInBounds(m, h); }
      if i >= 0 && y !in m.holes {
        assert y.base == m.holes[i].base;
      }
    }
  }
}
