/** Kernel Memory's t_main_memory: the object whose tables the allocator updates in place.
    Every method is tied to the table function of the same name. */
module MainMemoryObject {
  import opened Options
  import opened Extents
  import opened MemoryTables
  import AllocatorLaws

  class MainMemory {
    var totalSize: int
    const maxSegmentSize: int
    const strategy: Strategy
    var segments: seq<Segment>
    var holes: seq<Extent>

    function State(): Memory
      reads this
    {
      Memory(totalSize, maxSegmentSize, strategy, segments, holes)
    }

    constructor (maxSegmentSize: int, strategy: Strategy)
      ensures State() == Memory(0, maxSegmentSize, strategy, [], [])
      ensures Valid(State())
    {
      this.totalSize := 0;
      this.maxSegmentSize := maxSegmentSize;
      this.strategy := strategy;
      this.segments := [];
      this.holes := [];
    }

    // ---------- holes.c ----------

    method ComputeFreeSpace() returns (total: int)
      ensures total == FreeSpace(State())
    {
      total := 0;
      for i := 0 to |holes|
        invariant total + Total(holes[i..]) == Total(holes)
      {
        total := total + holes[i].size;
      }
    }

    method AddTotalMemory(n: int)
      modifies this
      ensures State() == MemoryTables.AddTotalMemory(old(State()), n)
    {
      var newBase := totalSize;
      totalSize := totalSize + n;
      var i := 0;
      while i < |holes| && holes[i].End() != newBase
        invariant 0 <= i <= |holes|
        invariant var r := FirstEndingAt(holes[i..], newBase);
                  FirstEndingAt(holes, newBase) == if r == -1 then -1 else r + i
      {
        assert holes[i..][1..] == holes[i + 1..];
        i := i + 1;
      }
      if i < |holes| {
        holes := holes[i := Extent(holes[i].base, holes[i].size + n)];
      } else {
        holes := holes + [Extent(newBase, n)];
      }
    }

    method HoleSelectionAlgorithm(size: int) returns (chosen: Extent)
      ensures chosen == ChooseHole(holes, size, strategy)
    {
      chosen := NO_HOLE;
      for i := 0 to |holes|
        invariant chosen == ChooseHole(holes[..i], size, strategy)
      {
        assert holes[..i + 1][..i] == holes[..i];
        var current := holes[i];
        if current.size >= size {
          match strategy {
            case BestFit =>
              if chosen.size == -1 || chosen.size > current.size { chosen := current; }
            case WorstFit =>
              if chosen.size == -1 || chosen.size < current.size { chosen := current; }
            case Unsupported =>
          }
        }
      }
      assert holes[..|holes|] == holes;
    }

    method UpdateHoleTable(chosen: Extent, size: int)
      modifies this`holes
      ensures holes == Carve(old(holes), chosen.base, size)
    {
      var i := 0;
      while i < |holes| && holes[i].base != chosen.base
        invariant 0 <= i <= |holes|
        invariant forall k :: 0 <= k < i ==> holes[k].base != chosen.base
      {
        i := i + 1;
      }
      AllocatorLaws.CarvedAt(holes, i, chosen.base, size);
      if i < |holes| {
        holes := holes[i := Extent(holes[i].base + size, holes[i].size - size)];
        if holes[i].size == 0 {
          holes := Drop(holes, i);
        }
      }
    }

    method SelectHole(size: int) returns (chosen: Extent)
      modifies this`holes
      ensures chosen == SelectedHole(old(State()), size)
      ensures State() == AfterSelect(old(State()), size)
    {
      if strategy.Unsupported? {
        return NO_HOLE;
      }
      chosen := HoleSelectionAlgorithm(size);
      UpdateHoleTable(chosen, size);
    }

    method UpdateSegmentList(hole: Extent, size: int, pid: nat, id: nat)
      modifies this`segments
      ensures State() == AppendSegment(old(State()), hole, size, pid, id)
    {
      segments := segments + [Segment(id, pid, hole.base, size)];
    }

    /** The replies are listed in the order in which they reach the scheduler. A crash is the
        null read of an empty segment list: nothing after it runs. */
    method CreateSegment(id: nat, pid: nat, size: int) returns (replies: seq<Reply>, outcome: Outcome)
      modifies this
      ensures CreateResult(State(), replies, outcome) == MemoryTables.CreateSegment(old(State()), id, pid, size)
    {
      replies := [];
      if size > maxSegmentSize {
        replies := [SegmentSizeExceeded];
      }
      var free := ComputeFreeSpace();
      if free < size {
        return replies + [NotEnoughMemory], Refused;
      }
      var chosen := SelectHole(size);
      if chosen.size == -1 {
        replies := replies + [CompactionNeeded];
        if segments == [] {
          return replies, Crashed;
        }
        CompactMemory();
        replies := replies + [CompactionDone];
        chosen := SelectHole(size);
      }
      UpdateSegmentList(chosen, size, pid, id);
      return replies + [MemoryAllocated], Allocated;
    }

    // ---------- compaction.c ----------

    method CompactSegments()
      modifies this`segments
      ensures segments == Packed(old(segments), 0)
    {
      var at, i := 0, 0;
      ghost var s0 := segments;
      while i < |segments|
        invariant 0 <= i <= |segments| == |s0|
        invariant segments[i..] == s0[i..]
        invariant Packed(s0, 0) == segments[..i] + Packed(s0[i..], at)
      {
        segments := segments[i := segments[i].(base := at)];
        at := at + segments[i].size;
        i := i + 1;
      }
    }

    method CompactMemory()
      requires segments != []
      modifies this`segments, this`holes
      ensures State() == MemoryTables.CompactMemory(old(State()))
    {
      PackedLength(segments, 0);
      CompactSegments();
      var end := LastSegmentEnd(segments);
      holes := [Extent(end, totalSize - end)];
    }

    // ---------- segments.c ----------

    method FindAndRemoveSegment(id: nat, pid: nat) returns (found: Option<Segment>)
      modifies this`segments
      ensures var i := FindIndex(old(segments), id, pid);
              && segments == Drop(old(segments), i)
              && found == if 0 <= i < |old(segments)| then Some(old(segments)[i]) else None
    {
      var i := 0;
      while i < |segments| && !(segments[i].id == id && segments[i].pid == pid)
        invariant 0 <= i <= |segments|
        invariant var r := FindIndex(segments[i..], id, pid);
                  FindIndex(segments, id, pid) == if r == -1 then -1 else r + i
      {
        assert segments[i..][1..] == segments[i + 1..];
        i := i + 1;
      }
      if i < |segments| {
        found := Some(segments[i]);
        segments := Drop(segments, i);
      } else {
        found := None;
      }
    }

    /** One scan settles both neighbours. */
    method FindAdjacentHoleIndices(e: Extent) returns (before: int, after: int)
      ensures before == LastEndingAt(holes, e.base)
      ensures after == LastStartingAt(holes, e.End())
    {
      before, after := -1, -1;
      for i := 0 to |holes|
        invariant before == LastEndingAt(holes[..i], e.base)
        invariant after == LastStartingAt(holes[..i], e.End())
      {
        assert holes[..i + 1][..i] == holes[..i];
        if holes[i].End() == e.base { before := i; }
        if holes[i].base == e.End() { after := i; }
      }
      assert holes[..|holes|] == holes;
    }

    /** Takes the neighbouring holes out of the table, the higher index first, and returns the
        extent that e and they make up. */
    method AbsorbNeighbours(e: Extent, before: int, after: int) returns (merged: Extent)
      requires -1 <= before < |holes| && -1 <= after < |holes|
      modifies this`holes
      ensures holes == WithoutNeighbours(old(holes), before, after)
      ensures merged == Merged(old(holes), e, before, after)
    {
      merged := e;
      if before != -1 && after != -1 {
        merged := Extent(holes[before].base, e.size + holes[before].size + holes[after].size);
        if before < after {
          holes := Drop(holes, after);
          holes := Drop(holes, before);
        } else {
          holes := Drop(holes, before);
          holes := Drop(holes, after);
        }
      } else if before != -1 {
        merged := Extent(holes[before].base, e.size + holes[before].size);
        holes := Drop(holes, before);
      } else if after != -1 {
        merged := Extent(e.base, e.size + holes[after].size);
        holes := Drop(holes, after);
      }
    }

    method RemoveSegment(id: nat, pid: nat)
      modifies this`segments, this`holes
      ensures State() == MemoryTables.RemoveSegment(old(State()), id, pid)
    {
      var found := FindAndRemoveSegment(id, pid);
      if found.None? {
        return;
      }
      var e := Place(found.value);
      var before, after := FindAdjacentHoleIndices(e);
      var merged := AbsorbNeighbours(e, before, after);
      holes := holes + [merged];
    }

    method FilterProcessSegments(pid: nat) returns (mine: seq<Segment>)
      ensures mine == OfProcess(segments, pid)
    {
      mine := [];
      for i := 0 to |segments|
        invariant mine + OfProcess(segments[i..], pid) == OfProcess(segments, pid)
      {
        assert segments[i..][1..] == segments[i + 1..];
        if segments[i].pid == pid {
          mine := mine + [segments[i]];
        }
      }
    }

    method FindSegment(pid: nat, ordinal: nat) returns (found: Option<Segment>)
      ensures found == MemoryTables.FindSegment(segments, pid, ordinal)
    {
      var count := 0;
      for i := 0 to |segments|
        invariant 0 <= count <= ordinal
        invariant count <= |OfProcess(segments, pid)|
        invariant OfProcess(segments, pid)[count..] == OfProcess(segments[i..], pid)
      {
        assert segments[i..][1..] == segments[i + 1..];
        if segments[i].pid == pid {
          if count == ordinal {
            return Some(segments[i]);
          }
          count := count + 1;
        }
      }
      return None;
    }

    method ComputeProcessSize(pid: nat) returns (size: int)
      ensures size == Total(Places(OfProcess(segments, pid)))
    {
      size := 0;
      for i := 0 to |segments|
        invariant size + Total(Places(OfProcess(segments[i..], pid))) == Total(Places(OfProcess(segments, pid)))
      {
        assert segments[i..][1..] == segments[i + 1..];
        if segments[i].pid == pid {
          assert Places(OfProcess(segments[i..], pid))[1..] == Places(OfProcess(segments[i + 1..], pid));
          size := size + segments[i].size;
        }
      }
    }

    // ---------- scheduler_listener.c ----------

    method HandleCreateSegment(id: nat, pid: nat, size: int) returns (replies: seq<Reply>, outcome: Outcome)
      modifies this
      ensures CreateResult(State(), replies, outcome) == MemoryTables.HandleCreateSegment(old(State()), id, pid, size)
    {
      if size > maxSegmentSize {
        return [SegmentSizeExceeded], Refused;
      }
      replies, outcome := CreateSegment(id, pid, size);
    }

    /** known: Kernel Memory has the process. */
    method EndProcess(pid: nat, known: bool)
      modifies this`segments, this`holes
      ensures State() == if known then MemoryTables.EndProcess(old(State()), pid) else old(State())
    {
      if !known {
        return;
      }
      var mine := FilterProcessSegments(pid);
      for i := 0 to |mine|
        invariant RemoveEach(State(), mine[i..], pid) == MemoryTables.EndProcess(old(State()), pid)
        invariant maxSegmentSize == old(State()).maxSegmentSize
      {
        assert mine[i..][1..] == mine[i + 1..];
        RemoveSegment(mine[i].id, pid);
      }
    }
  }
}
