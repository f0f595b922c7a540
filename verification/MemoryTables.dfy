/** Kernel Memory's allocator: the hole table, the segment list and compaction
    (holes.c, segments.c, compaction.c), as functions on the tables' values.

    MainMemoryObject.dfy has the object that updates the tables in place. */
module MemoryTables {
  import opened Extents
  import opened Options

  datatype Segment = Segment(id: nat, pid: nat, base: int, size: int)

  /** Unsupported stands for the -1 that an unknown configuration string yields. */
  datatype Strategy = BestFit | WorstFit | Unsupported

  datatype Memory = Memory(
    totalSize: int,
    maxSegmentSize: int,
    strategy: Strategy,
    segments: seq<Segment>,
    holes: seq<Extent>)

  /** Messages that the allocation handler sends to the scheduler, in order. */
  datatype Reply =
    | SegmentSizeExceeded
    | NotEnoughMemory
    | CompactionNeeded
    | CompactionDone
    | MemoryAllocated

  /** Crashed: the code reads through the null "last segment" of an empty list. */
  datatype Outcome = Allocated | Refused | Crashed

  datatype CreateResult = CreateResult(memory: Memory, replies: seq<Reply>, outcome: Outcome)

  const NO_HOLE := Extent(-1, -1)

  function Place(s: Segment): Extent {
    Extent(s.base, s.size)
  }

  function Places(segs: seq<Segment>): seq<Extent> {
    seq(|segs|, i requires 0 <= i < |segs| => Place(segs[i]))
  }

  // ---------- holes.c ----------

  function FreeSpace(m: Memory): int {
    Total(m.holes)
  }

  /** The first hole that ends at base, if any. */
  function FirstEndingAt(holes: seq<Extent>, base: int): (i: int)
    ensures -1 <= i < |holes|
  {
    if holes == [] then -1
    else if holes[0].End() == base then 0
    else var r := FirstEndingAt(holes[1..], base); if r == -1 then -1 else r + 1
  }

  function AddTotalMemory(m: Memory, n: int): Memory {
    var i := FirstEndingAt(m.holes, m.totalSize);
    m.(totalSize := m.totalSize + n,
       holes := if 0 <= i < |m.holes|
                then m.holes[i := Extent(m.holes[i].base, m.holes[i].size + n)]
                else m.holes + [Extent(m.totalSize, n)])
  }

  /** One round of the selection loop: keep the hole chosen so far or take h. */
  function Better(chosen: Extent, h: Extent, size: int, strategy: Strategy): Extent {
    if h.size < size then chosen
    else match strategy
      case BestFit => if chosen.size == -1 || chosen.size > h.size then h else chosen
      case WorstFit => if chosen.size == -1 || chosen.size < h.size then h else chosen
      case Unsupported => chosen
  }

  function ChooseHole(holes: seq<Extent>, size: int, strategy: Strategy): Extent {
    if holes == [] then NO_HOLE
    else Better(ChooseHole(holes[..|holes| - 1], size, strategy), holes[|holes| - 1], size, strategy)
  }

  /** Takes size bytes off the front of the first hole based at base. */
  function Carve(holes: seq<Extent>, base: int, size: int): seq<Extent> {
    if holes == [] then []
    else if holes[0].base == base then
      if holes[0].size == size then holes[1..]
      else [Extent(base + size, holes[0].size - size)] + holes[1..]
    else [holes[0]] + Carve(holes[1..], base, size)
  }

  function SelectedHole(m: Memory, size: int): Extent {
    if m.strategy.Unsupported? then NO_HOLE else ChooseHole(m.holes, size, m.strategy)
  }

  function AfterSelect(m: Memory, size: int): Memory {
    if m.strategy.Unsupported? then m
    else m.(holes := Carve(m.holes, SelectedHole(m, size).base, size))
  }

  function AppendSegment(m: Memory, hole: Extent, size: int, pid: nat, id: nat): Memory {
    m.(segments := m.segments + [Segment(id, pid, hole.base, size)])
  }

  function CreateSegment(m: Memory, id: nat, pid: nat, size: int): CreateResult {
    var early := if size > m.maxSegmentSize then [SegmentSizeExceeded] else [];
    if FreeSpace(m) < size then
      CreateResult(m, early + [NotEnoughMemory], Refused)
    else
      var hole := SelectedHole(m, size);
      var m1 := AfterSelect(m, size);
      if hole.size != -1 then
        CreateResult(AppendSegment(m1, hole, size, pid, id), early + [MemoryAllocated], Allocated)
      else if m1.segments == [] then
        CreateResult(m1, early + [CompactionNeeded], Crashed)
      else
        var m2 := CompactMemory(m1);
        CreateResult(AppendSegment(AfterSelect(m2, size), SelectedHole(m2, size), size, pid, id),
                     early + [CompactionNeeded, CompactionDone, MemoryAllocated], Allocated)
  }

  /** The request handler refuses an oversized request before create_segment sees it. */
  function HandleCreateSegment(m: Memory, id: nat, pid: nat, size: int): CreateResult {
    if size > m.maxSegmentSize then CreateResult(m, [SegmentSizeExceeded], Refused)
    else CreateSegment(m, id, pid, size)
  }

  // ---------- compaction.c ----------

  /** The segments re-based one after another, in list order, from address at. */
  function Packed(segs: seq<Segment>, at: int): seq<Segment> {
    if segs == [] then []
    else [segs[0].(base := at)] + Packed(segs[1..], at + segs[0].size)
  }

  function LastSegmentEnd(segs: seq<Segment>): int
    requires segs != []
  {
    Place(segs[|segs| - 1]).End()
  }

  lemma {:induction false} PackedLength(segs: seq<Segment>, at: int)
    ensures |Packed(segs, at)| == |segs|
  {
    if segs != [] {
      PackedLength(segs[1..], at + segs[0].size);
    }
  }

  function CompactMemory(m: Memory): Memory
    requires m.segments != []
  {
    PackedLength(m.segments, 0);
    var segs := Packed(m.segments, 0);
    var end := LastSegmentEnd(segs);
    m.(segments := segs, holes := [Extent(end, m.totalSize - end)])
  }

  // ---------- segments.c ----------

  function FindIndex(segs: seq<Segment>, id: nat, pid: nat): (i: int)
    ensures -1 <= i < |segs|
  {
    if segs == [] then -1
    else if segs[0].id == id && segs[0].pid == pid then 0
    else var r := FindIndex(segs[1..], id, pid); if r == -1 then -1 else r + 1
  }

  /** The scan overwrites its result, so the last match wins. */
  function LastEndingAt(holes: seq<Extent>, base: int): (i: int)
    ensures -1 <= i < |holes|
  {
    if holes == [] then -1
    else if holes[|holes| - 1].End() == base then |holes| - 1
    else LastEndingAt(holes[..|holes| - 1], base)
  }

  function LastStartingAt(holes: seq<Extent>, base: int): (i: int)
    ensures -1 <= i < |holes|
  {
    if holes == [] then -1
    else if holes[|holes| - 1].base == base then |holes| - 1
    else LastStartingAt(holes[..|holes| - 1], base)
  }

  /** The table without the two given positions; -1 stands for "no such neighbour". The higher
      index goes first, so that the lower one stays right. */
  function WithoutNeighbours(holes: seq<Extent>, b: int, a: int): seq<Extent> {
    if b < a then Drop(Drop(holes, a), b) else Drop(Drop(holes, b), a)
  }

  /** Extent e joined with the neighbour before it and the one after it, where they exist. */
  function Merged(holes: seq<Extent>, e: Extent, b: int, a: int): Extent {
    Extent(
      if 0 <= b < |holes| then holes[b].base else e.base,
      e.size + (if 0 <= b < |holes| then holes[b].size else 0) + (if 0 <= a < |holes| then holes[a].size else 0))
  }

  /** Gives extent e back to the hole table, merging it with its neighbours. */
  function Coalesce(holes: seq<Extent>, e: Extent): seq<Extent> {
    var b := LastEndingAt(holes, e.base);
    var a := LastStartingAt(holes, e.End());
    WithoutNeighbours(holes, b, a) + [Merged(holes, e, b, a)]
  }

  function RemoveSegment(m: Memory, id: nat, pid: nat): Memory {
    var i := FindIndex(m.segments, id, pid);
    if 0 <= i < |m.segments| then
      m.(segments := Drop(m.segments, i), holes := Coalesce(m.holes, Place(m.segments[i])))
    else m
  }

  /** The segments of one process, in list order. */
  function OfProcess(segs: seq<Segment>, pid: nat): seq<Segment> {
    if segs == [] then []
    else if segs[0].pid == pid then [segs[0]] + OfProcess(segs[1..], pid)
    else OfProcess(segs[1..], pid)
  }

  /** Kernel Memory looks a segment up by its ordinal within the process. */
  function FindSegment(segs: seq<Segment>, pid: nat, ordinal: nat): Option<Segment> {
    if ordinal < |OfProcess(segs, pid)| then Some(OfProcess(segs, pid)[ordinal]) else None
  }

  function RemoveEach(m: Memory, list: seq<Segment>, pid: nat): Memory
    decreases |list|
  {
    if list == [] then m else RemoveEach(RemoveSegment(m, list[0].id, pid), list[1..], pid)
  }

  function EndProcess(m: Memory, pid: nat): Memory {
    RemoveEach(m, OfProcess(m.segments, pid), pid)
  }

  // ---------- what the tables promise ----------

  /** Every address of [0, totalSize) lies in exactly one hole or segment, no other in any. */
  ghost predicate Tiles(m: Memory) {
    forall a :: Cover(m.holes, a) + Cover(Places(m.segments), a) == if 0 <= a < m.totalSize then 1 else 0
  }

  ghost predicate Valid(m: Memory) {
    && 0 <= m.totalSize
    && Tiles(m)
    && AllPositive(m.holes)
    && AllPositive(Places(m.segments))
    && Apart(m.holes)
  }

  /** A process's segments have the ids 0, 1, 2, ... in list order. */
  ghost predicate IdsAreOrdinals(table: seq<Segment>) {
    forall i :: 0 <= i < |table| ==> table[i].id == i
  }

  ghost predicate DistinctIds(list: seq<Segment>) {
    forall a, b :: 0 <= a < b < |list| ==> list[a].id != list[b].id
  }

  /** What a segment is apart from where it lies. */
  function Shape(s: Segment): (nat, nat, int) {
    (s.id, s.pid, s.size)
  }

  function Shapes(segs: seq<Segment>): seq<(nat, nat, int)> {
    seq(|segs|, i requires 0 <= i < |segs| => Shape(segs[i]))
  }
}
