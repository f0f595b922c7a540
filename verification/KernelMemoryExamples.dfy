/** Runs from the boot of Kernel Memory after which a compaction or an instruction of a program does
    damage, and the means to put such runs together. */
module KernelMemoryExamples {
  import opened Options
  import opened Extents
  import opened MemoryTables
  import opened AllocatorLaws
  import opened Sticks
  import opened SwapTables
  import opened ResumeLaws
  import opened KernelMemoryRuns
  import opened CpuMemory

  // ---------- one request at a time ----------

  /** Kernel Memory with these tables; segments have at most four bytes, swap blocks one. */
  function Tables(segs: seq<Segment>, holes: seq<Extent>, flat: seq<Byte>, blocks: seq<Block>, file: seq<seq<Byte>>): Km {
    Km(Memory(|flat|, 4, BestFit, segs, holes), flat, blocks, file, 1)
  }

  /** The requests lead from the boot, with n swap blocks, to this state. */
  ghost predicate Reaches(n: nat, ops: seq<Op>, km: Km) {
    && (forall op :: op in ops ==> Legal(op))
    && Running(Boot(4, BestFit, n, 1)) && Run(Boot(4, BestFit, n, 1), ops) == km
  }

  lemma {:induction false} RunAppend(km: Km, ops: seq<Op>, op: Op)
    requires Running(km) && Legal(op) && forall o :: o in ops ==> Legal(o)
    ensures Running(Step(Run(km, ops), op)) && Run(km, ops + [op]) == Step(Run(km, ops), op)
    decreases |ops|
  {
    StepKeepsRunning(Run(km, ops), op);
    if ops == [] {
      assert [] + [op] == [op] && [op][1..] == [];
    } else {
      assert (ops + [op])[1..] == ops[1..] + [op];
      StepKeepsRunning(km, ops[0]);
      RunAppend(Step(km, ops[0]), ops[1..], op);
    }
  }

  lemma Then(n: nat, ops: seq<Op>, km: Km, op: Op)
    requires Reaches(n, ops, km) && Legal(op)
    ensures Running(km) && Reaches(n, ops + [op], Step(km, op))
  {
    RunAppend(Boot(4, BestFit, n, 1), ops, op);
  }

  lemma ThenAlloc(n: nat, ops: seq<Op>, km: Km, id: nat, pid: nat, size: int, m: Memory)
    requires Reaches(n, ops, km) && size > 0 && HandleCreateSegment(km.memory, id, pid, size).memory == m
    ensures Reaches(n, ops + [Alloc(id, pid, size)], km.(memory := m))
  {
    Then(n, ops, km, Alloc(id, pid, size));
  }

  lemma ThenFree(n: nat, ops: seq<Op>, km: Km, id: nat, pid: nat, m: Memory)
    requires Reaches(n, ops, km) && RemoveSegment(km.memory, id, pid) == m
    ensures Reaches(n, ops + [FreeSegment(id, pid)], km.(memory := m))
  {
    Then(n, ops, km, FreeSegment(id, pid));
  }

  lemma ThenSuspend(n: nat, ops: seq<Op>, km: Km, pid: nat, out: Km)
    requires Reaches(n, ops, km) && SwapShape(km) && AllInRange(km, km.memory.segments)
    requires SuspendProcess(km, pid).0 == out
    ensures Reaches(n, ops + [Suspend(pid)], out)
  {
    Then(n, ops, km, Suspend(pid));
  }

  lemma ThenResume(n: nat, ops: seq<Op>, km: Km, pid: nat, out: Km)
    requires Reaches(n, ops, km) && SwapShape(km) && ResumeProcess(km, pid).0 == out
    ensures Reaches(n, ops + [Resume(pid)], out)
  {
    Then(n, ops, km, Resume(pid));
  }

  // ---------- loading an empty memory ----------

  /** A segment that is asked for. */
  datatype Want = Want(id: nat, pid: nat, size: nat)

  function Used(ws: seq<Want>): nat {
    if ws == [] then 0 else ws[0].size + Used(ws[1..])
  }

  function Allocs(ws: seq<Want>): seq<Op> {
    if ws == [] then [] else [Alloc(ws[0].id, ws[0].pid, ws[0].size)] + Allocs(ws[1..])
  }

  /** Where the segments come to lie, one behind the other. */
  function PlacedFrom(ws: seq<Want>, base: nat): seq<Segment> {
    if ws == [] then []
    else [Segment(ws[0].id, ws[0].pid, base, ws[0].size)] + PlacedFrom(ws[1..], base + ws[0].size)
  }

  function HoleFrom(base: int, end: int): seq<Extent> {
    if base >= end then [] else [Extent(base, end - base)]
  }

  /** Memory with the segments placed from base on. */
  function Filled(m: Memory, base: nat, end: nat, ws: seq<Want>): Memory {
    m.(segments := m.segments + PlacedFrom(ws, base), holes := HoleFrom(base + Used(ws), end))
  }

  /** Memory after a first stick and these allocations. */
  function Loaded(n: nat, flat: seq<Byte>, ws: seq<Want>): Km {
    var boot := Boot(4, BestFit, n, 1);
    Tables(PlacedFrom(ws, 0), HoleFrom(Used(ws), |flat|), flat, boot.blocks, boot.file)
  }

  function Loading(flat: seq<Byte>, ws: seq<Want>): seq<Op> {
    [AddStick(flat)] + Allocs(ws)
  }

  /** Selecting in a table with one hole. */
  lemma OnlyHole(m: Memory, hole: Extent, size: nat)
    requires m.holes == [hole] && m.strategy == BestFit && 0 < size <= hole.size
    ensures SelectedHole(m, size) == hole && FreeSpace(m) == hole.size
    ensures AfterSelect(m, size)
         == m.(holes := if hole.size == size then [] else [Extent(hole.base + size, hole.size - size)])
  {
    assert m.holes[1..] == [] && m.holes[..0] == [];
    assert ChooseHole(m.holes, size, BestFit) == hole by {
      assert ChooseHole([], size, BestFit) == NO_HOLE;
    }
    assert Total(m.holes) == hole.size;
  }

  /** The memory after an allocation out of its only hole. */
  function Taken(m: Memory, hole: Extent, id: nat, pid: nat, size: nat): Memory {
    m.(segments := m.segments + [Segment(id, pid, hole.base, size)],
       holes := HoleFrom(hole.base + size, hole.base + hole.size))
  }

  lemma AllocOutOf(n: nat, ops: seq<Op>, km: Km, hole: Extent, id: nat, pid: nat, size: nat)
    requires Reaches(n, ops, km) && km.memory.holes == [hole] && 0 < size <= hole.size && size <= km.memory.maxSegmentSize
    requires km.memory.strategy == BestFit
    ensures Reaches(n, ops + [Alloc(id, pid, size)], km.(memory := Taken(km.memory, hole, id, pid, size)))
  {
    OnlyHole(km.memory, hole, size);
    ThenAlloc(n, ops, km, id, pid, size, Taken(km.memory, hole, id, pid, size));
  }

  lemma RunStep(km: Km, op: Op, ops: seq<Op>)
    requires Running(km) && Legal(op) && forall o :: o in ops ==> Legal(o)
    ensures Running(Step(km, op)) && Run(km, [op] + ops) == Run(Step(km, op), ops)
  {
    StepKeepsRunning(km, op);
    assert ([op] + ops)[1..] == ops;
  }

  lemma {:induction false} RunAllocs(km: Km, base: nat, end: nat, ws: seq<Want>)
    requires Running(km) && km.memory.holes == HoleFrom(base, end) && base + Used(ws) <= end
    requires km.memory.strategy == BestFit && km.memory.maxSegmentSize == 4
    requires forall w :: w in ws ==> 0 < w.size <= 4
    ensures forall op :: op in Allocs(ws) ==> Legal(op)
    ensures Run(km, Allocs(ws)) == km.(memory := Filled(km.memory, base, end, ws))
    decreases |ws|
  {
    if ws == [] {
      FilledNone(km.memory, base, end);
    } else {
      var w, rest := ws[0], ws[1..];
      assert w in ws && forall v :: v in rest ==> v in ws;
      AllocStep(km, Extent(base, end - base), w.id, w.pid, w.size);
      var km1 := Step(km, Alloc(w.id, w.pid, w.size));
      RunAllocs(km1, base + w.size, end, rest);
      RunStep(km, Alloc(w.id, w.pid, w.size), Allocs(rest));
      FilledStep(km.memory, base, end, ws);
    }
  }

  lemma AllocStep(km: Km, hole: Extent, id: nat, pid: nat, size: nat)
    requires Running(km) && km.memory.holes == [hole] && 0 < size <= hole.size && size <= km.memory.maxSegmentSize
    requires km.memory.strategy == BestFit
    ensures Step(km, Alloc(id, pid, size)) == km.(memory := Taken(km.memory, hole, id, pid, size))
    ensures Running(Step(km, Alloc(id, pid, size)))
  {
    OnlyHole(km.memory, hole, size);
    StepKeepsRunning(km, Alloc(id, pid, size));
  }

  lemma FilledNone(m: Memory, base: nat, end: nat)
    requires m.holes == HoleFrom(base, end)
    ensures Filled(m, base, end, []) == m
  {
    assert m.segments + [] == m.segments;
  }

  lemma FilledStep(m: Memory, base: nat, end: nat, ws: seq<Want>)
    requires ws != [] && base < end
    ensures var w := ws[0];
            Filled(Taken(m, Extent(base, end - base), w.id, w.pid, w.size), base + w.size, end, ws[1..])
            == Filled(m, base, end, ws)
  {
    var s, rest := Segment(ws[0].id, ws[0].pid, base, ws[0].size), PlacedFrom(ws[1..], base + ws[0].size);
    assert (m.segments + [s]) + rest == m.segments + ([s] + rest);
  }

  /** From the boot: a first stick and allocations that it holds. */
  lemma LoadingLeads(n: nat, flat: seq<Byte>, ws: seq<Want>)
    requires flat != [] && Used(ws) <= |flat| && forall w :: w in ws ==> 0 < w.size <= 4
    ensures Reaches(n, Loading(flat, ws), Loaded(n, flat, ws))
  {
    var boot := Boot(4, BestFit, n, 1);
    BootIsRunning(4, BestFit, n, 1);
    StepKeepsRunning(boot, AddStick(flat));
    var km := Step(boot, AddStick(flat));
    assert boot.flat + flat == flat;
    assert km == Tables([], HoleFrom(0, |flat|), flat, boot.blocks, boot.file);
    RunAllocs(km, 0, |flat|, ws);
    RunStep(boot, AddStick(flat), Allocs(ws));
    assert [] + PlacedFrom(ws, 0) == PlacedFrom(ws, 0);
  }

  lemma LoadedTwo(v: Want, w: Want)
    ensures Used([v, w]) == v.size + w.size
    ensures PlacedFrom([v, w], 0) == [Segment(v.id, v.pid, 0, v.size), Segment(w.id, w.pid, v.size, w.size)]
  {
    assert [v, w][1..] == [w] && [w][1..] == [];
    assert Used([w]) == w.size;
    assert PlacedFrom([w], v.size) == [Segment(w.id, w.pid, v.size, w.size)];
  }

  // ---------- freeing ----------

  lemma FreeIs(m: Memory, id: nat, pid: nat, i: nat, holes: seq<Extent>)
    requires i < |m.segments| && FindIndex(m.segments, id, pid) == i && Coalesce(m.holes, Place(m.segments[i])) == holes
    ensures RemoveSegment(m, id, pid) == m.(segments := Drop(m.segments, i), holes := holes)
  {
  }

  /** Freeing the first segment in the list where no hole touches it. */
  lemma FreeFirst(m: Memory, s: Segment)
    requires m.segments != [] && m.segments[0] == s
    requires forall h :: h in m.holes ==> h.End() != s.base && h.base != Place(s).End()
    ensures RemoveSegment(m, s.id, s.pid) == m.(segments := m.segments[1..], holes := m.holes + [Place(s)])
  {
    GiveBack(m.holes, Place(s));
    FreeIs(m, s.id, s.pid, 0, m.holes + [Place(s)]);
    assert Drop(m.segments, 0) == m.segments[1..];
  }

  /** An extent that no hole touches becomes a hole of its own. */
  lemma GiveBack(holes: seq<Extent>, e: Extent)
    requires forall h :: h in holes ==> h.End() != e.base && h.base != e.End()
    ensures Coalesce(holes, e) == holes + [e]
  {
    LastEndingAtSpec(holes, e.base);
    LastStartingAtSpec(holes, e.End());
  }

  // ---------- compaction moves bases, not bytes ----------

  const THREE: seq<Byte> := [1, 2, 3]
  const PAIR: seq<Want> := [Want(0, 0, 1), Want(0, 1, 1)]
  const FRAGMENTING: seq<Op> := Loading(THREE, PAIR) + [FreeSegment(0, 0)]

  /** Process 0 frees what lies in front of process 1's byte, process 2 asks for more than any hole
      holds, and after the compaction process 1 reads another byte. */
  lemma CompactionLosesBytes() returns (before: Km, after: Km)
    ensures Reaches(0, FRAGMENTING, before) && Reaches(0, FRAGMENTING + [Alloc(0, 2, 2)], after)
    ensures var s := Segment(0, 1, 1, 1);
            OfProcess(before.memory.segments, 1) == [s] && InRange(before, s) && BytesOf(before, s) == [2]
    ensures var t := Segment(0, 1, 0, 1);
            OfProcess(after.memory.segments, 1) == [t] && InRange(after, t) && BytesOf(after, t) == [1]
  {
    before := Fragmented();
    FragmentedAlloc(before.memory);
    after := before.(memory := Memory(3, 4, BestFit, [Segment(0, 1, 0, 1), Segment(0, 2, 1, 2)], []));
    ThenAlloc(0, FRAGMENTING, before, 0, 2, 2, after.memory);
    OfProcessOne(Segment(0, 1, 1, 1), 1);
    FirstOfTwo(Segment(0, 1, 0, 1), Segment(0, 2, 1, 2), 1);
  }

  lemma FirstOfTwo(s: Segment, t: Segment, pid: nat)
    requires s.pid == pid && t.pid != pid
    ensures OfProcess([s, t], pid) == [s]
  {
    OfProcessOne(s, pid);
    OfProcessOne(t, pid);
    OfProcessConcat([s], [t], pid);
    assert [s] + [t] == [s, t];
  }

  lemma Fragmented() returns (km: Km)
    ensures Reaches(0, FRAGMENTING, km) && km.flat == THREE && SwapShape(km)
    ensures km.memory == Memory(3, 4, BestFit, [Segment(0, 1, 1, 1)], [Extent(2, 1), Extent(0, 1)]) && Valid(km.memory)
  {
    LoadedTwo(PAIR[0], PAIR[1]);
    LoadingLeads(0, THREE, PAIR);
    var loaded := Loaded(0, THREE, PAIR);
    FreeFirst(loaded.memory, Segment(0, 0, 0, 1));
    var m := Memory(3, 4, BestFit, [Segment(0, 1, 1, 1)], [Extent(2, 1), Extent(0, 1)]);
    assert loaded.memory.segments[1..] == m.segments && [Extent(2, 1)] + [Extent(0, 1)] == m.holes;
    ThenFree(0, Loading(THREE, PAIR), loaded, 0, 0, m);
    km := loaded.(memory := m);
    assert Running(km) by { Then(0, FRAGMENTING, km, FreeSegment(0, 0)); }
  }

  lemma FragmentedAlloc(m: Memory)
    requires Valid(m) && m == Memory(3, 4, BestFit, [Segment(0, 1, 1, 1)], [Extent(2, 1), Extent(0, 1)])
    ensures HandleCreateSegment(m, 0, 2, 2).memory
         == Memory(3, 4, BestFit, [Segment(0, 1, 0, 1), Segment(0, 2, 1, 2)], [])
  {
    EnoughSpaceSuffices(m, 0, 2, 2);
  }

  // ---------- a base that grows ----------

  const FIVE: seq<Byte> := [1, 2, 3, 4, 5]
  const SCATTERING: seq<Op> :=
    Loading(FIVE, PAIR) + [FreeSegment(0, 0)] + [Alloc(0, 2, 1)] + [Alloc(0, 3, 1)] + [Alloc(0, 4, 1)] + [FreeSegment(0, 3)]

  /** Process 2's byte lies at address 0 but behind process 1's in the list, and a compaction moves it
      up to address 1. */
  lemma BaseGrows() returns (before: Km, after: Km)
    ensures Reaches(0, SCATTERING, before) && Reaches(0, SCATTERING + [Alloc(0, 5, 2)], after)
    ensures before.memory.segments == [Segment(0, 1, 1, 1), Segment(0, 2, 0, 1), Segment(0, 4, 3, 1)]
    ensures after.memory.segments
         == [Segment(0, 1, 0, 1), Segment(0, 2, 1, 1), Segment(0, 4, 2, 1), Segment(0, 5, 3, 2)]
  {
    before := Scattered();
    ScatteredAlloc(before.memory);
    after := before.(memory := HandleCreateSegment(before.memory, 0, 5, 2).memory);
    ThenAlloc(0, SCATTERING, before, 0, 5, 2, after.memory);
  }

  function Five(segs: seq<Segment>, holes: seq<Extent>): Memory {
    Memory(5, 4, BestFit, segs, holes)
  }

  lemma FrontFreed() returns (km: Km)
    ensures Reaches(0, Loading(FIVE, PAIR) + [FreeSegment(0, 0)], km)
    ensures km.memory == Five([Segment(0, 1, 1, 1)], [Extent(2, 3), Extent(0, 1)])
  {
    LoadedTwo(PAIR[0], PAIR[1]);
    LoadingLeads(0, FIVE, PAIR);
    var loaded := Loaded(0, FIVE, PAIR);
    FreeFirst(loaded.memory, Segment(0, 0, 0, 1));
    var m := Five([Segment(0, 1, 1, 1)], [Extent(2, 3), Extent(0, 1)]);
    assert loaded.memory.segments[1..] == m.segments && [Extent(2, 3)] + [Extent(0, 1)] == m.holes;
    ThenFree(0, Loading(FIVE, PAIR), loaded, 0, 0, m);
    km := loaded.(memory := m);
  }

  /** Best fit takes the smaller of two holes. */
  lemma SmallerHole(m: Memory)
    requires m == Five([Segment(0, 1, 1, 1)], [Extent(2, 3), Extent(0, 1)])
    ensures HandleCreateSegment(m, 0, 2, 1).memory == Five([Segment(0, 1, 1, 1), Segment(0, 2, 0, 1)], [Extent(2, 3)])
  {
    var big := Extent(2, 3);
    assert ChooseHole(m.holes, 1, BestFit) == Extent(0, 1) by {
      assert m.holes[..1] == [big] && [big][..0] == [];
      assert ChooseHole([], 1, BestFit) == NO_HOLE;
      assert ChooseHole([big], 1, BestFit) == big;
    }
    assert Carve(m.holes, 0, 1) == [big] by {
      assert m.holes[1..] == [Extent(0, 1)] && [Extent(0, 1)][1..] == [];
      assert Carve([Extent(0, 1)], 0, 1) == [];
      assert [big] + [] == [big];
    }
    assert FreeSpace(m) == 4 by {
      assert m.holes[1..] == [Extent(0, 1)] && [Extent(0, 1)][1..] == [];
      assert Total([Extent(0, 1)]) == 1;
    }
  }

  lemma FrontTaken() returns (km: Km)
    ensures Reaches(0, Loading(FIVE, PAIR) + [FreeSegment(0, 0)] + [Alloc(0, 2, 1)], km)
    ensures km.memory == Five([Segment(0, 1, 1, 1), Segment(0, 2, 0, 1)], [Extent(2, 3)])
  {
    var freed := FrontFreed();
    SmallerHole(freed.memory);
    km := freed.(memory := Five([Segment(0, 1, 1, 1), Segment(0, 2, 0, 1)], [Extent(2, 3)]));
    ThenAlloc(0, Loading(FIVE, PAIR) + [FreeSegment(0, 0)], freed, 0, 2, 1, km.memory);
  }

  lemma FourLoaded() returns (km: Km)
    ensures Reaches(0, Loading(FIVE, PAIR) + [FreeSegment(0, 0)] + [Alloc(0, 2, 1)] + [Alloc(0, 3, 1)] + [Alloc(0, 4, 1)], km)
    ensures km.memory
         == Five([Segment(0, 1, 1, 1), Segment(0, 2, 0, 1), Segment(0, 3, 2, 1), Segment(0, 4, 3, 1)], [Extent(4, 1)])
  {
    var ops := Loading(FIVE, PAIR) + [FreeSegment(0, 0)] + [Alloc(0, 2, 1)];
    var two := FrontTaken();
    AllocOutOf(0, ops, two, Extent(2, 3), 0, 3, 1);
    var three := two.(memory := Taken(two.memory, Extent(2, 3), 0, 3, 1));
    AllocOutOf(0, ops + [Alloc(0, 3, 1)], three, Extent(3, 2), 0, 4, 1);
    km := three.(memory := Taken(three.memory, Extent(3, 2), 0, 4, 1));
  }

  lemma Scattered() returns (km: Km)
    ensures Reaches(0, SCATTERING, km) && Valid(km.memory)
    ensures km.memory
         == Five([Segment(0, 1, 1, 1), Segment(0, 2, 0, 1), Segment(0, 4, 3, 1)], [Extent(4, 1), Extent(2, 1)])
  {
    var four := FourLoaded();
    SecondFreed(four.memory);
    km := four.(memory := Five([Segment(0, 1, 1, 1), Segment(0, 2, 0, 1), Segment(0, 4, 3, 1)], [Extent(4, 1), Extent(2, 1)]));
    ThenFree(0, Loading(FIVE, PAIR) + [FreeSegment(0, 0)] + [Alloc(0, 2, 1)] + [Alloc(0, 3, 1)] + [Alloc(0, 4, 1)],
             four, 0, 3, km.memory);
    assert Running(km) by { Then(0, SCATTERING, km, FreeSegment(0, 0)); }
  }

  lemma SecondFreed(m: Memory)
    requires m == Five([Segment(0, 1, 1, 1), Segment(0, 2, 0, 1), Segment(0, 3, 2, 1), Segment(0, 4, 3, 1)], [Extent(4, 1)])
    ensures RemoveSegment(m, 0, 3)
         == Five([Segment(0, 1, 1, 1), Segment(0, 2, 0, 1), Segment(0, 4, 3, 1)], [Extent(4, 1), Extent(2, 1)])
  {
    FindIndexSpec(m.segments, 0, 3);
    assert m.segments[2] == Segment(0, 3, 2, 1);
    assert FindIndex(m.segments, 0, 3) == 2;
    FreeIs(m, 0, 3, 2, [Extent(4, 1), Extent(2, 1)]) by {
      GiveBack(m.holes, Extent(2, 1));
      assert m.holes + [Extent(2, 1)] == [Extent(4, 1), Extent(2, 1)];
    }
    assert Drop(m.segments, 2) == [Segment(0, 1, 1, 1), Segment(0, 2, 0, 1), Segment(0, 4, 3, 1)];
  }

  lemma ScatteredAlloc(m: Memory)
    requires Valid(m)
    requires m == Five([Segment(0, 1, 1, 1), Segment(0, 2, 0, 1), Segment(0, 4, 3, 1)], [Extent(4, 1), Extent(2, 1)])
    ensures HandleCreateSegment(m, 0, 5, 2).memory.segments
         == [Segment(0, 1, 0, 1), Segment(0, 2, 1, 1), Segment(0, 4, 2, 1), Segment(0, 5, 3, 2)]
  {
    assert FreeSpace(m) == 2 by {
      assert m.holes[1..] == [Extent(2, 1)] && [Extent(2, 1)][1..] == [];
      assert Total([Extent(2, 1)]) == 1;
    }
    ChosenFits(m, 2);
    assert AfterSelect(m, 2) == m by { NoSuchBase(m.holes, -1, 2); }
    AllGathered(m);
  }

  lemma AllGathered(m: Memory)
    requires m.segments == [Segment(0, 1, 1, 1), Segment(0, 2, 0, 1), Segment(0, 4, 3, 1)] && m.totalSize == 5
    requires m.strategy == BestFit
    ensures var c := CompactMemory(m);
            && c.segments == [Segment(0, 1, 0, 1), Segment(0, 2, 1, 1), Segment(0, 4, 2, 1)] && c.holes == [Extent(3, 2)]
            && SelectedHole(c, 2) == Extent(3, 2)
  {
    var a, b, e := Segment(0, 1, 1, 1), Segment(0, 2, 0, 1), Segment(0, 4, 3, 1);
    assert m.segments[1..] == [b, e] && [b, e][1..] == [e] && [e][1..] == [];
    assert Packed([e], 2) == [e.(base := 2)];
    assert Packed([b, e], 1) == [b.(base := 1), e.(base := 2)];
    assert Packed(m.segments, 0) == [a.(base := 0), b.(base := 1), e.(base := 2)];
    OnlyHole(CompactMemory(m), Extent(3, 2), 2);
  }

  // ---------- COPY_MEM ----------

  const TWELVE: seq<Byte> := [1, 2, 3, 4, 5, 6, 7, 8, 9, 10, 11, 12]
  const COPIED: seq<Byte> := [1, 2, 3, 4, 1, 2, 3, 4, 5, 6, 7, 8]
  const THREE_SEGMENTS: seq<Want> := [Want(0, 0, 4), Want(1, 0, 4), Want(0, 1, 4)]

  /** Process 0 copies eight bytes between two segments of four: every word check passes, and the
      second half lands in process 1's segment. */
  lemma CopyReachesOthers() returns (km: Km, copied: Km)
    ensures Reaches(0, Loading(TWELVE, THREE_SEGMENTS), km) && copied == km.(flat := COPIED)
    ensures (COPIED, Proceeds) == CopyMem(OfProcess(km.memory.segments, 0), 4, km.flat, 0, 4, 8)
    ensures var t := Segment(0, 1, 8, 4);
            && OfProcess(km.memory.segments, 1) == [t] && InRange(km, t) && InRange(copied, t)
            && BytesOf(km, t) == [9, 10, 11, 12] && BytesOf(copied, t) == [5, 6, 7, 8]
  {
    LoadedThree();
    LoadingLeads(0, TWELVE, THREE_SEGMENTS);
    km := Loaded(0, TWELVE, THREE_SEGMENTS);
    copied := km.(flat := COPIED);
    CopyViews(km, copied);
  }

  lemma CopyViews(km: Km, copied: Km)
    requires km.memory.segments == [Segment(0, 0, 0, 4), Segment(1, 0, 4, 4), Segment(0, 1, 8, 4)]
    requires km.flat == TWELVE && copied == km.(flat := COPIED)
    ensures (COPIED, Proceeds) == CopyMem(OfProcess(km.memory.segments, 0), 4, km.flat, 0, 4, 8)
    ensures var t := Segment(0, 1, 8, 4);
            && OfProcess(km.memory.segments, 1) == [t] && InRange(km, t) && InRange(copied, t)
            && BytesOf(km, t) == [9, 10, 11, 12] && BytesOf(copied, t) == [5, 6, 7, 8]
  {
    var s, d, t := Segment(0, 0, 0, 4), Segment(1, 0, 4, 4), Segment(0, 1, 8, 4);
    TableOf(s, d, t, 0);
    TableOf(s, d, t, 1);
    CopyEight([s, d]);
  }

  lemma LoadedThree()
    ensures Used(THREE_SEGMENTS) == 12
    ensures PlacedFrom(THREE_SEGMENTS, 0) == [Segment(0, 0, 0, 4), Segment(1, 0, 4, 4), Segment(0, 1, 8, 4)]
  {
    var v, w := Want(1, 0, 4), Want(0, 1, 4);
    assert THREE_SEGMENTS[1..] == [v, w] && [v, w][1..] == [w] && [w][1..] == [];
    assert Used([w]) == 4 && PlacedFrom([w], 8) == [Segment(0, 1, 8, 4)];
    assert Used([v, w]) == 8 && PlacedFrom([v, w], 4) == [Segment(1, 0, 4, 4), Segment(0, 1, 8, 4)];
  }

  lemma TableOf(s: Segment, d: Segment, t: Segment, pid: nat)
    requires s.pid == d.pid == 0 && t.pid == 1
    ensures OfProcess([s, d, t], pid) == if pid == 0 then [s, d] else if pid == 1 then [t] else []
  {
    OfProcessOne(s, pid);
    OfProcessOne(d, pid);
    OfProcessOne(t, pid);
    OfProcessConcat([s], [d], pid);
    OfProcessConcat([s, d], [t], pid);
    assert [s] + [d] == [s, d] && [s, d] + [t] == [s, d, t];
  }

  lemma CopyEight(table: seq<Segment>)
    requires table == [Segment(0, 0, 0, 4), Segment(1, 0, 4, 4)]
    ensures CopyMem(table, 4, TWELVE, 0, 4, 8) == (COPIED, Proceeds)
  {
    assert Mmu(table, 4, 0, WORD) == Physical(0);
    assert FindSegmentById(table, 1) == Some(table[1]);
    assert Mmu(table, 4, 4, WORD) == Physical(4);
    assert Store(TWELVE, 4, TWELVE[0..8]) == COPIED;
  }
}
