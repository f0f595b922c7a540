/** Runs from the boot of Kernel Memory after which swapping does damage. */
module SwapExamples {
  import opened Options
  import opened Extents
  import opened MemoryTables
  import opened AllocatorLaws
  import opened Sticks
  import opened SwapTables
  import opened SuspendLaws
  import opened ResumeLaws
  import opened KernelMemoryRuns
  import opened BlockOrder
  import opened OrdinalLaws
  import opened CpuMemory
  import opened KernelMemoryExamples

  // ---------- putting a suspension together ----------

  lemma InRangeTwo(km: Km, s: Segment, t: Segment)
    requires 0 <= s.base && 0 < s.size && s.base + s.size <= |km.flat|
    requires 0 <= t.base && 0 < t.size && t.base + t.size <= |km.flat|
    ensures AllInRange(km, [s]) && AllInRange(km, [s, t])
  {
  }

  lemma BlankSwap(n: nat)
    requires n == 1 || n == 2 || n == 3
    ensures var boot := Boot(4, BestFit, n, 1);
            && boot.blocks == (if n == 1 then [Free] else if n == 2 then [Free, Free] else [Free, Free, Free])
            && boot.file == (if n == 1 then [[0]] else if n == 2 then [[0], [0]] else [[0], [0], [0]])
  {
    assert Zeros(1) == [0];
  }

  lemma SuspensionIs(km: Km, pid: nat, mine: seq<Segment>, km1: Km, m: Memory)
    requires SwapShape(km) && AllInRange(km, km.memory.segments) && OfProcess(km.memory.segments, pid) == mine != []
    requires AllInRange(km, mine) && SuspendEach(km, mine) == (km1, true)
    requires RemoveEach(km1.memory, mine, pid) == m
    ensures SuspendProcess(km, pid) == (km1.(memory := m), true)
  {
  }

  /** Suspending one segment after another. */
  lemma EachOne(km: Km, s: Segment, km1: Km)
    requires SwapShape(km) && AllInRange(km, [s]) && InRange(km, s) && SuspendSegment(km, s, 0) == (km1, true)
    ensures SuspendEach(km, [s]) == (km1, true)
  {
    EachStep(km, [s]);
    assert [s][1..] == [];
  }

  lemma EachTwo(km: Km, s: Segment, t: Segment, km1: Km, km2: Km)
    requires SwapShape(km) && AllInRange(km, [s, t]) && InRange(km, s) && SuspendSegment(km, s, 0) == (km1, true)
    requires SwapShape(km1) && InRange(km1, t) && AllInRange(km1, [t]) && SuspendSegment(km1, t, 0) == (km2, true)
    ensures SuspendEach(km, [s, t]) == (km2, true)
  {
    EachStep(km, [s, t]);
    assert [s, t][1..] == [t];
    EachOne(km1, t, km2);
  }

  /** A segment of one byte goes to the lowest free block. */
  lemma SuspendOneByte(km: Km, s: Segment, b: nat)
    requires SwapShape(km) && km.blockSize == 1 && InRange(km, s) && s.size == 1
    requires b < |km.blocks| && FindFreeBlock(km.blocks) == b
    ensures SuspendSegment(km, s, 0)
         == (km.(blocks := km.blocks[b := Claimed(s.pid, s.id, 0, 1)], file := km.file[b := [km.flat[s.base]]]), true)
  {
    assert PartContent(km, s, 0) == [km.flat[s.base]];
    var km1 := ClaimBlock(km, b, s, 0);
    assert SuspendSegment(km1, s, 1) == (km1, true);
  }

  /** A segment of two bytes goes to the two lowest free blocks. */
  lemma SuspendTwoBytes(km: Km, s: Segment, b: nat, c: nat)
    requires SwapShape(km) && km.blockSize == 1 && InRange(km, s) && s.size == 2
    requires b < |km.blocks| && FindFreeBlock(km.blocks) == b && c < |km.blocks|
    requires FindFreeBlock(km.blocks[b := Claimed(s.pid, s.id, 0, 2)]) == c
    ensures SuspendSegment(km, s, 0)
         == (km.(blocks := km.blocks[b := Claimed(s.pid, s.id, 0, 2)][c := Claimed(s.pid, s.id, 1, 2)],
                 file := km.file[b := [km.flat[s.base]]][c := [km.flat[s.base + 1]]]), true)
  {
    assert PartContent(km, s, 0) == [km.flat[s.base]];
    var km1 := ClaimBlock(km, b, s, 0);
    assert PartContent(km1, s, 1) == [km.flat[s.base + 1]];
    var km2 := ClaimBlock(km1, c, s, 1);
    assert SuspendSegment(km2, s, 2) == (km2, true);
    assert SuspendSegment(km1, s, 1) == (km2, true);
  }

  /** Freeing the first segment of a memory that it fills together with others. */
  lemma FreeOnly(m: Memory, s: Segment)
    requires m.segments != [] && m.segments[0] == s && m.holes == []
    ensures RemoveEach(m, [s], s.pid) == m.(segments := m.segments[1..], holes := [Place(s)])
  {
    FreeFirst(m, s);
    assert [] + [Place(s)] == [Place(s)];
    assert [s][1..] == [];
  }

  // ---------- blocks out of order ----------

  const FOUR: seq<Byte> := [1, 2, 3, 4]
  const TWO_BY_TWO: seq<Want> := [Want(0, 1, 2), Want(0, 0, 2)]
  const ONE_OUT: seq<Op> := Loading(FOUR, TWO_BY_TWO) + [Suspend(1)]
  const LEFT_BEHIND: seq<Op> := ONE_OUT + [Suspend(0)]
  const ONE_BACK: seq<Op> := LEFT_BEHIND + [Resume(1)]

  const MINE: Segment := Segment(0, 0, 2, 2)
  const THEIRS: Segment := Segment(0, 1, 0, 2)

  /** Process 1 fills two of three blocks, process 0's suspension fails and keeps the third, process 1
      comes back, and process 0's next suspension succeeds with its first part stored twice. */
  lemma LeftoverBlocksBreakOrder() returns (km: Km)
    ensures Reaches(3, ONE_BACK + [Suspend(0)], km)
    ensures SwapShape(km) && !PartsInOrder(Stored(km, 0)) && !InOrder(Stored(km, 0))
  {
    var back := OneBack();
    SuspendAgain(back);
    km := Tables([THEIRS], [Extent(2, 2)], FOUR, [Claimed(0, 0, 0, 2), Claimed(0, 0, 1, 2), Claimed(0, 0, 0, 2)], [[3], [4], [3]]);
    ThenSuspend(3, ONE_BACK, back, 0, km);
    StoredTwice(km);
  }

  lemma OneOut() returns (km: Km)
    ensures Reaches(3, ONE_OUT, km)
    ensures km == Tables([MINE], [Extent(0, 2)], FOUR, [Claimed(1, 0, 0, 2), Claimed(1, 0, 1, 2), Free], [[1], [2], [0]])
  {
    LoadedTwo(TWO_BY_TWO[0], TWO_BY_TWO[1]);
    LoadingLeads(3, FOUR, TWO_BY_TWO);
    BlankSwap(3);
    var loaded := Loaded(3, FOUR, TWO_BY_TWO);
    assert loaded.memory.segments == [THEIRS, MINE];
    SuspendOne(loaded);
    km := Tables([MINE], [Extent(0, 2)], FOUR, [Claimed(1, 0, 0, 2), Claimed(1, 0, 1, 2), Free], [[1], [2], [0]]);
    ThenSuspend(3, Loading(FOUR, TWO_BY_TWO), loaded, 1, km);
  }

  lemma LeftBehind() returns (km: Km)
    ensures Reaches(3, LEFT_BEHIND, km)
    ensures km == Tables([MINE], [Extent(0, 2)], FOUR,
                         [Claimed(1, 0, 0, 2), Claimed(1, 0, 1, 2), Claimed(0, 0, 0, 2)], [[1], [2], [3]])
  {
    var out := OneOut();
    SuspendFails(out);
    km := Tables([MINE], [Extent(0, 2)], FOUR, [Claimed(1, 0, 0, 2), Claimed(1, 0, 1, 2), Claimed(0, 0, 0, 2)], [[1], [2], [3]]);
    ThenSuspend(3, ONE_OUT, out, 0, km);
  }

  lemma OneBack() returns (km: Km)
    ensures Reaches(3, ONE_BACK, km)
    ensures km == Tables([MINE, THEIRS], [], FOUR, [Free, Free, Claimed(0, 0, 0, 2)], [[1], [2], [3]])
  {
    var left := LeftBehind();
    ResumeOne(left);
    km := Tables([MINE, THEIRS], [], FOUR, [Free, Free, Claimed(0, 0, 0, 2)], [[1], [2], [3]]);
    ThenResume(3, LEFT_BEHIND, left, 1, km);
  }

  lemma SuspendOne(km: Km)
    requires km == Tables([THEIRS, MINE], [], FOUR, [Free, Free, Free], [[0], [0], [0]])
    ensures SwapShape(km) && AllInRange(km, km.memory.segments)
    ensures SuspendProcess(km, 1).0
         == Tables([MINE], [Extent(0, 2)], FOUR, [Claimed(1, 0, 0, 2), Claimed(1, 0, 1, 2), Free], [[1], [2], [0]])
  {
    FirstOfTwo(THEIRS, MINE, 1);
    InRangeTwo(km, THEIRS, MINE);
    SuspendTwoBytes(km, THEIRS, 0, 1);
    var km1 := km.(blocks := [Claimed(1, 0, 0, 2), Claimed(1, 0, 1, 2), Free], file := [[1], [2], [0]]);
    assert km.blocks[0 := Claimed(1, 0, 0, 2)][1 := Claimed(1, 0, 1, 2)] == km1.blocks;
    assert km.file[0 := [1]][1 := [2]] == km1.file;
    EachOne(km, THEIRS, km1);
    FreeOnly(km.memory, THEIRS);
    assert [THEIRS, MINE][1..] == [MINE];
    SuspensionIs(km, 1, [THEIRS], km1, Memory(4, 4, BestFit, [MINE], [Extent(0, 2)]));
  }

  lemma SuspendFails(km: Km)
    requires km == Tables([MINE], [Extent(0, 2)], FOUR, [Claimed(1, 0, 0, 2), Claimed(1, 0, 1, 2), Free], [[1], [2], [0]])
    ensures SwapShape(km) && AllInRange(km, km.memory.segments)
    ensures SuspendProcess(km, 0).0
         == Tables([MINE], [Extent(0, 2)], FOUR, [Claimed(1, 0, 0, 2), Claimed(1, 0, 1, 2), Claimed(0, 0, 0, 2)], [[1], [2], [3]])
  {
    OfProcessOne(MINE, 0);
    InRangeTwo(km, MINE, MINE);
    assert PartContent(km, MINE, 0) == [3];
    FindFreeBlockSpec(km.blocks);
    var km1 := ClaimBlock(km, 2, MINE, 0);
    FindFreeBlockSpec(km1.blocks);
    assert SuspendSegment(km1, MINE, 1) == (km1, false);
    assert SuspendEach(km, [MINE]) == (km1, false) by { EachStep(km, [MINE]); }
  }

  lemma ResumeOne(km: Km)
    requires km == Tables([MINE], [Extent(0, 2)], FOUR,
                          [Claimed(1, 0, 0, 2), Claimed(1, 0, 1, 2), Claimed(0, 0, 0, 2)], [[1], [2], [3]])
    ensures SwapShape(km)
    ensures ResumeProcess(km, 1).0 == Tables([MINE, THEIRS], [], FOUR, [Free, Free, Claimed(0, 0, 0, 2)], [[1], [2], [3]])
  {
    var segs, rest := [MINE, THEIRS], Claimed(0, 0, 0, 2);
    var km1 := Tables(segs, [], FOUR, [Free, Claimed(1, 0, 1, 2), rest], km.file);
    var km2 := Tables(segs, [], FOUR, [Free, Free, rest], km.file);
    FoundLast();
    OnlyHole(km.memory, Extent(0, 2), 2);
    assert RegenerateSegment(km.memory, 0, 1, 2) == (km1.memory, true) by {
      assert km.memory.segments + [THEIRS] == segs;
    }
    assert ResumeBlock(km, 0, 1) == (km1, Resumed) by {
      assert Store(km.flat, 0, km.file[0][..1]) == km.flat && km.blocks[0 := Free] == km1.blocks;
    }
    assert ResumeBlock(km1, 1, 1) == (km2, Resumed) by {
      assert Store(km.flat, 1, km.file[1][..1]) == km.flat && km1.blocks[1 := Free] == km2.blocks;
    }
    assert ResumeFrom(km2, 2, 1) == (km2, Resumed);
    assert ResumeFrom(km1, 1, 1) == (km2, Resumed);
    assert SizeInSwap(km.blocks, 1, 1) == 0 && SizeInSwap(km.blocks, 1, 0) == 2;
    assert OwnedBy(km.blocks[0], 1);
  }

  lemma FoundLast()
    ensures FindSegment([MINE, THEIRS], 1, 0) == Some(THEIRS)
  {
    OfProcessOne(THEIRS, 1);
    OfProcessOne(MINE, 1);
    OfProcessConcat([MINE], [THEIRS], 1);
  }

  lemma SuspendAgain(km: Km)
    requires km == Tables([MINE, THEIRS], [], FOUR, [Free, Free, Claimed(0, 0, 0, 2)], [[1], [2], [3]])
    ensures SwapShape(km) && AllInRange(km, km.memory.segments)
    ensures SuspendProcess(km, 0).0
         == Tables([THEIRS], [Extent(2, 2)], FOUR, [Claimed(0, 0, 0, 2), Claimed(0, 0, 1, 2), Claimed(0, 0, 0, 2)], [[3], [4], [3]])
  {
    FirstOfTwo(MINE, THEIRS, 0);
    InRangeTwo(km, MINE, THEIRS);
    SuspendTwoBytes(km, MINE, 0, 1);
    var km1 := km.(blocks := [Claimed(0, 0, 0, 2), Claimed(0, 0, 1, 2), Claimed(0, 0, 0, 2)], file := [[3], [4], [3]]);
    assert km.blocks[0 := Claimed(0, 0, 0, 2)][1 := Claimed(0, 0, 1, 2)] == km1.blocks;
    assert km.file[0 := [3]][1 := [4]] == km1.file;
    EachOne(km, MINE, km1);
    FreeOnly(km.memory, MINE);
    assert [MINE, THEIRS][1..] == [THEIRS];
    SuspensionIs(km, 0, [MINE], km1, Memory(4, 4, BestFit, [THEIRS], [Extent(2, 2)]));
  }

  lemma StoredTwice(km: Km)
    requires km == Tables([THEIRS], [Extent(2, 2)], FOUR,
                          [Claimed(0, 0, 0, 2), Claimed(0, 0, 1, 2), Claimed(0, 0, 0, 2)], [[3], [4], [3]])
    ensures SwapShape(km) && !PartsInOrder(Stored(km, 0)) && !InOrder(Stored(km, 0))
  {
    var rs := Stored(km, 0);
    assert StoredFrom(km.blocks, km.file, 0, 2) == [Record(0, 0, 2, [3])];
    assert StoredFrom(km.blocks, km.file, 0, 1) == [Record(0, 1, 2, [4]), Record(0, 0, 2, [3])];
    assert rs == [Record(0, 0, 2, [3]), Record(0, 1, 2, [4]), Record(0, 0, 2, [3])];
    assert !Before(rs[0], rs[2]);
  }

  // ---------- ids that are not ordinals ----------

  const ONE_TWO: seq<Byte> := [1, 2]
  const OWN_PAIR: seq<Want> := [Want(0, 0, 1), Want(1, 0, 1)]
  const FIRST_FREED: seq<Op> := Loading(ONE_TWO, OWN_PAIR) + [FreeSegment(0, 0)]
  const REST: Segment := Segment(1, 0, 1, 1)

  /** A process allocates segments 0 and 1 and frees segment 0. Now the CPU finds segment 1 and not
      segment 0, Kernel Memory takes number 0 for segment 1 and finds no number 1; and after a
      suspension, the resumption follows a null segment although it has all the room it needs. */
  lemma FreedSegmentMisplacesTheRest() returns (km: Km, out: Km)
    ensures Reaches(1, FIRST_FREED, km) && Reaches(1, FIRST_FREED + [Suspend(0)], out)
    ensures var segs := km.memory.segments;
            && FindSegmentById(OfProcess(segs, 0), 1) == Some(REST) && FindSegmentById(OfProcess(segs, 0), 0) == None
            && FindSegment(segs, 0, 0) == Some(REST) && FindSegment(segs, 0, 1) == None
    ensures SwapShape(out) && ResumeProcess(out, 0).1 == Faulted
  {
    km := OneLeft();
    OfProcessOne(REST, 0);
    SuspendLast(km);
    out := Tables([], [Extent(0, 2)], ONE_TWO, [Claimed(0, 1, 0, 1)], [[2]]);
    ThenSuspend(1, FIRST_FREED, km, 0, out);
    assert Running(km) by { Then(1, FIRST_FREED, km, Suspend(0)); }
    LastFaults(km, out);
  }

  lemma OneLeft() returns (km: Km)
    ensures Reaches(1, FIRST_FREED, km)
    ensures km == Tables([REST], [Extent(0, 1)], ONE_TWO, [Free], [[0]])
  {
    LoadedTwo(OWN_PAIR[0], OWN_PAIR[1]);
    LoadingLeads(1, ONE_TWO, OWN_PAIR);
    BlankSwap(1);
    var loaded := Loaded(1, ONE_TWO, OWN_PAIR);
    FreeFirst(loaded.memory, Segment(0, 0, 0, 1));
    var m := Memory(2, 4, BestFit, [REST], [Extent(0, 1)]);
    assert loaded.memory.segments[1..] == [REST] && [] + [Extent(0, 1)] == m.holes;
    ThenFree(1, Loading(ONE_TWO, OWN_PAIR), loaded, 0, 0, m);
    km := loaded.(memory := m);
  }

  lemma LastFaults(km: Km, out: Km)
    requires Running(km) && km == Tables([REST], [Extent(0, 1)], ONE_TWO, [Free], [[0]])
    requires AllInRange(km, km.memory.segments) && SuspendProcess(km, 0) == (out, true)
    requires out.memory.holes == [Extent(0, 2)]
    ensures SwapShape(out) && ResumeProcess(out, 0).1 == Faulted
  {
    OfProcessOne(REST, 0);
    assert Suspendable(km, 0) by { assert Stored(km, 0) == []; }
    OneOfTwo(km.memory.segments, out.memory);
    ComesBackIffOrdinals(km, 0, []);
    assert Run(out, []) == out;
  }

  lemma OneOfTwo(segs: seq<Segment>, m: Memory)
    requires segs == [REST] && m.holes == [Extent(0, 2)]
    ensures Total(Places(segs)) == 1 && FreeSpace(m) == 2
  {
    assert m.holes[1..] == [];
    assert Places(segs) == [Extent(1, 1)] && [Extent(1, 1)][1..] == [];
  }

  lemma SuspendLast(km: Km)
    requires km == Tables([REST], [Extent(0, 1)], ONE_TWO, [Free], [[0]])
    ensures SwapShape(km) && AllInRange(km, km.memory.segments)
    ensures SuspendProcess(km, 0) == (Tables([], [Extent(0, 2)], ONE_TWO, [Claimed(0, 1, 0, 1)], [[2]]), true)
  {
    var c := Claimed(0, 1, 0, 1);
    OfProcessOne(REST, 0);
    InRangeTwo(km, REST, REST);
    SuspendOneByte(km, REST, 0);
    assert km.blocks[0 := c] == [c] && km.file[0 := [2]] == [[2]];
    var km1 := km.(blocks := [c], file := [[2]]);
    EachOne(km, REST, km1);
    RemoveLast(km.memory, REST);
    SuspensionIs(km, 0, [REST], km1, Memory(2, 4, BestFit, [], [Extent(0, 2)]));
  }

  /** The byte at address 1 joins the hole in front of it. */
  lemma RemoveLast(m: Memory, s: Segment)
    requires m.segments == [s] && s.base == 1 && s.size == 1 && m.holes == [Extent(0, 1)]
    ensures RemoveEach(m, [s], s.pid) == m.(segments := [], holes := [Extent(0, 2)])
  {
    assert FindIndex(m.segments, s.id, s.pid) == 0;
    FreeIs(m, s.id, s.pid, 0, [Extent(0, 2)]) by { Rejoin(m.holes); }
    assert Drop(m.segments, 0) == [] && [s][1..] == [];
  }

  lemma Rejoin(holes: seq<Extent>)
    requires holes == [Extent(0, 1)]
    ensures Coalesce(holes, Extent(1, 1)) == [Extent(0, 2)]
  {
    LastEndingAtSpec(holes, 1);
    LastStartingAtSpec(holes, 2);
    assert Drop(holes, 0) == [] && [] + [Extent(0, 2)] == [Extent(0, 2)];
  }

  // ---------- the same id twice ----------

  const TWINS: seq<Want> := [Want(0, 0, 1), Want(0, 0, 1)]
  const TWINS_OUT: seq<Op> := Loading(ONE_TWO, TWINS) + [Suspend(0)]
  const ELDER: Segment := Segment(0, 0, 0, 1)
  const YOUNGER: Segment := Segment(0, 0, 1, 1)
  const TWIN_BLOCK: Block := Claimed(0, 0, 0, 1)

  /** With the same id twice the resumption goes through, but it copies both segments into the first. */
  lemma SameIdOverwrites() returns (km: Km)
    ensures Reaches(2, TWINS_OUT + [Resume(0)], km)
    ensures km == Tables([ELDER, YOUNGER], [], [2, 2], [Free, Free], [[1], [2]])
  {
    var out := TwinsOut();
    ResumeTwins(out);
    km := Tables([ELDER, YOUNGER], [], [2, 2], [Free, Free], [[1], [2]]);
    ThenResume(2, TWINS_OUT, out, 0, km);
  }

  lemma TwinsOut() returns (km: Km)
    ensures Reaches(2, TWINS_OUT, km)
    ensures km == Tables([], [Extent(0, 2)], ONE_TWO, [TWIN_BLOCK, TWIN_BLOCK], [[1], [2]])
  {
    LoadedTwo(TWINS[0], TWINS[1]);
    LoadingLeads(2, ONE_TWO, TWINS);
    BlankSwap(2);
    var loaded := Loaded(2, ONE_TWO, TWINS);
    assert loaded.memory.segments == [ELDER, YOUNGER];
    SuspendTwins(loaded);
    km := Tables([], [Extent(0, 2)], ONE_TWO, [TWIN_BLOCK, TWIN_BLOCK], [[1], [2]]);
    ThenSuspend(2, Loading(ONE_TWO, TWINS), loaded, 0, km);
  }

  lemma TwinsOfProcess()
    ensures OfProcess([ELDER, YOUNGER], 0) == [ELDER, YOUNGER]
  {
    OfProcessOne(ELDER, 0);
    OfProcessOne(YOUNGER, 0);
    OfProcessConcat([ELDER], [YOUNGER], 0);
    assert [ELDER] + [YOUNGER] == [ELDER, YOUNGER];
  }

  lemma SuspendTwins(km: Km)
    requires km == Tables([ELDER, YOUNGER], [], ONE_TWO, [Free, Free], [[0], [0]])
    ensures SwapShape(km) && AllInRange(km, km.memory.segments)
    ensures SuspendProcess(km, 0).0 == Tables([], [Extent(0, 2)], ONE_TWO, [TWIN_BLOCK, TWIN_BLOCK], [[1], [2]])
  {
    TwinsOfProcess();
    InRangeTwo(km, ELDER, YOUNGER);
    TwinsToSwap(km);
    RemoveTwins(km.memory);
    SuspensionIs(km, 0, [ELDER, YOUNGER], km.(blocks := [TWIN_BLOCK, TWIN_BLOCK], file := [[1], [2]]),
                 Memory(2, 4, BestFit, [], [Extent(0, 2)]));
  }

  lemma ElderToSwap(km: Km)
    requires km == Tables([ELDER, YOUNGER], [], ONE_TWO, [Free, Free], [[0], [0]])
    ensures SwapShape(km) && InRange(km, ELDER)
    ensures SuspendSegment(km, ELDER, 0) == (km.(blocks := [TWIN_BLOCK, Free], file := [[1], [0]]), true)
  {
    SuspendOneByte(km, ELDER, 0);
    assert km.blocks[0 := TWIN_BLOCK] == [TWIN_BLOCK, Free] && km.file[0 := [1]] == [[1], [0]];
  }

  lemma YoungerToSwap(km: Km)
    requires km == Tables([ELDER, YOUNGER], [], ONE_TWO, [TWIN_BLOCK, Free], [[1], [0]])
    ensures SwapShape(km) && InRange(km, YOUNGER)
    ensures SuspendSegment(km, YOUNGER, 0) == (km.(blocks := [TWIN_BLOCK, TWIN_BLOCK], file := [[1], [2]]), true)
  {
    assert FindFreeBlock(km.blocks) == 1 by { FindFreeBlockSpec(km.blocks); }
    SuspendOneByte(km, YOUNGER, 1);
    assert km.blocks[1 := TWIN_BLOCK] == [TWIN_BLOCK, TWIN_BLOCK] && km.file[1 := [2]] == [[1], [2]];
  }

  lemma TwinsToSwap(km: Km)
    requires km == Tables([ELDER, YOUNGER], [], ONE_TWO, [Free, Free], [[0], [0]]) && AllInRange(km, [ELDER, YOUNGER])
    ensures SwapShape(km)
    ensures SuspendEach(km, [ELDER, YOUNGER]) == (km.(blocks := [TWIN_BLOCK, TWIN_BLOCK], file := [[1], [2]]), true)
  {
    ElderToSwap(km);
    var km1 := km.(blocks := [TWIN_BLOCK, Free], file := [[1], [0]]);
    YoungerToSwap(km1);
    EachTwo(km, ELDER, YOUNGER, km1, km.(blocks := [TWIN_BLOCK, TWIN_BLOCK], file := [[1], [2]]));
  }

  lemma RemoveTwins(m: Memory)
    requires m.segments == [ELDER, YOUNGER] && m.holes == []
    ensures RemoveEach(m, [ELDER, YOUNGER], 0) == m.(segments := [], holes := [Extent(0, 2)])
  {
    FreeFirst(m, ELDER);
    var m1 := m.(segments := [YOUNGER], holes := [Extent(0, 1)]);
    assert [ELDER, YOUNGER][1..] == [YOUNGER] && [] + [Extent(0, 1)] == [Extent(0, 1)];
    RemoveLast(m1, YOUNGER);
  }

  lemma ResumeTwins(km: Km)
    requires km == Tables([], [Extent(0, 2)], ONE_TWO, [TWIN_BLOCK, TWIN_BLOCK], [[1], [2]])
    ensures SwapShape(km)
    ensures ResumeProcess(km, 0).0 == Tables([ELDER, YOUNGER], [], [2, 2], [Free, Free], [[1], [2]])
  {
    ElderBack(km);
    var km1 := Tables([ELDER], [Extent(1, 1)], ONE_TWO, [Free, TWIN_BLOCK], km.file);
    YoungerBack(km1);
    var km2 := Tables([ELDER, YOUNGER], [], [2, 2], [Free, Free], km.file);
    assert ResumeFrom(km2, 2, 0) == (km2, Resumed);
    assert ResumeFrom(km1, 1, 0) == (km2, Resumed);
    assert SizeInSwap(km.blocks, 0, 2) == 0;
    assert SizeInSwap(km.blocks, 0, 1) == 1;
    assert SizeInSwap(km.blocks, 0, 0) == 2;
    OnlyHole(km.memory, Extent(0, 2), 1);
    assert OwnedBy(km.blocks[0], 0);
  }

  lemma ElderBack(km: Km)
    requires km == Tables([], [Extent(0, 2)], ONE_TWO, [TWIN_BLOCK, TWIN_BLOCK], [[1], [2]])
    ensures SwapShape(km)
    ensures ResumeBlock(km, 0, 0) == (Tables([ELDER], [Extent(1, 1)], ONE_TWO, [Free, TWIN_BLOCK], km.file), Resumed)
  {
    OnlyHole(km.memory, Extent(0, 2), 1);
    OfProcessOne(ELDER, 0);
    assert [] + [ELDER] == [ELDER];
    assert Store(km.flat, 0, km.file[0][..1]) == km.flat && km.blocks[0 := Free] == [Free, TWIN_BLOCK];
  }

  lemma YoungerBack(km: Km)
    requires km == Tables([ELDER], [Extent(1, 1)], ONE_TWO, [Free, TWIN_BLOCK], [[1], [2]])
    ensures SwapShape(km)
    ensures ResumeBlock(km, 1, 0) == (Tables([ELDER, YOUNGER], [], [2, 2], [Free, Free], km.file), Resumed)
  {
    OnlyHole(km.memory, Extent(1, 1), 1);
    TwinsOfProcess();
    assert [ELDER] + [YOUNGER] == [ELDER, YOUNGER];
    assert Store(km.flat, 0, km.file[1][..1]) == [2, 2] && km.blocks[1 := Free] == [Free, Free];
  }
}
