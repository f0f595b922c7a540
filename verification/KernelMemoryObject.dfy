/** The Kernel Memory object: main memory, the connected sticks and the swap block table, updated in
    place by suspension and resumption (swap.c) and by the stick handshake. */
module KernelMemoryObject {
  import opened Options
  import opened MemoryTables
  import opened MainMemoryObject
  import opened Sticks
  import opened SwapTables
  import AllocatorLaws
  import SuspendLaws
  import ResumeLaws

  lemma OfProcessStep(segs: seq<Segment>, i: nat, pid: nat)
    requires i < |segs|
    ensures OfProcess(segs[i..], pid)
         == (if segs[i].pid == pid then [segs[i]] else []) + OfProcess(segs[i + 1..], pid)
  {
    assert segs[i..][1..] == segs[i + 1..];
  }

  lemma MoveOne(mine: seq<Segment>, s: Segment, rest: seq<Segment>)
    ensures mine + ([s] + rest) == (mine + [s]) + rest && ([s] + rest)[1..] == rest
  {
  }

  class KernelMemory {
    const memory: MainMemory
    const bank: StickBank
    var blocks: seq<Block>
    var file: seq<seq<Byte>>
    const blockSize: nat

    function State(): Km
      reads this, memory, bank
    {
      Km(memory.State(), Flat(bank.sticks), blocks, file, blockSize)
    }

    ghost predicate Valid()
      reads this, memory, bank
    {
      KmValid(State()) && forall i :: 0 <= i < |bank.sticks| ==> |bank.sticks[i]| > 0
    }

    /** The block table starts with every block free (initializer.c, init_block_list). */
    constructor (maxSegmentSize: int, strategy: Strategy, swapSize: nat, blockSize: nat)
      requires blockSize > 0
      ensures Valid() && fresh(memory) && fresh(bank)
      ensures State().memory == Memory(0, maxSegmentSize, strategy, [], [])
      ensures |blocks| == swapSize / blockSize && forall i :: 0 <= i < |blocks| ==> blocks[i].Free?
    {
      memory := new MainMemory(maxSegmentSize, strategy);
      bank := new StickBank();
      this.blockSize := blockSize;
      this.blocks := seq(swapSize / blockSize, _ => Free);
      this.file := seq(swapSize / blockSize, _ => Zeros(blockSize));
    }

    method AddStick(bytes: seq<Byte>)
      requires Valid() && bytes != []
      modifies this, memory, bank
      ensures Valid()
      ensures State() == old(State()).(memory := MemoryTables.AddTotalMemory(old(State()).memory, |bytes|),
                                       flat := old(State()).flat + bytes)
    {
      AllocatorLaws.AddTotalMemoryKeepsValid(memory.State(), |bytes|);
      bank.AddStick(bytes);
      memory.AddTotalMemory(|bytes|);
    }

    // ---------- suspending ----------

    method FindFreeBlock() returns (b: int)
      ensures b == SwapTables.FindFreeBlock(blocks)
    {
      for i := 0 to |blocks|
        invariant var r := SwapTables.FindFreeBlock(blocks[i..]);
                  SwapTables.FindFreeBlock(blocks) == if r == -1 then -1 else r + i
      {
        assert blocks[i..][1..] == blocks[i + 1..];
        if blocks[i].Free? {
          return i;
        }
      }
      return -1;
    }

    /** Moves one segment to swap, block by block. A part that finds no free block stops the copy
        and keeps the blocks claimed so far. */
    method SuspendSegment(s: Segment) returns (ok: bool)
      requires Valid() && InRange(State(), s)
      modifies this
      ensures Valid()
      ensures (State(), ok) == SwapTables.SuspendSegment(old(State()), s, 0)
    {
      var count := BlockCount(s.size, blockSize);
      CeilDiv(s.size, blockSize, 0);
      for i := 0 to count
        invariant Valid() && InRange(State(), s)
        invariant SwapTables.SuspendSegment(State(), s, i) == SwapTables.SuspendSegment(old(State()), s, 0)
      {
        CeilDiv(s.size, blockSize, i);
        var content := ReadPart(s, i);
        var b := FindFreeBlock();
        if b == -1 {
          return false;
        }
        ClaimPart(s, i, b, content);
      }
      return true;
    }

    /** The bytes of one part of a segment, filled up to a whole block. */
    method ReadPart(s: Segment, i: nat) returns (content: seq<Byte>)
      requires Valid() && InRange(State(), s) && i * blockSize < s.size
      ensures content == PartContent(State(), s, i)
    {
      var offset := i * blockSize;
      var n := Min(s.size - offset, blockSize);
      var bytes := bank.ReadFromSticks(s.base + offset, n);
      content := bytes.value + Zeros(blockSize - n);
    }

    /** Fills one block of the table and of the swap file with a part of the segment. */
    method ClaimPart(s: Segment, i: nat, b: nat, content: seq<Byte>)
      requires Valid() && InRange(State(), s) && i * blockSize < s.size && b < |blocks|
      requires content == PartContent(State(), s, i)
      modifies this
      ensures Valid() && InRange(State(), s) && State() == ClaimBlock(old(State()), b, s, i)
    {
      blocks := blocks[b := Claimed(s.pid, s.id, i, s.size)];
      file := file[b := content];
    }

    /** Walks the segment list and copies the process's segments to swap, collecting them. */
    method CopyProcessToSwap(pid: nat) returns (mine: seq<Segment>, ok: bool)
      requires Valid()
      modifies this
      ensures Valid() && AllInRange(old(State()), OfProcess(old(State()).memory.segments, pid))
      ensures (State(), ok) == SuspendEach(old(State()), OfProcess(old(State()).memory.segments, pid))
      ensures ok ==> mine == OfProcess(old(State()).memory.segments, pid)
    {
      ghost var all := OfProcess(memory.segments, pid);
      SuspendLaws.ValidInRange(State());
      MineInRange(State(), memory.segments, pid);
      mine := [];
      for i := 0 to |memory.segments|
        invariant Valid()
        invariant mine + OfProcess(memory.segments[i..], pid) == all
        invariant AllInRange(State(), OfProcess(memory.segments[i..], pid))
        invariant SuspendEach(State(), OfProcess(memory.segments[i..], pid)) == SuspendEach(old(State()), all)
      {
        var s := memory.segments[i];
        OfProcessStep(memory.segments, i, pid);
        if s.pid == pid {
          SuspendLaws.EachStep(State(), OfProcess(memory.segments[i..], pid));
          MoveOne(mine, s, OfProcess(memory.segments[i + 1..], pid));
          ok := SuspendSegment(s);
          if !ok {
            return;
          }
          mine := mine + [s];
        }
      }
      return mine, true;
    }

    /** known: Kernel Memory has the process. connected: the swap module is there. The answer, if any,
        tells whether the process was suspended. */
    method SuspendProcess(pid: nat, known: bool, connected: bool) returns (ok: Option<bool>)
      requires Valid()
      modifies this, memory
      ensures Valid() && AllInRange(old(State()), old(State()).memory.segments)
      ensures if !known then State() == old(State()) && ok == None
              else if !connected then State() == old(State()) && ok == Some(false)
              else ok.Some? && (State(), ok.value) == SwapTables.SuspendProcess(old(State()), pid)
    {
      SuspendLaws.ValidInRange(State());
      if !known {
        return None;
      }
      if !connected {
        return Some(false);
      }
      SuspendLaws.EachFrame(State(), OfProcess(memory.segments, pid)) by {
        MineInRange(State(), memory.segments, pid);
      }
      var mine, copied := CopyProcessToSwap(pid);
      if !copied {
        return Some(false);
      }
      RemoveProcessSegments(mine, pid);
      return Some(mine != []);
    }

    method RemoveProcessSegments(list: seq<Segment>, pid: nat)
      requires Valid()
      modifies memory
      ensures Valid()
      ensures State() == old(State()).(memory := RemoveEach(old(State()).memory, list, pid))
    {
      for i := 0 to |list|
        invariant Valid() && Flat(bank.sticks) == old(Flat(bank.sticks))
        invariant memory.totalSize == old(memory.totalSize)
        invariant RemoveEach(memory.State(), list[i..], pid) == RemoveEach(old(memory.State()), list, pid)
      {
        assert list[i..][1..] == list[i + 1..];
        AllocatorLaws.RemoveSegmentKeepsValid(memory.State(), list[i].id, pid);
        memory.RemoveSegment(list[i].id, pid);
      }
    }

    // ---------- resuming ----------

    method CanResume(pid: nat) returns (fits: bool)
      ensures fits <==> SizeInSwap(blocks, pid, 0) <= FreeSpace(memory.State())
    {
      var size := 0;
      for i := 0 to |blocks|
        invariant size + SizeInSwap(blocks, pid, i) == SizeInSwap(blocks, pid, 0)
      {
        if OwnedBy(blocks[i], pid) && blocks[i].part == 0 {
          size := size + blocks[i].size;
        }
      }
      var free := memory.ComputeFreeSpace();
      return size <= free;
    }

    method RegenerateSegment(id: nat, pid: nat, size: int) returns (ok: bool)
      modifies memory
      ensures (memory.State(), ok) == SwapTables.RegenerateSegment(old(memory.State()), id, pid, size)
    {
      var free := memory.ComputeFreeSpace();
      if free < size {
        return false;
      }
      var chosen := memory.SelectHole(size);
      if chosen.size == -1 {
        return false;
      }
      memory.UpdateSegmentList(chosen, size, pid, id);
      return true;
    }

    /** Copies block i back to segment s and releases the block. */
    method CopyBack(i: nat, s: Segment, content: seq<Byte>)
      requires Valid() && i < |blocks| && blocks[i].Claimed?
      modifies this, bank
      ensures Valid() && |blocks| == |old(blocks)|
      ensures State() == ResumeLaws.Copied(old(State()), i, s, old(blocks)[i].part, content)
    {
      var stored := bank.WriteToSticks(s.base + blockSize * blocks[i].part, content);
      blocks := blocks[i := Free];
    }

    method ResumeBlock(i: nat, pid: nat) returns (outcome: ResumeOutcome)
      requires Valid() && i < |blocks| && OwnedBy(blocks[i], pid)
      modifies this, memory, bank
      ensures Valid() && |blocks| == |old(blocks)|
      ensures (State(), outcome) == SwapTables.ResumeBlock(old(State()), i, pid)
    {
      var b := blocks[i];
      ResumeLaws.RegenerateLaw(memory.State(), b.segment, pid, b.size);
      if b.part == 0 {
        var ok := RegenerateSegment(b.segment, pid, b.size);
        if !ok {
          return Failed;
        }
      }
      var offset := b.part * blockSize;
      var count := Min(b.size - offset, blockSize);
      var found := memory.FindSegment(pid, b.segment);
      if found.None? {
        return Faulted;
      }
      CopyBack(i, found.value, file[i][..count]);
      return Resumed;
    }

    method ResumeProcess(pid: nat, connected: bool) returns (outcome: ResumeOutcome)
      requires Valid()
      modifies this, memory, bank
      ensures Valid()
      ensures (State(), outcome)
           == if connected then SwapTables.ResumeProcess(old(State()), pid) else (old(State()), Failed)
    {
      if !connected {
        return Failed;
      }
      var fits := CanResume(pid);
      if !fits {
        return Failed;
      }
      var found := false;
      for i := 0 to |blocks|
        invariant Valid() && |blocks| == |old(blocks)|
        invariant forall k :: i <= k < |blocks| ==> blocks[k] == old(blocks)[k]
        invariant found <==> exists k :: 0 <= k < i && OwnedBy(old(blocks)[k], pid)
        invariant ResumeFrom(State(), i, pid) == ResumeFrom(old(State()), 0, pid)
      {
        if OwnedBy(blocks[i], pid) {
          found := true;
          ghost var bs := blocks;
          outcome := ResumeBlock(i, pid);
          if outcome != Resumed {
            return;
          }
          assert blocks == bs[i := Free];
        }
      }
      return if found then Resumed else Failed;
    }
  }
}
