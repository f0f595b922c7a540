/** Swapping (swap.c): a process's segments cut into swap blocks, and rebuilt from them, as
    functions on the state of Kernel Memory. KernelMemoryObject.dfy has the object. */
module SwapTables {
  import opened MemoryTables
  import opened Sticks

  /** An entry of the block table; the block's number is its position in the table. */
  datatype Block = Free | Claimed(pid: nat, segment: nat, part: nat, size: int)

  /** flat: the bytes of all sticks; file[i]: the contents of swap block i. */
  datatype Km = Km(
    memory: Memory,
    flat: seq<Byte>,
    blocks: seq<Block>,
    file: seq<seq<Byte>>,
    blockSize: nat)

  datatype ResumeOutcome = Resumed | Failed | Faulted

  predicate OwnedBy(b: Block, pid: nat) {
    b.Claimed? && b.pid == pid
  }

  /** The block table and the file have one block each per number, all of the same size. */
  ghost predicate SwapShape(km: Km) {
    && km.blockSize > 0
    && |km.file| == |km.blocks|
    && (forall i :: 0 <= i < |km.file| ==> |km.file[i]| == km.blockSize)
  }

  /** Every claimed block records a non-empty segment and a part that starts inside it. */
  ghost predicate BlocksSane(km: Km) {
    forall i :: 0 <= i < |km.blocks| && km.blocks[i].Claimed? ==>
      km.blocks[i].size > 0 && km.blocks[i].part * km.blockSize < km.blocks[i].size
  }

  ghost predicate KmValid(km: Km) {
    && Valid(km.memory)
    && |km.flat| == km.memory.totalSize
    && SwapShape(km)
    && BlocksSane(km)
  }

  function Min(x: int, y: int): int {
    if x < y then x else y
  }

  function Zeros(n: nat): seq<Byte> {
    seq(n, _ => 0)
  }

  /** The number of blocks a segment needs: the ceiling of size / blockSize. */
  function BlockCount(size: int, blockSize: nat): int
    requires blockSize > 0
  {
    (size + blockSize - 1) / blockSize
  }

  // ---------- suspending ----------

  function FindFreeBlock(blocks: seq<Block>): (i: int)
    ensures -1 <= i < |blocks|
  {
    if blocks == [] then -1
    else if blocks[0].Free? then 0
    else var r := FindFreeBlock(blocks[1..]); if r == -1 then -1 else r + 1
  }

  ghost predicate InRange(km: Km, s: Segment) {
    0 <= s.base && 0 < s.size && s.base + s.size <= |km.flat|
  }

  /** Part i of the segment's bytes, padded with zeros to a whole block. */
  function PartContent(km: Km, s: Segment, i: nat): seq<Byte>
    requires km.blockSize > 0 && InRange(km, s) && i * km.blockSize < s.size
  {
    var offset := i * km.blockSize;
    var n := Min(s.size - offset, km.blockSize);
    km.flat[s.base + offset..s.base + offset + n] + Zeros(km.blockSize - n)
  }

  function ClaimBlock(km: Km, b: nat, s: Segment, i: nat): Km
    requires SwapShape(km) && InRange(km, s) && i * km.blockSize < s.size && b < |km.blocks|
  {
    km.(blocks := km.blocks[b := Claimed(s.pid, s.id, i, s.size)],
        file := km.file[b := PartContent(km, s, i)])
  }

  lemma CeilDiv(size: int, blockSize: nat, i: int)
    requires blockSize > 0
    ensures i < BlockCount(size, blockSize) <==> i * blockSize < size
  {
    var q := BlockCount(size, blockSize);
    assert q * blockSize <= size + blockSize - 1 < (q + 1) * blockSize;
    if i < q {
      assert (i + 1) * blockSize <= q * blockSize by { MulMonotone(i + 1, q, blockSize); }
    } else {
      assert q * blockSize <= i * blockSize by { MulMonotone(q, i, blockSize); }
    }
  }

  lemma MulMonotone(x: int, y: int, k: nat)
    requires x <= y
    ensures x * k <= y * k
  {
  }

  /** Moves parts i, i+1, ... of the segment to swap; false when a part finds no free block. */
  function SuspendSegment(km: Km, s: Segment, i: nat): (Km, bool)
    requires SwapShape(km) && InRange(km, s)
    decreases BlockCount(s.size, km.blockSize) - i
  {
    if i >= BlockCount(s.size, km.blockSize) then (km, true)
    else
      var b := FindFreeBlock(km.blocks);
      if b == -1 then (km, false)
      else
        CeilDiv(s.size, km.blockSize, i);
        SuspendSegment(ClaimBlock(km, b, s, i), s, i + 1)
  }

  ghost predicate AllInRange(km: Km, list: seq<Segment>) {
    forall s :: s in list ==> InRange(km, s)
  }

  lemma {:induction false} SuspendSegmentFrame(km: Km, s: Segment, i: nat)
    requires SwapShape(km) && InRange(km, s)
    ensures var r := SuspendSegment(km, s, i).0;
            && SwapShape(r) && r.memory == km.memory && r.flat == km.flat && r.blockSize == km.blockSize
            && |r.blocks| == |km.blocks|
    decreases BlockCount(s.size, km.blockSize) - i
  {
    if i < BlockCount(s.size, km.blockSize) {
      var b := FindFreeBlock(km.blocks);
      if b != -1 {
        CeilDiv(s.size, km.blockSize, i);
        SuspendSegmentFrame(ClaimBlock(km, b, s, i), s, i + 1);
      }
    }
  }

  function SuspendEach(km: Km, list: seq<Segment>): (Km, bool)
    requires SwapShape(km) && AllInRange(km, list)
    decreases |list|
  {
    if list == [] then (km, true)
    else
      SuspendSegmentFrame(km, list[0], 0);
      var r := SuspendSegment(km, list[0], 0);
      assert forall s :: s in list[1..] ==> s in list && InRange(r.0, s);
      if r.1 then SuspendEach(r.0, list[1..]) else r
  }

  /** Suspension of a process: true stands for the reply OP_SUSPENSION_OK. */
  function SuspendProcess(km: Km, pid: nat): (Km, bool)
    requires SwapShape(km) && AllInRange(km, km.memory.segments)
  {
    MineInRange(km, km.memory.segments, pid);
    var mine := OfProcess(km.memory.segments, pid);
    var r := SuspendEach(km, mine);
    if r.1 then (r.0.(memory := RemoveEach(r.0.memory, mine, pid)), mine != [])
    else r
  }

  lemma {:induction false} MineInRange(km: Km, segs: seq<Segment>, pid: nat)
    requires AllInRange(km, segs)
    ensures AllInRange(km, OfProcess(segs, pid))
    ensures forall s :: s in OfProcess(segs, pid) ==> s.pid == pid && s in segs
  {
    if segs != [] {
      assert segs[0] in segs;
      MineInRange(km, segs[1..], pid);
    }
  }

  // ---------- resuming ----------

  /** The bytes a process needs, counted once per segment, at its first part. */
  function SizeInSwap(blocks: seq<Block>, pid: nat, i: nat): int
    decreases |blocks| - i
  {
    if i >= |blocks| then 0
    else (if OwnedBy(blocks[i], pid) && blocks[i].part == 0 then blocks[i].size else 0) + SizeInSwap(blocks, pid, i + 1)
  }

  /** Rebuilds a segment in the best hole, without compaction; false leaves the tables alone. */
  function RegenerateSegment(m: Memory, id: nat, pid: nat, size: int): (Memory, bool) {
    if FreeSpace(m) < size then (m, false)
    else
      var hole := SelectedHole(m, size);
      if hole.size == -1 then (AfterSelect(m, size), false)
      else (AppendSegment(AfterSelect(m, size), hole, size, pid, id), true)
  }

  /** Restores block i: first parts rebuild their segment; then the bytes are copied back to
      the segment found by ordinal, and the block is released. */
  function ResumeBlock(km: Km, i: nat, pid: nat): (Km, ResumeOutcome)
    requires SwapShape(km) && i < |km.blocks| && OwnedBy(km.blocks[i], pid)
  {
    var b := km.blocks[i];
    var r := if b.part == 0 then RegenerateSegment(km.memory, b.segment, pid, b.size) else (km.memory, true);
    if !r.1 then (km.(memory := r.0), Failed)
    else
      var offset := b.part * km.blockSize;
      var count := Min(b.size - offset, km.blockSize);
      var found := FindSegment(r.0.segments, pid, b.segment);
      if found.None? then (km.(memory := r.0), Faulted)
      else
        var content := km.file[i][..if count < 0 then 0 else count];
        (km.(memory := r.0,
             flat := Store(km.flat, found.value.base + km.blockSize * b.part, content),
             blocks := km.blocks[i := Free]),
         Resumed)
  }

  /** The resume loop from block i on. */
  function ResumeFrom(km: Km, i: nat, pid: nat): (Km, ResumeOutcome)
    requires SwapShape(km)
    decreases |km.blocks| - i
  {
    if i >= |km.blocks| then (km, Resumed)
    else if OwnedBy(km.blocks[i], pid) then
      var r := ResumeBlock(km, i, pid);
      if r.1.Resumed? then ResumeFrom(r.0, i + 1, pid) else r
    else ResumeFrom(km, i + 1, pid)
  }

  /** Resumption of a process: Resumed stands for OP_RESUME_SUSPENSION_OK, Failed for
      OP_RESUME_SUSPENSION_FAILED, Faulted for following a null segment. */
  function ResumeProcess(km: Km, pid: nat): (Km, ResumeOutcome)
    requires SwapShape(km)
  {
    if SizeInSwap(km.blocks, pid, 0) > FreeSpace(km.memory) then (km, Failed)
    else
      var r := ResumeFrom(km, 0, pid);
      if r.1.Resumed? && !(exists i :: 0 <= i < |km.blocks| && OwnedBy(km.blocks[i], pid)) then (r.0, Failed) else r
  }

  // ---------- what swap holds of a process ----------

  /** One swap block as seen from the process: which part of which segment, and its bytes. */
  datatype Record = Record(segment: nat, part: nat, size: int, content: seq<Byte>)

  /** The process's blocks in ascending block number, from block i on. */
  function StoredFrom(blocks: seq<Block>, file: seq<seq<Byte>>, pid: nat, i: nat): seq<Record>
    requires |file| == |blocks|
    decreases |blocks| - i
  {
    if i >= |blocks| then []
    else if OwnedBy(blocks[i], pid) then
      [Record(blocks[i].segment, blocks[i].part, blocks[i].size, file[i])] + StoredFrom(blocks, file, pid, i + 1)
    else StoredFrom(blocks, file, pid, i + 1)
  }

  function Stored(km: Km, pid: nat): seq<Record>
    requires SwapShape(km)
  {
    StoredFrom(km.blocks, km.file, pid, 0)
  }

  /** Part p of a segment's bytes, as the block that holds it. */
  function PartRecord(bytes: seq<Byte>, id: nat, blockSize: nat, p: nat): Record
    requires blockSize > 0 && p * blockSize < |bytes|
  {
    var offset := p * blockSize;
    var n := Min(|bytes| - offset, blockSize);
    Record(id, p, |bytes|, bytes[offset..offset + n] + Zeros(blockSize - n))
  }

  /** A segment's bytes cut into records, from part p on. */
  function Cut(bytes: seq<Byte>, id: nat, blockSize: nat, p: nat): seq<Record>
    requires blockSize > 0
    decreases |bytes| - p * blockSize
  {
    if p * blockSize >= |bytes| then []
    else
      assert (p + 1) * blockSize == p * blockSize + blockSize;
      [PartRecord(bytes, id, blockSize, p)] + Cut(bytes, id, blockSize, p + 1)
  }

  /** A process image: the bytes of segments 0, 1, 2, ... */
  type Image = seq<seq<Byte>>

  /** The records of segments j, j+1, ... of an image, in order. */
  function CutFrom(img: Image, blockSize: nat, j: nat): seq<Record>
    requires blockSize > 0 && j <= |img|
    decreases |img| - j
  {
    if j == |img| then [] else Cut(img[j], j, blockSize, 0) + CutFrom(img, blockSize, j + 1)
  }

  function BytesOf(km: Km, s: Segment): seq<Byte>
    requires 0 <= s.base && 0 <= s.size && s.base + s.size <= |km.flat|
  {
    km.flat[s.base..s.base + s.size]
  }

  /** Kernel Memory holds the first j segments of the image in main memory, under their ids and
      in order, and exactly the rest in swap, in order. */
  ghost predicate Represents(km: Km, pid: nat, img: Image, j: nat)
    requires KmValid(km)
  {
    var mine := OfProcess(km.memory.segments, pid);
    && j <= |img| && |mine| == j
    && (forall k :: 0 <= k < |img| ==> |img[k]| > 0)
    && (forall k :: 0 <= k < j ==>
          && mine[k].id == k && mine[k].size == |img[k]| && InRange(km, mine[k])
          && BytesOf(km, mine[k]) == img[k])
    && Stored(km, pid) == CutFrom(img, km.blockSize, j)
  }
}
