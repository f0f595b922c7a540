/** A suspension writes a process's segments to swap in order: because every claim takes the lowest
    free block, ascending block numbers read the segments back in segment order, part by part. */
module SuspendLaws {
  import opened MemoryTables
  import opened AllocatorLaws
  import opened HoleTables
  import opened Sticks
  import opened SwapTables

  lemma {:induction false} FindFreeBlockSpec(blocks: seq<Block>)
    ensures var i := FindFreeBlock(blocks);
            && (i >= 0 ==> blocks[i].Free?)
            && (forall k :: 0 <= k < (if i == -1 then |blocks| else i) ==> !blocks[k].Free?)
  {
    if blocks != [] && !blocks[0].Free? {
      FindFreeBlockSpec(blocks[1..]);
    }
  }

  /** The process's blocks all come before every free block. */
  ghost predicate OwnedBelowFree(blocks: seq<Block>, pid: nat) {
    forall k, f :: 0 <= k < |blocks| && 0 <= f < |blocks| && OwnedBy(blocks[k], pid) && blocks[f].Free? ==> k < f
  }

  /** What is stored for a process depends on its own blocks only. */
  lemma {:induction false} StoredSame(blocks: seq<Block>, file: seq<seq<Byte>>,
                                      blocks': seq<Block>, file': seq<seq<Byte>>, pid: nat, i: nat)
    requires |file| == |blocks| == |file'| == |blocks'|
    requires forall k :: i <= k < |blocks| ==> OwnedBy(blocks[k], pid) == OwnedBy(blocks'[k], pid)
    requires forall k :: i <= k < |blocks| && OwnedBy(blocks[k], pid) ==>
               blocks[k] == blocks'[k] && file[k] == file'[k]
    ensures StoredFrom(blocks, file, pid, i) == StoredFrom(blocks', file', pid, i)
    decreases |blocks| - i
  {
    if i < |blocks| {
      StoredSame(blocks, file, blocks', file', pid, i + 1);
    }
  }

  lemma {:induction false} NothingStored(blocks: seq<Block>, file: seq<seq<Byte>>, pid: nat, i: nat)
    requires |file| == |blocks|
    requires forall k :: i <= k < |blocks| ==> !OwnedBy(blocks[k], pid)
    ensures StoredFrom(blocks, file, pid, i) == []
    decreases |blocks| - i
  {
    if i < |blocks| {
      NothingStored(blocks, file, pid, i + 1);
    }
  }

  /** A claim beyond all of the process's blocks appends one record. */
  lemma {:induction false} ClaimAppends(km: Km, b: nat, s: Segment, part: nat, i: nat)
    requires SwapShape(km) && InRange(km, s) && part * km.blockSize < s.size && i <= b < |km.blocks|
    requires forall k :: i <= k < |km.blocks| && OwnedBy(km.blocks[k], s.pid) ==> k < b
    ensures var km' := ClaimBlock(km, b, s, part);
            StoredFrom(km'.blocks, km'.file, s.pid, i)
            == StoredFrom(km.blocks, km.file, s.pid, i) + [Record(s.id, part, s.size, PartContent(km, s, part))]
    decreases b - i
  {
    var km' := ClaimBlock(km, b, s, part);
    if i == b {
      StoredSame(km.blocks, km.file, km'.blocks, km'.file, s.pid, b + 1);
      NothingStored(km.blocks, km.file, s.pid, b);
      NothingStored(km.blocks, km.file, s.pid, b + 1);
    } else {
      ClaimAppends(km, b, s, part, i + 1);
    }
  }

  lemma ClaimKeeps(km: Km, s: Segment, part: nat)
    requires SwapShape(km) && BlocksSane(km) && InRange(km, s) && part * km.blockSize < s.size
    requires FindFreeBlock(km.blocks) != -1 && OwnedBelowFree(km.blocks, s.pid)
    ensures var km' := ClaimBlock(km, FindFreeBlock(km.blocks), s, part);
            && SwapShape(km') && BlocksSane(km') && OwnedBelowFree(km'.blocks, s.pid)
            && Stored(km', s.pid) == Stored(km, s.pid) + [Record(s.id, part, s.size, PartContent(km, s, part))]
  {
    FindFreeBlockSpec(km.blocks);
    ClaimAppends(km, FindFreeBlock(km.blocks), s, part, 0);
  }

  lemma PartIsCut(km: Km, s: Segment, part: nat)
    requires km.blockSize > 0 && InRange(km, s) && part * km.blockSize < s.size
    ensures Cut(BytesOf(km, s), s.id, km.blockSize, part)
         == [Record(s.id, part, s.size, PartContent(km, s, part))]
            + Cut(BytesOf(km, s), s.id, km.blockSize, part + 1)
  {
    var offset := part * km.blockSize;
    var n := Min(s.size - offset, km.blockSize);
    assert BytesOf(km, s)[offset..offset + n] == km.flat[s.base + offset..s.base + offset + n];
  }

  /** A suspended segment is stored whole, after everything the process had in swap already. */
  lemma {:induction false} SegmentStored(km: Km, s: Segment, i: nat)
    requires SwapShape(km) && BlocksSane(km) && InRange(km, s) && OwnedBelowFree(km.blocks, s.pid)
    ensures var r := SuspendSegment(km, s, i);
            && SwapShape(r.0) && BlocksSane(r.0) && OwnedBelowFree(r.0.blocks, s.pid)
            && (if r.1 then Stored(r.0, s.pid) == Stored(km, s.pid) + Cut(BytesOf(km, s), s.id, km.blockSize, i)
                else Stored(r.0, s.pid) <= Stored(km, s.pid) + Cut(BytesOf(km, s), s.id, km.blockSize, i))
    decreases BlockCount(s.size, km.blockSize) - i
  {
    CeilDiv(s.size, km.blockSize, i);
    if i < BlockCount(s.size, km.blockSize) && FindFreeBlock(km.blocks) != -1 {
      var km' := ClaimBlock(km, FindFreeBlock(km.blocks), s, i);
      ClaimKeeps(km, s, i);
      PartIsCut(km, s, i);
      SegmentStored(km', s, i + 1);
      assert BytesOf(km', s) == BytesOf(km, s);
    }
  }

  /** Nobody else's blocks change. */
  lemma {:induction false} SegmentLeavesOthers(km: Km, s: Segment, i: nat, q: nat)
    requires SwapShape(km) && InRange(km, s) && q != s.pid
    ensures SwapShape(SuspendSegment(km, s, i).0)
    ensures Stored(SuspendSegment(km, s, i).0, q) == Stored(km, q)
    decreases BlockCount(s.size, km.blockSize) - i
  {
    if i < BlockCount(s.size, km.blockSize) && FindFreeBlock(km.blocks) != -1 {
      CeilDiv(s.size, km.blockSize, i);
      var b := FindFreeBlock(km.blocks);
      FindFreeBlockSpec(km.blocks);
      var km' := ClaimBlock(km, b, s, i);
      StoredSame(km.blocks, km.file, km'.blocks, km'.file, q, 0);
      SegmentLeavesOthers(km', s, i + 1, q);
    }
  }

  // ---------- when a suspension fits ----------

  function FreeCount(blocks: seq<Block>): nat {
    if blocks == [] then 0 else (if blocks[0].Free? then 1 else 0) + FreeCount(blocks[1..])
  }

  lemma {:induction false} FreeCountClaim(blocks: seq<Block>, b: Block)
    requires FindFreeBlock(blocks) != -1 && !b.Free?
    ensures FreeCount(blocks[FindFreeBlock(blocks) := b]) == FreeCount(blocks) - 1
  {
    var i := FindFreeBlock(blocks);
    if blocks[0].Free? {
      assert blocks[0 := b][1..] == blocks[1..];
    } else {
      FreeCountClaim(blocks[1..], b);
      assert blocks[i := b][1..] == blocks[1..][i - 1 := b];
    }
  }

  lemma {:induction false} NoFreeCount(blocks: seq<Block>)
    ensures FreeCount(blocks) == 0 <==> FindFreeBlock(blocks) == -1
  {
    if blocks != [] {
      NoFreeCount(blocks[1..]);
    }
  }

  lemma {:induction false} SegmentFitsIff(km: Km, s: Segment, i: nat)
    requires SwapShape(km) && InRange(km, s)
    ensures var r := SuspendSegment(km, s, i);
            var need := |Cut(BytesOf(km, s), s.id, km.blockSize, i)|;
            && (r.1 <==> need <= FreeCount(km.blocks))
            && (r.1 ==> FreeCount(r.0.blocks) == FreeCount(km.blocks) - need)
    decreases BlockCount(s.size, km.blockSize) - i
  {
    CeilDiv(s.size, km.blockSize, i);
    NoFreeCount(km.blocks);
    if i < BlockCount(s.size, km.blockSize) {
      PartIsCut(km, s, i);
      if FindFreeBlock(km.blocks) != -1 {
        FreeCountClaim(km.blocks, Claimed(s.pid, s.id, i, s.size));
        var km' := ClaimBlock(km, FindFreeBlock(km.blocks), s, i);
        SegmentFitsIff(km', s, i + 1);
        assert BytesOf(km', s) == BytesOf(km, s);
      }
    }
  }

  // ---------- whole processes ----------

  /** The records of a list of segments, in list order. */
  function CutAll(km: Km, list: seq<Segment>): seq<Record>
    requires km.blockSize > 0 && AllInRange(km, list)
  {
    if list == [] then []
    else
      assert list[0] in list;
      assert forall s :: s in list[1..] ==> s in list;
      Cut(BytesOf(km, list[0]), list[0].id, km.blockSize, 0) + CutAll(km, list[1..])
  }

  lemma {:induction false} CutAllSame(km: Km, km': Km, list: seq<Segment>)
    requires km.blockSize > 0 && AllInRange(km, list) && km'.flat == km.flat && km'.blockSize == km.blockSize
    ensures AllInRange(km', list) && CutAll(km', list) == CutAll(km, list)
  {
    forall s | s in list ensures InRange(km', s) { assert InRange(km, s); }
    if list != [] {
      assert list[0] in list;
      assert forall s :: s in list[1..] ==> s in list;
      CutAllSame(km, km', list[1..]);
    }
  }

  /** Suspending a list is suspending its head and then, if that fitted, the rest. */
  lemma EachStep(km: Km, list: seq<Segment>)
    requires SwapShape(km) && AllInRange(km, list) && list != []
    ensures InRange(km, list[0])
    ensures var r := SuspendSegment(km, list[0], 0);
            && SwapShape(r.0) && r.0.memory == km.memory && r.0.flat == km.flat && AllInRange(r.0, list[1..])
            && SuspendEach(km, list) == if r.1 then SuspendEach(r.0, list[1..]) else r
  {
    assert list[0] in list;
    SuspendSegmentFrame(km, list[0], 0);
    assert forall t :: t in list[1..] ==> t in list && InRange(km, t);
  }

  lemma {:induction false} EachFrame(km: Km, list: seq<Segment>)
    requires SwapShape(km) && AllInRange(km, list)
    ensures var r := SuspendEach(km, list).0;
            && SwapShape(r) && r.memory == km.memory && r.flat == km.flat && r.blockSize == km.blockSize
            && |r.blocks| == |km.blocks|
    decreases |list|
  {
    if list != [] {
      var s := list[0];
      assert s in list;
      assert forall t :: t in list[1..] ==> t in list;
      SuspendSegmentFrame(km, s, 0);
      var r := SuspendSegment(km, s, 0);
      if r.1 {
        CutAllSame(km, r.0, list[1..]);
        EachFrame(r.0, list[1..]);
      }
    }
  }

  lemma AppendTwice(a: seq<Record>, b: seq<Record>, c: seq<Record>)
    ensures (a + b) + c == a + (b + c)
  {
  }

  lemma PrefixGrows(x: seq<Record>, a: seq<Record>, b: seq<Record>, c: seq<Record>)
    requires x <= a + b
    ensures x <= a + (b + c)
  {
    AppendTwice(a, b, c);
  }

  lemma {:induction false} EachStored(km: Km, list: seq<Segment>, pid: nat)
    requires SwapShape(km) && BlocksSane(km) && AllInRange(km, list) && OwnedBelowFree(km.blocks, pid)
    requires forall s :: s in list ==> s.pid == pid
    ensures var r := SuspendEach(km, list);
            && SwapShape(r.0) && BlocksSane(r.0)
            && (if r.1 then Stored(r.0, pid) == Stored(km, pid) + CutAll(km, list)
                else Stored(r.0, pid) <= Stored(km, pid) + CutAll(km, list))
    decreases |list|
  {
    if list != [] {
      var s := list[0];
      assert s in list;
      assert forall t :: t in list[1..] ==> t in list;
      SuspendSegmentFrame(km, s, 0);
      SegmentStored(km, s, 0);
      var r := SuspendSegment(km, s, 0);
      var cut, rest := Cut(BytesOf(km, s), s.id, km.blockSize, 0), CutAll(km, list[1..]);
      assert CutAll(km, list) == cut + rest;
      if r.1 {
        CutAllSame(km, r.0, list[1..]);
        EachStored(r.0, list[1..], pid);
        AppendTwice(Stored(km, pid), cut, rest);
      } else {
        PrefixGrows(Stored(r.0, pid), Stored(km, pid), cut, rest);
      }
    }
  }

  lemma {:induction false} EachFitsIff(km: Km, list: seq<Segment>)
    requires SwapShape(km) && AllInRange(km, list)
    ensures SuspendEach(km, list).1 <==> |CutAll(km, list)| <= FreeCount(km.blocks)
    decreases |list|
  {
    if list != [] {
      var s := list[0];
      assert s in list;
      assert forall t :: t in list[1..] ==> t in list;
      SuspendSegmentFrame(km, s, 0);
      SegmentFitsIff(km, s, 0);
      var r := SuspendSegment(km, s, 0);
      if r.1 {
        CutAllSame(km, r.0, list[1..]);
        EachFitsIff(r.0, list[1..]);
      }
    }
  }

  lemma {:induction false} EachLeavesOthers(km: Km, list: seq<Segment>, pid: nat, q: nat)
    requires SwapShape(km) && AllInRange(km, list) && q != pid
    requires forall s :: s in list ==> s.pid == pid
    ensures SwapShape(SuspendEach(km, list).0) && Stored(SuspendEach(km, list).0, q) == Stored(km, q)
    decreases |list|
  {
    if list != [] {
      var s := list[0];
      assert s in list;
      assert forall t :: t in list[1..] ==> t in list;
      SuspendSegmentFrame(km, s, 0);
      SegmentLeavesOthers(km, s, 0, q);
      var r := SuspendSegment(km, s, 0);
      if r.1 {
        CutAllSame(km, r.0, list[1..]);
        EachLeavesOthers(r.0, list[1..], pid, q);
      }
    }
  }

  lemma ValidInRange(km: Km)
    requires KmValid(km)
    ensures AllInRange(km, km.memory.segments)
  {
    forall s | s in km.memory.segments ensures InRange(km, s) {
      var i :| 0 <= i < |km.memory.segments| && km.memory.segments[i] == s;
      SegmentInBounds(km.memory, i);
    }
  }

  lemma NotOwned(km: Km, pid: nat)
    requires SwapShape(km) && Stored(km, pid) == []
    ensures forall k :: 0 <= k < |km.blocks| ==> !OwnedBy(km.blocks[k], pid)
  {
    NotOwnedFrom(km.blocks, km.file, pid, 0);
  }

  lemma {:induction false} NotOwnedFrom(blocks: seq<Block>, file: seq<seq<Byte>>, pid: nat, i: nat)
    requires |file| == |blocks| && StoredFrom(blocks, file, pid, i) == []
    ensures forall k :: i <= k < |blocks| ==> !OwnedBy(blocks[k], pid)
    decreases |blocks| - i
  {
    if i < |blocks| {
      NotOwnedFrom(blocks, file, pid, i + 1);
    }
  }

  lemma {:induction false} CutAllIsCutFrom(km: Km, mine: seq<Segment>, img: Image, j: nat)
    requires km.blockSize > 0 && AllInRange(km, mine) && j <= |img| == |mine|
    requires forall k :: 0 <= k < |img| ==> mine[k].id == k && InRange(km, mine[k]) && BytesOf(km, mine[k]) == img[k]
    ensures AllInRange(km, mine[j..]) && CutAll(km, mine[j..]) == CutFrom(img, km.blockSize, j)
    decreases |img| - j
  {
    assert forall s :: s in mine[j..] ==> s in mine;
    if j < |img| {
      CutAllIsCutFrom(km, mine, img, j + 1);
      assert mine[j..][1..] == mine[j + 1..];
    }
  }

  /** Suspending a resident process that owns no swap block: it succeeds exactly when it has a
      segment and enough blocks are free; then all of it is in swap, in order, and none in
      memory. A suspension that runs out of blocks leaves memory alone, but keeps the blocks it
      had claimed. Bytes in memory never change. */
  lemma SuspendMovesImage(km: Km, pid: nat, img: Image)
    requires KmValid(km) && Represents(km, pid, img, |img|)
    ensures AllInRange(km, km.memory.segments)
    ensures var r := SuspendProcess(km, pid);
            && KmValid(r.0) && r.0.flat == km.flat && r.0.blockSize == km.blockSize
            && r.0.memory.strategy == km.memory.strategy
            && (r.1 <==> img != [] && |CutFrom(img, km.blockSize, 0)| <= FreeCount(km.blocks))
            && (r.1 ==> Represents(r.0, pid, img, 0))
            && (!r.1 ==> r.0.memory == km.memory && Stored(r.0, pid) <= CutFrom(img, km.blockSize, 0))
  {
    ValidInRange(km);
    MineInRange(km, km.memory.segments, pid);
    var mine := OfProcess(km.memory.segments, pid);
    assert Stored(km, pid) == [];
    NotOwned(km, pid);
    EachFrame(km, mine);
    EachStored(km, mine, pid);
    EachFitsIff(km, mine);
    assert mine[0..] == mine;
    CutAllIsCutFrom(km, mine, img, 0);
    RemoveAllOfProcess(km.memory, pid);
    RemoveEachKeepsConfig(km.memory, mine, pid);
  }

  lemma {:induction false} RemoveEachKeepsConfig(m: Memory, list: seq<Segment>, pid: nat)
    ensures RemoveEach(m, list, pid).strategy == m.strategy
    ensures RemoveEach(m, list, pid).maxSegmentSize == m.maxSegmentSize && RemoveEach(m, list, pid).totalSize == m.totalSize
    decreases |list|
  {
    if list != [] {
      RemoveEachKeepsConfig(RemoveSegment(m, list[0].id, pid), list[1..], pid);
    }
  }
}
