/** A resumption rebuilds a process from its swap blocks: what it completes, what it leaves when
    it must stop, and that nobody else's memory or blocks change. */
module ResumeLaws {
  import opened Options
  import opened Extents
  import opened MemoryTables
  import opened AllocatorLaws
  import opened Sticks
  import opened SwapTables
  import opened SuspendLaws

  // ---------- frames ----------

  /** Process q keeps its segments, their bytes, and its swap blocks. */
  ghost predicate SameFor(km: Km, km': Km, q: nat)
    requires SwapShape(km) && SwapShape(km')
  {
    && |km'.flat| == |km.flat| && km'.blockSize == km.blockSize
    && OfProcess(km'.memory.segments, q) == OfProcess(km.memory.segments, q)
    && Stored(km', q) == Stored(km, q)
    && forall s :: s in OfProcess(km.memory.segments, q) && InRange(km, s) ==> BytesOf(km', s) == BytesOf(km, s)
  }

  lemma SameForRepresents(km: Km, km': Km, q: nat, img: Image, j: nat)
    requires KmValid(km) && KmValid(km') && SameFor(km, km', q) && Represents(km, q, img, j)
    ensures Represents(km', q, img, j)
  {
    var mine := OfProcess(km.memory.segments, q);
    forall k | 0 <= k < j ensures InRange(km', mine[k]) && BytesOf(km', mine[k]) == img[k] {
      assert mine[k] in mine;
    }
  }

  lemma SameForTrans(a: Km, b: Km, c: Km, q: nat)
    requires SwapShape(a) && SwapShape(b) && SwapShape(c) && SameFor(a, b, q) && SameFor(b, c, q)
    ensures SameFor(a, c, q)
  {
    forall s | s in OfProcess(a.memory.segments, q) && InRange(a, s) ensures BytesOf(c, s) == BytesOf(a, s) {
      assert InRange(b, s);
    }
  }

  lemma {:induction false} OfProcessConcat(x: seq<Segment>, y: seq<Segment>, pid: nat)
    ensures OfProcess(x + y, pid) == OfProcess(x, pid) + OfProcess(y, pid)
  {
    if x == [] {
      assert x + y == y;
    } else {
      assert (x + y)[1..] == x[1..] + y;
      OfProcessConcat(x[1..], y, pid);
    }
  }

  lemma OfProcessOne(s: Segment, pid: nat)
    ensures OfProcess([s], pid) == if s.pid == pid then [s] else []
  {
    assert [s][1..] == [];
  }

  /** Different segments never overlap. */
  lemma DifferentSegmentsApart(m: Memory, s: Segment, t: Segment)
    requires Valid(m) && s in m.segments && t in m.segments && s != t
    ensures s.base + s.size <= t.base || t.base + t.size <= s.base
  {
    var i :| 0 <= i < |m.segments| && m.segments[i] == s;
    var j :| 0 <= j < |m.segments| && m.segments[j] == t;
    SegmentsDisjoint(m, i, j);
  }

  /** Bytes stored inside segment s leave a different segment t alone. */
  lemma StoreElsewhere(m: Memory, flat: seq<Byte>, s: Segment, t: Segment, offset: nat, data: seq<Byte>)
    requires Valid(m) && |flat| == m.totalSize && s in m.segments && t in m.segments && s != t
    requires 0 <= s.base && offset + |data| <= s.size && s.base + s.size <= |flat|
    requires 0 <= t.base && 0 <= t.size && t.base + t.size <= |flat|
    ensures |Store(flat, s.base + offset, data)| == |flat|
    ensures Store(flat, s.base + offset, data)[t.base..t.base + t.size] == flat[t.base..t.base + t.size]
  {
    DifferentSegmentsApart(m, s, t);
    StoreBeside(flat, s.base + offset, data, t.base, t.base + t.size);
  }

  /** Bytes stored beside a range leave it alone. */
  lemma StoreBeside(flat: seq<Byte>, address: nat, data: seq<Byte>, low: nat, high: nat)
    requires address + |data| <= |flat| && low <= high <= |flat|
    requires address + |data| <= low || high <= address
    ensures |Store(flat, address, data)| == |flat| && Store(flat, address, data)[low..high] == flat[low..high]
  {
    var after := Store(flat, address, data);
    forall a | low <= a < high ensures after[a] == flat[a] {
    }
  }

  // ---------- restoring, block by block ----------

  /** The resume loop has reached block i: segments 0 .. j-1 are back, and of segment j the
      first p parts are; exactly the rest is still stored, all of it from block i on. */
  ghost predicate Restoring(km: Km, pid: nat, img: Image, j: nat, p: nat, i: nat)
    requires KmValid(km)
  {
    var mine := OfProcess(km.memory.segments, pid);
    && j <= |img| && (p > 0 ==> j < |img|)
    && |mine| == (if p > 0 then j + 1 else j)
    && (forall k :: 0 <= k < |img| ==> |img[k]| > 0)
    && (forall k :: 0 <= k < |mine| ==> mine[k].id == k && mine[k].size == |img[k]| && InRange(km, mine[k]))
    && (forall k :: 0 <= k < j ==> BytesOf(km, mine[k]) == img[k])
    && (p > 0 ==> var n := Min(p * km.blockSize, |img[j]|); BytesOf(km, mine[j])[..n] == img[j][..n])
    && (forall k :: 0 <= k < i && k < |km.blocks| ==> !OwnedBy(km.blocks[k], pid))
    && StoredFrom(km.blocks, km.file, pid, i) == Remaining(img, km.blockSize, j, p)
  }

  function Remaining(img: Image, blockSize: nat, j: nat, p: nat): seq<Record>
    requires blockSize > 0 && j <= |img| && (p > 0 ==> j < |img|)
  {
    if p == 0 then CutFrom(img, blockSize, j) else Cut(img[j], j, blockSize, p) + CutFrom(img, blockSize, j + 1)
  }

  /** Blocks the process does not own add nothing to what is stored for it. */
  lemma {:induction false} StoredSkips(blocks: seq<Block>, file: seq<seq<Byte>>, pid: nat, i: nat, n: nat)
    requires |file| == |blocks| && i <= n
    requires forall k :: i <= k < n && k < |blocks| ==> !OwnedBy(blocks[k], pid)
    ensures StoredFrom(blocks, file, pid, i) == StoredFrom(blocks, file, pid, n)
    decreases n - i
  {
    if i < n && i < |blocks| {
      StoredSkips(blocks, file, pid, i + 1, n);
    }
  }

  lemma RepresentsIsRestoring(km: Km, pid: nat, img: Image, j: nat, i: nat)
    requires KmValid(km)
    requires forall k :: 0 <= k < i && k < |km.blocks| ==> !OwnedBy(km.blocks[k], pid)
    ensures Restoring(km, pid, img, j, 0, i) <==> Represents(km, pid, img, j)
  {
    StoredSkips(km.blocks, km.file, pid, 0, i);
  }

  /** A segment whose parts are all back is a segment that is back. */
  lemma SegmentComplete(km: Km, pid: nat, img: Image, j: nat, p: nat, i: nat)
    requires KmValid(km) && Restoring(km, pid, img, j, p, i) && p > 0 && p * km.blockSize >= |img[j]|
    ensures Restoring(km, pid, img, j + 1, 0, i)
  {
    var mine := OfProcess(km.memory.segments, pid);
    assert BytesOf(km, mine[j])[..|img[j]|] == BytesOf(km, mine[j]);
    assert img[j][..|img[j]|] == img[j];
  }

  /** The record that comes next. */
  lemma NextRecord(img: Image, blockSize: nat, j: nat, p: nat)
    requires blockSize > 0 && j < |img| && p * blockSize < |img[j]|
    ensures Remaining(img, blockSize, j, p)
         == [PartRecord(img[j], j, blockSize, p)] + Remaining(img, blockSize, j, p + 1)
  {
    var r, rest, tail := PartRecord(img[j], j, blockSize, p), Cut(img[j], j, blockSize, p + 1), CutFrom(img, blockSize, j + 1);
    assert Cut(img[j], j, blockSize, p) == [r] + rest;
    assert ([r] + rest) + tail == [r] + (rest + tail);
  }

  /** Storing the image's bytes offset .. offset+n behind a restored prefix extends the prefix. */
  lemma StoreExtendsPrefix(flat: seq<Byte>, base: nat, image: seq<Byte>, offset: nat, n: nat)
    requires base + |image| <= |flat| && offset + n <= |image| && offset < |image|
    requires flat[base..base + |image|][..offset] == image[..offset]
    ensures var after := Store(flat, base + offset, image[offset..offset + n]);
            |after| == |flat| && after[base..base + |image|][..offset + n] == image[..offset + n]
  {
    var after := Store(flat, base + offset, image[offset..offset + n]);
    forall a | 0 <= a < offset + n ensures after[base + a] == image[a] {
      if a < offset {
        assert flat[base..base + |image|][..offset][a] == image[..offset][a];
      }
    }
  }

  /** A segment is rebuilt in the hole that the strategy asks for, whenever some hole can take it, and
      otherwise nothing changes: a resumption never makes memory compact. */
  lemma RebuiltByStrategy(m: Memory, id: nat, pid: nat, size: int) returns (i: nat)
    requires Valid(m) && !m.strategy.Unsupported? && size > 0
    ensures if exists h :: h in m.holes && size <= h.size
            then StrategysChoice(m, size, i) && RegenerateSegment(m, id, pid, size) == (PlacedAt(m, i, id, pid, size), true)
            else RegenerateSegment(m, id, pid, size) == (m, false)
  {
    RegenerateLaw(m, id, pid, size);
    i := 0;
    ChosenFits(m, size);
    if exists h :: h in m.holes && size <= h.size {
      i := SelectedIsStrategys(m, size);
      HoleFitsTotal(m.holes, m.holes[i]);
    }
  }

  lemma RegenerateLaw(m: Memory, id: nat, pid: nat, size: int)
    requires Valid(m) && size > 0
    ensures var r := RegenerateSegment(m, id, pid, size);
            && Valid(r.0) && r.0.totalSize == m.totalSize && r.0.strategy == m.strategy
            && (if r.1 then |r.0.segments| == |m.segments| + 1 && r.0.segments[..|m.segments|] == m.segments
                            && Shape(r.0.segments[|m.segments|]) == (id, pid, size)
                            && FreeSpace(r.0) == FreeSpace(m) - size
                            && |r.0.holes| <= |m.holes|
                else r.0 == m)
  {
    ChosenFits(m, size);
    if FreeSpace(m) >= size {
      if SelectedHole(m, size).size == -1 {
        forall h | h in m.holes ensures h.base != -1 { HoleInBounds(m, h); }
        NoSuchBase(m.holes, -1, size);
      } else {
        PlacementKeepsValid(m, size, pid, id);
        var m' := RegenerateSegment(m, id, pid, size).0;
        SpaceIsConserved(m);
        SpaceIsConserved(m');
        var s := m'.segments[|m.segments|];
        AppendPlaces(m.segments, s);
        TotalConcat(Places(m.segments), [Place(s)]);
        CarveCount(m.holes, SelectedHole(m, size).base, size);
      }
    }
  }

  lemma {:induction false} CarveCount(holes: seq<Extent>, base: int, size: int)
    ensures |Carve(holes, base, size)| <= |holes|
  {
    if holes != [] {
      CarveCount(holes[1..], base, size);
    }
  }

  /** Segment j is rebuilt and holds its first p parts; segments before it are complete. */
  ghost predicate Rebuilt(km: Km, pid: nat, img: Image, j: nat, p: nat)
    requires km.blockSize > 0 && j < |img| && p * km.blockSize < |img[j]|
  {
    var mine := OfProcess(km.memory.segments, pid);
    && |mine| == j + 1
    && (forall k :: 0 <= k < |img| ==> |img[k]| > 0)
    && (forall k :: 0 <= k < |mine| ==> mine[k].id == k && mine[k].size == |img[k]| && InRange(km, mine[k]))
    && (forall k :: 0 <= k < j ==> BytesOf(km, mine[k]) == img[k])
    && BytesOf(km, mine[j])[..p * km.blockSize] == img[j][..p * km.blockSize]
  }

  function PartBytes(bytes: seq<Byte>, blockSize: nat, p: nat): seq<Byte>
    requires blockSize > 0 && p * blockSize < |bytes|
  {
    bytes[p * blockSize..p * blockSize + Min(|bytes| - p * blockSize, blockSize)]
  }

  /** The state after part p of segment j was copied back and its block i was released. */
  function Copied(km: Km, i: nat, s: Segment, p: nat, content: seq<Byte>): Km
    requires i < |km.blocks|
  {
    km.(flat := Store(km.flat, s.base + km.blockSize * p, content), blocks := km.blocks[i := Free])
  }

  lemma CopyKeepsValid(km: Km, i: nat, s: Segment, p: nat, content: seq<Byte>)
    requires KmValid(km) && i < |km.blocks| && InRange(km, s) && p * km.blockSize + |content| <= s.size
    ensures KmValid(Copied(km, i, s, p, content))
  {
  }

  /** The own bytes after a copy. */
  lemma CopyOwnPart(km: Km, pid: nat, img: Image, j: nat, p: nat, i: nat)
    requires KmValid(km) && i < |km.blocks|
    requires j < |img| && p * km.blockSize < |img[j]| && Rebuilt(km, pid, img, j, p)
    ensures var mine := OfProcess(km.memory.segments, pid);
            var km' := Copied(km, i, mine[j], p, PartBytes(img[j], km.blockSize, p));
            var m := Min((p + 1) * km.blockSize, |img[j]|);
            |km'.flat| == |km.flat| && BytesOf(km', mine[j])[..m] == img[j][..m]
  {
    var s, offset := OfProcess(km.memory.segments, pid)[j], p * km.blockSize;
    var n := Min(|img[j]| - offset, km.blockSize);
    PartEnd(km.blockSize, p, |img[j]|);
    StoreExtendsPrefix(km.flat, s.base, img[j], offset, n);
  }

  /** Part p ends where part p + 1 starts, or at the end of the segment. */
  lemma PartEnd(blockSize: nat, p: nat, size: nat)
    requires p * blockSize < size
    ensures Min((p + 1) * blockSize, size) == p * blockSize + Min(size - p * blockSize, blockSize)
  {
  }

  /** A copy into one segment leaves the bytes of another one alone. */
  lemma CopyBeside(km: Km, pid: nat, s: Segment, t: Segment, p: nat, content: seq<Byte>, i: nat)
    requires KmValid(km) && i < |km.blocks| && InRange(km, s) && InRange(km, t)
    requires s in km.memory.segments && t in km.memory.segments && s != t
    requires p * km.blockSize + |content| <= s.size
    ensures |Copied(km, i, s, p, content).flat| == |km.flat|
    ensures InRange(Copied(km, i, s, p, content), t) && BytesOf(Copied(km, i, s, p, content), t) == BytesOf(km, t)
  {
    var address := s.base + km.blockSize * p;
    assert address + |content| <= s.base + s.size;
    DifferentSegmentsApart(km.memory, s, t);
    StoreBeside(km.flat, address, content, t.base, t.base + t.size);
  }

  lemma CopyOwn(km: Km, pid: nat, img: Image, j: nat, p: nat, i: nat)
    requires KmValid(km) && i < |km.blocks|
    requires j < |img| && p * km.blockSize < |img[j]| && Rebuilt(km, pid, img, j, p)
    ensures var mine := OfProcess(km.memory.segments, pid);
            var km' := Copied(km, i, mine[j], p, PartBytes(img[j], km.blockSize, p));
            var m := Min((p + 1) * km.blockSize, |img[j]|);
            && |km'.flat| == |km.flat|
            && BytesOf(km', mine[j])[..m] == img[j][..m]
            && (forall k :: 0 <= k < j ==> InRange(km', mine[k]) && BytesOf(km', mine[k]) == img[k])
  {
    var mine := OfProcess(km.memory.segments, pid);
    var s, content := mine[j], PartBytes(img[j], km.blockSize, p);
    var km' := Copied(km, i, s, p, content);
    CopyOwnPart(km, pid, img, j, p, i);
    OfProcessMembers(km.memory.segments, pid);
    assert s in mine;
    forall k | 0 <= k < j ensures InRange(km', mine[k]) && BytesOf(km', mine[k]) == img[k] {
      assert mine[k] in mine;
      CopyBeside(km, pid, s, mine[k], p, content, i);
    }
  }

  /** Nobody else notices a copy. */
  lemma CopyOthers(km: Km, pid: nat, i: nat, s: Segment, p: nat, content: seq<Byte>, q: nat)
    requires KmValid(km) && i < |km.blocks| && OwnedBy(km.blocks[i], pid) && q != pid
    requires s in km.memory.segments && s.pid == pid && InRange(km, s)
    requires p * km.blockSize + |content| <= s.size
    ensures SwapShape(Copied(km, i, s, p, content)) && SameFor(km, Copied(km, i, s, p, content), q)
  {
    var km' := Copied(km, i, s, p, content);
    StoredSame(km.blocks, km.file, km'.blocks, km'.file, q, 0);
    OfProcessMembers(km.memory.segments, q);
    forall t | t in OfProcess(km.memory.segments, q) && InRange(km, t) ensures BytesOf(km', t) == BytesOf(km, t) {
      StoreElsewhere(km.memory, km.flat, s, t, p * km.blockSize, content);
    }
  }

  /** The copy half of a block's restoration: part p of segment j goes back in place. */
  lemma CopyPart(km: Km, pid: nat, img: Image, j: nat, p: nat, i: nat)
    requires KmValid(km) && i < |km.blocks| && OwnedBy(km.blocks[i], pid)
    requires j < |img| && p * km.blockSize < |img[j]| && Rebuilt(km, pid, img, j, p)
    requires forall k :: 0 <= k < i ==> !OwnedBy(km.blocks[k], pid)
    requires StoredFrom(km.blocks, km.file, pid, i + 1) == Remaining(img, km.blockSize, j, p + 1)
    ensures var s := OfProcess(km.memory.segments, pid)[j];
            var km' := Copied(km, i, s, p, PartBytes(img[j], km.blockSize, p));
            && KmValid(km') && Restoring(km', pid, img, j, p + 1, i + 1)
            && (forall q :: q != pid ==> SameFor(km, km', q))
  {
    var mine := OfProcess(km.memory.segments, pid);
    var s, content := mine[j], PartBytes(img[j], km.blockSize, p);
    var km' := Copied(km, i, s, p, content);
    OfProcessMembers(km.memory.segments, pid);
    assert s in mine;
    CopyKeepsValid(km, i, s, p, content);
    CopyOwn(km, pid, img, j, p, i);
    StoredSame(km.blocks, km.file, km'.blocks, km'.file, pid, i + 1);
    forall q | q != pid ensures SameFor(km, km', q) {
      CopyOthers(km, pid, i, s, p, content, q);
    }
  }

  /** The next owned block is the next part of the image. */
  lemma NextBlock(km: Km, pid: nat, img: Image, j: nat, p: nat, i: nat)
    requires KmValid(km) && i < |km.blocks| && OwnedBy(km.blocks[i], pid)
    requires j < |img| && p * km.blockSize < |img[j]|
    requires StoredFrom(km.blocks, km.file, pid, i) == Remaining(img, km.blockSize, j, p)
    ensures km.blocks[i] == Claimed(pid, j, p, |img[j]|)
    ensures km.file[i][..Min(|img[j]| - p * km.blockSize, km.blockSize)] == PartBytes(img[j], km.blockSize, p)
    ensures StoredFrom(km.blocks, km.file, pid, i + 1) == Remaining(img, km.blockSize, j, p + 1)
  {
    NextRecord(img, km.blockSize, j, p);
    var b := km.blocks[i];
    var stored := StoredFrom(km.blocks, km.file, pid, i);
    assert stored[0] == Record(b.segment, b.part, b.size, km.file[i]);
    assert stored[1..] == StoredFrom(km.blocks, km.file, pid, i + 1);
    assert stored[0] == PartRecord(img[j], j, km.blockSize, p);
  }

  lemma BlockUnfold(km: Km, i: nat, pid: nat, j: nat, p: nat, size: int, m': Memory, content: seq<Byte>)
    requires SwapShape(km) && i < |km.blocks| && km.blocks[i] == Claimed(pid, j, p, size)
    requires p * km.blockSize < size && j < |OfProcess(m'.segments, pid)|
    requires content == km.file[i][..Min(size - p * km.blockSize, km.blockSize)]
    requires if p == 0 then RegenerateSegment(km.memory, j, pid, size) == (m', true) else m' == km.memory
    ensures ResumeBlock(km, i, pid)
         == (Copied(km.(memory := m'), i, OfProcess(m'.segments, pid)[j], p, content), Resumed)
  {
  }

  /** The state after a first part has rebuilt its segment, before any byte is copied. */
  lemma AfterRegenerate(km: Km, m': Memory, pid: nat, img: Image, j: nat)
    requires KmValid(km) && j < |img| && |img[j]| > 0 && |OfProcess(km.memory.segments, pid)| == j
    requires RegenerateSegment(km.memory, j, pid, |img[j]|) == (m', true)
    ensures var km1 := km.(memory := m');
            var s := m'.segments[|m'.segments| - 1];
            && KmValid(km1)
            && OfProcess(m'.segments, pid) == OfProcess(km.memory.segments, pid) + [s]
            && s.id == j && s.size == |img[j]| && InRange(km1, s)
            && (forall q :: q != pid ==> SameFor(km, km1, q))
  {
    RegenerateLaw(km.memory, j, pid, |img[j]|);
    var n := |km.memory.segments|;
    var s := m'.segments[n];
    assert m'.segments == km.memory.segments + [s];
    SegmentInBounds(m', n);
    OfProcessConcat(km.memory.segments, [s], pid);
    OfProcessOne(s, pid);
    forall q | q != pid ensures SameFor(km, km.(memory := m'), q) {
      OfProcessConcat(km.memory.segments, [s], q);
      OfProcessOne(s, q);
    }
  }

  lemma RebuiltEmpty(km: Km, m': Memory, pid: nat, img: Image, j: nat, i: nat)
    requires KmValid(km) && Restoring(km, pid, img, j, 0, i) && j < |img|
    requires RegenerateSegment(km.memory, j, pid, |img[j]|) == (m', true)
    ensures KmValid(km.(memory := m')) && Rebuilt(km.(memory := m'), pid, img, j, 0)
  {
    AfterRegenerate(km, m', pid, img, j);
    var km1 := km.(memory := m');
    var old_ := OfProcess(km.memory.segments, pid);
    var mine := OfProcess(m'.segments, pid);
    forall k | 0 <= k < j ensures mine[k] == old_[k] && BytesOf(km1, mine[k]) == img[k] {}
    assert BytesOf(km1, mine[j])[..0] == img[j][..0];
  }

  /** A first part either rebuilds its segment and restores that part, or finds no hole and
      changes nothing. */
  lemma FirstPartStep(km: Km, pid: nat, img: Image, j: nat, i: nat)
    requires KmValid(km) && Restoring(km, pid, img, j, 0, i)
    requires i < |km.blocks| && OwnedBy(km.blocks[i], pid) && j < |img|
    ensures var r := ResumeBlock(km, i, pid);
            var g := RegenerateSegment(km.memory, j, pid, |img[j]|);
            && KmValid(r.0) && (forall q :: q != pid ==> SameFor(km, r.0, q))
            && (if g.1 then r.1 == Resumed && Restoring(r.0, pid, img, j, 1, i + 1) && r.0.memory == g.0
                else r == (km, Failed))
  {
    NextBlock(km, pid, img, j, 0, i);
    var g := RegenerateSegment(km.memory, j, pid, |img[j]|);
    if g.1 {
      FirstPartCopied(km, pid, img, j, i, g.0);
    } else {
      RegenerateLaw(km.memory, j, pid, |img[j]|);
    }
  }

  lemma FirstPartCopied(km: Km, pid: nat, img: Image, j: nat, i: nat, m': Memory)
    requires KmValid(km) && Restoring(km, pid, img, j, 0, i)
    requires i < |km.blocks| && OwnedBy(km.blocks[i], pid) && j < |img|
    requires RegenerateSegment(km.memory, j, pid, |img[j]|) == (m', true)
    ensures var r := ResumeBlock(km, i, pid);
            && KmValid(r.0) && (forall q :: q != pid ==> SameFor(km, r.0, q))
            && r.1 == Resumed && Restoring(r.0, pid, img, j, 1, i + 1) && r.0.memory == m'
  {
    var km1 := km.(memory := m');
    NextBlock(km, pid, img, j, 0, i);
    RebuiltEmpty(km, m', pid, img, j, i);
    AfterRegenerate(km, m', pid, img, j);
    CopyPart(km1, pid, img, j, 0, i);
    BlockUnfold(km, i, pid, j, 0, |img[j]|, m', PartBytes(img[j], km.blockSize, 0));
    OthersSameTwice(km, km1, ResumeBlock(km, i, pid).0, pid);
  }

  lemma OthersSameTwice(a: Km, b: Km, c: Km, pid: nat)
    requires SwapShape(a) && SwapShape(b) && SwapShape(c)
    requires (forall q :: q != pid ==> SameFor(a, b, q)) && forall q :: q != pid ==> SameFor(b, c, q)
    ensures forall q :: q != pid ==> SameFor(a, c, q)
  {
    forall q | q != pid ensures SameFor(a, c, q) {
      SameForTrans(a, b, c, q);
    }
  }

  lemma LaterPartStep(km: Km, pid: nat, img: Image, j: nat, p: nat, i: nat)
    requires KmValid(km) && Restoring(km, pid, img, j, p, i) && p > 0
    requires i < |km.blocks| && OwnedBy(km.blocks[i], pid) && p * km.blockSize < |img[j]|
    ensures var r := ResumeBlock(km, i, pid);
            && KmValid(r.0) && (forall q :: q != pid ==> SameFor(km, r.0, q))
            && r.1 == Resumed && Restoring(r.0, pid, img, j, p + 1, i + 1) && r.0.memory == km.memory
  {
    NextBlock(km, pid, img, j, p, i);
    CopyPart(km, pid, img, j, p, i);
    BlockUnfold(km, i, pid, j, p, |img[j]|, km.memory, PartBytes(img[j], km.blockSize, p));
  }

  // ---------- the whole resumption ----------

  /** What the rest of a resumption, begun with j segments complete, has achieved with j' complete. */
  ghost predicate Achieved(km: Km, pid: nat, img: Image, j: nat, r: (Km, ResumeOutcome), j': nat)
    requires SwapShape(km)
  {
    && KmValid(r.0) && (forall q :: q != pid ==> SameFor(km, r.0, q))
    && j <= j' <= |img| && Represents(r.0, pid, img, j')
    && (r.1 == Resumed <==> j' == |img|)
    && (r.1 == Resumed || r.1 == Failed)
  }

  /** The end of the block table. */
  lemma LoopEnds(km: Km, pid: nat, img: Image, j: nat, p: nat, i: nat)
    requires KmValid(km) && Restoring(km, pid, img, j, p, i) && i >= |km.blocks|
    requires p > 0 ==> p * km.blockSize < |img[j]|
    ensures Achieved(km, pid, img, j, ResumeFrom(km, i, pid), j)
  {
    assert Remaining(img, km.blockSize, j, p) == [];
    if j < |img| { NextRecord(img, km.blockSize, j, p); }
    RepresentsIsRestoring(km, pid, img, j, i);
  }

  /** One block of the process: its part is back in place, or its segment found no hole. */
  lemma LoopStep(km: Km, pid: nat, img: Image, j: nat, p: nat, i: nat)
    requires KmValid(km) && Restoring(km, pid, img, j, p, i)
    requires i < |km.blocks| && OwnedBy(km.blocks[i], pid) && (p > 0 ==> p * km.blockSize < |img[j]|)
    ensures j < |img|
    ensures var r := ResumeBlock(km, i, pid);
            && KmValid(r.0) && (forall q :: q != pid ==> SameFor(km, r.0, q)) && |r.0.blocks| == |km.blocks|
            && (if r.1 == Resumed then Restoring(r.0, pid, img, j, p + 1, i + 1)
                else Achieved(km, pid, img, j, r, j))
  {
    assert StoredFrom(km.blocks, km.file, pid, i) != [];
    assert j < |img|;
    if p == 0 {
      FirstPartStep(km, pid, img, j, i);
      RepresentsIsRestoring(km, pid, img, j, i);
    } else {
      LaterPartStep(km, pid, img, j, p, i);
    }
  }

  lemma OutcomeAfter(km: Km, km1: Km, pid: nat, img: Image, j: nat, r: (Km, ResumeOutcome), j': nat)
    requires SwapShape(km) && SwapShape(km1)
    requires (forall q :: q != pid ==> SameFor(km, km1, q)) && Achieved(km1, pid, img, j, r, j')
    ensures Achieved(km, pid, img, j, r, j')
  {
    forall q | q != pid ensures SameFor(km, r.0, q) {
      SameForTrans(km, km1, r.0, q);
    }
  }

  lemma SkipsForeign(km: Km, pid: nat, img: Image, j: nat, p: nat, i: nat)
    requires KmValid(km) && Restoring(km, pid, img, j, p, i) && i < |km.blocks| && !OwnedBy(km.blocks[i], pid)
    ensures Restoring(km, pid, img, j, p, i + 1) && ResumeFrom(km, i, pid) == ResumeFrom(km, i + 1, pid)
  {
  }

  /** The resume loop: it brings back the whole image, or stops at a segment that found no hole,
      leaving a prefix of the image in memory and exactly the rest in swap. */
  lemma {:induction false} ResumeLoop(km: Km, pid: nat, img: Image, j: nat, p: nat, i: nat) returns (j': nat)
    requires KmValid(km) && Restoring(km, pid, img, j, p, i)
    ensures Achieved(km, pid, img, j, ResumeFrom(km, i, pid), j')
    decreases |km.blocks| - i, j < |img|, |img| - j
  {
    if p > 0 && p * km.blockSize >= |img[j]| {
      SegmentComplete(km, pid, img, j, p, i);
      j' := ResumeLoop(km, pid, img, j + 1, 0, i);
    } else if i >= |km.blocks| {
      LoopEnds(km, pid, img, j, p, i);
      j' := j;
    } else if !OwnedBy(km.blocks[i], pid) {
      SkipsForeign(km, pid, img, j, p, i);
      j' := ResumeLoop(km, pid, img, j, p, i + 1);
    } else {
      LoopStep(km, pid, img, j, p, i);
      var r := ResumeBlock(km, i, pid);
      if r.1 == Resumed {
        j' := ResumeLoop(r.0, pid, img, j, p + 1, i + 1);
        OutcomeAfter(km, r.0, pid, img, j, ResumeFrom(km, i, pid), j');
      } else {
        j' := j;
      }
    }
  }

  lemma {:induction false} StoredMeansOwned(blocks: seq<Block>, file: seq<seq<Byte>>, pid: nat, i: nat)
    requires |file| == |blocks|
    ensures StoredFrom(blocks, file, pid, i) != [] <==> exists k :: i <= k < |blocks| && OwnedBy(blocks[k], pid)
    decreases |blocks| - i
  {
    if i < |blocks| {
      StoredMeansOwned(blocks, file, pid, i + 1);
    }
  }

  /** Resuming a process whose image is split at segment j: the reply is OK exactly when there was
      something to bring back and all of it is back; otherwise memory holds a longer or equal
      prefix of the image and swap exactly the rest, so that the resumption can be repeated.
      It never follows a null segment, and no other process notices. */
  lemma ResumeRestoresImage(km: Km, pid: nat, img: Image, j: nat) returns (j': nat)
    requires KmValid(km) && Represents(km, pid, img, j)
    ensures var r := ResumeProcess(km, pid);
            && KmValid(r.0) && (forall q :: q != pid ==> SameFor(km, r.0, q))
            && j <= j' <= |img| && Represents(r.0, pid, img, j')
            && r.1 != Faulted
            && (r.1 == Resumed <==> j < |img| && j' == |img|)
  {
    if j < |img| { NextRecord(img, km.blockSize, j, 0); }
    StoredMeansOwned(km.blocks, km.file, pid, 0);
    RepresentsIsRestoring(km, pid, img, j, 0);
    if SizeInSwap(km.blocks, pid, 0) > FreeSpace(km.memory) {
      j' := j;
      if j == |img| {
        NothingToResume(km, pid, 0);
        TotalNonNegative(km.memory.holes);
      }
    } else {
      j' := ResumeLoop(km, pid, img, j, 0, 0);
    }
  }

  lemma {:induction false} NothingToResume(km: Km, pid: nat, i: nat)
    requires forall k :: 0 <= k < |km.blocks| ==> !OwnedBy(km.blocks[k], pid)
    ensures SizeInSwap(km.blocks, pid, i) == 0
    decreases |km.blocks| - i
  {
    if i < |km.blocks| {
      NothingToResume(km, pid, i + 1);
    }
  }

  // ---------- when a resumption cannot fail ----------

  /** The bytes of segments j, j+1, ... */
  function BytesFrom(img: Image, j: nat): nat
    decreases |img| - j
  {
    if j >= |img| then 0 else |img[j]| + BytesFrom(img, j + 1)
  }

  function FirstPartSizes(rs: seq<Record>): int {
    if rs == [] then 0 else (if rs[0].part == 0 then rs[0].size else 0) + FirstPartSizes(rs[1..])
  }

  lemma {:induction false} SizeInSwapIsStored(blocks: seq<Block>, file: seq<seq<Byte>>, pid: nat, i: nat)
    requires |file| == |blocks|
    ensures SizeInSwap(blocks, pid, i) == FirstPartSizes(StoredFrom(blocks, file, pid, i))
    decreases |blocks| - i
  {
    if i < |blocks| {
      SizeInSwapIsStored(blocks, file, pid, i + 1);
      if OwnedBy(blocks[i], pid) {
        assert StoredFrom(blocks, file, pid, i)[1..] == StoredFrom(blocks, file, pid, i + 1);
      }
    }
  }

  lemma {:induction false} FirstPartSizesConcat(x: seq<Record>, y: seq<Record>)
    ensures FirstPartSizes(x + y) == FirstPartSizes(x) + FirstPartSizes(y)
  {
    if x == [] {
      assert x + y == y;
    } else {
      assert (x + y)[1..] == x[1..] + y;
      FirstPartSizesConcat(x[1..], y);
    }
  }

  lemma {:induction false} LaterPartsAddNothing(bytes: seq<Byte>, id: nat, blockSize: nat, p: nat)
    requires blockSize > 0 && p > 0
    ensures FirstPartSizes(Cut(bytes, id, blockSize, p)) == 0
    decreases |bytes| - p * blockSize
  {
    if p * blockSize < |bytes| {
      assert (p + 1) * blockSize == p * blockSize + blockSize;
      LaterPartsAddNothing(bytes, id, blockSize, p + 1);
      assert Cut(bytes, id, blockSize, p)[1..] == Cut(bytes, id, blockSize, p + 1);
    }
  }

  lemma {:induction false} CutFromSizes(img: Image, blockSize: nat, j: nat)
    requires blockSize > 0 && j <= |img| && forall k :: 0 <= k < |img| ==> |img[k]| > 0
    ensures FirstPartSizes(CutFrom(img, blockSize, j)) == BytesFrom(img, j)
    decreases |img| - j
  {
    if j < |img| {
      var cut := Cut(img[j], j, blockSize, 0);
      assert 0 * blockSize == 0;
      assert cut[1..] == Cut(img[j], j, blockSize, 1);
      LaterPartsAddNothing(img[j], j, blockSize, 1);
      FirstPartSizesConcat(cut, CutFrom(img, blockSize, j + 1));
      CutFromSizes(img, blockSize, j + 1);
    }
  }

  /** The size check before a resumption weighs exactly the missing bytes of the image. */
  lemma SizeCheckIsExact(km: Km, pid: nat, img: Image, j: nat)
    requires KmValid(km) && Represents(km, pid, img, j)
    ensures SizeInSwap(km.blocks, pid, 0) == BytesFrom(img, j)
  {
    SizeInSwapIsStored(km.blocks, km.file, pid, 0);
    CutFromSizes(img, km.blockSize, j);
  }

  lemma RegenerateInOneHole(m: Memory, id: nat, pid: nat, size: int)
    requires Valid(m) && !m.strategy.Unsupported? && |m.holes| <= 1 && 0 < size <= FreeSpace(m)
    ensures RegenerateSegment(m, id, pid, size).1
  {
    SomeHoleFits(m.holes, size);
    assert m.holes[0] in m.holes;
    ChosenFits(m, size);
  }

  lemma {:induction false} LoopCompletesInOneHole(km: Km, pid: nat, img: Image, j: nat, p: nat, i: nat)
    requires KmValid(km) && Restoring(km, pid, img, j, p, i)
    requires !km.memory.strategy.Unsupported? && |km.memory.holes| <= 1
    requires BytesFrom(img, if p > 0 then j + 1 else j) <= FreeSpace(km.memory)
    ensures ResumeFrom(km, i, pid).1 == Resumed
    decreases |km.blocks| - i, j < |img|, |img| - j
  {
    if p > 0 && p * km.blockSize >= |img[j]| {
      SegmentComplete(km, pid, img, j, p, i);
      LoopCompletesInOneHole(km, pid, img, j + 1, 0, i);
    } else if i < |km.blocks| {
      if !OwnedBy(km.blocks[i], pid) {
        LoopCompletesInOneHole(km, pid, img, j, p, i + 1);
      } else {
        assert StoredFrom(km.blocks, km.file, pid, i) != [];
        assert j < |img|;
        if p == 0 {
          RegenerateInOneHole(km.memory, j, pid, |img[j]|);
          RegenerateLaw(km.memory, j, pid, |img[j]|);
          FirstPartStep(km, pid, img, j, i);
        } else {
          LaterPartStep(km, pid, img, j, p, i);
        }
        LoopCompletesInOneHole(ResumeBlock(km, i, pid).0, pid, img, j, p + 1, i + 1);
      }
    }
  }

  /** When the free space is one hole, as it is after every compaction, resuming a process with
      something in swap succeeds exactly when the missing bytes fit in the free space. */
  lemma ResumeCompletesInOneHole(km: Km, pid: nat, img: Image, j: nat)
    requires KmValid(km) && Represents(km, pid, img, j) && j < |img|
    requires !km.memory.strategy.Unsupported? && |km.memory.holes| <= 1
    ensures ResumeProcess(km, pid).1 == Resumed <==> BytesFrom(img, j) <= FreeSpace(km.memory)
  {
    SizeCheckIsExact(km, pid, img, j);
    NextRecord(img, km.blockSize, j, 0);
    StoredMeansOwned(km.blocks, km.file, pid, 0);
    if BytesFrom(img, j) <= FreeSpace(km.memory) {
      RepresentsIsRestoring(km, pid, img, j, 0);
      LoopCompletesInOneHole(km, pid, img, j, 0, 0);
    }
  }

  // ---------- ordinals and ids ----------

  /** A block is copied to the segment whose ordinal equals the recorded id. Right after a segment
      was rebuilt, that is the rebuilt segment exactly when its id is its ordinal; with a greater
      id there is no such segment, and with a smaller one another segment is overwritten. */
  lemma CopyHitsRebuiltSegmentIff(m: Memory, s: Segment)
    requires Valid(m) && m.segments != [] && s == m.segments[|m.segments| - 1]
    ensures var found, ordinal := FindSegment(m.segments, s.pid, s.id), |OfProcess(m.segments, s.pid)| - 1;
            && (found == Some(s) <==> s.id == ordinal)
            && (found == None <==> s.id > ordinal)
            && (found.Some? && found.value != s <==> s.id < ordinal)
  {
    var front := m.segments[..|m.segments| - 1];
    assert m.segments == front + [s];
    OfProcessConcat(front, [s], s.pid);
    OfProcessOne(s, s.pid);
    var mine := OfProcess(front, s.pid);
    if s.id < |mine| && mine[s.id] == s {
      OfProcessMembers(front, s.pid);
      assert mine[s.id] in mine;
      var i :| 0 <= i < |front| && front[i] == s;
      SegmentInBounds(m, i);
      SegmentsDisjoint(m, i, |front|);
    }
  }
}
