/** The CPU's own view of memory (cpu/memory.c): its copy of the stick list with precomputed
    offsets, its MMU, and the agreement of both with Kernel Memory. */
module CpuMemory {
  import opened Options
  import opened MemoryTables
  import opened AllocatorLaws
  import opened Sticks

  const UINT32 := 0x1_0000_0000

  /** The size every instruction gives to the MMU: one register. */
  const WORD := 4

  datatype StickInfo = StickInfo(offset: nat, size: nat)

  datatype MmuResult = Physical(address: int) | SegmentFault | NoSegment

  /** What an instruction handler returns: true, false or error. */
  datatype Verdict = Proceeds | Faults | Breaks

  /** The CPU's stick list mirrors the connected sticks, in order. */
  ghost predicate Mirrors(infos: seq<StickInfo>, sticks: seq<seq<Byte>>) {
    && |infos| == |sticks|
    && forall i :: 0 <= i < |infos| ==> infos[i] == StickInfo(StickBase(sticks, i), |sticks[i]|)
  }

  /** The CPU looks a segment up by id in the table it was sent: the first match. */
  function FindSegmentById(table: seq<Segment>, number: nat): Option<Segment> {
    if table == [] then None
    else if table[0].id == number then Some(table[0])
    else FindSegmentById(table[1..], number)
  }

  /** Logical to physical, bounds check included; the sum of two unsigned words wraps. */
  function Mmu(table: seq<Segment>, maxSegmentSize: nat, logical: nat, size: nat): MmuResult
    requires maxSegmentSize > 0
  {
    var offset := logical % maxSegmentSize;
    match FindSegmentById(table, logical / maxSegmentSize)
    case None => NoSegment
    case Some(s) => if (offset + size) % UINT32 > s.size then SegmentFault else Physical(s.base + offset)
  }

  /** Kernel Memory's translation: by ordinal, and without a bounds check; -1 for no segment. */
  function TranslateLogicalAddress(m: Memory, pid: nat, logical: nat): int
    requires m.maxSegmentSize > 0
  {
    match FindSegment(m.segments, pid, logical / m.maxSegmentSize)
    case None => -1
    case Some(s) => s.base + logical % m.maxSegmentSize
  }

  /** Kernel Memory answers with the ordinal's base and the offset, or with -1 if and only if the process
      has no segment of that ordinal. */
  lemma TranslationIs(m: Memory, pid: nat, logical: nat)
    requires Valid(m) && m.maxSegmentSize > 0
    ensures var mine, k := OfProcess(m.segments, pid), logical / m.maxSegmentSize;
            && (TranslateLogicalAddress(m, pid, logical) == -1 <==> k >= |mine|)
            && (k < |mine| ==> TranslateLogicalAddress(m, pid, logical) == mine[k].base + logical % m.maxSegmentSize)
  {
    var mine, k := OfProcess(m.segments, pid), logical / m.maxSegmentSize;
    if k < |mine| {
      OfProcessMembers(m.segments, pid);
      assert mine[k] in mine;
      var i :| 0 <= i < |m.segments| && m.segments[i] == mine[k];
      SegmentInBounds(m, i);
    }
  }

  lemma {:induction false} FindSegmentByIdSpec(table: seq<Segment>, number: nat)
    ensures match FindSegmentById(table, number)
            case Some(s) => s in table && s.id == number
            case None => forall s :: s in table ==> s.id != number
  {
    if table != [] && table[0].id != number {
      FindSegmentByIdSpec(table[1..], number);
    }
  }

  /** Entry i is the one that an address in segment number leads to: the first of this id. */
  ghost predicate FirstOfId(table: seq<Segment>, number: nat, i: nat) {
    i < |table| && table[i].id == number && forall j :: 0 <= j < i ==> table[j].id != number
  }

  lemma {:induction false} FoundIsFirst(table: seq<Segment>, number: nat, i: nat)
    requires FirstOfId(table, number, i)
    ensures FindSegmentById(table, number) == Some(table[i])
  {
    if i > 0 {
      assert table[0].id != number;
      FoundIsFirst(table[1..], number, i - 1);
    }
  }

  lemma {:induction false} SomeIsFirst(table: seq<Segment>, number: nat) returns (i: nat)
    requires exists s :: s in table && s.id == number
    ensures FirstOfId(table, number, i)
  {
    if table[0].id == number {
      i := 0;
    } else {
      i := SomeIsFirst(table[1..], number);
      i := i + 1;
    }
  }

  /** The segment number of the address is that of some segment of the table. */
  ghost predicate Mapped(table: seq<Segment>, maxSegmentSize: nat, logical: nat)
    requires maxSegmentSize > 0
  {
    exists s :: s in table && s.id == logical / maxSegmentSize
  }

  /** Behind the address, size bytes fit into entry i of the table, the sum taken modulo 2^32. */
  predicate FitsIn(table: seq<Segment>, i: nat, maxSegmentSize: nat, logical: nat, size: nat)
    requires i < |table| && maxSegmentSize > 0
  {
    (logical % maxSegmentSize + size) % UINT32 <= table[i].size
  }

  /** The MMU finds no segment if and only if none has the address's number. Otherwise the first of that
      number decides: an access that fits there gets its base plus the offset, any other one a fault. */
  lemma MmuVerdictIff(table: seq<Segment>, maxSegmentSize: nat, logical: nat, size: nat)
    requires maxSegmentSize > 0
    ensures Mmu(table, maxSegmentSize, logical, size) == NoSegment <==> !Mapped(table, maxSegmentSize, logical)
    ensures forall i: nat {:trigger FirstOfId(table, logical / maxSegmentSize, i)} ::
              FirstOfId(table, logical / maxSegmentSize, i) ==>
                Mmu(table, maxSegmentSize, logical, size)
                == if FitsIn(table, i, maxSegmentSize, logical, size) then Physical(table[i].base + logical % maxSegmentSize)
                   else SegmentFault
  {
    FindSegmentByIdSpec(table, logical / maxSegmentSize);
    forall i: nat | FirstOfId(table, logical / maxSegmentSize, i)
      ensures FindSegmentById(table, logical / maxSegmentSize) == Some(table[i])
    {
      FoundIsFirst(table, logical / maxSegmentSize, i);
    }
  }

  /** The CPU's lookup by id and Kernel Memory's by ordinal agree on every segment number exactly
      when the process's ids are 0, 1, 2, ... in list order. */
  lemma LookupsAgreeIff(segs: seq<Segment>, pid: nat)
    ensures (forall number: nat :: FindSegmentById(OfProcess(segs, pid), number) == FindSegment(segs, pid, number))
            <==> IdsAreOrdinals(OfProcess(segs, pid))
  {
    var table := OfProcess(segs, pid);
    if IdsAreOrdinals(table) {
      forall number: nat ensures FindSegmentById(table, number) == FindSegment(segs, pid, number) {
        FindSegmentByIdSpec(table, number);
        if number < |table| { assert table[number] in table; }
      }
    }
    if forall number: nat :: FindSegmentById(table, number) == FindSegment(segs, pid, number) {
      forall i | 0 <= i < |table| ensures table[i].id == i {
        FindSegmentByIdSpec(table, i);
        assert FindSegmentById(table, i) == FindSegment(segs, pid, i);
      }
    }
  }

  /** The segment an address that the MMU let through lies in: the first one of this id in the
      process's table, and its only one where ids differ. */
  lemma AddressedSegment(m: Memory, pid: nat, logical: nat, size: nat) returns (s: Segment)
    requires Valid(m) && m.maxSegmentSize > 0
    requires Mmu(OfProcess(m.segments, pid), m.maxSegmentSize, logical, size).Physical?
    ensures FindSegmentById(OfProcess(m.segments, pid), logical / m.maxSegmentSize) == Some(s)
    ensures Mmu(OfProcess(m.segments, pid), m.maxSegmentSize, logical, size).address == s.base + logical % m.maxSegmentSize
    ensures (logical % m.maxSegmentSize + size) % UINT32 <= s.size
    ensures s in m.segments && s.pid == pid && s.id == logical / m.maxSegmentSize
    ensures 0 <= s.base && s.size > 0 && s.base + s.size <= m.totalSize
  {
    var table := OfProcess(m.segments, pid);
    FindSegmentByIdSpec(table, logical / m.maxSegmentSize);
    s := FindSegmentById(table, logical / m.maxSegmentSize).value;
    OfProcessMembers(m.segments, pid);
    var i :| 0 <= i < |m.segments| && m.segments[i] == s;
    SegmentInBounds(m, i);
  }

  lemma OnlySegmentOfId(segs: seq<Segment>, pid: nat, s: Segment, t: Segment)
    requires DistinctIds(OfProcess(segs, pid)) && s in segs && t in segs && s.pid == t.pid == pid && s.id == t.id
    ensures s == t
  {
    var table := OfProcess(segs, pid);
    OfProcessHas(segs, pid, s);
    OfProcessHas(segs, pid, t);
    var i :| 0 <= i < |table| && table[i] == s;
    var k :| 0 <= k < |table| && table[k] == t;
  }

  /** An access of the checked size stays in the addressed segment exactly when the offset and the
      size do not wrap around; for a word and a segment limit that fits a C int they cannot. Where
      ids are ordinals, that is the process's only segment of this id, and Kernel Memory computes the
      same address. */
  lemma MmuConfinesIff(m: Memory, pid: nat, logical: nat, size: nat) returns (s: Segment)
    requires Valid(m) && m.totalSize < UINT32 && m.maxSegmentSize > 0
    requires logical < UINT32 && size < UINT32
    requires Mmu(OfProcess(m.segments, pid), m.maxSegmentSize, logical, size).Physical?
    ensures s in m.segments && s.pid == pid && s.id == logical / m.maxSegmentSize
    ensures var a := Mmu(OfProcess(m.segments, pid), m.maxSegmentSize, logical, size).address;
            && (s.base <= a && a + size <= s.base + s.size <==> logical % m.maxSegmentSize + size < UINT32)
            && (size <= WORD && m.maxSegmentSize <= INT_MAX ==> logical % m.maxSegmentSize + size < UINT32)
            && (IdsAreOrdinals(OfProcess(m.segments, pid)) ==>
                  && a == TranslateLogicalAddress(m, pid, logical)
                  && forall t :: t in m.segments && t.pid == pid && t.id == s.id ==> t == s)
  {
    s := AddressedSegment(m, pid, logical, size);
    if IdsAreOrdinals(OfProcess(m.segments, pid)) {
      LookupsAgreeIff(m.segments, pid);
      assert FindSegmentById(OfProcess(m.segments, pid), s.id) == FindSegment(m.segments, pid, s.id);
      forall t | t in m.segments && t.pid == pid && t.id == s.id ensures t == s {
        OnlySegmentOfId(m.segments, pid, s, t);
      }
    }
  }

  // ---------- COPY_MEM ----------

  /** COPY_MEM copies n bytes from the address in SI to the address in DI. Only a word is checked at
      each, and a fault at the destination does not fail the instruction. */
  function CopyMem(table: seq<Segment>, maxSegmentSize: nat, flat: seq<Byte>, si: nat, di: nat, n: nat)
    : (seq<Byte>, Verdict)
    requires maxSegmentSize > 0
  {
    match Mmu(table, maxSegmentSize, si, WORD)
    case SegmentFault => (flat, Faults)
    case NoSegment => (flat, Breaks)
    case Physical(src) =>
      match Mmu(table, maxSegmentSize, di, WORD)
      case SegmentFault => (flat, Proceeds)
      case NoSegment => (flat, Breaks)
      case Physical(dst) => CopyBetween(flat, src, dst, n)
  }

  /** The part behind the checks. */
  function CopyBetween(flat: seq<Byte>, src: int, dst: int, n: nat): (seq<Byte>, Verdict) {
    if n == 0 then (flat, Proceeds)
    else if src < 0 || src + n > |flat| then (flat, Breaks)
    else (Store(flat, dst, flat[src..src + n]), if dst + n <= |flat| then Proceeds else Breaks)
  }

  lemma MmuAddress(table: seq<Segment>, maxSegmentSize: nat, logical: nat)
    requires maxSegmentSize > 0 && forall s :: s in table ==> 0 <= s.base
    ensures var r := Mmu(table, maxSegmentSize, logical, WORD); r.Physical? ==> r.address >= 0
  {
    FindSegmentByIdSpec(table, logical / maxSegmentSize);
  }

  /** Where a word at this address lies, if its segment is mapped and the word fits there. */
  ghost predicate WordAt(table: seq<Segment>, maxSegmentSize: nat, logical: nat, a: int)
    requires maxSegmentSize > 0
  {
    exists i: nat :: FirstOfId(table, logical / maxSegmentSize, i) && FitsIn(table, i, maxSegmentSize, logical, WORD)
                     && a == table[i].base + logical % maxSegmentSize
  }

  ghost predicate WordFits(table: seq<Segment>, maxSegmentSize: nat, logical: nat)
    requires maxSegmentSize > 0
  {
    exists i: nat :: FirstOfId(table, logical / maxSegmentSize, i) && FitsIn(table, i, maxSegmentSize, logical, WORD)
  }

  lemma MmuOfWord(table: seq<Segment>, maxSegmentSize: nat, logical: nat)
    requires maxSegmentSize > 0
    ensures var r := Mmu(table, maxSegmentSize, logical, WORD);
            && (r == NoSegment <==> !Mapped(table, maxSegmentSize, logical))
            && (r.Physical? <==> WordFits(table, maxSegmentSize, logical))
            && (forall a :: r == Physical(a) <==> WordAt(table, maxSegmentSize, logical, a))
  {
    MmuVerdictIff(table, maxSegmentSize, logical, WORD);
    if Mapped(table, maxSegmentSize, logical) {
      var i := SomeIsFirst(table, logical / maxSegmentSize);
    }
  }

  /** The byte range exists. */
  predicate Exists(flat: seq<Byte>, a: int, n: nat) {
    0 <= a && a + n <= |flat|
  }

  /** What COPY_MEM answers. A source that is not mapped breaks it, one whose word does not fit faults;
      then a destination that is not mapped breaks it, and one whose word does not fit is passed over;
      then it proceeds if and only if both byte ranges exist. */
  lemma CopyVerdictIff(table: seq<Segment>, max: nat, flat: seq<Byte>, si: nat, di: nat, n: nat)
    requires max > 0 && forall s :: s in table ==> 0 <= s.base
    ensures var verdict := CopyMem(table, max, flat, si, di, n).1;
            && (verdict == Faults <==> Mapped(table, max, si) && !WordFits(table, max, si))
            && (!Mapped(table, max, si) ==> verdict == Breaks)
            && (WordFits(table, max, si) && !Mapped(table, max, di) ==> verdict == Breaks)
            && (WordFits(table, max, si) && Mapped(table, max, di) && !WordFits(table, max, di) ==> verdict == Proceeds)
            && forall src, dst :: WordAt(table, max, si, src) && WordAt(table, max, di, dst) ==>
                 verdict == if n == 0 || (Exists(flat, src, n) && Exists(flat, dst, n)) then Proceeds else Breaks
  {
    CopyRefusals(table, max, flat, si, di, n);
    forall src, dst | WordAt(table, max, si, src) && WordAt(table, max, di, dst)
      ensures CopyMem(table, max, flat, si, di, n).1
           == if n == 0 || (Exists(flat, src, n) && Exists(flat, dst, n)) then Proceeds else Breaks
    {
      CopyOfWords(table, max, flat, si, di, n, src, dst);
    }
  }

  lemma CopyRefusals(table: seq<Segment>, max: nat, flat: seq<Byte>, si: nat, di: nat, n: nat)
    requires max > 0
    ensures var verdict := CopyMem(table, max, flat, si, di, n).1;
            && (verdict == Faults <==> Mapped(table, max, si) && !WordFits(table, max, si))
            && (!Mapped(table, max, si) ==> verdict == Breaks)
            && (WordFits(table, max, si) && !Mapped(table, max, di) ==> verdict == Breaks)
            && (WordFits(table, max, si) && Mapped(table, max, di) && !WordFits(table, max, di) ==> verdict == Proceeds)
  {
    MmuOfWord(table, max, si);
    MmuOfWord(table, max, di);
  }

  lemma CopyOfWords(table: seq<Segment>, max: nat, flat: seq<Byte>, si: nat, di: nat, n: nat, src: int, dst: int)
    requires max > 0 && WordAt(table, max, si, src) && WordAt(table, max, di, dst)
    ensures CopyMem(table, max, flat, si, di, n) == CopyBetween(flat, src, dst, n)
    ensures (forall s :: s in table ==> 0 <= s.base) ==> src >= 0 && dst >= 0
  {
    MmuOfWord(table, max, si);
    MmuOfWord(table, max, di);
    assert Mmu(table, max, si, WORD) == Physical(src);
    assert Mmu(table, max, di, WORD) == Physical(dst);
  }

  /** What it does to memory. Unless both words fit and the source range exists, nothing; otherwise the
      bytes from the destination on become those of the source, as far as memory reaches. */
  lemma CopyEffect(table: seq<Segment>, max: nat, flat: seq<Byte>, si: nat, di: nat, n: nat)
    requires max > 0 && forall s :: s in table ==> 0 <= s.base
    ensures var flat' := CopyMem(table, max, flat, si, di, n).0;
            && (!(WordFits(table, max, si) && WordFits(table, max, di)) ==> flat' == flat)
            && forall src, dst :: WordAt(table, max, si, src) && WordAt(table, max, di, dst) ==>
                 if Exists(flat, src, n) then Overwritten(flat, flat', src, dst, n) else flat' == flat
  {
    MmuOfWord(table, max, si);
    MmuOfWord(table, max, di);
    forall src, dst | WordAt(table, max, si, src) && WordAt(table, max, di, dst)
      ensures var flat' := CopyMem(table, max, flat, si, di, n).0;
              if Exists(flat, src, n) then Overwritten(flat, flat', src, dst, n) else flat' == flat
    {
      CopyOfWords(table, max, flat, si, di, n, src, dst);
      BetweenEffect(flat, src, dst, n);
    }
  }

  /** The n bytes from dst on are those that were at src, the others what they were. */
  ghost predicate Overwritten(flat: seq<Byte>, flat': seq<Byte>, src: int, dst: int, n: nat)
    requires Exists(flat, src, n)
  {
    && |flat'| == |flat|
    && forall x :: 0 <= x < |flat| ==> flat'[x] == if dst <= x < dst + n then flat[src + (x - dst)] else flat[x]
  }

  lemma BetweenEffect(flat: seq<Byte>, src: int, dst: int, n: nat)
    requires src >= 0 && dst >= 0
    ensures var flat' := CopyBetween(flat, src, dst, n).0;
            if Exists(flat, src, n) then Overwritten(flat, flat', src, dst, n) else flat' == flat
  {
  }

  /** The bytes of memory outside segment s are what they were. */
  ghost predicate OnlyInside(s: Segment, flat: seq<Byte>, flat': seq<Byte>) {
    && |flat'| == |flat|
    && forall x :: 0 <= x < |flat| && !Place(s).Holds(x) ==> flat'[x] == flat[x]
  }

  /** Whatever a memory of this size contains, the copy changes nothing outside segment d. */
  ghost predicate CopyStaysIn(d: Segment, table: seq<Segment>, maxSegmentSize: nat, total: int, si: nat, di: nat, n: nat)
    requires maxSegmentSize > 0
  {
    forall flat: seq<Byte> :: |flat| == total ==> OnlyInside(d, flat, CopyMem(table, maxSegmentSize, flat, si, di, n).0)
  }

  /** A copy between two addresses that pass the word check, in segments s and d as AddressedSegment
      and MmuConfinesIff find them: it reads bytes of the source segment only if n bytes fit behind
      the address there. Whatever memory contains, it changes nothing outside the destination exactly
      when n bytes fit there, or the two addresses are the same, or the source runs out of memory, or
      the destination ends where memory does. */
  lemma CopyMemConfinedIff(table: seq<Segment>, max: nat, total: nat, s: Segment, d: Segment,
                           si: nat, di: nat, n: nat, src: nat, dst: nat)
    requires max > 0 && Mmu(table, max, si, WORD) == Physical(src) && Mmu(table, max, di, WORD) == Physical(dst)
    requires s.base <= src && 0 <= d.base <= dst <= Place(d).End() <= total
    ensures n > 0 ==> ((forall x :: src <= x < src + n ==> Place(s).Holds(x)) <==> src + n <= Place(s).End())
    ensures CopyStaysIn(d, table, max, total, si, di, n)
            <==> dst + n <= Place(d).End() || src == dst || src + n > total || Place(d).End() == total
  {
    if n > 0 && forall x :: src <= x < src + n ==> Place(s).Holds(x) {
      assert Place(s).Holds(src + n - 1);
    }
    forall flat: seq<Byte> | |flat| == total ensures CopyMem(table, max, flat, si, di, n).0 == Copied(flat, src, dst, n) {
      CopyUnfold(table, max, flat, si, di, n, src, dst);
    }
    CopiedConfinedIff(total, d, src, dst, n);
  }

  /** The effect of a copy between two physical addresses. */
  function Copied(flat: seq<Byte>, src: nat, dst: nat, n: nat): seq<Byte> {
    if src + n > |flat| then flat else Store(flat, dst, flat[src..src + n])
  }

  lemma CopyUnfold(table: seq<Segment>, max: nat, flat: seq<Byte>, si: nat, di: nat, n: nat, src: nat, dst: nat)
    requires max > 0 && Mmu(table, max, si, WORD) == Physical(src) && Mmu(table, max, di, WORD) == Physical(dst)
    ensures CopyMem(table, max, flat, si, di, n).0 == Copied(flat, src, dst, n)
  {
  }

  /** A copy that stays in range, or changes nothing, changes nothing outside. */
  lemma CopiedInside(flat: seq<Byte>, d: Segment, src: nat, dst: nat, n: nat)
    requires 0 <= d.base <= dst <= Place(d).End() <= |flat|
    requires dst + n <= Place(d).End() || src == dst || src + n > |flat| || Place(d).End() == |flat|
    ensures OnlyInside(d, flat, Copied(flat, src, dst, n))
  {
  }

  lemma CopiedConfinedIff(total: nat, d: Segment, src: nat, dst: nat, n: nat)
    requires 0 <= d.base <= dst <= Place(d).End() <= total
    ensures (forall flat: seq<Byte> :: |flat| == total ==> OnlyInside(d, flat, Copied(flat, src, dst, n)))
            <==> dst + n <= Place(d).End() || src == dst || src + n > total || Place(d).End() == total
  {
    if dst + n <= Place(d).End() || src == dst || src + n > total || Place(d).End() == total {
      forall flat: seq<Byte> | |flat| == total ensures OnlyInside(d, flat, Copied(flat, src, dst, n)) {
        CopiedInside(flat, d, src, dst, n);
      }
    } else {
      var flat := CopyEscapes(total, d, src, dst, n);
    }
  }

  /** A byte that the copy reaches becomes the byte as far behind the source. */
  lemma CopiedAt(flat: seq<Byte>, src: nat, dst: nat, n: nat, x: nat)
    requires src + n <= |flat| && dst <= x < dst + n && x < |flat|
    ensures |Copied(flat, src, dst, n)| == |flat| && Copied(flat, src, dst, n)[x] == flat[src + (x - dst)]
  {
    assert flat[src..src + n][x - dst] == flat[src + (x - dst)];
  }

  /** A memory of zeros but for one byte. */
  lemma OneByteSet(total: nat, from: nat) returns (flat: seq<Byte>)
    ensures |flat| == total && forall x :: 0 <= x < total ==> flat[x] == if x == from then 1 else 0
  {
    flat := seq(total, x => if x == from then 1 else 0);
  }

  /** A memory in which the copy changes the byte behind the destination segment. */
  lemma CopyEscapes(total: nat, d: Segment, src: nat, dst: nat, n: nat) returns (flat: seq<Byte>)
    requires src != dst && 0 <= d.base <= dst <= Place(d).End() < total && dst + n > Place(d).End() && src + n <= total
    ensures |flat| == total && !OnlyInside(d, flat, Copied(flat, src, dst, n))
  {
    var end := Place(d).End();
    flat := OneByteSet(total, src + (end - dst));
    CopiedAt(flat, src, dst, n, end);
    assert !Place(d).Holds(end);
  }

  lemma {:induction false} OfProcessHas(segs: seq<Segment>, pid: nat, t: Segment)
    requires t in segs && t.pid == pid
    ensures t in OfProcess(segs, pid)
  {
    if segs[0] != t {
      OfProcessHas(segs[1..], pid, t);
    }
  }

  class CpuView {
    var infos: seq<StickInfo>

    constructor ()
      ensures infos == []
    {
      infos := [];
    }

    method ComputeOffset(ghost sticks: seq<seq<Byte>>) returns (offset: nat)
      requires Mirrors(infos, sticks)
      ensures offset == |Flat(sticks)|
    {
      offset := 0;
      for i := 0 to |infos|
        invariant offset == StickBase(sticks, i)
      {
        FlatAt(sticks, i);
        offset := offset + infos[i].size;
      }
      assert sticks[..|sticks|] == sticks;
    }

    /** Announced sticks are appended, so the mirror stays exact. */
    method AddStick(size: nat, ghost sticks: seq<seq<Byte>>, ghost bytes: seq<Byte>)
      requires Mirrors(infos, sticks) && |bytes| == size
      modifies this
      ensures Mirrors(infos, sticks + [bytes])
    {
      var offset := ComputeOffset(sticks);
      ghost var sticks' := sticks + [bytes];
      assert forall i :: 0 <= i <= |sticks| ==> sticks'[..i] == sticks[..i];
      assert sticks[..|sticks|] == sticks;
      infos := infos + [StickInfo(offset, size)];
    }

    /** The CPU finds the stick and the offset that Kernel Memory's search finds: both find where
        the address lies, which StickIsUnique makes one place. */
    method FindStick(address: nat, ghost sticks: seq<seq<Byte>>) returns (index: int)
      requires Mirrors(infos, sticks)
      ensures -1 <= index < |infos|
      ensures index == -1 <==> address >= |Flat(sticks)|
      ensures index >= 0 ==> LiesAt(sticks, index, address - infos[index].offset, address)
    {
      for i := 0 to |infos|
        invariant StickBase(sticks, i) <= address
      {
        FlatAt(sticks, i);
        if infos[i].offset <= address < infos[i].offset + infos[i].size {
          return i;
        }
      }
      assert sticks[..|sticks|] == sticks;
      return -1;
    }

    /** The stick that holds the address, the place in it, and how much of what remains fits there. */
    method NextChunk(ghost sticks: seq<seq<Byte>>, address: nat, remaining: nat)
      returns (index: int, inStick: int, count: nat)
      requires Mirrors(infos, sticks) && remaining > 0
      ensures index == -1 <==> address >= |Flat(sticks)|
      ensures if index == -1 then count == 0
              else LiesAt(sticks, index, inStick, address) && 0 < count <= remaining && inStick + count <= |sticks[index]|
    {
      index := FindStick(address, sticks);
      if index == -1 {
        return index, 0, 0;
      }
      inStick := address - infos[index].offset;
      var available := infos[index].size - inStick;
      count := if available < remaining then available else remaining;
    }

    /** The CPU's split read is the flat slice, or nothing when any byte is missing. */
    method ReadMemory(bank: StickBank, address: nat, size: nat) returns (result: Option<seq<Byte>>)
      requires Mirrors(infos, bank.sticks)
      ensures result.Some? <==> size == 0 || address + size <= |Flat(bank.sticks)|
      ensures result.Some? ==> |result.value| == size
      ensures result.Some? && size > 0 ==> result.value == Flat(bank.sticks)[address..address + size]
    {
      var read: seq<Byte> := [];
      while |read| < size
        invariant |read| <= size
        invariant read != [] ==> address + |read| <= |Flat(bank.sticks)|
                                 && read == Flat(bank.sticks)[address..address + |read|]
      {
        var index, inStick, count := NextChunk(bank.sticks, address + |read|, size - |read|);
        if index == -1 {
          return None;
        }
        ReadChunk(bank.sticks, index, inStick, count);
        if read != [] { SliceJoin(Flat(bank.sticks), address, address + |read|, address + |read| + count); }
        read := read + bank.sticks[index][inStick..inStick + count];
      }
      return Some(read);
    }

    /** One round of the write loop: finds the stick for the next byte and stores what fits
        there; 0 when no stick holds the byte. */
    method WriteChunk(bank: StickBank, ghost flat0: seq<Byte>, address: nat, data: seq<Byte>, written: nat)
      returns (count: nat)
      requires Mirrors(infos, bank.sticks) && written < |data| && (written > 0 ==> address + written <= |flat0|)
      requires |Flat(bank.sticks)| == |flat0| && Flat(bank.sticks) == Store(flat0, address, data[..written])
      modifies bank
      ensures Mirrors(infos, bank.sticks) && |Flat(bank.sticks)| == |flat0|
      ensures count == 0 <==> address + written >= |flat0|
      ensures count > 0 ==> written + count <= |data| && address + written + count <= |flat0|
      ensures Flat(bank.sticks) == Store(flat0, address, data[..written + count])
    {
      var index, inStick;
      index, inStick, count := NextChunk(bank.sticks, address + written, |data| - written);
      if index == -1 {
        return;
      }
      ChunkStored(infos, bank.sticks, flat0, address, data, written, index, inStick, count);
      bank.sticks := bank.sticks[index := Patch(bank.sticks[index], inStick, data[written..written + count])];
    }

    /** The CPU looks the stick up again for every chunk; what ends up stored is what Kernel
        Memory's write stores, and running off the end of memory stores the part that fits. */
    method WriteMemory(bank: StickBank, address: nat, data: seq<Byte>) returns (ok: bool)
      requires Mirrors(infos, bank.sticks)
      modifies bank
      ensures Mirrors(infos, bank.sticks)
      ensures ok <==> data == [] || address + |data| <= |Flat(old(bank.sticks))|
      ensures Flat(bank.sticks) == Store(Flat(old(bank.sticks)), address, data)
    {
      ghost var flat0 := Flat(bank.sticks);
      var written := 0;
      assert Store(flat0, address, data[..0]) == flat0;
      while written < |data|
        invariant 0 <= written <= |data| && (written > 0 ==> address + written <= |flat0|)
        invariant Mirrors(infos, bank.sticks) && |Flat(bank.sticks)| == |flat0|
        invariant Flat(bank.sticks) == Store(flat0, address, data[..written])
      {
        var count := WriteChunk(bank, flat0, address, data, written);
        if count == 0 {
          StoreClip(flat0, address, data, written);
          return false;
        }
        written := written + count;
      }
      assert data[..written] == data;
      return true;
    }

    /** handler_copy_mem: the MMU twice, then a split read and a split write. */
    method CopyMemory(bank: StickBank, table: seq<Segment>, maxSegmentSize: nat, si: nat, di: nat, n: nat)
      returns (verdict: Verdict)
      requires Mirrors(infos, bank.sticks) && maxSegmentSize > 0 && forall s :: s in table ==> 0 <= s.base
      modifies bank
      ensures Mirrors(infos, bank.sticks)
      ensures (Flat(bank.sticks), verdict) == CopyMem(table, maxSegmentSize, Flat(old(bank.sticks)), si, di, n)
    {
      MmuAddress(table, maxSegmentSize, si);
      MmuAddress(table, maxSegmentSize, di);
      match Mmu(table, maxSegmentSize, si, WORD) {
        case SegmentFault => return Faults;
        case NoSegment => return Breaks;
        case Physical(src) =>
          match Mmu(table, maxSegmentSize, di, WORD) {
            case SegmentFault => return Proceeds;
            case NoSegment => return Breaks;
            case Physical(dst) => verdict := CopyBytes(bank, src, dst, n);
          }
      }
    }

    method CopyBytes(bank: StickBank, src: nat, dst: nat, n: nat) returns (verdict: Verdict)
      requires Mirrors(infos, bank.sticks)
      modifies bank
      ensures Mirrors(infos, bank.sticks)
      ensures (Flat(bank.sticks), verdict) == CopyBetween(Flat(old(bank.sticks)), src, dst, n)
    {
      var read := ReadMemory(bank, src, n);
      if read.None? {
        return Breaks;
      }
      StoreNothing(Flat(bank.sticks), dst);
      var ok := WriteMemory(bank, dst, read.value);
      return if ok then Proceeds else Breaks;
    }
  }

  lemma StoreNothing(flat: seq<Byte>, address: int)
    ensures Store(flat, address, []) == flat
  {
  }

  lemma ChunkStored(infos: seq<StickInfo>, sticks: seq<seq<Byte>>, flat0: seq<Byte>, address: nat, data: seq<Byte>,
                    written: nat, index: nat, inStick: nat, count: nat)
    requires Mirrors(infos, sticks) && index < |sticks| && LiesAt(sticks, index, inStick, address + written)
    requires inStick + count <= |sticks[index]| && written + count <= |data|
    requires |Flat(sticks)| == |flat0| && address + written <= |flat0| && Flat(sticks) == Store(flat0, address, data[..written])
    ensures var sticks' := sticks[index := Patch(sticks[index], inStick, data[written..written + count])];
            && Mirrors(infos, sticks') && |Flat(sticks')| == |flat0| && address + written + count <= |flat0|
            && Flat(sticks') == Store(flat0, address, data[..written + count])
  {
    FlatAt(sticks, index);
    WriteStep(sticks, flat0, address, data, written, index, inStick, count);
    MirrorSurvivesStore(infos, sticks, index, Patch(sticks[index], inStick, data[written..written + count]));
  }

  lemma MirrorSurvivesStore(infos: seq<StickInfo>, sticks: seq<seq<Byte>>, index: nat, bytes: seq<Byte>)
    requires Mirrors(infos, sticks) && index < |sticks| && |bytes| == |sticks[index]|
    ensures Mirrors(infos, sticks[index := bytes])
  {
    var sticks' := sticks[index := bytes];
    forall i | 0 <= i <= |sticks| ensures StickBase(sticks', i) == StickBase(sticks, i) {
      BasesDependOnSizes(sticks', sticks, i);
    }
  }

  lemma {:induction false} BasesDependOnSizes(x: seq<seq<Byte>>, y: seq<seq<Byte>>, i: nat)
    requires |x| == |y| && forall k :: 0 <= k < |x| ==> |x[k]| == |y[k]|
    requires i <= |x|
    ensures StickBase(x, i) == StickBase(y, i)
  {
    if i > 0 {
      BasesDependOnSizes(x, y, i - 1);
      FlatAt(x, i - 1);
      FlatAt(y, i - 1);
    }
  }
}
