/** Physical memory as a list of memory sticks (address_translation.c), and why a transfer split
    over several sticks is one transfer on the flat byte array they make up together. */
module Sticks {
  import opened Options

  type Byte = x: int | 0 <= x < 256

  /** The sticks' bytes one after another. */
  function Flat(sticks: seq<seq<Byte>>): seq<Byte> {
    if sticks == [] then [] else sticks[0] + Flat(sticks[1..])
  }

  /** The first address of stick i. */
  function StickBase(sticks: seq<seq<Byte>>, i: nat): nat
    requires i <= |sticks|
  {
    |Flat(sticks[..i])|
  }

  /** Memory after data was stored from address on, cut off where memory ends. */
  function Patch(flat: seq<Byte>, address: nat, data: seq<Byte>): seq<Byte>
    requires address <= |flat|
  {
    var n := if address + |data| <= |flat| then |data| else |flat| - address;
    flat[..address] + data[..n] + flat[address + n..]
  }

  /** What a write does to the flat array: one that starts outside memory does nothing. */
  function Store(flat: seq<Byte>, address: int, data: seq<Byte>): seq<Byte> {
    if 0 <= address < |flat| then Patch(flat, address, data) else flat
  }

  lemma {:induction false} FlatConcat(x: seq<seq<Byte>>, y: seq<seq<Byte>>)
    ensures Flat(x + y) == Flat(x) + Flat(y)
  {
    if x == [] {
      assert x + y == y;
    } else {
      assert (x + y)[1..] == x[1..] + y;
      FlatConcat(x[1..], y);
    }
  }

  lemma FlatOne(bytes: seq<Byte>)
    ensures Flat([bytes]) == bytes
  {
    var one: seq<seq<Byte>> := [bytes];
    assert one[1..] == [];
    assert Flat(one) == bytes + Flat(one[1..]);
  }

  lemma FlatJoin(front: seq<seq<Byte>>, bytes: seq<Byte>, back: seq<seq<Byte>>)
    ensures Flat(front + [bytes] + back) == Flat(front) + bytes + Flat(back)
  {
    FlatConcat(front + [bytes], back);
    FlatConcat(front, [bytes]);
    FlatOne(bytes);
  }

  lemma SplitAt<T>(s: seq<T>, i: nat)
    requires i < |s|
    ensures s == s[..i] + [s[i]] + s[i + 1..]
  {
  }

  lemma ReplaceAt<T>(s: seq<T>, i: nat, x: T)
    requires i < |s|
    ensures s[i := x] == s[..i] + [x] + s[i + 1..]
  {
  }

  lemma FlatSplit(sticks: seq<seq<Byte>>, i: nat)
    requires i < |sticks|
    ensures Flat(sticks) == Flat(sticks[..i]) + sticks[i] + Flat(sticks[i + 1..])
  {
    SplitAt(sticks, i);
    FlatJoin(sticks[..i], sticks[i], sticks[i + 1..]);
  }

  /** Stick bases add up, and every stick lies inside the flat array. */
  lemma FlatAt(sticks: seq<seq<Byte>>, i: nat)
    requires i < |sticks|
    ensures StickBase(sticks, i + 1) == StickBase(sticks, i) + |sticks[i]|
    ensures StickBase(sticks, i + 1) <= |Flat(sticks)|
  {
    assert sticks[..i + 1] == sticks[..i] + [sticks[i]];
    FlatConcat(sticks[..i], [sticks[i]]);
    FlatOne(sticks[i]);
    FlatSplit(sticks, i);
  }

  /** A stick's own bytes are the flat array's bytes at the stick's base. */
  lemma ReadChunk(sticks: seq<seq<Byte>>, i: nat, offset: nat, count: nat)
    requires i < |sticks| && offset + count <= |sticks[i]|
    ensures StickBase(sticks, i) + offset + count <= |Flat(sticks)|
    ensures sticks[i][offset..offset + count]
         == Flat(sticks)[StickBase(sticks, i) + offset..StickBase(sticks, i) + offset + count]
  {
    FlatSplit(sticks, i);
  }

  lemma SliceJoin(s: seq<Byte>, a: nat, b: nat, c: nat)
    requires a <= b <= c <= |s|
    ensures s[a..b] + s[b..c] == s[a..c]
  {
  }

  lemma {:induction false} StickBaseMonotone(sticks: seq<seq<Byte>>, i: nat, j: nat)
    requires i <= j <= |sticks|
    ensures StickBase(sticks, i) <= StickBase(sticks, j)
    decreases j - i
  {
    if i < j {
      FlatAt(sticks, i);
      StickBaseMonotone(sticks, i + 1, j);
    }
  }

  /** The byte at the given offset of stick k is the byte at the given address. */
  ghost predicate LiesAt(sticks: seq<seq<Byte>>, k: int, offset: int, address: int) {
    0 <= k < |sticks| && 0 <= offset < |sticks[k]| && StickBase(sticks, k) + offset == address
  }

  /** An address belongs to one stick at most, so any two searches that find it agree. */
  lemma StickIsUnique(sticks: seq<seq<Byte>>, i: int, x: int, j: int, y: int, a: int)
    requires LiesAt(sticks, i, x, a) && LiesAt(sticks, j, y, a)
    ensures i == j && x == y
  {
    FlatAt(sticks, i);
    FlatAt(sticks, j);
    if i < j {
      StickBaseMonotone(sticks, i + 1, j);
    } else if j < i {
      StickBaseMonotone(sticks, j + 1, i);
    }
  }

  lemma PatchInside(front: seq<Byte>, bytes: seq<Byte>, back: seq<Byte>, offset: nat, data: seq<Byte>)
    requires offset + |data| <= |bytes|
    ensures front + Patch(bytes, offset, data) + back == Patch(front + bytes + back, |front| + offset, data)
  {
  }

  /** Storing into one stick stores into the flat array at the stick's base. */
  lemma StoreInStick(sticks: seq<seq<Byte>>, i: nat, offset: nat, data: seq<Byte>)
    requires i < |sticks| && offset + |data| <= |sticks[i]|
    ensures StickBase(sticks, i) + offset <= |Flat(sticks)|
    ensures Flat(sticks[i := Patch(sticks[i], offset, data)])
         == Patch(Flat(sticks), StickBase(sticks, i) + offset, data)
  {
    var patched := Patch(sticks[i], offset, data);
    FlatSplit(sticks, i);
    ReplaceAt(sticks, i, patched);
    FlatJoin(sticks[..i], patched, sticks[i + 1..]);
    PatchInside(Flat(sticks[..i]), sticks[i], Flat(sticks[i + 1..]), offset, data);
  }

  /** One round of the write loop: the next chunk of data goes to stick i. */
  lemma WriteStep(sticks: seq<seq<Byte>>, flat0: seq<Byte>, address: nat, data: seq<Byte>,
                  written: nat, i: nat, offset: nat, count: nat)
    requires i < |sticks| && offset + count <= |sticks[i]| && written + count <= |data|
    requires address + written <= |flat0| && StickBase(sticks, i) + offset == address + written
    requires Flat(sticks) == Patch(flat0, address, data[..written])
    ensures var sticks' := sticks[i := Patch(sticks[i], offset, data[written..written + count])];
            && Flat(sticks') == Patch(flat0, address, data[..written + count])
            && StickBase(sticks', i + 1) == StickBase(sticks, i) + |sticks[i]|
            && address + written + count <= |flat0| == |Flat(sticks')|
            && (i + 1 == |sticks| ==> StickBase(sticks', i + 1) == |flat0|)
  {
    var chunk := data[written..written + count];
    var sticks' := sticks[i := Patch(sticks[i], offset, chunk)];
    FlatAt(sticks, i);
    StoreInStick(sticks, i, offset, chunk);
    PatchJoin(flat0, address, data[..written], chunk);
    assert data[..written] + chunk == data[..written + count];
    FlatAt(sticks', i);
    assert sticks'[..i] == sticks[..i];
    if i + 1 == |sticks| {
      assert sticks'[..i + 1] == sticks';
    }
  }

  ghost predicate SameSizes(sticks: seq<seq<Byte>>, sticks0: seq<seq<Byte>>) {
    |sticks| == |sticks0| && forall k :: 0 <= k < |sticks| ==> |sticks[k]| == |sticks0[k]|
  }

  /** Where the write loop stands: the first bytes are stored, and the next one, if there is any,
      goes to stick i at the given offset, or past the end of memory. */
  ghost predicate Progress(sticks: seq<seq<Byte>>, flat0: seq<Byte>, address: int, data: seq<Byte>,
                           written: nat, i: int, offset: int) {
    && written <= |data| && 0 <= i <= |sticks| && 0 <= offset && 0 <= address && address + written <= |flat0|
    && |Flat(sticks)| == |flat0|
    && (written < |data| ==>
          if i < |sticks| then offset < |sticks[i]| && StickBase(sticks, i) + offset == address + written
          else address + written == |flat0|)
    && Flat(sticks) == Patch(flat0, address, data[..written])
  }

  lemma ProgressStep(sticks: seq<seq<Byte>>, flat0: seq<Byte>, address: int, data: seq<Byte>,
                     written: nat, i: int, offset: int, count: nat)
    requires Progress(sticks, flat0, address, data, written, i, offset) && written < |data| && i < |sticks|
    requires count == if |data| - written < |sticks[i]| - offset then |data| - written else |sticks[i]| - offset
    requires i + 1 < |sticks| ==> |sticks[i + 1]| > 0
    ensures Progress(sticks[i := Patch(sticks[i], offset, data[written..written + count])], flat0, address, data,
                     written + count, i + 1, 0)
  {
    WriteStep(sticks, flat0, address, data, written, i, offset, count);
  }

  /** Two adjacent stores are one store of the concatenation. */
  lemma PatchJoin(flat: seq<Byte>, address: nat, x: seq<Byte>, y: seq<Byte>)
    requires address + |x| <= |flat|
    ensures Patch(Patch(flat, address, x), address + |x|, y) == Patch(flat, address, x + y)
  {
  }

  lemma PatchNothing(flat: seq<Byte>, address: nat, data: seq<Byte>)
    requires address <= |flat|
    ensures Patch(flat, address, data[..0]) == flat
  {
  }

  lemma ProgressStarts(sticks: seq<seq<Byte>>, address: int, data: seq<Byte>, i: int, offset: int)
    requires 0 <= i < |sticks| && LiesAt(sticks, i, offset, address)
    ensures Progress(sticks, Flat(sticks), address, data, 0, i, offset)
  {
    FlatAt(sticks, i);
    PatchNothing(Flat(sticks), address, data);
  }

  /** Everything is stored, or everything that fits. */
  lemma ProgressEnds(sticks: seq<seq<Byte>>, flat0: seq<Byte>, address: int, data: seq<Byte>,
                     written: nat, i: int, offset: int)
    requires Progress(sticks, flat0, address, data, written, i, offset)
    requires written == |data| || i == |sticks|
    requires 0 <= address < |flat0|
    ensures Flat(sticks) == Store(flat0, address, data)
    ensures written == |data| <==> address + |data| <= |flat0|
  {
    if written == |data| {
      assert data[..written] == data;
    } else {
      PatchClip(flat0, address, data, written);
    }
  }

  /** What does not fit is cut off. */
  lemma PatchClip(flat: seq<Byte>, address: nat, data: seq<Byte>, written: nat)
    requires written <= |data| && address + written == |flat|
    ensures Patch(flat, address, data) == Patch(flat, address, data[..written])
  {
  }

  /** A write that has reached the end of memory has nothing left to store. */
  lemma StoreClip(flat: seq<Byte>, address: nat, data: seq<Byte>, written: nat)
    requires written <= |data| && address + written >= |flat| && (written > 0 ==> address + written == |flat|)
    ensures Store(flat, address, data) == Store(flat, address, data[..written])
  {
  }

  /** A store changes exactly the bytes it covers. */
  lemma PatchReadBack(flat: seq<Byte>, address: nat, data: seq<Byte>)
    requires address + |data| <= |flat|
    ensures |Patch(flat, address, data)| == |flat|
    ensures Patch(flat, address, data)[address..address + |data|] == data
    ensures forall a :: 0 <= a < |flat| && !(address <= a < address + |data|) ==>
              Patch(flat, address, data)[a] == flat[a]
  {
  }

  class StickBank {
    var sticks: seq<seq<Byte>>

    constructor ()
      ensures sticks == []
    {
      sticks := [];
    }

    /** A connecting stick goes to the end of the list. */
    method AddStick(bytes: seq<Byte>)
      modifies this
      ensures sticks == old(sticks) + [bytes]
      ensures Flat(sticks) == Flat(old(sticks)) + bytes
    {
      FlatConcat(sticks, [bytes]);
      FlatOne(bytes);
      sticks := sticks + [bytes];
    }

    /** Finds the one stick that holds the address; -1 exactly when no stick does. */
    method FindStick(address: int) returns (index: int, offset: int)
      ensures -1 <= index < |sticks|
      ensures index == -1 <==> !(0 <= address < |Flat(sticks)|)
      ensures index >= 0 ==> LiesAt(sticks, index, offset, address)
    {
      var accumulated := 0;
      offset := 0;
      for i := 0 to |sticks|
        invariant accumulated == StickBase(sticks, i)
        invariant address < 0 || accumulated <= address
      {
        FlatAt(sticks, i);
        if accumulated <= address < accumulated + |sticks[i]| {
          return i, address - accumulated;
        }
        accumulated := accumulated + |sticks[i]|;
      }
      assert sticks[..|sticks|] == sticks;
      return -1, 0;
    }

    /** Reads across sticks: the exact slice of the flat array, or nothing when any byte of the
        range is missing. A request for no bytes never looks at the sticks. */
    method ReadFromSticks(address: int, size: nat) returns (result: Option<seq<Byte>>)
      ensures result.Some? <==> size == 0 || (0 <= address && address + size <= |Flat(sticks)|)
      ensures result.Some? && size > 0 ==> result.value == Flat(sticks)[address..address + size]
      ensures result.Some? && size == 0 ==> result.value == []
    {
      var read: seq<Byte> := [];
      var current := address;
      while |read| < size
        invariant |read| <= size && current == address + |read|
        invariant read != [] ==> 0 <= address && current <= |Flat(sticks)| && read == Flat(sticks)[address..current]
      {
        var index, offset := FindStick(current);
        if index == -1 {
          return None;
        }
        var room := |sticks[index]| - offset;
        var count := if size - |read| < room then size - |read| else room;
        ReadChunk(sticks, index, offset, count);
        if read != [] { SliceJoin(Flat(sticks), address, current, current + count); }
        var fragment := sticks[index][offset..offset + count];
        read := read + fragment;
        current := current + count;
      }
      return Some(read);
    }

    /** Writes across sticks. A write that starts in range stores as much as fits and reports
        whether that was everything; one that starts elsewhere stores nothing. */
    method WriteToSticks(address: int, data: seq<Byte>) returns (ok: bool)
      requires forall i :: 0 <= i < |sticks| ==> |sticks[i]| > 0
      modifies this
      ensures |sticks| == |old(sticks)|
      ensures forall i :: 0 <= i < |sticks| ==> |sticks[i]| == |old(sticks)[i]|
      ensures ok <==> data == [] || (0 <= address && address + |data| <= |Flat(old(sticks))|)
      ensures Flat(sticks) == Store(Flat(old(sticks)), address, data)
    {
      var index, offset := FindStick(address);
      if index == -1 {
        return data == [];
      }
      ok := WriteFrom(index, offset, address, data);
    }

    /** The write loop, from the stick that holds the first address. */
    method WriteFrom(index: int, first: int, ghost address: int, data: seq<Byte>) returns (ok: bool)
      requires LiesAt(sticks, index, first, address) && 0 <= address < |Flat(sticks)|
      requires forall i :: 0 <= i < |sticks| ==> |sticks[i]| > 0
      modifies this
      ensures SameSizes(sticks, old(sticks))
      ensures ok <==> address + |data| <= |Flat(old(sticks))|
      ensures Flat(sticks) == Store(Flat(old(sticks)), address, data)
    {
      ghost var flat0 := Flat(sticks);
      var i, offset := index, first;
      var written: nat := 0;
      ProgressStarts(sticks, address, data, i, offset);
      while written < |data|
        invariant written <= |data| && SameSizes(sticks, old(sticks))
        invariant Progress(sticks, flat0, address, data, written, i, offset)
        decreases |sticks| - i
      {
        if i == |sticks| {
          ProgressEnds(sticks, flat0, address, data, written, i, offset);
          return false;
        }
        var room := |sticks[i]| - offset;
        var count := if |data| - written < room then |data| - written else room;
        ProgressStep(sticks, flat0, address, data, written, i, offset, count);
        sticks := sticks[i := Patch(sticks[i], offset, data[written..written + count])];
        written := written + count;
        offset := 0;
        i := i + 1;
      }
      ProgressEnds(sticks, flat0, address, data, written, i, offset);
      return true;
    }
  }
}
