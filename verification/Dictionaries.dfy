/** The chained hash table (utils/collections/dictionary.c): for every history of puts it holds the
    finite map that the puts describe. Keys are the bytes of C strings. */
module Dictionaries {
  import opened Options

  type Key = seq<bv8>

  const INITIAL_SIZE: nat := 20

  // ---------- Jenkins's one-at-a-time hash ----------

  function AddByte(hash: bv32, c: bv8): bv32 {
    hash + (c as bv32)
  }

  function AddShifted(hash: bv32, n: nat): bv32
    requires n < 32
  {
    hash + (hash << n)
  }

  function XorShifted(hash: bv32, n: nat): bv32
    requires n < 32
  {
    hash ^ (hash >> n)
  }

  function MixAll(key: Key): bv32 {
    if key == [] then 0
    else Mixed(MixAll(key[..|key| - 1]), key[|key| - 1])
  }

  function Hash(key: Key): bv32 {
    Finished(MixAll(key))
  }

  /** One byte mixed into what the bytes before it came to, and the end of the hash. */
  function Mixed(hash: bv32, c: bv8): bv32 {
    XorShifted(AddShifted(AddByte(hash, c), 10), 6)
  }

  function Finished(hash: bv32): bv32 {
    AddShifted(XorShifted(AddShifted(hash, 3), 11), 15)
  }

  lemma MixedWith(key: Key, c: bv8)
    ensures MixAll(key + [c]) == Mixed(MixAll(key), c)
  {
    var k := key + [c];
    assert k[..|k| - 1] == key && k[|k| - 1] == c;
  }

  lemma MixedBytes()
    ensures Mixed(0, 97) == 0x0001_8270 && Mixed(0, 98) == 0x0001_8E43 && Mixed(0, 255) == 0x0003_F30C
    ensures Mixed(0x0001_8270, 98) == 0x0614_F9F9 && Mixed(0x0001_8E43, 97) == 0x0624_EEDE
  {
  }

  lemma FinishedHashes()
    ensures Finished(0) == 0 && Finished(0x0001_8270) == 0xCA2E_9442 && Finished(0x0003_F30C) == 0xC7B2_0F1D
    ensures Finished(0x0614_F9F9) == 0x45E6_1E58 && Finished(0x0624_EEDE) == 0x7D6B_8C42
  {
  }

  /** The hashes of the empty key, of a byte below and one above 127, and of two bytes in either order. */
  lemma KnownHashes()
    ensures Hash([]) == 0 && Hash([97]) == 0xCA2E_9442 && Hash([255]) == 0xC7B2_0F1D
    ensures Hash([97, 98]) == 0x45E6_1E58 && Hash([98, 97]) == 0x7D6B_8C42
  {
    MixedBytes();
    FinishedHashes();
    MixedWith([], 97);
    MixedWith([], 98);
    MixedWith([], 255);
    assert [] + [97] == [97] && [] + [98] == [98] && [] + [255] == [255];
    MixedWith([97], 98);
    MixedWith([98], 97);
    assert [97] + [98] == [97, 98] && [98] + [97] == [98, 97];
  }

  method DictionaryHash(key: Key) returns (hash: bv32)
    ensures hash == Hash(key)
  {
    hash := 0;
    for i := 0 to |key|
      invariant hash == MixAll(key[..i])
    {
      assert key[..i + 1][..i] == key[..i];
      hash := AddByte(hash, key[i]);
      hash := AddShifted(hash, 10);
      hash := XorShifted(hash, 6);
    }
    assert key[..|key|] == key;
    hash := AddShifted(hash, 3);
    hash := XorShifted(hash, 11);
    hash := AddShifted(hash, 15);
  }

  function Remainder(h: int, size: nat): (i: nat)
    requires size > 0
    ensures i < size
  {
    h % size
  }

  function BucketOf(hash: bv32, size: nat): (i: nat)
    requires size > 0
    ensures i < size
  {
    Remainder(hash as int, size)
  }

  // ---------- one chain ----------

  datatype Entry<V> = Entry(hash: bv32, key: Key, data: V)

  /** Where the key is in a chain, or its length. */
  function Position<V>(chain: seq<Entry<V>>, key: Key): (i: nat)
    ensures i <= |chain|
    ensures i < |chain| ==> chain[i].key == key
    ensures forall k :: 0 <= k < i ==> chain[k].key != key
  {
    if chain == [] || chain[0].key == key then 0 else 1 + Position(chain[1..], key)
  }

  /** A chain holds exactly the entries of the map whose keys hash to its bucket, each once. */
  ghost predicate ChainOk<V>(chain: seq<Entry<V>>, contents: map<Key, V>, bucket: nat, size: nat)
    requires size > 0
  {
    && (forall e {:trigger EntryOk(e, contents, bucket, size)} :: e in chain ==> EntryOk(e, contents, bucket, size))
    && (forall key :: key in contents && BucketOf(Hash(key), size) == bucket ==> Position(chain, key) < |chain|)
    && (forall i, j :: 0 <= i < j < |chain| ==> chain[i].key != chain[j].key)
  }

  ghost predicate EntryOk<V>(e: Entry<V>, contents: map<Key, V>, bucket: nat, size: nat)
    requires size > 0
  {
    e.hash == Hash(e.key) && BucketOf(e.hash, size) == bucket && e.key in contents && contents[e.key] == e.data
  }

  lemma FoundIff<V>(chain: seq<Entry<V>>, contents: map<Key, V>, key: Key, size: nat)
    requires size > 0 && ChainOk(chain, contents, BucketOf(Hash(key), size), size)
    ensures Position(chain, key) < |chain| <==> key in contents
    ensures Position(chain, key) < |chain| ==> contents[key] == chain[Position(chain, key)].data
  {
    var i := Position(chain, key);
    if i < |chain| {
      assert chain[i] in chain;
      assert EntryOk(chain[i], contents, BucketOf(Hash(key), size), size);
    }
  }

  /** Another bucket's chain does not notice a put. */
  lemma OtherChains<V>(chain: seq<Entry<V>>, contents: map<Key, V>, bucket: nat, size: nat, key: Key, data: V)
    requires size > 0 && ChainOk(chain, contents, bucket, size) && BucketOf(Hash(key), size) != bucket
    ensures ChainOk(chain, contents[key := data], bucket, size)
  {
    forall e | e in chain ensures EntryOk(e, contents[key := data], bucket, size) {
      assert EntryOk(e, contents, bucket, size);
    }
  }

  lemma PositionAt<V>(chain: seq<Entry<V>>, key: Key, i: nat)
    requires i < |chain| && chain[i].key == key
    ensures Position(chain, key) < |chain|
  {
  }

  lemma Overwritten<V>(chain: seq<Entry<V>>, contents: map<Key, V>, size: nat, key: Key, data: V)
    requires size > 0 && ChainOk(chain, contents, BucketOf(Hash(key), size), size)
    requires Position(chain, key) < |chain|
    ensures var i := Position(chain, key);
            ChainOk(chain[i := chain[i].(data := data)], contents[key := data], BucketOf(Hash(key), size), size)
  {
    var b := BucketOf(Hash(key), size);
    var i := Position(chain, key);
    var chain', contents' := chain[i := chain[i].(data := data)], contents[key := data];
    forall k | 0 <= k < |chain| ensures EntryOk(chain'[k], contents', b, size) {
      assert chain[k] in chain;
      assert EntryOk(chain[k], contents, b, size);
    }
    forall other | other in contents' && BucketOf(Hash(other), size) == b ensures Position(chain', other) < |chain'| {
      if other == key {
        PositionAt(chain', key, i);
      } else {
        PositionAt(chain', other, Position(chain, other));
      }
    }
  }

  lemma OlderEntry<V>(chain: seq<Entry<V>>, contents: map<Key, V>, size: nat, key: Key, data: V, k: nat)
    requires size > 0 && ChainOk(chain, contents, BucketOf(Hash(key), size), size)
    requires Position(chain, key) == |chain| && k < |chain|
    ensures EntryOk(chain[k], contents[key := data], BucketOf(Hash(key), size), size)
  {
    assert chain[k] in chain;
    assert EntryOk(chain[k], contents, BucketOf(Hash(key), size), size);
  }

  lemma Prepended<V>(chain: seq<Entry<V>>, contents: map<Key, V>, size: nat, key: Key, data: V)
    requires size > 0 && ChainOk(chain, contents, BucketOf(Hash(key), size), size)
    requires Position(chain, key) == |chain|
    ensures ChainOk([Entry(Hash(key), key, data)] + chain, contents[key := data], BucketOf(Hash(key), size), size)
  {
    var b := BucketOf(Hash(key), size);
    var chain', contents' := [Entry(Hash(key), key, data)] + chain, contents[key := data];
    forall k | 0 <= k < |chain'| ensures EntryOk(chain'[k], contents', b, size) {
      if k > 0 {
        OlderEntry(chain, contents, size, key, data, k - 1);
      }
    }
    forall other | other in contents' && BucketOf(Hash(other), size) == b ensures Position(chain', other) < |chain'| {
      PrependedKeys(chain, chain'[0], other);
    }
  }

  lemma PrependedKeys<V>(chain: seq<Entry<V>>, e: Entry<V>, key: Key)
    ensures Position(chain, key) < |chain| || key == e.key ==> Position([e] + chain, key) < |chain| + 1
  {
    if key == e.key {
      PositionAt([e] + chain, key, 0);
    } else if Position(chain, key) < |chain| {
      PositionAt([e] + chain, key, Position(chain, key) + 1);
    }
  }

  // ---------- the table ----------

  /** A link of a chain. Only its data ever changes. */
  class Element<V> {
    const hashcode: bv32
    const key: Key
    var data: V
    const next: Element?<V>

    constructor (hashcode: bv32, key: Key, data: V, next: Element?<V>)
      ensures this.hashcode == hashcode && this.key == key && this.data == data && this.next == next
    {
      this.hashcode := hashcode;
      this.key := key;
      this.data := data;
      this.next := next;
    }
  }

  /** Following the links from e leads through exactly these elements. */
  ghost predicate Chained<V>(e: Element?<V>, links: seq<Element<V>>) {
    if links == [] then e == null else e == links[0] && Chained(links[0].next, links[1..])
  }

  function EntryAt<V>(e: Element<V>): Entry<V>
    reads e
  {
    Entry(e.hashcode, e.key, e.data)
  }

  ghost function Entries<V>(links: seq<Element<V>>): (r: seq<Entry<V>>)
    reads links
    ensures |r| == |links|
  {
    seq(|links|, i requires 0 <= i < |links| reads links => EntryAt(links[i]))
  }

  class Dictionary<V(==)> {
    const tableSize: nat
    const elements: array<Element?<V>>
    var elementsAmount: int
    /** What the puts so far describe, and the elements of each bucket in order. */
    ghost var contents: map<Key, V>
    ghost var chains: seq<seq<Element<V>>>
    ghost var links: set<Element<V>>

    ghost predicate Valid()
      reads this, elements, links
    {
      && tableSize > 0 && elements.Length == |chains| == tableSize
      && elementsAmount == |contents|
      && (forall b {:trigger BucketLinked(b)} {:trigger FitsWith(b, contents)} ::
            0 <= b < tableSize ==> BucketLinked(b) && FitsWith(b, contents))
    }

    /** The links from the bucket lead through its chain. */
    ghost predicate BucketLinked(b: nat)
      requires b < |chains| == elements.Length
      reads this`chains, this`links, elements
    {
      Chained(elements[b], chains[b]) && forall e :: e in chains[b] ==> e in links
    }

    /** The chain holds its bucket's part of these contents. */
    ghost predicate FitsWith(b: nat, contents': map<Key, V>)
      requires b < |chains| && tableSize > 0
      reads this`chains, chains[b]
    {
      ChainOk(Entries(chains[b]), contents', b, tableSize)
    }

    constructor ()
      ensures Valid() && contents == map[] && fresh(elements) && links == {}
    {
      tableSize := INITIAL_SIZE;
      elements := new Element?<V>[INITIAL_SIZE](_ => null);
      elementsAmount := 0;
      contents := map[];
      chains := seq(INITIAL_SIZE, _ => []);
      links := {};
    }

    /** The element of the key, with its place in its bucket; null when there is none. */
    method Find(key: Key) returns (e: Element?<V>, ghost i: nat)
      requires Valid()
      ensures e != null <==> key in contents
      ensures var chain := chains[BucketOf(Hash(key), tableSize)];
              i == Position(Entries(chain), key) && (e != null ==> i < |chain| && e == chain[i] && e.data == contents[key])
    {
      var hashcode := DictionaryHash(key);
      var index := BucketOf(hashcode, tableSize);
      ghost var chain := chains[index];
      assert BucketLinked(index) && FitsWith(index, contents);
      FoundIff(Entries(chain), contents, key, tableSize);
      e, i := elements[index], 0;
      while e != null
        invariant 0 <= i <= |chain| && Chained(e, chain[i..])
        invariant Position(Entries(chain), key) == i + Position(Entries(chain)[i..], key)
        decreases |chain| - i
      {
        assert Entries(chain)[i] in Entries(chain);
        assert EntryOk(Entries(chain)[i], contents, index, tableSize);
        if e.hashcode == hashcode && e.key == key {
          return;
        }
        assert Entries(chain)[i..][1..] == Entries(chain)[i + 1..];
        e, i := e.next, i + 1;
      }
    }

    method Put(key: Key, data: V)
      requires Valid()
      modifies this, elements, links
      ensures Valid() && contents == old(contents)[key := data]
      ensures links >= old(links) && fresh(links - old(links))
    {
      var existing, i := Find(key);
      assert BucketLinked(BucketOf(Hash(key), tableSize));
      if existing != null {
        Overwrite(existing, i, data);
      } else {
        Prepend(key, data);
      }
    }

    /** existing->data = data, in place. */
    method Overwrite(e: Element<V>, ghost i: nat, data: V)
      requires Valid()
      requires var chain := chains[BucketOf(Hash(e.key), tableSize)];
               i < |chain| && chain[i] == e && Position(Entries(chain), e.key) == i
      modifies this, e
      ensures Valid() && contents == old(contents)[e.key := data] && links == old(links)
    {
      ghost var bucket := BucketOf(Hash(e.key), tableSize);
      assert FitsWith(bucket, contents);
      Overwritten(Entries(chains[bucket]), contents, tableSize, e.key, data);
      FoundIff(Entries(chains[bucket]), contents, e.key, tableSize);
      forall b, k | 0 <= b < tableSize && 0 <= k < |chains[b]| && chains[b][k] == e ensures b == bucket && k == i {
        SitsAlone(b, k, e, i);
      }
      OthersFit(e.key, data, contents[e.key := data]);
      e.data := data;
      contents := contents[e.key := data];
      forall b | 0 <= b < tableSize ensures BucketLinked(b) {
        assert old(BucketLinked(b));
      }
      forall b | 0 <= b < tableSize ensures FitsWith(b, contents) {
        assert b != bucket ==> old(FitsWith(b, contents[e.key := data]));
        assert Entries(chains[b])
            == if b == bucket then old(Entries(chains[b]))[i := old(Entries(chains[b]))[i].(data := data)]
               else old(Entries(chains[b]));
      }
    }

    /** An element is in the bucket of its key only, and once. */
    lemma SitsAlone(b: nat, k: nat, e: Element<V>, i: nat)
      requires Valid() && b < tableSize && k < |chains[b]| && chains[b][k] == e
      requires var chain := chains[BucketOf(Hash(e.key), tableSize)]; i < |chain| && chain[i] == e
      ensures b == BucketOf(Hash(e.key), tableSize) && k == i
    {
      assert FitsWith(b, contents);
      assert Entries(chains[b])[k] in Entries(chains[b]);
      assert EntryOk(Entries(chains[b])[k], contents, b, tableSize);
      assert Entries(chains[b])[k].key == Entries(chains[b])[i].key;
    }

    /** The other buckets do not notice a put. */
    lemma OthersFit(key: Key, data: V, contents': map<Key, V>)
      requires Valid() && contents' == contents[key := data]
      ensures forall b {:trigger FitsWith(b, contents')} ::
                0 <= b < tableSize && b != BucketOf(Hash(key), tableSize) ==> FitsWith(b, contents')
    {
      forall b: nat {:trigger FitsWith(b, contents')} | b < tableSize && b != BucketOf(Hash(key), tableSize)
        ensures FitsWith(b, contents')
      {
        assert FitsWith(b, contents);
        OtherChains(Entries(chains[b]), contents, b, tableSize, key, data);
      }
    }

    /** A new element at the front of its bucket. */
    method Prepend(key: Key, data: V)
      requires Valid() && key !in contents
      modifies this, elements
      ensures Valid() && contents == old(contents)[key := data]
      ensures links >= old(links) && fresh(links - old(links))
    {
      var hashcode := DictionaryHash(key);
      var index := BucketOf(hashcode, tableSize);
      NewEntryFits(key, data);
      OthersFit(key, data, contents[key := data]);
      var element := new Element(hashcode, key, data, elements[index]);
      assert Entries([element] + chains[index]) == [EntryAt(element)] + Entries(chains[index]);
      LinkInFront(index, element, contents[key := data]);
    }

    lemma NewEntryFits(key: Key, data: V)
      requires Valid() && key !in contents
      ensures var index := BucketOf(Hash(key), tableSize);
              ChainOk([Entry(Hash(key), key, data)] + Entries(chains[index]), contents[key := data], index, tableSize)
    {
      var index := BucketOf(Hash(key), tableSize);
      assert FitsWith(index, contents);
      FoundIff(Entries(chains[index]), contents, key, tableSize);
      Prepended(Entries(chains[index]), contents, tableSize, key, data);
    }

    /** elements[index] = element, and the bucket's chain is what the map now needs there. */
    method LinkInFront(index: nat, element: Element<V>, ghost contents': map<Key, V>)
      requires Valid() && index < tableSize && element.next == elements[index]
      requires |contents'| == |contents| + 1
      requires ChainOk(Entries([element] + chains[index]), contents', index, tableSize)
      requires forall b {:trigger FitsWith(b, contents')} :: 0 <= b < tableSize && b != index ==> FitsWith(b, contents')
      modifies this, elements
      ensures Valid() && contents == contents' && links == old(links) + {element}
      ensures chains == old(chains)[index := [element] + old(chains[index])]
    {
      ghost var entries := Entries([element] + chains[index]);
      SetHead(index, element);
      forall b | 0 <= b < tableSize ensures FitsWith(b, contents') {
        if b == index {
          assert Entries(chains[b]) == entries;
        } else {
          assert Entries(chains[b]) == old(Entries(chains[b]));
          assert old(FitsWith(b, contents'));
        }
      }
      contents := contents';
    }

    method SetHead(index: nat, element: Element<V>)
      requires Valid() && index < tableSize && element.next == elements[index]
      modifies this`elementsAmount, this`chains, this`links, elements
      ensures chains == old(chains)[index := [element] + old(chains[index])] && links == old(links) + {element}
      ensures elementsAmount == old(elementsAmount) + 1
      ensures forall b {:trigger BucketLinked(b)} :: 0 <= b < tableSize ==> BucketLinked(b)
    {
      ghost var chain := [element] + chains[index];
      assert Chained(element, chain) by {
        assert BucketLinked(index);
        assert chain[1..] == chains[index];
      }
      elements[index] := element;
      elementsAmount := elementsAmount + 1;
      chains := chains[index := chain];
      links := links + {element};
      forall b | 0 <= b < tableSize ensures BucketLinked(b) {
        assert old(BucketLinked(b));
      }
    }

    method Get(key: Key) returns (data: Option<V>)
      requires Valid()
      ensures data == if key in contents then Some(contents[key]) else None
    {
      var e, _ := Find(key);
      data := if e != null then Some(e.data) else None;
    }

    method HasKey(key: Key) returns (found: bool)
      requires Valid()
      ensures found == (key in contents)
    {
      var e, _ := Find(key);
      found := e != null;
    }
  }
}
