/** The 256-slot direct-mapped table of (key, size, used) entries. */
module DirectMapped {
  import opened Wrappers

  const CacheSize: nat := 256

  datatype Entry = Entry(key: bv64, size: int, used: bool)

  /** A zero-initialised entry, as in a `static` table before its first use. */
  const Vacant: Entry := Entry(0, 0, false)

  predicate ValidTable(t: seq<Entry>) {
    |t| == CacheSize
  }

  /** The table at process start. */
  function EmptyTable(): (t: seq<Entry>)
    ensures ValidTable(t)
    ensures forall i :: 0 <= i < |t| ==> !t[i].used
  {
    seq(CacheSize, _ => Vacant)
  }

  /** The slot of a key: its low eight bits, i.e. the key modulo the table size. */
  function Slot(h: bv64): (i: nat)
    ensures i < CacheSize
    ensures i as bv64 == h % 256
  {
    (h & 0xFF) as nat
  }

  /** A hit needs the key's slot to be in use and to hold exactly that key. */
  function Lookup(t: seq<Entry>, h: bv64): Option<int>
    requires ValidTable(t)
  {
    var e := t[Slot(h)];
    if e.used && e.key == h then Some(e.size) else None
  }

  /** Overwrites the key's slot, whatever it held, and leaves the rest alone. */
  function Store(t: seq<Entry>, h: bv64, size: int): (r: seq<Entry>)
    requires ValidTable(t)
    ensures ValidTable(r)
    ensures r[Slot(h)] == Entry(h, size, true)
    ensures forall j :: 0 <= j < CacheSize && j != Slot(h) ==> r[j] == t[j]
  {
    t[Slot(h) := Entry(h, size, true)]
  }

  /** Every used entry sits in the slot its own key selects. */
  predicate KeysInOwnSlots(t: seq<Entry>)
    requires ValidTable(t)
  {
    forall i :: 0 <= i < CacheSize && t[i].used ==> Slot(t[i].key) == i
  }

  /** An empty table misses every key. */
  lemma EmptyTableMisses(h: bv64)
    ensures Lookup(EmptyTable(), h) == None
    ensures KeysInOwnSlots(EmptyTable())
  {
  }

  /** A stored key is found again with the size stored for it. */
  lemma LookupStoreSame(t: seq<Entry>, h: bv64, size: int)
    requires ValidTable(t)
    ensures Lookup(Store(t, h, size), h) == Some(size)
  {
  }

  /** Keys of other slots see the table as it was. */
  lemma LookupStoreOtherSlot(t: seq<Entry>, h: bv64, size: int, h': bv64)
    requires ValidTable(t)
    requires Slot(h') != Slot(h)
    ensures Lookup(Store(t, h, size), h') == Lookup(t, h')
  {
  }

  /** A different key of the same slot is evicted: it misses afterwards. */
  lemma LookupStoreEvicts(t: seq<Entry>, h: bv64, size: int, h': bv64)
    requires ValidTable(t)
    requires Slot(h') == Slot(h) && h' != h
    ensures Lookup(Store(t, h, size), h') == None
  {
  }

  /** Storing keeps every used entry in the slot of its key. */
  lemma StoreKeepsKeysInOwnSlots(t: seq<Entry>, h: bv64, size: int)
    requires ValidTable(t) && KeysInOwnSlots(t)
    ensures KeysInOwnSlots(Store(t, h, size))
  {
  }
}
