/** FindBestFontSize: the key, the table lookup, the search on a miss and the
    store that follows it. */
module FontCache {
  import opened Wrappers
  import opened CStrings
  import opened Fingerprint
  import opened SizeSearch
  import opened DirectMapped

  /** What one call returns (the size), leaves behind (the table) and costs
      (how many times it called the measurement). */
  datatype Outcome = Outcome(size: int, table: seq<Entry>, measured: nat)

  /** The call that filled a slot: its arguments and the parameter bytes read for it. */
  datatype Origin = Origin(q: Request, params: seq<bv8>)

  function KeyOf(q: Request, params: seq<bv8>): bv64 {
    Key(params, q.a, q.b)
  }

  /** One call against table `t`. A hit returns the stored size, measures
      nothing and changes nothing; a miss runs the search and overwrites the
      key's slot, and only that slot. */
  function Call(m: Measure, t: seq<Entry>, q: Request, params: seq<bv8>): (o: Outcome)
    requires ValidTable(t)
    ensures ValidTable(o.table)
    ensures var h := KeyOf(q, params);
            var i := Slot(h);
            if t[i].used && t[i].key == h then
              o.size == t[i].size && o.table == t && o.measured == 0
            else
              IsBestFit(m, q, o.size) &&
              o.table[i] == Entry(h, o.size, true) &&
              (forall j :: 0 <= j < CacheSize && j != i ==> o.table[j] == t[j]) &&
              o.measured == (if q.maxSize < q.minSize then 0 else 2 * (q.maxSize - o.size + 1))
  {
    var h := KeyOf(q, params);
    match Lookup(t, h)
    case Some(v) => Outcome(v, t, 0)
    case None =>
      var r := BestFit(m, q);
      BestFitCharacterized(m, q, r);
      Outcome(r, Store(t, h, r), 2 * SizesTried(m, q))
  }

  /** The table agrees with the calls that filled it: every used slot holds the
      key of the call recorded for it, that key selects the slot, and the size
      is what the search gives for that call's arguments. */
  ghost predicate Coherent(m: Measure, t: seq<Entry>, origin: seq<Origin>) {
    ValidTable(t) && |origin| == CacheSize &&
    forall i :: 0 <= i < CacheSize ==> EntryCoherent(m, t[i], origin[i], i)
  }

  /** One slot of a coherent table: unused, or holding the key of the call
      recorded for it, in the slot that key selects, with that call's size. */
  ghost predicate EntryCoherent(m: Measure, e: Entry, o: Origin, i: nat) {
    e.used ==>
      Slot(e.key) == i && e.key == KeyOf(o.q, o.params) && e.size == BestFit(m, o.q)
  }

  /** The record of who filled each slot after a call: a miss puts the call in
      its key's slot. */
  function Recorded(t: seq<Entry>, origin: seq<Origin>, q: Request, params: seq<bv8>): seq<Origin>
    requires ValidTable(t) && |origin| == CacheSize
  {
    var h := KeyOf(q, params);
    if Lookup(t, h).Some? then origin else origin[Slot(h) := Origin(q, params)]
  }

  /** The table starts coherent, with every slot unused. */
  lemma EmptyTableCoherent(m: Measure, origin: seq<Origin>)
    requires |origin| == CacheSize
    ensures Coherent(m, EmptyTable(), origin)
  {
  }

  /** Every call keeps the table coherent. */
  lemma CallKeepsCoherent(m: Measure, t: seq<Entry>, origin: seq<Origin>, q: Request, params: seq<bv8>)
    requires Coherent(m, t, origin)
    ensures Coherent(m, Call(m, t, q, params).table, Recorded(t, origin, q, params))
  {
  }

  /** What a hit returns: the stored size, no measurement, the same table. */
  lemma CallOnHit(m: Measure, t: seq<Entry>, q: Request, params: seq<bv8>)
    requires ValidTable(t) && Lookup(t, KeyOf(q, params)).Some?
    ensures Call(m, t, q, params) == Outcome(Lookup(t, KeyOf(q, params)).value, t, 0)
  {
  }

  /** What a miss returns: the search result, stored in the key's slot,
      coherently with the call recorded there. */
  lemma CallOnMiss(m: Measure, t: seq<Entry>, origin: seq<Origin>, q: Request, params: seq<bv8>)
    requires Coherent(m, t, origin) && Lookup(t, KeyOf(q, params)).None?
    ensures var h := KeyOf(q, params);
            Call(m, t, q, params) == Outcome(BestFit(m, q), Store(t, h, BestFit(m, q)), 2 * SizesTried(m, q))
    ensures var h := KeyOf(q, params);
            Coherent(m, Store(t, h, BestFit(m, q)), origin[Slot(h) := Origin(q, params)])
  {
    CallKeepsCoherent(m, t, origin, q, params);
  }

  /** On a coherent table the answer is the search's answer for these
      arguments, unless the slot was filled by a different call whose key is
      the same 64-bit value (a fingerprint collision). */
  lemma CallAgreesWithSearch(m: Measure, t: seq<Entry>, origin: seq<Origin>, q: Request, params: seq<bv8>)
    requires Coherent(m, t, origin)
    ensures var o := Call(m, t, q, params);
            var src := origin[Slot(KeyOf(q, params))];
            o.size == BestFit(m, q) ||
            (src.q != q && KeyOf(src.q, src.params) == KeyOf(q, params))
  {
    var o := Call(m, t, q, params);
    var h := KeyOf(q, params);
    if Lookup(t, h).None? {
      BestFitCharacterized(m, q, o.size);
    }
  }

  /** Repeating a call with the same arguments and parameter bytes hits: same
      size, no measurement, table unchanged. */
  lemma RepeatedCallHits(m: Measure, t: seq<Entry>, q: Request, params: seq<bv8>)
    requires ValidTable(t)
    ensures var o1 := Call(m, t, q, params);
            Call(m, o1.table, q, params) == Outcome(o1.size, o1.table, 0)
  {
  }

  /** A call evicted by another key of its slot is recomputed afterwards, not
      answered from the other call's entry. */
  lemma EvictedCallIsRecomputed(m: Measure, t: seq<Entry>, q1: Request, p1: seq<bv8>, q2: Request, p2: seq<bv8>)
    requires ValidTable(t)
    requires Slot(KeyOf(q1, p1)) == Slot(KeyOf(q2, p2)) && KeyOf(q1, p1) != KeyOf(q2, p2)
    ensures var t1 := Call(m, t, q1, p1).table;
            var t2 := Call(m, t1, q2, p2).table;
            var o3 := Call(m, t2, q1, p1);
            o3.size == BestFit(m, q1) && o3.measured == 2 * SizesTried(m, q1)
  {
  }

  /** A font reloaded with the same base size and texture id but different
      glyphs yields the same key, so the call after it hits the entry of the
      old font and returns the old font's size without measuring. */
  lemma ReloadedFontHitsStaleEntry(m: Measure, t: seq<Entry>, q: Request, glyphs: seq<int>, params: seq<bv8>)
    requires ValidTable(t)
    ensures var q' := q.(font := q.font.(glyphs := glyphs));
            var o1 := Call(m, t, q, params);
            var o2 := Call(m, o1.table, q', params);
            o2 == Outcome(o1.size, o1.table, 0) &&
            (Lookup(t, KeyOf(q, params)).None? ==> o2.size == BestFit(m, q))
  {
    var q' := q.(font := q.font.(glyphs := glyphs));
    assert KeyOf(q', params) == KeyOf(q, params);
  }

  /** The process-wide table of font_cache.c, as an object owning a 256-entry
      array and the one measurement function every call uses. */
  class Cache {
    const measure: Measure
    const table: array<Entry>
    ghost var origin: seq<Origin>

    ghost predicate Valid()
      reads this, table
    {
      table.Length == CacheSize && Coherent(measure, table[..], origin)
    }

    constructor(m: Measure)
      ensures Valid() && fresh(table)
      ensures measure == m && table[..] == EmptyTable()
    {
      measure := m;
      table := new Entry[CacheSize](_ => Vacant);
      origin := seq(CacheSize, _ => Origin(Request(Font(0, 0, []), Null, Null, 0, 0, 0, 0, 0), []));
    }

    /** FindBestFontSize of font_cache.c; `params` are the bytes it reads from the
        font identity and the five integer arguments. */
    method FindBestFontSize(font: Font, a: CStr, b: CStr, maxWidth: int, maxHeight: int,
                            maxSize: int, minSize: int, gap: int, params: seq<bv8>)
      returns (size: int, measured: nat)
      requires Valid()
      modifies this, table
      ensures Valid()
      ensures var o := Call(measure, old(table[..]), Request(font, a, b, maxWidth, maxHeight, maxSize, minSize, gap), params);
              size == o.size && measured == o.measured && table[..] == o.table
    {
      var q := Request(font, a, b, maxWidth, maxHeight, maxSize, minSize, gap);
      ghost var t0, origin0 := table[..], origin;
      var h := ComputeKey(params, a, b);
      assert h == KeyOf(q, params);
      var idx := Slot(h);
      var entry := table[idx];
      assert entry == t0[Slot(KeyOf(q, params))];
      if entry.used && entry.key == h {
        assert Lookup(t0, h) == Some(entry.size);
        CallOnHit(measure, t0, q, params);
        return entry.size, 0;
      }
      assert Lookup(t0, h) == None;
      size, measured := SearchSize(measure, q);
      CallOnMiss(measure, t0, origin0, q, params);
      table[idx] := Entry(h, size, true);
      assert table[..] == t0[idx := Entry(h, size, true)];
      origin := origin0[idx := Origin(q, params)];
    }
  }
}
