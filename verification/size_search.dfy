/** The best-fit search: the largest size in [minSize, maxSize] at which both
    strings fit the box, scanning downward, with minSize as the fallback. */
module SizeSearch {
  import opened Wrappers
  import opened CStrings

  /** A raylib font: the base size and texture id that the key reads, and the
      rest of the font (glyph metrics, rectangles, padding) that only the
      measurement sees. */
  datatype Font = Font(baseSize: int, textureId: int, glyphs: seq<int>)

  /** A measured text extent, already truncated to integers as the caller does. */
  datatype Dims = Dims(w: int, h: int)

  /** Text measurement at a size with zero letter spacing. It is a deterministic
      function of the font, the text (`None` for the null pointer, otherwise the
      characters before the terminator) and the size. */
  type Measure = (Font, Option<seq<bv8>>, int) -> Dims

  /** The arguments of one call. */
  datatype Request = Request(font: Font, a: CStr, b: CStr,
                             maxWidth: int, maxHeight: int,
                             maxSize: int, minSize: int, gap: int)

  /** Both strings are at most `maxWidth` wide at size `sz`, and their heights
      plus the gap are at most `maxHeight`. */
  predicate Fits(m: Measure, q: Request, sz: int) {
    var da := m(q.font, Text(q.a), sz);
    var db := m(q.font, Text(q.b), sz);
    da.w <= q.maxWidth && db.w <= q.maxWidth && da.h + db.h + q.gap <= q.maxHeight
  }

  /** The independent description of the answer: for an empty range it is
      minSize; otherwise it is the largest fitting size in range, or minSize
      when no size in range fits. */
  predicate IsBestFit(m: Measure, q: Request, r: int) {
    if q.maxSize < q.minSize then r == q.minSize
    else
      (q.minSize <= r <= q.maxSize && Fits(m, q, r) &&
       forall s :: r < s <= q.maxSize ==> !Fits(m, q, s))
      ||
      (r == q.minSize && forall s :: q.minSize <= s <= q.maxSize ==> !Fits(m, q, s))
  }

  /** The scan from `sz` down to minSize, stopping at the first fitting size. */
  function ScanDown(m: Measure, q: Request, sz: int): (r: int)
    ensures sz < q.minSize ==> r == q.minSize
    ensures q.minSize <= sz ==> q.minSize <= r <= sz
    ensures forall s :: r < s <= sz ==> !Fits(m, q, s)
    ensures Fits(m, q, r) || forall s :: q.minSize <= s <= sz ==> !Fits(m, q, s)
    ensures Fits(m, q, r) || r == q.minSize
    decreases sz - q.minSize
  {
    if sz < q.minSize then q.minSize
    else if Fits(m, q, sz) then sz
    else ScanDown(m, q, sz - 1)
  }

  /** The size font_cache.c computes on a cache miss. */
  function BestFit(m: Measure, q: Request): (r: int)
    ensures q.maxSize < q.minSize ==> r == q.minSize
    ensures q.minSize <= q.maxSize ==> q.minSize <= r <= q.maxSize
    ensures forall s :: r < s <= q.maxSize ==> !Fits(m, q, s)
    ensures !Fits(m, q, r) ==> r == q.minSize
    ensures (exists s :: q.minSize <= s <= q.maxSize && Fits(m, q, s)) ==> Fits(m, q, r)
  {
    ScanDown(m, q, q.maxSize)
  }

  /** The scan computes exactly the size the independent description allows,
      and that description allows one size only. */
  lemma BestFitCharacterized(m: Measure, q: Request, r: int)
    ensures IsBestFit(m, q, r) <==> r == BestFit(m, q)
  {
  }

  /** How many sizes the scan measures: none for an empty range, otherwise every
      size from maxSize down to the answer. */
  function SizesTried(m: Measure, q: Request): (n: nat)
    ensures n == 0 <==> q.maxSize < q.minSize
    ensures n <= if q.maxSize < q.minSize then 0 else q.maxSize - q.minSize + 1
  {
    if q.maxSize < q.minSize then 0 else q.maxSize - BestFit(m, q) + 1
  }

  /** The search as font_cache.c writes it: `for (sz = maxSize; sz >= minSize; --sz)`,
      measuring both strings at each size and breaking at the first fit.
      `measured` counts calls of the measurement function. */
  method SearchSize(m: Measure, q: Request) returns (result: int, measured: nat)
    ensures result == BestFit(m, q)
    ensures measured == 2 * SizesTried(m, q)
  {
    result := q.minSize;
    measured := 0;
    var sz := q.maxSize;
    while sz >= q.minSize
      invariant sz <= q.maxSize
      invariant q.minSize <= q.maxSize ==> q.minSize - 1 <= sz
      invariant q.maxSize < q.minSize ==> sz == q.maxSize
      invariant forall s :: sz < s <= q.maxSize ==> !Fits(m, q, s)
      invariant measured == 2 * (q.maxSize - sz)
      invariant result == q.minSize
    {
      var da := m(q.font, Text(q.a), sz);
      var db := m(q.font, Text(q.b), sz);
      measured := measured + 2;
      if da.w <= q.maxWidth && db.w <= q.maxWidth && da.h + db.h + q.gap <= q.maxHeight {
        result := sz;
        break;
      }
      sz := sz - 1;
    }
    BestFitCharacterized(m, q, result);
    assert q.minSize <= q.maxSize ==> measured == 2 * (q.maxSize - result + 1);
  }
}

/** The score panel's call worked through with a stand-in measurement. */
module SizeSearchScenarios {
  import opened Wrappers
  import opened CStrings
  import opened SizeSearch

  /** Width 0.6 * size per character and height 1.2 * size, truncated (the
      sizes used here are positive, so truncation and floor agree); the null
      pointer counts as no characters. */
  function StubMeasure(f: Font, text: Option<seq<bv8>>, sz: int): Dims {
    var n := if text.Some? then |text.value| else 0;
    Dims(6 * sz * n / 10, 12 * sz / 10)
  }

  const Label: seq<bv8> := [0x53, 0x63, 0x6f, 0x72, 0x65, 0x3a]   // "Score:"
  const Value: seq<bv8> := [0x30, 0x30, 0x30, 0x39, 0x39, 0x39]   // "000999"

  /** The panel's call: font base size 20 with an arbitrary texture id and
      glyphs, sizes 20 down to 6, a box 84 high with a gap of 4, and the given
      width. */
  function ScoreRequest(maxWidth: int): Request {
    Request(Font(20, 7, []), Str(Label + [0]), Str(Value + [0]), maxWidth, 84, 20, 6, 4)
  }

  /** In a box 184 wide the largest size, 20, already fits and is the only one measured. */
  lemma WideBoxTakesMaxSize()
    ensures BestFit(StubMeasure, ScoreRequest(184)) == 20
    ensures SizesTried(StubMeasure, ScoreRequest(184)) == 1
  {
    CharsOfLiteral(Label);
    CharsOfLiteral(Value);
    assert Fits(StubMeasure, ScoreRequest(184), 20);
  }

  /** In a box 40 wide the text is 3.6 * size wide, so the scan goes down to 11
      after measuring ten sizes. */
  lemma NarrowBoxScansDown()
    ensures BestFit(StubMeasure, ScoreRequest(40)) == 11
    ensures SizesTried(StubMeasure, ScoreRequest(40)) == 10
  {
    var q := ScoreRequest(40);
    CharsOfLiteral(Label);
    CharsOfLiteral(Value);
    assert Fits(StubMeasure, q, 11);
    forall s | 11 < s <= 20
      ensures !Fits(StubMeasure, q, s)
    {
      assert 6 * s * 6 / 10 > 40;
    }
    BestFitCharacterized(StubMeasure, q, 11);
  }

  /** In a box of width 0 nothing fits and the answer falls back to minSize. */
  lemma ZeroWidthFallsBack()
    ensures BestFit(StubMeasure, ScoreRequest(0)) == 6
    ensures SizesTried(StubMeasure, ScoreRequest(0)) == 15
  {
    var q := ScoreRequest(0);
    CharsOfLiteral(Label);
    CharsOfLiteral(Value);
    forall s | 6 <= s <= 20
      ensures !Fits(StubMeasure, q, s)
    {
      assert 6 * s * 6 / 10 > 0;
    }
    BestFitCharacterized(StubMeasure, q, 6);
  }
}
