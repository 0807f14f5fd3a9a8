/** The cache key of one call: FNV-1a over the parameter bytes, the bytes of
    `a`, one separator byte and the bytes of `b`. */
module Fingerprint {
  import opened CStrings
  import opened Fnv

  const Separator: bv8 := 0xFF

  /** Every byte the key depends on, in the order they are folded in. The
      parameter bytes (font base size, texture id and the five layout integers,
      each read as one machine word) are given as they were read. */
  function KeyStream(params: seq<bv8>, a: CStr, b: CStr): seq<bv8> {
    Stream(params, Chars(a), Chars(b))
  }

  /** The stream for given parameter bytes and string characters. */
  function Stream(params: seq<bv8>, x: seq<bv8>, y: seq<bv8>): seq<bv8> {
    params + (x + [Separator] + y)
  }

  /** The reference definition of the key: one fold over the whole stream. */
  function Key(params: seq<bv8>, a: CStr, b: CStr): bv64 {
    Fold(OffsetBasis, KeyStream(params, a, b))
  }

  /** Folds the characters of `s` into `h` one at a time, stopping at the NUL
      or at once for the null pointer. */
  method MixString(h0: bv64, s: CStr) returns (h: bv64)
    ensures h == Fold(h0, Chars(s))
  {
    h := h0;
    if s.Null? {
      return;
    }
    var mem := s.mem;
    var i := 0;
    while i < |mem| && mem[i] != 0
      invariant 0 <= i <= |mem|
      invariant forall k :: 0 <= k < i ==> mem[k] != 0
      invariant h == Fold(h0, mem[..i])
    {
      FoldSnoc(h0, mem[..i], mem[i]);
      assert mem[..i + 1] == mem[..i] + [mem[i]];
      h := Step(h, mem[i]);
      i := i + 1;
    }
    assert mem[..i] == Chars(s) by {
      UpToNulOfClean(mem, i);
    }
  }

  /** The key computed the way font_cache.c does it: start from the offset basis,
      fold the parameter bytes, the bytes of `a`, the separator, then `b`. */
  method ComputeKey(params: seq<bv8>, a: CStr, b: CStr) returns (h: bv64)
    ensures h == Key(params, a, b)
  {
    h := OffsetBasis;
    var j := 0;
    while j < |params|
      invariant 0 <= j <= |params|
      invariant h == Fold(OffsetBasis, params[..j])
    {
      FoldSnoc(OffsetBasis, params[..j], params[j]);
      assert params[..j + 1] == params[..j] + [params[j]];
      h := Step(h, params[j]);
      j := j + 1;
    }
    assert params[..j] == params;
    var ha := MixString(h, a);
    var hs := Step(ha, Separator);
    h := MixString(hs, b);
    FoldAppend(OffsetBasis, params, Chars(a) + [Separator] + Chars(b));
    FoldSnoc(Fold(OffsetBasis, params), Chars(a), Separator);
    FoldAppend(Fold(OffsetBasis, params), Chars(a) + [Separator], Chars(b));
  }

  /** Position of the first separator byte in `t` (`|t|` when there is none). */
  function SeparatorIndex(t: seq<bv8>): nat
    decreases |t|
  {
    if |t| == 0 || t[0] == Separator then 0 else 1 + SeparatorIndex(t[1..])
  }

  /** When `x` holds no separator, the first separator of `x + [Separator] + y`
      is the one placed after `x`. */
  lemma {:induction false} SeparatorIndexAfter(x: seq<bv8>, y: seq<bv8>)
    requires Separator !in x
    ensures SeparatorIndex(x + [Separator] + y) == |x|
    decreases |x|
  {
    if |x| > 0 {
      assert (x + [Separator] + y)[1..] == x[1..] + [Separator] + y;
      SeparatorIndexAfter(x[1..], y);
    }
  }

  /** Cutting `x + [Separator] + y` at its first separator gives back `x` and
      `y` when `x` holds no separator. */
  lemma SplitAtSeparator(x1: seq<bv8>, y1: seq<bv8>, x2: seq<bv8>, y2: seq<bv8>)
    requires Separator !in x1 && Separator !in x2
    requires x1 + [Separator] + y1 == x2 + [Separator] + y2
    ensures x1 == x2 && y1 == y2
  {
    var t := x1 + [Separator] + y1;
    SeparatorIndexAfter(x1, y1);
    SeparatorIndexAfter(x2, y2);
    assert x1 == t[..|x1|] == x2;
    assert y1 == t[|x1| + 1..] == y2;
  }

  /** With parameter prefixes of one width and first strings that hold no
      0xFF byte, the stream determines its three parts: the separator marks
      exactly where the first string ends. */
  lemma StreamUnambiguous(p1: seq<bv8>, x1: seq<bv8>, y1: seq<bv8>, p2: seq<bv8>, x2: seq<bv8>, y2: seq<bv8>)
    requires |p1| == |p2|
    requires Separator !in x1 && Separator !in x2
    requires Stream(p1, x1, y1) == Stream(p2, x2, y2)
    ensures p1 == p2 && x1 == x2 && y1 == y2
  {
    var s := Stream(p1, x1, y1);
    assert p1 == s[..|p1|] == p2;
    assert x1 + [Separator] + y1 == s[|p1|..] == x2 + [Separator] + y2;
    SplitAtSeparator(x1, y1, x2, y2);
  }

  /** Without that condition the separator does not separate: ("x\xFF", "")
      and ("x", "\xFF") produce the same stream and so the same key. */
  lemma SeparatorInTextIsAmbiguous()
    ensures var a1, b1 := Str([0x78, 0xFF, 0]), Str([0]);
            var a2, b2 := Str([0x78, 0]), Str([0xFF, 0]);
            Chars(a1) != Chars(a2) && KeyStream([], a1, b1) == KeyStream([], a2, b2)
  {
    var a1, b1 := Str([0x78, 0xFF, 0]), Str([0]);
    var a2, b2 := Str([0x78, 0]), Str([0xFF, 0]);
    assert Chars(a1) == [0x78, 0xFF] by {
      assert UpToNul([0x78, 0xFF, 0]) == [0x78] + UpToNul([0xFF, 0]);
      assert [0xFF as bv8, 0][1..] == [0];
    }
    assert Chars(a2) == [0x78] by {
      assert [0x78 as bv8, 0][1..] == [0];
    }
    assert Chars(b2) == [0xFF] by {
      assert [0xFF as bv8, 0][1..] == [0];
    }
  }
}
