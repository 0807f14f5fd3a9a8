/** The 64-bit FNV-1a hash: offset basis, prime and the per-byte step. */
module Fnv {

  const OffsetBasis: bv64 := 14695981039346656037
  const Prime: bv64 := 1099511628211

  /** One step: xor the byte into the low bits, then multiply modulo 2^64
      (bv64 multiplication wraps exactly like uint64_t). */
  function Step(h: bv64, b: bv8): bv64 {
    (h ^ (b as bv64)) * Prime
  }

  /** The step applied to every byte of `bytes`, first byte first. */
  function Fold(h: bv64, bytes: seq<bv8>): bv64
    decreases |bytes|
  {
    if |bytes| == 0 then h else Fold(Step(h, bytes[0]), bytes[1..])
  }

  /** Folding a byte at the end is one more step after the fold of the prefix;
      this is what lets the hash be computed one byte at a time. */
  lemma {:induction false} FoldSnoc(h: bv64, bytes: seq<bv8>, b: bv8)
    ensures Fold(h, bytes + [b]) == Step(Fold(h, bytes), b)
    decreases |bytes|
  {
    if |bytes| == 0 {
      assert bytes + [b] == [b];
      assert [b][1..] == [];
    } else {
      assert (bytes + [b])[1..] == bytes[1..] + [b];
      FoldSnoc(Step(h, bytes[0]), bytes[1..], b);
    }
  }

  /** Hashing a concatenation is hashing the second part from the state the
      first part left behind. */
  lemma {:induction false} FoldAppend(h: bv64, xs: seq<bv8>, ys: seq<bv8>)
    ensures Fold(h, xs + ys) == Fold(Fold(h, xs), ys)
    decreases |xs|
  {
    if |xs| == 0 {
      assert xs + ys == ys;
    } else {
      assert (xs + ys)[1..] == xs[1..] + ys;
      FoldAppend(Step(h, xs[0]), xs[1..], ys);
    }
  }

  /** The constants are the published FNV-1a 64-bit ones: the empty input hashes
      to the offset basis and "a" to the reference value 0xaf63dc4c8601ec8c. */
  lemma TestVectors()
    ensures Fold(OffsetBasis, []) == 0xcbf29ce484222325
    ensures Fold(OffsetBasis, [0x61]) == 0xaf63dc4c8601ec8c
  {
    assert [0x61 as bv8][1..] == [];
  }
}
