/** NUL-terminated C strings as the fingerprint and the measurement see them. */
module CStrings {
  import opened Wrappers

  /** A `const char *` argument: either the null pointer or a pointer to memory
      that is read byte by byte up to the first NUL. */
  datatype CStr = Null | Str(mem: seq<bv8>)

  /** The bytes in front of the first NUL of `mem` (all of `mem` if it holds none). */
  function UpToNul(mem: seq<bv8>): (r: seq<bv8>)
    ensures |r| <= |mem| && r == mem[..|r|]
    ensures forall k :: 0 <= k < |r| ==> r[k] != 0
    ensures |r| < |mem| ==> mem[|r|] == 0
    decreases |mem|
  {
    if |mem| == 0 || mem[0] == 0 then []
    else [mem[0]] + UpToNul(mem[1..])
  }

  /** A prefix free of NUL that either fills `mem` or stops at a NUL is what
      `UpToNul` returns. */
  lemma {:induction false} UpToNulOfClean(mem: seq<bv8>, i: nat)
    requires i <= |mem|
    requires forall k :: 0 <= k < i ==> mem[k] != 0
    requires i == |mem| || mem[i] == 0
    ensures UpToNul(mem) == mem[..i]
    decreases i
  {
    if i == 0 {
    } else {
      assert mem[0] != 0;
      UpToNulOfClean(mem[1..], i - 1);
      assert mem[..i] == [mem[0]] + mem[1..][..i - 1];
    }
  }

  /** The characters a scan `for (s = p; s && *s; ++s)` visits: none for the null
      pointer, otherwise those before the terminator. */
  function Chars(s: CStr): (r: seq<bv8>)
    ensures s.Null? ==> r == []
    ensures s.Str? ==> |r| <= |s.mem| && r == s.mem[..|r|]
    ensures forall k :: 0 <= k < |r| ==> r[k] != 0
    ensures s.Str? && |r| < |s.mem| ==> s.mem[|r|] == 0
  {
    match s
    case Null => []
    case Str(mem) => UpToNul(mem)
  }

  /** A literal: the given NUL-free bytes followed by the terminator. */
  lemma CharsOfLiteral(text: seq<bv8>)
    requires 0 !in text
    ensures Chars(Str(text + [0])) == text
  {
    assert (text + [0])[..|text|] == text;
    UpToNulOfClean(text + [0], |text|);
  }

  /** What a consumer that distinguishes the null pointer sees: nothing for
      it, otherwise the characters before the terminator. */
  function Text(s: CStr): Option<seq<bv8>> {
    if s.Null? then None else Some(Chars(s))
  }
}
