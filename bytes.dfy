/** Bytes, byte strings and the fixed-width integers the driver passes around. */
module Bytes {

  /** A `u8`. */
  type Byte = b: int | 0 <= b < 256

  /** A `u16` (port numbers). */
  type U16 = x: int | 0 <= x < 0x1_0000

  /** The bytes of a string literal whose characters are all below 256 (the ASCII literals of the protocol). */
  function Ascii(s: string): (b: seq<Byte>)
    requires forall i :: 0 <= i < |s| ==> s[i] as int < 256
    ensures |b| == |s|
    ensures forall i :: 0 <= i < |s| ==> b[i] == s[i] as int
  {
    seq(|s|, i requires 0 <= i < |s| => s[i] as int)
  }

  /** `tail` is what `s` ends with. */
  predicate IsSuffix(tail: seq<Byte>, s: seq<Byte>)
  {
    |tail| <= |s| && s[|s| - |tail|..] == tail
  }

  lemma SuffixOfConcat(a: seq<Byte>, b: seq<Byte>)
    ensures IsSuffix(b, a + b)
  {
    assert (a + b)[|a|..] == b;
  }
}
