/**
 The two encodings by their definitions: UTF-8 by section 3 of RFC 3629, UTF-16 by
 section 2.1 of RFC 2781.
 */
module Utf {
  import opened Base

  predicate IsSurrogate(c: int) { 0xD800 <= c <= 0xDFFF }

  type Scalar = c: int | 0 <= c <= 0x10FFFF && !IsSurrogate(c)

  /** The octets of one character number; the definition skips surrogates, the
      arithmetic does not. */
  function Utf8Of(c: int): (r: seq<byte>)
    requires 0 <= c <= 0x10FFFF
    ensures 1 <= |r| <= 4
    ensures |r| == 4 <==> c >= 0x10000
  {
    if c < 0x80 then [c]
    else if c < 0x800 then [0xC0 + c / 64, 0x80 + c % 64]
    else if c < 0x10000 then [0xE0 + c / 4096, 0x80 + c / 64 % 64, 0x80 + c % 64]
    else [0xF0 + c / 262144, 0x80 + c / 4096 % 64, 0x80 + c / 64 % 64, 0x80 + c % 64]
  }

  function Utf16Of(c: Scalar): (r: seq<int>)
    ensures 1 <= |r| <= 2
    ensures |r| == 2 <==> c >= 0x10000
  {
    if c < 0x10000 then [c]
    else [0xD800 + (c - 0x10000) / 1024, 0xDC00 + (c - 0x10000) % 1024]
  }

  function Utf8(cs: seq<Scalar>): seq<byte> {
    if cs == [] then [] else Utf8Of(cs[0]) + Utf8(cs[1..])
  }

  function Utf16(cs: seq<Scalar>): seq<int> {
    if cs == [] then [] else Utf16Of(cs[0]) + Utf16(cs[1..])
  }

  lemma {:induction false} Utf8Append(cs: seq<Scalar>, c: Scalar)
    ensures Utf8(cs + [c]) == Utf8(cs) + Utf8Of(c)
  {
    if cs == [] {
      assert cs + [c] == [c] && [c][1..] == [];
      assert Utf8([c]) == Utf8Of(c) + [];
    } else {
      Utf8Append(cs[1..], c);
      assert (cs + [c])[1..] == cs[1..] + [c];
      var (first, mid, last) := (Utf8Of(cs[0]), Utf8(cs[1..]), Utf8Of(c));
      assert first + (mid + last) == first + mid + last;
    }
  }

  /** The examples of section 7 of RFC 3629 and section 5 of RFC 2781. */
  lemma StandardExamples()
    ensures Utf8Of(0x41) == [0x41] && Utf8Of(0x391) == [0xCE, 0x91] && Utf8Of(0x2262) == [0xE2, 0x89, 0xA2]
    ensures Utf8Of(0x233B4) == [0xF0, 0xA3, 0x8E, 0xB4]
    ensures Utf16Of(0x3A9) == [0x3A9] && Utf16Of(0x12345) == [0xD808, 0xDF45]
  {
  }
}
