/** The firmware image: padding to words, and the CRC of the image padded to the flash size. */
module Firmware {
  import opened Crc32

  const BLANK: byte := 0xff

  function Blanks(n: nat): seq<byte> {
    seq(n, i => BLANK)
  }

  lemma {:induction false} BlanksAdd(m: nat, n: nat)
    ensures Blanks(m) + Blanks(n) == Blanks(m + n)
  {
  }

  /** The image extended with 0xff to the next multiple of four bytes. */
  function Padded(image: seq<byte>): (r: seq<byte>)
    ensures |r| % 4 == 0 && |image| <= |r| < |image| + 4 && image <= r
    ensures forall i :: |image| <= i < |r| ==> r[i] == 0xff
  {
    image + Blanks((4 - |image| % 4) % 4)
  }

  method PadImage(decompressed: seq<byte>) returns (image: seq<byte>)
    ensures image == Padded(decompressed)
  {
    image := decompressed;
    ghost var n := 0;
    assert image == decompressed + Blanks(n);
    while |image| % 4 != 0
      invariant n <= (4 - |decompressed| % 4) % 4
      invariant image == decompressed + Blanks(n)
      decreases 4 - n
    {
      PadCount(|decompressed|, n);
      OneBlank(decompressed, n);
      image := image + [BLANK];
      n := n + 1;
    }
    PadCount(|decompressed|, n);
  }

  /** Only the full padding reaches a multiple of four. */
  lemma {:induction false} PadCount(len: nat, n: nat)
    requires n <= (4 - len % 4) % 4
    ensures (len + n) % 4 == 0 <==> n == (4 - len % 4) % 4
  {
  }

  lemma {:induction false} OneBlank(image: seq<byte>, n: nat)
    ensures image + Blanks(n) + [BLANK] == image + Blanks(n + 1)
  {
  }

  /** The byte loop over the table computes the bit-by-bit CRC. */
  method Crc(bytes: seq<byte>, state: bv32) returns (r: bv32)
    ensures r == BitwiseCrc(bytes, state)
  {
    r := state;
    for i := 0 to |bytes|
      invariant r == BitwiseCrc(bytes[..i], state)
    {
      StepIsBitwise(r, bytes[i]);
      assert bytes[..i + 1][..i] == bytes[..i];
      r := TableStep(r, bytes[i]);
    }
    assert bytes[..|bytes|] == bytes;
  }

  /** The length that `crc(padlen)` really covers: whole pad words while below padlen - 1. */
  function CoveredLength(len: nat, padlen: int): nat {
    if padlen - 1 <= len then len else len + (padlen - len + 2) / 4 * 4
  }

  /**
   It covers exactly padlen bytes if and only if whole pad words fill the difference; one byte too few is ignored, and
   two or three more bytes are filled up to a word.
   */
  lemma {:induction false} CoversExactly(len: nat, padlen: int)
    ensures CoveredLength(len, padlen) == padlen <==> padlen >= len && (padlen - len) % 4 == 0
    ensures padlen <= len ==> CoveredLength(len, padlen) == len
    ensures padlen > len && (padlen - len) % 4 == 1 ==> CoveredLength(len, padlen) == padlen - 1
    ensures padlen > len && (padlen - len) % 4 == 2 ==> CoveredLength(len, padlen) == padlen + 2
    ensures padlen > len && (padlen - len) % 4 == 3 ==> CoveredLength(len, padlen) == padlen + 1
  {
  }

  /** A flash of 6 bytes after an image of 4: the one pad word reaches 8. */
  lemma {:induction false} CoversTooMuch()
    ensures CoveredLength(4, 6) == 8
  {
  }

  lemma {:induction false} CoverStart(len: nat, padlen: int)
    ensures CoveredLength(len, padlen) >= len
  {
  }

  /** The bit-by-bit CRC of the image followed by 0xff up to the covered length. */
  function ImageCrc(image: seq<byte>, padlen: int): bv32 {
    CoverStart(|image|, padlen);
    BitwiseCrc(image + Blanks(CoveredLength(|image|, padlen) - |image|), 0)
  }

  /** The loop has covered i bytes. */
  predicate Covering(len: nat, padlen: int, i: int) {
    len <= i <= CoveredLength(len, padlen) && (i - len) % 4 == 0
  }

  function CrcTo(image: seq<byte>, i: int): bv32
    requires |image| <= i
  {
    BitwiseCrc(image + Blanks(i - |image|), 0)
  }

  method PaddedCrc(image: seq<byte>, padlen: int) returns (state: bv32)
    ensures state == ImageCrc(image, padlen)
  {
    state := Crc(image, 0);
    var i := |image|;
    assert image + Blanks(0) == image;
    CoverStart(|image|, padlen);
    while i < padlen - 1
      invariant |image| <= i && Covering(|image|, padlen, i) && state == CrcTo(image, i)
    {
      var crcpad: seq<byte> := [0xff, 0xff, 0xff, 0xff];
      PadWord(image, i - |image|, crcpad);
      CoverStep(|image|, padlen, i);
      state := Crc(crcpad, state);
      i := i + 4;
    }
    CoverStep(|image|, padlen, i);
  }

  lemma {:induction false} CoverStep(len: nat, padlen: int, i: int)
    requires Covering(len, padlen, i)
    ensures if i < padlen - 1 then Covering(len, padlen, i + 4) else i == CoveredLength(len, padlen)
  {
  }

  lemma {:induction false} PadWord(image: seq<byte>, n: nat, crcpad: seq<byte>)
    requires crcpad == [0xff, 0xff, 0xff, 0xff]
    ensures BitwiseCrc(image + Blanks(n + 4), 0) == BitwiseCrc(crcpad, BitwiseCrc(image + Blanks(n), 0))
  {
    BitwiseAppend(image + Blanks(n), crcpad, 0);
    assert crcpad == Blanks(4);
    BlanksAdd(n, 4);
    assert (image + Blanks(n)) + Blanks(4) == image + (Blanks(n) + Blanks(4));
  }
}
