/** A length as one byte. */
module Octets {

  function ByteLength(b: bv8): nat {
    b as nat
  }

  lemma {:induction false} Increment(b: bv8)
    requires b != 255
    ensures ByteLength(b + 1) == ByteLength(b) + 1
  {
  }

  /** The byte whose value is n. */
  function LengthByte(n: nat): (b: bv8)
    requires n < 256
    ensures ByteLength(b) == n
  {
    if n == 0 then 0
    else
      Increment(LengthByte(n - 1));
      LengthByte(n - 1) + 1
  }

  lemma {:induction false} NextWord(n: nat)
    requires n + 4 < 256
    ensures LengthByte(n + 4) == LengthByte(n) + 4
  {
    OneMore(n);
    OneMore(n + 1);
    OneMore(n + 2);
    OneMore(n + 3);
    FourTimes(LengthByte(n));
  }

  lemma {:induction false} OneMore(n: nat)
    requires n + 1 < 256
    ensures LengthByte(n + 1) == LengthByte(n) + 1
  {
  }

  lemma {:induction false} FourTimes(b: bv8)
    ensures b + 1 + 1 + 1 + 1 == b + 4
  {
  }
}
