/** Acceptance of 16-bit wrapping sequence numbers. */
module UlogSequence {
  import opened Bytes

  const HALF := 0x8000
  const MODULUS := 0x1_0000

  datatype Verdict = Verdict(newer: bool, drops: nat)

  /** `last == -1` means that nothing has been received yet. */
  function CheckSequence(last: int, sequence: u16): Verdict
    requires -1 <= last < MODULUS
  {
    if last == -1 then Verdict(true, 0)
    else if sequence == last then Verdict(false, 0)
    else if sequence > last then
      if sequence - last > HALF then Verdict(false, 0) else Verdict(true, sequence - last - 1)
    else
      if last - sequence > HALF then Verdict(true, MODULUS - last - 1 + sequence) else Verdict(false, 0)
  }

  /** Serial number order of section 3.2 of RFC 1982 with SERIAL_BITS 16. */
  predicate SerialLess(i1: u16, i2: u16) {
    (i1 < i2 && i2 - i1 < HALF) || (i1 > i2 && i1 - i2 > HALF)
  }

  /** The RFC leaves two numbers incomparable when they are exactly half the space apart. */
  predicate SerialComparable(i1: u16, i2: u16) {
    i1 == i2 || SerialLess(i1, i2) || SerialLess(i2, i1)
  }

  /** "Newer" is the RFC 1982 order wherever that is defined, and picks the larger number where it is not. */
  lemma {:induction false} AgreesWithSerialArithmetic(last: u16, sequence: u16)
    ensures SerialComparable(last, sequence) <==> last - sequence != HALF && sequence - last != HALF
    ensures CheckSequence(last, sequence).newer <==>
              if SerialComparable(last, sequence) then SerialLess(last, sequence) else last < sequence
    ensures last != sequence ==> (CheckSequence(last, sequence).newer <==> !CheckSequence(sequence, last).newer)
    ensures !CheckSequence(last, last).newer
    ensures var v := CheckSequence(last, sequence);
      if v.newer then (last + v.drops + 1) % MODULUS == sequence else v.drops == 0
  {
  }

  /** `last` and `counter` are unbounded sender counters; only their low 16 bits travel. */
  lemma {:induction false} TracksCounter(last: nat, counter: nat)
    requires -32767 <= counter - last <= 32767
    ensures CheckSequence(last % MODULUS, counter % MODULUS).newer <==> counter > last
    ensures counter > last ==>
              CheckSequence(last % MODULUS, counter % MODULUS).drops == counter - last - 1
  {
  }

  /** Forward gaps of up to half the space are told apart from stale numbers exactly when they do not wrap at 2^15. */
  lemma {:induction false} ForwardWindow(last: nat, gap: nat)
    requires 1 <= gap < MODULUS
    ensures CheckSequence(last % MODULUS, (last + gap) % MODULUS) == Verdict(true, gap - 1) <==>
              gap < HALF || (gap == HALF && last % MODULUS < HALF)
  {
  }

  /** Half the space ahead, but across the wrap: taken for a stale number. */
  lemma {:induction false} HalfAheadRejected()
    ensures !CheckSequence(HALF, (HALF + HALF) % MODULUS).newer
  {
  }
}
