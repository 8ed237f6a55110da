/** The table-driven CRC-32 of the uploader, and the bit-by-bit reflected CRC it implements. */
module Crc32 {

  type byte = bv8

  const POLYNOMIAL: bv32 := 0xEDB88320

  function Xor(a: bv32, b: bv32): bv32 {
    a ^ b
  }

  function Half(a: bv32): bv32 {
    a >> 1
  }

  predicate Even(a: bv32) {
    a & 1 == 0
  }

  // ---- reference: one bit at a time

  function Shift(x: bv32): bv32 {
    if Even(x) then Half(x) else Xor(Half(x), POLYNOMIAL)
  }

  /** Eight single-bit steps. */
  function Shift8(x: bv32): bv32 {
    Shift(Shift(Shift(Shift(Shift(Shift(Shift(Shift(x))))))))
  }

  function BitwiseCrc(bytes: seq<byte>, state: bv32): bv32
    decreases |bytes|
  {
    if bytes == [] then state
    else
      var n := |bytes| - 1;
      Shift8(Xor(BitwiseCrc(bytes[..n], state), bytes[n] as bv32))
  }

  // ---- the table

  function Pick(k: bv32, a0: bv32, a1: bv32, a2: bv32, a3: bv32, a4: bv32, a5: bv32, a6: bv32, a7: bv32): bv32 {
    if k == 0 then a0 else if k == 1 then a1 else if k == 2 then a2 else if k == 3 then a3
    else if k == 4 then a4 else if k == 5 then a5 else if k == 6 then a6 else a7
  }

  /** The 256 words of the table, eight to a row. */
  function CrcTab(index: bv32): bv32 {
    var r, k := index >> 3, index & 7;
    if r == 0 then
      Pick(k, 0x00000000, 0x77073096, 0xee0e612c, 0x990951ba, 0x076dc419, 0x706af48f, 0xe963a535, 0x9e6495a3)
    else if r == 1 then
      Pick(k, 0x0edb8832, 0x79dcb8a4, 0xe0d5e91e, 0x97d2d988, 0x09b64c2b, 0x7eb17cbd, 0xe7b82d07, 0x90bf1d91)
    else if r == 2 then
      Pick(k, 0x1db71064, 0x6ab020f2, 0xf3b97148, 0x84be41de, 0x1adad47d, 0x6ddde4eb, 0xf4d4b551, 0x83d385c7)
    else if r == 3 then
      Pick(k, 0x136c9856, 0x646ba8c0, 0xfd62f97a, 0x8a65c9ec, 0x14015c4f, 0x63066cd9, 0xfa0f3d63, 0x8d080df5)
    else if r == 4 then
      Pick(k, 0x3b6e20c8, 0x4c69105e, 0xd56041e4, 0xa2677172, 0x3c03e4d1, 0x4b04d447, 0xd20d85fd, 0xa50ab56b)
    else if r == 5 then
      Pick(k, 0x35b5a8fa, 0x42b2986c, 0xdbbbc9d6, 0xacbcf940, 0x32d86ce3, 0x45df5c75, 0xdcd60dcf, 0xabd13d59)
    else if r == 6 then
      Pick(k, 0x26d930ac, 0x51de003a, 0xc8d75180, 0xbfd06116, 0x21b4f4b5, 0x56b3c423, 0xcfba9599, 0xb8bda50f)
    else if r == 7 then
      Pick(k, 0x2802b89e, 0x5f058808, 0xc60cd9b2, 0xb10be924, 0x2f6f7c87, 0x58684c11, 0xc1611dab, 0xb6662d3d)
    else if r == 8 then
      Pick(k, 0x76dc4190, 0x01db7106, 0x98d220bc, 0xefd5102a, 0x71b18589, 0x06b6b51f, 0x9fbfe4a5, 0xe8b8d433)
    else if r == 9 then
      Pick(k, 0x7807c9a2, 0x0f00f934, 0x9609a88e, 0xe10e9818, 0x7f6a0dbb, 0x086d3d2d, 0x91646c97, 0xe6635c01)
    else if r == 10 then
      Pick(k, 0x6b6b51f4, 0x1c6c6162, 0x856530d8, 0xf262004e, 0x6c0695ed, 0x1b01a57b, 0x8208f4c1, 0xf50fc457)
    else if r == 11 then
      Pick(k, 0x65b0d9c6, 0x12b7e950, 0x8bbeb8ea, 0xfcb9887c, 0x62dd1ddf, 0x15da2d49, 0x8cd37cf3, 0xfbd44c65)
    else if r == 12 then
      Pick(k, 0x4db26158, 0x3ab551ce, 0xa3bc0074, 0xd4bb30e2, 0x4adfa541, 0x3dd895d7, 0xa4d1c46d, 0xd3d6f4fb)
    else if r == 13 then
      Pick(k, 0x4369e96a, 0x346ed9fc, 0xad678846, 0xda60b8d0, 0x44042d73, 0x33031de5, 0xaa0a4c5f, 0xdd0d7cc9)
    else if r == 14 then
      Pick(k, 0x5005713c, 0x270241aa, 0xbe0b1010, 0xc90c2086, 0x5768b525, 0x206f85b3, 0xb966d409, 0xce61e49f)
    else if r == 15 then
      Pick(k, 0x5edef90e, 0x29d9c998, 0xb0d09822, 0xc7d7a8b4, 0x59b33d17, 0x2eb40d81, 0xb7bd5c3b, 0xc0ba6cad)
    else if r == 16 then
      Pick(k, 0xedb88320, 0x9abfb3b6, 0x03b6e20c, 0x74b1d29a, 0xead54739, 0x9dd277af, 0x04db2615, 0x73dc1683)
    else if r == 17 then
      Pick(k, 0xe3630b12, 0x94643b84, 0x0d6d6a3e, 0x7a6a5aa8, 0xe40ecf0b, 0x9309ff9d, 0x0a00ae27, 0x7d079eb1)
    else if r == 18 then
      Pick(k, 0xf00f9344, 0x8708a3d2, 0x1e01f268, 0x6906c2fe, 0xf762575d, 0x806567cb, 0x196c3671, 0x6e6b06e7)
    else if r == 19 then
      Pick(k, 0xfed41b76, 0x89d32be0, 0x10da7a5a, 0x67dd4acc, 0xf9b9df6f, 0x8ebeeff9, 0x17b7be43, 0x60b08ed5)
    else if r == 20 then
      Pick(k, 0xd6d6a3e8, 0xa1d1937e, 0x38d8c2c4, 0x4fdff252, 0xd1bb67f1, 0xa6bc5767, 0x3fb506dd, 0x48b2364b)
    else if r == 21 then
      Pick(k, 0xd80d2bda, 0xaf0a1b4c, 0x36034af6, 0x41047a60, 0xdf60efc3, 0xa867df55, 0x316e8eef, 0x4669be79)
    else if r == 22 then
      Pick(k, 0xcb61b38c, 0xbc66831a, 0x256fd2a0, 0x5268e236, 0xcc0c7795, 0xbb0b4703, 0x220216b9, 0x5505262f)
    else if r == 23 then
      Pick(k, 0xc5ba3bbe, 0xb2bd0b28, 0x2bb45a92, 0x5cb36a04, 0xc2d7ffa7, 0xb5d0cf31, 0x2cd99e8b, 0x5bdeae1d)
    else if r == 24 then
      Pick(k, 0x9b64c2b0, 0xec63f226, 0x756aa39c, 0x026d930a, 0x9c0906a9, 0xeb0e363f, 0x72076785, 0x05005713)
    else if r == 25 then
      Pick(k, 0x95bf4a82, 0xe2b87a14, 0x7bb12bae, 0x0cb61b38, 0x92d28e9b, 0xe5d5be0d, 0x7cdcefb7, 0x0bdbdf21)
    else if r == 26 then
      Pick(k, 0x86d3d2d4, 0xf1d4e242, 0x68ddb3f8, 0x1fda836e, 0x81be16cd, 0xf6b9265b, 0x6fb077e1, 0x18b74777)
    else if r == 27 then
      Pick(k, 0x88085ae6, 0xff0f6a70, 0x66063bca, 0x11010b5c, 0x8f659eff, 0xf862ae69, 0x616bffd3, 0x166ccf45)
    else if r == 28 then
      Pick(k, 0xa00ae278, 0xd70dd2ee, 0x4e048354, 0x3903b3c2, 0xa7672661, 0xd06016f7, 0x4969474d, 0x3e6e77db)
    else if r == 29 then
      Pick(k, 0xaed16a4a, 0xd9d65adc, 0x40df0b66, 0x37d83bf0, 0xa9bcae53, 0xdebb9ec5, 0x47b2cf7f, 0x30b5ffe9)
    else if r == 30 then
      Pick(k, 0xbdbdf21c, 0xcabac28a, 0x53b39330, 0x24b4a3a6, 0xbad03605, 0xcdd70693, 0x54de5729, 0x23d967bf)
    else
      Pick(k, 0xb3667a2e, 0xc4614ab8, 0x5d681b02, 0x2a6f2b94, 0xb40bbe37, 0xc30c8ea1, 0x5a05df1b, 0x2d02ef8d)
  }

  function LowByte(x: bv32): bv32 {
    x & 0xff
  }

  function HighBytes(x: bv32): bv32 {
    x & 0xffff_ff00
  }

  function Down8(x: bv32): bv32 {
    x >> 8
  }

  function TableStep(state: bv32, b: byte): bv32 {
    Xor(CrcTab(LowByte(Xor(state, b as bv32))), Down8(state))
  }

  // ---- the table holds the bit-by-bit results, row by row

  lemma {:induction false} Row0(i: bv32) requires i >> 3 == 0 ensures CrcTab(i) == Shift8(i) {
    assert i == 0 || i == 1 || i == 2 || i == 3 || i == 4 || i == 5 || i == 6 || i == 7;
  }
  lemma {:induction false} Row1(i: bv32) requires i >> 3 == 1 ensures CrcTab(i) == Shift8(i) {}
  lemma {:induction false} Row2(i: bv32) requires i >> 3 == 2 ensures CrcTab(i) == Shift8(i) {}
  lemma {:induction false} Row3(i: bv32) requires i >> 3 == 3 ensures CrcTab(i) == Shift8(i) {}
  lemma {:induction false} Row4(i: bv32) requires i >> 3 == 4 ensures CrcTab(i) == Shift8(i) {}
  lemma {:induction false} Row5(i: bv32) requires i >> 3 == 5 ensures CrcTab(i) == Shift8(i) {}
  lemma {:induction false} Row6(i: bv32) requires i >> 3 == 6 ensures CrcTab(i) == Shift8(i) {}
  lemma {:induction false} Row7(i: bv32) requires i >> 3 == 7 ensures CrcTab(i) == Shift8(i) {}
  lemma {:induction false} Row8(i: bv32) requires i >> 3 == 8 ensures CrcTab(i) == Shift8(i) {}
  lemma {:induction false} Row9(i: bv32) requires i >> 3 == 9 ensures CrcTab(i) == Shift8(i) {}
  lemma {:induction false} Row10(i: bv32) requires i >> 3 == 10 ensures CrcTab(i) == Shift8(i) {}
  lemma {:induction false} Row11(i: bv32) requires i >> 3 == 11 ensures CrcTab(i) == Shift8(i) {}
  lemma {:induction false} Row12(i: bv32) requires i >> 3 == 12 ensures CrcTab(i) == Shift8(i) {}
  lemma {:induction false} Row13(i: bv32) requires i >> 3 == 13 ensures CrcTab(i) == Shift8(i) {}
  lemma {:induction false} Row14(i: bv32) requires i >> 3 == 14 ensures CrcTab(i) == Shift8(i) {}
  lemma {:induction false} Row15(i: bv32) requires i >> 3 == 15 ensures CrcTab(i) == Shift8(i) {}
  lemma {:induction false} Row16(i: bv32) requires i >> 3 == 16 ensures CrcTab(i) == Shift8(i) {}
  lemma {:induction false} Row17(i: bv32) requires i >> 3 == 17 ensures CrcTab(i) == Shift8(i) {}
  lemma {:induction false} Row18(i: bv32) requires i >> 3 == 18 ensures CrcTab(i) == Shift8(i) {}
  lemma {:induction false} Row19(i: bv32) requires i >> 3 == 19 ensures CrcTab(i) == Shift8(i) {}
  lemma {:induction false} Row20(i: bv32) requires i >> 3 == 20 ensures CrcTab(i) == Shift8(i) {}
  lemma {:induction false} Row21(i: bv32) requires i >> 3 == 21 ensures CrcTab(i) == Shift8(i) {}
  lemma {:induction false} Row22(i: bv32) requires i >> 3 == 22 ensures CrcTab(i) == Shift8(i) {}
  lemma {:induction false} Row23(i: bv32) requires i >> 3 == 23 ensures CrcTab(i) == Shift8(i) {}
  lemma {:induction false} Row24(i: bv32) requires i >> 3 == 24 ensures CrcTab(i) == Shift8(i) {}
  lemma {:induction false} Row25(i: bv32) requires i >> 3 == 25 ensures CrcTab(i) == Shift8(i) {}
  lemma {:induction false} Row26(i: bv32) requires i >> 3 == 26 ensures CrcTab(i) == Shift8(i) {}
  lemma {:induction false} Row27(i: bv32) requires i >> 3 == 27 ensures CrcTab(i) == Shift8(i) {}
  lemma {:induction false} Row28(i: bv32) requires i >> 3 == 28 ensures CrcTab(i) == Shift8(i) {}
  lemma {:induction false} Row29(i: bv32) requires i >> 3 == 29 ensures CrcTab(i) == Shift8(i) {}
  lemma {:induction false} Row30(i: bv32) requires i >> 3 == 30 ensures CrcTab(i) == Shift8(i) {}
  lemma {:induction false} Row31(i: bv32) requires i >> 3 == 31 ensures CrcTab(i) == Shift8(i) {}

  lemma {:induction false} TableIsBitwise(i: bv32)
    requires i & 0xff == i
    ensures CrcTab(i) == Shift8(i)
  {
    var r := i >> 3;
    assert r < 32;
    if r == 0 { Row0(i); } else if r == 1 { Row1(i); } else if r == 2 { Row2(i); } else if r == 3 { Row3(i); }
    else if r == 4 { Row4(i); } else if r == 5 { Row5(i); } else if r == 6 { Row6(i); } else if r == 7 { Row7(i); }
    else if r == 8 { Row8(i); } else if r == 9 { Row9(i); } else if r == 10 { Row10(i); } else if r == 11 { Row11(i); }
    else if r == 12 { Row12(i); } else if r == 13 { Row13(i); } else if r == 14 { Row14(i); } else if r == 15 { Row15(i); }
    else if r == 16 { Row16(i); } else if r == 17 { Row17(i); } else if r == 18 { Row18(i); } else if r == 19 { Row19(i); }
    else if r == 20 { Row20(i); } else if r == 21 { Row21(i); } else if r == 22 { Row22(i); } else if r == 23 { Row23(i); }
    else if r == 24 { Row24(i); } else if r == 25 { Row25(i); } else if r == 26 { Row26(i); } else if r == 27 { Row27(i); }
    else if r == 28 { Row28(i); } else if r == 29 { Row29(i); } else if r == 30 { Row30(i); }
    else { assert r == 31; Row31(i); }
  }

  // ---- bits above the shifted ones only move down

  /** One step on `low` combined with an even `high` is a step on `low` combined with half of `high`. */
  ghost predicate MovesAt<T>(f: T -> T, op: (T, T) -> T, half: T -> T, even: T -> bool, low: T, high: T) {
    even(high) ==> f(op(low, high)) == op(f(low), half(high))
  }

  ghost predicate Moves<T(!new)>(f: T -> T, op: (T, T) -> T, half: T -> T, even: T -> bool) {
    forall low, high :: MovesAt(f, op, half, even, low, high)
  }

  function Eight<T>(f: T -> T, x: T): T {
    f(f(f(f(f(f(f(f(x))))))))
  }

  /** The argument for eight steps, away from any particular word type. */
  lemma {:induction false} EightOver<T(!new)>(f: T -> T, op: (T, T) -> T, half: T -> T, even: T -> bool, l0: T, h0: T)
    requires Moves(f, op, half, even)
    requires even(h0) && even(half(h0)) && even(half(half(h0))) && even(half(half(half(h0))))
    requires var h4 := half(half(half(half(h0))));
             even(h4) && even(half(h4)) && even(half(half(h4))) && even(half(half(half(h4))))
    ensures Eight(f, op(l0, h0)) == op(Eight(f, l0), Eight(half, h0))
  {
    var l1, h1 := f(l0), half(h0);
    var l2, h2 := f(l1), half(h1);
    var l3, h3 := f(l2), half(h2);
    var l4, h4 := f(l3), half(h3);
    var l5, h5 := f(l4), half(h4);
    var l6, h6 := f(l5), half(h5);
    var l7, h7 := f(l6), half(h6);
    assert MovesAt(f, op, half, even, l0, h0) && MovesAt(f, op, half, even, l1, h1);
    assert MovesAt(f, op, half, even, l2, h2) && MovesAt(f, op, half, even, l3, h3);
    assert MovesAt(f, op, half, even, l4, h4) && MovesAt(f, op, half, even, l5, h5);
    assert MovesAt(f, op, half, even, l6, h6) && MovesAt(f, op, half, even, l7, h7);
  }

  lemma {:induction false} ShiftParts(low: bv32, high: bv32)
    requires Even(high)
    ensures Half(Xor(low, high)) == Xor(Half(low), Half(high))
    ensures Even(Xor(low, high)) == Even(low)
  {
  }

  lemma {:induction false} RegroupBits(a: bv32, b: bv32, p: bv32)
    ensures (a ^ b) ^ p == (a ^ p) ^ b
  {
  }

  lemma {:induction false} Regroup(a: bv32, b: bv32, p: bv32)
    ensures Xor(Xor(a, b), p) == Xor(Xor(a, p), b)
  {
    calc {
      Xor(Xor(a, b), p);
      Xor(a ^ b, p);
      (a ^ b) ^ p;
      { RegroupBits(a, b, p); }
      (a ^ p) ^ b;
      Xor(a ^ p, b);
      Xor(Xor(a, p), b);
    }
  }

  lemma {:induction false} ShiftOver(low: bv32, high: bv32)
    requires Even(high)
    ensures Shift(Xor(low, high)) == Xor(Shift(low), Half(high))
  {
    ShiftParts(low, high);
    Regroup(Half(low), Half(high), POLYNOMIAL);
  }

  lemma {:induction false} ShiftMoves()
    ensures Moves(Shift, Xor, Half, Even)
  {
    forall low, high ensures MovesAt(Shift, Xor, Half, Even, low, high) {
      if Even(high) {
        ShiftOver(low, high);
      }
    }
  }

  lemma {:induction false} LowByteClear(h: bv32)
    requires h & 0xff == 0
    ensures Even(h) && Even(Half(h)) && Even(Half(Half(h))) && Even(Half(Half(Half(h))))
    ensures var h4 := Half(Half(Half(Half(h))));
            Even(h4) && Even(Half(h4)) && Even(Half(Half(h4))) && Even(Half(Half(Half(h4))))
    ensures Eight(Half, h) == h >> 8
  {
  }

  lemma {:induction false} ShiftsOver(low: bv32, high: bv32)
    requires high & 0xff == 0
    ensures Eight(Shift, Xor(low, high)) == Xor(Eight(Shift, low), Eight(Half, high))
  {
    ShiftMoves();
    LowByteClear(high);
    EightOver(Shift, Xor, Half, Even, low, high);
  }

  lemma {:induction false} EightIsShift8(x: bv32)
    ensures Eight(Shift, x) == Shift8(x)
  {
  }

  lemma {:induction false} Shift8Over(low: bv32, high: bv32)
    requires high & 0xff == 0
    ensures Shift8(Xor(low, high)) == Xor(Shift8(low), Eight(Half, high))
  {
    ShiftsOver(low, high);
    EightIsShift8(low);
    EightIsShift8(Xor(low, high));
  }

  lemma {:induction false} ByteParts(x: bv32)
    ensures x == Xor(LowByte(x), HighBytes(x))
    ensures LowByte(x) & 0xff == LowByte(x) && HighBytes(x) & 0xff == 0
  {
  }

  /** A byte does not reach above the low byte of the state. */
  lemma {:induction false} ByteStaysLow(state: bv32, b: byte)
    ensures Eight(Half, HighBytes(Xor(state, b as bv32))) == Down8(state)
  {
  }

  lemma {:induction false} LookUp(x: bv32)
    ensures Xor(CrcTab(LowByte(x)), Eight(Half, HighBytes(x))) == Shift8(x)
  {
    ByteParts(x);
    Shift8Over(LowByte(x), HighBytes(x));
    TableIsBitwise(LowByte(x));
  }

  /** One table look-up does eight single-bit steps. */
  lemma {:induction false} StepIsBitwise(state: bv32, b: byte)
    ensures TableStep(state, b) == Shift8(Xor(state, b as bv32))
  {
    ByteStaysLow(state, b);
    LookUp(Xor(state, b as bv32));
  }

  lemma {:induction false} BitwiseAppend(a: seq<byte>, b: seq<byte>, state: bv32)
    ensures BitwiseCrc(a + b, state) == BitwiseCrc(b, BitwiseCrc(a, state))
    decreases |b|
  {
    if b == [] {
      assert a + b == a;
    } else {
      var n := |b| - 1;
      assert (a + b)[..|a + b| - 1] == a + b[..n];
      BitwiseAppend(a, b[..n], state);
    }
  }
}
