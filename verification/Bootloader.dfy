/**
 The other side of the serial port. `Boot` is a conforming bootloader; `Scripted` is a port that may answer anything at
 any time, for the properties that hold whatever is connected.
 */
module Bootloader {
  import opened Octets
  import opened Crc32
  import opened Firmware

  // ---- protocol bytes

  const INSYNC: byte := 0x12
  const EOC: byte := 0x20
  const OK: byte := 0x10
  const FAILED: byte := 0x11
  const INVALID: byte := 0x13
  const BAD_SILICON_REV: byte := 0x14
  const GET_SYNC: byte := 0x21
  const GET_DEVICE: byte := 0x22
  const CHIP_ERASE: byte := 0x23
  const CHIP_VERIFY: byte := 0x24
  const PROG_MULTI: byte := 0x27
  const READ_MULTI: byte := 0x28
  const GET_CRC: byte := 0x29
  const GET_OTP: byte := 0x2a
  const GET_SN: byte := 0x2b
  const GET_CHIP: byte := 0x2c
  const SET_BOOT_DELAY: byte := 0x2d
  const GET_CHIP_DES: byte := 0x2e
  const REBOOT: byte := 0x30
  const INFO_BL_REV: byte := 1
  const INFO_BOARD_ID: byte := 2
  const INFO_BOARD_REV: byte := 3
  const INFO_FLASH_SIZE: byte := 4

  const ACK: seq<byte> := [INSYNC, OK]

  // ---- 32-bit little-endian words

  function Le(w: bv32): seq<byte> {
    [(w & 0xff) as byte, ((w >> 8) & 0xff) as byte, ((w >> 16) & 0xff) as byte, ((w >> 24) & 0xff) as byte]
  }

  function Word(bytes: seq<byte>): bv32
    requires |bytes| == 4
  {
    bytes[0] as bv32 | (bytes[1] as bv32 << 8) | (bytes[2] as bv32 << 16) | (bytes[3] as bv32 << 24)
  }

  lemma {:induction false} WordLe(w: bv32)
    ensures Word(Le(w)) == w
  {
  }

  lemma {:induction false} LeWord(bytes: seq<byte>)
    requires |bytes| == 4
    ensures Le(Word(bytes)) == bytes
  {
  }

  // ---- the conforming bootloader

  datatype Boot = Boot(
    revision: bv32,
    boardType: bv32,
    boardRev: bv32,
    flashSize: bv32,
    infoWord: bv32,      // answers the queries whose values the uploader only prints
    chip: seq<byte>,     // the chip description
    chipLength: bv32,
    delay: byte,         // the boot delay that was last set
    flash: seq<byte>,
    writeAt: nat,
    readAt: nat,
    inbox: seq<byte>)

  function Number(w: bv32): nat {
    w as nat
  }

  /** A word is read low byte first. */
  lemma {:induction false} LowByteFirst(bytes: seq<byte>)
    requires |bytes| == 4
    ensures Number(Word(bytes))
         == bytes[0] as nat + 256 * (bytes[1] as nat) + 0x1_0000 * (bytes[2] as nat) + 0x100_0000 * (bytes[3] as nat)
  {
  }

  /** It reports the sizes of its flash and of its chip description. */
  predicate Conforming(b: Boot) {
    |b.flash| == Number(b.flashSize) && |b.chip| == Number(b.chipLength)
  }

  /** The length of the command at the front of the inbox, or 0 while it is not known yet. */
  function CommandLength(inbox: seq<byte>): nat
    requires inbox != []
  {
    var c := inbox[0];
    if c == PROG_MULTI then (if |inbox| < 2 then 0 else ByteLength(inbox[1]) + 3)
    else if c == GET_DEVICE || c == READ_MULTI || c == SET_BOOT_DELAY then 3
    else if c == GET_OTP || c == GET_SN then 6
    else 2
  }

  function Info(b: Boot, param: byte): seq<byte> {
    if param == INFO_BL_REV then Le(b.revision) + ACK
    else if param == INFO_BOARD_ID then Le(b.boardType) + ACK
    else if param == INFO_BOARD_REV then Le(b.boardRev) + ACK
    else if param == INFO_FLASH_SIZE then Le(b.flashSize) + ACK
    else [INSYNC, INVALID]
  }

  /** Room for a block, and a block of whole words. */
  predicate CanProgram(b: Boot, data: seq<byte>) {
    |data| % 4 == 0 && b.writeAt + |data| <= |b.flash|
  }

  function Programmed(b: Boot, data: seq<byte>): Boot
    requires CanProgram(b, data)
  {
    b.(flash := b.flash[..b.writeAt] + data + b.flash[b.writeAt + |data|..], writeAt := b.writeAt + |data|)
  }

  function Erased(b: Boot): Boot {
    b.(flash := Blanks(|b.flash|), writeAt := 0)
  }

  function Execute(b: Boot): (Boot, seq<byte>)
    requires b.inbox != [] && CommandLength(b.inbox) > 0 && |b.inbox| >= CommandLength(b.inbox)
  {
    var c, n := b.inbox[0], CommandLength(b.inbox);
    var b0 := b.(inbox := b.inbox[n..]);
    if b.inbox[n - 1] != EOC then (b0, [INSYNC, INVALID])
    else if c == PROG_MULTI then
      var data := b.inbox[2..n - 1];
      if CanProgram(b0, data) then (Programmed(b0, data), ACK) else (b0, [INSYNC, FAILED])
    else if c == GET_SYNC || c == REBOOT then (b0, ACK)
    else if c == SET_BOOT_DELAY then (b0.(delay := b.inbox[1]), ACK)
    else if c == GET_DEVICE then (b0, Info(b, b.inbox[1]))
    else if c == CHIP_ERASE then (Erased(b0), ACK)
    else if c == CHIP_VERIFY then (b0.(readAt := 0), ACK)
    else if c == GET_CRC then (b0, Le(BitwiseCrc(b.flash, 0)) + ACK)
    else if c == READ_MULTI then
      var k := ByteLength(b.inbox[1]);
      if b.readAt + k <= |b.flash| then
        (b0.(readAt := b.readAt + k), b.flash[b.readAt..b.readAt + k] + ACK)
      else (b0, [INSYNC, FAILED])
    else if c == GET_OTP || c == GET_SN || c == GET_CHIP then (b0, Le(b.infoWord) + ACK)
    else if c == GET_CHIP_DES then (b0, Le(b.chipLength) + (b.chip + ACK))
    else (b0, [INSYNC, INVALID])
  }

  function Accept(b: Boot, bytes: seq<byte>): (Boot, seq<byte>) {
    var b1 := b.(inbox := b.inbox + bytes);
    if b1.inbox != [] && CommandLength(b1.inbox) > 0 && |b1.inbox| >= CommandLength(b1.inbox) then Execute(b1)
    else (b1, [])
  }

  // ---- the port

  datatype Device =
    | Loader(boot: Boot)
    | Scripted(script: seq<seq<byte>>)  // what arrives after each use of the port

  datatype Event = Wrote(bytes: seq<byte>) | Got(bytes: seq<byte>)

  datatype Port = Port(dev: Device, rx: seq<byte>, log: seq<Event>)

  function Put(p: Port, c: seq<byte>): Port {
    match p.dev
    case Loader(b) =>
      var (b', reply) := Accept(b, c);
      Port(Loader(b'), p.rx + reply, p.log + [Wrote(c)])
    case Scripted(script) =>
      if script == [] then p.(log := p.log + [Wrote(c)])
      else Port(Scripted(script[1..]), p.rx + script[0], p.log + [Wrote(c)])
  }

  /** A read gives what has arrived, up to `count` bytes; fewer means that it timed out. */
  function Get(p: Port, count: nat): (Port, seq<byte>) {
    var p1 := if p.dev.Scripted? && p.dev.script != [] then
                p.(dev := Scripted(p.dev.script[1..]), rx := p.rx + p.dev.script[0])
              else p;
    var n := if count <= |p1.rx| then count else |p1.rx|;
    (p1.(rx := p1.rx[n..], log := p1.log + [Got(p1.rx[..n])]), p1.rx[..n])
  }

  function FlushInput(p: Port): Port {
    p.(rx := [])
  }

  /** A conforming bootloader that has answered `reply` and is waiting for the next command. */
  predicate Answered(p: Port, b: Boot, reply: seq<byte>) {
    p.dev == Loader(b) && b.inbox == [] && p.rx == reply
  }

  /** A whole command in one write. */
  lemma {:induction false} PutWhole(p: Port, b: Boot, rx: seq<byte>, c: seq<byte>)
    requires Answered(p, b, rx) && c != [] && CommandLength(c) == |c|
    ensures Put(p, c).log == p.log + [Wrote(c)]
    ensures Put(p, c).dev == Loader(Execute(b.(inbox := c)).0) && Put(p, c).rx == rx + Execute(b.(inbox := c)).1
  {
    assert [] + c == c;
  }

  /** Reading what was answered. */
  lemma {:induction false} GetAnswer(p: Port, b: Boot, part: seq<byte>, rest: seq<byte>)
    requires Answered(p, b, part + rest)
    ensures Get(p, |part|) == (Port(Loader(b), rest, p.log + [Got(part)]), part)
  {
  }
}
