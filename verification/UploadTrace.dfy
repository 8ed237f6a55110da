/** What the uploader sends and reads: blocks, acknowledgements and the whole trace of programming. */
module UploadTrace {
  import Bytes
  import opened Octets
  import opened Crc32
  import opened Bootloader

  const PROG_MULTI_MAX := 252
  const WINDOW_BLOCKS := 256

  datatype Error =
    | Timeout | NotInSync | InvalidOperation | OperationFailed | UnexpectedResponse | BadSilicon
    | ShortWord | AckWindow | ProtocolMismatch | NotSuitable | TooLarge | WrongConfig | EraseTimeout
    | VerificationFailed | CrcFailed

  datatype Status = Success | Raised(e: Error)
  {
    predicate IsFailure() {
      Raised?
    }
  }

  // ---- traces

  const ERASE_COMMAND: Event := Wrote([CHIP_ERASE, EOC])
  const REBOOT_COMMAND: Event := Wrote([REBOOT, EOC])

  const ACK_EVENTS: seq<Event> := [Got([INSYNC]), Got([OK])]

  /** Neither an erase nor a reboot command is among the events. */
  predicate Harmless(events: seq<Event>) {
    forall i :: 0 <= i < |events| ==> events[i] != ERASE_COMMAND && events[i] != REBOOT_COMMAND
  }

  predicate OnlyReads(events: seq<Event>) {
    forall i :: 0 <= i < |events| ==> events[i].Got?
  }

  /** The log grew by harmless events. */
  predicate Grew(before: seq<Event>, after: seq<Event>) {
    before <= after && Harmless(after[|before|..])
  }

  lemma {:induction false} GrewTrans(a: seq<Event>, b: seq<Event>, c: seq<Event>)
    requires Grew(a, b) && Grew(b, c)
    ensures Grew(a, c)
  {
  }

  lemma {:induction false} GrewBy(a: seq<Event>, events: seq<Event>)
    requires Harmless(events)
    ensures Grew(a, a + events)
  {
  }

  /** n acknowledgements in a row. */
  function Acks(n: nat): seq<byte> {
    seq(2 * n, i => if i % 2 == 0 then INSYNC else OK)
  }

  /** The writes of one PROG_MULTI command. */
  function Block(data: seq<byte>): seq<Event>
    requires |data| < 256
  {
    [Wrote([PROG_MULTI]), Wrote([LengthByte(|data|)]), Wrote(data), Wrote([EOC])]
  }

  // ---- splitting

  function SplitLen(s: seq<byte>, length: nat): seq<seq<byte>>
    requires length > 0
  {
    if s == [] then []
    else if |s| <= length then [s]
    else [s[..length]] + SplitLen(s[length..], length)
  }

  predicate GoodBlock(data: seq<byte>) {
    1 <= |data| <= PROG_MULTI_MAX && |data| % 4 == 0
  }

  predicate GoodBlocks(groups: seq<seq<byte>>) {
    forall i :: 0 <= i < |groups| ==> GoodBlock(groups[i])
  }

  /** All but the last have 252 bytes. */
  predicate FullButLast(groups: seq<seq<byte>>) {
    forall i :: 0 <= i < |groups| - 1 ==> |groups[i]| == 252
  }

  /** The pieces are the image again, and each is one to 252 bytes of whole words; all but the last are full. */
  lemma {:induction false} SplitLenJoins(s: seq<byte>)
    requires |s| % 4 == 0
    ensures Bytes.Flat(SplitLen(s, PROG_MULTI_MAX)) == s
    ensures GoodBlocks(SplitLen(s, PROG_MULTI_MAX)) && FullButLast(SplitLen(s, PROG_MULTI_MAX))
    decreases |s|
  {
    if s == [] {
    } else if |s| <= PROG_MULTI_MAX {
      Bytes.FlatSingle(s);
    } else {
      var head, tail := s[..PROG_MULTI_MAX], s[PROG_MULTI_MAX..];
      SplitLenJoins(tail);
      var rest := SplitLen(tail, PROG_MULTI_MAX);
      assert ([head] + rest)[1..] == rest;
      assert head + tail == s;
    }
  }

  // ---- the trace of programming

  /** The events after n blocks; in windowed mode acknowledgements are read 256 at a time. */
  function BlocksTrace(groups: seq<seq<byte>>, n: nat, windowed: bool): seq<Event>
    requires n <= |groups| && GoodBlocks(groups)
  {
    if n == 0 then []
    else
      BlocksTrace(groups, n - 1, windowed) + Block(groups[n - 1]) + AckEvents(n, windowed)
  }

  /** What is read after the n-th block. */
  function AckEvents(n: nat, windowed: bool): seq<Event> {
    if !windowed then ACK_EVENTS else if n % WINDOW_BLOCKS == 0 then [Got(Acks(WINDOW_BLOCKS))] else []
  }

  function ProgramTrace(groups: seq<seq<byte>>, windowed: bool): seq<Event>
    requires GoodBlocks(groups)
  {
    var n := |groups|;
    BlocksTrace(groups, n, windowed) +
    (if windowed && n % WINDOW_BLOCKS != 0 then [Got(Acks(n % WINDOW_BLOCKS))] else [])
  }

  function ReadBytes(events: seq<Event>): seq<byte> {
    if events == [] then []
    else ReadBytes(events[..|events| - 1]) +
         (if events[|events| - 1].Got? then events[|events| - 1].bytes else [])
  }

  function Written(events: seq<Event>): seq<seq<byte>> {
    if events == [] then []
    else Written(events[..|events| - 1]) +
         (if events[|events| - 1].Wrote? then [events[|events| - 1].bytes] else [])
  }

  lemma {:induction false} TraceAppend(a: seq<Event>, b: seq<Event>)
    ensures ReadBytes(a + b) == ReadBytes(a) + ReadBytes(b)
    ensures Written(a + b) == Written(a) + Written(b)
    decreases |b|
  {
    if b == [] {
      assert a + b == a;
    } else {
      var n := |b| - 1;
      assert (a + b)[..|a + b| - 1] == a + b[..n];
      TraceAppend(a, b[..n]);
      var e := b[n];
      Bytes.Assoc(ReadBytes(a), ReadBytes(b[..n]), if e.Got? then e.bytes else []);
      Bytes.Assoc(Written(a), Written(b[..n]), if e.Wrote? then [e.bytes] else []);
    }
  }

  lemma {:induction false} TraceOne(e: Event)
    ensures ReadBytes([e]) == if e.Got? then e.bytes else []
    ensures Written([e]) == if e.Wrote? then [e.bytes] else []
  {
  }

  lemma {:induction false} TraceTwo(e: Event, f: Event)
    ensures ReadBytes([e, f]) == ReadBytes([e]) + ReadBytes([f])
    ensures Written([e, f]) == Written([e]) + Written([f])
  {
  }

  function Command(data: seq<byte>): seq<seq<byte>>
    requires |data| < 256
  {
    [[PROG_MULTI], [LengthByte(|data|)], data, [EOC]]
  }

  lemma {:induction false} TwoWrites(a: seq<byte>, b: seq<byte>)
    ensures ReadBytes([Wrote(a), Wrote(b)]) == [] && Written([Wrote(a), Wrote(b)]) == [a, b]
  {
    TraceTwo(Wrote(a), Wrote(b));
    TraceOne(Wrote(a));
    TraceOne(Wrote(b));
  }

  lemma {:induction false} BlockTrace(data: seq<byte>)
    requires |data| < 256
    ensures ReadBytes(Block(data)) == [] && Written(Block(data)) == Command(data)
  {
    FourWrites([PROG_MULTI], [LengthByte(|data|)], data, [EOC]);
  }

  lemma {:induction false} FourWrites(a: seq<byte>, b: seq<byte>, c: seq<byte>, d: seq<byte>)
    ensures ReadBytes([Wrote(a), Wrote(b), Wrote(c), Wrote(d)]) == []
    ensures Written([Wrote(a), Wrote(b), Wrote(c), Wrote(d)]) == [a, b, c, d]
  {
    assert [Wrote(a), Wrote(b), Wrote(c), Wrote(d)] == [Wrote(a), Wrote(b)] + [Wrote(c), Wrote(d)];
    TwoWrites(a, b);
    TwoWrites(c, d);
    TraceAppend([Wrote(a), Wrote(b)], [Wrote(c), Wrote(d)]);
  }

  lemma {:induction false} AckTrace()
    ensures ReadBytes(ACK_EVENTS) == ACK && Written(ACK_EVENTS) == []
  {
    TraceTwo(Got([INSYNC]), Got([OK]));
    TraceOne(Got([INSYNC]));
    TraceOne(Got([OK]));
  }

  lemma {:induction false} AcksAdd(m: nat, n: nat)
    ensures Acks(m) + Acks(n) == Acks(m + n)
  {
  }

  lemma {:induction false} AcksNext(n: nat)
    ensures Acks(1) == ACK && Acks(n) + ACK == Acks(n + 1)
  {
  }

  function Commands(groups: seq<seq<byte>>, n: nat): seq<seq<byte>>
    requires n <= |groups| && GoodBlocks(groups)
  {
    if n == 0 then [] else Commands(groups, n - 1) + Command(groups[n - 1])
  }

  /** How many acknowledgements have been read after n blocks. */
  function AcksRead(n: nat, windowed: bool): nat {
    if windowed then n - n % WINDOW_BLOCKS else n
  }

  lemma {:induction false} LastWindow(n: nat)
    requires n > 0 && n % WINDOW_BLOCKS == 0
    ensures AcksRead(n - 1, true) == n - WINDOW_BLOCKS && AcksRead(n, true) == n
  {
  }

  lemma {:induction false} SameWindow(n: nat)
    requires n > 0 && n % WINDOW_BLOCKS != 0
    ensures AcksRead(n - 1, true) == AcksRead(n, true)
  {
  }

  lemma {:induction false} AckEventsBytes(n: nat, windowed: bool)
    requires n > 0
    ensures Acks(AcksRead(n - 1, windowed)) + ReadBytes(AckEvents(n, windowed)) == Acks(AcksRead(n, windowed))
    ensures Written(AckEvents(n, windowed)) == []
  {
    if !windowed {
      AckTrace();
      AcksNext(n - 1);
    } else if n % WINDOW_BLOCKS == 0 {
      TraceOne(Got(Acks(WINDOW_BLOCKS)));
      AcksAdd(n - WINDOW_BLOCKS, WINDOW_BLOCKS);
      LastWindow(n);
    } else {
      SameWindow(n);
    }
  }

  /** A block is only written, its acknowledgements only read. */
  lemma {:induction false} TraceThree(before: seq<Event>, block: seq<Event>, acks: seq<Event>)
    requires ReadBytes(block) == [] && Written(acks) == []
    ensures ReadBytes(before + block + acks) == ReadBytes(before) + ReadBytes(acks)
    ensures Written(before + block + acks) == Written(before) + Written(block)
  {
    TraceAppend(before, block);
    TraceAppend(before + block, acks);
    assert Written(before + block) + [] == Written(before + block);
    assert ReadBytes(before) + [] == ReadBytes(before);
  }

  lemma {:induction false} BlocksTraceBytes(groups: seq<seq<byte>>, n: nat, windowed: bool)
    requires n <= |groups| && GoodBlocks(groups)
    ensures ReadBytes(BlocksTrace(groups, n, windowed)) == Acks(AcksRead(n, windowed))
    ensures Written(BlocksTrace(groups, n, windowed)) == Commands(groups, n)
    decreases n
  {
    if n == 0 {
    } else {
      BlocksTraceBytes(groups, n - 1, windowed);
      var trace := BlockAdds(BlocksTrace(groups, n - 1, windowed), groups[n - 1], n, windowed, Commands(groups, n - 1));
      assert BlocksTrace(groups, n, windowed) == trace;
    }
  }

  /** What one more block and its acknowledgements add to a trace. */
  lemma {:induction false} BlockAdds(before: seq<Event>, data: seq<byte>, n: nat, windowed: bool,
                                     commands: seq<seq<byte>>)
    returns (trace: seq<Event>)
    requires n > 0 && GoodBlock(data)
    requires ReadBytes(before) == Acks(AcksRead(n - 1, windowed)) && Written(before) == commands
    ensures trace == before + Block(data) + AckEvents(n, windowed)
    ensures ReadBytes(trace) == Acks(AcksRead(n, windowed)) && Written(trace) == commands + Command(data)
  {
    AckEventsBytes(n, windowed);
    BlockTrace(data);
    TraceThree(before, Block(data), AckEvents(n, windowed));
    trace := before + Block(data) + AckEvents(n, windowed);
  }

  /** In either mode the same commands are sent, and exactly one INSYNC/OK pair per block is consumed. */
  lemma {:induction false} ProgramTraceBytes(groups: seq<seq<byte>>, windowed: bool)
    requires GoodBlocks(groups)
    ensures ReadBytes(ProgramTrace(groups, windowed)) == Acks(|groups|)
    ensures Written(ProgramTrace(groups, windowed)) == Commands(groups, |groups|)
  {
    var n := |groups|;
    BlocksTraceBytes(groups, n, windowed);
    var last := n % WINDOW_BLOCKS;
    var tail: seq<Event> := if windowed && last != 0 then [Got(Acks(last))] else [];
    TraceAppend(BlocksTrace(groups, n, windowed), tail);
    TraceOne(Got(Acks(last)));
    AcksAdd(AcksRead(n, windowed), if windowed then last else 0);
  }
}
