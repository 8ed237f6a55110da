/** One exchange with the bootloader at a time, on values. */
module UploadSteps {
  import opened Octets
  import opened Crc32
  import opened Bootloader
  import opened UploadTrace

  // ---- steps without a loop, on values

  /** Reading one INSYNC and one OK. */
  function SyncOn(p: Port): (Port, Status) {
    var (p1, c1) := Get(p, 1);
    if |c1| < 1 then (p1, Raised(Timeout))
    else if c1 != [INSYNC] then (p1, Raised(NotInSync))
    else
      var (p2, c2) := Get(p1, 1);
      (p2, if |c2| < 1 then Raised(Timeout)
           else if c2 == [INVALID] then Raised(InvalidOperation)
           else if c2 == [FAILED] then Raised(OperationFailed)
           else if c2 != [OK] then Raised(UnexpectedResponse)
           else Success)
  }

  /** The log grew by reads only. */
  predicate Listened(before: seq<Event>, after: seq<Event>) {
    before <= after && OnlyReads(after[|before|..])
  }

  lemma {:induction false} ListenedIsGrew(a: seq<Event>, b: seq<Event>)
    requires Listened(a, b)
    ensures Grew(a, b)
  {
  }

  lemma {:induction false} ListenedTrans(a: seq<Event>, b: seq<Event>, c: seq<Event>)
    requires Listened(a, b) && Listened(b, c)
    ensures Listened(a, c)
  {
  }

  lemma {:induction false} GetListens(p: Port, n: nat)
    ensures Listened(p.log, Get(p, n).0.log)
    ensures Get(p, n).0.log == p.log + [Got(Get(p, n).1)]
    ensures |Get(p, n).1| <= n
    ensures p.dev.Loader? ==> Get(p, n).0.dev == p.dev && Get(p, n).1 + Get(p, n).0.rx == p.rx
    ensures p.dev.Loader? && |p.rx| >= n ==> |Get(p, n).1| == n
  {
  }

  lemma {:induction false} SyncFacts(p: Port)
    ensures var (q, r) := SyncOn(p);
      && Listened(p.log, q.log)
      && (r == Success ==> q.log == p.log + ACK_EVENTS)
  {
    GetListens(p, 1);
    var (p1, c1) := Get(p, 1);
    GetListens(p1, 1);
    ListenedTrans(p.log, p1.log, Get(p1, 1).0.log);
    assert p.log + [Got([INSYNC])] + [Got([OK])] == p.log + ACK_EVENTS;
  }

  /** What the bytes read mean: 0x12 and then 0x10, and which error for any others. */
  function Verdict(first: seq<byte>, second: seq<byte>): Status {
    if first == [] then Raised(Timeout)
    else if first != [0x12] then Raised(NotInSync)
    else if second == [] then Raised(Timeout)
    else if second == [0x10] then Success
    else if second == [0x11] then Raised(OperationFailed)
    else if second == [0x13] then Raised(InvalidOperation)
    else Raised(UnexpectedResponse)
  }

  /** One byte is read and, only after 0x12, another one. */
  predicate Reads(log: seq<Event>, first: seq<byte>, second: seq<byte>, after: seq<Event>) {
    && |first| <= 1 && |second| <= 1
    && after == log + [Got(first)] + if first == [0x12] then [Got(second)] else []
  }

  /** The result of synchronising is a matter of the bytes read. */
  lemma {:induction false} SyncReads(p: Port) returns (first: seq<byte>, second: seq<byte>)
    ensures Reads(p.log, first, second, SyncOn(p).0.log) && SyncOn(p).1 == Verdict(first, second)
  {
    GetListens(p, 1);
    var p1 := Get(p, 1).0;
    GetListens(p1, 1);
    first, second := Get(p, 1).1, Get(p1, 1).1;
    assert p.log + [Got(first)] + [] == p.log + [Got(first)];
  }

  lemma {:induction false} SyncAnswered(p: Port, b: Boot, rest: seq<byte>)
    requires Answered(p, b, ACK + rest)
    ensures var (q, r) := SyncOn(p);
      r == Success && Answered(q, b, rest)
  {
    assert ACK + rest == [INSYNC] + ([OK] + rest);
    GetAnswer(p, b, [INSYNC], [OK] + rest);
    GetAnswer(Get(p, 1).0, b, [OK], rest);
  }

  /** Sending one block. */
  function BlockOn(p: Port, data: seq<byte>): Port
    requires |data| < 256
  {
    Put(Put(Put(Put(p, [PROG_MULTI]), [LengthByte(|data|)]), data), [EOC])
  }

  lemma {:induction false} PutLogs(p: Port, c: seq<byte>)
    ensures Put(p, c).log == p.log + [Wrote(c)]
  {
  }

  lemma {:induction false} BlockLogs(p: Port, data: seq<byte>)
    requires |data| < 256
    ensures BlockOn(p, data).log == p.log + Block(data)
  {
  }

  /** The inbox before the end-of-command byte of a block. */
  function BlockHead(data: seq<byte>): seq<byte>
    requires |data| < 256
  {
    [PROG_MULTI, LengthByte(|data|)] + data
  }

  lemma {:induction false} BlockPending(p: Port, b: Boot, data: seq<byte>)
    requires p.dev == Loader(b) && b.inbox == [] && |data| < 256
    ensures var p3 := Put(Put(Put(p, [PROG_MULTI]), [LengthByte(|data|)]), data);
      p3.dev == Loader(b.(inbox := BlockHead(data))) && p3.rx == p.rx
  {
  }

  lemma {:induction false} ExecuteBlock(b: Boot, data: seq<byte>)
    requires b.inbox == [] && GoodBlock(data) && CanProgram(b, data)
    ensures var c := BlockHead(data) + [EOC];
      CommandLength(c) == |c| && Execute(b.(inbox := c)) == (Programmed(b, data), ACK)
  {
    var c := BlockHead(data) + [EOC];
    BlockCommand(data, c);
    assert b.(inbox := c[|c|..]) == b;
  }

  lemma {:induction false} BlockCommand(data: seq<byte>, c: seq<byte>)
    requires |data| < 256 && c == BlockHead(data) + [EOC]
    ensures c[0] == PROG_MULTI && c[|c| - 1] == EOC && CommandLength(c) == |c|
    ensures c[2..|c| - 1] == data && c[|c|..] == []
  {
  }

  /** A block was sent: what was logged, and what a conforming bootloader made of it. */
  ghost predicate BlockSent(p: Port, data: seq<byte>, q: Port) {
    && |data| < 256 && q.log == p.log + Block(data)
    && forall b, rx :: Answered(p, b, rx) && GoodBlock(data) && CanProgram(b, data) ==>
         Answered(q, Programmed(b, data), rx + ACK)
  }

  lemma {:induction false} BlockIsSent(p: Port, data: seq<byte>)
    requires |data| < 256
    ensures BlockSent(p, data, BlockOn(p, data))
  {
    BlockLogs(p, data);
    forall b, rx | Answered(p, b, rx) && GoodBlock(data) && CanProgram(b, data)
      ensures Answered(BlockOn(p, data), Programmed(b, data), rx + ACK)
    {
      BlockAnswered(p, b, rx, data);
    }
  }

  /** An acknowledgement was asked for: what was logged, and what a conforming bootloader's answer gives. */
  ghost predicate Synced(p: Port, q: Port, r: Status) {
    && Listened(p.log, q.log)
    && (r.Success? ==> q.log == p.log + ACK_EVENTS)
    && forall b, rest :: Answered(p, b, ACK + rest) ==> r.Success? && Answered(q, b, rest)
  }

  lemma {:induction false} SyncIsSynced(p: Port)
    ensures Synced(p, SyncOn(p).0, SyncOn(p).1)
  {
    SyncFacts(p);
    forall b, rest | Answered(p, b, ACK + rest) ensures SyncOn(p).1.Success? && Answered(SyncOn(p).0, b, rest) {
      SyncAnswered(p, b, rest);
    }
  }

  lemma {:induction false} BlockAnswered(p: Port, b: Boot, rx: seq<byte>, data: seq<byte>)
    requires Answered(p, b, rx) && GoodBlock(data) && CanProgram(b, data)
    ensures Answered(BlockOn(p, data), Programmed(b, data), rx + ACK)
  {
    BlockPending(p, b, data);
    ExecuteBlock(b, data);
  }

  // ---- programming, on values

  /** The bootloader after the first bytes of the flash have been programmed. */
  function Flashed(b: Boot, code: seq<byte>): Boot
    requires |code| <= |b.flash|
  {
    b.(flash := code + b.flash[|code|..], writeAt := |code|)
  }

  lemma {:induction false} FlashedMore(b: Boot, code: seq<byte>, data: seq<byte>)
    requires |code| + |data| <= |b.flash| && |data| % 4 == 0
    ensures CanProgram(Flashed(b, code), data)
    ensures Programmed(Flashed(b, code), data) == Flashed(b, code + data)
  {
  }
}
