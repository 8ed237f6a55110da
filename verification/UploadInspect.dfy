/** The queries between the board checks and the erase, on values: one-time-programmable area, serial number and chip. */
module UploadInspect {
  import Bytes
  import opened Octets
  import opened Crc32
  import opened Bootloader
  import opened UploadTrace
  import opened UploadSteps
  import opened UploadExchange
  import opened UploadSession

  // ---- words that are only printed

  /** A query for up to four bytes, and its acknowledgement. */
  function FetchOn(p: Port, c: seq<byte>): (Port, Status) {
    var (p1, raw) := Get(Put(p, c), 4);
    if |raw| < 1 then (p1, Raised(Timeout)) else SyncOn(p1)
  }

  /** Reads four bytes of the one-time-programmable area or of the serial number. */
  predicate FetchCommand(c: seq<byte>) {
    |c| == 6 && (c[0] == GET_OTP || c[0] == GET_SN) && c[5] == EOC
  }

  lemma {:induction false} FetchFacts(p: Port, c: seq<byte>)
    requires FetchCommand(c)
    ensures Grew(p.log, FetchOn(p, c).0.log) && p.log + [Wrote(c)] <= FetchOn(p, c).0.log
    ensures FetchOn(p, c).1.Success? ==> Fetched(p.log, c, FetchOn(p, c).0.log)
  {
    PutLogs(p, c);
    var p0 := Put(p, c);
    GetListens(p0, 4);
    var (p1, answer) := Get(p0, 4);
    SyncFacts(p1);
    ListenedTrans(p0.log, p1.log, SyncOn(p1).0.log);
    AskedGrew(p.log, c, FetchOn(p, c).0.log);
    assert p.log + [Wrote(c)] + [Got(answer)] == p.log + [Wrote(c), Got(answer)];
  }

  /** The query, an answer of one to four bytes, and an acknowledgement. */
  ghost predicate Fetched(log: seq<Event>, c: seq<byte>, after: seq<Event>) {
    exists answer :: 1 <= |answer| <= 4 && after == log + [Wrote(c), Got(answer)] + ACK_EVENTS
  }

  function FetchBytes(op: byte, address: bv32): seq<byte> {
    [op] + Le(address) + [EOC]
  }

  /** The query for the i-th word of an area: its address is 4 * i, low byte first. */
  function WordQuery(op: byte, i: nat): seq<byte>
    requires i < 48
  {
    [op, LengthByte(4 * i), 0, 0, 0, 0x20]
  }

  /** The address as the loop counts it. */
  ghost predicate IsAddress(address: bv32, i: nat) {
    exists b :: IsWord(address, b) && i <= 48 && b == LengthByte(4 * i)
  }

  predicate IsWord(address: bv32, b: byte) {
    address == b as bv32
  }

  lemma {:induction false} FirstAddress()
    ensures IsAddress(0, 0)
  {
    assert IsWord(0, 0);
  }

  lemma {:induction false} NextAddress(op: byte, address: bv32, i: nat)
    requires IsAddress(address, i) && i < 48
    ensures FetchBytes(op, address) == WordQuery(op, i) && IsAddress(address + 4, i + 1)
  {
    var b := LengthByte(4 * i);
    NextWord(4 * i);
    SmallByte(b);
    ByteWord(address, b);
    assert IsWord(address + 4, b + 4);
  }

  lemma {:induction false} SmallByte(b: byte)
    requires ByteLength(b) <= 188
    ensures b <= 188
  {
  }

  lemma {:induction false} ByteWord(address: bv32, b: byte)
    requires IsWord(address, b) && b <= 188
    ensures Le(address) == [b, 0, 0, 0] && IsWord(address + 4, b + 4)
  {
  }

  /** The first n words of an area were read, one after the other. */
  ghost predicate WordsUpTo(op: byte, log: seq<Event>, n: nat, after: seq<Event>) {
    if n == 0 then after == log
    else exists k: nat, mid :: k == n - 1 && WordsUpTo(op, log, k, mid) && FetchedWord(op, mid, k, after)
  }

  ghost predicate FetchedWord(op: byte, log: seq<Event>, i: nat, after: seq<Event>) {
    i < 48 && Fetched(log, WordQuery(op, i), after)
  }

  ghost predicate WordsSoFar(op: byte, log: seq<Event>, n: nat, after: seq<Event>) {
    exists k: nat :: k == n && WordsUpTo(op, log, k, after)
  }

  lemma {:induction false} WordsStart(op: byte, log: seq<Event>)
    ensures WordsSoFar(op, log, 0, log)
  {
    assert WordsUpTo(op, log, 0, log);
  }

  lemma {:induction false} WordsNext(op: byte, log: seq<Event>, i: nat, mid: seq<Event>, after: seq<Event>)
    requires WordsSoFar(op, log, i, mid) && FetchedWord(op, mid, i, after)
    ensures WordsSoFar(op, log, i + 1, after)
  {
    var n := i + 1;
    assert WordsUpTo(op, log, n, after);
  }

  /** The serial number was asked for word by word, and the chip word after it, up to the first failure. */
  ghost predicate SerialShown(log: seq<Event>, after: seq<Event>) {
    exists n: nat, mid :: WordsSoFar(GET_SN, log, n, mid) && AsksNext(n, mid, after)
  }

  predicate AsksNext(n: nat, mid: seq<Event>, after: seq<Event>) {
    n <= 3 && mid + [Wrote(if n < 3 then WordQuery(GET_SN, n) else CHIP_WORD)] <= after
  }

  /** All 48 words of the one-time-programmable area were read first, and then the serial number was shown. */
  ghost predicate BoardShown(log: seq<Event>, after: seq<Event>) {
    exists mid :: WordsSoFar(GET_OTP, log, 48, mid) && SerialShown(mid, after)
  }

  lemma {:induction false} BoardShownLater(log: seq<Event>, later: seq<Event>, after: seq<Event>)
    requires BoardShown(log, later) && later <= after
    ensures BoardShown(log, after)
  {
    var otp :| WordsSoFar(GET_OTP, log, 48, otp) && SerialShown(otp, later);
    var n: nat, mid :| WordsSoFar(GET_SN, otp, n, mid) && AsksNext(n, mid, later);
    assert AsksNext(n, mid, after);
  }

  lemma {:induction false} FetchAnswered(p: Port, b: Boot, c: seq<byte>)
    requires Answered(p, b, []) && FetchCommand(c)
    ensures FetchOn(p, c).1.Success? && Answered(FetchOn(p, c).0, b, [])
  {
    FetchExecuted(b, c);
    PutWhole(p, b, [], c);
    assert [] + (Le(b.infoWord) + ACK) == Le(b.infoWord) + ACK && ACK + [] == ACK;
    GetAnswer(Put(p, c), b, Le(b.infoWord), ACK);
    SyncAnswered(Get(Put(p, c), 4).0, b, []);
  }

  lemma {:induction false} FetchExecuted(b: Boot, c: seq<byte>)
    requires b.inbox == [] && FetchCommand(c)
    ensures CommandLength(c) == |c| && Execute(b.(inbox := c)) == (b, Le(b.infoWord) + ACK)
  {
    assert c[|c|..] == [] && b.(inbox := []) == b;
  }

  /** Only harmless exchanges since p0, and a conforming bootloader is unchanged. */
  ghost predicate CalmAs(p0: Port, p: Port) {
    Grew(p0.log, p.log) && (Waiting(p0) ==> Answered(p, p0.dev.boot, []))
  }

  ghost predicate Calm(p0: Port, p: Port) {
    exists q :: CalmAs(p0, q) && q == p
  }

  lemma {:induction false} CalmStart(p: Port)
    ensures Calm(p, p)
  {
    assert CalmAs(p, p);
  }

  lemma {:induction false} CalmFacts(p0: Port, p: Port)
    requires Calm(p0, p)
    ensures Grew(p0.log, p.log) && (Waiting(p0) ==> Answered(p, p0.dev.boot, []) && Waiting(p))
  {
  }

  lemma {:induction false} FetchCalm(p0: Port, before: Port, c: seq<byte>, after: Port, r: Status)
    requires Calm(p0, before) && FetchCommand(c) && (after, r) == FetchOn(before, c)
    ensures Calm(p0, after) && (Waiting(p0) ==> r.Success?) && before.log + [Wrote(c)] <= after.log
    ensures r.Success? ==> Fetched(before.log, c, after.log)
  {
    FetchFacts(before, c);
    GrewTrans(p0.log, before.log, after.log);
    if Waiting(p0) {
      FetchAnswered(before, p0.dev.boot, c);
    }
    assert CalmAs(p0, after);
  }

  const CHIP_WORD: seq<byte> := [GET_CHIP, EOC]

  lemma {:induction false} ChipWordAnswered(p: Port, b: Boot)
    requires Answered(p, b, [])
    ensures QueryOn(p, CHIP_WORD).1 == Success && Answered(QueryOn(p, CHIP_WORD).0, b, [])
  {
    assert CHIP_WORD[2..] == [] && b.(inbox := []) == b;
    QueryAnswered(p, b, CHIP_WORD, b.infoWord);
  }

  lemma {:induction false} ChipWordCalm(p0: Port, before: Port, after: Port)
    requires Calm(p0, before) && after == QueryOn(before, CHIP_WORD).0
    ensures Calm(p0, after) && before.log + [Wrote(CHIP_WORD)] <= after.log
  {
    QueryFacts(before, CHIP_WORD);
    AskedGrew(before.log, CHIP_WORD, after.log);
    GrewTrans(p0.log, before.log, after.log);
    if Waiting(p0) {
      ChipWordAnswered(before, p0.dev.boot);
    }
    assert CalmAs(p0, after);
  }

  // ---- the chip description

  const CHIP_COMMAND: seq<byte> := [GET_CHIP_DES, EOC]

  function DescribeOn(p: Port): (Port, Status, seq<byte>) {
    var (p1, raw) := Get(Put(p, CHIP_COMMAND), 4);
    if |raw| < 1 then (p1, Raised(Timeout), [])
    else if |raw| < 4 then (p1, Raised(ShortWord), [])
    else
      GetListens(Put(p, CHIP_COMMAND), 4);
      var (p2, value) := Get(p1, Number(Word(raw)));
      if |value| < 1 then (p2, Raised(Timeout), [])
      else
        var (q, r) := SyncOn(p2);
        (q, r, value)
  }

  function ChipTrace(length: bv32, value: seq<byte>): seq<Event> {
    [Wrote(CHIP_COMMAND), Got(Le(length)), Got(value)] + ACK_EVENTS
  }

  predicate ChipReportedBy(log: seq<Event>, length: bv32, value: seq<byte>, after: seq<Event>) {
    after == log + ChipTrace(length, value)
  }

  /** The last thing since `log`, and after nothing but queries, is that the device described its chip like this. */
  ghost predicate ChipReported(log: seq<Event>, value: seq<byte>, after: seq<Event>) {
    exists asked, length :: Grew(log, asked) && ChipReportedBy(asked, length, value, after)
  }

  lemma {:induction false} DescribeFacts(p: Port)
    ensures var (q, r, value) := DescribeOn(p);
      && Grew(p.log, q.log)
      && (r.Success? ==> ChipReported(p.log, value, q.log))
  {
    PutLogs(p, CHIP_COMMAND);
    var p0 := Put(p, CHIP_COMMAND);
    GetListens(p0, 4);
    var (p1, raw) := Get(p0, 4);
    if |raw| < 4 {
      AskedGrew(p.log, CHIP_COMMAND, p1.log);
    } else {
      DescribeLog(p, p0, p1, raw);
    }
  }

  lemma {:induction false} DescribeLog(p: Port, p0: Port, p1: Port, raw: seq<byte>)
    requires p0.log == p.log + [Wrote(CHIP_COMMAND)] && |raw| == 4 && p1.log == p0.log + [Got(raw)]
    requires Listened(p0.log, p1.log)
    ensures var (p2, value) := Get(p1, Number(Word(raw)));
      var (q, r) := SyncOn(p2);
      && Grew(p.log, p2.log) && Grew(p.log, q.log)
      && (r.Success? ==> ChipReported(p.log, value, q.log))
  {
    var (p2, value) := Get(p1, Number(Word(raw)));
    GetListens(p1, Number(Word(raw)));
    SyncFacts(p2);
    var q := SyncOn(p2).0;
    ListenedTrans(p0.log, p1.log, p2.log);
    AskedGrew(p.log, CHIP_COMMAND, p2.log);
    ListenedTrans(p0.log, p2.log, q.log);
    AskedGrew(p.log, CHIP_COMMAND, q.log);
    LeWord(raw);
    ChipLog(p.log, Word(raw), value);
    assert SyncOn(p2).1.Success? ==> ChipReportedBy(p.log, Word(raw), value, q.log);
  }

  lemma {:induction false} ChipLog(log: seq<Event>, length: bv32, value: seq<byte>)
    ensures log + [Wrote(CHIP_COMMAND)] + [Got(Le(length))] + [Got(value)] + ACK_EVENTS == log + ChipTrace(length, value)
  {
    var sent: seq<Event> := [Wrote(CHIP_COMMAND), Got(Le(length)), Got(value)];
    assert log + [Wrote(CHIP_COMMAND)] + [Got(Le(length))] + [Got(value)] == log + sent;
    Bytes.Assoc(log, sent, ACK_EVENTS);
  }

  /** A bootloader that knows its chip describes it. */
  lemma {:induction false} DescribeAnswered(p: Port, b: Boot)
    requires Answered(p, b, []) && |b.chip| == Number(b.chipLength) && b.chip != []
    ensures DescribeOn(p).1.Success? && DescribeOn(p).2 == b.chip && Answered(DescribeOn(p).0, b, [])
  {
    ChipExecuted(b);
    PutWhole(p, b, [], CHIP_COMMAND);
    var p0 := Put(p, CHIP_COMMAND);
    assert [] + (Le(b.chipLength) + (b.chip + ACK)) == Le(b.chipLength) + (b.chip + ACK) && ACK + [] == ACK;
    GetAnswer(p0, b, Le(b.chipLength), b.chip + ACK);
    WordLe(b.chipLength);
    var p1 := Get(p0, 4).0;
    GetAnswer(p1, b, b.chip, ACK);
    SyncAnswered(Get(p1, |b.chip|).0, b, []);
  }

  lemma {:induction false} ChipExecuted(b: Boot)
    requires b.inbox == []
    ensures CommandLength(CHIP_COMMAND) == |CHIP_COMMAND|
    ensures Execute(b.(inbox := CHIP_COMMAND)) == (b, Le(b.chipLength) + (b.chip + ACK))
  {
    assert CHIP_COMMAND[2..] == [] && b.(inbox := []) == b;
  }

  /** A conforming bootloader that has something to say about its chip. */
  predicate KnowsChip(p: Port) {
    Waiting(p) && |p.dev.boot.chip| == Number(p.dev.boot.chipLength) && p.dev.boot.chip != []
  }

  lemma {:induction false} DescribeCalm(p0: Port, before: Port, after: Port, r: Status, value: seq<byte>)
    requires Calm(p0, before) && after == DescribeOn(before).0 && r == DescribeOn(before).1
    requires r.Success? ==> value == DescribeOn(before).2
    ensures Grew(p0.log, after.log) && before.log <= after.log
    ensures r.Success? ==> ChipReported(p0.log, value, after.log)
    ensures KnowsChip(p0) ==> r.Success? && value == p0.dev.boot.chip && Calm(p0, after)
  {
    DescribeFacts(before);
    GrewTrans(p0.log, before.log, after.log);
    ChipReportedLater(p0.log, before.log, value, after.log);
    if KnowsChip(p0) {
      DescribeAnswered(before, p0.dev.boot);
      assert CalmAs(p0, after);
    }
  }

  lemma {:induction false} ChipReportedLater(log: seq<Event>, later: seq<Event>, value: seq<byte>, after: seq<Event>)
    requires Grew(log, later)
    ensures ChipReported(later, value, after) ==> ChipReported(log, value, after)
  {
    if ChipReported(later, value, after) {
      var asked, length :| Grew(later, asked) && ChipReportedBy(asked, length, value, after);
      GrewTrans(log, later, asked);
    }
  }

  /** The number of parts of a description, separated by commas. */
  function Pieces(value: seq<byte>): nat {
    if value == [] then 1 else Pieces(value[..|value| - 1]) + if value[|value| - 1] == 0x2c then 1 else 0
  }

  predicate CommaFree(part: seq<byte>) {
    0x2c !in part
  }

  /** The parts with a comma between each two. */
  function CommaJoin(parts: seq<seq<byte>>): seq<byte>
    requires parts != []
  {
    var n := |parts| - 1;
    if n == 0 then parts[0] else CommaJoin(parts[..n]) + [0x2c] + parts[n]
  }

  predicate AllCommaFree(parts: seq<seq<byte>>) {
    forall i :: 0 <= i < |parts| ==> CommaFree(parts[i])
  }

  /** It counts the comma-free parts of which the description is the comma-join. */
  lemma {:induction false} PiecesCount(parts: seq<seq<byte>>)
    requires parts != [] && AllCommaFree(parts)
    ensures Pieces(CommaJoin(parts)) == |parts|
    decreases |parts|
  {
    var n := |parts| - 1;
    if n == 0 {
      assert [] + parts[0] == parts[0];
      PiecesMore([], parts[0]);
    } else {
      PiecesCount(parts[..n]);
      var front := CommaJoin(parts[..n]) + [0x2c];
      assert front[..|front| - 1] == CommaJoin(parts[..n]);
      PiecesMore(front, parts[n]);
    }
  }

  lemma {:induction false} PiecesMore(value: seq<byte>, part: seq<byte>)
    requires CommaFree(part)
    ensures Pieces(value + part) == Pieces(value)
    decreases |part|
  {
    if part == [] {
      assert value + part == value;
    } else {
      var n := |part| - 1;
      PiecesMore(value, part[..n]);
      assert (value + part)[..|value + part| - 1] == value + part[..n];
    }
  }

  /** Every description has such parts. */
  lemma {:induction false} PiecesExist(value: seq<byte>) returns (parts: seq<seq<byte>>)
    ensures parts != [] && AllCommaFree(parts) && CommaJoin(parts) == value && |parts| == Pieces(value)
    decreases |value|
  {
    if value == [] {
      parts := [[]];
    } else {
      var n := |value| - 1;
      var front := PiecesExist(value[..n]);
      assert value == value[..n] + [value[n]];
      if value[n] == 0x2c {
        parts := front + [[]];
        assert parts[..|front|] == front;
        assert CommaJoin(parts) == value[..n] + [0x2c] + [];
      } else {
        var k := |front| - 1;
        parts := front[k := front[k] + [value[n]]];
        assert parts[..k] == front[..k];
        if k > 0 {
          var head := CommaJoin(front[..k]) + [0x2c];
          assert head + (front[k] + [value[n]]) == (head + front[k]) + [value[n]];
        }
      }
    }
  }

  // ---- the checks

  datatype Image = Image(boardId: nat, imageSize: nat, imageMaxsize: nat, code: seq<byte>)

  /** The checks that need no query. */
  predicate Matches(fw: Image, force: bool, board: nat, size: nat) {
    (board == fw.boardId || force) && fw.imageSize <= size
  }

  /** The checks made before anything is erased; `chip` is the chip description. */
  predicate Suitable(fw: Image, force: bool, rev: nat, board: nat, size: nat, chip: seq<byte>) {
    && Matches(fw, force, board, size)
    && (rev >= 5 && Pieces(chip) == 2 && !force ==> size <= fw.imageMaxsize)
    && (rev < 5 && fw.boardId == 9 && !force ==> fw.imageSize <= 1032192)
  }

  /** Nothing but queries since `log`, and the image passes the checks with what the device answered last. */
  ghost predicate Cleared(log: seq<Event>, asked: seq<Event>, fw: Image, force: bool, rev: nat, board: nat, size: nat) {
    Grew(log, asked) && exists chip :: ClearedBy(log, asked, fw, force, rev, board, size, chip)
  }

  ghost predicate ClearedBy(log: seq<Event>, asked: seq<Event>, fw: Image, force: bool, rev: nat, board: nat,
                            size: nat, chip: seq<byte>)
  {
    && Suitable(fw, force, rev, board, size, chip)
    && (rev >= 4 ==> BoardShown(log, asked)) && (rev >= 5 ==> ChipReported(log, chip, asked))
  }

  /** Whatever was sent beyond queries was sent after the image had passed the checks. */
  ghost predicate EraseAllowed(log: seq<Event>, after: seq<Event>, fw: Image, force: bool, rev: nat, board: nat,
                               size: nat)
  {
    exists asked :: Cleared(log, asked, fw, force, rev, board, size) && asked <= after
  }

  /** A conforming bootloader that answers every query of its revision. */
  predicate Talks(p: Port, rev: nat) {
    Waiting(p) && (rev >= 5 ==> KnowsChip(p))
  }

  /** Nothing but queries, or the device reported these values and the image passed the checks with them. */
  ghost predicate OnlyReported(log: seq<Event>, after: seq<Event>, fw: Image, force: bool, rev: nat, board: nat,
                               boardRev: nat, size: nat)
  {
    || Grew(log, after)
    || exists id ::
         Reported(log, id, rev, board, boardRev, size) && EraseAllowed(id, after, fw, force, rev, board, size)
  }

  lemma {:induction false} UploadReported(log: seq<Event>, id: seq<Event>, after: seq<Event>, fw: Image, force: bool,
                                          rev: nat, board: nat, boardRev: nat, size: nat)
    requires Grew(log, id) && Reported(log, id, rev, board, boardRev, size)
    requires Grew(id, after) || EraseAllowed(id, after, fw, force, rev, board, size)
    ensures OnlyReported(log, after, fw, force, rev, board, boardRev, size)
  {
    if Grew(id, after) {
      GrewTrans(log, id, after);
    }
  }

  // ---- from the checks to the reboot

  lemma {:induction false} LoggedPrefix(log: seq<Event>, after: seq<Event>, plan: Plan, r: Status)
    requires |plan.code| % 4 == 0 && Logged(log, after, plan, r)
    ensures log <= after
  {
    if r.Success? {
      FinishedRebooted(log, after, plan);
    }
  }

  /** The log of an upload after identification. */
  lemma {:induction false} UploadedAfter(log: seq<Event>, id: seq<Event>, after: seq<Event>, plan: Plan, r: Status)
    requires |plan.code| % 4 == 0 && Grew(log, id) && LoggedAfter(id, after, plan, r)
    ensures LoggedAfter(log, after, plan, r)
  {
    var asked :| Grew(id, asked) && Logged(asked, after, plan, r);
    GrewTrans(log, id, asked);
  }

  /** The log of a run that ended before the erase. */
  lemma {:induction false} EndedEarly(log: seq<Event>, after: seq<Event>, plan: Plan, r: Status)
    requires |plan.code| % 4 == 0 && Grew(log, after) && r.Raised?
    ensures LoggedAfter(log, after, plan, r)
  {
    GrewIsRebootFree(log, after);
    FailedStage(log, after, plan, r);
    assert Grew(log, log);
  }

  /** The log of an upload that passed the checks. */
  lemma {:induction false} FlashedAfter(log: seq<Event>, asked: seq<Event>, after: seq<Event>, plan: Plan, fw: Image,
                                        force: bool, rev: nat, board: nat, size: nat, r: Status)
    requires |plan.code| % 4 == 0 && Cleared(log, asked, fw, force, rev, board, size) && Logged(asked, after, plan, r)
    ensures EraseAllowed(log, after, fw, force, rev, board, size) && LoggedAfter(log, after, plan, r)
  {
    LoggedPrefix(asked, after, plan, r);
  }
}
