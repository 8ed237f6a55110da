/** Whole uploads, on values: read-back verification, and what must come before a reboot command. */
module UploadSession {
  import Bytes
  import opened Crc32
  import opened Firmware
  import opened Bootloader
  import opened UploadTrace
  import opened UploadSteps
  import opened UploadProgram
  import opened UploadExchange

  /** A conforming bootloader with nothing pending, holding this flash and this boot delay. */
  predicate Idle(p: Port, flash: seq<byte>, delay: byte) {
    p.dev.Loader? && Answered(p, p.dev.boot, []) && p.dev.boot.flash == flash && p.dev.boot.delay == delay
  }

  predicate Waiting(p: Port) {
    p.dev.Loader? && p.dev.boot.inbox == [] && p.rx == []
  }

  /** A conforming bootloader that waits for a command; what it said before may still be unread. */
  predicate Listening(p: Port) {
    p.dev.Loader? && p.dev.boot.inbox == []
  }

  // ---- identification

  const SYNC_COMMAND: seq<byte> := [GET_SYNC, EOC]

  function InfoCommand(param: byte): seq<byte> {
    [GET_DEVICE, param, EOC]
  }

  function InfoTrace(param: byte, w: bv32): seq<Event> {
    Queried(InfoCommand(param), w)
  }

  /** The parameters in the order they are asked for. */
  function Param(k: nat): byte {
    if k == 0 then INFO_BL_REV else if k == 1 then INFO_BOARD_ID else if k == 2 then INFO_BOARD_REV else INFO_FLASH_SIZE
  }

  /** Synchronised, and then these values were reported. */
  function IdentifyTrace(values: seq<bv32>): seq<Event> {
    if values == [] then Asked(SYNC_COMMAND)
    else
      var k := |values| - 1;
      IdentifyTrace(values[..k]) + InfoTrace(Param(k), values[k])
  }

  /** What the k-th parameter is on this board. */
  function InfoOf(b: Boot, k: nat): bv32 {
    if k == 0 then b.revision else if k == 1 then b.boardType else if k == 2 then b.boardRev else b.flashSize
  }

  /** A conforming bootloader reports its own values. */
  ghost predicate OwnValues(p0: Port, values: seq<bv32>) {
    Listening(p0) ==> forall k :: 0 <= k < |values| ==> values[k] == InfoOf(p0.dev.boot, k)
  }

  /** These values were reported since p0, and a conforming bootloader is unchanged and told its own. */
  ghost predicate ToldNow(p0: Port, values: seq<bv32>, p: Port) {
    && p.log == p0.log + IdentifyTrace(values) && Grew(p0.log, p.log)
    && (Listening(p0) ==> Answered(p, p0.dev.boot, [])) && OwnValues(p0, values)
  }

  ghost predicate Told(p0: Port, values: seq<bv32>, p: Port) {
    exists v :: ToldNow(p0, v, p) && v == values
  }

  lemma {:induction false} ToldFacts(p0: Port, values: seq<bv32>, p: Port)
    requires Told(p0, values, p)
    ensures Grew(p0.log, p.log) && p.log == p0.log + IdentifyTrace(values)
    ensures Listening(p0) ==> Answered(p, p0.dev.boot, [])
    ensures Listening(p0) && |values| > 0 ==> values[0] == p0.dev.boot.revision
  {
  }

  lemma {:induction false} ToldRevision(p0: Port, values: seq<bv32>, p: Port, rev: bv32)
    requires Told(p0, values, p) && values == [rev]
    ensures Grew(p0.log, p.log) && (Listening(p0) ==> rev == p0.dev.boot.revision)
  {
    ToldFacts(p0, values, p);
  }

  /** The four numbers the device reported. */
  predicate Numbers(values: seq<bv32>, rev: nat, kind: nat, board: nat, size: nat) {
    && |values| == 4
    && rev == Number(values[0]) && kind == Number(values[1]) && board == Number(values[2]) && size == Number(values[3])
  }

  ghost predicate Reported(before: seq<Event>, after: seq<Event>, rev: nat, kind: nat, board: nat, size: nat) {
    exists values :: Numbers(values, rev, kind, board, size) && after == before + IdentifyTrace(values)
  }

  predicate Describes(b: Boot, rev: nat, kind: nat, board: nat, size: nat) {
    Numbers([b.revision, b.boardType, b.boardRev, b.flashSize], rev, kind, board, size)
  }

  lemma {:induction false} ToldAll(p0: Port, values: seq<bv32>, p: Port, rev: nat, kind: nat, board: nat, size: nat)
    requires Told(p0, values, p) && Numbers(values, rev, kind, board, size)
    ensures Grew(p0.log, p.log) && Reported(p0.log, p.log, rev, kind, board, size)
    ensures Listening(p0) ==> Answered(p, p0.dev.boot, []) && Describes(p0.dev.boot, rev, kind, board, size)
  {
  }

  lemma {:induction false} SyncWorks(p: Port, b: Boot)
    requires Answered(p, b, [])
    ensures var (q, r) := AskOn(p, SYNC_COMMAND);
      r == Success && Answered(q, b, [])
  {
    assert SYNC_COMMAND[2..] == [] && b.(inbox := []) == b;
    AskAnswered(p, b, SYNC_COMMAND, b);
  }

  lemma {:induction false} SyncedIdentify(p0: Port, p1: Port, r: Status)
    requires (p1, r) == AskOn(FlushInput(p0), SYNC_COMMAND)
    ensures Grew(p0.log, p1.log)
    ensures r.Success? ==> Told(p0, [], p1)
    ensures Listening(p0) ==> r.Success?
  {
    AskFacts(FlushInput(p0), SYNC_COMMAND);
    AskedGrew(p0.log, SYNC_COMMAND, p1.log);
    if Listening(p0) {
      SyncWorks(FlushInput(p0), p0.dev.boot);
    }
    assert r.Success? ==> ToldNow(p0, [], p1);
  }

  lemma {:induction false} AskedGrew(log: seq<Event>, c: seq<byte>, after: seq<Event>)
    requires Listened(log + [Wrote(c)], after) && c != [CHIP_ERASE, EOC] && c != [REBOOT, EOC]
    ensures Grew(log, after)
  {
  }

  lemma {:induction false} InfoAnswered(p: Port, b: Boot, k: nat)
    requires Answered(p, b, [])
    ensures var (q, r, w) := QueryOn(p, InfoCommand(Param(k)));
      r == Success && w == InfoOf(b, k) && Answered(q, b, [])
  {
    var c := InfoCommand(Param(k));
    assert c[3..] == [] && b.(inbox := []) == b;
    QueryAnswered(p, b, c, InfoOf(b, k));
  }

  lemma {:induction false} InfoStep(p0: Port, values: seq<bv32>, before: Port, param: byte, after: Port, r: Status,
                                    w: bv32)
    requires param == Param(|values|) && Told(p0, values, before)
    requires after == QueryOn(before, InfoCommand(param)).0 && r == QueryOn(before, InfoCommand(param)).1
    requires r.Success? ==> w == QueryOn(before, InfoCommand(param)).2
    ensures Grew(p0.log, after.log)
    ensures r.Success? ==> Told(p0, values + [w], after)
    ensures Listening(p0) ==> r.Success?
  {
    InfoLog(p0.log, values, before, param, after, r, w);
    InfoTold(p0, values, before, param, after, r, w);
    var values' := values + [w];
    assert r.Success? ==> ToldNow(p0, values', after);
  }

  lemma {:induction false} InfoTold(p0: Port, values: seq<bv32>, before: Port, param: byte, after: Port, r: Status,
                                    w: bv32)
    requires param == Param(|values|) && OwnValues(p0, values) && (Listening(p0) ==> Answered(before, p0.dev.boot, []))
    requires after == QueryOn(before, InfoCommand(param)).0 && r == QueryOn(before, InfoCommand(param)).1
    requires r.Success? ==> w == QueryOn(before, InfoCommand(param)).2
    ensures Listening(p0) ==> r.Success? && Answered(after, p0.dev.boot, [])
    ensures OwnValues(p0, values + [w])
  {
    if Listening(p0) {
      InfoAnswered(before, p0.dev.boot, |values|);
    }
  }

  lemma {:induction false} InfoLog(log: seq<Event>, values: seq<bv32>, before: Port, param: byte, after: Port,
                                   r: Status, w: bv32)
    requires param == Param(|values|) && before.log == log + IdentifyTrace(values) && Grew(log, before.log)
    requires after == QueryOn(before, InfoCommand(param)).0 && r == QueryOn(before, InfoCommand(param)).1
    requires r.Success? ==> w == QueryOn(before, InfoCommand(param)).2
    ensures Grew(log, after.log)
    ensures r.Success? ==> after.log == log + IdentifyTrace(values + [w])
  {
    QueryFacts(before, InfoCommand(param));
    AskedGrew(before.log, InfoCommand(param), after.log);
    GrewTrans(log, before.log, after.log);
    Bytes.Assoc(log, IdentifyTrace(values), InfoTrace(param, w));
    assert (values + [w])[..|values|] == values;
  }

  // ---- read-back of the whole image

  function ReadsTrace(groups: seq<seq<byte>>, n: nat): seq<Event>
    requires n <= |groups| && GoodBlocks(groups)
  {
    if n == 0 then [] else ReadsTrace(groups, n - 1) + ReadBlock(groups[n - 1])
  }

  predicate HasImage(p: Port, code: seq<byte>) {
    p.dev.Loader? && Answered(p, p.dev.boot, []) && code <= p.dev.boot.flash
  }

  /** After n blocks the device's read position is at their end. */
  ghost predicate ReadBack(p0: Port, code: seq<byte>, groups: seq<seq<byte>>, n: nat, p: Port)
    requires n <= |groups|
  {
    Reader(p0, code) ==>
      Answered(p, p0.dev.boot.(readAt := |Bytes.Flat(groups[..n])|), [])
  }

  /** n blocks have been read back since p0. */
  ghost predicate ReadNow(p0: Port, code: seq<byte>, groups: seq<seq<byte>>, n: nat, p: Port) {
    && n <= |groups| && GoodBlocks(groups) && Bytes.Flat(groups) == code
    && p.log == p0.log + ReadsTrace(groups, n) && Grew(p0.log, p.log)
    && ReadBack(p0, code, groups, n, p)
  }

  ghost predicate Reading(p0: Port, code: seq<byte>, groups: seq<seq<byte>>, n: nat, p: Port) {
    exists k: nat :: ReadNow(p0, code, groups, k, p) && k == n
  }

  lemma {:induction false} ReadStarts(p0: Port, code: seq<byte>, groups: seq<seq<byte>>)
    requires GoodBlocks(groups) && Bytes.Flat(groups) == code
    ensures Reading(p0, code, groups, 0, p0)
  {
    assert groups[..0] == [] && p0.log + [] == p0.log;
    assert ReadNow(p0, code, groups, 0, p0);
  }

  predicate Reader(p: Port, code: seq<byte>) {
    HasImage(p, code) && p.dev.boot.readAt == 0
  }

  lemma {:induction false} ReadStep(p0: Port, code: seq<byte>, groups: seq<seq<byte>>, n: nat, before: Port,
                                    after: Port, r: Status)
    requires Reading(p0, code, groups, n, before) && n < |groups| && GoodBlock(groups[n])
    requires BlockRead(before, groups[n], after, r)
    ensures Grew(p0.log, after.log)
    ensures r.Success? ==> Reading(p0, code, groups, n + 1, after)
    ensures Reader(p0, code) ==> r.Success?
  {
    ReadLogStep(p0.log, groups, n, before, after, r);
    ReadBackStep(p0, code, groups, n, before, after, r);
    assert r.Success? ==> ReadNow(p0, code, groups, n + 1, after);
  }

  lemma {:induction false} ReadBackStep(p0: Port, code: seq<byte>, groups: seq<seq<byte>>, n: nat, before: Port,
                                        after: Port, r: Status)
    requires n < |groups| && GoodBlocks(groups) && Bytes.Flat(groups) == code
    requires ReadBack(p0, code, groups, n, before) && BlockRead(before, groups[n], after, r)
    ensures ReadBack(p0, code, groups, n + 1, after)
    ensures Reader(p0, code) ==> r.Success?
  {
    if Reader(p0, code) {
      var at, next := |Bytes.Flat(groups[..n])|, |Bytes.Flat(groups[..n + 1])|;
      FlatNext(groups, n);
      BlockInFlash(groups, n, at, p0.dev.boot.flash);
      var b := p0.dev.boot.(readAt := at);
      assert HoldsAt(b, groups[n]);
      assert b.(readAt := next) == p0.dev.boot.(readAt := next);
    }
  }

  lemma {:induction false} BlockInFlash(groups: seq<seq<byte>>, n: nat, at: nat, flash: seq<byte>)
    requires n < |groups| && at == |Bytes.Flat(groups[..n])| && Bytes.Flat(groups) <= flash
    ensures at + |groups[n]| <= |flash| && flash[at..at + |groups[n]|] == groups[n]
  {
    FlatSlice(groups, n, at);
    assert flash[at..at + |groups[n]|] == Bytes.Flat(groups)[at..at + |groups[n]|];
  }

  lemma {:induction false} FlatSlice(groups: seq<seq<byte>>, n: nat, at: nat)
    requires n < |groups| && at == |Bytes.Flat(groups[..n])|
    ensures at + |groups[n]| <= |Bytes.Flat(groups)|
    ensures Bytes.Flat(groups)[at..at + |groups[n]|] == groups[n]
  {
    FlatNext(groups, n);
    assert groups == groups[..n + 1] + groups[n + 1..];
    Bytes.FlatAppend(groups[..n + 1], groups[n + 1..]);
  }

  lemma {:induction false} ReadLogStep(log: seq<Event>, groups: seq<seq<byte>>, n: nat, before: Port, after: Port,
                                       r: Status)
    requires n < |groups| && GoodBlocks(groups) && before.log == log + ReadsTrace(groups, n)
    requires Grew(log, before.log) && BlockRead(before, groups[n], after, r)
    ensures Grew(log, after.log)
    ensures r.Success? ==> after.log == log + ReadsTrace(groups, n + 1)
  {
    GrewTrans(log, before.log, after.log);
    Bytes.Assoc(log, ReadsTrace(groups, n), ReadBlock(groups[n]));
  }

  // ---- verification

  const VERIFY_COMMAND: seq<byte> := [CHIP_VERIFY, EOC]
  const CRC_COMMAND: seq<byte> := [GET_CRC, EOC]

  /** Revision 2 reads every block back. */
  function ReadBackTrace(code: seq<byte>): seq<Event>
    requires |code| % 4 == 0
  {
    SplitLenJoins(code);
    var groups := SplitLen(code, PROG_MULTI_MAX);
    Asked(VERIFY_COMMAND) + ReadsTrace(groups, |groups|)
  }

  /** Later revisions report the checksum of the whole flash. */
  function CrcTrace(code: seq<byte>, size: nat): seq<Event> {
    Queried(CRC_COMMAND, ImageCrc(code, size))
  }

  function VerifyTrace(code: seq<byte>, readBack: bool, size: nat): seq<Event>
    requires |code| % 4 == 0
  {
    if readBack then ReadBackTrace(code) else CrcTrace(code, size)
  }

  lemma {:induction false} VerifyStarts(p: Port, b: Boot)
    requires Answered(p, b, [])
    ensures var (q, r) := AskOn(p, VERIFY_COMMAND);
      r == Success && Answered(q, b.(readAt := 0), [])
  {
    assert VERIFY_COMMAND[2..] == [] && b.(inbox := []) == b;
    AskAnswered(p, b, VERIFY_COMMAND, b.(readAt := 0));
  }

  lemma {:induction false} VerifyAsked(p0: Port, p1: Port, r: Status, code: seq<byte>)
    requires (p1, r) == AskOn(p0, VERIFY_COMMAND)
    ensures Grew(p0.log, p1.log)
    ensures r.Success? ==> p1.log == p0.log + Asked(VERIFY_COMMAND)
    ensures HasImage(p0, code) ==>
      r.Success? && Reader(p1, code) && p1.dev.boot.flash == p0.dev.boot.flash && p1.dev.boot.delay == p0.dev.boot.delay
  {
    AskFacts(p0, VERIFY_COMMAND);
    AskedGrew(p0.log, VERIFY_COMMAND, p1.log);
    if HasImage(p0, code) {
      VerifyStarts(p0, p0.dev.boot);
    }
  }

  lemma {:induction false} ReadEnds(p0: Port, p1: Port, code: seq<byte>, groups: seq<seq<byte>>, p: Port)
    requires |code| % 4 == 0 && groups == SplitLen(code, PROG_MULTI_MAX)
    requires p1.log == p0.log + Asked(VERIFY_COMMAND) && Grew(p0.log, p1.log)
    requires Reading(p1, code, groups, |groups|, p)
    ensures p.log == p0.log + ReadBackTrace(code) && Grew(p0.log, p.log)
    ensures Reader(p1, code) ==> Idle(p, p1.dev.boot.flash, p1.dev.boot.delay)
  {
  }

  lemma {:induction false} CrcAnswered(p: Port, b: Boot)
    requires Answered(p, b, [])
    ensures var (q, r, w) := QueryOn(p, CRC_COMMAND);
      r == Success && w == BitwiseCrc(b.flash, 0) && Answered(q, b, [])
  {
    assert CRC_COMMAND[2..] == [] && b.(inbox := []) == b;
    QueryAnswered(p, b, CRC_COMMAND, BitwiseCrc(b.flash, 0));
  }

  lemma {:induction false} CrcReported(p0: Port, p1: Port, r: Status, w: bv32)
    requires p1 == QueryOn(p0, CRC_COMMAND).0 && r == QueryOn(p0, CRC_COMMAND).1
    requires r.Success? ==> w == QueryOn(p0, CRC_COMMAND).2
    ensures Grew(p0.log, p1.log)
    ensures r.Success? ==> p1.log == p0.log + Queried(CRC_COMMAND, w)
    ensures Waiting(p0) ==> r.Success? && w == BitwiseCrc(p0.dev.boot.flash, 0) && Answered(p1, p0.dev.boot, [])
  {
    QueryFacts(p0, CRC_COMMAND);
    AskedGrew(p0.log, CRC_COMMAND, p1.log);
    if Waiting(p0) {
      CrcAnswered(p0, p0.dev.boot);
    }
  }

  lemma {:induction false} CrcMatched(log: seq<Event>, code: seq<byte>, size: nat, w: bv32)
    requires w == ImageCrc(code, size)
    ensures log + Queried(CRC_COMMAND, w) == log + CrcTrace(code, size)
  {
  }

  /** A flash holding the image and otherwise blank has the expected checksum when pad words fill it exactly. */
  lemma {:induction false} FlashedCrc(code: seq<byte>, flash: seq<byte>)
    requires |code| <= |flash| && (|flash| - |code|) % 4 == 0
    requires flash == code + Blanks(|flash| - |code|)
    ensures BitwiseCrc(flash, 0) == ImageCrc(code, |flash|)
  {
  }

  // ---- erase

  /** The erase command, reads, and finally an acknowledgement. */
  predicate EraseTrace(e: seq<Event>) {
    |e| >= 3 && e[0] == ERASE_COMMAND && OnlyReads(e[1..]) && e[|e| - 2..] == ACK_EVENTS
  }

  lemma {:induction false} EraseEnds(log: seq<Event>, before: seq<Event>, after: seq<Event>)
    requires Listened(log + [ERASE_COMMAND], before) && after == before + ACK_EVENTS
    ensures log <= after && EraseTrace(after[|log|..])
  {
  }

  lemma {:induction false} EraseAnswered(p: Port, b: Boot)
    requires Answered(p, b, [])
    ensures Answered(Put(p, [CHIP_ERASE, EOC]), Erased(b), ACK)
  {
  }

  // ---- delay and reboot

  function DelayCommand(delay: byte): seq<byte> {
    [SET_BOOT_DELAY, delay, EOC]
  }

  lemma {:induction false} DelayAnswered(p: Port, b: Boot, delay: byte)
    requires Answered(p, b, [])
    ensures var (q, r) := AskOn(p, DelayCommand(delay));
      r == Success && Answered(q, b.(delay := delay), [])
  {
    assert DelayCommand(delay)[3..] == [] && b.(inbox := []) == b;
    AskAnswered(p, b, DelayCommand(delay), b.(delay := delay));
  }

  lemma {:induction false} RebootAnswered(p: Port, b: Boot)
    requires Answered(p, b, [])
    ensures Put(p, [REBOOT, EOC]).dev == Loader(b)
    ensures var (q, r) := AskOn(p, [REBOOT, EOC]);
      r == Success && Answered(q, b, [])
  {
    var c := [REBOOT, EOC];
    assert c[2..] == [] && b.(inbox := []) == b;
    PutWhole(p, b, [], c);
    AskAnswered(p, b, c, b);
  }

  // ---- what precedes a reboot

  predicate RebootFree(before: seq<Event>, after: seq<Event>) {
    before <= after && REBOOT_COMMAND !in after[|before|..]
  }

  lemma {:induction false} GrewIsRebootFree(a: seq<Event>, b: seq<Event>)
    requires Grew(a, b)
    ensures RebootFree(a, b)
  {
  }

  lemma {:induction false} EraseIsRebootFree(log: seq<Event>, after: seq<Event>)
    requires Listened(log + [ERASE_COMMAND], after)
    ensures RebootFree(log, after)
  {
  }

  datatype Delay = NoDelay | BootDelay(value: byte)

  datatype Plan = Plan(code: seq<byte>, windowed: bool, rev: nat, size: nat, delay: Delay)

  function DelayTrace(delay: Delay): seq<Event> {
    if delay.NoDelay? then [] else Asked(DelayCommand(delay.value))
  }

  function PhaseTrace(plan: Plan, k: nat): seq<Event>
    requires |plan.code| % 4 == 0
  {
    if k == 1 then ProgramTraceOf(plan.code, plan.windowed)
    else if k == 2 then VerifyTrace(plan.code, plan.rev == 2, plan.size)
    else DelayTrace(plan.delay)
  }

  /** The events of the first k phases after the erase: program, verify, boot delay. */
  function TraceUpTo(plan: Plan, k: nat): seq<Event>
    requires |plan.code| % 4 == 0
  {
    if k == 0 then [] else TraceUpTo(plan, k - 1) + PhaseTrace(plan, k)
  }

  /** The device acknowledged the erase, every block, a verification that matched the image, and the boot delay. */
  ghost predicate Complete(log: seq<Event>, after: seq<Event>, plan: Plan)
    requires |plan.code| % 4 == 0
  {
    exists erase :: EraseTrace(erase) && after == log + erase + TraceUpTo(plan, 3)
  }

  /** One reboot command, sent only after a complete upload, and then only reads. */
  ghost predicate Rebooted(log: seq<Event>, after: seq<Event>, plan: Plan)
    requires |plan.code| % 4 == 0
  {
    exists ready :: Complete(log, ready, plan) && RebootFree(log, ready) && Listened(ready + [REBOOT_COMMAND], after)
  }

  /** The reboot command and, from revision 3 on, its acknowledgement. */
  function RebootTrace(rev: nat): seq<Event> {
    [REBOOT_COMMAND] + if rev >= 3 then ACK_EVENTS else []
  }

  /** The whole session: a complete upload, and then nothing but the acknowledged reboot. */
  ghost predicate Finished(log: seq<Event>, after: seq<Event>, plan: Plan)
    requires |plan.code| % 4 == 0
  {
    exists ready :: Complete(log, ready, plan) && RebootFree(log, ready) && after == ready + RebootTrace(plan.rev)
  }

  /** What an upload leaves in the log, by its result. */
  ghost predicate Logged(log: seq<Event>, after: seq<Event>, plan: Plan, r: Status)
    requires |plan.code| % 4 == 0
  {
    exists end :: end == after && if r.Success? then Finished(log, end, plan) else Unfinished(log, end, plan)
  }

  ghost predicate Unfinished(log: seq<Event>, after: seq<Event>, plan: Plan)
    requires |plan.code| % 4 == 0
  {
    RebootFree(log, after) || (plan.rev >= 3 && Rebooted(log, after, plan))
  }

  /** The same after identification and checks, which only ask. */
  ghost predicate LoggedAfter(log: seq<Event>, after: seq<Event>, plan: Plan, r: Status)
    requires |plan.code| % 4 == 0
  {
    exists asked :: Grew(log, asked) && Logged(asked, after, plan, r)
  }

  lemma {:induction false} FinishedRebooted(log: seq<Event>, after: seq<Event>, plan: Plan)
    requires |plan.code| % 4 == 0 && Finished(log, after, plan)
    ensures Rebooted(log, after, plan)
  {
    var ready :| Complete(log, ready, plan) && RebootFree(log, ready) && after == ready + RebootTrace(plan.rev);
    assert Listened(ready + [REBOOT_COMMAND], after);
  }

  /** Wherever a reboot command stands in the log, the complete upload stands right before it. */
  lemma {:induction false} RebootIsLast(log: seq<Event>, after: seq<Event>, plan: Plan, i: nat)
    requires |plan.code| % 4 == 0 && (RebootFree(log, after) || Rebooted(log, after, plan))
    requires |log| <= i < |after| && after[i] == REBOOT_COMMAND
    ensures Complete(log, after[..i], plan)
  {
  }

  /** The flash of a complete upload: the image, and blank after it. */
  predicate Uploaded(p: Port, code: seq<byte>, size: nat, delay: byte) {
    size >= |code| && Idle(p, code + Blanks(size - |code|), delay)
  }

  /** The device holds the image and this boot delay, and its flash is blank after the image. */
  ghost predicate Contains(dev: Device, code: seq<byte>, size: nat, delay: byte) {
    exists b :: dev == Loader(b) && BootContains(b, code, size, delay)
  }

  predicate BootContains(b: Boot, code: seq<byte>, size: nat, delay: byte) {
    size >= |code| && b.flash == code + Blanks(size - |code|) && b.delay == delay
  }

  /** The boot delay after an upload that sets it, or leaves it as it was. */
  function DelayOf(delay: Delay, before: byte): byte {
    if delay.NoDelay? then before else delay.value
  }

  /** A conforming bootloader whose flash has this size and room for the image. */
  predicate Fits(p: Port, code: seq<byte>, size: nat) {
    Waiting(p) && |code| <= |p.dev.boot.flash| == size
  }

  lemma {:induction false} UploadedImage(p: Port, code: seq<byte>, size: nat, delay: byte)
    requires Uploaded(p, code, size, delay) && |code| % 4 == 0
    ensures HasImage(p, code) && Waiting(p)
    ensures size % 4 == 0 ==> BitwiseCrc(p.dev.boot.flash, 0) == ImageCrc(code, size)
  {
  }

  /** What k phases leave on a conforming bootloader: a blank flash, and then the image. */
  predicate Holds(p0: Port, plan: Plan, k: nat, p: Port) {
    && Fits(p0, plan.code, plan.size)
    && if k == 0 then Answered(p, Erased(p0.dev.boot), [])
       else Uploaded(p, plan.code, plan.size, if k < 3 then p0.dev.boot.delay else DelayOf(plan.delay, p0.dev.boot.delay))
  }

  /** Erased and then k phases since p0; `good` says that p0 is a conforming bootloader the image fits on. */
  ghost predicate StagedBy(p0: Port, erase: seq<Event>, plan: Plan, k: nat, good: bool, p: Port) {
    && |plan.code| % 4 == 0
    && EraseTrace(erase) && p.log == p0.log + erase + TraceUpTo(plan, k) && RebootFree(p0.log, p.log)
    && (good ==> Holds(p0, plan, k, p))
  }

  ghost predicate Staged(p0: Port, plan: Plan, k: nat, good: bool, p: Port) {
    exists erase :: StagedBy(p0, erase, plan, k, good, p)
  }

  lemma {:induction false} EraseStage(p0: Port, plan: Plan, good: bool, p: Port)
    requires |plan.code| % 4 == 0
    requires Listened(p0.log + [ERASE_COMMAND], p.log) && EraseTrace(p.log[|p0.log|..])
    requires good ==> Holds(p0, plan, 0, p)
    ensures Staged(p0, plan, 0, good, p)
  {
    var erase := p.log[|p0.log|..];
    EraseIsRebootFree(p0.log, p.log);
    assert p.log == p0.log + erase + [];
    assert StagedBy(p0, erase, plan, 0, good, p);
  }

  lemma {:induction false} StageFails(p0: Port, plan: Plan, k: nat, good: bool, p: Port, q: Port)
    requires Staged(p0, plan, k, good, p) && Grew(p.log, q.log)
    ensures RebootFree(p0.log, q.log)
  {
  }

  lemma {:induction false} NextStage(p0: Port, plan: Plan, k: nat, good: bool, p: Port, q: Port)
    requires |plan.code| % 4 == 0 && k > 0 && Staged(p0, plan, k - 1, good, p)
    requires Grew(p.log, q.log) && q.log == p.log + PhaseTrace(plan, k)
    requires good ==> Holds(p0, plan, k, q)
    ensures Staged(p0, plan, k, good, q)
  {
    StageFails(p0, plan, k - 1, good, p, q);
    var erase :| StagedBy(p0, erase, plan, k - 1, good, p);
    Bytes.Assoc(p0.log + erase, TraceUpTo(plan, k - 1), PhaseTrace(plan, k));
    assert StagedBy(p0, erase, plan, k, good, q);
  }

  lemma {:induction false} RebootEnds(log: seq<Event>, after: seq<Event>, rev: nat, r: Status)
    requires rev < 3 ==> after == log + [REBOOT_COMMAND]
    requires rev >= 3 && r.Success? ==> after == log + [REBOOT_COMMAND] + ACK_EVENTS
    ensures r.Success? ==> after == log + RebootTrace(rev)
  {
    assert log + [REBOOT_COMMAND] + ACK_EVENTS == log + ([REBOOT_COMMAND] + ACK_EVENTS);
    assert [REBOOT_COMMAND] + [] == [REBOOT_COMMAND];
  }

  lemma {:induction false} FinalStage(p0: Port, plan: Plan, good: bool, p: Port, after: seq<Event>, r: Status)
    requires |plan.code| % 4 == 0 && Staged(p0, plan, 3, good, p)
    requires Listened(p.log + [REBOOT_COMMAND], after) && (plan.rev < 3 ==> r.Success?)
    requires r.Success? ==> after == p.log + RebootTrace(plan.rev)
    ensures Logged(p0.log, after, plan, r)
  {
    assert Complete(p0.log, p.log, plan);
    assert if r.Success? then Finished(p0.log, after, plan) else Unfinished(p0.log, after, plan);
  }

  lemma {:induction false} FailedStage(log: seq<Event>, after: seq<Event>, plan: Plan, r: Status)
    requires |plan.code| % 4 == 0 && RebootFree(log, after) && r.Raised?
    ensures Logged(log, after, plan, r)
  {
    assert Unfinished(log, after, plan);
  }

  lemma {:induction false} StagedHolds(p0: Port, plan: Plan, k: nat, good: bool, p: Port)
    requires Staged(p0, plan, k, good, p)
    ensures good ==> Holds(p0, plan, k, p)
  {
  }

  lemma {:induction false} StagedContains(p0: Port, plan: Plan, p: Port)
    requires Staged(p0, plan, 3, true, p)
    ensures Waiting(p) && p0.dev.Loader?
    ensures Contains(p.dev, plan.code, plan.size, DelayOf(plan.delay, p0.dev.boot.delay))
  {
  }

  lemma {:induction false} NoDelayStage(p0: Port, plan: Plan, good: bool, p: Port)
    requires |plan.code| % 4 == 0 && Staged(p0, plan, 2, good, p) && plan.delay.NoDelay?
    ensures Staged(p0, plan, 3, good, p)
  {
    assert p.log == p.log + [];
    StagedHolds(p0, plan, 2, good, p);
    NextStage(p0, plan, 3, good, p, p);
  }

  lemma {:induction false} DelayStage(p0: Port, plan: Plan, good: bool, p: Port, q: Port)
    requires |plan.code| % 4 == 0 && Staged(p0, plan, 2, good, p) && plan.delay.BootDelay?
    requires Grew(p.log, q.log) && q.log == p.log + Asked(DelayCommand(plan.delay.value))
    requires Waiting(p) ==> Answered(q, p.dev.boot.(delay := plan.delay.value), [])
    ensures Staged(p0, plan, 3, good, q)
  {
    StagedHolds(p0, plan, 2, good, p);
    NextStage(p0, plan, 3, good, p, q);
  }

  lemma {:induction false} StagedWaiting(p0: Port, plan: Plan, k: nat, p: Port)
    requires k > 0 && Staged(p0, plan, k, true, p)
    ensures Waiting(p)
  {
  }

  lemma {:induction false} ProgramReady(p0: Port, plan: Plan, p: Port)
    requires Holds(p0, plan, 0, p)
    ensures ReadyFor(p, plan.code)
  {
  }

  lemma {:induction false} ProgramHolds(p0: Port, plan: Plan, p: Port)
    requires Fits(p0, plan.code, plan.size) && Answered(p, Flashed(Erased(p0.dev.boot), plan.code), [])
    ensures Holds(p0, plan, 1, p)
  {
  }

  lemma {:induction false} DelayStep(p0: Port, delay: byte, p: Port, r: Status)
    requires (p, r) == AskOn(p0, DelayCommand(delay))
    ensures Grew(p0.log, p.log)
    ensures r.Success? ==> p.log == p0.log + Asked(DelayCommand(delay))
    ensures Waiting(p0) ==> r.Success? && Answered(p, p0.dev.boot.(delay := delay), [])
  {
    AskFacts(p0, DelayCommand(delay));
    AskedGrew(p0.log, DelayCommand(delay), p.log);
    if Waiting(p0) {
      DelayAnswered(p0, p0.dev.boot, delay);
    }
  }
}
