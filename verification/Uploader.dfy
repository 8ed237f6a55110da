/** The uploader object: synchronisation, erase, program, verify and reboot over a port. */
module Uploader {
  import opened Octets
  import opened Crc32
  import opened Firmware
  import opened Bootloader
  import opened UploadTrace
  import opened UploadSteps
  import opened UploadProgram
  import opened UploadExchange
  import opened UploadSession
  import opened UploadInspect

  const BL_REV_MIN := 2
  const BL_REV_MAX := 5

  /** A conforming bootloader of a supported revision that passes the checks and has room for the image. */
  predicate UploadsTo(p: Port, fw: Image, force: bool, tries: nat) {
    Listening(p) && tries > 0 &&
    var b := p.dev.boot;
    && Conforming(b) && 2 <= Number(b.revision) <= 5 && (Number(b.revision) >= 5 ==> b.chip != [])
    && Suitable(fw, force, Number(b.revision), Number(b.boardType), Number(b.flashSize), b.chip)
    && |fw.code| <= |b.flash| && (Number(b.revision) == 2 || |b.flash| % 4 == 0)
  }

  /** A conforming bootloader on which an upload with these reported values succeeds. */
  predicate Accepts(p: Port, fw: Image, force: bool, tries: nat, rev: nat, board: nat, size: nat) {
    && Talks(p, rev) && tries > 0 && Suitable(fw, force, rev, board, size, p.dev.boot.chip)
    && |fw.code| <= |p.dev.boot.flash| == size && (rev == 2 || size % 4 == 0)
  }

  lemma {:induction false} IdentifiedAccepts(p0: Port, p: Port, fw: Image, force: bool, tries: nat, rev: nat, board: nat,
                                             boardRev: nat, size: nat)
    requires UploadsTo(p0, fw, force, tries) && Answered(p, p0.dev.boot, [])
    requires Describes(p0.dev.boot, rev, board, boardRev, size)
    ensures Accepts(p, fw, force, tries, rev, board, size) && size == |p0.dev.boot.flash|
  {
  }

  class Uploader {
    var port: Port
    var window: nat
    const ackWindowedMode: bool
    var blRev: nat
    var boardType: nat
    var boardRev: nat
    var fwMaxsize: nat

    constructor (port: Port, ackWindowedMode: bool)
      ensures this.port == port && window == 0 && this.ackWindowedMode == ackWindowedMode
    {
      this.port, this.ackWindowedMode, window := port, ackWindowedMode, 0;
      blRev, boardType, boardRev, fwMaxsize := 0, 0, 0, 0;
    }

    method Send(c: seq<byte>)
      modifies this`port
      ensures port == Put(old(port), c)
    {
      port := Put(port, c);
    }

    method Recv(count: nat) returns (r: Status, c: seq<byte>)
      modifies this`port
      ensures (port, c) == Get(old(port), count)
      ensures r == if |c| < 1 then Raised(Timeout) else Success
    {
      var got := Get(port, count);
      port, c := got.0, got.1;
      r := if |c| < 1 then Raised(Timeout) else Success;
    }

    method GetSync() returns (r: Status)
      modifies this`port
      ensures (port, r) == SyncOn(old(port))
    {
      var c;
      r, c := Recv(1);
      if r.IsFailure() {
        return;
      }
      if c != [INSYNC] {
        return Raised(NotInSync);
      }
      r, c := Recv(1);
      if r.IsFailure() {
        return;
      }
      if c == [INVALID] {
        return Raised(InvalidOperation);
      }
      if c == [FAILED] {
        return Raised(OperationFailed);
      }
      if c != [OK] {
        return Raised(UnexpectedResponse);
      }
      return Success;
    }

    /** Reads and checks the acknowledgements of a whole window at once. */
    method AckSyncWindow(count: nat) returns (r: Status)
      requires count % 2 == 0
      modifies this`port
      ensures WindowRead(old(port), port, count, r)
    {
      if count > 0 {
        GetListens(port, count);
        var data;
        r, data := Recv(count);
        if r.IsFailure() {
          return;
        }
        if |data| != count {
          return Raised(AckWindow);
        }
        assert old(port).dev.Loader? && old(port).rx == Acks(count / 2) ==> data == Acks(count / 2);
        r := CheckAcks(data);
        return;
      }
      return Success;
    }

    /** Sends one block, the n-th since `p0`. */
    method ProgramMulti(data: seq<byte>, windowMode: bool,
                        ghost p0: Port, ghost code: seq<byte>, ghost groups: seq<seq<byte>>, ghost n: nat)
      returns (r: Status)
      requires GoodBlock(data) && n < |groups| && data == groups[n] && Sending(p0, code, groups, n, windowMode, port)
      modifies this`port
      ensures Grew(p0.log, port.log)
      ensures r.Success? ==> Sent(p0, code, groups, n + 1, windowMode, port)
      ensures ReadyFor(p0, code) ==> r.Success?
    {
      ghost var before := port;
      var length := LengthByte(|data|);
      Send([PROG_MULTI]);
      Send([length]);
      Send(data);
      Send([EOC]);
      ghost var sent := port;
      BlockIsSent(before, data);
      SyncIsSynced(sent);
      r := Success;
      if !windowMode {
        r := GetSync();
      }
      ProgramStep(p0, code, groups, n, windowMode, before, sent, port, r);
    }

    /** Sends the image block by block. */
    method Program(code: seq<byte>) returns (r: Status)
      requires |code| % 4 == 0 && window == 0
      modifies this`port, this`window
      ensures Grew(old(port.log), port.log)
      ensures r.Success? ==> window == 0 && port.log == old(port.log) + ProgramTraceOf(code, ackWindowedMode)
      ensures ReadyFor(old(port), code) ==> r.Success? && Answered(port, Flashed(old(port).dev.boot, code), [])
    {
      var groups := SplitLen(code, PROG_MULTI_MAX);
      SplitLenJoins(code);
      ghost var p0 := port;
      var uploadProgress := 0;
      ProgramStart(p0, code, groups, ackWindowedMode);
      while uploadProgress < |groups|
        invariant uploadProgress <= |groups|
        invariant window == 2 * Unread(uploadProgress, ackWindowedMode)
        invariant Sending(p0, code, groups, uploadProgress, ackWindowedMode, port)
      {
        r := ProgramMulti(groups[uploadProgress], ackWindowedMode, p0, code, groups, uploadProgress);
        if r.IsFailure() {
          return;
        }
        if ackWindowedMode {
          window := window + 2;
        }
        WindowGrows(uploadProgress, ackWindowedMode);
        uploadProgress := uploadProgress + 1;
        TwoPerBlock(MidUnread(uploadProgress, ackWindowedMode), window);
        if uploadProgress % WINDOW_BLOCKS == 0 {
          ghost var sent := port;
          r := AckSyncWindow(window);
          WindowStep(p0, code, groups, uploadProgress, ackWindowedMode, sent, port, window, r);
          if r.IsFailure() {
            return;
          }
          window := 0;
        } else {
          NoWindow(p0, code, groups, uploadProgress, ackWindowedMode, port);
        }
      }
      ghost var last := port;
      TwoPerBlock(Unread(|groups|, ackWindowedMode), window);
      r := AckSyncWindow(window);
      ProgramEnd(p0, code, groups, ackWindowedMode, last, port, window, r);
      if r.IsFailure() {
        return;
      }
      window := 0;
      return Success;
    }

    // ---- single commands

    method Ask(c: seq<byte>) returns (r: Status)
      modifies this`port
      ensures (port, r) == AskOn(old(port), c)
    {
      Send(c);
      r := GetSync();
    }

    method RecvInt() returns (r: Status, value: bv32)
      modifies this`port
      ensures port == Get(old(port), 4).0
      ensures var raw := Get(old(port), 4).1;
        if |raw| < 1 then r == Raised(Timeout)
        else if |raw| < 4 then r == Raised(ShortWord)
        else r == Success && Le(value) == raw
    {
      GetListens(port, 4);
      var raw;
      r, raw := Recv(4);
      value := 0;
      if r.IsFailure() {
        return;
      }
      if |raw| < 4 {
        return Raised(ShortWord), 0;
      }
      LeWord(raw);
      return Success, Word(raw);
    }

    method Query(c: seq<byte>) returns (r: Status, value: bv32)
      modifies this`port
      ensures (port, r) == (QueryOn(old(port), c).0, QueryOn(old(port), c).1)
      ensures r.Success? ==> value == QueryOn(old(port), c).2
    {
      Send(c);
      ghost var sent := port;
      GetListens(sent, 4);
      r, value := RecvInt();
      if r.IsFailure() {
        return;
      }
      WordLe(value);
      r := GetSync();
    }

    /** Discards pending input and synchronises. */
    method Sync() returns (r: Status)
      modifies this`port
      ensures if r.Success? then Told(old(port), [], port) else Grew(old(port.log), port.log)
      ensures Listening(old(port)) ==> r.Success?
    {
      port := FlushInput(port);
      r := Ask([GET_SYNC, EOC]);
      SyncedIdentify(old(port), port, r);
    }

    // ---- identification

    /** Asks for the next parameter, when `values` were reported since `p0`. */
    method GetInfo(param: byte, ghost p0: Port, ghost values: seq<bv32>) returns (r: Status, value: bv32)
      requires param == Param(|values|) && Told(p0, values, port)
      modifies this`port
      ensures if r.Success? then Told(p0, values + [value], port) else Grew(p0.log, port.log)
      ensures Listening(p0) ==> r.Success?
    {
      ghost var before := port;
      r, value := Query([GET_DEVICE, param, EOC]);
      InfoStep(p0, values, before, param, port, r, value);
    }

    method GetRevision(ghost p0: Port) returns (r: Status, rev: bv32)
      requires Told(p0, [], port)
      modifies this`port
      ensures Grew(p0.log, port.log)
      ensures r.Success? ==> Told(p0, [rev], port) && (Listening(p0) ==> rev == p0.dev.boot.revision)
      ensures Listening(p0) ==> r.Success?
    {
      r, rev := GetInfo(INFO_BL_REV, p0, []);
      if r.Success? {
        assert [] + [rev] == [rev];
        ToldRevision(p0, [rev], port, rev);
      }
    }

    method Identify() returns (r: Status)
      modifies this`port, this`blRev, this`boardType, this`boardRev, this`fwMaxsize
      ensures Grew(old(port.log), port.log)
      ensures r.Success? ==> 2 <= blRev <= 5
      ensures r.Success? ==> Reported(old(port.log), port.log, blRev, boardType, boardRev, fwMaxsize)
      ensures Listening(old(port)) ==>
        var b := old(port).dev.boot;
        if 2 <= Number(b.revision) <= 5 then
          r.Success? && Answered(port, b, []) && Describes(b, blRev, boardType, boardRev, fwMaxsize)
        else r == Raised(ProtocolMismatch)
    {
      ghost var p0 := port;
      r := Sync();
      if r.IsFailure() {
        return;
      }
      var rev;
      r, rev := GetRevision(p0);
      if r.IsFailure() {
        return;
      }
      blRev := Number(rev);
      if blRev < BL_REV_MIN || blRev > BL_REV_MAX {
        return Raised(ProtocolMismatch);
      }
      r := IdentifyBoard(p0, rev);
    }

    /** The three parameters after the revision. */
    method IdentifyBoard(ghost p0: Port, ghost rev: bv32) returns (r: Status)
      requires Told(p0, [rev], port) && blRev == Number(rev)
      modifies this`port, this`boardType, this`boardRev, this`fwMaxsize
      ensures Grew(p0.log, port.log)
      ensures r.Success? ==> Reported(p0.log, port.log, blRev, boardType, boardRev, fwMaxsize)
      ensures Listening(p0) ==>
        r.Success? && Answered(port, p0.dev.boot, [])
        && Describes(p0.dev.boot, blRev, boardType, boardRev, fwMaxsize)
    {
      var kind, board, size;
      r, kind := GetInfo(INFO_BOARD_ID, p0, [rev]);
      if r.IsFailure() {
        return;
      }
      boardType := Number(kind);
      assert [rev] + [kind] == [rev, kind];
      r, board := GetInfo(INFO_BOARD_REV, p0, [rev, kind]);
      if r.IsFailure() {
        return;
      }
      boardRev := Number(board);
      assert [rev, kind] + [board] == [rev, kind, board];
      r, size := GetInfo(INFO_FLASH_SIZE, p0, [rev, kind, board]);
      if r.IsFailure() {
        return;
      }
      fwMaxsize := Number(size);
      assert [rev, kind, board] + [size] == [rev, kind, board, size];
      ToldAll(p0, [rev, kind, board, size], port, blRev, boardType, boardRev, fwMaxsize);
    }

    // ---- erase

    method TrySync() returns (a: Attempt)
      modifies this`port
      ensures (port, a) == TrySyncOn(old(port))
    {
      var r, c;
      r, c := Recv(1);
      if r.IsFailure() || c != [INSYNC] {
        return NotYet;
      }
      r, c := Recv(1);
      if r.IsFailure() {
        return NotYet;
      }
      if c == [BAD_SILICON_REV] {
        return Unsupported;
      }
      if c != [OK] {
        return NotYet;
      }
      return InSync;
    }

    /** Erases, and waits for at most `tries` attempts to synchronise. */
    method Erase(tries: nat) returns (r: Status)
      modifies this`port
      ensures Listened(old(port.log) + [ERASE_COMMAND], port.log)
      ensures r.Success? ==> old(port.log) <= port.log && EraseTrace(port.log[|old(port.log)|..])
      ensures EraseEnded(old(port.log) + [ERASE_COMMAND], tries, port.log, r)
      ensures Waiting(old(port)) && tries > 0 ==> r.Success? && Answered(port, Erased(old(port).dev.boot), [])
    {
      ghost var p0 := port;
      PutLogs(port, [CHIP_ERASE, EOC]);
      Send([CHIP_ERASE, EOC]);
      ghost var sent := port;
      if Waiting(p0) {
        EraseAnswered(p0, p0.dev.boot);
      }
      for i := 0 to tries
        invariant Listened(sent.log, port.log) && Waited(sent.log, i, port.log)
        invariant Waiting(p0) ==> i == 0 && port == sent
      {
        ghost var before := port;
        TrySyncFacts(before);
        TrySyncReads(before);
        if Waiting(p0) {
          TrySyncAnswered(before, Erased(p0.dev.boot));
        }
        var a := TrySync();
        ListenedTrans(sent.log, before.log, port.log);
        if a.Unsupported? {
          return Raised(BadSilicon);
        }
        if a.InSync? {
          EraseEnds(p0.log, before.log, port.log);
          return Success;
        }
      }
      return Raised(EraseTimeout);
    }

    // ---- verification

    /** Whether the device reads back this block, the n-th since `p0`. */
    method VerifyMulti(data: seq<byte>, ghost p0: Port, ghost code: seq<byte>, ghost groups: seq<seq<byte>>,
                       ghost n: nat)
      returns (r: Status, same: bool)
      requires GoodBlock(data) && n < |groups| && data == groups[n] && Reading(p0, code, groups, n, port)
      modifies this`port
      ensures Grew(p0.log, port.log)
      ensures r.Success? && same ==> Reading(p0, code, groups, n + 1, port)
      ensures Reader(p0, code) ==> r.Success? && same
    {
      ghost var before := port;
      BlockIsRead(before, data);
      Send([READ_MULTI]);
      Send([LengthByte(|data|)]);
      Send([EOC]);
      var programmed;
      r, programmed := Recv(|data|);
      same := programmed == data;
      if r.IsFailure() || !same {
        ReadStep(p0, code, groups, n, before, port, if r.IsFailure() then r else Raised(VerificationFailed));
        return;
      }
      r := GetSync();
      ReadStep(p0, code, groups, n, before, port, r);
    }

    /** The verify command of revision 2. */
    method StartVerify(ghost code: seq<byte>) returns (r: Status)
      modifies this`port
      ensures Grew(old(port.log), port.log)
      ensures r.Success? ==> port.log == old(port.log) + Asked(VERIFY_COMMAND)
      ensures HasImage(old(port), code) ==>
        r.Success? && Reader(port, code) && Idle(port, old(port).dev.boot.flash, old(port).dev.boot.delay)
    {
      r := Ask([CHIP_VERIFY, EOC]);
      VerifyAsked(old(port), port, r, code);
    }

    method VerifyV2(code: seq<byte>) returns (r: Status)
      requires |code| % 4 == 0
      modifies this`port
      ensures Grew(old(port.log), port.log)
      ensures r.Success? ==> port.log == old(port.log) + ReadBackTrace(code)
      ensures HasImage(old(port), code) ==>
        r.Success? && Idle(port, old(port).dev.boot.flash, old(port).dev.boot.delay)
    {
      ghost var p0 := port;
      r := StartVerify(code);
      if r.IsFailure() {
        return;
      }
      var groups := SplitLen(code, PROG_MULTI_MAX);
      SplitLenJoins(code);
      ghost var p1 := port;
      ReadStarts(p1, code, groups);
      var verifyProgress := 0;
      while verifyProgress < |groups|
        invariant verifyProgress <= |groups|
        invariant Reading(p1, code, groups, verifyProgress, port)
      {
        var same;
        r, same := VerifyMulti(groups[verifyProgress], p1, code, groups, verifyProgress);
        if r.IsFailure() {
          GrewTrans(p0.log, p1.log, port.log);
          return;
        }
        if !same {
          GrewTrans(p0.log, p1.log, port.log);
          return Raised(VerificationFailed);
        }
        verifyProgress := verifyProgress + 1;
      }
      ReadEnds(p0, p1, code, groups, port);
      return Success;
    }

    method VerifyV3(code: seq<byte>) returns (r: Status)
      requires |code| % 4 == 0
      modifies this`port
      ensures Grew(old(port.log), port.log)
      ensures r.Success? ==> port.log == old(port.log) + CrcTrace(code, fwMaxsize)
      ensures Waiting(old(port)) ==>
        && Answered(port, old(port).dev.boot, [])
        && r == if BitwiseCrc(old(port).dev.boot.flash, 0) == ImageCrc(code, fwMaxsize) then Success
                else Raised(CrcFailed)
    {
      ghost var p0 := port;
      var expectCrc := PaddedCrc(code, fwMaxsize);
      var reportCrc;
      r, reportCrc := Query(CRC_COMMAND);
      CrcReported(p0, port, r, reportCrc);
      if r.IsFailure() {
        return;
      }
      if reportCrc != expectCrc {
        return Raised(CrcFailed);
      }
      CrcMatched(p0.log, code, fwMaxsize, reportCrc);
      return Success;
    }

    // ---- delay and reboot

    method SetBootDelay(delay: byte) returns (r: Status)
      modifies this`port
      ensures Grew(old(port.log), port.log)
      ensures r.Success? ==> port.log == old(port.log) + Asked(DelayCommand(delay))
      ensures Waiting(old(port)) ==> r.Success? && Answered(port, old(port).dev.boot.(delay := delay), [])
    {
      r := Ask([SET_BOOT_DELAY, delay, EOC]);
      DelayStep(old(port), delay, port, r);
    }

    method Reboot() returns (r: Status)
      modifies this`port
      ensures Listened(old(port.log) + [REBOOT_COMMAND], port.log)
      ensures blRev < 3 ==> r.Success? && port.log == old(port.log) + [REBOOT_COMMAND]
      ensures blRev >= 3 && r.Success? ==> port.log == old(port.log) + [REBOOT_COMMAND] + ACK_EVENTS
      ensures Waiting(old(port)) ==> r.Success? && port.dev == old(port).dev
    {
      if Waiting(port) {
        RebootAnswered(port, port.dev.boot);
      }
      AskFacts(port, [REBOOT, EOC]);
      PutLogs(port, [REBOOT, EOC]);
      Send([REBOOT, EOC]);
      if blRev >= 3 {
        r := GetSync();
        return;
      }
      return Success;
    }

    // ---- the checks before the erase

    /** Four bytes that are only printed. */
    method Fetch(op: byte, address: bv32, ghost p0: Port) returns (r: Status)
      requires (op == GET_OTP || op == GET_SN) && Calm(p0, port)
      modifies this`port
      ensures Calm(p0, port) && (Waiting(p0) ==> r.Success?)
      ensures old(port.log) + [Wrote(FetchBytes(op, address))] <= port.log
      ensures r.Success? ==> Fetched(old(port.log), FetchBytes(op, address), port.log)
    {
      ghost var before := port;
      var c := [op] + Le(address) + [EOC];
      Send(c);
      var value;
      r, value := Recv(4);
      if r.Success? {
        r := GetSync();
      }
      FetchCalm(p0, before, c, port, r);
    }

    /** The i-th word of an area. */
    method FetchWord(op: byte, address: bv32, ghost i: nat, ghost p0: Port) returns (r: Status, next: bv32)
      requires (op == GET_OTP || op == GET_SN) && IsAddress(address, i) && i < 48 && Calm(p0, port)
      modifies this`port
      ensures Calm(p0, port) && (Waiting(p0) ==> r.Success?)
      ensures old(port.log) + [Wrote(WordQuery(op, i))] <= port.log
      ensures r.Success? ==> FetchedWord(op, old(port.log), i, port.log)
      ensures IsAddress(next, i + 1)
    {
      NextAddress(op, address, i);
      next := address + 4;
      r := Fetch(op, address, p0);
    }

    /** The one-time-programmable area; a failure ends the upload. */
    method ReadOtp(ghost p0: Port) returns (r: Status)
      requires Calm(p0, port)
      modifies this`port
      ensures Calm(p0, port) && (Waiting(p0) ==> r.Success?)
      ensures r.Success? ==> WordsSoFar(GET_OTP, old(port.log), 48, port.log)
    {
      ghost var start := port.log;
      var address := 0;
      FirstAddress();
      WordsStart(GET_OTP, start);
      for i := 0 to 48
        invariant Calm(p0, port) && IsAddress(address, i) && WordsSoFar(GET_OTP, start, i, port.log)
      {
        ghost var mid := port.log;
        r, address := FetchWord(GET_OTP, address, i, p0);
        if r.IsFailure() {
          return;
        }
        WordsNext(GET_OTP, start, i, mid, port.log);
      }
      return Success;
    }

    /** The serial number and the chip word; a failure is ignored. */
    method ShowSerial(ghost p0: Port)
      requires Calm(p0, port)
      modifies this`port
      ensures Calm(p0, port) && SerialShown(old(port.log), port.log)
    {
      ghost var start := port.log;
      var address := 0;
      FirstAddress();
      WordsStart(GET_SN, start);
      for i := 0 to 3
        invariant Calm(p0, port) && IsAddress(address, i) && WordsSoFar(GET_SN, start, i, port.log)
      {
        ghost var mid := port.log;
        var r;
        r, address := FetchWord(GET_SN, address, i, p0);
        if r.IsFailure() {
          assert AsksNext(i, mid, port.log);
          return;
        }
        WordsNext(GET_SN, start, i, mid, port.log);
      }
      ghost var before := port;
      var _, _ := Query([GET_CHIP, EOC]);
      ChipWordCalm(p0, before, port);
      assert AsksNext(3, before.log, port.log);
    }

    method DescribeChip(ghost p0: Port) returns (r: Status, value: seq<byte>)
      requires Calm(p0, port)
      modifies this`port
      ensures Grew(p0.log, port.log) && old(port.log) <= port.log
      ensures r.Success? ==> ChipReported(p0.log, value, port.log)
      ensures KnowsChip(p0) ==> r.Success? && value == p0.dev.boot.chip && Calm(p0, port)
    {
      ghost var before := port;
      Send([GET_CHIP_DES, EOC]);
      GetListens(port, 4);
      var length;
      r, length := RecvInt();
      value := [];
      if r.Success? {
        WordLe(length);
        r, value := Recv(Number(length));
        if r.Success? {
          r := GetSync();
        }
      }
      DescribeCalm(p0, before, port, r, value);
    }

    /** The printed values of revisions from 4 on. */
    method ShowBoard(ghost p0: Port) returns (r: Status)
      requires p0 == port
      modifies this`port
      ensures Calm(p0, port) && (Waiting(p0) ==> r.Success?)
      ensures if blRev >= 4 then r.Success? ==> BoardShown(p0.log, port.log) else r.Success? && port == p0
    {
      CalmStart(p0);
      if blRev >= 4 {
        r := ReadOtp(p0);
        if r.IsFailure() {
          return;
        }
        ShowSerial(p0);
      }
      return Success;
    }

    /** Everything before the erase: the checks, and the queries made for them. */
    method CheckBoard(fw: Image, force: bool) returns (r: Status)
      modifies this`port
      ensures !Matches(fw, force, boardType, fwMaxsize) ==>
        port == old(port) && r == Raised(if boardType != fw.boardId && !force then NotSuitable else TooLarge)
      ensures Grew(old(port.log), port.log)
      ensures r.Success? ==> Cleared(old(port.log), port.log, fw, force, blRev, boardType, fwMaxsize)
      ensures Talks(old(port), blRev) ==>
        && port.dev == old(port).dev && Waiting(port)
        && (r.Success? <==> Suitable(fw, force, blRev, boardType, fwMaxsize, old(port).dev.boot.chip))
        && (r.Raised? && Matches(fw, force, boardType, fwMaxsize) ==> r == Raised(WrongConfig))
    {
      ghost var p0 := port;
      var size := fwMaxsize;
      if boardType != fw.boardId && !force {
        return Raised(NotSuitable);
      }
      if size < fw.imageSize {
        return Raised(TooLarge);
      }
      r := ShowBoard(p0);
      CalmFacts(p0, port);
      if r.IsFailure() {
        return;
      }
      ghost var shown := port.log;
      var chip := [];
      if blRev >= 5 {
        r, chip := DescribeChip(p0);
        if r.IsFailure() {
          return;
        }
        if KnowsChip(p0) {
          CalmFacts(p0, port);
        }
        if Pieces(chip) == 2 && size > fw.imageMaxsize && !force {
          return Raised(WrongConfig);
        }
      } else if fw.boardId == 9 && fw.imageSize > 1032192 && !force {
        return Raised(WrongConfig);
      }
      if blRev >= 4 {
        BoardShownLater(p0.log, shown, port.log);
      }
      assert ClearedBy(p0.log, port.log, fw, force, blRev, boardType, size, chip);
      return Success;
    }

    // ---- uploads

    method ErasePhase(tries: nat, ghost plan: Plan, ghost good: bool) returns (r: Status)
      requires |plan.code| % 4 == 0 && (good ==> Fits(port, plan.code, plan.size) && tries > 0)
      modifies this`port
      ensures if r.Success? then Staged(old(port), plan, 0, good, port) else RebootFree(old(port.log), port.log)
      ensures good ==> r.Success?
    {
      r := Erase(tries);
      if r.IsFailure() {
        EraseIsRebootFree(old(port.log), port.log);
      } else {
        EraseStage(old(port), plan, good, port);
      }
    }

    method ProgramPhase(code: seq<byte>, ghost p0: Port, ghost plan: Plan, ghost good: bool) returns (r: Status)
      requires |code| % 4 == 0 && window == 0 && code == plan.code && plan.windowed == ackWindowedMode
      requires Staged(p0, plan, 0, good, port)
      modifies this`port, this`window
      ensures if r.Success? then Staged(p0, plan, 1, good, port) else RebootFree(p0.log, port.log)
      ensures good ==> r.Success?
    {
      ghost var before := port;
      StagedHolds(p0, plan, 0, good, before);
      if good {
        ProgramReady(p0, plan, before);
      }
      r := Program(code);
      if r.IsFailure() {
        StageFails(p0, plan, 0, good, before, port);
        return;
      }
      if good {
        ProgramHolds(p0, plan, port);
      }
      NextStage(p0, plan, 1, good, before, port);
    }

    method VerifyPhase(code: seq<byte>, ghost p0: Port, ghost plan: Plan, ghost good: bool) returns (r: Status)
      requires |code| % 4 == 0 && code == plan.code && plan.rev == blRev && plan.size == fwMaxsize
      requires Staged(p0, plan, 1, good, port) && (good ==> blRev == 2 || fwMaxsize % 4 == 0)
      modifies this`port
      ensures if r.Success? then Staged(p0, plan, 2, good, port) else RebootFree(p0.log, port.log)
      ensures good ==> r.Success?
    {
      ghost var before := port;
      StagedHolds(p0, plan, 1, good, before);
      if good {
        UploadedImage(port, code, fwMaxsize, p0.dev.boot.delay);
      }
      if blRev == 2 {
        r := VerifyV2(code);
      } else {
        r := VerifyV3(code);
      }
      if r.IsFailure() {
        StageFails(p0, plan, 1, good, before, port);
        return;
      }
      NextStage(p0, plan, 2, good, before, port);
    }

    /** The optional boot delay. */
    method DelayPhase(bootDelay: Delay, ghost p0: Port, ghost plan: Plan, ghost good: bool) returns (r: Status)
      requires Staged(p0, plan, 2, good, port) && plan.delay == bootDelay
      modifies this`port
      ensures if r.Success? then Staged(p0, plan, 3, good, port) else RebootFree(p0.log, port.log)
      ensures good ==> r.Success?
    {
      ghost var before := port;
      if good {
        StagedWaiting(p0, plan, 2, before);
      }
      if bootDelay.NoDelay? {
        NoDelayStage(p0, plan, good, before);
        return Success;
      }
      r := SetBootDelay(bootDelay.value);
      if r.IsFailure() {
        StageFails(p0, plan, 2, good, before, port);
        return;
      }
      DelayStage(p0, plan, good, before, port);
    }

    /** What follows the checks. */
    method Flash(code: seq<byte>, bootDelay: Delay, tries: nat) returns (r: Status)
      requires |code| % 4 == 0 && window == 0
      modifies this`port, this`window
      ensures
        Logged(old(port.log), port.log, Plan(code, ackWindowedMode, blRev, fwMaxsize, bootDelay), r)
      ensures Fits(old(port), code, fwMaxsize) && tries > 0 && (blRev == 2 || fwMaxsize % 4 == 0) ==>
        r.Success? && Contains(port.dev, code, fwMaxsize, DelayOf(bootDelay, old(port).dev.boot.delay))
    {
      ghost var p0 := port;
      ghost var plan := Plan(code, ackWindowedMode, blRev, fwMaxsize, bootDelay);
      ghost var good := Fits(p0, code, fwMaxsize) && tries > 0 && (blRev == 2 || fwMaxsize % 4 == 0);
      r := ErasePhase(tries, plan, good);
      if r.IsFailure() {
        FailedStage(p0.log, port.log, plan, r);
        return;
      }
      r := ProgramPhase(code, p0, plan, good);
      if r.IsFailure() {
        FailedStage(p0.log, port.log, plan, r);
        return;
      }
      r := VerifyPhase(code, p0, plan, good);
      if r.IsFailure() {
        FailedStage(p0.log, port.log, plan, r);
        return;
      }
      r := DelayPhase(bootDelay, p0, plan, good);
      if r.IsFailure() {
        FailedStage(p0.log, port.log, plan, r);
        return;
      }
      ghost var ready := port;
      if good {
        StagedContains(p0, plan, ready);
      }
      r := Reboot();
      RebootEnds(ready.log, port.log, blRev, r);
      FinalStage(p0, plan, good, ready, port.log, r);
    }

    /** Erase, program, verify, set the delay; a reboot command is sent only after all of them succeeded. */
    method Upload(fw: Image, force: bool, bootDelay: Delay, tries: nat) returns (r: Status)
      requires |fw.code| % 4 == 0 && window == 0
      modifies this`port, this`window
      ensures !Matches(fw, force, boardType, fwMaxsize) ==>
        port == old(port) && r == Raised(if boardType != fw.boardId && !force then NotSuitable else TooLarge)
      ensures
        || Grew(old(port.log), port.log)
        || EraseAllowed(old(port.log), port.log, fw, force, blRev, boardType, fwMaxsize)
      ensures
        LoggedAfter(old(port.log), port.log, Plan(fw.code, ackWindowedMode, blRev, fwMaxsize, bootDelay), r)
      ensures
        && Talks(old(port), blRev)
        && !Suitable(fw, force, blRev, boardType, fwMaxsize, old(port).dev.boot.chip) ==>
        r.Raised? && port.dev == old(port).dev
      ensures
        Accepts(old(port), fw, force, tries, blRev, boardType, fwMaxsize) ==>
        r.Success? && Contains(port.dev, fw.code, fwMaxsize, DelayOf(bootDelay, old(port).dev.boot.delay))
    {
      ghost var plan := Plan(fw.code, ackWindowedMode, blRev, fwMaxsize, bootDelay);
      r := CheckBoard(fw, force);
      ghost var p1 := port;
      if r.IsFailure() {
        EndedEarly(old(port.log), p1.log, plan, r);
        return;
      }
      r := Flash(fw.code, bootDelay, tries);
      FlashedAfter(old(port.log), p1.log, port.log, plan, fw, force, blRev, boardType, fwMaxsize, r);
    }

    /** A whole session with a board: identification, and then the upload. */
    method IdentifyAndUpload(fw: Image, force: bool, bootDelay: Delay, tries: nat) returns (r: Status)
      requires |fw.code| % 4 == 0 && window == 0
      modifies this
      ensures
        OnlyReported(old(port.log), port.log, fw, force, blRev, boardType, boardRev, fwMaxsize)
      ensures
        LoggedAfter(old(port.log), port.log, Plan(fw.code, ackWindowedMode, blRev, fwMaxsize, bootDelay), r)
      ensures UploadsTo(old(port), fw, force, tries) ==>
        var b := old(port).dev.boot;
        r.Success? && Contains(port.dev, fw.code, |b.flash|, DelayOf(bootDelay, b.delay))
    {
      ghost var p0 := port;
      r := Identify();
      ghost var p1 := port;
      if r.IsFailure() {
        EndedEarly(p0.log, p1.log, Plan(fw.code, ackWindowedMode, blRev, fwMaxsize, bootDelay), r);
        return;
      }
      if UploadsTo(p0, fw, force, tries) {
        IdentifiedAccepts(p0, p1, fw, force, tries, blRev, boardType, boardRev, fwMaxsize);
      }
      r := Upload(fw, force, bootDelay, tries);
      ghost var plan := Plan(fw.code, ackWindowedMode, blRev, fwMaxsize, bootDelay);
      UploadedAfter(p0.log, p1.log, port.log, plan, r);
      UploadReported(p0.log, p1.log, port.log, fw, force, blRev, boardType, boardRev, fwMaxsize);
    }
  }

  /** Every pair is INSYNC and OK. */
  method CheckAcks(data: seq<byte>) returns (r: Status)
    requires |data| % 2 == 0
    ensures r.Success? <==> data == Acks(|data| / 2)
  {
    var i := 0;
    while i < |data|
      invariant 0 <= i <= |data| && i % 2 == 0
      invariant forall j :: 0 <= j < i ==> data[j] == Acks(|data| / 2)[j]
    {
      if [data[i]] != [INSYNC] {
        return Raised(NotInSync);
      }
      if [data[i + 1]] == [INVALID] {
        return Raised(InvalidOperation);
      }
      if [data[i + 1]] == [FAILED] {
        return Raised(OperationFailed);
      }
      if [data[i + 1]] != [OK] {
        return Raised(UnexpectedResponse);
      }
      i := i + 2;
    }
    return Success;
  }
}
