/** The programming loop, on values. */
module UploadProgram {
  import Bytes
  import opened Crc32
  import opened Bootloader
  import opened UploadTrace
  import opened UploadSteps

  function ProgramTraceOf(code: seq<byte>, windowed: bool): seq<Event>
    requires |code| % 4 == 0
  {
    SplitLenJoins(code);
    ProgramTrace(SplitLen(code, PROG_MULTI_MAX), windowed)
  }

  /** An idle conforming bootloader whose flash has room for the image. */
  predicate ReadyFor(p: Port, code: seq<byte>) {
    p.dev.Loader? && Answered(p, p.dev.boot, []) && p.dev.boot.writeAt == 0 && |code| <= |p.dev.boot.flash|
  }

  /** n blocks are in the flash, and `unread` acknowledgements are still waiting. */
  ghost predicate Stored(p0: Port, code: seq<byte>, groups: seq<seq<byte>>, n: nat, unread: nat, p: Port)
    requires n <= |groups|
  {
    ReadyFor(p0, code) ==>
      var done := Bytes.Flat(groups[..n]);
      |done| <= |code| && Answered(p, Flashed(p0.dev.boot, done), Acks(unread))
  }

  function Unread(n: nat, windowed: bool): nat {
    if windowed then n % WINDOW_BLOCKS else 0
  }

  ghost predicate Progress(p0: Port, code: seq<byte>, groups: seq<seq<byte>>, n: nat, windowed: bool, p: Port)
    requires n <= |groups|
  {
    && GoodBlocks(groups) && Bytes.Flat(groups) == code
    && p.log == p0.log + BlocksTrace(groups, n, windowed)
    && Stored(p0, code, groups, n, Unread(n, windowed), p)
  }

  /** The programming loop has sent n blocks since p0. */
  ghost predicate Sending(p0: Port, code: seq<byte>, groups: seq<seq<byte>>, n: nat, windowed: bool, p: Port) {
    exists k: nat :: k <= |groups| && Progress(p0, code, groups, k, windowed, p) && k == n
  }

  /** The same before a full window of acknowledgements is read. */
  ghost predicate Sent(p0: Port, code: seq<byte>, groups: seq<seq<byte>>, n: nat, windowed: bool, p: Port) {
    exists k: nat :: 0 < k <= |groups| && Mid(p0, code, groups, k, windowed, p) && k == n
  }

  lemma {:induction false} ProgramStart(p0: Port, code: seq<byte>, groups: seq<seq<byte>>, windowed: bool)
    requires GoodBlocks(groups) && Bytes.Flat(groups) == code
    ensures Sending(p0, code, groups, 0, windowed, p0)
  {
    assert Progress(p0, code, groups, 0, windowed, p0) by {
      ProgramStarts(p0, code, groups, windowed);
    }
  }

  lemma {:induction false} ProgramStarts(p0: Port, code: seq<byte>, groups: seq<seq<byte>>, windowed: bool)
    requires GoodBlocks(groups) && Bytes.Flat(groups) == code
    ensures Progress(p0, code, groups, 0, windowed, p0)
  {
  }


  /** What reading a window of acknowledgements does. */
  predicate WindowRead(p: Port, q: Port, count: nat, r: Status) {
    && Listened(p.log, q.log)
    && (r.Success? ==> q.log == p.log + (if count > 0 then [Got(Acks(count / 2))] else []))
    && (p.dev.Loader? && p.rx == Acks(count / 2) ==> r.Success? && q.dev == p.dev && q.rx == [])
  }

  /** After the n-th block, before a window of acknowledgements is read. */
  function MidTrace(groups: seq<seq<byte>>, n: nat, windowed: bool): seq<Event>
    requires 0 < n <= |groups| && GoodBlocks(groups)
  {
    BlocksTrace(groups, n - 1, windowed) + Block(groups[n - 1]) + (if windowed then [] else ACK_EVENTS)
  }

  function MidUnread(n: nat, windowed: bool): nat
    requires n > 0
  {
    if windowed then (n - 1) % WINDOW_BLOCKS + 1 else 0
  }

  lemma {:induction false} TwoPerBlock(unread: nat, window: nat)
    requires window == 2 * unread
    ensures window % 2 == 0 && window / 2 == unread
  {
  }

  lemma {:induction false} WindowGrows(n: nat, windowed: bool)
    ensures MidUnread(n + 1, windowed) == Unread(n, windowed) + if windowed then 1 else 0
    ensures Unread(n + 1, windowed) ==
            if (n + 1) % WINDOW_BLOCKS == 0 then 0 else MidUnread(n + 1, windowed)
  {
  }

  ghost predicate Mid(p0: Port, code: seq<byte>, groups: seq<seq<byte>>, n: nat, windowed: bool, p: Port)
    requires 0 < n <= |groups|
  {
    && GoodBlocks(groups) && Bytes.Flat(groups) == code
    && p.log == p0.log + MidTrace(groups, n, windowed)
    && Stored(p0, code, groups, n, MidUnread(n, windowed), p)
  }

  lemma {:induction false} BlocksHarmless(groups: seq<seq<byte>>, n: nat, windowed: bool)
    requires n <= |groups| && GoodBlocks(groups)
    ensures Harmless(BlocksTrace(groups, n, windowed))
    ensures n > 0 ==> Harmless(MidTrace(groups, n, windowed))
    decreases n
  {
    if n == 0 {
    } else {
      BlocksHarmless(groups, n - 1, windowed);
      BlockHarmless(groups[n - 1]);
      HarmlessAppend(BlocksTrace(groups, n - 1, windowed), Block(groups[n - 1]));
      HarmlessAppend(BlocksTrace(groups, n - 1, windowed) + Block(groups[n - 1]), AckEvents(n, windowed));
      HarmlessAppend(BlocksTrace(groups, n - 1, windowed) + Block(groups[n - 1]), if windowed then [] else ACK_EVENTS);
    }
  }

  lemma {:induction false} BlockHarmless(data: seq<byte>)
    requires GoodBlock(data)
    ensures Harmless(Block(data))
  {
  }

  lemma {:induction false} HarmlessAppend(a: seq<Event>, b: seq<Event>)
    requires Harmless(a) && Harmless(b)
    ensures Harmless(a + b)
  {
  }

  lemma {:induction false} FlatNext(groups: seq<seq<byte>>, n: nat)
    requires n < |groups|
    ensures Bytes.Flat(groups[..n + 1]) == Bytes.Flat(groups[..n]) + groups[n]
    ensures |Bytes.Flat(groups[..n + 1])| <= |Bytes.Flat(groups)|
  {
    assert groups[..n + 1] == groups[..n] + [groups[n]];
    Bytes.FlatSnoc(groups[..n], groups[n]);
    assert groups == groups[..n + 1] + groups[n + 1..];
    Bytes.FlatAppend(groups[..n + 1], groups[n + 1..]);
  }

  /** One block, and its acknowledgement when not in windowed mode. */
  ghost predicate Stepped(before: Port, data: seq<byte>, windowed: bool, sent: Port, after: Port, r: Status) {
    BlockSent(before, data, sent) && if windowed then after == sent && r == Success else Synced(sent, after, r)
  }

  /** One more block on an idle or windowed bootloader. */
  lemma {:induction false} BlockFlashed(p0: Port, code: seq<byte>, groups: seq<seq<byte>>, n: nat, unread: nat,
                                        p: Port, q: Port)
    requires n < |groups| && GoodBlocks(groups) && Bytes.Flat(groups) == code && ReadyFor(p0, code)
    requires Stored(p0, code, groups, n, unread, p) && BlockSent(p, groups[n], q)
    ensures Stored(p0, code, groups, n + 1, unread + 1, q)
  {
    var done := Bytes.Flat(groups[..n]);
    FlatNext(groups, n);
    FlashedMore(p0.dev.boot, done, groups[n]);
    AcksNext(unread);
  }

  lemma {:induction false} SyncedStored(p0: Port, code: seq<byte>, groups: seq<seq<byte>>, n: nat, p: Port, q: Port,
                                        r: Status)
    requires n <= |groups| && Stored(p0, code, groups, n, 1, p) && Synced(p, q, r)
    ensures Stored(p0, code, groups, n, 0, q) && (ReadyFor(p0, code) ==> r.Success?)
  {
  }

  lemma {:induction false} ProgramStepStored(p0: Port, code: seq<byte>, groups: seq<seq<byte>>, n: nat, windowed: bool,
                                             before: Port, sent: Port, after: Port, r: Status)
    requires n < |groups| && GoodBlocks(groups) && Bytes.Flat(groups) == code
    requires Stored(p0, code, groups, n, Unread(n, windowed), before)
    requires Stepped(before, groups[n], windowed, sent, after, r)
    ensures Stored(p0, code, groups, n + 1, MidUnread(n + 1, windowed), after)
    ensures ReadyFor(p0, code) ==> r.Success?
  {
    if ReadyFor(p0, code) {
      BlockFlashed(p0, code, groups, n, Unread(n, windowed), before, sent);
      if !windowed {
        SyncedStored(p0, code, groups, n + 1, sent, after, r);
      }
    }
  }

  lemma {:induction false} ProgramStepLog(log: seq<Event>, groups: seq<seq<byte>>, n: nat, windowed: bool,
                                          before: Port, sent: Port, after: Port, r: Status)
    requires n < |groups| && GoodBlocks(groups) && before.log == log + BlocksTrace(groups, n, windowed)
    requires Stepped(before, groups[n], windowed, sent, after, r)
    ensures Grew(log, after.log)
    ensures r.Success? ==> after.log == log + MidTrace(groups, n + 1, windowed)
  {
    var trace := BlocksTrace(groups, n, windowed) + Block(groups[n]);
    BlocksHarmless(groups, n, windowed);
    BlockHarmless(groups[n]);
    HarmlessAppend(BlocksTrace(groups, n, windowed), Block(groups[n]));
    Bytes.Assoc(log, BlocksTrace(groups, n, windowed), Block(groups[n]));
    GrewBy(log, trace);
    if windowed {
      assert trace + [] == trace;
    } else {
      ListenedIsGrew(sent.log, after.log);
      GrewTrans(log, sent.log, after.log);
      Bytes.Assoc(log, trace, ACK_EVENTS);
    }
  }

  lemma {:induction false} ProgramStep(p0: Port, code: seq<byte>, groups: seq<seq<byte>>, n: nat, windowed: bool,
                                       before: Port, sent: Port, after: Port, r: Status)
    requires n < |groups| && Sending(p0, code, groups, n, windowed, before)
    requires Stepped(before, groups[n], windowed, sent, after, r)
    ensures Grew(p0.log, after.log)
    ensures r.Success? ==> Sent(p0, code, groups, n + 1, windowed, after)
    ensures ReadyFor(p0, code) ==> r.Success?
  {
    ProgramStepLog(p0.log, groups, n, windowed, before, sent, after, r);
    ProgramStepStored(p0, code, groups, n, windowed, before, sent, after, r);
    var m := n + 1;
    assert r.Success? ==> Mid(p0, code, groups, m, windowed, after);
  }

  lemma {:induction false} NoWindow(p0: Port, code: seq<byte>, groups: seq<seq<byte>>, n: nat, windowed: bool, p: Port)
    requires 0 < n <= |groups| && n % WINDOW_BLOCKS != 0 && Sent(p0, code, groups, n, windowed, p)
    ensures Sending(p0, code, groups, n, windowed, p)
  {
    NoWindowTrace(groups, n, windowed);
    assert Progress(p0, code, groups, n, windowed, p);
  }

  lemma {:induction false} NoWindowTrace(groups: seq<seq<byte>>, n: nat, windowed: bool)
    requires 0 < n <= |groups| && n % WINDOW_BLOCKS != 0 && GoodBlocks(groups)
    ensures MidTrace(groups, n, windowed) == BlocksTrace(groups, n, windowed)
    ensures MidUnread(n, windowed) == Unread(n, windowed)
  {
    assert AckEvents(n, windowed) == if windowed then [] else ACK_EVENTS;
  }

  /** Reading a window only adds the read to the log. */
  lemma {:induction false} WindowLog(log: seq<Event>, trace: seq<Event>, before: Port, after: Port, count: nat,
                                     r: Status)
    requires before.log == log + trace && Harmless(trace) && WindowRead(before, after, count, r)
    ensures Grew(log, after.log)
    ensures r.Success? ==> after.log == log + (trace + (if count > 0 then [Got(Acks(count / 2))] else []))
  {
  }

  lemma {:induction false} WindowStored(p0: Port, code: seq<byte>, groups: seq<seq<byte>>, n: nat, unread: nat,
                                        before: Port, after: Port, count: nat, r: Status)
    requires n <= |groups| && Stored(p0, code, groups, n, unread, before)
    requires count == 2 * unread && WindowRead(before, after, count, r)
    ensures Stored(p0, code, groups, n, 0, after)
    ensures ReadyFor(p0, code) ==> r.Success?
  {
  }

  lemma {:induction false} WindowStep(p0: Port, code: seq<byte>, groups: seq<seq<byte>>, n: nat, windowed: bool,
                                      before: Port, after: Port, count: nat, r: Status)
    requires 0 < n <= |groups| && n % WINDOW_BLOCKS == 0 && Sent(p0, code, groups, n, windowed, before)
    requires count == 2 * MidUnread(n, windowed) && WindowRead(before, after, count, r)
    ensures Grew(p0.log, after.log)
    ensures r.Success? ==> Sending(p0, code, groups, n, windowed, after)
    ensures ReadyFor(p0, code) ==> r.Success?
  {
    BlocksHarmless(groups, n, windowed);
    WindowLog(p0.log, MidTrace(groups, n, windowed), before, after, count, r);
    WindowStored(p0, code, groups, n, MidUnread(n, windowed), before, after, count, r);
    FullWindow(groups, n, windowed, count);
    assert r.Success? ==> Progress(p0, code, groups, n, windowed, after);
  }

  lemma {:induction false} FullCount(n: nat)
    requires n > 0 && n % WINDOW_BLOCKS == 0
    ensures MidUnread(n, true) == WINDOW_BLOCKS
  {
  }

  lemma {:induction false} FullWindow(groups: seq<seq<byte>>, n: nat, windowed: bool, count: nat)
    requires 0 < n <= |groups| && n % WINDOW_BLOCKS == 0 && GoodBlocks(groups)
    requires count == 2 * MidUnread(n, windowed)
    ensures MidTrace(groups, n, windowed) + (if count > 0 then [Got(Acks(count / 2))] else [])
         == BlocksTrace(groups, n, windowed)
    ensures Unread(n, windowed) == 0
  {
    var sent := BlocksTrace(groups, n - 1, windowed) + Block(groups[n - 1]);
    if windowed {
      FullCount(n);
      TwoPerBlock(WINDOW_BLOCKS, count);
      assert sent + [] == sent;
    } else {
      assert (sent + ACK_EVENTS) + [] == sent + ACK_EVENTS;
    }
  }

  lemma {:induction false} ProgramEnd(p0: Port, code: seq<byte>, groups: seq<seq<byte>>, windowed: bool,
                                      before: Port, after: Port, count: nat, r: Status)
    requires Sending(p0, code, groups, |groups|, windowed, before) && GoodBlocks(groups)
    requires count == 2 * Unread(|groups|, windowed) && WindowRead(before, after, count, r)
    ensures Grew(p0.log, after.log)
    ensures r.Success? ==> after.log == p0.log + ProgramTrace(groups, windowed)
    ensures ReadyFor(p0, code) ==> r.Success? && Answered(after, Flashed(p0.dev.boot, code), [])
  {
    var n := |groups|;
    TwoPerBlock(Unread(n, windowed), count);
    BlocksHarmless(groups, n, windowed);
    WindowLog(p0.log, BlocksTrace(groups, n, windowed), before, after, count, r);
    WindowStored(p0, code, groups, n, Unread(n, windowed), before, after, count, r);
    assert groups[..n] == groups;
  }
}
