/** The other exchanges of an upload, on values: commands, queries, read-back and the wait for an erase. */
module UploadExchange {
  import Bytes
  import opened Octets
  import opened Crc32
  import opened Bootloader
  import opened UploadTrace
  import opened UploadSteps

  /** A command that is only acknowledged. */
  function AskOn(p: Port, c: seq<byte>): (Port, Status) {
    SyncOn(Put(p, c))
  }

  function Asked(c: seq<byte>): seq<Event> {
    [Wrote(c)] + ACK_EVENTS
  }

  lemma {:induction false} AskFacts(p: Port, c: seq<byte>)
    ensures var (q, r) := AskOn(p, c);
      && Listened(p.log + [Wrote(c)], q.log)
      && (r.Success? ==> q.log == p.log + Asked(c))
  {
    PutLogs(p, c);
    SyncFacts(Put(p, c));
    Bytes.Assoc(p.log, [Wrote(c)], ACK_EVENTS);
  }

  lemma {:induction false} AskAnswered(p: Port, b: Boot, c: seq<byte>, b': Boot)
    requires Answered(p, b, []) && c != [] && CommandLength(c) == |c|
    requires Execute(b.(inbox := c)) == (b', ACK) && b'.inbox == []
    ensures var (q, r) := AskOn(p, c);
      r == Success && Answered(q, b', [])
  {
    PutWhole(p, b, [], c);
    assert [] + ACK == ACK && ACK + [] == ACK;
    SyncAnswered(Put(p, c), b', []);
  }

  /** A command answered with a 32-bit word and then acknowledged. */
  function QueryOn(p: Port, c: seq<byte>): (Port, Status, bv32) {
    var (p1, raw) := Get(Put(p, c), 4);
    if |raw| < 1 then (p1, Raised(Timeout), 0)
    else if |raw| < 4 then (p1, Raised(ShortWord), 0)
    else
      GetListens(Put(p, c), 4);
      var (q, r) := SyncOn(p1);
      (q, r, Word(raw))
  }

  function Queried(c: seq<byte>, w: bv32): seq<Event> {
    [Wrote(c), Got(Le(w))] + ACK_EVENTS
  }

  lemma {:induction false} QueryFacts(p: Port, c: seq<byte>)
    ensures var (q, r, w) := QueryOn(p, c);
      && Listened(p.log + [Wrote(c)], q.log)
      && (r.Success? ==> q.log == p.log + Queried(c, w))
  {
    PutLogs(p, c);
    var p0 := Put(p, c);
    GetListens(p0, 4);
    var (p1, raw) := Get(p0, 4);
    if |raw| == 4 {
      SyncFacts(p1);
      ListenedTrans(p0.log, p1.log, SyncOn(p1).0.log);
      LeWord(raw);
      QueriedLog(p.log, c, raw);
    }
  }

  lemma {:induction false} QueriedLog(log: seq<Event>, c: seq<byte>, raw: seq<byte>)
    ensures log + [Wrote(c)] + [Got(raw)] + ACK_EVENTS == log + ([Wrote(c), Got(raw)] + ACK_EVENTS)
  {
  }

  lemma {:induction false} QueryAnswered(p: Port, b: Boot, c: seq<byte>, w: bv32)
    requires Answered(p, b, []) && c != [] && CommandLength(c) == |c|
    requires Execute(b.(inbox := c)) == (b, Le(w) + ACK)
    ensures var (q, r, v) := QueryOn(p, c);
      r == Success && v == w && Answered(q, b, [])
  {
    PutWhole(p, b, [], c);
    assert [] + (Le(w) + ACK) == Le(w) + ACK && ACK + [] == ACK;
    GetAnswer(Put(p, c), b, Le(w), ACK);
    SyncAnswered(Get(Put(p, c), 4).0, b, []);
    WordLe(w);
  }

  // ---- read-back

  function ReadRequest(p: Port, n: nat): Port
    requires n < 256
  {
    Put(Put(Put(p, [READ_MULTI]), [LengthByte(n)]), [EOC])
  }

  function ReadBlockOn(p: Port, data: seq<byte>): (Port, Status)
    requires |data| < 256
  {
    var (p1, programmed) := Get(ReadRequest(p, |data|), |data|);
    if |programmed| < 1 then (p1, Raised(Timeout))
    else if programmed != data then (p1, Raised(VerificationFailed))
    else SyncOn(p1)
  }

  function ReadRequested(n: nat): seq<Event>
    requires n < 256
  {
    [Wrote([READ_MULTI]), Wrote([LengthByte(n)]), Wrote([EOC])]
  }

  function ReadBlock(data: seq<byte>): seq<Event>
    requires |data| < 256
  {
    ReadRequested(|data|) + [Got(data)] + ACK_EVENTS
  }

  lemma {:induction false} ReadRequestLogs(p: Port, n: nat)
    requires n < 256
    ensures ReadRequest(p, n).log == p.log + ReadRequested(n)
  {
  }

  lemma {:induction false} ReadBlockFacts(p: Port, data: seq<byte>)
    requires |data| < 256
    ensures var (q, r) := ReadBlockOn(p, data);
      && Grew(p.log, q.log)
      && (r.Success? ==> q.log == p.log + ReadBlock(data))
  {
    var asked := ReadRequest(p, |data|);
    var request := ReadRequested(|data|);
    ReadRequestLogs(p, |data|);
    GrewBy(p.log, request);
    GetListens(asked, |data|);
    var (p1, programmed) := Get(asked, |data|);
    SyncFacts(p1);
    var q := ReadBlockOn(p, data).0;
    if q != p1 {
      ListenedTrans(asked.log, p1.log, q.log);
    }
    ListenedIsGrew(asked.log, q.log);
    GrewTrans(p.log, asked.log, q.log);
    Bytes.Assoc(p.log, request, [Got(data)]);
    Bytes.Assoc(p.log, request + [Got(data)], ACK_EVENTS);
  }

  lemma {:induction false} ReadPending(p: Port, b: Boot, n: nat)
    requires Answered(p, b, []) && n < 256
    ensures var p2 := Put(Put(p, [READ_MULTI]), [LengthByte(n)]);
      p2.dev == Loader(b.(inbox := [READ_MULTI, LengthByte(n)])) && p2.rx == []
  {
  }

  lemma {:induction false} ExecuteRead(b: Boot, n: nat)
    requires b.inbox == [] && n < 256 && b.readAt + n <= |b.flash|
    ensures var c := [READ_MULTI, LengthByte(n), EOC];
      Execute(b.(inbox := c)) == (b.(readAt := b.readAt + n), b.flash[b.readAt..b.readAt + n] + ACK)
  {
    var c := [READ_MULTI, LengthByte(n), EOC];
    assert c[3..] == [] && b.(inbox := c[3..]) == b;
  }

  lemma {:induction false} ReadBlockAnswered(p: Port, b: Boot, data: seq<byte>)
    requires Answered(p, b, []) && GoodBlock(data) && b.readAt + |data| <= |b.flash|
    requires b.flash[b.readAt..b.readAt + |data|] == data
    ensures var (q, r) := ReadBlockOn(p, data);
      r == Success && Answered(q, b.(readAt := b.readAt + |data|), [])
  {
    var n := |data|;
    var b' := b.(readAt := b.readAt + n);
    RequestAnswered(p, b, data);
    assert ACK + [] == ACK;
    GetAnswer(ReadRequest(p, n), b', data, ACK);
    SyncAnswered(Get(ReadRequest(p, n), n).0, b', []);
  }

  lemma {:induction false} RequestAnswered(p: Port, b: Boot, data: seq<byte>)
    requires Answered(p, b, []) && |data| < 256 && b.readAt + |data| <= |b.flash|
    requires b.flash[b.readAt..b.readAt + |data|] == data
    ensures Answered(ReadRequest(p, |data|), b.(readAt := b.readAt + |data|), data + ACK)
  {
    ReadPending(p, b, |data|);
    RequestEnds(Put(Put(p, [READ_MULTI]), [LengthByte(|data|)]), b, data);
  }

  lemma {:induction false} RequestEnds(p: Port, b: Boot, data: seq<byte>)
    requires |data| < 256 && b.inbox == [] && b.readAt + |data| <= |b.flash|
    requires b.flash[b.readAt..b.readAt + |data|] == data
    requires p.dev == Loader(b.(inbox := [READ_MULTI, LengthByte(|data|)])) && p.rx == []
    ensures Answered(Put(p, [EOC]), b.(readAt := b.readAt + |data|), data + ACK)
  {
    var n := |data|;
    ExecuteRead(b, n);
    var c := [READ_MULTI, LengthByte(n), EOC];
    assert [READ_MULTI, LengthByte(n)] + [EOC] == c;
    PutLast(p, p.dev.boot, c, b.(readAt := b.readAt + n), data + ACK);
  }

  /** The end-of-command byte, when the rest of the command has been sent. */
  lemma {:induction false} PutLast(p: Port, b: Boot, c: seq<byte>, b': Boot, reply: seq<byte>)
    requires p.dev == Loader(b) && p.rx == [] && b'.inbox == []
    requires b.inbox + [EOC] == c && c != [] && CommandLength(c) == |c| && Execute(b.(inbox := c)) == (b', reply)
    ensures Answered(Put(p, [EOC]), b', reply)
  {
    assert [] + reply == reply;
  }

  /** A block was read back: what was logged, and that a conforming bootloader holding it answers with it. */
  ghost predicate BlockRead(p: Port, data: seq<byte>, q: Port, r: Status) {
    && |data| < 256 && Grew(p.log, q.log)
    && (r.Success? ==> q.log == p.log + ReadBlock(data))
    && forall b :: Answered(p, b, []) && GoodBlock(data) && HoldsAt(b, data) ==>
         r.Success? && Answered(q, b.(readAt := b.readAt + |data|), [])
  }

  predicate HoldsAt(b: Boot, data: seq<byte>) {
    b.readAt + |data| <= |b.flash| && b.flash[b.readAt..b.readAt + |data|] == data
  }

  lemma {:induction false} BlockIsRead(p: Port, data: seq<byte>)
    requires |data| < 256
    ensures BlockRead(p, data, ReadBlockOn(p, data).0, ReadBlockOn(p, data).1)
  {
    ReadBlockFacts(p, data);
    forall b | Answered(p, b, []) && GoodBlock(data) && HoldsAt(b, data)
      ensures ReadBlockOn(p, data).1.Success? && Answered(ReadBlockOn(p, data).0, b.(readAt := b.readAt + |data|), [])
    {
      ReadBlockAnswered(p, b, data);
    }
  }

  // ---- waiting for an erase

  datatype Attempt = InSync | NotYet | Unsupported

  function TrySyncOn(p: Port): (Port, Attempt) {
    var (p1, c1) := Get(p, 1);
    if c1 != [INSYNC] then (p1, NotYet)
    else
      var (p2, c2) := Get(p1, 1);
      (p2, if c2 == [BAD_SILICON_REV] then Unsupported else if c2 != [OK] then NotYet else InSync)
  }

  lemma {:induction false} TrySyncFacts(p: Port)
    ensures var (q, a) := TrySyncOn(p);
      && Listened(p.log, q.log)
      && (a.InSync? ==> q.log == p.log + ACK_EVENTS)
  {
  }

  /** An attempt that read 0x12 and then this byte. */
  predicate Heard(log: seq<Event>, answer: byte, after: seq<Event>) {
    after == log + [Got([0x12]), Got([answer])]
  }

  /** An attempt that read at most one byte, or 0x12 and then at most one byte that is neither 0x10 nor 0x14. */
  ghost predicate Undecided(log: seq<Event>, after: seq<Event>) {
    || (exists first :: |first| <= 1 && first != [0x12] && after == log + [Got(first)])
    || (exists second ::
          |second| <= 1 && second != [0x10] && second != [0x14] && after == log + [Got([0x12]), Got(second)])
  }

  /** An attempt during the erase is a matter of the bytes read. */
  lemma {:induction false} TrySyncReads(p: Port)
    ensures var (q, a) := TrySyncOn(p);
      match a
      case InSync => Heard(p.log, 0x10, q.log)
      case Unsupported => Heard(p.log, 0x14, q.log)
      case NotYet => Undecided(p.log, q.log)
  {
    GetListens(p, 1);
    var (p1, first) := Get(p, 1);
    GetListens(p1, 1);
    var second := Get(p1, 1).1;
    assert p.log + [Got(first)] + [Got(second)] == p.log + [Got(first), Got(second)];
  }

  /** So many undecided attempts, one after the other. */
  ghost predicate Waited(log: seq<Event>, n: nat, after: seq<Event>) {
    if n == 0 then after == log
    else exists k: nat, mid :: k == n - 1 && Waited(log, k, mid) && Undecided(mid, after)
  }

  /** The first decided attempt ends the waiting, and without one all `tries` are made. */
  ghost predicate EraseEnded(log: seq<Event>, tries: nat, after: seq<Event>, r: Status) {
    || (r == Raised(EraseTimeout) && Waited(log, tries, after))
    || exists n: nat, mid :: n < tries && Waited(log, n, mid) && EraseDecided(mid, after, r)
  }

  predicate EraseDecided(log: seq<Event>, after: seq<Event>, r: Status) {
    (r == Success && Heard(log, 0x10, after)) || (r == Raised(BadSilicon) && Heard(log, 0x14, after))
  }

  lemma {:induction false} TrySyncAnswered(p: Port, b: Boot)
    requires Answered(p, b, ACK)
    ensures var (q, a) := TrySyncOn(p);
      a == InSync && Answered(q, b, [])
  {
    assert ACK == [INSYNC] + [OK] && [OK] == [OK] + [];
    GetAnswer(p, b, [INSYNC], [OK]);
    GetAnswer(Get(p, 1).0, b, [OK], []);
  }
}
