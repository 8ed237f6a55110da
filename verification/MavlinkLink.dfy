/** The protocol object: parses in place and sends in place. */
module MavlinkLink {
  import opened Bytes
  import opened Collections
  import opened MavlinkTable
  import opened MavlinkCodec
  import opened MavlinkParser
  import opened MavlinkStream

  /** What every call keeps: unless a frame has begun, no frame length is known. */
  predicate Ready(p: Parser) {
    |p.buf| < 2 || p.buf[0] != MARKER ==> p.expectedLength == INITIAL_LENGTH
  }

  lemma {:induction false} ReadyStep(d: Dialect, p: Parser, c: seq<byte>)
    requires Ready(p)
    ensures var (q, step) := ParseChar(d, p, c);
      && Ready(q)
      && (p.robustParsing && step == NoMessage ==> Settled(q))
  {
  }

  // ---- parse_buffer in either mode

  /** The parser after parse_buffer, what was taken out, and how the last parse_char ended. */
  datatype Pulled = Pulled(p: Parser, out: seq<Received>, last: Step)

  lemma {:induction false} ReturnedTakes(d: Dialect, p: Parser, s: seq<byte>)
    ensures ParseChar(d, p, s).1.Returned? ==> |ParseChar(d, p, s).0.buf| < |p.buf| + |s|
  {
  }

  /** parse_char, and parse_char of nothing for as long as it returns something. */
  function Pull(d: Dialect, p: Parser, s: seq<byte>): Pulled
    decreases |p.buf| + |s|
  {
    ReturnedTakes(d, p, s);
    var (q, step) := ParseChar(d, p, s);
    if step.Returned? then
      var more := Pull(d, q, []);
      Pulled(more.p, [step.r] + more.out, more.last)
    else Pulled(q, [], step)
  }

  /** In robust mode everything that can be taken out is, and nothing is raised. */
  lemma {:induction false} PullIsFeed(d: Dialect, p: Parser, s: seq<byte>)
    requires Ready(p) && p.robustParsing
    ensures Pull(d, p, s) == Pulled(Feed(d, p, s).0, Feed(d, p, s).1, NoMessage)
    ensures Settled(Feed(d, p, s).0)
    decreases |p.buf| + |s|
  {
    ReadyStep(d, p, s);
    RobustStep(d, p, s);
    var (q, step) := ParseChar(d, p, s);
    if !step.Returned? {
    } else {
      ReturnedTakes(d, p, s);
      PullIsFeed(d, q, []);
      FeedNext(d, p, s, q, step.r);
    }
  }

  lemma {:induction false} FeedNext(d: Dialect, p: Parser, s: seq<byte>, q: Parser, r: Received)
    requires p.robustParsing && ParseChar(d, p, s) == (q, Returned(r))
    ensures Feed(d, p, s) == (Feed(d, q, []).0, [r] + Feed(d, q, []).1)
  {
    RobustStep(d, p, s);
    assert q.buf + [] == q.buf;
    DrainNext(d, p.buf + s);
    var more := Drain(d, q.buf);
    AfterNext(p, s, q, r, more.messages, more.rest);
  }

  lemma {:induction false} DrainNext(d: Dialect, all: seq<byte>)
    requires PieceLength(all) > 0
    ensures var n := PieceLength(all);
      Drain(d, all) == Drained([Piece(d, all[..n])] + Drain(d, all[n..]).messages, Drain(d, all[n..]).rest)
  {
  }

  lemma {:induction false} AfterNext(p: Parser, s: seq<byte>, q: Parser, r: Received, more: seq<Received>, rest: seq<byte>)
    requires q.totalBytesReceived == p.totalBytesReceived + |s|
    requires q.totalPacketsReceived == p.totalPacketsReceived + (if r.Good? then 1 else 0)
    requires q.totalReceiveErrors == p.totalReceiveErrors + (if r.Good? then 0 else 1)
    ensures After(p, s, [r] + more, rest) == After(q, [], more, rest)
  {
    assert ([r] + more)[1..] == more;
    GoodCountBound(more);
  }

  // ---- the mode that raises

  /** How many messages come before the first piece of bad data. */
  function Leading(rs: seq<Received>): (k: nat)
    ensures k <= |rs|
  {
    if rs == [] || rs[0].BadData? then 0 else 1 + Leading(rs[1..])
  }

  /** Whether a call on bad data raises: not for a byte that follows junk already complained about. */
  function Complaint(bad: Received, complained: bool): Step
    requires bad.BadData?
  {
    if complained && bad.reason == BadPrefix then NoMessage else Raised(bad.reason)
  }

  lemma {:induction false} RaisingStep(d: Dialect, p: Parser, c: seq<byte>)
    requires Ready(p) && !p.robustParsing
    ensures var (q, step) := ParseChar(d, p, c);
      var all := p.buf + c;
      var n := PieceLength(all);
      && Ready(q) && !q.robustParsing && q.totalBytesReceived == p.totalBytesReceived + |c|
      && (q.havePrefixError <==> all != [] && all[0] != MARKER)
      && (n == 0 ==> step == NoMessage && q.buf == all && Counted(p, q, 0, step))
      && (n > 0 ==>
            var piece := Piece(d, all[..n]);
            && q.buf == all[n..]
            && (piece.Good? ==> step == Returned(piece) && !q.havePrefixError && Counted(p, q, 1, step))
            && (piece.BadData? ==> step == Complaint(piece, p.havePrefixError) && Counted(p, q, 0, step)))
  {
    ParseCases(d, p, c);
    var p1 := Filled(p, c);
    var n := PieceLength(p1.buf);
    if n > 0 && p1.buf[0] == MARKER {
      NeverPrefix(d, p1.buf[..n]);
    }
  }

  /** A frame that begins with the marker is not rejected for its prefix. */
  lemma {:induction false} NeverPrefix(d: Dialect, raw: seq<byte>)
    requires raw != [] && raw[0] == MARKER
    ensures Decode(d, raw) != Rejected(BadPrefix)
  {
  }

  /** k more messages; an error is counted only when a bad prefix is raised. */
  predicate Counted(p: Parser, q: Parser, k: nat, last: Step) {
    && q.totalPacketsReceived == p.totalPacketsReceived + k
    && q.totalReceiveErrors == p.totalReceiveErrors + (if last == Raised(BadPrefix) then 1 else 0)
  }

  /**
   The messages before the first piece of bad data are taken out; that piece is dropped and raised; everything behind
   it is still buffered.
   */
  predicate UpToBad(d: Dialect, p: Parser, all: seq<byte>, r: Pulled) {
    var robust := Drain(d, all);
    var k := Leading(robust.messages);
    && r.out == robust.messages[..k] && Counted(p, r.p, k, r.last)
    && if k == |robust.messages| then r.last == NoMessage && r.p.buf == robust.rest && !r.p.havePrefixError
       else
         var bad := robust.messages[k];
         && bad.BadData? && (r.p.havePrefixError <==> bad.reason == BadPrefix)
         && r.last == Complaint(bad, k == 0 && p.havePrefixError)
         && Drain(d, r.p.buf) == Drained(robust.messages[k + 1..], robust.rest)
  }

  lemma {:induction false} LeadingBad(rs: seq<Received>)
    ensures Leading(rs) < |rs| ==> rs[Leading(rs)].BadData?
    decreases |rs|
  {
    if rs == [] || rs[0].BadData? {
    } else {
      LeadingBad(rs[1..]);
    }
  }

  /** The raising mode agrees with the robust mode up to the first piece of bad data. */
  lemma {:induction false} PullUpToBad(d: Dialect, p: Parser, s: seq<byte>)
    requires Ready(p) && !p.robustParsing
    ensures UpToBad(d, p, p.buf + s, Pull(d, p, s))
    ensures Pull(d, p, s).p.totalBytesReceived == p.totalBytesReceived + |s|
    decreases |p.buf| + |s|
  {
    RaisingStep(d, p, s);
    var (q, step) := ParseChar(d, p, s);
    if !step.Returned? {
    } else {
      ReturnedTakes(d, p, s);
      PullUpToBad(d, q, []);
      assert q.buf + [] == q.buf;
      UpToBadNext(d, p, p.buf + s, q, step.r, Pull(d, q, []));
    }
  }

  lemma {:induction false} UpToBadNext(d: Dialect, p: Parser, all: seq<byte>, q: Parser, r: Received, more: Pulled)
    requires PieceLength(all) > 0 && r == Piece(d, all[..PieceLength(all)]) && r.Good?
    requires q.buf == all[PieceLength(all)..] && !q.havePrefixError
    requires q.totalPacketsReceived == p.totalPacketsReceived + 1 && q.totalReceiveErrors == p.totalReceiveErrors
    requires UpToBad(d, q, q.buf, more)
    ensures UpToBad(d, p, all, Pulled(more.p, [r] + more.out, more.last))
  {
    var rest := Drain(d, q.buf).messages;
    var messages := Drain(d, all).messages;
    assert messages == [r] + rest && messages[1..] == rest;
    var k := Leading(rest);
    assert messages[..k + 1] == [r] + rest[..k];
    if k < |rest| {
      assert messages[k + 2..] == rest[k + 1..];
    }
  }

  class MavLink {
    const d: Dialect
    // sending
    var sequence: byte
    const srcSystem: byte
    const srcComponent: byte
    var file: seq<byte>
    var totalPacketsSent: nat
    var totalBytesSent: nat
    // receiving
    var buf: seq<byte>
    var expectedLength: nat
    var havePrefixError: bool
    var robustParsing: bool
    var totalPacketsReceived: nat
    var totalReceiveErrors: nat
    var totalBytesReceived: nat

    function Receiving(): Parser
      reads this
    {
      Parser(buf, expectedLength, havePrefixError, robustParsing,
             totalPacketsReceived, totalReceiveErrors, totalBytesReceived)
    }

    function Sending(): Sender
      reads this
    {
      Sender(sequence, srcSystem, srcComponent, file, totalPacketsSent, totalBytesSent)
    }

    constructor (d: Dialect, srcSystem: byte, srcComponent: byte, robust: bool)
      ensures this.d == d
      ensures Receiving() == FRESH.(robustParsing := robust)
      ensures Sending() == Sender(0, srcSystem, srcComponent, [], 0, 0)
    {
      this.d, this.srcSystem, this.srcComponent, robustParsing := d, srcSystem, srcComponent, robust;
      sequence, file, totalPacketsSent, totalBytesSent := 0, [], 0, 0;
      buf, expectedLength, havePrefixError := [], 6, false;
      totalPacketsReceived, totalReceiveErrors, totalBytesReceived := 0, 0, 0;
    }

    method SendMessage(draft: Draft)
      requires Sendable(d, draft)
      modifies this`file, this`sequence, this`totalPacketsSent, this`totalBytesSent
      ensures Sendable(d, draft) && Sending() == Send(d, old(Sending()), draft)
    {
      var packed := Encode(d, Message(draft.id, sequence, srcSystem, srcComponent, draft.fields));
      file := file + packed;
      sequence := (sequence + 1) % 255;
      totalPacketsSent := totalPacketsSent + 1;
      totalBytesSent := totalBytesSent + |packed|;
    }

    method BytesToRead() returns (n: nat)
      ensures n == BytesNeeded(Receiving())
      ensures n >= 1 && |buf| + n >= expectedLength && (n > 1 ==> |buf| + n == expectedLength)
    {
      var ret: int := expectedLength - |buf|;
      if ret <= 0 {
        return 1;
      }
      return ret;
    }

    /** The permutation loop of decode. */
    method Reorder(e: Entry, t: seq<seq<byte>>) returns (tlist: seq<seq<byte>>)
      requires |t| == Arity(e)
      ensures tlist == ArgumentFields(e, t)
    {
      tlist := t;
      for i := 0 to |t|
        invariant |tlist| == |t|
        invariant forall k :: 0 <= k < i ==> tlist[k] == ArgumentFields(e, t)[k]
      {
        TableUndoesOrder(e, i);
        tlist := tlist[i := t[e.fields.order[i]]];
      }
    }

    method DecodeFrame(msgbuf: seq<byte>) returns (r: Decoding)
      ensures r == Decode(d, msgbuf)
    {
      if |msgbuf| < 6 {
        return Rejected(ShortHeader);
      }
      var mlen, seq_, system, component, msgId := msgbuf[1], msgbuf[2], msgbuf[3], msgbuf[4], msgbuf[5];
      if msgbuf[0] != 254 {
        return Rejected(BadPrefix);
      }
      if mlen != |msgbuf| - 8 {
        return Rejected(WrongLength);
      }
      var found := d.table(msgId);
      if found.None? {
        return Rejected(UnknownId);
      }
      var e, n := found.value, |msgbuf|;
      var crc: int := msgbuf[n - 2] as int + 256 * msgbuf[n - 1] as int;
      if crc != Checksum(d, e, msgbuf[1..n - 2]) {
        return Rejected(BadCrc);
      }
      if |msgbuf[6..n - 2]| != PayloadSize(e) {
        return Rejected(BadPayload);
      }
      var tlist := Reorder(e, Unpack(e, msgbuf[6..n - 2]));
      return Decoded(Message(msgId, seq_, system, component, tlist));
    }

    method ParseBytes(c: seq<byte>) returns (step: Step)
      modifies this`buf, this`expectedLength, this`havePrefixError, this`totalPacketsReceived,
               this`totalReceiveErrors, this`totalBytesReceived
      ensures (Receiving(), step) == ParseChar(d, old(Receiving()), c)
    {
      buf := buf + c;
      totalBytesReceived := totalBytesReceived + |c|;
      if |buf| >= 1 && buf[0] != 254 {
        var magic := buf[0];
        assert buf[..1] == [magic];
        buf := buf[1..];
        if robustParsing {
          expectedLength := 6;
          totalReceiveErrors := totalReceiveErrors + 1;
          return Returned(BadData([magic], BadPrefix));
        }
        if havePrefixError {
          return NoMessage;
        }
        havePrefixError := true;
        totalReceiveErrors := totalReceiveErrors + 1;
        return Raised(BadPrefix);
      }
      havePrefixError := false;
      if |buf| >= 2 {
        expectedLength := buf[1] as int + 8;
      }
      if expectedLength >= 8 && |buf| >= expectedLength {
        step := ParseFrame();
        return;
      }
      return NoMessage;
    }

    /** Takes the complete frame at the front of the buffer. */
    method ParseFrame() returns (step: Step)
      requires 8 <= expectedLength <= |buf|
      modifies this`buf, this`expectedLength, this`totalPacketsReceived, this`totalReceiveErrors
      ensures (Receiving(), step) == TakeFrame(d, old(Receiving()))
    {
      var mbuf := buf[..expectedLength];
      buf := buf[expectedLength..];
      expectedLength := 6;
      var r := DecodeFrame(mbuf);
      match r {
        case Decoded(m) =>
          totalPacketsReceived := totalPacketsReceived + 1;
          return Returned(Good(m, mbuf));
        case Rejected(why) =>
          if robustParsing {
            totalReceiveErrors := totalReceiveErrors + 1;
            return Returned(BadData(mbuf, why));
          }
          return Raised(why);
      }
    }

    /** The drain loop ends because every returned message takes at least one byte out of the buffer. */
    method ParseBuffer(s: seq<byte>) returns (r: Parsed)
      requires Ready(Receiving())
      modifies this`buf, this`expectedLength, this`havePrefixError, this`totalPacketsReceived,
               this`totalReceiveErrors, this`totalBytesReceived
      ensures Ready(Receiving()) && robustParsing == old(robustParsing)
      ensures robustParsing ==>
        var (after, out) := Feed(d, old(Receiving()), s);
        Receiving() == after && Settled(after) && r == Listed(if out == [] then None else Some(out))
      ensures !robustParsing ==> exists out, last ::
        && UpToBad(d, old(Receiving()), old(buf) + s, Pulled(Receiving(), out, last))
        && r == if last.Raised? then Threw(last.reason) else Listed(if out == [] then None else Some(out))
    {
      ghost var p0 := Receiving();
      if robustParsing {
        PullIsFeed(d, p0, s);
      } else {
        PullUpToBad(d, p0, s);
      }
      ReadyStep(d, p0, s);
      ReturnedTakes(d, p0, s);
      var step := ParseBytes(s);
      if step.Raised? {
        return Threw(step.reason);
      }
      if step.NoMessage? {
        return Listed(None);
      }
      var out := [step.r];
      while true
        invariant Ready(Receiving()) && robustParsing == p0.robustParsing && out != []
        invariant Pulling(d, Pull(d, p0, s), out, Receiving())
        decreases |buf|
      {
        PullingNext(d, Pull(d, p0, s), out, Receiving());
        ReadyStep(d, Receiving(), []);
        step := ParseBytes([]);
        if step.Raised? {
          return Threw(step.reason);
        }
        if step.NoMessage? {
          return Listed(Some(out));
        }
        out := out + [step.r];
      }
    }
  }

  /** What parse_buffer returns or raises. */
  datatype Parsed = Listed(ret: Option<seq<Received>>) | Threw(reason: Reason)

  /** In the drain loop: `out` has been taken out, and the rest is still to come. */
  predicate Pulling(d: Dialect, all: Pulled, out: seq<Received>, p: Parser) {
    var more := Pull(d, p, []);
    all == Pulled(more.p, out + more.out, more.last)
  }

  lemma {:induction false} PullingNext(d: Dialect, all: Pulled, out: seq<Received>, p: Parser)
    requires Pulling(d, all, out, p)
    ensures var (q, step) := ParseChar(d, p, []);
      if step.Returned? then Pulling(d, all, out + [step.r], q) && |q.buf| < |p.buf|
      else all == Pulled(q, out, step)
  {
    ReturnedTakes(d, p, []);
    var (q, step) := ParseChar(d, p, []);
    if step.Returned? {
      Assoc(out, [step.r], Pull(d, q, []).out);
    } else {
      assert out + [] == out;
    }
  }
}
