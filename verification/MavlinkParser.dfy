/**
 The incremental frame parser: bytes go in, in any portions; messages and pieces of bad data come out.
 `Parser` is the value of its fields; the class below updates them in place.
 */
module MavlinkParser {
  import opened Bytes
  import opened MavlinkCodec

  datatype Parser = Parser(
    buf: seq<byte>,
    expectedLength: nat,
    havePrefixError: bool,
    robustParsing: bool,
    totalPacketsReceived: nat,
    totalReceiveErrors: nat,
    totalBytesReceived: nat)

  /** What the parser hands out: a message with the bytes it came from, or bytes it could not use. */
  datatype Received =
    | Good(m: Message, raw: seq<byte>)
    | BadData(raw: seq<byte>, reason: Reason)

  datatype Step =
    | NoMessage
    | Returned(r: Received)
    | Raised(reason: Reason)

  const INITIAL_LENGTH := 6

  // ---- one call of parse_char

  function BytesNeeded(p: Parser): nat {
    if p.expectedLength <= |p.buf| then 1 else p.expectedLength - |p.buf|
  }

  /** The first byte is not a frame marker. */
  function SkipPrefix(p: Parser): (Parser, Step)
    requires p.buf != []
  {
    var q := p.(buf := p.buf[1..]);
    if p.robustParsing then
      (q.(expectedLength := INITIAL_LENGTH, totalReceiveErrors := p.totalReceiveErrors + 1),
       Returned(BadData(p.buf[..1], BadPrefix)))
    else if p.havePrefixError then (q, NoMessage)
    else (q.(havePrefixError := true, totalReceiveErrors := p.totalReceiveErrors + 1), Raised(BadPrefix))
  }

  /** A frame of the expected length has left the buffer and was decoded. */
  function TakeDecoded(p: Parser, mbuf: seq<byte>, r: Decoding): (Parser, Step) {
    match r
    case Decoded(m) => (p.(totalPacketsReceived := p.totalPacketsReceived + 1), Returned(Good(m, mbuf)))
    case Rejected(why) =>
      if p.robustParsing then
        (p.(totalReceiveErrors := p.totalReceiveErrors + 1), Returned(BadData(mbuf, why)))
      else (p, Raised(why))
  }

  /** A frame of the expected length is in the buffer. */
  function TakeFrame(d: Dialect, p: Parser): (Parser, Step)
    requires p.expectedLength <= |p.buf|
  {
    var mbuf := p.buf[..p.expectedLength];
    TakeDecoded(p.(buf := p.buf[p.expectedLength..], expectedLength := INITIAL_LENGTH), mbuf, Decode(d, mbuf))
  }

  function ParseChar(d: Dialect, p: Parser, c: seq<byte>): (Parser, Step) {
    var p1 := p.(buf := p.buf + c, totalBytesReceived := p.totalBytesReceived + |c|);
    if |p1.buf| >= 1 && p1.buf[0] != MARKER then SkipPrefix(p1)
    else
      var p2 := p1.(havePrefixError := false,
                    expectedLength := if |p1.buf| >= 2 then p1.buf[1] as int + 8 else p1.expectedLength);
      if p2.expectedLength >= 8 && |p2.buf| >= p2.expectedLength then TakeFrame(d, p2)
      else (p2, NoMessage)
  }

  // ---- what is at the front of a byte string

  /** The length of the piece the robust parser takes off the front, or 0 when it waits for more bytes. */
  function PieceLength(buf: seq<byte>): (n: nat)
    ensures n <= |buf|
  {
    if buf == [] then 0
    else if buf[0] != MARKER then 1
    else if |buf| >= 2 && buf[1] as int + 8 <= |buf| then buf[1] as int + 8
    else 0
  }

  function Piece(d: Dialect, raw: seq<byte>): Received
    requires raw != []
  {
    if raw[0] != MARKER then BadData(raw, BadPrefix) else FromDecoding(raw, Decode(d, raw))
  }

  function FromDecoding(raw: seq<byte>, r: Decoding): Received {
    match r
    case Decoded(m) => Good(m, raw)
    case Rejected(why) => BadData(raw, why)
  }

  datatype Drained = Drained(messages: seq<Received>, rest: seq<byte>)

  /** Everything the robust parser takes out of a byte string. */
  function Drain(d: Dialect, buf: seq<byte>): Drained
    decreases |buf|
  {
    var n := PieceLength(buf);
    if n == 0 then Drained([], buf)
    else
      var r := Drain(d, buf[n..]);
      Drained([Piece(d, buf[..n])] + r.messages, r.rest)
  }

  /** The parser with the new bytes in its buffer. */
  function Filled(p: Parser, c: seq<byte>): Parser {
    p.(buf := p.buf + c, totalBytesReceived := p.totalBytesReceived + |c|)
  }

  lemma {:induction false} ParseCases(d: Dialect, p: Parser, c: seq<byte>)
    ensures var p1 := Filled(p, c);
      var n := PieceLength(p1.buf);
      && (n == 0 ==>
            ParseChar(d, p, c)
            == (p1.(havePrefixError := false,
                    expectedLength := if |p1.buf| >= 2 then p1.buf[1] as int + 8 else p1.expectedLength), NoMessage))
      && (n > 0 && p1.buf[0] != MARKER ==> ParseChar(d, p, c) == SkipPrefix(p1))
      && (n > 0 && p1.buf[0] == MARKER ==>
            var q := p1.(buf := p1.buf[n..], havePrefixError := false, expectedLength := INITIAL_LENGTH);
            ParseChar(d, p, c) == TakeDecoded(q, p1.buf[..n], Decode(d, p1.buf[..n])))
  {
  }

  /** One robust step is one piece off the front, whatever the stale expected length is. */
  lemma {:induction false} RobustStep(d: Dialect, p: Parser, c: seq<byte>)
    requires p.robustParsing
    ensures var (q, step) := ParseChar(d, p, c);
      var all := p.buf + c;
      var n := PieceLength(all);
      && q.robustParsing
      && q.totalBytesReceived == p.totalBytesReceived + |c|
      && (n == 0 ==> step == NoMessage && q.buf == all
                     && q.totalPacketsReceived == p.totalPacketsReceived
                     && q.totalReceiveErrors == p.totalReceiveErrors)
      && (n > 0 ==> step == Returned(Piece(d, all[..n])) && q.buf == all[n..] && q.expectedLength == INITIAL_LENGTH
                    && q.totalPacketsReceived == p.totalPacketsReceived + (if step.r.Good? then 1 else 0)
                    && q.totalReceiveErrors == p.totalReceiveErrors + (if step.r.Good? then 0 else 1))
  {
    ParseCases(d, p, c);
  }

  // ---- parse_buffer

  function GoodCount(rs: seq<Received>): nat {
    if rs == [] then 0 else (if rs[0].Good? then 1 else 0) + GoodCount(rs[1..])
  }

  function Expect(buf: seq<byte>): nat {
    if |buf| >= 2 then buf[1] as int + 8 else INITIAL_LENGTH
  }

  /** The parser as parse_buffer leaves it: nothing more can be taken from the buffer. */
  predicate Settled(p: Parser) {
    && p.robustParsing && !p.havePrefixError
    && PieceLength(p.buf) == 0
    && p.expectedLength == Expect(p.buf)
  }

  const FRESH := Parser([], INITIAL_LENGTH, false, true, 0, 0, 0)

  /** The parser after taking some messages off the front of what it holds and gets. */
  function After(p: Parser, s: seq<byte>, taken: seq<Received>, rest: seq<byte>): Parser {
    GoodCountBound(taken);
    Parser(rest, Expect(rest), false, true,
           p.totalPacketsReceived + GoodCount(taken),
           p.totalReceiveErrors + (|taken| - GoodCount(taken)),
           p.totalBytesReceived + |s|)
  }

  lemma {:induction false} GoodCountBound(rs: seq<Received>)
    ensures GoodCount(rs) <= |rs|
    decreases |rs|
  {
    if rs == [] {
    } else {
      GoodCountBound(rs[1..]);
    }
  }

  lemma {:induction false} GoodCountAppend(a: seq<Received>, b: seq<Received>)
    ensures GoodCount(a + b) == GoodCount(a) + GoodCount(b)
  {
    if a == [] {
      assert a + b == b;
    } else {
      assert (a + b)[0] == a[0] && (a + b)[1..] == a[1..] + b;
      GoodCountAppend(a[1..], b);
    }
  }

  function Feed(d: Dialect, p: Parser, s: seq<byte>): (Parser, seq<Received>) {
    var r := Drain(d, p.buf + s);
    (After(p, s, r.messages, r.rest), r.messages)
  }

  lemma {:induction false} DrainSettles(d: Dialect, buf: seq<byte>)
    ensures PieceLength(Drain(d, buf).rest) == 0
    decreases |buf|
  {
    var n := PieceLength(buf);
    if n == 0 {
    } else {
      DrainSettles(d, buf[n..]);
    }
  }

  /** More bytes behind a piece do not change it. */
  lemma {:induction false} PieceStable(a: seq<byte>, b: seq<byte>)
    requires PieceLength(a) > 0
    ensures PieceLength(a + b) == PieceLength(a)
    ensures (a + b)[..PieceLength(a)] == a[..PieceLength(a)]
    ensures (a + b)[PieceLength(a)..] == a[PieceLength(a)..] + b
  {
  }

  /** Draining a ++ b is draining a, then draining its rest ++ b. */
  lemma {:induction false} DrainAppend(d: Dialect, a: seq<byte>, b: seq<byte>)
    ensures Drain(d, a + b).messages == Drain(d, a).messages + Drain(d, Drain(d, a).rest + b).messages
    ensures Drain(d, a + b).rest == Drain(d, Drain(d, a).rest + b).rest
    decreases |a|
  {
    var n := PieceLength(a);
    if n == 0 {
    } else {
      PieceStable(a, b);
      DrainAppend(d, a[n..], b);
      Assoc([Piece(d, a[..n])], Drain(d, a[n..]).messages, Drain(d, Drain(d, a).rest + b).messages);
    }
  }

  function FeedAll(d: Dialect, p: Parser, chunks: seq<seq<byte>>): (Parser, seq<Received>)
    decreases |chunks|
  {
    if chunks == [] then (p, [])
    else
      var (p1, out) := FeedAll(d, p, chunks[..|chunks| - 1]);
      var (p2, more) := Feed(d, p1, chunks[|chunks| - 1]);
      (p2, out + more)
  }

  lemma {:induction false} FeedTwice(d: Dialect, p: Parser, a: seq<byte>, b: seq<byte>)
    ensures var (p1, out) := Feed(d, p, a);
      var (p2, more) := Feed(d, p1, b);
      Feed(d, p, a + b) == (p2, out + more)
  {
    Assoc(p.buf, a, b);
    DrainAppend(d, p.buf + a, b);
    var r := Drain(d, p.buf + a);
    var r2 := Drain(d, r.rest + b);
    AfterTwice(p, a, r.messages, r.rest, b, r2.messages, r2.rest);
  }

  lemma {:induction false} AfterTwice(p: Parser, a: seq<byte>, out: seq<Received>, mid: seq<byte>,
                                      b: seq<byte>, more: seq<Received>, rest: seq<byte>)
    ensures After(After(p, a, out, mid), b, more, rest) == After(p, a + b, out + more, rest)
  {
    GoodCountAppend(out, more);
    GoodCountBound(out);
    GoodCountBound(more);
  }

  /** Feeding a byte stream in any portions gives the same messages and the same parser as feeding it whole. */
  lemma {:induction false} ChunkingIndependence(d: Dialect, p: Parser, chunks: seq<seq<byte>>)
    requires Settled(p)
    ensures FeedAll(d, p, chunks) == Feed(d, p, Flat(chunks))
    decreases |chunks|
  {
    if chunks == [] {
      assert p.buf + [] == p.buf;
    } else {
      var front, last := chunks[..|chunks| - 1], chunks[|chunks| - 1];
      ChunkingIndependence(d, p, front);
      assert chunks == front + [last];
      FlatSnoc(front, last);
      FeedTwice(d, p, Flat(front), last);
    }
  }

  // ---- runs of parse_char

  datatype Progress = Progress(p: Parser, out: seq<Received>)

  /** Robust parse_char calls, one per portion; a robust call never raises. */
  function Calls(d: Dialect, p: Parser, inputs: seq<seq<byte>>): Progress
    decreases |inputs|
  {
    if inputs == [] then Progress(p, [])
    else
      var before := Calls(d, p, inputs[..|inputs| - 1]);
      var (q, step) := ParseChar(d, before.p, inputs[|inputs| - 1]);
      Progress(q, if step.Returned? then before.out + [step.r] else before.out)
  }

  function Raws(rs: seq<Received>): seq<byte> {
    if rs == [] then [] else Raws(rs[..|rs| - 1]) + rs[|rs| - 1].raw
  }

  /** At every point of every run no byte is lost or made up, and every returned message is counted once. */
  lemma {:induction false} Conservation(d: Dialect, p: Parser, inputs: seq<seq<byte>>)
    requires p.robustParsing
    ensures var r := Calls(d, p, inputs);
      && r.p.robustParsing
      && Raws(r.out) + r.p.buf == p.buf + Flat(inputs)
      && r.p.totalPacketsReceived + r.p.totalReceiveErrors
         == p.totalPacketsReceived + p.totalReceiveErrors + |r.out|
      && r.p.totalBytesReceived == p.totalBytesReceived + |Flat(inputs)|
    decreases |inputs|
  {
    if inputs == [] {
      assert Raws([]) + p.buf == p.buf + Flat(inputs);
    } else {
      var front, c := inputs[..|inputs| - 1], inputs[|inputs| - 1];
      Conservation(d, p, front);
      assert inputs == front + [c];
      FlatSnoc(front, c);
      var before := Calls(d, p, front);
      RobustStep(d, before.p, c);
      ConservationStep(d, before, c, p.buf + Flat(front));
      Assoc(p.buf, Flat(front), c);
    }
  }

  lemma {:induction false} ConservationStep(d: Dialect, before: Progress, c: seq<byte>, all: seq<byte>)
    requires before.p.robustParsing && Raws(before.out) + before.p.buf == all
    ensures var (q, step) := ParseChar(d, before.p, c);
      Raws(if step.Returned? then before.out + [step.r] else before.out) + q.buf == all + c
  {
    RobustStep(d, before.p, c);
    var (q, step) := ParseChar(d, before.p, c);
    Assoc(Raws(before.out), before.p.buf, c);
    if step.Returned? {
      RawsSnoc(before.out, step.r, before.p.buf + c, PieceLength(before.p.buf + c));
    }
  }

  lemma {:induction false} RawsSnoc(out: seq<Received>, r: Received, held: seq<byte>, n: nat)
    requires n <= |held| && r.raw == held[..n]
    ensures Raws(out + [r]) + held[n..] == Raws(out) + held
  {
    assert (out + [r])[..|out|] == out;
    assert held == held[..n] + held[n..];
    Assoc(Raws(out), held[..n], held[n..]);
  }

  // ---- a reader that asks how much to supply

  /** Nothing is buffered beyond the frame being read. */
  predicate Paced(p: Parser) {
    && p.robustParsing
    && (|| (|p.buf| < INITIAL_LENGTH && p.expectedLength == INITIAL_LENGTH)
        || (|p.buf| >= 2 && p.buf[0] == MARKER && p.expectedLength == p.buf[1] as int + 8 && |p.buf| < p.expectedLength))
  }

  lemma {:induction false} PacedStep(d: Dialect, p: Parser, c: seq<byte>)
    requires Paced(p) && |c| <= BytesNeeded(p)
    ensures var (q, step) := ParseChar(d, p, c);
      && Paced(q)
      && (step.Returned? && step.r.raw[..1] == [MARKER] ==> q.buf == [])
  {
  }

  /** Every portion is at most what the parser asked for at that moment. */
  predicate Obliging(d: Dialect, p: Parser, inputs: seq<seq<byte>>) {
    forall t :: 0 <= t < |inputs| ==> |inputs[t]| <= BytesNeeded(Calls(d, p, inputs[..t]).p)
  }

  /** Whenever a frame reaches decode, the buffer behind it is empty, even after junk. */
  lemma {:induction false} NoOvershoot(d: Dialect, inputs: seq<seq<byte>>)
    requires Obliging(d, FRESH, inputs)
    ensures Paced(Calls(d, FRESH, inputs).p)
    ensures inputs != [] ==>
      var (q, step) := ParseChar(d, Calls(d, FRESH, inputs[..|inputs| - 1]).p, inputs[|inputs| - 1]);
      step.Returned? && step.r.raw[..1] == [MARKER] ==> q.buf == []
    decreases |inputs|
  {
    if inputs == [] {
    } else {
      var n := |inputs| - 1;
      var front := inputs[..n];
      assert forall t :: 0 <= t < n ==> front[t] == inputs[t] && front[..t] == inputs[..t];
      NoOvershoot(d, front);
      PacedStep(d, Calls(d, FRESH, front).p, inputs[n]);
    }
  }

  /** From an empty buffer, two reads of exactly the size asked for bring in one frame: six bytes, and the rest of it. */
  lemma {:induction false} TwoReads(d: Dialect, p: Parser, a: seq<byte>, b: seq<byte>)
    requires p.robustParsing && p.buf == [] && p.expectedLength == INITIAL_LENGTH
    requires |a| == BytesNeeded(p) && |b| == BytesNeeded(ParseChar(d, p, a).0) && a != [] && a[0] == MARKER
    ensures |a| == 6 && |b| == a[1] as int + 2
    ensures ParseChar(d, p, a).1 == NoMessage
    ensures var (q, step) := ParseChar(d, ParseChar(d, p, a).0, b);
      step == Returned(Piece(d, a + b)) && q.buf == []
  {
    ParseCases(d, p, a);
    assert [] + a == a;
    var p1 := ParseChar(d, p, a).0;
    RobustStep(d, p1, b);
    assert (a + b)[..|a + b|] == a + b;
  }
}
