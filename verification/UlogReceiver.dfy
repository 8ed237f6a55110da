/**
 The ground-side receiver: packet intake, sequence check and reassembly into a log file.
 `Session` is the value of all its fields; the class below updates them in place.
 */
module UlogReceiver {
  import opened Bytes
  import opened Collections
  import opened UlogFormat
  import opened UlogSequence

  const HEADER_LENGTH := 16
  const NO_MESSAGE_START: byte := 255
  const MAX_DROPS_REPORTED := 25

  datatype Command = LoggingStart | LoggingStop | OtherCommand

  datatype Packet =
    | CommandAck(command: Command, result: nat)
    | LoggingData(acked: bool, sequence: u16, data: seq<byte>, firstMessageOffset: byte)

  datatype Session = Session(
    gotUlogHeader: bool,
    gotHeaderSection: bool,
    ulogMessage: seq<byte>,
    file: seq<byte>,
    lastSequence: int,
    loggingStarted: bool,
    numDropouts: nat,
    acksSent: seq<u16>)
  {
    predicate Valid() {
      -1 <= lastSequence < MODULUS
    }
  }

  const INITIAL := Session(false, false, [], [], -1, false, 0, [])

  datatype Stop = StartFailed(result: nat) | FirstMessageTooShort | LoggingCompleted | StartTimedOut

  datatype Outcome =
    | Continue(s: Session)
    | Stopped(s: Session, why: Stop)

  // ---- process_streamed_ulog_data

  /** Type `O`, and the milliseconds as a 16-bit word: ten for each lost chunk, up to 250. */
  function DropoutRecord(drops: nat): (r: seq<byte>)
    ensures WholeMessage(r)
    ensures var ms := 10 * if drops < 25 then drops else 25;
      r == Framed('O' as int, [ms % 256, ms / 256])
  {
    [2, 0, 79, (if drops > MAX_DROPS_REPORTED then MAX_DROPS_REPORTED else drops) * 10, 0]
  }

  /** The first received bytes are the file header. */
  function TakeHeader(s: Session, data: seq<byte>): (Session, seq<byte>)
    requires s.gotUlogHeader || |data| >= HEADER_LENGTH
  {
    if s.gotUlogHeader then (s, data)
    else (s.(file := s.file + data[..HEADER_LENGTH], gotUlogHeader := true), data[HEADER_LENGTH..])
  }

  /** A gap: note it in the file, write what is whole in the carry-over buffer, forget the rest. */
  function CloseGap(s: Session, drops: nat): Session
    requires drops > 0
  {
    var noted := if s.gotHeaderSection then s.file + DropoutRecord(drops) else s.file;
    s.(file := noted + Flat(Split(s.ulogMessage).messages), ulogMessage := [])
  }

  /** One chunk that follows the previous one without a gap. */
  function Absorb(s: Session, data: seq<byte>, first: byte): Session {
    if first == NO_MESSAGE_START && s.ulogMessage != [] then
      s.(ulogMessage := s.ulogMessage + data)
    else
      var joined := if s.ulogMessage != [] then s.file + (s.ulogMessage + Take(data, first)) else s.file;
      var p := Split(Drop(data, first));
      s.(file := joined + Flat(p.messages), ulogMessage := p.rest)
  }

  function Process(s: Session, data: seq<byte>, first: byte, drops: nat): Session
    requires s.gotUlogHeader || |data| >= HEADER_LENGTH
  {
    var (s1, body) := TakeHeader(s, data);
    if drops == 0 then Absorb(s1, body, first)
    else if first == NO_MESSAGE_START then CloseGap(s1, drops)
    else Absorb(CloseGap(s1, drops), Drop(body, first), 0)
  }

  /** After a gap, resuming at the first message start is absorbing the chunk with an empty buffer. */
  lemma {:induction false} ResumeAfterGap(s: Session, data: seq<byte>, first: byte, drops: nat)
    requires s.gotUlogHeader && |data| < 255 && drops > 0
    ensures Process(s, data, first, drops) == Absorb(CloseGap(s, drops), data, first)
  {
  }

  // ---- read_message

  datatype ReadResult =
    | Nothing
    | Chunk(data: seq<byte>, first: byte, drops: nat)
    | Raised(why: Stop)

  function Accept(s: Session, acked: bool, sequence: u16, drops: nat): Session {
    s.(numDropouts := s.numDropouts + drops,
       loggingStarted := s.loggingStarted || (!acked && !s.gotHeaderSection),
       gotHeaderSection := s.gotHeaderSection || !acked,
       lastSequence := sequence)
  }

  function Read(s: Session, p: Packet): (Session, ReadResult)
    requires s.Valid()
  {
    match p
    case CommandAck(command, result) =>
      if command.LoggingStart? && !s.gotHeaderSection then
        if result == 0 then (s.(loggingStarted := true), Nothing) else (s, Raised(StartFailed(result)))
      else if command.LoggingStop? && result == 0 then (s, Raised(LoggingCompleted))
      else (s, Nothing)
    case LoggingData(acked, sequence, data, first) =>
      var v := CheckSequence(s.lastSequence, sequence);
      var s1 := if acked then s.(acksSent := s.acksSent + [sequence]) else s;
      if v.newer then (Accept(s1, acked, sequence, v.drops), Chunk(data, first, v.drops))
      else (s1, Nothing)
  }

  /** One turn of the main loop on one received packet. */
  function Receive(s: Session, p: Packet): Outcome
    requires s.Valid()
  {
    var (s1, r) := Read(s, p);
    match r
    case Nothing => Continue(s1)
    case Raised(why) => Stopped(s1, why)
    case Chunk(data, first, drops) =>
      if s1.gotUlogHeader || |data| >= HEADER_LENGTH then Continue(Process(s1, data, first, drops))
      else Stopped(s1, FirstMessageTooShort)
  }

  lemma {:induction false} ReceiveKeepsValid(s: Session, p: Packet)
    requires s.Valid()
    ensures Receive(s, p).s.Valid()
  {
  }

  function Run(s: Session, packets: seq<Packet>): (o: Outcome)
    requires s.Valid()
    ensures o.s.Valid()
    decreases |packets|
  {
    if packets == [] then Continue(s)
    else
      var o := Run(s, packets[..|packets| - 1]);
      if o.Stopped? then o
      else
        ReceiveKeepsValid(o.s, packets[|packets| - 1]);
        Receive(o.s, packets[|packets| - 1])
  }

  // ---- the main loop

  /** One turn of the main loop: the packet read, if any, and whether the start is more than four seconds ago by then. */
  datatype Turn = Turn(packet: Option<Packet>, late: bool)

  function TakeTurn(s: Session, t: Turn): Outcome
    requires s.Valid()
  {
    var o := if t.packet.None? then Continue(s) else Receive(s, t.packet.value);
    if o.Continue? && t.late && !o.s.loggingStarted then Stopped(o.s, StartTimedOut) else o
  }

  function RunTurns(s: Session, turns: seq<Turn>): (o: Outcome)
    requires s.Valid()
    ensures o.s.Valid()
    decreases |turns|
  {
    if turns == [] then Continue(s)
    else
      var o, t := RunTurns(s, turns[..|turns| - 1]), turns[|turns| - 1];
      if o.Stopped? then o
      else
        if t.packet.Some? then ReceiveKeepsValid(o.s, t.packet.value); TakeTurn(o.s, t) else TakeTurn(o.s, t)
  }

  // ---- the object

  class MavlinkLogStreaming {
    var gotUlogHeader: bool
    var gotHeaderSection: bool
    var ulogMessage: seq<byte>
    var file: seq<byte>
    var lastSequence: int
    var loggingStarted: bool
    var numDropouts: nat
    var acksSent: seq<u16>

    function Value(): Session
      reads this
    {
      Session(gotUlogHeader, gotHeaderSection, ulogMessage, file, lastSequence, loggingStarted, numDropouts, acksSent)
    }

    constructor ()
      ensures Value() == INITIAL
    {
      gotUlogHeader, gotHeaderSection, ulogMessage, file := false, false, [], [];
      lastSequence, loggingStarted, numDropouts, acksSent := -1, false, 0, [];
    }

    method WriteUlogMessages(data: seq<byte>) returns (rest: seq<byte>)
      modifies this`file
      ensures file == old(file) + Flat(Split(data).messages)
      ensures rest == Split(data).rest
    {
      rest := data;
      while |rest| > 2
        invariant file + Flat(Split(rest).messages) == old(file) + Flat(Split(data).messages)
        invariant Split(rest).rest == Split(data).rest
        decreases |rest|
      {
        var messageLength := rest[0] as int + rest[1] as int * 256 + 3;
        if messageLength > |rest| {
          break;
        }
        FlatSplitStep(rest);
        assert (file + rest[..messageLength]) + Flat(Split(rest[messageLength..]).messages)
            == file + (rest[..messageLength] + Flat(Split(rest[messageLength..]).messages));
        file := file + rest[..messageLength];
        rest := rest[messageLength..];
      }
      assert file + [] == file;
    }

    method ProcessStreamedUlogData(chunk: seq<byte>, firstMsgStart: byte, drops: nat) returns (ok: bool)
      modifies this
      ensures ok <==> old(gotUlogHeader) || |chunk| >= HEADER_LENGTH
      ensures ok ==> Value() == Process(old(Value()), chunk, firstMsgStart, drops)
      ensures !ok ==> Value() == old(Value())
    {
      var data, first := chunk, firstMsgStart;
      var numDrops: nat := drops;
      if !gotUlogHeader {
        if |data| < 16 {
          return false;
        }
        file := file + data[0..16];
        data := data[16..];
        gotUlogHeader := true;
      }
      ghost var s1 := Value();

      if gotHeaderSection && numDrops > 0 {
        if numDrops > 25 {
          numDrops := 25;
        }
        file := file + [2, 0, 79, numDrops * 10, 0];
      }

      if numDrops > 0 {
        var _ := WriteUlogMessages(ulogMessage);
        ulogMessage := [];
        assert Value() == CloseGap(s1, drops);
        if first == 255 {
          return true;
        }
        data := Drop(data, first);
        first := 0;
      }

      if first == 255 && |ulogMessage| > 0 {
        ulogMessage := ulogMessage + data;
        return true;
      }
      ghost var s2 := Value();

      if |ulogMessage| > 0 {
        file := file + (ulogMessage + Take(data, first));
        ulogMessage := [];
      }
      data := WriteUlogMessages(Drop(data, first));
      ulogMessage := data;
      return true;
    }

    method ReadMessage(p: Packet) returns (r: ReadResult)
      requires Value().Valid()
      modifies this
      ensures (Value(), r) == Read(old(Value()), p)
    {
      match p {
        case CommandAck(command, result) =>
          if command.LoggingStart? && !gotHeaderSection {
            if result == 0 {
              loggingStarted := true;
            } else {
              return Raised(StartFailed(result));
            }
          } else if command.LoggingStop? && result == 0 {
            return Raised(LoggingCompleted);
          }
          return Nothing;
        case LoggingData(acked, sequence, data, first) =>
          var v := CheckSequence(lastSequence, sequence);
          if acked {
            acksSent := acksSent + [sequence];
          }
          if v.newer {
            if v.drops > 0 {
              numDropouts := numDropouts + v.drops;
            }
            if !acked {
              if !gotHeaderSection {
                loggingStarted := true;
                gotHeaderSection := true;
              }
            }
            lastSequence := sequence;
            return Chunk(data, first, v.drops);
          }
          return Nothing;
      }
    }

    /** The main loop, until a turn ends the session. */
    method ReadMessages(turns: seq<Turn>) returns (o: Outcome)
      requires Value().Valid()
      modifies this
      ensures o == RunTurns(old(Value()), turns)
      ensures Value() == o.s
    {
      o := Continue(Value());
      var i := 0;
      while i < |turns|
        invariant 0 <= i <= |turns|
        invariant o == RunTurns(old(Value()), turns[..i]) && o.Continue? && o.s == Value()
      {
        ghost var before := Value();
        assert turns[..i + 1][..i] == turns[..i];
        o := OneTurn(turns[i]);
        assert o == RunTurns(old(Value()), turns[..i + 1]);
        if o.Stopped? {
          StoppedStays(old(Value()), turns, i + 1);
          return;
        }
        i := i + 1;
      }
      assert turns[..|turns|] == turns;
    }

    /** The body of the main loop. */
    method OneTurn(t: Turn) returns (o: Outcome)
      requires Value().Valid()
      modifies this
      ensures o == TakeTurn(old(Value()), t) && Value() == o.s
    {
      if t.packet.Some? {
        var r := ReadMessage(t.packet.value);
        if r.Raised? {
          return Stopped(Value(), r.why);
        }
        if r.Chunk? {
          var ok := ProcessStreamedUlogData(r.data, r.first, r.drops);
          if !ok {
            return Stopped(Value(), FirstMessageTooShort);
          }
        }
      }
      if !loggingStarted && t.late {
        return Stopped(Value(), StartTimedOut);
      }
      return Continue(Value());
    }
  }

  lemma {:induction false} StoppedStays(s: Session, turns: seq<Turn>, i: nat)
    requires s.Valid() && i <= |turns| && RunTurns(s, turns[..i]).Stopped?
    ensures RunTurns(s, turns) == RunTurns(s, turns[..i])
    decreases |turns|
  {
    if i == |turns| {
      assert turns[..i] == turns;
    } else {
      var prefix := turns[..|turns| - 1];
      assert prefix[..i] == turns[..i];
      StoppedStays(s, prefix, i);
    }
  }
}
