/**
 Complete sessions of the receiver: command acknowledgements, turns without a packet and the start time-out
 interleaved with the data packets.
 */
module UlogTurns {
  import opened Bytes
  import opened Collections
  import opened UlogReceiver

  /** The data packets of the turns, in order. */
  function DataOf(turns: seq<Turn>): seq<Packet> {
    if turns == [] then []
    else
      var last := turns[|turns| - 1].packet;
      DataOf(turns[..|turns| - 1]) + (if last.Some? && last.value.LoggingData? then [last.value] else [])
  }

  const STARTED := Some(CommandAck(LoggingStart, 0))
  const COMPLETED := Some(CommandAck(LoggingStop, 0))

  predicate Refusal(p: Option<Packet>) {
    p.Some? && p.value.CommandAck? && p.value.command.LoggingStart? && p.value.result != 0
  }

  /** The data packets alone have shown that the header section is over. */
  ghost predicate HeaderSeen(turns: seq<Turn>) {
    Run(INITIAL, DataOf(turns)).s.gotHeaderSection
  }

  /** The start was acknowledged, or has shown itself in the data. */
  ghost predicate StartSeen(turns: seq<Turn>) {
    HeaderSeen(turns) || exists j :: 0 <= j < |turns| && turns[j].packet == STARTED
  }

  /** Turn t neither accepts a stop, nor refuses the start too early, nor times out. */
  ghost predicate Quiet(turns: seq<Turn>, t: nat)
    requires t < |turns|
  {
    && turns[t].packet != COMPLETED
    && (Refusal(turns[t].packet) ==> HeaderSeen(turns[..t]))
    && (turns[t].late ==> StartSeen(turns[..t + 1]))
  }

  ghost predicate Undisturbed(turns: seq<Turn>) {
    forall t :: 0 <= t < |turns| ==> Quiet(turns, t)
  }

  /** Equal but for the flag that acknowledgements set. */
  predicate Same(s: Session, d: Session) {
    s == d.(loggingStarted := s.loggingStarted)
  }

  // ---- one turn

  lemma {:induction false} ReceiveSame(s: Session, d: Session, p: Packet)
    requires s.Valid() && d.Valid() && p.LoggingData? && Same(s, d) && (s.gotHeaderSection ==> s.loggingStarted)
    requires Receive(d, p).Continue?
    ensures Receive(s, p).Continue? && Same(Receive(s, p).s, Receive(d, p).s)
    ensures Receive(s, p).s.loggingStarted == (s.loggingStarted || Receive(d, p).s.gotHeaderSection)
    ensures d.gotHeaderSection ==> Receive(d, p).s.gotHeaderSection
  {
    ReadSame(s, d, p);
    var (s1, r) := Read(s, p);
    var (d1, _) := Read(d, p);
    if r.Chunk? {
      ProcessSame(s1, d1, r.data, r.first, r.drops);
    }
  }

  lemma {:induction false} ReadSame(s: Session, d: Session, p: Packet)
    requires s.Valid() && d.Valid() && p.LoggingData? && Same(s, d) && (s.gotHeaderSection ==> s.loggingStarted)
    ensures Read(s, p).1 == Read(d, p).1 && !Read(s, p).1.Raised? && Same(Read(s, p).0, Read(d, p).0)
    ensures Read(s, p).0.loggingStarted == (s.loggingStarted || Read(d, p).0.gotHeaderSection)
    ensures d.gotHeaderSection ==> Read(d, p).0.gotHeaderSection
  {
  }

  lemma {:induction false} ProcessSame(s: Session, d: Session, data: seq<byte>, first: byte, drops: nat)
    requires Same(s, d) && (s.gotUlogHeader || |data| >= HEADER_LENGTH)
    ensures Same(Process(s, data, first, drops), Process(d, data, first, drops))
    ensures Process(s, data, first, drops).loggingStarted == s.loggingStarted
    ensures Process(d, data, first, drops).gotHeaderSection == d.gotHeaderSection
  {
    AbsorbSame(TakeHeader(s, data).0, TakeHeader(d, data).0, TakeHeader(d, data).1, first);
    if drops > 0 {
      var s1, d1 := CloseGap(TakeHeader(s, data).0, drops), CloseGap(TakeHeader(d, data).0, drops);
      AbsorbSame(s1, d1, Drop(TakeHeader(d, data).1, first), 0);
    }
  }

  lemma {:induction false} AbsorbSame(s: Session, d: Session, data: seq<byte>, first: byte)
    requires Same(s, d)
    ensures Same(Absorb(s, data, first), Absorb(d, data, first))
    ensures Absorb(s, data, first).loggingStarted == s.loggingStarted
    ensures Absorb(d, data, first).gotHeaderSection == d.gotHeaderSection
  {
  }

  lemma {:induction false} AckSame(s: Session, p: Packet)
    requires s.Valid() && p.CommandAck? && (s.gotHeaderSection ==> s.loggingStarted)
    ensures Receive(s, p).Continue? <==> Some(p) != COMPLETED && (Refusal(Some(p)) ==> s.gotHeaderSection)
    ensures Receive(s, p).Continue? ==> Same(Receive(s, p).s, s)
    ensures Receive(s, p).Continue? ==> Receive(s, p).s.loggingStarted == (s.loggingStarted || Some(p) == STARTED)
  {
  }

  lemma {:induction false} UndisturbedFront(turns: seq<Turn>)
    requires turns != []
    ensures var n := |turns| - 1;
      Undisturbed(turns) <==> Undisturbed(turns[..n]) && Quiet(turns, n)
  {
    var n := |turns| - 1;
    var front := turns[..n];
    forall t | 0 <= t < n ensures Quiet(front, t) <==> Quiet(turns, t) {
      assert front[..t] == turns[..t] && front[..t + 1] == turns[..t + 1] && front[t] == turns[t];
    }
  }

  lemma {:induction false} StartSeenNext(turns: seq<Turn>)
    requires turns != [] && (HeaderSeen(turns[..|turns| - 1]) ==> HeaderSeen(turns))
    ensures var n := |turns| - 1;
      StartSeen(turns) <==> StartSeen(turns[..n]) || HeaderSeen(turns) || turns[n].packet == STARTED
  {
    var n := |turns| - 1;
    assert forall j :: 0 <= j < n ==> turns[..n][j] == turns[j];
  }

  // ---- whole sessions

  /** The turns have done what their data packets alone would do. */
  ghost predicate FollowsData(turns: seq<Turn>) {
    exists s, d :: Follows(turns, s, d)
  }

  ghost predicate Follows(turns: seq<Turn>, s: Session, d: Session) {
    && RunTurns(INITIAL, turns) == Continue(s) && Run(INITIAL, DataOf(turns)) == Continue(d)
    && Same(s, d) && s.loggingStarted == StartSeen(turns)
  }

  lemma {:induction false} NextTurn(turns: seq<Turn>)
    requires turns != [] && FollowsData(turns[..|turns| - 1]) && Run(INITIAL, DataOf(turns)).Continue?
    ensures if Quiet(turns, |turns| - 1) then FollowsData(turns) else RunTurns(INITIAL, turns).Stopped?
  {
    var n := |turns| - 1;
    if turns[n].packet.Some? && turns[n].packet.value.LoggingData? {
      QuietData(turns);
      NextData(turns, turns[n].packet.value);
    } else {
      NextOther(turns);
    }
  }

  lemma {:induction false} QuietData(turns: seq<Turn>)
    requires turns != [] && turns[|turns| - 1].packet.Some? && turns[|turns| - 1].packet.value.LoggingData?
    ensures Quiet(turns, |turns| - 1) <==> (turns[|turns| - 1].late ==> StartSeen(turns))
  {
    assert turns[..|turns|] == turns;
  }

  lemma {:induction false} NextData(turns: seq<Turn>, p: Packet)
    requires turns != [] && FollowsData(turns[..|turns| - 1]) && Run(INITIAL, DataOf(turns)).Continue?
    requires p.LoggingData? && turns[|turns| - 1].packet == Some(p)
    ensures if turns[|turns| - 1].late ==> StartSeen(turns) then FollowsData(turns)
            else RunTurns(INITIAL, turns).Stopped?
  {
    var front, t := turns[..|turns| - 1], turns[|turns| - 1];
    var s, d :| Follows(front, s, d);
    assert DataOf(turns)[..|DataOf(front)|] == DataOf(front);
    var d' := Run(INITIAL, DataOf(turns)).s;
    assert Receive(d, p) == Continue(d');
    var s' := DataTurn(s, d, t, p, d');
    StartSeenNext(turns);
    assert RunTurns(INITIAL, turns) == TakeTurn(s, t);
    if t.late ==> StartSeen(turns) {
      assert Follows(turns, s', d');
    }
  }

  lemma {:induction false} DataTurn(s: Session, d: Session, t: Turn, p: Packet, d': Session) returns (s': Session)
    requires s.Valid() && d.Valid() && p.LoggingData? && t.packet == Some(p) && Receive(d, p) == Continue(d')
    requires Same(s, d) && (s.gotHeaderSection ==> s.loggingStarted)
    ensures Same(s', d') && s'.loggingStarted == (s.loggingStarted || d'.gotHeaderSection)
    ensures d.gotHeaderSection ==> d'.gotHeaderSection
    ensures TakeTurn(s, t) == if t.late && !s'.loggingStarted then Stopped(s', StartTimedOut) else Continue(s')
  {
    ReceiveSame(s, d, p);
    s' := Receive(s, p).s;
  }

  lemma {:induction false} NextOther(turns: seq<Turn>)
    requires turns != [] && FollowsData(turns[..|turns| - 1])
    requires turns[|turns| - 1].packet.Some? ==> turns[|turns| - 1].packet.value.CommandAck?
    ensures if Quiet(turns, |turns| - 1) then FollowsData(turns) else RunTurns(INITIAL, turns).Stopped?
  {
    var n := |turns| - 1;
    var front, t := turns[..n], turns[n];
    assert turns[..n + 1] == turns && DataOf(turns) == DataOf(front);
    var s, d :| Follows(front, s, d);
    var s' := OtherTurn(s, t);
    StartSeenNext(turns);
    assert RunTurns(INITIAL, turns) == TakeTurn(s, t);
    if Quiet(turns, n) {
      assert Follows(turns, s', d);
    }
  }

  lemma {:induction false} OtherTurn(s: Session, t: Turn) returns (s': Session)
    requires s.Valid() && (t.packet.Some? ==> t.packet.value.CommandAck?) && (s.gotHeaderSection ==> s.loggingStarted)
    ensures Same(s', s)
    ensures if && t.packet != COMPLETED && (Refusal(t.packet) ==> s.gotHeaderSection)
               && (t.late ==> s.loggingStarted || t.packet == STARTED)
            then TakeTurn(s, t) == Continue(s') && s'.loggingStarted == (s.loggingStarted || t.packet == STARTED)
            else TakeTurn(s, t).Stopped?
  {
    s' := s;
    if t.packet.Some? {
      AckSame(s, t.packet.value);
      if Receive(s, t.packet.value).Continue? {
        s' := Receive(s, t.packet.value).s;
      }
    }
  }

  /**
   As long as the data packets alone do not end the session, the turns end it exactly when one of them accepts
   a stop, refuses the start before the header section is over, or finds the start overdue; until then the receiver
   is where its data packets alone would have brought it.
   */
  lemma {:induction false} TurnsTheorem(turns: seq<Turn>)
    requires Run(INITIAL, DataOf(turns)).Continue?
    ensures RunTurns(INITIAL, turns).Continue? <==> Undisturbed(turns)
    ensures Undisturbed(turns) ==> FollowsData(turns)
    decreases |turns|
  {
    if turns == [] {
      assert Follows([], INITIAL, INITIAL);
    } else {
      var front := turns[..|turns| - 1];
      if DataOf(turns) != DataOf(front) {
        assert DataOf(turns)[..|DataOf(front)|] == DataOf(front);
      }
      TurnsTheorem(front);
      UndisturbedFront(turns);
      if Undisturbed(front) {
        NextTurn(turns);
      }
    }
  }

  /** Why a turn that is not quiet ends the session. */
  ghost function Reason(turns: seq<Turn>): Stop
    requires turns != []
  {
    var t := turns[|turns| - 1];
    if t.packet == COMPLETED then LoggingCompleted
    else if Refusal(t.packet) && !HeaderSeen(turns[..|turns| - 1]) then StartFailed(t.packet.value.result)
    else StartTimedOut
  }

  lemma {:induction false} OtherReason(s: Session, t: Turn)
    requires s.Valid() && (t.packet.Some? ==> t.packet.value.CommandAck?) && TakeTurn(s, t).Stopped?
    ensures TakeTurn(s, t).why ==
      if t.packet == COMPLETED then LoggingCompleted
      else if Refusal(t.packet) && !s.gotHeaderSection then StartFailed(t.packet.value.result)
      else StartTimedOut
    ensures Same(TakeTurn(s, t).s, s)
  {
  }

  /** The first turn that is not quiet ends the session, for its own reason. */
  lemma {:induction false} EndTheorem(turns: seq<Turn>)
    requires turns != [] && Run(INITIAL, DataOf(turns)).Continue?
    requires Undisturbed(turns[..|turns| - 1]) && !Quiet(turns, |turns| - 1)
    ensures RunTurns(INITIAL, turns).Stopped? && RunTurns(INITIAL, turns).why == Reason(turns)
  {
    var front, t := turns[..|turns| - 1], turns[|turns| - 1];
    if DataOf(turns) != DataOf(front) {
      assert DataOf(turns)[..|DataOf(front)|] == DataOf(front);
    }
    TurnsTheorem(front);
    NextTurn(turns);
    var s, d :| Follows(front, s, d);
    assert RunTurns(INITIAL, turns) == TakeTurn(s, t);
    if t.packet.Some? && t.packet.value.LoggingData? {
      var d' := Run(INITIAL, DataOf(turns)).s;
      DataNext(turns, d, t.packet.value);
      var s' := DataTurn(s, d, t, t.packet.value, d');
    } else {
      OtherReason(s, t);
    }
  }

  lemma {:induction false} DataNext(turns: seq<Turn>, d: Session, p: Packet)
    requires turns != [] && p.LoggingData? && turns[|turns| - 1].packet == Some(p) && d.Valid()
    requires Run(INITIAL, DataOf(turns[..|turns| - 1])) == Continue(d)
    ensures Run(INITIAL, DataOf(turns)) == Receive(d, p)
  {
    assert DataOf(turns)[..|DataOf(turns[..|turns| - 1])|] == DataOf(turns[..|turns| - 1]);
  }

  /** An accepted stop ends the session where it is, whatever comes later. */
  lemma {:induction false} StopTheorem(turns: seq<Turn>, late: bool, rest: seq<Turn>)
    requires RunTurns(INITIAL, turns).Continue?
    ensures RunTurns(INITIAL, turns + [Turn(COMPLETED, late)] + rest)
         == Stopped(RunTurns(INITIAL, turns).s, LoggingCompleted)
  {
    var ended := turns + [Turn(COMPLETED, late)];
    assert ended[..|turns|] == turns;
    assert (ended + rest)[..|ended|] == ended;
    StoppedStays(INITIAL, ended + rest, |ended|);
  }
}
