/**
 Which data packets the receiver takes, over whole runs: unbounded sender counters against the 16-bit numbers that travel.
 */
module UlogAcceptance {
  import opened Bytes
  import opened UlogSequence
  import opened UlogReceiver

  /** One data packet reaching the receiver, with the sender's unbounded counter. */
  datatype Arrival = Arrival(index: nat, acked: bool)

  // ---- reference: what should be accepted

  function Highest(arrivals: seq<Arrival>): int {
    if arrivals == [] then -1
    else
      var h := Highest(arrivals[..|arrivals| - 1]);
      if arrivals[|arrivals| - 1].index > h then arrivals[|arrivals| - 1].index else h
  }

  /** The arrivals that are newer than everything before them. */
  function Accepted(arrivals: seq<Arrival>): seq<Arrival> {
    if arrivals == [] then []
    else
      var front, last := arrivals[..|arrivals| - 1], arrivals[|arrivals| - 1];
      if last.index > Highest(front) then Accepted(front) + [last] else Accepted(front)
  }

  function Indices(arrivals: seq<Arrival>): set<nat> {
    set a | a in arrivals :: a.index
  }

  predicate Section(accepted: seq<Arrival>) {
    exists a :: a in accepted && !a.acked
  }

  function ExpectedAcks(arrivals: seq<Arrival>): seq<u16> {
    if arrivals == [] then []
    else
      var front, last := arrivals[..|arrivals| - 1], arrivals[|arrivals| - 1];
      ExpectedAcks(front) + (if last.acked then [last.index % MODULUS] else [])
  }

  /** Every counter is within half the sequence space of the highest one before it. */
  predicate Near(arrivals: seq<Arrival>) {
    forall t {:trigger arrivals[t]} :: 1 <= t < |arrivals| ==>
      -32767 <= arrivals[t].index - Highest(arrivals[..t]) <= 32767
  }

  // ---- facts about the reference

  lemma {:induction false} Snoc(arrivals: seq<Arrival>, a: Arrival)
    ensures Highest(arrivals + [a]) == if a.index > Highest(arrivals) then a.index else Highest(arrivals)
    ensures Accepted(arrivals + [a]) == if a.index > Highest(arrivals) then Accepted(arrivals) + [a] else Accepted(arrivals)
    ensures ExpectedAcks(arrivals + [a]) == ExpectedAcks(arrivals) + (if a.acked then [a.index % MODULUS] else [])
  {
  }

  lemma {:induction false} AcceptedIncreasing(arrivals: seq<Arrival>)
    ensures forall i, j :: 0 <= i < j < |Accepted(arrivals)| ==> Accepted(arrivals)[i].index < Accepted(arrivals)[j].index
    ensures forall i :: 0 <= i < |Accepted(arrivals)| ==> Accepted(arrivals)[i].index <= Highest(arrivals)
    ensures arrivals != [] ==>
              Accepted(arrivals) != [] && Accepted(arrivals)[|Accepted(arrivals)| - 1].index == Highest(arrivals)
    decreases |arrivals|
  {
    if arrivals == [] {
    } else {
      AcceptedIncreasing(arrivals[..|arrivals| - 1]);
    }
  }

  /** Later arrivals only add larger indices. */
  lemma {:induction false} AcceptedPrefix(arrivals: seq<Arrival>, t: nat, j: nat)
    requires t <= |arrivals| && j <= Highest(arrivals[..t])
    ensures j in Indices(Accepted(arrivals)) <==> j in Indices(Accepted(arrivals[..t]))
    ensures Highest(arrivals[..t]) <= Highest(arrivals)
    decreases |arrivals|
  {
    if t == |arrivals| {
      assert arrivals[..t] == arrivals;
    } else {
      var front, last := arrivals[..|arrivals| - 1], arrivals[|arrivals| - 1];
      assert front[..t] == arrivals[..t];
      AcceptedPrefix(front, t, j);
      if last.index > Highest(front) {
        IndicesSnoc(Accepted(front), last);
      }
    }
  }

  lemma {:induction false} IndicesSnoc(as_: seq<Arrival>, a: Arrival)
    ensures Indices(as_ + [a]) == Indices(as_) + {a.index}
  {
  }

  lemma {:induction false} SectionSnoc(as_: seq<Arrival>, a: Arrival)
    ensures Section(as_ + [a]) <==> Section(as_) || !a.acked
  {
  }

  // ---- one packet

  /** The packet carries the low 16 bits of the arrival's counter. */
  predicate Carries(p: Packet, a: Arrival) {
    p.LoggingData? && p.sequence == a.index % MODULUS && p.acked == a.acked
  }

  lemma {:induction false} ReceiveAccepted(s: Session, acked: bool, sequence: u16, data: seq<byte>, first: byte,
                                           drops: nat)
    requires s.Valid() && s.gotUlogHeader && CheckSequence(s.lastSequence, sequence) == Verdict(true, drops)
    ensures var s1 := Read(s, LoggingData(acked, sequence, data, first)).0;
      var o := Receive(s, LoggingData(acked, sequence, data, first));
      && s1.file == s.file && s1.ulogMessage == s.ulogMessage && s1.gotUlogHeader
      && o == Continue(Process(s1, data, first, drops))
      && o.s.lastSequence == sequence
      && o.s.numDropouts == s.numDropouts + drops
      && s1.gotHeaderSection == o.s.gotHeaderSection == (s.gotHeaderSection || !acked)
      && o.s.acksSent == s.acksSent + (if acked then [sequence] else [])
  {
  }

  lemma {:induction false} ReceiveRejected(s: Session, acked: bool, sequence: u16, data: seq<byte>, first: byte)
    requires s.Valid() && !CheckSequence(s.lastSequence, sequence).newer
    ensures Receive(s, LoggingData(acked, sequence, data, first))
         == Continue(s.(acksSent := s.acksSent + (if acked then [sequence] else [])))
  {
  }

  /** What the receiver has counted after the given arrivals. */
  predicate Counts(arrivals: seq<Arrival>, s: Session) {
    var h, acc := Highest(arrivals), Accepted(arrivals);
    && arrivals != [] && h >= 0
    && s.gotUlogHeader
    && s.lastSequence == h % MODULUS
    && s.numDropouts + |acc| == h - arrivals[0].index + 1
    && s.gotHeaderSection == Section(acc)
    && s.acksSent == ExpectedAcks(arrivals)
  }

  /** Whatever comes first is accepted, and must hold the file header. */
  lemma {:induction false} FirstPacket(p: Packet, a: Arrival)
    requires Carries(p, a)
    ensures var s1, o := Read(INITIAL, p).0, Receive(INITIAL, p);
      && Read(INITIAL, p).1 == Chunk(p.data, p.firstMessageOffset, 0)
      && if |p.data| < HEADER_LENGTH then o == Stopped(s1, FirstMessageTooShort)
         else o == Continue(Process(s1, p.data, p.firstMessageOffset, 0)) && Counts([a], o.s)
  {
    assert [] + [a] == [a];
    Snoc([], a);
    SectionSnoc([], a);
  }

  lemma {:induction false} NewerState(arrivals: seq<Arrival>, a: Arrival, drops: nat, s: Session, p: Packet)
    returns (s1: Session, s2: Session)
    requires Counts(arrivals, s) && Carries(p, a) && drops == a.index - Highest(arrivals) - 1 < 32767
    ensures Read(s, p) == (s1, Chunk(p.data, p.firstMessageOffset, drops)) && Receive(s, p) == Continue(s2)
    ensures s1.file == s.file && s1.ulogMessage == s.ulogMessage && s1.gotUlogHeader
    ensures s1.gotHeaderSection == s2.gotHeaderSection == Section(Accepted(arrivals) + [a])
    ensures s2 == Process(s1, p.data, p.firstMessageOffset, drops)
    ensures s2.gotUlogHeader && s2.lastSequence == a.index % MODULUS && s2.numDropouts == s.numDropouts + drops
    ensures s2.acksSent == s.acksSent + (if a.acked then [a.index % MODULUS] else [])
  {
    TracksCounter(Highest(arrivals), a.index);
    ReceiveAccepted(s, p.acked, p.sequence, p.data, p.firstMessageOffset, drops);
    SectionSnoc(Accepted(arrivals), a);
    s1 := Read(s, p).0;
    s2 := Receive(s, p).s;
  }

  lemma {:induction false} CountsNext(arrivals: seq<Arrival>, a: Arrival, s: Session, s2: Session)
    requires Counts(arrivals, s) && s2.gotUlogHeader && 0 < a.index - Highest(arrivals)
    requires Highest(arrivals + [a]) == a.index && Accepted(arrivals + [a]) == Accepted(arrivals) + [a]
    requires s2.lastSequence == a.index % MODULUS && s2.numDropouts == s.numDropouts + (a.index - Highest(arrivals) - 1)
    requires s2.gotHeaderSection == Section(Accepted(arrivals) + [a]) && s2.acksSent == ExpectedAcks(arrivals + [a])
    ensures Counts(arrivals + [a], s2)
  {
  }

  lemma {:induction false} NextPacket(arrivals: seq<Arrival>, a: Arrival, s: Session, p: Packet)
    requires Counts(arrivals, s) && Carries(p, a) && -32767 <= a.index - Highest(arrivals) <= 32767
    ensures Receive(s, p).Continue? && Counts(arrivals + [a], Receive(s, p).s)
    ensures Read(s, p).1 == if a.index > Highest(arrivals) then
                              Chunk(p.data, p.firstMessageOffset, a.index - Highest(arrivals) - 1)
                            else Nothing
  {
    Snoc(arrivals, a);
    if a.index > Highest(arrivals) {
      var s1, s2 := NewerState(arrivals, a, a.index - Highest(arrivals) - 1, s, p);
      CountsNext(arrivals, a, s, s2);
    } else {
      TracksCounter(Highest(arrivals), a.index);
      ReceiveRejected(s, p.acked, p.sequence, p.data, p.firstMessageOffset);
    }
  }

  // ---- whole runs

  predicate Numbered(packets: seq<Packet>, arrivals: seq<Arrival>) {
    |packets| == |arrivals| && forall t :: 0 <= t < |packets| ==> Carries(packets[t], arrivals[t])
  }

  lemma {:induction false} FrontNear(packets: seq<Packet>, arrivals: seq<Arrival>, t: nat)
    requires Numbered(packets, arrivals) && Near(arrivals) && t <= |arrivals|
    ensures Numbered(packets[..t], arrivals[..t]) && Near(arrivals[..t])
  {
    assert forall u :: 0 <= u < t ==> arrivals[..t][..u] == arrivals[..u];
  }

  /**
   Sequence acceptance over whole runs, for any first counter: the numbers skipped and the packets accepted
   add up to the span of counters, and a first packet without the header ends the run.
   */
  lemma {:induction false} AcceptanceTheorem(packets: seq<Packet>, arrivals: seq<Arrival>)
    requires Numbered(packets, arrivals) && Near(arrivals) && |arrivals| > 0
    ensures |packets[0].data| >= HEADER_LENGTH ==>
      Run(INITIAL, packets).Continue? && Counts(arrivals, Run(INITIAL, packets).s)
    ensures |packets[0].data| < HEADER_LENGTH ==>
      Run(INITIAL, packets).Stopped? && Run(INITIAL, packets).why == FirstMessageTooShort
    decreases |packets|
  {
    var n := |packets| - 1;
    var front, before, p, a := packets[..n], arrivals[..n], packets[n], arrivals[n];
    assert arrivals == before + [a];
    if n == 0 {
      assert front == [] && before == [];
      FirstPacket(p, a);
    } else {
      FrontNear(packets, arrivals, n);
      AcceptanceTheorem(front, before);
      if |packets[0].data| >= HEADER_LENGTH {
        NextPacket(before, a, Run(INITIAL, front).s, p);
      }
    }
  }

  /** The receiver hands a packet on exactly when its counter is higher than every one before, with the exact gap. */
  lemma {:induction false} AcceptedByReceiver(packets: seq<Packet>, arrivals: seq<Arrival>, t: nat)
    requires Numbered(packets, arrivals) && Near(arrivals) && t < |packets| && |packets[0].data| >= HEADER_LENGTH
    ensures Read(Run(INITIAL, packets[..t]).s, packets[t]).1 ==
      if t == 0 then Chunk(packets[t].data, packets[t].firstMessageOffset, 0)
      else if arrivals[t].index > Highest(arrivals[..t]) then
        Chunk(packets[t].data, packets[t].firstMessageOffset, arrivals[t].index - Highest(arrivals[..t]) - 1)
      else Nothing
  {
    if t == 0 {
      FirstPacket(packets[0], arrivals[0]);
    } else {
      FrontNear(packets, arrivals, t);
      AcceptanceTheorem(packets[..t], arrivals[..t]);
      NextPacket(arrivals[..t], arrivals[t], Run(INITIAL, packets[..t]).s, packets[t]);
    }
  }

  /** So no packet is handed on twice or out of order. */
  lemma {:induction false} NeverTwice(packets: seq<Packet>, arrivals: seq<Arrival>, t: nat, u: nat)
    requires Numbered(packets, arrivals) && Near(arrivals) && t < u < |packets| && |packets[0].data| >= HEADER_LENGTH
    requires Read(Run(INITIAL, packets[..u]).s, packets[u]).1.Chunk?
    ensures arrivals[t].index < arrivals[u].index
  {
    AcceptedByReceiver(packets, arrivals, u);
    HighestBounds(arrivals[..u], t);
  }

  lemma {:induction false} HighestBounds(arrivals: seq<Arrival>, t: nat)
    requires t < |arrivals|
    ensures arrivals[t].index <= Highest(arrivals)
    decreases |arrivals|
  {
    if t == |arrivals| - 1 {
    } else {
      HighestBounds(arrivals[..|arrivals| - 1], t);
    }
  }
}
