/**
 Whole sessions over a network that loses, duplicates and reorders chunks: sequence acceptance and reassembly together.
 */
module UlogSession {
  import opened UlogFormat
  import opened UlogSequence
  import opened UlogReceiver
  import opened UlogAcceptance
  import opened UlogTurns
  import opened UlogStream
  import opened UlogReassembly

  function PacketOf(st: ValidStream, a: Arrival): Packet
    requires a.index < |st.offsets| && |st.cuts| == |st.offsets| + 1
  {
    LoggingData(a.acked, a.index % MODULUS, st.ChunkData(a.index), st.offsets[a.index])
  }

  predicate InStream(st: ValidStream, arrivals: seq<Arrival>) {
    && |st.cuts| == |st.offsets| + 1
    && forall t :: 0 <= t < |arrivals| ==> arrivals[t].index < |st.offsets|
  }

  function Packets(st: ValidStream, arrivals: seq<Arrival>): seq<Packet>
    requires InStream(st, arrivals)
  {
    seq(|arrivals|, t requires 0 <= t < |arrivals| => PacketOf(st, arrivals[t]))
  }

  // ---- reference: dropout notes

  function GapNote(first: nat, drops: int, section: bool): seq<Gap> {
    if drops > 0 && section then [Gap(first, drops)] else []
  }

  /** The gaps that are noted: all of them, once unacknowledged data has begun. */
  function ExpectedNotes(accepted: seq<Arrival>): seq<Gap> {
    if |accepted| < 2 then []
    else
      var n := |accepted|;
      var first := accepted[n - 2].index + 1;
      ExpectedNotes(accepted[..n - 1]) + GapNote(first, accepted[n - 1].index - first, Section(accepted))
  }

  /** Counters in the window, and chunk 0, which holds the header, comes first. */
  predicate InWindow(arrivals: seq<Arrival>) {
    |arrivals| > 0 && arrivals[0].index == 0 && Near(arrivals)
  }

  // ---- the run

  /** The reassembly invariant after chunk `last`, for some split of the file into records with these dropout notes. */
  ghost predicate Consistent(st: ValidStream, arrived: set<nat>, last: nat, notes: seq<Gap>, s: Session) {
    exists k, items :: InvAfter(st, arrived, last, k, items, s) && Noted(st, arrived, notes, items)
  }

  /** The receiver's file after the given arrivals, relative to the chunks `arrived` accepted over the whole session. */
  ghost predicate Tracks(st: ValidStream, arrived: set<nat>, arrivals: seq<Arrival>, s: Session) {
    exists last: nat :: last == Highest(arrivals) && Consistent(st, arrived, last, ExpectedNotes(Accepted(arrivals)), s)
  }

  lemma {:induction false} FirstArrival(st: ValidStream, arrived: set<nat>, a: Arrival)
    requires |st.offsets| > 0 && a.index == 0 && 0 in arrived
    ensures |st.ChunkData(0)| >= HEADER_LENGTH
    ensures var o := Receive(INITIAL, PacketOf(st, a));
            o.Continue? && Tracks(st, arrived, [a], o.s)
  {
    FirstChunk(st, arrived, Read(INITIAL, PacketOf(st, a)).0);
    FirstPacket(PacketOf(st, a), a);
    assert [] + [a] == [a];
    Snoc([], a);
    assert ExpectedNotes([a]) == [];
  }

  /** Chunk 0 carries the header, and the body bytes after it start with a message. */
  lemma {:induction false} FirstChunk(st: ValidStream, arrived: set<nat>, s: Session)
    requires |st.offsets| > 0 && 0 in arrived
    requires !s.gotUlogHeader && s.file == [] && s.ulogMessage == []
    ensures |st.ChunkData(0)| >= HEADER_LENGTH
    ensures Consistent(st, arrived, 0, [], Process(s, st.ChunkData(0), 0, 0))
  {
    var data := st.ChunkData(0);
    assert data[..HEADER_LENGTH] == st.header && data[HEADER_LENGTH..] == st.ChunkBody(0);
    assert Noted(st, arrived, [], []) by {
      assert Placed(st, arrived, [], []);
    }
    var s1 := s.(file := [] + st.header, gotUlogHeader := true);
    assert s1.file == st.header + Render([]);
    if st.cuts[1] == 0 {
      assert s1.file + [] == s1.file;
      assert Inv(st, arrived, 1, 0, [], Process(s, data, 0, 0));
      assert InvAfter(st, arrived, 0, 0, [], Process(s, data, 0, 0));
    } else {
      st.BoundEnd(0);
      st.CutsAscend(0, 1);
      assert |st.messages| > 0;
      assert st.StartsFirst(0, 0);
      assert st.Truthful(0);
      var k, items := AbsorbStart(st, arrived, 0, 0, [], s1);
      assert InvAfter(st, arrived, 0, k, items, Process(s, data, 0, 0));
    }
  }

  lemma {:induction false} ConsistentFrame(st: ValidStream, arrived: set<nat>, last: nat, notes: seq<Gap>, s: Session,
                                           s1: Session)
    requires Consistent(st, arrived, last, notes, s)
    requires s1.file == s.file && s1.ulogMessage == s.ulogMessage && s1.gotUlogHeader
    ensures Consistent(st, arrived, last, notes, s1)
  {
    var k, items :| InvAfter(st, arrived, last, k, items, s) && Noted(st, arrived, notes, items);
    var i: nat :| i == last + 1 && Inv(st, arrived, i, k, items, s);
    assert Inv(st, arrived, i, k, items, s1);
    assert InvAfter(st, arrived, last, k, items, s1);
  }

  lemma {:induction false} NewerConsistent(st: ValidStream, arrived: set<nat>, arrivals: seq<Arrival>, a: Arrival,
                                           p: Packet, last: nat, lost: nat, drops: nat, s: Session, s1: Session,
                                           s2: Session)
    requires arrivals != [] && a.index < |st.offsets| && last == Highest(arrivals) < a.index
    requires Consistent(st, arrived, last, ExpectedNotes(Accepted(arrivals)), s)
    requires a.index in arrived && forall j :: last < j < a.index ==> j !in arrived
    requires s1.file == s.file && s1.ulogMessage == s.ulogMessage && s1.gotUlogHeader
    requires s1.gotHeaderSection == Section(Accepted(arrivals) + [a])
    requires p == PacketOf(st, a) && lost == last + 1 && drops == a.index - last - 1
    requires s2 == Process(s1, p.data, p.firstMessageOffset, drops)
    ensures Consistent(st, arrived, a.index, ExpectedNotes(Accepted(arrivals + [a])), s2)
  {
    var notes := ExpectedNotes(Accepted(arrivals));
    ConsistentFrame(st, arrived, last, notes, s, s1);
    AcceptedChunk(st, arrived, last, a.index, lost, drops, notes, s1, s2);
    NotesStep(arrivals, a, lost, drops, s1.gotHeaderSection);
  }

  /** A chunk is processed right after the previous one, or after a run of lost ones. */
  lemma {:induction false} AcceptedChunk(st: ValidStream, arrived: set<nat>, last: nat, i: nat, lost: nat, drops: nat,
                                         notes: seq<Gap>, s: Session, s': Session)
    requires Consistent(st, arrived, last, notes, s) && s.gotUlogHeader
    requires last < i && i + 1 < |st.cuts| && i in arrived
    requires forall j :: last < j < i ==> j !in arrived
    requires lost == last + 1 && drops == i - last - 1 && s' == Process(s, st.ChunkData(i), st.offsets[i], drops)
    ensures Consistent(st, arrived, i, notes + GapNote(lost, drops, s.gotHeaderSection), s')
  {
    assert st.ChunkData(i) == st.ChunkBody(i);
    if drops == 0 {
      AcceptedNext(st, arrived, last, i, notes, s);
      assert notes + [] == notes;
    } else {
      ResumeAfterGap(s, st.ChunkBody(i), st.offsets[i], drops);
      var before, closed := i - 1, CloseGap(s, drops);
      AcceptedGap(st, arrived, last, i, before, lost, drops, notes, s, closed);
      AcceptedNext(st, arrived, before, i, notes + GapNote(lost, drops, s.gotHeaderSection), closed);
    }
  }

  lemma {:induction false} AcceptedNext(st: ValidStream, arrived: set<nat>, last: nat, i: nat, notes: seq<Gap>,
                                        s: Session)
    requires Consistent(st, arrived, last, notes, s) && s.gotUlogHeader
    requires i == last + 1 && i + 1 < |st.cuts| && i in arrived
    ensures Consistent(st, arrived, i, notes, Absorb(s, st.ChunkBody(i), st.offsets[i]))
  {
    var k, items :| InvAfter(st, arrived, last, k, items, s) && Noted(st, arrived, notes, items);
    var k', items' := AbsorbStep(st, arrived, i, k, items, s);
    NotedSame(st, arrived, notes, items, items');
  }

  lemma {:induction false} NotedSame(st: ValidStream, arrived: set<nat>, notes: seq<Gap>, items: seq<Record>,
                                     items': seq<Record>)
    requires Noted(st, arrived, notes, items) && Notes(items') == Notes(items)
    ensures Noted(st, arrived, notes, items')
  {
  }

  lemma {:induction false} AcceptedGap(st: ValidStream, arrived: set<nat>, last: nat, i: nat, before: nat, lost: nat,
                                       drops: nat, notes: seq<Gap>, s: Session, s': Session)
    requires Consistent(st, arrived, last, notes, s) && drops == i - last - 1 && drops > 0 && i + 1 < |st.cuts|
    requires lost == last + 1 && before == i - 1 && s' == CloseGap(s, drops)
    requires forall j :: last < j < i ==> j !in arrived
    ensures Consistent(st, arrived, before, notes + GapNote(lost, drops, s.gotHeaderSection), s')
  {
    var k, items :| InvAfter(st, arrived, last, k, items, s) && Noted(st, arrived, notes, items);
    var k', items' := GapStep(st, arrived, lost, i, drops, k, items, s);
    NotedNext(st, arrived, lost, drops, k, notes, items, s, items');
    InvBefore(st, arrived, before, i, k', items', s');
  }

  lemma {:induction false} NotedNext(st: ValidStream, arrived: set<nat>, first: nat, drops: nat, k: nat,
                                     notes: seq<Gap>, items: seq<Record>, s: Session, items': seq<Record>)
    requires Noted(st, arrived, notes, items) && Inv(st, arrived, first, k, items, s) && drops > 0
    requires Notes(items') ==
      Notes(items) + (if s.gotHeaderSection then [Note(|st.DeliveredBelow(k, arrived)|, drops)] else [])
    ensures Noted(st, arrived, notes + GapNote(first, drops, s.gotHeaderSection), items')
  {
    var behind := |st.DeliveredBelow(k, arrived)|;
    assert PlaceAt(st, arrived, first, k, behind);
    if s.gotHeaderSection {
      PlacedSnoc(st, arrived, notes, items, Gap(first, drops), behind, items');
    } else {
      assert notes + [] == notes;
    }
  }

  lemma {:induction false} InvBefore(st: ValidStream, arrived: set<nat>, before: nat, i: nat, k: nat,
                                     items: seq<Record>, s: Session)
    requires i == before + 1 && Inv(st, arrived, i, k, items, s)
    ensures InvAfter(st, arrived, before, k, items, s)
  {
  }

  lemma {:induction false} NotesStep(arrivals: seq<Arrival>, a: Arrival, first: nat, gap: nat, section: bool)
    requires arrivals != [] && first == Highest(arrivals) + 1
    requires gap == a.index - first && section == Section(Accepted(arrivals) + [a])
    ensures ExpectedNotes(Accepted(arrivals + [a])) == ExpectedNotes(Accepted(arrivals)) + GapNote(first, gap, section)
  {
    Snoc(arrivals, a);
    LastAccepted(arrivals);
    NotesSnoc(Accepted(arrivals), a, first, gap, section);
  }

  lemma {:induction false} LastAccepted(arrivals: seq<Arrival>)
    requires arrivals != []
    ensures var acc := Accepted(arrivals);
      acc != [] && acc[|acc| - 1].index == Highest(arrivals)
  {
    AcceptedIncreasing(arrivals);
  }

  lemma {:induction false} NotesSnoc(acc: seq<Arrival>, a: Arrival, first: nat, gap: int, section: bool)
    requires acc != [] && first == acc[|acc| - 1].index + 1 && gap == a.index - first && section == Section(acc + [a])
    ensures ExpectedNotes(acc + [a]) == ExpectedNotes(acc) + GapNote(first, gap, section)
  {
    assert (acc + [a])[..|acc|] == acc;
  }

  lemma {:induction false} RunSnoc(st: ValidStream, before: seq<Arrival>, a: Arrival)
    requires InStream(st, before) && a.index < |st.offsets|
    ensures InStream(st, before + [a])
    ensures var o := Run(INITIAL, Packets(st, before));
            o.Continue? ==> Run(INITIAL, Packets(st, before + [a])) == Receive(o.s, PacketOf(st, a))
  {
    PacketsSnoc(st, before, a);
    RunNext(Packets(st, before), PacketOf(st, a));
  }

  lemma {:induction false} PacketsSnoc(st: ValidStream, before: seq<Arrival>, a: Arrival)
    requires InStream(st, before) && a.index < |st.offsets|
    ensures InStream(st, before + [a]) && Packets(st, before + [a]) == Packets(st, before) + [PacketOf(st, a)]
  {
  }

  lemma {:induction false} RunNext(packets: seq<Packet>, p: Packet)
    ensures var o := Run(INITIAL, packets);
            o.Continue? ==> Run(INITIAL, packets + [p]) == Receive(o.s, p)
  {
    assert (packets + [p])[..|packets|] == packets;
  }

  /** The data packets of these arrivals have been received, counted and put into the file. */
  ghost predicate Tracked(st: ValidStream, arrived: set<nat>, arrivals: seq<Arrival>) {
    exists s :: TrackedAs(st, arrived, arrivals, s)
  }

  ghost predicate TrackedAs(st: ValidStream, arrived: set<nat>, arrivals: seq<Arrival>, s: Session) {
    && InStream(st, arrivals)
    && Run(INITIAL, Packets(st, arrivals)) == Continue(s) && Counts(arrivals, s) && Tracks(st, arrived, arrivals, s)
  }

  lemma {:induction false} TrackFirst(st: ValidStream, arrived: set<nat>, a: Arrival)
    requires |st.offsets| > 0 && a.index == 0 && 0 in arrived
    ensures Tracked(st, arrived, [a])
  {
    FirstArrival(st, arrived, a);
    FirstPacket(PacketOf(st, a), a);
    RunSnoc(st, [], a);
    assert [] + [a] == [a];
    assert TrackedAs(st, arrived, [a], Receive(INITIAL, PacketOf(st, a)).s);
  }

  lemma {:induction false} TrackNewer(st: ValidStream, arrived: set<nat>, before: seq<Arrival>, a: Arrival)
    requires Tracked(st, arrived, before) && a.index < |st.offsets| && 0 < a.index - Highest(before) <= 32767
    requires a.index in arrived && forall j :: Highest(before) < j < a.index ==> j !in arrived
    ensures Tracked(st, arrived, before + [a])
  {
    var s :| TrackedAs(st, arrived, before, s);
    RunSnoc(st, before, a);
    var last: nat := Highest(before);
    var p, drops := PacketOf(st, a), a.index - last - 1;
    var s1, s2 := NewerState(before, a, drops, s, p);
    Snoc(before, a);
    CountsNext(before, a, s, s2);
    NewerConsistent(st, arrived, before, a, p, last, last + 1, drops, s, s1, s2);
    assert TrackedAs(st, arrived, before + [a], s2);
  }

  lemma {:induction false} TrackStale(st: ValidStream, arrived: set<nat>, before: seq<Arrival>, a: Arrival)
    requires Tracked(st, arrived, before) && a.index < |st.offsets| && -32767 <= a.index - Highest(before) <= 0
    ensures Tracked(st, arrived, before + [a])
  {
    var s :| TrackedAs(st, arrived, before, s);
    RunSnoc(st, before, a);
    NextPacket(before, a, s, PacketOf(st, a));
    Snoc(before, a);
    TracksCounter(Highest(before), a.index);
    ReceiveRejected(s, a.acked, a.index % MODULUS, st.ChunkData(a.index), st.offsets[a.index]);
    var s2 := Receive(s, PacketOf(st, a)).s;
    ConsistentFrame(st, arrived, Highest(before), ExpectedNotes(Accepted(before)), s, s2);
    assert TrackedAs(st, arrived, before + [a], s2);
  }

  lemma {:induction false} RunTracks(st: ValidStream, arrivals: seq<Arrival>, t: nat, arrived: set<nat>)
    requires InStream(st, arrivals) && InWindow(arrivals) && 1 <= t <= |arrivals|
    requires arrived == Indices(Accepted(arrivals))
    ensures Tracked(st, arrived, arrivals[..t])
    decreases t
  {
    var before, a := arrivals[..t - 1], arrivals[t - 1];
    assert arrivals[..t] == before + [a];
    if t == 1 {
      assert arrivals[..1] == [a];
      ZeroAccepted(arrivals);
      TrackFirst(st, arrived, a);
    } else {
      RunTracks(st, arrivals, t - 1, arrived);
      FitsNext(arrivals, t, arrived, before, a);
      TrackStep(st, arrived, before, a);
    }
  }

  /** The next arrival is in the window and, if it is newer, is accepted and the ones it skips are not. */
  ghost predicate NextFits(arrived: set<nat>, before: seq<Arrival>, a: Arrival) {
    exists high :: high == Highest(before) && NextFitsAt(arrived, high, a)
  }

  ghost predicate NextFitsAt(arrived: set<nat>, high: int, a: Arrival) {
    && -32767 <= a.index - high <= 32767
    && (a.index > high ==> a.index in arrived && forall j :: high < j < a.index ==> j !in arrived)
  }

  lemma {:induction false} FitsNext(arrivals: seq<Arrival>, t: nat, arrived: set<nat>, before: seq<Arrival>, a: Arrival)
    requires InWindow(arrivals) && 1 < t <= |arrivals| && arrived == Indices(Accepted(arrivals))
    requires before == arrivals[..t - 1] && a == arrivals[t - 1]
    ensures NextFits(arrived, before, a)
  {
    if a.index > Highest(before) {
      FreshIndices(arrivals, t);
    }
    assert NextFitsAt(arrived, Highest(before), a);
  }

  lemma {:induction false} TrackStep(st: ValidStream, arrived: set<nat>, before: seq<Arrival>, a: Arrival)
    requires Tracked(st, arrived, before) && a.index < |st.offsets| && NextFits(arrived, before, a)
    ensures Tracked(st, arrived, before + [a])
  {
    if a.index > Highest(before) {
      TrackNewer(st, arrived, before, a);
    } else {
      TrackStale(st, arrived, before, a);
    }
  }

  lemma {:induction false} ZeroAccepted(arrivals: seq<Arrival>)
    requires InWindow(arrivals)
    ensures 0 in Indices(Accepted(arrivals))
  {
    var a := arrivals[0];
    assert arrivals[..1] == [a] && [a][..0] == [];
    assert Accepted([a]) == [a];
    assert a in Accepted([a]);
    AcceptedPrefix(arrivals, 1, 0);
  }

  lemma {:induction false} NotYetAccepted(arrivals: seq<Arrival>, j: nat)
    requires j > Highest(arrivals)
    ensures j !in Indices(Accepted(arrivals))
  {
    AcceptedIncreasing(arrivals);
  }

  /** Between two accepted indices nothing is ever accepted. */
  lemma {:induction false} FreshIndices(arrivals: seq<Arrival>, t: nat)
    requires 1 <= t <= |arrivals| && arrivals[t - 1].index > Highest(arrivals[..t - 1])
    ensures arrivals[t - 1].index in Indices(Accepted(arrivals))
    ensures forall j: nat :: Highest(arrivals[..t - 1]) < j < arrivals[t - 1].index ==> j !in Indices(Accepted(arrivals))
  {
    var a, before := arrivals[t - 1], arrivals[..t - 1];
    assert arrivals[..t] == before + [a];
    Snoc(before, a);
    IndicesSnoc(Accepted(before), a);
    AcceptedPrefix(arrivals, t, a.index);
    forall j: nat | Highest(before) < j < a.index ensures j !in Indices(Accepted(arrivals)) {
      NotYetAccepted(before, j);
      AcceptedPrefix(arrivals, t, j);
    }
  }

  // ---- the theorem

  /**
   The file is the header and whole records; without the dropout notes they are, in order, the messages
   delivered by the chunks that arrived, except that the last of them may still be complete in the buffer.
   */
  ghost predicate Reassembled(st: ValidStream, arrived: set<nat>, notes: seq<Gap>, s: Session) {
    exists items :: ReassembledAs(st, arrived, notes, s, items)
  }

  ghost predicate ReassembledAs(st: ValidStream, arrived: set<nat>, notes: seq<Gap>, s: Session, items: seq<Record>) {
    && s.file == st.header + Render(items)
    && Noted(st, arrived, notes, items)
    && Kept(items) + Split(s.ulogMessage).messages == st.DeliveredBelow(|st.messages|, arrived)
    && |Split(s.ulogMessage).messages| <= 1
  }

  /** The data packets of a session alone. */
  lemma {:induction false} ChunksTheorem(st: ValidStream, arrivals: seq<Arrival>)
    requires InStream(st, arrivals) && InWindow(arrivals)
    ensures var o := Run(INITIAL, Packets(st, arrivals));
      var accepted := Accepted(arrivals);
      && o.Continue?
      && Reassembled(st, Indices(accepted), ExpectedNotes(accepted), o.s)
      && o.s.numDropouts + |accepted| == Highest(arrivals) + 1
      && o.s.acksSent == ExpectedAcks(arrivals)
  {
    var arrived := Indices(Accepted(arrivals));
    RunTracks(st, arrivals, |arrivals|, arrived);
    assert arrivals[..|arrivals|] == arrivals;
    var s :| TrackedAs(st, arrived, arrivals, s);
    var last: nat := Highest(arrivals);
    AcceptedIncreasing(arrivals);
    ConsistentEnds(st, arrived, last, ExpectedNotes(Accepted(arrivals)), s);
  }

  lemma {:induction false} ConsistentEnds(st: ValidStream, arrived: set<nat>, last: nat, notes: seq<Gap>, s: Session)
    requires Consistent(st, arrived, last, notes, s) && forall j :: j in arrived ==> j <= last
    ensures Reassembled(st, arrived, notes, s)
  {
    var k, items :| InvAfter(st, arrived, last, k, items, s) && Noted(st, arrived, notes, items);
    NothingLater(st, arrived, last + 1, k, items, s);
    assert ReassembledAs(st, arrived, notes, s, items);
  }

  /** Sequence acceptance in complete sessions, for any first counter. */
  lemma {:induction false} AcceptanceInTurns(arrivals: seq<Arrival>, turns: seq<Turn>)
    requires Numbered(DataOf(turns), arrivals) && Near(arrivals) && |arrivals| > 0 && Undisturbed(turns)
    requires |DataOf(turns)[0].data| >= HEADER_LENGTH
    ensures RunTurns(INITIAL, turns).Continue? && Counts(arrivals, RunTurns(INITIAL, turns).s)
  {
    AcceptanceTheorem(DataOf(turns), arrivals);
    TurnsTheorem(turns);
  }

  /** A complete session: its data packets may be interleaved with any turns that do not end it. */
  lemma {:induction false} SessionTheorem(st: ValidStream, arrivals: seq<Arrival>, turns: seq<Turn>)
    requires InStream(st, arrivals) && InWindow(arrivals)
    requires DataOf(turns) == Packets(st, arrivals) && Undisturbed(turns)
    ensures var o := RunTurns(INITIAL, turns);
      var accepted := Accepted(arrivals);
      && o.Continue?
      && Reassembled(st, Indices(accepted), ExpectedNotes(accepted), o.s)
      && o.s.numDropouts + |accepted| == Highest(arrivals) + 1
      && o.s.acksSent == ExpectedAcks(arrivals)
  {
    ChunksTheorem(st, arrivals);
    TurnsTheorem(turns);
    var s, d :| Follows(turns, s, d);
    ReassembledSame(st, Indices(Accepted(arrivals)), ExpectedNotes(Accepted(arrivals)), d, s);
  }

  /** The same session ended by an accepted stop; what comes after it is not looked at. */
  lemma {:induction false} CompleteSession(st: ValidStream, arrivals: seq<Arrival>, turns: seq<Turn>, late: bool,
                                           rest: seq<Turn>)
    requires InStream(st, arrivals) && InWindow(arrivals)
    requires DataOf(turns) == Packets(st, arrivals) && Undisturbed(turns)
    ensures var o := RunTurns(INITIAL, turns + [Turn(COMPLETED, late)] + rest);
      var accepted := Accepted(arrivals);
      && o.Stopped? && o.why == LoggingCompleted
      && Reassembled(st, Indices(accepted), ExpectedNotes(accepted), o.s)
      && o.s.numDropouts + |accepted| == Highest(arrivals) + 1
      && o.s.acksSent == ExpectedAcks(arrivals)
  {
    SessionTheorem(st, arrivals, turns);
    StopTheorem(turns, late, rest);
  }

  lemma {:induction false} ReassembledSame(st: ValidStream, arrived: set<nat>, notes: seq<Gap>, d: Session, s: Session)
    requires Reassembled(st, arrived, notes, d) && Same(s, d)
    ensures Reassembled(st, arrived, notes, s)
  {
    var items :| ReassembledAs(st, arrived, notes, d, items);
    assert ReassembledAs(st, arrived, notes, s, items);
  }

  /** Nothing from chunk i on arrived, so no further message is delivered. */
  lemma {:induction false} NothingLater(st: ValidStream, arrived: set<nat>, i: nat, k: nat, items: seq<Record>, s: Session)
    requires Inv(st, arrived, i, k, items, s) && forall j :: j in arrived ==> j < i
    ensures Kept(items) + Split(s.ulogMessage).messages == st.DeliveredBelow(|st.messages|, arrived)
    ensures |Split(s.ulogMessage).messages| <= 1
  {
    if s.ulogMessage == [] {
      BeyondCut(st, arrived, i, k);
      assert Kept(items) + [] == Kept(items);
    } else {
      st.BoundStep(k);
      BeyondCut(st, arrived, i, k + 1);
      if st.cuts[i] == st.Bound(k + 1) {
        HeldWhole(st, arrived, i, k, s.ulogMessage);
      } else {
        st.PartIsNotWhole(k, st.cuts[i]);
        EndsAfter(st, arrived, i, k);
        assert Kept(items) + [] == Kept(items);
      }
    }
  }

  lemma {:induction false} EndsAfter(st: ValidStream, arrived: set<nat>, i: nat, k: nat)
    requires i < |st.cuts| && k < |st.messages| && st.cuts[i] < st.Bound(k + 1)
    requires forall j :: j in arrived ==> j < i
    ensures !st.Delivered(k, arrived)
  {
    if st.Bound(k + 1) <= st.cuts[|st.cuts| - 1] {
      st.BoundStep(k);
      var j := ChunkAt(st, i, |st.cuts| - 1, st.Bound(k + 1) - 1);
      assert st.Touches(j, k);
    }
  }

  lemma {:induction false} BeyondCut(st: ValidStream, arrived: set<nat>, i: nat, k: nat)
    requires i < |st.cuts| && k <= |st.messages| && st.cuts[i] <= st.Bound(k)
    requires forall j :: j in arrived ==> j < i
    ensures st.DeliveredBelow(|st.messages|, arrived) == st.DeliveredBelow(k, arrived)
  {
    forall q | k <= q < |st.messages| ensures !st.Delivered(q, arrived) {
      st.BoundMonotone(k, q + 1);
      EndsAfter(st, arrived, i, q);
    }
    LostRun(st, arrived, k, |st.messages|);
  }
}
