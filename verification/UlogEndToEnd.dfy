/** From the sender's buffer to the receiver's file, over a lossy network; and exactness when nothing is lost. */
module UlogEndToEnd {
  import opened Bytes
  import opened UlogFormat
  import opened UlogSequence
  import opened UlogReceiver
  import opened UlogAcceptance
  import opened UlogTurns
  import opened UlogStream
  import opened UlogReassembly
  import opened UlogSession
  import opened UlogWriter

  /** The network hands over copies of published chunks, in any order and number. */
  function Network(published: seq<Packet>, order: seq<nat>): seq<Packet>
    requires forall t :: 0 <= t < |order| ==> order[t] < |published|
  {
    seq(|order|, t requires 0 <= t < |order| => published[order[t]])
  }

  function Arrivals(published: seq<Packet>, order: seq<nat>): seq<Arrival>
    requires forall t :: 0 <= t < |order| ==> order[t] < |published|
  {
    seq(|order|, t requires 0 <= t < |order| => ArrivalOf(published[order[t]], order[t]))
  }

  function ArrivalOf(p: Packet, index: nat): Arrival {
    Arrival(index, p.LoggingData? && p.acked)
  }

  /** Whatever was written and lost, and whatever turns came in between. */
  lemma {:induction false} EndToEnd(w: Writer, header: seq<byte>, ops: seq<Op>, acks: Acks, order: seq<nat>,
                                    turns: seq<Turn>)
    requires |header| == HEADER_LENGTH && GoodOps(ops)
    requires forall t :: 0 <= t < |order| ==> order[t] < |Transmit(w, header, ops, acks).published|
    requires InWindow(Arrivals(Transmit(w, header, ops, acks).published, order))
    requires DataOf(turns) == Network(Transmit(w, header, ops, acks).published, order) && Undisturbed(turns)
    ensures var published := Transmit(w, header, ops, acks).published;
      var accepted := Accepted(Arrivals(published, order));
      var o := RunTurns(INITIAL, turns);
      && o.Continue?
      && exists st: ValidStream ::
           && Cutting(st, header, Transmitted(w, header, ops, acks), published)
           && Reassembled(st, Indices(accepted), ExpectedNotes(accepted), o.s)
  {
    SenderTheorem(w, header, ops, acks);
    var published := Transmit(w, header, ops, acks).published;
    var st: ValidStream :| Cutting(st, header, Transmitted(w, header, ops, acks), published);
    var arrivals := Arrivals(published, order);
    assert Network(published, order) == Packets(st, arrivals);
    SessionTheorem(st, arrivals, turns);
  }

  // ---- nothing lost

  /** File and buffer together are everything received so far; the file ends where message k starts. */
  predicate Exact(st: ValidStream, i: nat, k: nat, s: Session)
    requires i < |st.cuts| && k <= |st.messages|
  {
    && s.gotUlogHeader
    && st.Bound(k) <= st.cuts[i] <= |st.Body()|
    && st.Bound(k) <= |st.Body()|
    && (if k < |st.messages| then st.cuts[i] <= st.Bound(k + 1) else st.cuts[i] == st.Bound(k))
    && s.file == st.header + st.Body()[..st.Bound(k)]
    && s.ulogMessage == st.Body()[st.Bound(k)..st.cuts[i]]
  }

  lemma {:induction false} JoinFile(st: ValidStream, file: seq<byte>, j: nat, k: nat)
    requires j <= k <= |st.messages|
    ensures st.Bound(j) <= st.Bound(k) <= |st.Body()|
    ensures (st.header + st.Body()[..st.Bound(j)]) + Flat(st.messages[j..k]) == st.header + st.Body()[..st.Bound(k)]
  {
    st.BodyBetween(j, k);
    assert st.Body()[..st.Bound(j)] + st.Body()[st.Bound(j)..st.Bound(k)] == st.Body()[..st.Bound(k)];
    Assoc(st.header, st.Body()[..st.Bound(j)], Flat(st.messages[j..k]));
  }

  lemma {:induction false} ExactTail(st: ValidStream, i: nat, q: nat, at: nat, file: seq<byte>, s': Session)
    returns (n: nat)
    requires i + 1 < |st.cuts| && q < |st.messages| && st.StartsIn(q, i) && at == st.Bound(q) - st.cuts[i]
    requires st.Bound(q) <= |st.Body()| && file == st.header + st.Body()[..st.Bound(q)]
    requires var p := Split(Drop(st.ChunkBody(i), at));
             s'.gotUlogHeader && s'.file == file + Flat(p.messages) && s'.ulogMessage == p.rest
    ensures n <= |st.messages| && Exact(st, i + 1, n, s')
  {
    n := TailSplit(st, i, q, at);
    JoinFile(st, file, q, n);
    st.BoundEnd(n);
  }

  lemma {:induction false} ExactStep(st: ValidStream, i: nat, k: nat, s: Session) returns (k': nat)
    requires 1 <= i && i + 1 < |st.cuts| && k <= |st.messages| && Exact(st, i, k, s)
    ensures k' <= |st.messages| && Exact(st, i + 1, k', Absorb(s, st.ChunkBody(i), st.offsets[i]))
  {
    assert st.Truthful(i);
    st.CutsAscend(i, i + 1);
    if st.offsets[i] == NO_MESSAGE_START {
      k' := k;
      ExactMiddle(st, i, k, s);
    } else {
      var q := FirstStart(st, i);
      if s.ulogMessage == [] {
        k' := ExactFresh(st, i, k, q, s);
      } else {
        k' := ExactHeld(st, i, k, q, s);
      }
    }
  }

  /** A message starts in the chunk and nothing is held. */
  lemma {:induction false} ExactFresh(st: ValidStream, i: nat, k: nat, q: nat, s: Session) returns (k': nat)
    requires 1 <= i && i + 1 < |st.cuts| && k <= |st.messages| && Exact(st, i, k, s)
    requires st.offsets[i] != NO_MESSAGE_START && q < |st.messages| && st.StartsFirst(q, i) && s.ulogMessage == []
    ensures k' <= |st.messages| && Exact(st, i + 1, k', Absorb(s, st.ChunkBody(i), st.offsets[i]))
  {
    if k > 0 {
      st.BoundStep(k - 1);
    }
    SameStart(st, i, k, q);
    k' := ExactTail(st, i, q, st.offsets[i], s.file, Absorb(s, st.ChunkBody(i), st.offsets[i]));
  }

  /** A message starts in the chunk, after the end of the held one. */
  lemma {:induction false} ExactHeld(st: ValidStream, i: nat, k: nat, q: nat, s: Session) returns (k': nat)
    requires 1 <= i && i + 1 < |st.cuts| && k <= |st.messages| && Exact(st, i, k, s)
    requires st.offsets[i] != NO_MESSAGE_START && q < |st.messages| && st.StartsFirst(q, i) && s.ulogMessage != []
    ensures k' <= |st.messages| && Exact(st, i + 1, k', Absorb(s, st.ChunkBody(i), st.offsets[i]))
  {
    SameStart(st, i, k + 1, q);
    ExactJoin(st, i, k, s);
    var file := s.file + (s.ulogMessage + Take(st.ChunkBody(i), st.offsets[i]));
    AbsorbHeld(s, st.ChunkBody(i), st.offsets[i], file);
    k' := ExactTail(st, i, q, st.offsets[i], file, Absorb(s, st.ChunkBody(i), st.offsets[i]));
  }

  lemma {:induction false} AbsorbHeld(s: Session, data: seq<byte>, first: byte, file: seq<byte>)
    requires first != NO_MESSAGE_START && s.ulogMessage != [] && file == s.file + (s.ulogMessage + Take(data, first))
    ensures var p, s' := Split(Drop(data, first)), Absorb(s, data, first);
      s'.gotUlogHeader == s.gotUlogHeader && s'.file == file + Flat(p.messages) && s'.ulogMessage == p.rest
  {
  }

  lemma {:induction false} ExactMiddle(st: ValidStream, i: nat, k: nat, s: Session)
    requires i + 1 < |st.cuts| && k <= |st.messages| && Exact(st, i, k, s)
    requires st.offsets[i] == NO_MESSAGE_START && st.Truthful(i)
    ensures Exact(st, i + 1, k, Absorb(s, st.ChunkBody(i), st.offsets[i]))
  {
    var c, c' := st.cuts[i], st.cuts[i + 1];
    st.CutsAscend(i, i + 1);
    if s.ulogMessage == [] {
      NoStart(st, i, k);
      assert Drop(st.ChunkBody(i), 255) == [] && s.file + [] == s.file;
    } else {
      NoStart(st, i, k + 1);
      assert st.Body()[st.Bound(k)..c] + st.Body()[c..c'] == st.Body()[st.Bound(k)..c'];
    }
  }

  lemma {:induction false} TakeChunk(st: ValidStream, i: nat, e: nat, first: nat)
    requires i + 1 < |st.cuts| && st.cuts[i] <= e <= st.cuts[i + 1] <= |st.Body()| && first == e - st.cuts[i]
    ensures Take(st.ChunkBody(i), first) == st.Body()[st.cuts[i]..e]
  {
  }

  lemma {:induction false} ExactJoin(st: ValidStream, i: nat, k: nat, s: Session)
    requires i + 1 < |st.cuts| && k < |st.messages| && Exact(st, i, k, s)
    requires st.Bound(k + 1) <= st.cuts[i + 1] && st.offsets[i] == st.Bound(k + 1) - st.cuts[i]
    ensures st.Bound(k + 1) <= |st.Body()|
    ensures s.file + (s.ulogMessage + Take(st.ChunkBody(i), st.offsets[i])) == st.header + st.Body()[..st.Bound(k + 1)]
  {
    var c := st.cuts[i];
    st.CutsAscend(i, i + 1);
    st.BodyOne(k);
    TakeChunk(st, i, st.Bound(k + 1), st.offsets[i]);
    JoinSlices(st.Body(), st.Bound(k), c, st.Bound(k + 1));
    JoinSlices(st.Body(), 0, st.Bound(k), st.Bound(k + 1));
    Assoc(st.header, st.Body()[..st.Bound(k)], st.Body()[st.Bound(k)..st.Bound(k + 1)]);
  }

  ghost predicate ExactSomewhere(st: ValidStream, i: nat, s: Session) {
    exists k: nat :: i < |st.cuts| && k <= |st.messages| && Exact(st, i, k, s)
  }

  lemma {:induction false} FirstProcessed(st: ValidStream, s: Session)
    requires |st.offsets| > 0 && !s.gotUlogHeader && s.file == [] && s.ulogMessage == []
    ensures |st.ChunkData(0)| >= HEADER_LENGTH
    ensures var p, s' := Split(Drop(st.ChunkBody(0), 0)), Process(s, st.ChunkData(0), 0, 0);
      s'.gotUlogHeader && s'.file == st.header + Flat(p.messages) && s'.ulogMessage == p.rest
  {
  }

  lemma {:induction false} ExactFirst(st: ValidStream, s: Session)
    requires |st.offsets| > 0 && !s.gotUlogHeader && s.file == [] && s.ulogMessage == []
    ensures |st.ChunkData(0)| >= HEADER_LENGTH && ExactSomewhere(st, 1, Process(s, st.ChunkData(0), 0, 0))
  {
    FirstProcessed(st, s);
    ExactAfterHeader(st, Process(s, st.ChunkData(0), 0, 0));
  }

  lemma {:induction false} ExactAfterHeader(st: ValidStream, s': Session)
    requires |st.offsets| > 0
    requires var p := Split(Drop(st.ChunkBody(0), 0));
      s'.gotUlogHeader && s'.file == st.header + Flat(p.messages) && s'.ulogMessage == p.rest
    ensures ExactSomewhere(st, 1, s')
  {
    st.CutsAscend(0, 1);
    if st.cuts[1] == 0 {
      ExactHeaderOnly(st, s');
    } else {
      var k := ExactFromStart(st, 0, s');
    }
  }

  lemma {:induction false} ExactFromStart(st: ValidStream, at: nat, s': Session) returns (k: nat)
    requires |st.offsets| > 0 && st.cuts[1] > 0 && at == 0
    requires var p := Split(Drop(st.ChunkBody(0), at));
      s'.gotUlogHeader && s'.file == st.header + Flat(p.messages) && s'.ulogMessage == p.rest
    ensures k <= |st.messages| && Exact(st, 1, k, s')
  {
    FirstStarts(st);
    k := ExactTail(st, 0, 0, at, st.header, s');
  }

  lemma {:induction false} FirstStarts(st: ValidStream)
    requires |st.offsets| > 0 && st.cuts[1] > 0
    ensures |st.messages| > 0 && st.StartsIn(0, 0) && st.Bound(0) == 0 && st.cuts[0] == 0
    ensures st.header == st.header + st.Body()[..0]
  {
    st.CutsAscend(0, 1);
    st.BoundEnd(0);
  }

  lemma {:induction false} ExactHeaderOnly(st: ValidStream, s': Session)
    requires |st.offsets| > 0 && st.cuts[1] == 0
    requires s'.gotUlogHeader && s'.file == st.header + Flat(Split([]).messages) && s'.ulogMessage == Split([]).rest
    ensures ExactSomewhere(st, 1, s')
  {
    st.CutsAscend(0, 1);
    st.BoundEnd(0);
    assert st.header + [] == st.header && st.Body()[..0] == [] && st.Body()[0..0] == [];
    assert Exact(st, 1, 0, s');
  }

  lemma {:induction false} InOrderRun(st: ValidStream, arrivals: seq<Arrival>)
    requires InStream(st, arrivals) && |arrivals| > 0
    requires forall t :: 0 <= t < |arrivals| ==> arrivals[t].index == t
    ensures var o := Run(INITIAL, Packets(st, arrivals));
      && o.Continue?
      && ExactSomewhere(st, |arrivals|, o.s)
      && o.s.lastSequence == (|arrivals| - 1) % MODULUS
      && o.s.numDropouts == 0
    decreases |arrivals|
  {
    var n := |arrivals| - 1;
    var before, a := arrivals[..n], arrivals[n];
    assert arrivals == before + [a];
    RunSnoc(st, before, a);
    if n == 0 {
      ExactFirst(st, Read(INITIAL, PacketOf(st, a)).0);
    } else {
      InOrderRun(st, before);
      InOrderStep(st, a, Run(INITIAL, Packets(st, before)).s);
    }
  }

  lemma {:induction false} InOrderStep(st: ValidStream, a: Arrival, s: Session)
    requires 1 <= a.index < |st.offsets| && ExactSomewhere(st, a.index, s)
    requires s.lastSequence == (a.index - 1) % MODULUS && s.numDropouts == 0
    ensures var o := Receive(s, PacketOf(st, a));
      && o.Continue?
      && ExactSomewhere(st, a.index + 1, o.s)
      && o.s.lastSequence == a.index % MODULUS
      && o.s.numDropouts == 0
  {
    ExactHeader(st, a.index, s);
    var s1 := InOrderRead(st, a, s);
    ExactNext(st, a.index, s, s1, Absorb(s1, st.ChunkBody(a.index), st.offsets[a.index]));
  }

  lemma {:induction false} ExactHeader(st: ValidStream, i: nat, s: Session)
    requires ExactSomewhere(st, i, s)
    ensures s.gotUlogHeader
  {
  }

  lemma {:induction false} ExactNext(st: ValidStream, i: nat, s: Session, s1: Session, s2: Session)
    requires 1 <= i < |st.offsets| && ExactSomewhere(st, i, s) && s2 == Absorb(s1, st.ChunkBody(i), st.offsets[i])
    requires s1.file == s.file && s1.ulogMessage == s.ulogMessage && s1.gotUlogHeader
    ensures ExactSomewhere(st, i + 1, s2)
  {
    var k: nat :| i < |st.cuts| && k <= |st.messages| && Exact(st, i, k, s);
    assert Exact(st, i, k, s1);
    var k' := ExactStep(st, i, k, s1);
  }

  /** The next chunk in order is accepted without a gap. */
  lemma {:induction false} InOrderRead(st: ValidStream, a: Arrival, s: Session) returns (s1: Session)
    requires 1 <= a.index < |st.offsets| && s.Valid() && s.gotUlogHeader
    requires s.lastSequence == (a.index - 1) % MODULUS && s.numDropouts == 0
    ensures s1.file == s.file && s1.ulogMessage == s.ulogMessage && s1.gotUlogHeader
    ensures Receive(s, PacketOf(st, a)) == Continue(Absorb(s1, st.ChunkBody(a.index), st.offsets[a.index]))
    ensures s1.lastSequence == a.index % MODULUS && s1.numDropouts == 0
  {
    TracksCounter(a.index - 1, a.index);
    ReceiveAccepted(s, a.acked, a.index % MODULUS, st.ChunkData(a.index), st.offsets[a.index], 0);
    s1 := Read(s, PacketOf(st, a)).0;
  }

  /** The file ends after message k - 1, and at most message k is held back. */
  ghost predicate Boundary(st: ValidStream, k: nat, s: Session) {
    && k <= |st.messages| && s.file == st.header + Flat(st.messages[..k])
    && if k < |st.messages| then s.ulogMessage <= st.messages[k] else s.ulogMessage == []
  }

  /** The file and the held bytes are all that was sent in the first i chunks. */
  ghost predicate Lossless(st: ValidStream, i: nat, s: Session) {
    && i < |st.cuts| && st.cuts[i] <= |st.Body()|
    && s.file + s.ulogMessage == st.header + st.Body()[..st.cuts[i]]
    && exists k: nat :: Boundary(st, k, s)
  }

  /** The data packets of such a session alone. */
  lemma {:induction false} LosslessChunks(st: ValidStream, arrivals: seq<Arrival>)
    requires InStream(st, arrivals) && |arrivals| > 0
    requires forall t :: 0 <= t < |arrivals| ==> arrivals[t].index == t
    ensures var o := Run(INITIAL, Packets(st, arrivals));
      o.Continue? && Lossless(st, |arrivals|, o.s)
  {
    InOrderRun(st, arrivals);
    var s := Run(INITIAL, Packets(st, arrivals)).s;
    var n := |arrivals|;
    var k: nat :| n < |st.cuts| && k <= |st.messages| && Exact(st, n, k, s);
    ExactBytes(st, n, k, s);
    ExactPrefix(st, n, k, s);
  }

  /** When every chunk arrives once and in order, nothing is lost, added or held back beyond one message. */
  lemma {:induction false} LosslessTheorem(st: ValidStream, arrivals: seq<Arrival>, turns: seq<Turn>)
    requires InStream(st, arrivals) && |arrivals| > 0
    requires forall t :: 0 <= t < |arrivals| ==> arrivals[t].index == t
    requires DataOf(turns) == Packets(st, arrivals) && Undisturbed(turns)
    ensures var o := RunTurns(INITIAL, turns);
      o.Continue? && Lossless(st, |arrivals|, o.s)
  {
    LosslessChunks(st, arrivals);
    TurnsTheorem(turns);
    var s, d :| Follows(turns, s, d);
    var k: nat :| Boundary(st, k, d);
    assert Boundary(st, k, s);
  }

  lemma {:induction false} ExactBytes(st: ValidStream, i: nat, k: nat, s: Session)
    requires i < |st.cuts| && k <= |st.messages| && Exact(st, i, k, s)
    ensures st.cuts[i] <= |st.Body()| && s.file + s.ulogMessage == st.header + st.Body()[..st.cuts[i]]
  {
  }

  lemma {:induction false} ExactPrefix(st: ValidStream, i: nat, k: nat, s: Session)
    requires i < |st.cuts| && k <= |st.messages| && Exact(st, i, k, s)
    ensures Boundary(st, k, s)
  {
    ExactMessages(st, k);
    st.CutsAscend(i, i);
    if k < |st.messages| {
      st.BodyOne(k);
      InnerSlice(st.Body(), st.Bound(k), st.cuts[i], st.Bound(k + 1));
    }
  }

  lemma {:induction false} ExactMessages(st: ValidStream, k: nat)
    requires k <= |st.messages|
    ensures st.Bound(k) <= |st.Body()| && st.Body()[..st.Bound(k)] == Flat(st.messages[..k])
  {
    st.BodyBetween(0, k);
    assert st.messages[0..k] == st.messages[..k] && st.Bound(0) == 0;
  }
}
