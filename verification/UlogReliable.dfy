/** Which chunks of the sender ask for an acknowledgement, over whole sessions: reliable and plain transfer. */
module UlogReliable {
  import opened Bytes
  import opened UlogReceiver
  import opened UlogWriter

  /** The transfer mode that these operations leave. */
  function ModeAfter(initial: bool, ops: seq<Op>): bool {
    if ops == [] then initial
    else
      var last := ops[|ops| - 1];
      if last.SetNeedReliableTransfer? then last.needReliable else ModeAfter(initial, ops[..|ops| - 1])
  }

  /** Everything these operations write. */
  function Texts(ops: seq<Op>): seq<byte> {
    if ops == [] then []
    else
      var last := ops[|ops| - 1];
      Texts(ops[..|ops| - 1]) + if last.WriteMessage? then last.m else []
  }

  /** The bytes that the chunks carry. */
  function Carried(published: seq<Packet>): seq<byte> {
    if published == [] then []
    else
      var last := published[|published| - 1];
      Carried(published[..|published| - 1]) + if last.LoggingData? then last.data else []
  }

  predicate NeedsAck(p: Packet) {
    p.LoggingData? && p.acked
  }

  // ---- one operation

  /** The session goes on exactly while every acknowledgement asked for came; the chunk it ends at is the last one. */
  predicate EndsRight(w: Writer, acks: Acks) {
    && (w.isStarted ==> forall i :: 0 <= i < |w.published| && NeedsAck(w.published[i]) ==> acks(i))
    && (!w.isStarted ==>
          var last := |w.published| - 1;
          && last >= 0 && NeedsAck(w.published[last]) && !acks(last) && w.data == []
          && forall i :: 0 <= i < last && NeedsAck(w.published[i]) ==> acks(i))
  }

  /** A chunk of this kind: full, or flushed. */
  predicate ChunkIs(p: Packet, reliable: bool, full: bool) {
    p.LoggingData? && p.acked == reliable && if full then |p.data| == 249 else 0 < |p.data| < 249
  }

  predicate NewChunks(w: Writer, w': Writer, full: bool) {
    && w.published <= w'.published
    && forall i :: |w.published| <= i < |w'.published| ==> ChunkIs(w'.published[i], w.needReliableTransfer, full)
  }

  /** What the chunks carry, and the buffer. */
  function Given(w: Writer): seq<byte> {
    Carried(w.published) + w.data
  }

  predicate Sent(w: Writer, w': Writer, m: seq<byte>, acks: Acks, full: bool) {
    && NewChunks(w, w', full) && EndsRight(w', acks)
    && (w'.isStarted ==> Given(w') == Given(w) + m)
    && (!w'.isStarted ==> Carried(w'.published) <= Given(w) + m)
  }

  lemma {:induction false} PublishSends(w: Writer, acks: Acks, full: bool)
    requires w.isStarted && EndsRight(w, acks) && if full then |w.data| == 249 else 0 < |w.data| < 249
    ensures Sent(w, Publish(w, acks), [], acks, full) && Publish(w, acks).data == []
    ensures Publish(w, acks).needReliableTransfer == w.needReliableTransfer
  {
    var w' := Publish(w, acks);
    CarriedNext(w.published, w'.published[|w.published|]);
    assert Given(w) + [] == Given(w);
    assert w'.isStarted ==> Given(w') == Given(w) by {
      assert Carried(w'.published) + [] == Carried(w'.published);
    }
  }

  lemma {:induction false} CarriedNext(published: seq<Packet>, p: Packet)
    ensures Carried(published + [p]) == Carried(published) + if p.LoggingData? then p.data else []
  {
    assert (published + [p])[..|published|] == published;
  }

  lemma {:induction false} FillSends(w: Writer, m: seq<byte>, acks: Acks)
    requires |w.data| < DATA_LENGTH && w.isStarted && EndsRight(w, acks)
    ensures Sent(w, Fill(w, m, acks), m, acks, true)
    ensures Fill(w, m, acks).needReliableTransfer == w.needReliableTransfer
    decreases |m|
  {
    if m == [] {
      assert Given(w) + [] == Given(w);
    } else {
      var n := if DATA_LENGTH - |w.data| < |m| then DATA_LENGTH - |w.data| else |m|;
      var w1 := w.(data := w.data + m[..n]);
      FillStep(w, m, n, w1, acks);
      Buffered(w, m[..n], w1, acks);
      if |w1.data| < DATA_LENGTH {
        assert m[..n] == m;
      } else {
        PublishSends(w1, acks, true);
        if Publish(w1, acks).isStarted {
          FillSends(Publish(w1, acks), m[n..], acks);
        }
        SentThen(w, w1, Publish(w1, acks), Fill(w, m, acks), m, n, acks);
      }
    }
  }

  lemma {:induction false} Buffered(w: Writer, part: seq<byte>, w1: Writer, acks: Acks)
    requires w1 == w.(data := w.data + part) && w.isStarted && EndsRight(w, acks)
    ensures EndsRight(w1, acks) && Given(w1) == Given(w) + part && NewChunks(w, w1, true)
  {
    Assoc(Carried(w.published), w.data, part);
  }

  /** A full buffer was published, and the rest of the text after it. */
  lemma {:induction false} SentThen(w: Writer, w1: Writer, w2: Writer, w3: Writer, m: seq<byte>, n: nat, acks: Acks)
    requires n <= |m| && w1.published == w.published && w1.needReliableTransfer == w.needReliableTransfer
    requires w2.needReliableTransfer == w.needReliableTransfer
    requires Given(w1) == Given(w) + m[..n] && Sent(w1, w2, [], acks, true)
    requires if w2.isStarted then Sent(w2, w3, m[n..], acks, true) else w3 == w2
    ensures Sent(w, w3, m, acks, true)
  {
    assert Given(w1) + [] == Given(w1);
    assert (Given(w) + m[..n]) + m[n..] == Given(w) + m;
    assert Given(w) + m[..n] <= Given(w) + m;
  }

  lemma {:induction false} ApplySends(w: Writer, op: Op, acks: Acks)
    requires |w.data| < DATA_LENGTH && w.isStarted && EndsRight(w, acks)
    ensures Sent(w, Apply(w, op, acks), Texts([op]), acks, op.WriteMessage?)
    ensures Apply(w, op, acks).needReliableTransfer == ModeAfter(w.needReliableTransfer, [op])
    ensures op == SetNeedReliableTransfer(false) && w.needReliableTransfer ==> Apply(w, op, acks).data == []
  {
    assert [op][..0] == [] && Texts([op]) == if op.WriteMessage? then op.m else [];
    if op.WriteMessage? {
      WriteSends(w, op.m, acks);
    } else {
      SetSends(w, op.needReliable, acks);
    }
  }

  lemma {:induction false} WriteSends(w: Writer, m: seq<byte>, acks: Acks)
    requires |w.data| < DATA_LENGTH && w.isStarted && EndsRight(w, acks)
    ensures Sent(w, Write(w, m, acks), m, acks, true)
    ensures Write(w, m, acks).needReliableTransfer == w.needReliableTransfer
  {
    var w1 := if w.firstMessageOffset == NO_MESSAGE_START then w.(firstMessageOffset := |w.data|) else w;
    FillSends(w1, m, acks);
    assert Given(w1) == Given(w);
  }

  lemma {:induction false} SetSends(w: Writer, needReliable: bool, acks: Acks)
    requires |w.data| < DATA_LENGTH && w.isStarted && EndsRight(w, acks)
    ensures Sent(w, SetReliable(w, needReliable, acks), [], acks, false)
    ensures SetReliable(w, needReliable, acks).needReliableTransfer == needReliable
    ensures !needReliable && w.needReliableTransfer ==> SetReliable(w, needReliable, acks).data == []
  {
    var w' := SetReliable(w, needReliable, acks);
    if !needReliable && w.needReliableTransfer && |w.data| > 0 {
      PublishSends(w, acks, false);
      SentModes(w, Publish(w, acks), w', acks);
    } else {
      assert Given(w) + [] == Given(w);
      assert w'.published == w.published && Given(w') == Given(w);
    }
  }

  lemma {:induction false} SentModes(w: Writer, w1: Writer, w': Writer, acks: Acks)
    requires Sent(w, w1, [], acks, false) && w' == w1.(needReliableTransfer := w'.needReliableTransfer)
    ensures Sent(w, w', [], acks, false)
  {
  }

  // ---- whole sessions

  /** The sender after some operations of a session that began with w. */
  predicate Underway(w: Writer, header: seq<byte>, ops: seq<Op>, acks: Acks, w': Writer) {
    && |w'.data| < DATA_LENGTH && EndsRight(w', acks)
    && w'.needReliableTransfer == ModeAfter(w.needReliableTransfer, ops)
    && (w'.isStarted ==> Given(w') == header + Texts(ops))
    && (!w'.isStarted ==> Carried(w'.published) <= header + Texts(ops))
  }

  lemma {:induction false} TransmitNext(w: Writer, header: seq<byte>, ops: seq<Op>, acks: Acks)
    requires |header| == HEADER_LENGTH && ops != []
    ensures Transmit(w, header, ops, acks) == Apply(Transmit(w, header, ops[..|ops| - 1], acks), ops[|ops| - 1], acks)
  {
  }

  lemma {:induction false} HeaderSends(w: Writer, header: seq<byte>, acks: Acks)
    requires |header| == HEADER_LENGTH
    ensures Underway(w, header, [], acks, Transmit(w, header, [], acks))
    ensures Transmit(w, header, [], acks).published == []
  {
    assert header[..HEADER_LENGTH] == header;
    assert Transmit(w, header, [], acks) == Start(w).(data := [] + header);
    assert header + Texts([]) == header && [] + ([] + header) == header;
  }

  lemma {:induction false} SessionKeeps(w: Writer, header: seq<byte>, ops: seq<Op>, acks: Acks)
    requires |header| == HEADER_LENGTH
    ensures Underway(w, header, ops, acks, Transmit(w, header, ops, acks))
    decreases |ops|
  {
    if ops == [] {
      HeaderSends(w, header, acks);
    } else {
      SessionKeeps(w, header, ops[..|ops| - 1], acks);
      SessionNext(w, header, ops, acks);
    }
  }

  lemma {:induction false} SessionNext(w: Writer, header: seq<byte>, ops: seq<Op>, acks: Acks)
    requires |header| == HEADER_LENGTH && ops != []
    requires Underway(w, header, ops[..|ops| - 1], acks, Transmit(w, header, ops[..|ops| - 1], acks))
    ensures Underway(w, header, ops, acks, Transmit(w, header, ops, acks))
  {
    TransmitNext(w, header, ops, acks);
    UnderwayNext(w, header, ops[..|ops| - 1], ops[|ops| - 1], acks, Transmit(w, header, ops[..|ops| - 1], acks));
    assert ops == ops[..|ops| - 1] + [ops[|ops| - 1]];
  }

  lemma {:induction false} UnderwayNext(w: Writer, header: seq<byte>, front: seq<Op>, op: Op, acks: Acks, w1: Writer)
    requires Underway(w, header, front, acks, w1)
    ensures Underway(w, header, front + [op], acks, Apply(w1, op, acks))
  {
    ApplyBounded(w1, op, acks);
    AppendOp(front, op, w.needReliableTransfer);
    Assoc(header, Texts(front), Texts([op]));
    if w1.isStarted {
      ApplySends(w1, op, acks);
      SentUnderway(header + Texts(front), Texts([op]), acks, w1, Apply(w1, op, acks), op.WriteMessage?);
    } else {
      SilentUnderway(w1, op, acks);
    }
  }

  /** What is sent is still all of the text, or the beginning of it. */
  lemma {:induction false} SentUnderway(text: seq<byte>, m: seq<byte>, acks: Acks, w1: Writer, w2: Writer, full: bool)
    requires w1.isStarted && Given(w1) == text && Sent(w1, w2, m, acks, full)
    ensures EndsRight(w2, acks)
    ensures if w2.isStarted then Given(w2) == text + m else Carried(w2.published) <= text + m
  {
  }

  lemma {:induction false} SilentUnderway(w1: Writer, op: Op, acks: Acks)
    requires !w1.isStarted && EndsRight(w1, acks)
    ensures var w2 := Apply(w1, op, acks);
      && EndsRight(w2, acks) && !w2.isStarted && w2.published == w1.published
      && w2.needReliableTransfer == ModeAfter(w1.needReliableTransfer, [op])
  {
    assert [op][..0] == [];
  }

  lemma {:induction false} AppendOp(front: seq<Op>, op: Op, initial: bool)
    ensures Texts(front + [op]) == Texts(front) + Texts([op])
    ensures ModeAfter(initial, front + [op]) == ModeAfter(ModeAfter(initial, front), [op])
  {
    assert (front + [op])[..|front|] == front && [op][..0] == [];
  }

  /** Nothing that went out is taken back, and chunk i is sent by the operation that makes it appear. */
  lemma {:induction false} PublishedGrows(w: Writer, header: seq<byte>, ops: seq<Op>, acks: Acks, t: nat)
    requires |header| == HEADER_LENGTH && t <= |ops|
    ensures Transmit(w, header, ops[..t], acks).published <= Transmit(w, header, ops, acks).published
    decreases |ops|
  {
    if t == |ops| {
      assert ops[..t] == ops;
    } else {
      var front := ops[..|ops| - 1];
      assert front[..t] == ops[..t];
      PublishedGrows(w, header, front, acks, t);
      LastSends(w, header, ops, acks);
    }
  }

  /** What the last operation of a session sends. */
  lemma {:induction false} LastSends(w: Writer, header: seq<byte>, ops: seq<Op>, acks: Acks)
    requires |header| == HEADER_LENGTH && ops != []
    ensures var before := Transmit(w, header, ops[..|ops| - 1], acks).published;
      var after := Transmit(w, header, ops, acks).published;
      && before <= after
      && forall i :: |before| <= i < |after| ==>
           ChunkIs(after[i], ModeAfter(w.needReliableTransfer, ops[..|ops| - 1]), ops[|ops| - 1].WriteMessage?)
  {
    var front, op := ops[..|ops| - 1], ops[|ops| - 1];
    var w1 := Transmit(w, header, front, acks);
    SessionKeeps(w, header, front, acks);
    TransmitNext(w, header, ops, acks);
    if w1.isStarted {
      ApplySends(w1, op, acks);
    } else {
      assert Apply(w1, op, acks).published == w1.published;
    }
  }

  /** Chunk i goes out with operation t. */
  predicate GoesOutWith(w: Writer, header: seq<byte>, ops: seq<Op>, acks: Acks, i: nat, t: nat)
    requires |header| == HEADER_LENGTH
  {
    && t < |ops|
    && |Transmit(w, header, ops[..t], acks).published| <= i < |Transmit(w, header, ops[..t + 1], acks).published|
  }

  /**
   Every chunk goes out with one operation of the session. It asks for an acknowledgement if and only if the mode in
   force before that operation was the reliable one. It is full, unless the operation switches the mode.
   */
  lemma {:induction false} ChunkTheorem(w: Writer, header: seq<byte>, ops: seq<Op>, acks: Acks, i: nat) returns (t: nat)
    requires |header| == HEADER_LENGTH && i < |Transmit(w, header, ops, acks).published|
    ensures GoesOutWith(w, header, ops, acks, i, t)
    ensures forall u: nat :: GoesOutWith(w, header, ops, acks, i, u) ==> u == t
    ensures var p := Transmit(w, header, ops, acks).published[i];
      && p.LoggingData?
      && (p.acked <==> ModeAfter(w.needReliableTransfer, ops[..t]))
      && if ops[t].WriteMessage? then |p.data| == 249
         else 0 < |p.data| < 249 && p.acked && ops[t] == SetNeedReliableTransfer(false)
    decreases |ops|
  {
    if ops == [] {
      HeaderSends(w, header, acks);
      assert false;
    } else {
      var front := ops[..|ops| - 1];
      LastSends(w, header, ops, acks);
      if ops[|ops| - 1].SetNeedReliableTransfer? {
        FlushOnly(w, header, ops, acks);
      }
      var before := Transmit(w, header, front, acks).published;
      assert ops[..|ops|] == ops;
      if i >= |before| {
        t := |ops| - 1;
      } else {
        t := ChunkTheorem(w, header, front, acks, i);
        assert front[..t] == ops[..t] && front[..t + 1] == ops[..t + 1] && front[t] == ops[t];
      }
      OneOperation(w, header, ops, acks, i, t);
    }
  }

  /** A switch of the mode sends something only when it leaves the reliable mode. */
  lemma {:induction false} FlushOnly(w: Writer, header: seq<byte>, ops: seq<Op>, acks: Acks)
    requires |header| == HEADER_LENGTH && ops != [] && ops[|ops| - 1].SetNeedReliableTransfer?
    ensures Transmit(w, header, ops, acks).published != Transmit(w, header, ops[..|ops| - 1], acks).published ==>
      ops[|ops| - 1] == SetNeedReliableTransfer(false) && ModeAfter(w.needReliableTransfer, ops[..|ops| - 1])
  {
    SessionKeeps(w, header, ops[..|ops| - 1], acks);
    TransmitNext(w, header, ops, acks);
  }

  lemma {:induction false} OneOperation(w: Writer, header: seq<byte>, ops: seq<Op>, acks: Acks, i: nat, t: nat)
    requires |header| == HEADER_LENGTH && GoesOutWith(w, header, ops, acks, i, t)
    ensures forall u: nat :: GoesOutWith(w, header, ops, acks, i, u) ==> u == t
  {
    forall u: nat | GoesOutWith(w, header, ops, acks, i, u) ensures u == t {
      if u < t {
        assert ops[..t][..u + 1] == ops[..u + 1];
        PublishedGrows(w, header, ops[..t], acks, u + 1);
      } else if t < u {
        assert ops[..u][..t + 1] == ops[..t + 1];
        PublishedGrows(w, header, ops[..u], acks, t + 1);
      }
    }
  }

  /**
   The session goes on if and only if every acknowledgement asked for came; otherwise it ended at the first one that
   did not come. While it goes on, what was sent and what is buffered is everything written; when it ended, what was
   sent is the beginning of that.
   */
  lemma {:induction false} SessionEnds(w: Writer, header: seq<byte>, ops: seq<Op>, acks: Acks)
    requires |header| == HEADER_LENGTH
    ensures var w' := Transmit(w, header, ops, acks);
      var out := w'.published;
      && (w'.isStarted <==> forall i :: 0 <= i < |out| && NeedsAck(out[i]) ==> acks(i))
      && (forall i :: 0 <= i < |out| && NeedsAck(out[i]) && !acks(i) ==> i == |out| - 1)
      && (if w'.isStarted then Carried(out) + w'.data == header + Texts(ops) else Carried(out) <= header + Texts(ops))
  {
    SessionKeeps(w, header, ops, acks);
  }

  /**
   What is written in reliable mode before the first switch to plain mode travels in chunks that ask for an
   acknowledgement, and all of it has gone out when the switch is made.
   */
  lemma {:induction false} ReliablePart(w: Writer, header: seq<byte>, front: seq<Op>, rest: seq<Op>, acks: Acks)
    requires |header| == HEADER_LENGTH && w.needReliableTransfer
    requires forall i :: 0 <= i < |front| ==> front[i] != SetNeedReliableTransfer(false)
    ensures var switch := front + [SetNeedReliableTransfer(false)];
      var mid := Transmit(w, header, switch, acks);
      && mid.published <= Transmit(w, header, switch + rest, acks).published
      && (forall i :: 0 <= i < |mid.published| ==> NeedsAck(mid.published[i]))
      && (mid.isStarted ==> Carried(mid.published) == header + Texts(front))
  {
    var switch := front + [SetNeedReliableTransfer(false)];
    var before, mid := Transmit(w, header, front, acks), Transmit(w, header, switch, acks);
    assert (switch + rest)[..|switch|] == switch;
    PublishedGrows(w, header, switch + rest, acks, |switch|);
    assert switch[..|front|] == front;
    forall i | 0 <= i < |mid.published| ensures NeedsAck(mid.published[i]) {
      var t := ChunkTheorem(w, header, switch, acks, i);
      assert switch[..t] == front[..t];
      StaysReliable(front[..t]);
    }
    StaysReliable(front);
    SessionKeeps(w, header, front, acks);
    SessionKeeps(w, header, switch, acks);
    TransmitNext(w, header, switch, acks);
    if mid.isStarted {
      assert Texts(switch) == Texts(front) + [] == Texts(front);
      assert Carried(mid.published) + [] == Carried(mid.published);
    }
  }

  lemma {:induction false} StaysReliable(ops: seq<Op>)
    requires forall i :: 0 <= i < |ops| ==> ops[i] != SetNeedReliableTransfer(false)
    ensures ModeAfter(true, ops)
    decreases |ops|
  {
    if ops == [] {
    } else {
      StaysReliable(ops[..|ops| - 1]);
    }
  }
}
