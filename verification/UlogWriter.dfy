/**
 The vehicle-side sender: cuts the header and the logged messages into chunks and labels each chunk with the offset of
 the first message that starts in it. Whether an acknowledgement comes in time is up to the environment.
 */
module UlogWriter {
  import opened Bytes
  import opened UlogFormat
  import opened UlogSequence
  import opened UlogReceiver
  import opened UlogStream
  import opened UlogReassembly

  const DATA_LENGTH := 249

  // ---- the operations on values

  /** All fields of the sender; `data` is the used part of its buffer. */
  datatype Writer = Writer(
    isStarted: bool,
    needReliableTransfer: bool,
    data: seq<byte>,
    firstMessageOffset: byte,
    msgSequence: u16,
    published: seq<Packet>)

  type Acks = nat -> bool  // whether the acknowledgement of the i-th chunk comes before the time-out

  function Publish(w: Writer, acks: Acks): Writer {
    var out := w.published +
               [LoggingData(w.needReliableTransfer, w.msgSequence, w.data, w.firstMessageOffset)];
    if w.needReliableTransfer && !acks(|w.published|) then
      w.(published := out, data := [], isStarted := false)
    else
      w.(published := out, data := [], firstMessageOffset := NO_MESSAGE_START,
         msgSequence := (w.msgSequence + 1) % MODULUS)
  }

  function Fill(w: Writer, m: seq<byte>, acks: Acks): Writer
    requires |w.data| < DATA_LENGTH
    decreases |m|
  {
    if m == [] then w
    else
      var n := if DATA_LENGTH - |w.data| < |m| then DATA_LENGTH - |w.data| else |m|;
      var w1 := w.(data := w.data + m[..n]);
      if |w1.data| < DATA_LENGTH then w1
      else
        var w2 := Publish(w1, acks);
        if w2.isStarted then Fill(w2, m[n..], acks) else w2
  }

  lemma {:induction false} FillStep(w: Writer, m: seq<byte>, n: nat, w1: Writer, acks: Acks)
    requires |w.data| < DATA_LENGTH && m != []
    requires n == if DATA_LENGTH - |w.data| < |m| then DATA_LENGTH - |w.data| else |m|
    requires w1 == w.(data := w.data + m[..n])
    ensures |w1.data| < DATA_LENGTH ==> Fill(w, m, acks) == w1 == Fill(w1, m[n..], acks)
    ensures |w1.data| >= DATA_LENGTH ==>
              Fill(w, m, acks) == if Publish(w1, acks).isStarted then Fill(Publish(w1, acks), m[n..], acks)
                                  else Publish(w1, acks)
  {
  }

  function Write(w: Writer, m: seq<byte>, acks: Acks): Writer
    requires |w.data| < DATA_LENGTH
  {
    if !w.isStarted then w
    else Fill(if w.firstMessageOffset == NO_MESSAGE_START then w.(firstMessageOffset := |w.data|) else w, m, acks)
  }

  function SetReliable(w: Writer, needReliable: bool, acks: Acks): Writer {
    var w1 := if !needReliable && w.needReliableTransfer && |w.data| > 0 then Publish(w, acks) else w;
    w1.(needReliableTransfer := needReliable)
  }

  function Start(w: Writer): Writer {
    Writer(true, w.needReliableTransfer, [], 0, 0, [])
  }

  lemma {:induction false} FillBounded(w: Writer, m: seq<byte>, acks: Acks)
    requires |w.data| < DATA_LENGTH
    ensures |Fill(w, m, acks).data| < DATA_LENGTH
    ensures w.isStarted && !Fill(w, m, acks).isStarted ==> Fill(w, m, acks).data == []
    decreases |m|
  {
    if m == [] {
    } else {
      var n := if DATA_LENGTH - |w.data| < |m| then DATA_LENGTH - |w.data| else |m|;
      var w1 := w.(data := w.data + m[..n]);
      if |w1.data| >= DATA_LENGTH && Publish(w1, acks).isStarted {
        FillBounded(Publish(w1, acks), m[n..], acks);
      }
    }
  }

  // ---- growing a stream

  /** The whole byte string to transmit. */
  function Wire(st: Stream): seq<byte> {
    st.header + st.Body()
  }

  /** Where the bytes after the last cut begin, counted from the first header byte. */
  function WireCut(st: Stream): nat
    requires |st.cuts| > 0
  {
    if |st.offsets| == 0 then 0 else HEADER_LENGTH + st.cuts[|st.cuts| - 1]
  }

  function AddMessage(st: Stream, m: seq<byte>): Stream {
    st.(messages := st.messages + [m])
  }

  function AddChunk(st: Stream, end: nat, offset: byte): Stream {
    st.(cuts := st.cuts + [end], offsets := st.offsets + [offset])
  }

  /** `offset` is right for the bytes after the last cut: the first start there, or 255 when there is none. */
  ghost predicate PendingOffset(st: Stream, offset: byte)
    requires |st.cuts| > 0
  {
    var c := st.cuts[|st.cuts| - 1];
    if |st.offsets| == 0 then offset == 0
    else if offset == NO_MESSAGE_START then forall k: nat :: k < |st.messages| ==> st.Bound(k) < c
    else exists k: nat :: k < |st.messages| && FirstPending(st, offset, k)
  }

  predicate FirstPending(st: Stream, offset: byte, k: nat)
    requires |st.cuts| > 0 && k < |st.messages|
  {
    var c := st.cuts[|st.cuts| - 1];
    offset == st.Bound(k) - c && (k > 0 ==> st.Bound(k - 1) < c)
  }

  lemma {:induction false} BoundAdd(st: Stream, m: seq<byte>, k: nat)
    requires k <= |st.messages|
    ensures AddMessage(st, m).Bound(k) == st.Bound(k)
    ensures AddMessage(st, m).Body() == st.Body() + m
    ensures AddMessage(st, m).Bound(|st.messages|) == |st.Body()|
  {
    assert (st.messages + [m])[..k] == st.messages[..k];
    assert (st.messages + [m])[..|st.messages|] == st.messages;
    FlatSnoc(st.messages, m);
  }

  lemma {:induction false} AddMessageChunks(st: ValidStream, m: seq<byte>, i: nat)
    requires i < |st.offsets|
    ensures AddMessage(st, m).ChunkData(i) == st.ChunkData(i)
  {
    BoundAdd(st, m, 0);
    st.CutsAscend(i, i + 1);
    assert (st.Body() + m)[st.cuts[i]..st.cuts[i + 1]] == st.Body()[st.cuts[i]..st.cuts[i + 1]];
  }

  lemma {:induction false} AddMessageTruthful(st: ValidStream, m: seq<byte>, i: nat)
    requires WholeMessage(m) && 1 <= i < |st.offsets|
    ensures AddMessage(st, m).Truthful(i)
  {
    var st' := AddMessage(st, m);
    assert st.Truthful(i);
    st.CutsAscend(i, i + 1);
    if st.offsets[i] == NO_MESSAGE_START {
      forall k: nat | k < |st'.messages| ensures !st'.StartsIn(k, i) {
        BoundAdd(st, m, if k <= |st.messages| then k else 0);
        if k < |st.messages| {
          assert !st.StartsIn(k, i);
        }
      }
    } else {
      var k := FirstStart(st, i);
      BoundAdd(st, m, k);
      if k > 0 {
        BoundAdd(st, m, k - 1);
      }
      assert st'.StartsFirst(k, i);
    }
  }

  lemma {:induction false} AddMessageValid(st: ValidStream, m: seq<byte>)
    requires WholeMessage(m)
    ensures AddMessage(st, m).Valid()
  {
    var st' := AddMessage(st, m);
    BoundAdd(st, m, 0);
    forall i | 0 <= i < |st'.offsets| ensures |st'.ChunkData(i)| < 255 {
      AddMessageChunks(st, m, i);
    }
    forall i: nat, j: nat | i <= j < |st'.cuts| ensures st'.Ordered(i, j) {
      assert st.Ordered(i, j);
    }
    forall i {:trigger st'.Truthful(i)} | 1 <= i < |st'.offsets| ensures st'.Truthful(i) {
      AddMessageTruthful(st, m, i);
    }
  }

  /** What write_message does to the pending offset when a message begins. */
  lemma {:induction false} AddMessageOffset(st: ValidStream, m: seq<byte>, offset: byte, length: byte)
    requires WholeMessage(m) && PendingOffset(st, offset)
    requires |st.offsets| > 0 ==> length == |st.Body()| - st.cuts[|st.cuts| - 1]
    requires length < DATA_LENGTH
    ensures PendingOffset(AddMessage(st, m), if offset == NO_MESSAGE_START then length else offset)
  {
    var st' := AddMessage(st, m);
    var n := |st.messages|;
    if |st.offsets| > 0 {
      if offset == NO_MESSAGE_START {
        BoundAdd(st, m, n);
        if n > 0 {
          BoundAdd(st, m, n - 1);
          assert st.Bound(n - 1) < st.cuts[|st.cuts| - 1];
        }
        assert FirstPending(st', length, n);
      } else {
        var k: nat :| k < n && FirstPending(st, offset, k);
        BoundAdd(st, m, k);
        if k > 0 {
          BoundAdd(st, m, k - 1);
        }
        assert FirstPending(st', offset, k);
      }
    }
  }

  /** Publishing the bytes from the last cut up to `end`. */
  lemma {:induction false} AddChunkData(st: ValidStream, end: nat, offset: byte)
    requires st.cuts[|st.cuts| - 1] <= end <= |st.Body()|
    ensures forall i :: 0 <= i < |st.offsets| ==> AddChunk(st, end, offset).ChunkData(i) == st.ChunkData(i)
    ensures HEADER_LENGTH + end <= |Wire(st)|
    ensures AddChunk(st, end, offset).ChunkData(|st.offsets|) == Wire(st)[WireCut(st)..HEADER_LENGTH + end]
  {
    var n := |st.offsets|;
    var c := st.cuts[n];
    assert Wire(st)[HEADER_LENGTH + c..HEADER_LENGTH + end] == st.Body()[c..end];
    assert n == 0 ==> Wire(st)[0..HEADER_LENGTH + end] == st.header + st.Body()[0..end];
  }

  lemma {:induction false} AddChunkOrdered(st: ValidStream, end: nat, offset: byte)
    requires st.cuts[|st.cuts| - 1] <= end
    ensures var st' := AddChunk(st, end, offset);
            forall i: nat, j: nat :: i <= j < |st'.cuts| ==> st'.Ordered(i, j)
  {
    var st', n := AddChunk(st, end, offset), |st.offsets|;
    forall i: nat, j: nat | i <= j < |st'.cuts| ensures st'.Ordered(i, j) {
      if i <= n {
        assert st.Ordered(i, if j <= n then j else n);
      }
    }
  }

  lemma {:induction false} AddChunkValid(st: ValidStream, end: nat, offset: byte)
    requires PendingOffset(st, offset)
    requires st.cuts[|st.cuts| - 1] <= end <= |st.Body()|
    requires HEADER_LENGTH + end - WireCut(st) < 255
    requires offset != NO_MESSAGE_START && |st.offsets| > 0 ==> st.cuts[|st.cuts| - 1] + offset as int < end
    ensures AddChunk(st, end, offset).Valid()
  {
    AddChunkSizes(st, end, offset);
    AddChunkOrdered(st, end, offset);
    AddChunkTruthful(st, end, offset);
  }

  lemma {:induction false} AddChunkSizes(st: ValidStream, end: nat, offset: byte)
    requires st.cuts[|st.cuts| - 1] <= end <= |st.Body()| && HEADER_LENGTH + end - WireCut(st) < 255
    ensures var st' := AddChunk(st, end, offset);
      forall i :: 0 <= i < |st'.offsets| ==> |st'.ChunkData(i)| < 255
  {
    AddChunkData(st, end, offset);
  }

  lemma {:induction false} AddChunkTruthful(st: ValidStream, end: nat, offset: byte)
    requires PendingOffset(st, offset)
    requires offset != NO_MESSAGE_START && |st.offsets| > 0 ==> st.cuts[|st.cuts| - 1] + offset as int < end
    ensures var st' := AddChunk(st, end, offset);
      forall i {:trigger st'.Truthful(i)} :: 1 <= i < |st'.offsets| ==> st'.Truthful(i)
  {
    var st' := AddChunk(st, end, offset);
    forall i {:trigger st'.Truthful(i)} | 1 <= i < |st'.offsets| ensures st'.Truthful(i) {
      if i < |st.offsets| {
        OldTruthful(st, end, offset, i);
      } else {
        NewTruthful(st, end, offset);
      }
    }
  }

  lemma {:induction false} OldTruthful(st: ValidStream, end: nat, offset: byte, i: nat)
    requires 1 <= i < |st.offsets|
    ensures AddChunk(st, end, offset).Truthful(i)
  {
    var st' := AddChunk(st, end, offset);
    assert st.Truthful(i);
    if st.offsets[i] == NO_MESSAGE_START {
      forall k: nat | k < |st'.messages| ensures !st'.StartsIn(k, i) {
        assert !st.StartsIn(k, i);
      }
    } else {
      var k := FirstStart(st, i);
      assert st'.StartsFirst(k, i);
    }
  }

  lemma {:induction false} NewTruthful(st: ValidStream, end: nat, offset: byte)
    requires PendingOffset(st, offset) && |st.offsets| > 0
    requires offset != NO_MESSAGE_START ==> st.cuts[|st.cuts| - 1] + offset as int < end
    ensures AddChunk(st, end, offset).Truthful(|st.offsets|)
  {
    var st' := AddChunk(st, end, offset);
    var n := |st.offsets|;
    var c := st.cuts[n];
    if offset == NO_MESSAGE_START {
      forall k: nat | k < |st'.messages| ensures !st'.StartsIn(k, n) {
        assert st.Bound(k) < c;
      }
    } else {
      var k: nat :| k < |st.messages| && FirstPending(st, offset, k);
      assert st'.StartsFirst(k, n);
    }
  }

  /** After publishing everything written so far, no start lies ahead. */
  lemma {:induction false} CutOffset(st: ValidStream, end: nat, offset: byte)
    requires st.cuts[|st.cuts| - 1] <= end <= |st.Body()|
    requires |st.messages| > 0 ==> st.Bound(|st.messages| - 1) < end
    ensures PendingOffset(AddChunk(st, end, offset), NO_MESSAGE_START)
  {
    forall k: nat | k < |st.messages| ensures st.Bound(k) < end {
      st.BoundMonotone(k, |st.messages| - 1);
    }
    assert forall k: nat :: k < |st.messages| ==> AddChunk(st, end, offset).Bound(k) == st.Bound(k);
  }

  lemma {:induction false} MessageBegins(st: ValidStream, published: seq<Packet>, m: seq<byte>, offset: byte,
                                         length: byte) returns (st': ValidStream)
    requires WholeMessage(m) && PendingOffset(st, offset) && PublishedIs(st, published)
    requires WireCut(st) + length as int == |Wire(st)| && length < DATA_LENGTH
    ensures st' == AddMessage(st, m) && PublishedIs(st', published)
    ensures PendingOffset(st', if offset == NO_MESSAGE_START then length else offset)
    ensures Wire(st') == Wire(st) + m
    ensures HEADER_LENGTH + st'.Bound(|st.messages|) == |Wire(st)|
  {
    AddMessageValid(st, m);
    st' := AddMessage(st, m);
    AddMessageOffset(st, m, offset, length);
    BoundAdd(st, m, 0);
    PublishedStays(st, m, published);
  }

  lemma {:induction false} PublishedStays(st: ValidStream, m: seq<byte>, published: seq<Packet>)
    requires PublishedIs(st, published)
    ensures PublishedIs(AddMessage(st, m), published)
  {
    forall i | 0 <= i < |published| ensures AddMessage(st, m).ChunkData(i) == st.ChunkData(i) {
      AddMessageChunks(st, m, i);
    }
  }

  lemma {:induction false} HeaderBegins(header: seq<byte>)
    requires |header| == HEADER_LENGTH
    ensures EmptyStream(header).Valid() && Wire(EmptyStream(header)) == header
  {
  }

  /** Copying the next n of the remaining bytes m extends the buffered part of the wire. */
  lemma {:induction false} Slices(wire: seq<byte>, cut: nat, pos: nat, m: seq<byte>, n: nat)
    requires cut <= pos <= |wire| && m == wire[pos..] && n <= |m|
    ensures wire[cut..pos] + m[..n] == wire[cut..pos + n] && m[n..] == wire[pos + n..]
  {
  }

  /** Everything publish_message has to keep. */
  lemma {:induction false} PublishKeeps(st: ValidStream, pos: nat, offset: byte, published: seq<Packet>, chunk: Packet)
    returns (st': ValidStream)
    requires PendingOffset(st, offset) && PublishedIs(st, published) && HEADER_LENGTH <= pos
    requires WireCut(st) <= pos <= |Wire(st)| && pos - WireCut(st) < 255
    requires |st.messages| > 0 ==> HEADER_LENGTH + st.Bound(|st.messages| - 1) < pos
    requires chunk.LoggingData? && chunk.sequence == |published| % MODULUS && chunk.firstMessageOffset == offset
    requires chunk.data == Wire(st)[WireCut(st)..pos]
    ensures SameContent(st, st') && PublishedIs(st', published + [chunk]) && PendingOffset(st', NO_MESSAGE_START)
    ensures WireCut(st') == pos && Wire(st') == Wire(st)
  {
    var end := pos - HEADER_LENGTH;
    OffsetBelow(st, offset, end);
    AddChunkValid(st, end, offset);
    st' := AddChunk(st, end, offset);
    AddChunkData(st, end, offset);
    CutOffset(st, end, offset);
    PublishedSnoc(st, end, offset, published, chunk);
  }

  /** The pending offset points at a byte that has been written. */
  lemma {:induction false} OffsetBelow(st: ValidStream, offset: byte, end: nat)
    requires PendingOffset(st, offset)
    requires |st.messages| > 0 ==> st.Bound(|st.messages| - 1) < end
    ensures offset != NO_MESSAGE_START && |st.offsets| > 0 ==> st.cuts[|st.cuts| - 1] + offset as int < end
  {
    if offset != NO_MESSAGE_START && |st.offsets| > 0 {
      var k: nat :| k < |st.messages| && FirstPending(st, offset, k);
      st.BoundMonotone(k, |st.messages| - 1);
    }
  }

  lemma {:induction false} AllWritten(st: ValidStream)
    ensures |st.messages| > 0 ==> st.Bound(|st.messages| - 1) < |st.Body()|
    ensures st.cuts[|st.cuts| - 1] <= |st.Body()|
  {
    if |st.messages| > 0 {
      st.BoundStep(|st.messages| - 1);
      st.BoundEnd(|st.messages|);
    }
  }

  /** The published packets are the chunks of the stream, numbered from 0 modulo 2^16. */
  ghost predicate PublishedIs(st: Stream, published: seq<Packet>) {
    && |st.cuts| == |st.offsets| + 1
    && |published| == |st.offsets|
    && forall i :: 0 <= i < |published| ==>
         && published[i].LoggingData?
         && published[i].sequence == i % MODULUS
         && published[i].data == st.ChunkData(i)
         && published[i].firstMessageOffset == st.offsets[i]
  }

  lemma {:induction false} PublishedSnoc(st: Stream, end: nat, offset: byte, published: seq<Packet>, chunk: Packet)
    requires PublishedIs(st, published) && |st.cuts| > 0
    requires chunk.LoggingData? && chunk.sequence == |published| % MODULUS && chunk.firstMessageOffset == offset
    requires forall i :: 0 <= i < |st.offsets| ==> AddChunk(st, end, offset).ChunkData(i) == st.ChunkData(i)
    requires chunk.data == AddChunk(st, end, offset).ChunkData(|st.offsets|)
    ensures PublishedIs(AddChunk(st, end, offset), published + [chunk])
  {
  }

  // ---- what the sender keeps

  /** The published chunks cut `st`; the buffer holds the bytes from the last cut up to wire position `pos`. */
  ghost predicate SendsAt(w: Writer, st: ValidStream, pos: nat) {
    && PublishedIs(st, w.published)
    && w.isStarted
    && w.msgSequence == |w.published| % MODULUS
    && WireCut(st) <= pos <= |Wire(st)|
    && w.data == Wire(st)[WireCut(st)..pos]
    && PendingOffset(st, w.firstMessageOffset)
  }

  ghost predicate Sends(w: Writer, st: ValidStream, pos: nat) {
    exists p: nat :: SendsAt(w, st, p) && p == pos
  }

  predicate SameContent(st: Stream, st': Stream) {
    st'.header == st.header && st'.messages == st.messages
  }

  lemma {:induction false} PublishStep(w: Writer, st: ValidStream, pos: nat, acks: Acks) returns (st': ValidStream)
    requires Sends(w, st, pos) && |w.data| <= DATA_LENGTH && HEADER_LENGTH <= pos
    requires |st.messages| > 0 ==> HEADER_LENGTH + st.Bound(|st.messages| - 1) < pos
    ensures SameContent(st, st') && PublishedIs(st', Publish(w, acks).published)
    ensures Publish(w, acks).isStarted ==> Sends(Publish(w, acks), st', pos)
  {
    var chunk := LoggingData(w.needReliableTransfer, w.msgSequence, w.data, w.firstMessageOffset);
    st' := PublishKeeps(st, pos, w.firstMessageOffset, w.published, chunk);
    var w' := Publish(w, acks);
    assert w'.published == w.published + [chunk];
    if w'.isStarted {
      PublishedSends(w, w', st', pos);
    }
  }

  /** A writer that has just published is at the last cut. */
  lemma {:induction false} PublishedSends(w: Writer, w': Writer, st': ValidStream, pos: nat)
    requires PublishedIs(st', w'.published) && PendingOffset(st', NO_MESSAGE_START) && w'.isStarted
    requires w.msgSequence == |w.published| % MODULUS && w'.msgSequence == (w.msgSequence + 1) % MODULUS
    requires |w'.published| == |w.published| + 1 && w'.data == [] && w'.firstMessageOffset == NO_MESSAGE_START
    requires WireCut(st') == pos <= |Wire(st')|
    ensures Sends(w', st', pos)
  {
    NextSequence(|w.published|);
    assert Wire(st')[pos..pos] == [];
    assert SendsAt(w', st', pos);
  }

  lemma {:induction false} NextSequence(n: nat)
    ensures (n % MODULUS + 1) % MODULUS == (n + 1) % MODULUS
  {
  }

  /** The header and the messages are all written, with some further cuts. */
  ghost predicate Written(w: Writer, header: seq<byte>, messages: seq<seq<byte>>) {
    exists st: ValidStream :: WrittenAs(w, st, header, messages)
  }

  ghost predicate WrittenAs(w: Writer, st: ValidStream, header: seq<byte>, messages: seq<seq<byte>>) {
    && st.header == header && st.messages == messages
    && PublishedIs(st, w.published)
    && (w.isStarted ==> Sends(w, st, |Wire(st)|))
  }

  /** Writing the rest `m` of the wire from position `pos`, which is in the last message. */
  lemma {:induction false} FillKeeps(w: Writer, st: ValidStream, pos: nat, m: seq<byte>, acks: Acks)
    requires Sends(w, st, pos) && |w.data| < DATA_LENGTH && m == Wire(st)[pos..]
    requires st.messages != [] && HEADER_LENGTH + st.Bound(|st.messages| - 1) <= pos
    ensures Written(Fill(w, m, acks), st.header, st.messages)
    decreases |m|
  {
    if m == [] {
      assert WrittenAs(w, st, st.header, st.messages);
    } else {
      var n := if DATA_LENGTH - |w.data| < |m| then DATA_LENGTH - |w.data| else |m|;
      var w1 := FillPart(w, st, pos, m, n);
      FillStep(w, m, n, w1, acks);
      if |w1.data| < DATA_LENGTH {
        assert WrittenAs(w1, st, st.header, st.messages);
      } else {
        var st1 := FullStep(w1, st, pos + n, acks);
        var w2 := Publish(w1, acks);
        if w2.isStarted {
          FillKeeps(w2, st1, pos + n, m[n..], acks);
        } else {
          assert WrittenAs(w2, st1, st.header, st.messages);
        }
      }
    }
  }

  lemma {:induction false} FillPart(w: Writer, st: ValidStream, pos: nat, m: seq<byte>, n: nat) returns (w1: Writer)
    requires Sends(w, st, pos) && m == Wire(st)[pos..] && n <= |m|
    ensures w1 == w.(data := w.data + m[..n]) && Sends(w1, st, pos + n) && m[n..] == Wire(st)[pos + n..]
  {
    Slices(Wire(st), WireCut(st), pos, m, n);
    w1 := w.(data := w.data + m[..n]);
    var next := pos + n;
    assert SendsAt(w1, st, next);
  }

  /** A full buffer is published in the middle of the last message. */
  lemma {:induction false} FullStep(w: Writer, st: ValidStream, pos: nat, acks: Acks) returns (st': ValidStream)
    requires Sends(w, st, pos) && |w.data| == DATA_LENGTH && HEADER_LENGTH <= pos
    requires st.messages != [] && HEADER_LENGTH + st.Bound(|st.messages| - 1) < pos
    ensures SameContent(st, st') && Wire(st') == Wire(st) && PublishedIs(st', Publish(w, acks).published)
    ensures HEADER_LENGTH + st'.Bound(|st'.messages| - 1) < pos
    ensures Publish(w, acks).isStarted ==> Sends(Publish(w, acks), st', pos) && Publish(w, acks).data == []
  {
    st' := PublishStep(w, st, pos, acks);
    SameContentSame(st, st');
  }

  lemma {:induction false} SameContentSame(st: Stream, st': Stream)
    requires SameContent(st, st')
    ensures Wire(st') == Wire(st)
    ensures st.messages != [] ==> st'.Bound(|st'.messages| - 1) == st.Bound(|st.messages| - 1)
  {
  }

  /** The sender between two operations of a session: everything written is published or in the buffer. */
  ghost predicate InSession(w: Writer, header: seq<byte>, messages: seq<seq<byte>>) {
    Written(w, header, messages) && |w.data| < DATA_LENGTH && (!w.isStarted ==> w.data == [])
  }

  lemma {:induction false} HeaderKeeps(w: Writer, header: seq<byte>, acks: Acks)
    requires |header| == HEADER_LENGTH
    ensures InSession(Write(Start(w), header, acks), header, [])
    ensures Write(Start(w), header, acks).isStarted
  {
    HeaderBegins(header);
    var st: ValidStream := EmptyStream(header);
    var w' := Start(w).(data := [] + header[..HEADER_LENGTH]);
    assert header[..HEADER_LENGTH] == header && header[HEADER_LENGTH..] == [];
    assert Write(Start(w), header, acks) == w';
    var pos := |Wire(st)|;
    assert SendsAt(w', st, pos);
    assert WrittenAs(w', st, header, []);
  }

  lemma {:induction false} WriteKeeps(w: Writer, header: seq<byte>, messages: seq<seq<byte>>, m: seq<byte>, acks: Acks)
    requires InSession(w, header, messages) && WholeMessage(m)
    ensures InSession(Write(w, m, acks), header, if w.isStarted then messages + [m] else messages)
  {
    var st: ValidStream :| WrittenAs(w, st, header, messages);
    if w.isStarted {
      var w1 := if w.firstMessageOffset == NO_MESSAGE_START then w.(firstMessageOffset := |w.data|) else w;
      var st1 := BeginMessage(w, w1, st, m);
      FillKeeps(w1, st1, |Wire(st)|, m, acks);
      FillBounded(w1, m, acks);
    }
  }

  lemma {:induction false} BeginMessage(w: Writer, w1: Writer, st: ValidStream, m: seq<byte>) returns (st1: ValidStream)
    requires Sends(w, st, |Wire(st)|) && |w.data| < DATA_LENGTH && WholeMessage(m)
    requires w1 == if w.firstMessageOffset == NO_MESSAGE_START then w.(firstMessageOffset := |w.data|) else w
    ensures st1 == AddMessage(st, m) && |Wire(st)| <= |Wire(st1)|
    ensures Sends(w1, st1, |Wire(st)|) && Wire(st1)[|Wire(st)|..] == m
    ensures HEADER_LENGTH + st1.Bound(|st1.messages| - 1) == |Wire(st)|
  {
    st1 := MessageBegins(st, w.published, m, w.firstMessageOffset, |w.data|);
    var pos := |Wire(st)|;
    assert Wire(st1)[WireCut(st1)..pos] == Wire(st)[WireCut(st)..pos];
    assert SendsAt(w1, st1, pos);
  }

  lemma {:induction false} SetReliableKeeps(w: Writer, header: seq<byte>, messages: seq<seq<byte>>,
                                            needReliable: bool, acks: Acks)
    requires InSession(w, header, messages)
    ensures InSession(SetReliable(w, needReliable, acks), header, messages)
  {
    var st: ValidStream :| WrittenAs(w, st, header, messages);
    var w' := SetReliable(w, needReliable, acks);
    if !needReliable && w.needReliableTransfer && |w.data| > 0 {
      AllWritten(st);
      var st' := PublishStep(w, st, |Wire(st)|, acks);
      SameContentSame(st, st');
      assert WrittenAs(Publish(w, acks), st', header, messages);
      ModeKeeps(Publish(w, acks), w', st', header, messages);
    } else {
      ModeKeeps(w, w', st, header, messages);
    }
  }

  /** What has been written does not depend on the mode. */
  lemma {:induction false} ModeKeeps(w: Writer, w': Writer, st: ValidStream, header: seq<byte>,
                                     messages: seq<seq<byte>>)
    requires WrittenAs(w, st, header, messages) && w' == w.(needReliableTransfer := w'.needReliableTransfer)
    ensures WrittenAs(w', st, header, messages)
  {
    if w.isStarted {
      var pos := |Wire(st)|;
      assert SendsAt(w, st, pos);
      assert SendsAt(w', st, pos);
    }
  }

  // ---- whole sessions of the sender

  datatype Op = WriteMessage(m: seq<byte>) | SetNeedReliableTransfer(needReliable: bool)

  predicate GoodOps(ops: seq<Op>) {
    forall i :: 0 <= i < |ops| && ops[i].WriteMessage? ==> WholeMessage(ops[i].m)
  }

  function Apply(w: Writer, op: Op, acks: Acks): Writer
    requires |w.data| < DATA_LENGTH
  {
    match op
    case WriteMessage(m) => Write(w, m, acks)
    case SetNeedReliableTransfer(b) => SetReliable(w, b, acks)
  }

  lemma {:induction false} ApplyBounded(w: Writer, op: Op, acks: Acks)
    requires |w.data| < DATA_LENGTH
    ensures |Apply(w, op, acks).data| < DATA_LENGTH
  {
    if op.WriteMessage? && w.isStarted {
      FillBounded(if w.firstMessageOffset == NO_MESSAGE_START then w.(firstMessageOffset := |w.data|) else w, op.m, acks);
    }
  }

  function RunOps(w: Writer, ops: seq<Op>, acks: Acks): (r: Writer)
    requires |w.data| < DATA_LENGTH
    ensures |r.data| < DATA_LENGTH
    decreases |ops|
  {
    if ops == [] then w
    else
      var w1 := RunOps(w, ops[..|ops| - 1], acks);
      ApplyBounded(w1, ops[|ops| - 1], acks);
      Apply(w1, ops[|ops| - 1], acks)
  }

  /** After a stop nothing is sent and nothing is kept, whatever is written, until the next start. */
  lemma {:induction false} StoppedIsSilent(w: Writer, ops: seq<Op>, acks: Acks)
    requires !w.isStarted && w.data == []
    ensures var r := RunOps(w, ops, acks);
      r == w.(needReliableTransfer := r.needReliableTransfer)
    decreases |ops|
  {
    if ops == [] {
    } else {
      StoppedIsSilent(w, ops[..|ops| - 1], acks);
    }
  }

  /** The messages written before the sender stopped, if it did. */
  function AcceptedWrites(w: Writer, ops: seq<Op>, acks: Acks): seq<seq<byte>>
    requires |w.data| < DATA_LENGTH
    decreases |ops|
  {
    if ops == [] then []
    else
      var front, last := ops[..|ops| - 1], ops[|ops| - 1];
      AcceptedWrites(w, front, acks) +
      (if last.WriteMessage? && RunOps(w, front, acks).isStarted then [last.m] else [])
  }

  lemma {:induction false} RunOpsKeeps(w: Writer, header: seq<byte>, ops: seq<Op>, acks: Acks)
    requires InSession(w, header, []) && GoodOps(ops)
    ensures InSession(RunOps(w, ops, acks), header, AcceptedWrites(w, ops, acks))
    decreases |ops|
  {
    if ops == [] {
    } else {
      var front, last := ops[..|ops| - 1], ops[|ops| - 1];
      RunOpsKeeps(w, header, front, acks);
      var w1, messages := RunOps(w, front, acks), AcceptedWrites(w, front, acks);
      match last {
        case WriteMessage(m) => WriteKeeps(w1, header, messages, m, acks);
        case SetNeedReliableTransfer(b) => SetReliableKeeps(w1, header, messages, b, acks);
      }
      assert messages + [] == messages;
    }
  }

  /** A whole logging session: header first, then any messages and switches of the transfer mode. */
  function Transmit(w: Writer, header: seq<byte>, ops: seq<Op>, acks: Acks): Writer
    requires |header| == HEADER_LENGTH
  {
    FillBounded(Start(w), header, acks);
    RunOps(Write(Start(w), header, acks), ops, acks)
  }

  function Transmitted(w: Writer, header: seq<byte>, ops: seq<Op>, acks: Acks): seq<seq<byte>>
    requires |header| == HEADER_LENGTH
  {
    FillBounded(Start(w), header, acks);
    AcceptedWrites(Write(Start(w), header, acks), ops, acks)
  }

  /** The sender's chunks are a cutting of the header and the messages, with truthful offsets. */
  lemma {:induction false} SenderTheorem(w: Writer, header: seq<byte>, ops: seq<Op>, acks: Acks)
    requires |header| == HEADER_LENGTH && GoodOps(ops)
    ensures exists st: ValidStream ::
      Cutting(st, header, Transmitted(w, header, ops, acks), Transmit(w, header, ops, acks).published)
  {
    FillBounded(Start(w), header, acks);
    HeaderKeeps(w, header, acks);
    RunOpsKeeps(Write(Start(w), header, acks), header, ops, acks);
    CuttingFrom(Transmit(w, header, ops, acks), header, Transmitted(w, header, ops, acks));
  }

  ghost predicate Cutting(st: ValidStream, header: seq<byte>, messages: seq<seq<byte>>, published: seq<Packet>) {
    st.header == header && st.messages == messages && PublishedIs(st, published)
  }

  lemma {:induction false} CuttingFrom(w: Writer, header: seq<byte>, messages: seq<seq<byte>>)
    requires Written(w, header, messages)
    ensures exists st: ValidStream :: Cutting(st, header, messages, w.published)
  {
    var st: ValidStream :| WrittenAs(w, st, header, messages);
    assert Cutting(st, header, messages, w.published);
  }

  // ---- the object

  class LogWriterMavlink {
    const acks: Acks
    var isStarted: bool
    var needReliableTransfer: bool
    const data: array<byte>
    var length: nat
    var firstMessageOffset: byte
    var msgSequence: u16
    var published: seq<Packet>

    ghost predicate Valid()
      reads this
    {
      data.Length == DATA_LENGTH && length < DATA_LENGTH
    }

    function Value(): Writer
      requires length <= data.Length
      reads this, data
    {
      Writer(isStarted, needReliableTransfer, data[..length], firstMessageOffset, msgSequence, published)
    }

    constructor (acks: Acks)
      ensures Valid() && this.acks == acks && !isStarted && published == []
    {
      this.acks := acks;
      data := new byte[DATA_LENGTH](i => 0);
      length, isStarted, needReliableTransfer, firstMessageOffset, msgSequence, published := 0, false, false, 0, 0, [];
    }

    method StartLog()
      requires Valid()
      modifies this
      ensures Valid() && Value() == Start(old(Value()))
    {
      msgSequence, length, firstMessageOffset, isStarted, published := 0, 0, 0, true, [];
    }

    method StopLog()
      modifies this`length, this`isStarted
      ensures length == 0 && !isStarted
    {
      length := 0;
      isStarted := false;
    }

    method PublishMessage() returns (ok: bool)
      requires data.Length == DATA_LENGTH && length <= DATA_LENGTH
      modifies this
      ensures Valid() && length == 0 && Value() == Publish(old(Value()), acks)
      ensures old(isStarted) ==> ok == isStarted
    {
      var chunk := LoggingData(needReliableTransfer, msgSequence, data[..length], firstMessageOffset);
      published := published + [chunk];
      if needReliableTransfer {
        var gotAck := acks(|published| - 1);
        if !gotAck {
          StopLog();
          return false;
        }
      }
      msgSequence := (msgSequence + 1) % MODULUS;
      length := 0;
      firstMessageOffset := 255;
      return true;
    }

    /** memcpy of `count` bytes of `m` behind the bytes in the buffer. */
    method CopyIn(m: seq<byte>, from: nat, count: nat)
      requires from + count <= |m| && length + count <= data.Length
      modifies data, this`length
      ensures length == old(length) + count
      ensures data[..length] == old(data[..length]) + m[from..from + count]
    {
      forall i | 0 <= i < count {
        data[length + i] := m[from + i];
      }
      length := length + count;
      assert data[..length] == old(data[..length]) + m[from..from + count];
    }

    method WriteMessage(m: seq<byte>) returns (ok: bool)
      requires Valid()
      modifies this, data
      ensures Valid() && Value() == Write(old(Value()), m, acks)
      ensures ok <==> !old(isStarted) || isStarted
    {
      if !isStarted {
        return true;
      }
      if firstMessageOffset == 255 {
        firstMessageOffset := length;
      }
      ghost var w := Value();
      var sent := 0;
      assert m[sent..] == m;
      while sent < |m|
        invariant 0 <= sent <= |m| && Valid() && isStarted
        invariant Fill(w, m, acks) == Fill(Value(), m[sent..], acks)
      {
        sent := SendPart(m, sent);
        if !isStarted {
          return false;
        }
      }
      return true;
    }

    /** One turn of the copying loop. */
    method SendPart(m: seq<byte>, sent: nat) returns (sent': nat)
      requires Valid() && isStarted && sent < |m|
      modifies this, data
      ensures Valid() && sent < sent' <= |m|
      ensures Fill(old(Value()), m[sent..], acks) ==
                if isStarted then Fill(Value(), m[sent'..], acks) else Value()
    {
      ghost var rest := m[sent..];
      var sendLen := if DATA_LENGTH - length < |m| - sent then DATA_LENGTH - length else |m| - sent;
      CopyIn(m, sent, sendLen);
      sent' := sent + sendLen;
      assert m[sent..sent'] == rest[..sendLen] && m[sent'..] == rest[sendLen..];
      FillStep(old(Value()), rest, sendLen, Value(), acks);
      if length >= DATA_LENGTH {
        var _ := PublishMessage();
      }
    }

    method SetNeedReliableTransfer(needReliable: bool)
      requires Valid()
      modifies this
      ensures Valid() && Value() == SetReliable(old(Value()), needReliable, acks)
    {
      if !needReliable && needReliableTransfer {
        if length > 0 {
          var _ := PublishMessage();
        }
      }
      needReliableTransfer := needReliable;
    }
  }
}
