/**
 Loss-tolerant reassembly: whatever chunks after the first are lost, the file holds the header and whole messages,
 and apart from the inserted dropout notes these are exactly the messages that arrived in full.
 */
module UlogReassembly {
  import opened Bytes
  import opened UlogFormat
  import opened UlogReceiver
  import opened UlogStream

  // ---- what the file is made of

  datatype Record = Message(bytes: seq<byte>) | Dropout(drops: nat)

  function RecordBytes(r: Record): seq<byte> {
    match r
    case Message(m) => m
    case Dropout(d) => DropoutRecord(d)
  }

  function Render(items: seq<Record>): seq<byte> {
    if items == [] then [] else Render(items[..|items| - 1]) + RecordBytes(items[|items| - 1])
  }

  /** The records that are not dropout notes. */
  function Kept(items: seq<Record>): seq<seq<byte>> {
    if items == [] then []
    else
      var front, last := items[..|items| - 1], items[|items| - 1];
      Kept(front) + if last.Message? then [last.bytes] else []
  }

  /** A dropout note: how many messages stand before it, and the number of lost chunks it reports. */
  datatype Note = Note(behind: nat, drops: nat)

  function Notes(items: seq<Record>): seq<Note> {
    if items == [] then []
    else
      var front, last := items[..|items| - 1], items[|items| - 1];
      Notes(front) + if last.Dropout? then [Note(|Kept(front)|, last.drops)] else []
  }

  function AsRecords(ms: seq<seq<byte>>): seq<Record> {
    seq(|ms|, i requires 0 <= i < |ms| => Message(ms[i]))
  }

  lemma {:induction false} AppendRecord(items: seq<Record>, r: Record)
    ensures Render(items + [r]) == Render(items) + RecordBytes(r)
    ensures Kept(items + [r]) == Kept(items) + (if r.Message? then [r.bytes] else [])
    ensures Notes(items + [r]) == Notes(items) + (if r.Dropout? then [Note(|Kept(items)|, r.drops)] else [])
  {
    assert (items + [r])[..|items|] == items;
  }

  lemma {:induction false} AsRecordsSnoc(ms: seq<seq<byte>>)
    requires ms != []
    ensures AsRecords(ms) == AsRecords(ms[..|ms| - 1]) + [Message(ms[|ms| - 1])]
  {
  }

  lemma {:induction false} NotesMessages(items: seq<Record>, ms: seq<seq<byte>>)
    ensures Notes(items + AsRecords(ms)) == Notes(items)
    decreases |ms|
  {
    if ms == [] {
      assert items + AsRecords(ms) == items;
    } else {
      NotesMessages(items, ms[..|ms| - 1]);
      AsRecordsSnoc(ms);
      var all := items + AsRecords(ms);
      assert all[..|all| - 1] == items + AsRecords(ms[..|ms| - 1]);
    }
  }

  lemma {:induction false} AppendMessages(items: seq<Record>, ms: seq<seq<byte>>)
    ensures Render(items + AsRecords(ms)) == Render(items) + Flat(ms)
    ensures Kept(items + AsRecords(ms)) == Kept(items) + ms
    ensures Notes(items + AsRecords(ms)) == Notes(items)
    decreases |ms|
  {
    NotesMessages(items, ms);
    if ms == [] {
      assert items + AsRecords(ms) == items;
    } else {
      var front, last := ms[..|ms| - 1], ms[|ms| - 1];
      AppendMessages(items, front);
      AsRecordsSnoc(ms);
      Assoc(items, AsRecords(front), [Message(last)]);
      AppendLast(items, items + AsRecords(front), front, last);
      EndsInLast(ms);
    }
  }

  lemma {:induction false} AppendLast(items: seq<Record>, some: seq<Record>, front: seq<seq<byte>>, last: seq<byte>)
    requires Render(some) == Render(items) + Flat(front) && Kept(some) == Kept(items) + front
    ensures Render(some + [Message(last)]) == Render(items) + Flat(front + [last])
    ensures Kept(some + [Message(last)]) == Kept(items) + (front + [last])
  {
    AppendRecord(some, Message(last));
    Assoc(Kept(items), front, [last]);
    FlatSnoc(front, last);
    Assoc(Render(items), Flat(front), last);
  }

  // ---- the invariant

  /**
   After chunk i - 1 has been processed. With an empty buffer, k is the first message starting at or after the cut;
   otherwise k is the message whose bytes so far (possibly all of them) are in the buffer.
   */
  ghost predicate Inv(st: ValidStream, arrived: set<nat>, i: nat, k: nat, items: seq<Record>, s: Session) {
    && i < |st.cuts| && k <= |st.messages|
    && s.gotUlogHeader
    && FileIs(st, arrived, k, items, s.file)
    && BufferIs(st, arrived, i, k, s.ulogMessage)
  }

  /** After chunk `last`. */
  ghost predicate InvAfter(st: ValidStream, arrived: set<nat>, last: nat, k: nat, items: seq<Record>, s: Session) {
    exists i: nat :: i == last + 1 && Inv(st, arrived, i, k, items, s)
  }

  ghost predicate FileIs(st: ValidStream, arrived: set<nat>, k: nat, items: seq<Record>, file: seq<byte>)
    requires k <= |st.messages|
  {
    && file == st.header + Render(items)
    && Kept(items) == st.DeliveredBelow(k, arrived)
  }

  ghost predicate BufferIs(st: ValidStream, arrived: set<nat>, i: nat, k: nat, buffer: seq<byte>)
    requires i < |st.cuts| && k <= |st.messages|
  {
    if buffer == [] then Between(st, i, k) else Holding(st, arrived, i, k, buffer)
  }

  predicate Between(st: ValidStream, i: nat, k: nat)
    requires i < |st.cuts| && k <= |st.messages|
  {
    st.cuts[i] <= st.Bound(k) && (k > 0 ==> st.Bound(k - 1) < st.cuts[i])
  }

  ghost predicate Holding(st: ValidStream, arrived: set<nat>, i: nat, k: nat, buffer: seq<byte>)
    requires i < |st.cuts| && k <= |st.messages|
  {
    && k < |st.messages|
    && st.Bound(k) < st.cuts[i] <= st.Bound(k + 1)
    && st.cuts[i] <= |st.Body()|
    && buffer == st.Body()[st.Bound(k)..st.cuts[i]]
    && forall j: nat :: j < i && st.Touches(j, k) ==> j in arrived
  }

  // ---- where the notes stand

  /** Chunks lost in a row, and the first of them. */
  datatype Gap = Gap(first: nat, drops: nat)

  /**
   So many messages are delivered below some message k, which is the one that the loss of chunk i cuts off or follows,
   or else the first to start behind the cut.
   */
  ghost predicate InPlace(st: ValidStream, arrived: set<nat>, i: nat, behind: nat) {
    exists k: nat :: PlaceAt(st, arrived, i, k, behind)
  }

  ghost predicate PlaceAt(st: ValidStream, arrived: set<nat>, i: nat, k: nat, behind: nat) {
    && i < |st.cuts| && k <= |st.messages| && behind == |st.DeliveredBelow(k, arrived)|
    && (Between(st, i, k) || (k < |st.messages| && st.Bound(k) < st.cuts[i] <= st.Bound(k + 1)))
  }

  /** One note for each gap, in its place. */
  ghost predicate Placed(st: ValidStream, arrived: set<nat>, gaps: seq<Gap>, notes: seq<Note>) {
    && |notes| == |gaps|
    && forall n :: 0 <= n < |gaps| ==>
         notes[n].drops == gaps[n].drops && InPlace(st, arrived, gaps[n].first, notes[n].behind)
  }

  ghost predicate Noted(st: ValidStream, arrived: set<nat>, gaps: seq<Gap>, items: seq<Record>) {
    exists notes :: Placed(st, arrived, gaps, notes) && notes == Notes(items)
  }

  lemma {:induction false} PlacedSnoc(st: ValidStream, arrived: set<nat>, gaps: seq<Gap>, items: seq<Record>, gap: Gap,
                                      behind: nat, items': seq<Record>)
    requires Noted(st, arrived, gaps, items) && InPlace(st, arrived, gap.first, behind)
    requires Notes(items') == Notes(items) + [Note(behind, gap.drops)]
    ensures Noted(st, arrived, gaps + [gap], items')
  {
    var notes := Notes(items) + [Note(behind, gap.drops)];
    assert Placed(st, arrived, gaps + [gap], notes);
  }

  lemma {:induction false} DeliveredRun(st: ValidStream, arrived: set<nat>, j: nat, n: nat)
    requires j <= n <= |st.messages|
    requires forall k :: j <= k < n ==> st.Delivered(k, arrived)
    ensures st.DeliveredBelow(n, arrived) == st.DeliveredBelow(j, arrived) + st.messages[j..n]
    decreases n
  {
    if j >= n {
    } else {
      DeliveredRun(st, arrived, j, n - 1);
      var last := [st.messages[n - 1]];
      assert st.messages[j..n] == st.messages[j..n - 1] + last;
      Assoc(st.DeliveredBelow(j, arrived), st.messages[j..n - 1], last);
    }
  }

  lemma {:induction false} LostRun(st: ValidStream, arrived: set<nat>, j: nat, n: nat)
    requires j <= n <= |st.messages|
    requires forall k :: j <= k < n ==> !st.Delivered(k, arrived)
    ensures st.DeliveredBelow(n, arrived) == st.DeliveredBelow(j, arrived)
    decreases n
  {
    if j >= n {
    } else {
      LostRun(st, arrived, j, n - 1);
    }
  }

  // ---- a chunk without a gap before it

  /** No message starts in the chunk. */
  lemma {:induction false} AbsorbMiddle(st: ValidStream, arrived: set<nat>, i: nat, k: nat, items: seq<Record>, s: Session)
    requires Inv(st, arrived, i, k, items, s) && i + 1 < |st.cuts| && i in arrived
    requires st.offsets[i] == NO_MESSAGE_START && st.Truthful(i)
    ensures Inv(st, arrived, i + 1, k, items, Absorb(s, st.ChunkBody(i), st.offsets[i]))
  {
    st.CutsAscend(i, i + 1);
    if s.ulogMessage == [] {
      ShortChunk(st, i);
      assert s.file + [] == s.file;
      NoStart(st, i, k);
    } else {
      HoldMore(st, arrived, i, k, s.ulogMessage);
    }
  }

  lemma {:induction false} ShortChunk(st: ValidStream, i: nat)
    requires i < |st.offsets|
    ensures Drop(st.ChunkBody(i), 255) == [] && Split([]) == Parts([], [])
  {
    assert |st.ChunkBody(i)| <= |st.ChunkData(i)| < 255;
  }

  /** The held message goes on through the whole chunk. */
  lemma {:induction false} HoldMore(st: ValidStream, arrived: set<nat>, i: nat, k: nat, buffer: seq<byte>)
    requires i + 1 < |st.cuts| && k <= |st.messages| && i in arrived && Holding(st, arrived, i, k, buffer) && buffer != []
    requires st.offsets[i] == NO_MESSAGE_START && st.Truthful(i)
    ensures BufferIs(st, arrived, i + 1, k, buffer + st.ChunkBody(i))
  {
    var c, c' := st.cuts[i], st.cuts[i + 1];
    st.CutsAscend(i, i + 1);
    st.BoundEnd(k + 1);
    NoStart(st, i, k + 1);
    JoinSlices(st.Body(), st.Bound(k), c, c');
  }

  lemma {:induction false} NoStart(st: ValidStream, i: nat, k: nat)
    requires i + 1 < |st.cuts| && st.offsets[i] == NO_MESSAGE_START && st.Truthful(i)
    requires k <= |st.messages| && st.cuts[i] <= st.Bound(k)
    ensures st.cuts[i + 1] <= st.Bound(k)
  {
    if k < |st.messages| {
      assert !st.StartsIn(k, i);
    } else {
      st.BoundEnd(k);
      st.CutsAscend(i + 1, i + 1);
    }
  }

  /** Messages that start in a chunk and end in it need only that chunk. */
  lemma {:induction false} WithinOne(st: ValidStream, arrived: set<nat>, i: nat, q: nat, n: nat)
    requires i + 1 < |st.cuts| && i in arrived
    requires q <= n <= |st.messages| && st.cuts[i] <= st.Bound(q) && st.Bound(n) <= st.cuts[i + 1]
    ensures st.DeliveredBelow(n, arrived) == st.DeliveredBelow(q, arrived) + st.messages[q..n]
  {
    forall k | q <= k < n ensures st.Delivered(k, arrived) {
      st.BoundMonotone(q, k);
      st.BoundMonotone(k + 1, n);
      assert st.Ordered(i + 1, |st.cuts| - 1);
      OnlyChunk(st, i, k);
    }
    DeliveredRun(st, arrived, q, n);
  }

  lemma {:induction false} OnlyChunk(st: ValidStream, i: nat, k: nat)
    requires i + 1 < |st.cuts| && k < |st.messages|
    requires st.cuts[i] <= st.Bound(k) && st.Bound(k + 1) <= st.cuts[i + 1]
    ensures forall j: nat :: j < st.Chunks() && st.Touches(j, k) ==> j == i
  {
    forall j: nat | j < st.Chunks() && j != i ensures !st.Touches(j, k) {
      if j < i {
        assert st.Ordered(j + 1, i);
      } else {
        assert st.Ordered(i + 1, j);
      }
    }
  }

  /** The buffer plus the bytes before the first message start are message k, and it is delivered. */
  lemma {:induction false} CompleteHeld(st: ValidStream, arrived: set<nat>, i: nat, k: nat, q: nat, buffer: seq<byte>)
    requires i + 1 < |st.cuts| && k < |st.messages| && q == k + 1 && i in arrived
    requires Holding(st, arrived, i, k, buffer) && st.Bound(q) <= st.cuts[i + 1]
    ensures buffer + Take(st.ChunkBody(i), st.Bound(q) - st.cuts[i]) == st.messages[k]
    ensures st.Delivered(k, arrived)
  {
    var c := st.cuts[i];
    st.BodyOne(k);
    st.CutsAscend(i, i + 1);
    assert st.Ordered(i + 1, |st.cuts| - 1);
    var data := st.ChunkBody(i);
    assert Take(data, st.Bound(k + 1) - c) == st.Body()[c..st.Bound(k + 1)];
    assert st.Body()[st.Bound(k)..c] + st.Body()[c..st.Bound(k + 1)] == st.Body()[st.Bound(k)..st.Bound(k + 1)];
    forall j: nat | i < j < st.Chunks() ensures !st.Touches(j, k) {
      assert st.Ordered(i + 1, j);
    }
  }

  /** What splitting a chunk from its first message start gives. */
  lemma {:induction false} TailSplit(st: ValidStream, i: nat, q: nat, at: nat) returns (n: nat)
    requires i + 1 < |st.cuts| && q < |st.messages| && st.StartsIn(q, i) && at == st.Bound(q) - st.cuts[i]
    ensures q <= n <= |st.messages| && st.Bound(n) <= st.cuts[i + 1] <= |st.Body()|
    ensures n < |st.messages| ==> st.cuts[i + 1] < st.Bound(n + 1)
    ensures Split(Drop(st.ChunkBody(i), at))
         == Parts(st.messages[q..n], st.Body()[st.Bound(n)..st.cuts[i + 1]])
  {
    var c, c' := st.cuts[i], st.cuts[i + 1];
    st.CutsAscend(i, i + 1);
    n := st.EndedBy(c', |st.messages|);
    if n < q {
      st.BoundMonotone(n + 1, q);
    }
    st.SplitBody(q, n, c');
    assert Drop(st.ChunkBody(i), at) == st.Body()[st.Bound(q)..c'];
  }

  /** The bytes after the last message end are either none, or the start of message n. */
  lemma {:induction false} TailBuffer(st: ValidStream, arrived: set<nat>, i: nat, q: nat, n: nat)
    requires i + 1 < |st.cuts| && i in arrived && q < |st.messages| && st.StartsIn(q, i)
    requires q <= n <= |st.messages| && st.Bound(n) <= st.cuts[i + 1] <= |st.Body()|
    requires n < |st.messages| ==> st.cuts[i + 1] < st.Bound(n + 1)
    ensures BufferIs(st, arrived, i + 1, n, st.Body()[st.Bound(n)..st.cuts[i + 1]])
  {
    if st.Bound(n) == st.cuts[i + 1] {
      if n > 0 {
        st.BoundStep(n - 1);
      }
    } else {
      st.BoundEnd(n);
      NothingBefore(st, i, n, q);
    }
  }

  /** The part of the step that is the same with and without a completed message in front. */
  lemma {:induction false} AbsorbTail(st: ValidStream, arrived: set<nat>, i: nat, q: nat, items: seq<Record>,
                                      file: seq<byte>)
    returns (n: nat, items': seq<Record>)
    requires i + 1 < |st.cuts| && i in arrived && q < |st.messages| && st.StartsIn(q, i)
    requires FileIs(st, arrived, q, items, file)
    ensures var p := Split(Drop(st.ChunkBody(i), st.Bound(q) - st.cuts[i]));
      && n <= |st.messages|
      && FileIs(st, arrived, n, items', file + Flat(p.messages))
      && BufferIs(st, arrived, i + 1, n, p.rest)
    ensures Notes(items') == Notes(items)
  {
    n := TailSplit(st, i, q, st.Bound(q) - st.cuts[i]);
    TailBuffer(st, arrived, i, q, n);
    WithinOne(st, arrived, i, q, n);
    AppendMessages(items, st.messages[q..n]);
    items' := items + AsRecords(st.messages[q..n]);
    Assoc(st.header, Render(items), Flat(st.messages[q..n]));
  }

  lemma {:induction false} NothingBefore(st: ValidStream, i: nat, n: nat, q: nat)
    requires i < |st.cuts| && q <= n < |st.messages| && st.cuts[i] <= st.Bound(q)
    ensures forall j: nat :: j < i ==> !st.Touches(j, n)
  {
    st.BoundMonotone(q, n);
    forall j: nat | j < i ensures !st.Touches(j, n) {
      assert st.Ordered(j + 1, i);
    }
  }

  lemma {:induction false} AbsorbStart(st: ValidStream, arrived: set<nat>, i: nat, k: nat, items: seq<Record>, s: Session)
    returns (k': nat, items': seq<Record>)
    requires Inv(st, arrived, i, k, items, s) && i + 1 < |st.cuts| && i in arrived
    requires st.offsets[i] != NO_MESSAGE_START && st.Truthful(i)
    ensures Inv(st, arrived, i + 1, k', items', Absorb(s, st.ChunkBody(i), st.offsets[i]))
    ensures Notes(items') == Notes(items)
  {
    var q := FirstStart(st, i);
    if s.ulogMessage == [] {
      SameStart(st, i, k, q);
      k', items' := AbsorbTail(st, arrived, i, q, items, s.file);
    } else {
      k', items' := AbsorbStartHolding(st, arrived, i, k, q, items, s.file, s.ulogMessage);
    }
  }

  lemma {:induction false} FirstStart(st: ValidStream, i: nat) returns (q: nat)
    requires i + 1 < |st.cuts| && st.offsets[i] != NO_MESSAGE_START && st.Truthful(i)
    ensures q < |st.messages| && st.StartsIn(q, i) && Between(st, i, q)
    ensures st.offsets[i] == st.Bound(q) - st.cuts[i] <= |st.ChunkBody(i)|
  {
    q :| q < |st.messages| && st.StartsFirst(q, i);
    st.CutsAscend(i, i + 1);
  }

  lemma {:induction false} AbsorbStartHolding(st: ValidStream, arrived: set<nat>, i: nat, k: nat, q: nat,
                                              items: seq<Record>, file: seq<byte>, buffer: seq<byte>)
    returns (n: nat, items': seq<Record>)
    requires i + 1 < |st.cuts| && i in arrived && q < |st.messages| && k < |st.messages|
    requires st.StartsIn(q, i) && Between(st, i, q) && Holding(st, arrived, i, k, buffer)
    requires FileIs(st, arrived, k, items, file)
    ensures var d := st.Bound(q) - st.cuts[i];
      var p := Split(Drop(st.ChunkBody(i), d));
      && n <= |st.messages|
      && FileIs(st, arrived, n, items', (file + (buffer + Take(st.ChunkBody(i), d))) + Flat(p.messages))
      && BufferIs(st, arrived, i + 1, n, p.rest)
    ensures Notes(items') == Notes(items)
  {
    SameStart(st, i, k + 1, q);
    st.CutsAscend(i, i + 1);
    CompleteHeld(st, arrived, i, k, q, buffer);
    var m := st.messages[k];
    var items1 := OneMore(st, arrived, k, q, items, file, m);
    n, items' := AbsorbTail(st, arrived, i, q, items1, file + m);
  }

  /** One more delivered message in the file. */
  lemma {:induction false} OneMore(st: ValidStream, arrived: set<nat>, k: nat, q: nat, items: seq<Record>,
                                   file: seq<byte>, m: seq<byte>)
    returns (items': seq<Record>)
    requires k < |st.messages| && q == k + 1 && m == st.messages[k] && st.Delivered(k, arrived)
    requires FileIs(st, arrived, k, items, file)
    ensures FileIs(st, arrived, q, items', file + m) && Notes(items') == Notes(items)
  {
    AppendRecord(items, Message(m));
    Assoc(st.header, Render(items), m);
    items' := items + [Message(m)];
  }

  /** The first start at or after a cut is unique. */
  lemma {:induction false} SameStart(st: ValidStream, i: nat, k: nat, q: nat)
    requires i < |st.cuts| && k <= |st.messages| && q <= |st.messages|
    requires Between(st, i, k) && Between(st, i, q)
    ensures k == q
  {
    if k < q {
      st.BoundMonotone(k, q - 1);
    } else if q < k {
      st.BoundMonotone(q, k - 1);
    }
  }

  lemma {:induction false} AbsorbStep(st: ValidStream, arrived: set<nat>, i: nat, k: nat, items: seq<Record>, s: Session)
    returns (k': nat, items': seq<Record>)
    requires Inv(st, arrived, i, k, items, s) && 1 <= i && i + 1 < |st.cuts| && i in arrived
    ensures InvAfter(st, arrived, i, k', items', Absorb(s, st.ChunkBody(i), st.offsets[i]))
    ensures Notes(items') == Notes(items)
  {
    assert st.Truthful(i);
    if st.offsets[i] == NO_MESSAGE_START {
      AbsorbMiddle(st, arrived, i, k, items, s);
      k', items' := k, items;
    } else {
      k', items' := AbsorbStart(st, arrived, i, k, items, s);
    }
  }

  // ---- a gap

  /** Some chunk of a run contains any given position of the run. */
  lemma {:induction false} ChunkAt(st: ValidStream, i: nat, i': nat, c: nat) returns (j: nat)
    requires i < i' < |st.cuts| && st.cuts[i] <= c < st.cuts[i']
    ensures i <= j < i' && st.cuts[j] <= c < st.cuts[j + 1]
    decreases i' - i
  {
    if c < st.cuts[i + 1] {
      j := i;
    } else {
      j := ChunkAt(st, i + 1, i', c);
    }
  }

  /** Messages that start inside a lost run of chunks are not delivered. */
  lemma {:induction false} StartsInLostRun(st: ValidStream, arrived: set<nat>, i: nat, i': nat, k: nat, k': nat)
    requires i < i' < |st.cuts| && k <= k' <= |st.messages|
    requires forall j :: i <= j < i' ==> j !in arrived
    requires st.cuts[i] <= st.Bound(k) && (k' > 0 ==> st.Bound(k' - 1) < st.cuts[i'])
    ensures st.DeliveredBelow(k', arrived) == st.DeliveredBelow(k, arrived)
  {
    forall q | k <= q < k' ensures !st.Delivered(q, arrived) {
      st.BoundMonotone(k, q);
      st.BoundMonotone(q, k' - 1);
      var j := ChunkAt(st, i, i', st.Bound(q));
      st.BoundStep(q);
      assert st.Touches(j, q);
    }
    LostRun(st, arrived, k, k');
  }

  lemma {:induction false} NextAfter(st: ValidStream, i: nat, i': nat, k: nat)
    requires i <= i' < |st.cuts| && k <= |st.messages| && (k > 0 ==> st.Bound(k - 1) < st.cuts[i])
    ensures st.cuts[i'] <= |st.Body()|
    ensures k <= st.NextStart(st.cuts[i'])
  {
    st.CutsAscend(i, i');
    var n := st.NextStart(st.cuts[i']);
    if n < k {
      st.BoundMonotone(n, k - 1);
    }
  }

  /** The file after the dropout note, if there is one. */
  lemma {:induction false} NoteDropout(header: seq<byte>, items: seq<Record>, s: Session,
                                       drops: nat) returns (noted: seq<Record>)
    requires s.file == header + Render(items) && drops > 0
    ensures CloseGap(s, drops).file == (header + Render(noted)) + Flat(Split(s.ulogMessage).messages)
    ensures Kept(noted) == Kept(items)
    ensures Notes(noted) == Notes(items) + (if s.gotHeaderSection then [Note(|Kept(items)|, drops)] else [])
  {
    if s.gotHeaderSection {
      noted := items + [Dropout(drops)];
      AppendRecord(items, Dropout(drops));
      Assoc(header, Render(items), DropoutRecord(drops));
    } else {
      noted := items;
    }
  }

  /** The first message whose start is not lost, and that nothing in between was delivered. */
  lemma {:induction false} SkipLost(st: ValidStream, arrived: set<nat>, i: nat, i': nat, k: nat) returns (k': nat)
    requires i < i' < |st.cuts| && k <= |st.messages|
    requires forall j :: i <= j < i' ==> j !in arrived
    requires Between(st, i, k)
    ensures k' <= |st.messages| && Between(st, i', k')
    ensures st.DeliveredBelow(k', arrived) == st.DeliveredBelow(k, arrived)
  {
    NextAfter(st, i, i', k);
    k' := st.NextStart(st.cuts[i']);
    StartsInLostRun(st, arrived, i, i', k, k');
  }

  /** Chunks i up to i' - 1 are lost; the receiver closes the gap when chunk i' comes. */
  lemma {:induction false} GapStep(st: ValidStream, arrived: set<nat>, i: nat, i': nat, drops: nat, k: nat,
                                   items: seq<Record>, s: Session)
    returns (k': nat, items': seq<Record>)
    requires Inv(st, arrived, i, k, items, s) && i < i' < |st.cuts| && drops == i' - i
    requires forall j :: i <= j < i' ==> j !in arrived
    ensures Inv(st, arrived, i', k', items', CloseGap(s, drops))
    ensures Notes(items') ==
      Notes(items) + (if s.gotHeaderSection then [Note(|st.DeliveredBelow(k, arrived)|, drops)] else [])
  {
    var noted := NoteDropout(st.header, items, s, drops);
    if s.ulogMessage == [] {
      items' := noted;
      k' := SkipLost(st, arrived, i, i', k);
      assert (st.header + Render(noted)) + [] == st.header + Render(noted);
    } else {
      k', items' := GapWhileHolding(st, arrived, i, i', k, noted, s.ulogMessage);
    }
  }

  lemma {:induction false} GapWhileHolding(st: ValidStream, arrived: set<nat>, i: nat, i': nat, k: nat, noted: seq<Record>,
                                           buffer: seq<byte>)
    returns (k': nat, items': seq<Record>)
    requires i < i' < |st.cuts| && k < |st.messages|
    requires forall j :: i <= j < i' ==> j !in arrived
    requires Holding(st, arrived, i, k, buffer) && Kept(noted) == st.DeliveredBelow(k, arrived)
    ensures k' <= |st.messages| && Between(st, i', k') && Kept(items') == st.DeliveredBelow(k', arrived)
    ensures (st.header + Render(noted)) + Flat(Split(buffer).messages) == st.header + Render(items')
    ensures Notes(items') == Notes(noted)
  {
    st.BoundStep(k);
    k' := SkipLost(st, arrived, i, i', k + 1);
    if st.cuts[i] == st.Bound(k + 1) {
      HeldWhole(st, arrived, i, k, buffer);
      items' := noted + [Message(st.messages[k])];
      AppendRecord(noted, Message(st.messages[k]));
      Assoc(st.header, Render(noted), st.messages[k]);
    } else {
      items' := noted;
      st.PartIsNotWhole(k, st.cuts[i]);
      assert (st.header + Render(noted)) + [] == st.header + Render(noted);
      assert st.Ordered(i, i + 1);
      assert st.Touches(i, k);
    }
  }

  /** A message held complete in the buffer is delivered, and is what closing the gap writes. */
  lemma {:induction false} HeldWhole(st: ValidStream, arrived: set<nat>, i: nat, k: nat, buffer: seq<byte>)
    requires i < |st.cuts| && k < |st.messages|
    requires Holding(st, arrived, i, k, buffer) && st.cuts[i] == st.Bound(k + 1)
    ensures buffer == st.messages[k] && Split(buffer) == Parts([st.messages[k]], [])
    ensures Flat(Split(buffer).messages) == st.messages[k]
    ensures st.Delivered(k, arrived)
  {
    st.BodyOne(k);
    SplitUnique([buffer], []);
    FlatSingle(buffer);
    assert Flat([buffer]) + [] == buffer;
    assert st.Ordered(i, |st.cuts| - 1);
    forall j: nat | i <= j < st.Chunks() ensures !st.Touches(j, k) {
      assert st.Ordered(i, j);
    }
  }
}
