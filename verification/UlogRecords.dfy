/** The session results for lists of message types and payloads, as they are printed into the file. */
module UlogRecords {
  import opened Bytes
  import opened UlogFormat
  import opened UlogReceiver
  import opened UlogAcceptance
  import opened UlogTurns
  import opened UlogStream
  import opened UlogReassembly
  import opened UlogSession
  import opened UlogWriter
  import opened UlogEndToEnd

  /** A dropout record: type `O`, and ten milliseconds for each lost chunk, up to 250, as a 16-bit word. */
  function LossRecord(drops: nat): Logged {
    var ms := 10 * if drops < 25 then drops else 25;
    Logged('O' as int, [ms % 256, ms / 256])
  }

  predicate WholeItems(items: seq<Record>) {
    forall i :: 0 <= i < |items| && items[i].Message? ==> WholeMessage(items[i].bytes)
  }

  /** The types and payloads of the records in the file. */
  function Contents(items: seq<Record>): seq<Logged>
    requires WholeItems(items)
  {
    seq(|items|, i requires 0 <= i < |items| =>
      if items[i].Message? then Logged(items[i].bytes[2], items[i].bytes[3..]) else LossRecord(items[i].drops))
  }

  lemma {:induction false} ContentsSnoc(items: seq<Record>)
    requires WholeItems(items) && items != []
    ensures Printed(Contents(items)) == Printed(Contents(items[..|items| - 1])) + [RecordBytes(items[|items| - 1])]
  {
    var text, last := Printed(Contents(items)), items[|items| - 1];
    if last.Message? {
      assert last.bytes == Framed(last.bytes[2], last.bytes[3..]);
    }
    assert text[..|text| - 1] == Printed(Contents(items[..|items| - 1]));
    EndsInLast(text);
  }

  lemma {:induction false} RenderIsPrinted(items: seq<Record>)
    requires WholeItems(items)
    ensures Render(items) == Flat(Printed(Contents(items)))
    decreases |items|
  {
    if items == [] {
    } else {
      var front, last := items[..|items| - 1], items[|items| - 1];
      RenderIsPrinted(front);
      FlatSnoc(Printed(Contents(front)), RecordBytes(last));
      ContentsSnoc(items);
    }
  }

  lemma {:induction false} KeptWhole(items: seq<Record>)
    requires AllWhole(Kept(items))
    ensures WholeItems(items)
    decreases |items|
  {
    if items == [] {
    } else {
      var kept, front := Kept(items), items[..|items| - 1];
      assert Kept(front) == kept[..|Kept(front)|];
      KeptWhole(front);
      if items[|items| - 1].Message? {
        assert kept[|kept| - 1] == items[|items| - 1].bytes;
      }
    }
  }

  /** The delivered ones among the first k records, in order. */
  ghost function DeliveredRecords(st: ValidStream, records: seq<Logged>, k: nat, arrived: set<nat>): seq<Logged>
    requires k <= |records| == |st.messages|
  {
    if k == 0 then []
    else
      DeliveredRecords(st, records, k - 1, arrived) + if st.Delivered(k - 1, arrived) then [records[k - 1]] else []
  }

  lemma {:induction false} DeliveredPrinted(st: ValidStream, records: seq<Logged>, k: nat, arrived: set<nat>)
    requires k <= |records| && st.messages == Printed(records)
    ensures st.DeliveredBelow(k, arrived) == Printed(DeliveredRecords(st, records, k, arrived))
    decreases k
  {
    if k == 0 {
    } else {
      DeliveredPrinted(st, records, k - 1, arrived);
    }
  }

  /**
   The file is the header and printed records. Without the dropout notes they are, in order, the delivered records,
   except that the last of these may still be complete in the buffer; every note stands in its place.
   */
  ghost predicate Recovered(st: ValidStream, records: seq<Logged>, arrived: set<nat>, gaps: seq<Gap>, s: Session)
    requires |records| == |st.messages|
  {
    exists items, kept, held :: RecoveredAs(st, records, arrived, gaps, s, items, kept, held)
  }

  ghost predicate RecoveredAs(st: ValidStream, records: seq<Logged>, arrived: set<nat>, gaps: seq<Gap>, s: Session,
                              items: seq<Record>, kept: seq<Logged>, held: seq<Logged>)
    requires |records| == |st.messages|
  {
    && WholeItems(items) && s.file == st.header + Flat(Printed(Contents(items)))
    && Kept(items) == Printed(kept) && Split(s.ulogMessage).messages == Printed(held) && |held| <= 1
    && kept + held == DeliveredRecords(st, records, |records|, arrived)
    && Noted(st, arrived, gaps, items)
  }

  lemma {:induction false} RecordsRecovered(st: ValidStream, records: seq<Logged>, arrived: set<nat>, gaps: seq<Gap>,
                                            s: Session)
    requires st.messages == Printed(records) && Reassembled(st, arrived, gaps, s)
    ensures Recovered(st, records, arrived, gaps, s)
  {
    var items :| ReassembledAs(st, arrived, gaps, s, items);
    DeliveredPrinted(st, records, |records|, arrived);
    var delivered := DeliveredRecords(st, records, |records|, arrived);
    var kept, held := PrintedParts(delivered, Kept(items), Split(s.ulogMessage).messages);
    ItemsPrinted(items, kept);
    assert RecoveredAs(st, records, arrived, gaps, s, items, kept, held);
  }

  lemma {:induction false} ItemsPrinted(items: seq<Record>, kept: seq<Logged>)
    requires Kept(items) == Printed(kept)
    ensures WholeItems(items) && Render(items) == Flat(Printed(Contents(items)))
  {
    PrintedWhole(kept);
    KeptWhole(items);
    RenderIsPrinted(items);
  }

  lemma {:induction false} PrintedParts(records: seq<Logged>, a: seq<seq<byte>>, b: seq<seq<byte>>)
    returns (x: seq<Logged>, y: seq<Logged>)
    requires Printed(records) == a + b
    ensures records == x + y && a == Printed(x) && b == Printed(y)
  {
    assert |a + b| == |records|;
    x, y := records[..|a|], records[|a|..];
    forall i | 0 <= i < |a| ensures a[i] == Printed(x)[i] {
      assert (a + b)[i] == a[i];
    }
    forall i | 0 <= i < |b| ensures b[i] == Printed(y)[i] {
      assert (a + b)[|a| + i] == b[i];
    }
  }

  /** Every session with a stream of printed records recovers the delivered ones. */
  lemma {:induction false} RecordsTheorem(st: ValidStream, records: seq<Logged>, arrivals: seq<Arrival>,
                                          turns: seq<Turn>)
    requires st.messages == Printed(records) && InStream(st, arrivals) && InWindow(arrivals)
    requires DataOf(turns) == Packets(st, arrivals) && Undisturbed(turns)
    ensures var accepted := Accepted(arrivals);
      Recovered(st, records, Indices(accepted), ExpectedNotes(accepted), RunTurns(INITIAL, turns).s)
  {
    SessionTheorem(st, arrivals, turns);
    var accepted := Accepted(arrivals);
    RecordsRecovered(st, records, Indices(accepted), ExpectedNotes(accepted), RunTurns(INITIAL, turns).s);
  }

  /** Whatever the sender is given to write, what it accepts is a list of records, and these are recovered. */
  lemma {:induction false} EndToEndRecords(w: Writer, header: seq<byte>, ops: seq<Op>, acks: Acks, order: seq<nat>,
                                           turns: seq<Turn>)
    requires |header| == HEADER_LENGTH && GoodOps(ops)
    requires forall t :: 0 <= t < |order| ==> order[t] < |Transmit(w, header, ops, acks).published|
    requires InWindow(Arrivals(Transmit(w, header, ops, acks).published, order))
    requires DataOf(turns) == Network(Transmit(w, header, ops, acks).published, order) && Undisturbed(turns)
    ensures var published := Transmit(w, header, ops, acks).published;
      var accepted := Accepted(Arrivals(published, order));
      exists st: ValidStream, records: seq<Logged> ::
        && Transmitted(w, header, ops, acks) == Printed(records) && |records| == |st.messages|
        && Cutting(st, header, Printed(records), published)
        && Recovered(st, records, Indices(accepted), ExpectedNotes(accepted), RunTurns(INITIAL, turns).s)
  {
    EndToEnd(w, header, ops, acks, order, turns);
    var published := Transmit(w, header, ops, acks).published;
    var accepted := Accepted(Arrivals(published, order));
    var s := RunTurns(INITIAL, turns).s;
    var st: ValidStream :|
      && Cutting(st, header, Transmitted(w, header, ops, acks), published)
      && Reassembled(st, Indices(accepted), ExpectedNotes(accepted), s);
    var records := ReadBack(st.messages);
    RecordsRecovered(st, records, Indices(accepted), ExpectedNotes(accepted), s);
  }
}
