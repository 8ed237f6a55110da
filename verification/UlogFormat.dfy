/** Length-prefixed ULog messages and the splitter that recovers them from a byte string. */
module UlogFormat {
  import opened Bytes

  /** A ULog message as it is printed: the payload length, low byte first, the type, and the payload. */
  function Framed(kind: byte, payload: seq<byte>): (m: seq<byte>)
    requires |payload| < 0x1_0000
    ensures |m| == |payload| + 3
  {
    [|payload| % 256, |payload| / 256, kind] + payload
  }

  /** What the first two bytes of a message say about its length. */
  function MessageLength(data: seq<byte>): nat
    requires |data| >= 2
  {
    data[0] as int + data[1] as int * 256 + 3
  }

  predicate WholeMessage(m: seq<byte>) {
    |m| >= 3 && |m| == MessageLength(m)
  }

  predicate StartsWithWhole(data: seq<byte>) {
    |data| > 2 && MessageLength(data) <= |data|
  }

  /** A whole message is some type and payload, printed. */
  lemma {:induction false} WholeIsFramed(m: seq<byte>)
    ensures WholeMessage(m) <==> exists kind, payload :: |payload| < 0x1_0000 && m == Framed(kind, payload)
  {
    if WholeMessage(m) {
      assert m == Framed(m[2], m[3..]);
    }
  }

  /** No printed message is at the front. */
  ghost predicate Incomplete(data: seq<byte>) {
    forall kind, payload :: |payload| < 0x1_0000 ==> !(Framed(kind, payload) <= data)
  }

  lemma {:induction false} StartIsIncomplete(data: seq<byte>)
    ensures Incomplete(data) <==> !StartsWithWhole(data)
  {
    if StartsWithWhole(data) {
      var m := data[..MessageLength(data)];
      assert m == Framed(m[2], m[3..]);
    }
  }

  predicate AllWhole(ms: seq<seq<byte>>) {
    forall i :: 0 <= i < |ms| ==> WholeMessage(ms[i])
  }

  datatype Parts = Parts(messages: seq<seq<byte>>, rest: seq<byte>)

  /** The messages at the front of `data`, and what is left when no whole message is at the front. */
  function Split(data: seq<byte>): Parts
    decreases |data|
  {
    if StartsWithWhole(data) then
      var n := MessageLength(data);
      var p := Split(data[n..]);
      Parts([data[..n]] + p.messages, p.rest)
    else
      Parts([], data)
  }

  /** No byte is lost or reordered. */
  lemma {:induction false} SplitConserves(data: seq<byte>)
    ensures Flat(Split(data).messages) + Split(data).rest == data
    decreases |data|
  {
    if !StartsWithWhole(data) {
    } else {
      var n := MessageLength(data);
      SplitConserves(data[n..]);
      FlatSplitStep(data);
      var p := Split(data[n..]);
      Assoc(data[..n], Flat(p.messages), p.rest);
      assert data[..n] + data[n..] == data;
    }
  }

  /** Every piece is one whole message, and the rest does not start with one. */
  lemma {:induction false} SplitWhole(data: seq<byte>)
    ensures AllWhole(Split(data).messages)
    ensures !StartsWithWhole(Split(data).rest)
    decreases |data|
  {
    if !StartsWithWhole(data) {
    } else {
      var n := MessageLength(data);
      SplitWhole(data[n..]);
      AllWholeCons(data[..n], Split(data[n..]).messages);
    }
  }

  lemma {:induction false} AllWholeCons(m: seq<byte>, ms: seq<seq<byte>>)
    requires WholeMessage(m) && AllWhole(ms)
    ensures AllWhole([m] + ms)
  {
  }

  lemma {:induction false} FlatSplitStep(data: seq<byte>)
    requires StartsWithWhole(data)
    ensures Flat(Split(data).messages)
         == data[..MessageLength(data)] + Flat(Split(data[MessageLength(data)..]).messages)
    ensures Split(data).rest == Split(data[MessageLength(data)..]).rest
  {
  }

  /** `Split` finds the only decomposition into whole messages and an incomplete rest. */
  lemma {:induction false} SplitUnique(ms: seq<seq<byte>>, rest: seq<byte>)
    requires AllWhole(ms) && !StartsWithWhole(rest)
    ensures Split(Flat(ms) + rest) == Parts(ms, rest)
    decreases |ms|
  {
    if ms == [] {
      assert Flat(ms) + rest == rest;
    } else {
      var data := Flat(ms) + rest;
      var tail := Flat(ms[1..]) + rest;
      assert data == ms[0] + tail;
      assert data[..|ms[0]|] == ms[0] && data[|ms[0]|..] == tail;
      SplitUnique(ms[1..], rest);
      assert [ms[0]] + ms[1..] == ms;
    }
  }

  // ---- lists of types and payloads

  type Payload = p: seq<byte> | |p| < 0x1_0000

  datatype Logged = Logged(kind: byte, payload: Payload)

  function Printed(records: seq<Logged>): (ms: seq<seq<byte>>)
    ensures |ms| == |records|
  {
    seq(|records|, i requires 0 <= i < |records| => Framed(records[i].kind, records[i].payload))
  }

  /** The types and payloads of whole messages. */
  function ReadBack(ms: seq<seq<byte>>): (records: seq<Logged>)
    requires AllWhole(ms)
    ensures Printed(records) == ms
  {
    assert forall i :: 0 <= i < |ms| ==> ms[i] == Framed(ms[i][2], ms[i][3..]);
    seq(|ms|, i requires 0 <= i < |ms| => Logged(ms[i][2], ms[i][3..]))
  }

  /** Printing can be read in one way only. */
  lemma {:induction false} PrintedOnce(a: seq<Logged>, b: seq<Logged>)
    requires Printed(a) == Printed(b)
    ensures a == b
  {
    assert |Printed(a)| == |Printed(b)|;
    forall i | 0 <= i < |a| ensures a[i] == b[i] {
      assert Printed(a)[i] == Printed(b)[i];
      FramedOnce(a[i], b[i]);
    }
  }

  lemma {:induction false} FramedOnce(x: Logged, y: Logged)
    requires Framed(x.kind, x.payload) == Framed(y.kind, y.payload)
    ensures x == y
  {
    var m := Framed(x.kind, x.payload);
    assert m[2] == x.kind == y.kind && m[3..] == x.payload && m[3..] == y.payload;
  }

  lemma {:induction false} PrintedWhole(records: seq<Logged>)
    ensures AllWhole(Printed(records))
  {
    forall i | 0 <= i < |records| ensures WholeMessage(Printed(records)[i]) {
      WholeIsFramed(Framed(records[i].kind, records[i].payload));
    }
  }

  /** Everything is split into printed records and a rest with no printed record at its front. */
  lemma {:induction false} SplitRecords(data: seq<byte>) returns (records: seq<Logged>)
    ensures Split(data).messages == Printed(records) && Incomplete(Split(data).rest)
    ensures Flat(Printed(records)) + Split(data).rest == data
  {
    SplitConserves(data);
    SplitWhole(data);
    StartIsIncomplete(Split(data).rest);
    records := ReadBack(Split(data).messages);
  }

  /** Printed records and such a rest are split into exactly these records and this rest. */
  lemma {:induction false} SplitPrinted(records: seq<Logged>, rest: seq<byte>)
    requires Incomplete(rest)
    ensures Split(Flat(Printed(records)) + rest) == Parts(Printed(records), rest)
  {
    PrintedWhole(records);
    StartIsIncomplete(rest);
    SplitUnique(Printed(records), rest);
  }

  /** Splitting a ++ b is splitting a, then splitting its rest ++ b. */
  lemma {:induction false} SplitStreaming(a: seq<byte>, b: seq<byte>)
    ensures Split(a + b).messages == Split(a).messages + Split(Split(a).rest + b).messages
    ensures Split(a + b).rest == Split(Split(a).rest + b).rest
  {
    var p := Split(a);
    var q := Split(p.rest + b);
    SplitConserves(a);
    SplitWhole(a);
    SplitConserves(p.rest + b);
    SplitWhole(p.rest + b);
    FlatAppend(p.messages, q.messages);
    Assoc(Flat(p.messages), p.rest, b);
    Assoc(Flat(p.messages), Flat(q.messages), q.rest);
    SplitUnique(p.messages + q.messages, q.rest);
  }
}
