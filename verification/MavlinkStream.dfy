/** Sending, receiving what was sent through junk and in any portions, and the object that does both. */
module MavlinkStream {
  import opened Bytes
  import opened MavlinkCodec
  import opened MavlinkParser

  // ---- a transmitted byte stream

  datatype Item = Junk(bytes: seq<byte>) | Sent(m: Message)

  predicate Clean(d: Dialect, items: seq<Item>) {
    forall i :: 0 <= i < |items| ==>
      match items[i]
      case Junk(bytes) => MARKER !in bytes
      case Sent(m) => Fits(d, m)
  }

  function Transmission(d: Dialect, items: seq<Item>): seq<byte>
    requires Clean(d, items)
  {
    if items == [] then []
    else (match items[0]
          case Junk(bytes) => bytes
          case Sent(m) => Encode(d, m)) + Transmission(d, items[1..])
  }

  function JunkReport(bytes: seq<byte>): seq<Received> {
    seq(|bytes|, i requires 0 <= i < |bytes| => BadData([bytes[i]], BadPrefix))
  }

  /** Every message in order, and one report per junk byte. */
  function Report(d: Dialect, items: seq<Item>): seq<Received>
    requires Clean(d, items)
  {
    if items == [] then []
    else (match items[0]
          case Junk(bytes) => JunkReport(bytes)
          case Sent(m) => [Good(m, Encode(d, m))]) + Report(d, items[1..])
  }

  lemma {:induction false} DrainJunk(d: Dialect, junk: seq<byte>, rest: seq<byte>)
    requires MARKER !in junk
    ensures Drain(d, junk + rest).messages == JunkReport(junk) + Drain(d, rest).messages
    ensures Drain(d, junk + rest).rest == Drain(d, rest).rest
    decreases |junk|
  {
    if junk == [] {
      assert junk + rest == rest;
    } else {
      var all, tail := junk + rest, junk[1..];
      assert all[0] == junk[0] && junk[0] in junk;
      assert all[..1] == [junk[0]] && all[1..] == tail + rest;
      DrainJunk(d, tail, rest);
      assert JunkReport(junk) == [BadData([junk[0]], BadPrefix)] + JunkReport(tail);
      Assoc([BadData([junk[0]], BadPrefix)], JunkReport(tail), Drain(d, rest).messages);
    }
  }

  lemma {:induction false} DrainFrame(d: Dialect, m: Message, rest: seq<byte>)
    requires Fits(d, m)
    ensures Drain(d, Encode(d, m) + rest).messages == [Good(m, Encode(d, m))] + Drain(d, rest).messages
    ensures Drain(d, Encode(d, m) + rest).rest == Drain(d, rest).rest
  {
    var f := Encode(d, m);
    EncodeParts(d, m);
    DecodeEncode(d, m);
    assert f[..6][0] == MARKER && f[..6][1] == |f| - 8;
    var all := f + rest;
    assert all[0] == f[0] && all[1] == f[1];
    assert all[..|f|] == f && all[|f|..] == rest;
  }

  lemma {:induction false} DrainTransmission(d: Dialect, items: seq<Item>)
    requires Clean(d, items)
    ensures Drain(d, Transmission(d, items)) == Drained(Report(d, items), [])
    decreases |items|
  {
    if items == [] {
    } else {
      var rest := Transmission(d, items[1..]);
      DrainTransmission(d, items[1..]);
      match items[0] {
        case Junk(bytes) => DrainJunk(d, bytes, rest);
        case Sent(m) => DrainFrame(d, m, rest);
      }
    }
  }

  /** Whatever the portions, exactly the sent messages come out, one report per junk byte, and nothing is left. */
  lemma {:induction false} StreamRoundTrip(d: Dialect, items: seq<Item>, chunks: seq<seq<byte>>)
    requires Clean(d, items) && Flat(chunks) == Transmission(d, items)
    ensures var (p, out) := FeedAll(d, FRESH, chunks);
      && out == Report(d, items)
      && p.buf == [] && Settled(p)
      && p.totalPacketsReceived == GoodCount(out)
      && p.totalReceiveErrors == |out| - GoodCount(out)
  {
    ChunkingIndependence(d, FRESH, chunks);
    DrainTransmission(d, items);
    assert [] + Flat(chunks) == Flat(chunks);
  }

  // ---- sending

  /** What a caller hands to send: a message type and its constructor arguments. */
  datatype Draft = Draft(id: byte, fields: seq<seq<byte>>)

  datatype Sender = Sender(sequence: byte, system: byte, component: byte, file: seq<byte>,
                           totalPacketsSent: nat, totalBytesSent: nat)

  function Stamp(s: Sender, draft: Draft): Message {
    Message(draft.id, s.sequence, s.system, s.component, draft.fields)
  }

  function Send(d: Dialect, s: Sender, draft: Draft): Sender
    requires Fits(d, Stamp(s, draft))
  {
    var buf := Encode(d, Stamp(s, draft));
    s.(file := s.file + buf, sequence := (s.sequence + 1) % 255,
       totalPacketsSent := s.totalPacketsSent + 1, totalBytesSent := s.totalBytesSent + |buf|)
  }

  /** The n-th message, counted from 0, carries n modulo 255. */
  function Numbered(system: byte, component: byte, draft: Draft, n: nat): Message {
    Message(draft.id, n % 255, system, component, draft.fields)
  }

  /** Whether a draft can be packed does not depend on its number. */
  predicate Sendable(d: Dialect, draft: Draft) {
    Fits(d, Message(draft.id, 0, 0, 0, draft.fields))
  }

  predicate AllSendable(d: Dialect, drafts: seq<Draft>) {
    forall n :: 0 <= n < |drafts| ==> Sendable(d, drafts[n])
  }

  function SendAll(d: Dialect, s: Sender, drafts: seq<Draft>): Sender
    requires AllSendable(d, drafts)
    decreases |drafts|
  {
    if drafts == [] then s
    else Send(d, SendAll(d, s, drafts[..|drafts| - 1]), drafts[|drafts| - 1])
  }

  function SentItems(system: byte, component: byte, drafts: seq<Draft>): seq<Item> {
    if drafts == [] then []
    else
      var n := |drafts| - 1;
      SentItems(system, component, drafts[..n]) + [Sent(Numbered(system, component, drafts[n], n))]
  }

  lemma {:induction false} Snoc(d: Dialect, items: seq<Item>, m: Message)
    requires Clean(d, items) && Fits(d, m)
    ensures Clean(d, items + [Sent(m)])
    ensures Transmission(d, items + [Sent(m)]) == Transmission(d, items) + Encode(d, m)
    ensures Report(d, items + [Sent(m)]) == Report(d, items) + [Good(m, Encode(d, m))]
    decreases |items|
  {
    var all := items + [Sent(m)];
    if items == [] {
      assert all[1..] == [];
      assert Encode(d, m) + [] == Encode(d, m);
    } else {
      assert all[0] == items[0] && all[1..] == items[1..] + [Sent(m)];
      Snoc(d, items[1..], m);
      match items[0] {
        case Junk(bytes) =>
          Assoc(bytes, Transmission(d, items[1..]), Encode(d, m));
          Assoc(JunkReport(bytes), Report(d, items[1..]), [Good(m, Encode(d, m))]);
        case Sent(m0) =>
          Assoc(Encode(d, m0), Transmission(d, items[1..]), Encode(d, m));
          Assoc([Good(m0, Encode(d, m0))], Report(d, items[1..]), [Good(m, Encode(d, m))]);
      }
    }
  }

  /** The report on the sent messages: each of them, with its number. */
  predicate Numbers(system: byte, component: byte, drafts: seq<Draft>, out: seq<Received>) {
    && |out| == |drafts|
    && forall n :: 0 <= n < |drafts| ==> out[n].Good? && out[n].m == Numbered(system, component, drafts[n], n)
  }

  lemma {:induction false} NumbersSnoc(system: byte, component: byte, drafts: seq<Draft>, out: seq<Received>,
                                       r: Received)
    requires drafts != [] && Numbers(system, component, drafts[..|drafts| - 1], out)
    requires r.Good? && r.m == Numbered(system, component, drafts[|drafts| - 1], |drafts| - 1)
    ensures Numbers(system, component, drafts, out + [r])
  {
  }

  /** The sender after sending the drafts. */
  predicate HasSent(d: Dialect, s: Sender, system: byte, component: byte, drafts: seq<Draft>)
    requires Clean(d, SentItems(system, component, drafts))
  {
    && s.sequence == |drafts| % 255 && s.system == system && s.component == component
    && s.file == Transmission(d, SentItems(system, component, drafts))
    && s.totalPacketsSent == |drafts| && s.totalBytesSent == |s.file|
  }

  lemma {:induction false} SendAllNumbers(d: Dialect, system: byte, component: byte, drafts: seq<Draft>)
    requires AllSendable(d, drafts)
    ensures Clean(d, SentItems(system, component, drafts))
    ensures HasSent(d, SendAll(d, Sender(0, system, component, [], 0, 0), drafts), system, component, drafts)
    ensures Numbers(system, component, drafts, Report(d, SentItems(system, component, drafts)))
    decreases |drafts|
  {
    if drafts == [] {
    } else {
      var n := |drafts| - 1;
      var front := drafts[..n];
      SendAllNumbers(d, system, component, front);
      var s := SendAll(d, Sender(0, system, component, [], 0, 0), front);
      SendNext(d, s, system, component, drafts);
    }
  }

  lemma {:induction false} SendNext(d: Dialect, s: Sender, system: byte, component: byte, drafts: seq<Draft>)
    requires drafts != [] && Sendable(d, drafts[|drafts| - 1])
    requires Clean(d, SentItems(system, component, drafts[..|drafts| - 1]))
    requires HasSent(d, s, system, component, drafts[..|drafts| - 1])
    requires Numbers(system, component, drafts[..|drafts| - 1], Report(d, SentItems(system, component, drafts[..|drafts| - 1])))
    ensures Clean(d, SentItems(system, component, drafts))
    ensures HasSent(d, Send(d, s, drafts[|drafts| - 1]), system, component, drafts)
    ensures Numbers(system, component, drafts, Report(d, SentItems(system, component, drafts)))
  {
    var n := |drafts| - 1;
    var items := SentItems(system, component, drafts[..n]);
    var m := Stamp(s, drafts[n]);
    assert m == Numbered(system, component, drafts[n], n);
    Snoc(d, items, m);
    NumbersSnoc(system, component, drafts, Report(d, items), Good(m, Encode(d, m)));
    NextNumber(n);
  }

  lemma {:induction false} NextNumber(n: nat)
    ensures (n % 255 + 1) % 255 == (n + 1) % 255
  {
  }

  /** A sender's whole output, cut in any way, is received as the sent messages in order with their numbers. */
  lemma {:induction false} SentIsReceived(d: Dialect, system: byte, component: byte, drafts: seq<Draft>,
                                          chunks: seq<seq<byte>>)
    requires AllSendable(d, drafts)
    requires Flat(chunks) == SendAll(d, Sender(0, system, component, [], 0, 0), drafts).file
    ensures FeedAll(d, FRESH, chunks).0.buf == []
    ensures Numbers(system, component, drafts, FeedAll(d, FRESH, chunks).1)
  {
    SendAllNumbers(d, system, component, drafts);
    StreamRoundTrip(d, SentItems(system, component, drafts), chunks);
  }
}
