/** Packing a message into a frame and decoding a frame, for any message table and any checksum function. */
module MavlinkCodec {
  import opened Bytes
  import opened Collections
  import opened MavlinkTable

  const MARKER: byte := 254

  /** The checksum routine is not part of the repository: everything below holds for any function. */
  datatype Dialect = Dialect(table: byte -> Option<Entry>, crc: seq<byte> -> u16)

  /** `fields` are the constructor arguments, each as the raw bytes of its fixed-width wire form. */
  datatype Message = Message(id: byte, sequence: byte, system: byte, component: byte, fields: seq<seq<byte>>)

  datatype Reason = BadPrefix | ShortHeader | WrongLength | UnknownId | BadCrc | BadPayload

  datatype Decoding = Decoded(m: Message) | Rejected(reason: Reason)

  // ---- payload

  function Arity(e: Entry): nat {
    |e.fields.wire|
  }

  function PayloadSize(e: Entry): nat {
    e.layout[Arity(e)]
  }

  function Width(e: Entry, j: nat): nat
    requires j < Arity(e)
  {
    assert Slot(e.layout, j);
    e.layout[j + 1] - e.layout[j]
  }

  function WireFields(e: Entry, fields: seq<seq<byte>>): seq<seq<byte>>
    requires |fields| == Arity(e)
  {
    seq(Arity(e), j requires 0 <= j < Arity(e) => TableUndoesOrder(e, j); fields[e.fields.wire[j]])
  }

  /** What decode does with the unpacked tuple. */
  function ArgumentFields(e: Entry, t: seq<seq<byte>>): seq<seq<byte>>
    requires |t| == Arity(e)
  {
    seq(Arity(e), i requires 0 <= i < Arity(e) => TableUndoesOrder(e, i); t[e.fields.order[i]])
  }

  function Field(e: Entry, payload: seq<byte>, j: nat): seq<byte>
    requires |payload| == PayloadSize(e) && j < Arity(e)
  {
    LayoutAt(e, j);
    payload[e.layout[j]..e.layout[j + 1]]
  }

  function Unpack(e: Entry, payload: seq<byte>): seq<seq<byte>>
    requires |payload| == PayloadSize(e)
  {
    seq(Arity(e), j requires 0 <= j < Arity(e) => Field(e, payload, j))
  }

  predicate HasWidths(e: Entry, t: seq<seq<byte>>) {
    |t| == Arity(e) && forall j :: 0 <= j < |t| ==> |t[j]| == Width(e, j)
  }

  lemma {:induction false} LayoutAt(e: Entry, j: nat)
    requires j < Arity(e)
    ensures e.layout[j] <= e.layout[j + 1] <= PayloadSize(e)
  {
    assert Slot(e.layout, j);
    LayoutFrom(e, j + 1);
  }

  lemma {:induction false} LayoutFrom(e: Entry, j: nat)
    requires j <= Arity(e)
    ensures e.layout[j] <= PayloadSize(e)
    decreases Arity(e) - j
  {
    if j >= Arity(e) {
    } else {
      assert Slot(e.layout, j);
      LayoutFrom(e, j + 1);
    }
  }

  lemma {:induction false} FlatPrefix(e: Entry, t: seq<seq<byte>>, j: nat)
    requires HasWidths(e, t) && j <= |t|
    ensures |Flat(t[..j])| == e.layout[j]
    ensures Flat(t[..j]) <= Flat(t)
    decreases j
  {
    assert t == t[..j] + t[j..];
    FlatAppend(t[..j], t[j..]);
    if j == 0 {
    } else {
      FlatPrefix(e, t, j - 1);
      assert t[..j] == t[..j - 1] + [t[j - 1]];
      FlatSnoc(t[..j - 1], t[j - 1]);
    }
  }

  /** Splitting a packed payload at the layout gives the packed fields back. */
  lemma {:induction false} UnpackPacked(e: Entry, t: seq<seq<byte>>)
    requires HasWidths(e, t)
    ensures |Flat(t)| == PayloadSize(e) && Unpack(e, Flat(t)) == t
  {
    var n := Arity(e);
    FlatPrefix(e, t, n);
    assert t[..n] == t;
    forall j: nat | j < n ensures Field(e, Flat(t), j) == t[j] {
      FieldOfPacked(e, t, j);
    }
  }

  lemma {:induction false} FieldOfPacked(e: Entry, t: seq<seq<byte>>, j: nat)
    requires HasWidths(e, t) && j < |t| && |Flat(t)| == PayloadSize(e)
    ensures Field(e, Flat(t), j) == t[j]
  {
    LayoutAt(e, j);
    FlatPrefix(e, t, j);
    FlatPrefix(e, t, j + 1);
    assert t[..j + 1] == t[..j] + [t[j]];
    FlatSnoc(t[..j], t[j]);
    assert Field(e, Flat(t), j) == Flat(t)[..e.layout[j + 1]][e.layout[j]..];
  }

  /** Any payload of the right size is the packing of its pieces. */
  lemma {:induction false} PackedUnpack(e: Entry, payload: seq<byte>)
    requires |payload| == PayloadSize(e)
    ensures HasWidths(e, Unpack(e, payload)) && Flat(Unpack(e, payload)) == payload
  {
    var t := Unpack(e, payload);
    PackedUnpackPrefix(e, payload, Arity(e));
    assert t[..Arity(e)] == t;
    forall j: nat | j < |t| ensures |t[j]| == Width(e, j) {
      LayoutAt(e, j);
    }
  }

  lemma {:induction false} PackedUnpackPrefix(e: Entry, payload: seq<byte>, j: nat)
    requires |payload| == PayloadSize(e) && j <= Arity(e)
    ensures e.layout[j] <= |payload| && Flat(Unpack(e, payload)[..j]) == payload[..e.layout[j]]
    decreases j
  {
    var t := Unpack(e, payload);
    if j == 0 {
    } else {
      LayoutAt(e, j - 1);
      PackedUnpackPrefix(e, payload, j - 1);
      assert t[..j] == t[..j - 1] + [t[j - 1]];
      FlatSnoc(t[..j - 1], t[j - 1]);
      JoinSlices(payload, 0, e.layout[j - 1], e.layout[j]);
    }
  }

  // ---- frames

  predicate Fits(d: Dialect, m: Message) {
    && d.table(m.id).Some?
    && var e := d.table(m.id).value;
       |m.fields| == Arity(e) && HasWidths(e, WireFields(e, m.fields))
  }

  function Header(m: Message, payload: seq<byte>): seq<byte>
    requires |payload| < 256
  {
    [MARKER, |payload|, m.sequence, m.system, m.component, m.id]
  }

  /** Little-endian 16-bit word. */
  function Word(c: u16): seq<byte> {
    [c % 256, c / 256]
  }

  /** Everything between the marker and the checksum, followed by the message's seed. */
  function Checksum(d: Dialect, e: Entry, body: seq<byte>): u16 {
    d.crc(body + [e.crcExtra])
  }

  function Encode(d: Dialect, m: Message): seq<byte>
    requires Fits(d, m)
  {
    var e := d.table(m.id).value;
    var payload := Flat(WireFields(e, m.fields));
    UnpackPacked(e, WireFields(e, m.fields));
    var body := Header(m, payload) + payload;
    body + Word(Checksum(d, e, body[1..]))
  }

  function Decode(d: Dialect, buf: seq<byte>): Decoding {
    if |buf| < 6 then Rejected(ShortHeader)
    else if buf[0] != MARKER then Rejected(BadPrefix)
    else if buf[1] != |buf| - 8 then Rejected(WrongLength)
    else if d.table(buf[5]).None? then Rejected(UnknownId)
    else
      var e := d.table(buf[5]).value;
      var n := |buf|;
      var payload := buf[6..n - 2];
      if buf[n - 2] as int + 256 * buf[n - 1] as int != Checksum(d, e, buf[1..n - 2]) then Rejected(BadCrc)
      else if |payload| != PayloadSize(e) then Rejected(BadPayload)
      else Decoded(Message(buf[5], buf[2], buf[3], buf[4], ArgumentFields(e, Unpack(e, payload))))
  }

  lemma {:induction false} ArgumentsOfWire(e: Entry, fields: seq<seq<byte>>)
    requires |fields| == Arity(e)
    ensures ArgumentFields(e, WireFields(e, fields)) == fields
  {
    var r := ArgumentFields(e, WireFields(e, fields));
    forall i: nat | i < Arity(e) ensures r[i] == fields[i] {
      TableUndoesOrder(e, i);
    }
  }

  lemma {:induction false} WireOfArguments(e: Entry, t: seq<seq<byte>>)
    requires |t| == Arity(e)
    ensures WireFields(e, ArgumentFields(e, t)) == t
  {
    var r := WireFields(e, ArgumentFields(e, t));
    forall j: nat | j < Arity(e) ensures r[j] == t[j] {
      TableUndoesOrder(e, j);
    }
  }

  /** An encoded frame, byte by byte. */
  lemma {:induction false} EncodeParts(d: Dialect, m: Message)
    requires Fits(d, m)
    ensures var e, f := d.table(m.id).value, Encode(d, m);
      var payload := Flat(WireFields(e, m.fields));
      var n := |f|;
      && |payload| == PayloadSize(e) == n - 8 && n < 264
      && f[..6] == [254, |payload|, m.sequence, m.system, m.component, m.id]
      && f[6..n - 2] == payload
      && f[n - 2] as int + 256 * f[n - 1] as int == d.crc(f[1..n - 2] + [e.crcExtra])
  {
    var e := d.table(m.id).value;
    var payload := Flat(WireFields(e, m.fields));
    UnpackPacked(e, WireFields(e, m.fields));
    var body := Header(m, payload) + payload;
    var f := Encode(d, m);
    assert f[..|f| - 2] == body;
    assert f[1..|f| - 2] == body[1..];
  }

  /** Wire field j of a frame is the argument that the table names for it, at the offset that the table gives. */
  lemma {:induction false} EncodedField(d: Dialect, m: Message, j: nat)
    requires Fits(d, m) && j < Arity(d.table(m.id).value)
    ensures var e, f := d.table(m.id).value, Encode(d, m);
      && e.fields.wire[j] < |m.fields|
      && e.layout[j] <= e.layout[j + 1] <= |f| - 8
      && f[6 + e.layout[j]..6 + e.layout[j + 1]] == m.fields[e.fields.wire[j]]
  {
    var e, f := d.table(m.id).value, Encode(d, m);
    EncodeParts(d, m);
    var wire := WireFields(e, m.fields);
    UnpackPacked(e, wire);
    TableUndoesOrder(e, j);
    SlotInFrame(e, f, j, Flat(wire));
    assert Unpack(e, Flat(wire))[j] == wire[j];
  }

  lemma {:induction false} SlotInFrame(e: Entry, f: seq<byte>, j: nat, payload: seq<byte>)
    requires |payload| == PayloadSize(e) == |f| - 8 && j < Arity(e) && f[6..|f| - 2] == payload
    ensures e.layout[j] <= e.layout[j + 1] <= |f| - 8
    ensures Field(e, payload, j) == f[6 + e.layout[j]..6 + e.layout[j + 1]]
  {
    LayoutAt(e, j);
    SliceOfSlice(f, 6, |f| - 2, e.layout[j], e.layout[j + 1]);
  }

  /** Argument i of a decoded message is the wire field that the order map names for it. */
  lemma {:induction false} DecodedField(d: Dialect, buf: seq<byte>, i: nat)
    requires Decode(d, buf).Decoded? && i < Arity(d.table(buf[5]).value)
    ensures var e, m := d.table(buf[5]).value, Decode(d, buf).m;
      var j := e.fields.order[i];
      && |m.fields| == |e.fields.order| && j < Arity(e)
      && e.layout[j] <= e.layout[j + 1] <= |buf| - 8
      && m.fields[i] == buf[6 + e.layout[j]..6 + e.layout[j + 1]]
  {
    var e, payload := d.table(buf[5]).value, buf[6..|buf| - 2];
    TableUndoesOrder(e, i);
    SlotInFrame(e, buf, e.fields.order[i], payload);
    assert ArgumentFields(e, Unpack(e, payload))[i] == Unpack(e, payload)[e.fields.order[i]];
  }

  /** Decoding undoes packing. */
  lemma {:induction false} DecodeEncode(d: Dialect, m: Message)
    requires Fits(d, m)
    ensures Decode(d, Encode(d, m)) == Decoded(m)
  {
    var e, f := d.table(m.id).value, Encode(d, m);
    EncodeParts(d, m);
    var n := |f|;
    var h := f[..6];
    assert f[0] == h[0] && f[1] == h[1] && f[2] == h[2] && f[3] == h[3] && f[4] == h[4] && f[5] == h[5];
    UnpackPacked(e, WireFields(e, m.fields));
    ArgumentsOfWire(e, m.fields);
  }

  /** Packing undoes decoding: a frame is accepted only if it is exactly what its message packs to. */
  lemma {:induction false} EncodeDecode(d: Dialect, buf: seq<byte>)
    requires Decode(d, buf).Decoded?
    ensures Fits(d, Decode(d, buf).m) && Encode(d, Decode(d, buf).m) == buf
  {
    var m := Decode(d, buf).m;
    var e, n := d.table(buf[5]).value, |buf|;
    var payload := buf[6..n - 2];
    var t := Unpack(e, payload);
    PackedUnpack(e, payload);
    WireOfArguments(e, t);
    WordOf(buf[n - 2], buf[n - 1], Checksum(d, e, buf[1..n - 2]));
    var body := Header(m, payload) + payload;
    assert Header(m, payload) == buf[..6];
    assert body == buf[..n - 2] by {
      JoinSlices(buf, 0, 6, n - 2);
    }
    assert body[1..] == buf[1..n - 2];
    assert buf == buf[..n - 2] + [buf[n - 2], buf[n - 1]];
  }

  predicate HasLength(buf: seq<byte>) {
    |buf| >= 6 && buf[0] == 254 && buf[1] as int + 8 == |buf|
  }

  predicate HasChecksum(d: Dialect, buf: seq<byte>)
    requires HasLength(buf) && d.table(buf[5]).Some?
  {
    var n := |buf|;
    buf[n - 2] as int + 256 * buf[n - 1] as int == d.crc(buf[1..n - 2] + [d.table(buf[5]).value.crcExtra])
  }

  /** A frame is accepted if and only if marker, length, id, checksum and payload size are right. */
  lemma {:induction false} AcceptedExactly(d: Dialect, buf: seq<byte>)
    ensures Decode(d, buf).Decoded? <==>
      && HasLength(buf) && d.table(buf[5]).Some? && HasChecksum(d, buf)
      && |buf| == PayloadSize(d.table(buf[5]).value) + 8
    ensures Decode(d, buf).Decoded? ==>
      var m := Decode(d, buf).m;
      m.id == buf[5] && m.sequence == buf[2] && m.system == buf[3] && m.component == buf[4]
  {
  }

  /** A rejected frame gets the reason of the first check that fails. */
  lemma {:induction false} RejectedFor(d: Dialect, buf: seq<byte>)
    ensures Decode(d, buf) == Rejected(ShortHeader) <==> |buf| < 6
    ensures Decode(d, buf) == Rejected(BadPrefix) <==> |buf| >= 6 && buf[0] != 254
    ensures Decode(d, buf) == Rejected(WrongLength) <==> |buf| >= 6 && buf[0] == 254 && buf[1] as int + 8 != |buf|
    ensures Decode(d, buf) == Rejected(UnknownId) <==> HasLength(buf) && d.table(buf[5]).None?
    ensures Decode(d, buf) == Rejected(BadCrc) <==> HasLength(buf) && d.table(buf[5]).Some? && !HasChecksum(d, buf)
    ensures Decode(d, buf) == Rejected(BadPayload) <==>
      && HasLength(buf) && d.table(buf[5]).Some? && HasChecksum(d, buf)
      && |buf| != PayloadSize(d.table(buf[5]).value) + 8
  {
  }

  lemma {:induction false} WordOf(lo: byte, hi: byte, c: u16)
    requires lo as int + 256 * hi as int == c
    ensures Word(c) == [lo, hi]
  {
  }
}
