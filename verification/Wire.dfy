/**
 The layout of frames, octet by octet, as draft-ietf-quic-transport-08 draws it.
 */
module Wire {
  import opened Basics
  import opened Varint
  import opened AckFrames
  import opened Frames
  import Fields

  /** The gap and the length of each block, and what follows them. */
  ghost function Blocks(blks: seq<Blk>, tail: seq<byte>): seq<byte>
    requires forall i :: 0 <= i < |blks| ==> blks[i].gap <= MAX_VARINT && blks[i].len <= MAX_VARINT
  {
    if blks == [] then tail else Put(blks[0].gap) + (Put(blks[0].len) + Blocks(blks[1..], tail))
  }

  /** The octets of a frame other than PADDING, and what follows it. */
  ghost function Octets(f: Frame, tail: seq<byte>): seq<byte>
    requires WellFormed(f) && !f.Padding?
  {
    match f
    case RstStream(id, code, offset) => [0x01] + (Put(id) + (BigEndian(code, 2) + (Put(offset) + tail)))
    case ConnectionClose(code, reason) => [0x02] + (BigEndian(code, 2) + (Put(|reason|) + reason + tail))
    case ApplicationClose(code, reason) => [0x03] + (BigEndian(code, 2) + (Put(|reason|) + reason + tail))
    case MaxData(max) => [0x04] + (Put(max) + tail)
    case MaxStreamData(id, max) => [0x05] + (Put(id) + (Put(max) + tail))
    case MaxStreamId(max) => [0x06] + (Put(max) + tail)
    case Ping(data) => [0x07] + ([|data|] + data + tail)
    case Blocked(offset) => [0x08] + (Put(offset) + tail)
    case StreamBlocked(id, offset) => [0x09] + (Put(id) + (Put(offset) + tail))
    case StreamIdBlocked(id) => [0x0a] + (Put(id) + tail)
    case NewConnectionId(sequence, connId, token) => [0x0b] + (Put(sequence) + (BigEndian(connId, 8) + (token + tail)))
    case StopSending(id, code) => [0x0c] + (Put(id) + (BigEndian(code, 2) + tail))
    case Pong(data) => [0x0d] + ([|data|] + data + tail)
    case AckFrame(a) => [0x0e] + (Put(a.largest) + (Put(a.delay) + (Put(|a.blks|) + (Put(a.firstLen) + Blocks(a.blks, tail)))))
    case Stream(fin, id, offset, data) =>
      [0x12 + (if fin then 1 else 0) + (if offset == 0 then 0 else 4)] +
      (Put(id) + (if offset == 0 then Put(|data|) + data + tail else Put(offset) + (Put(|data|) + data + tail)))
  }

  lemma EncodeFew(fs: seq<Fields.Field>, tail: seq<byte>)
    requires Fields.AllWritable(fs) && 0 < |fs| <= 3
    ensures |fs| == 1 ==> Fields.EncodeAll(fs, tail) == Fields.Encode(fs[0]) + tail
    ensures |fs| == 2 ==> Fields.EncodeAll(fs, tail) == Fields.Encode(fs[0]) + (Fields.Encode(fs[1]) + tail)
    ensures |fs| == 3 ==>
              Fields.EncodeAll(fs, tail) == Fields.Encode(fs[0]) + (Fields.Encode(fs[1]) + (Fields.Encode(fs[2]) + tail))
    decreases |fs|
  {
    if |fs| > 1 { EncodeFew(fs[1..], tail); }
  }

  lemma FixedOctets(f: Frame, tail: seq<byte>)
    requires WellFormed(f) && Fixed(f)
    ensures Encode(f, tail) == Octets(f, tail)
  {
    FrameWritable(f);
    EncodeFew(FieldsOf(f), tail);
  }

  lemma StreamOctets(f: Frame, tail: seq<byte>)
    requires WellFormed(f) && f.Stream?
    ensures Encode(f, tail) == Octets(f, tail)
  {
    FrameWritable(f);
    EncodeFew(FieldsOf(f), tail);
  }

  lemma {:induction false} FlatFirst(blks: seq<Blk>)
    requires blks != []
    ensures Flat(blks) == [blks[0].gap, blks[0].len] + Flat(blks[1..])
  {
    var n := |blks| - 1;
    if n == 0 {
      assert Flat(blks[..0]) == [] && Flat(blks[1..]) == [];
    } else {
      FlatFirst(blks[..n]);
      assert blks[..n][1..] == blks[1..][..n - 1] && blks[1..][n - 1] == blks[n];
    }
  }

  function FirstPair(b: Blk): seq<Fields.Field> { [Fields.Int(b.gap), Fields.Int(b.len)] }

  lemma BlocksSplit(blks: seq<Blk>)
    requires blks != []
    ensures IntFields(Flat(blks)) == FirstPair(blks[0]) + IntFields(Flat(blks[1..]))
  {
    FlatFirst(blks);
  }

  lemma WritableParts(fs: seq<Fields.Field>, gs: seq<Fields.Field>)
    requires Fields.AllWritable(fs + gs)
    ensures Fields.AllWritable(fs) && Fields.AllWritable(gs)
  {
    var hs := fs + gs;
    forall i | 0 <= i < |fs| ensures Fields.Writable(fs[i]) { assert hs[i] == fs[i]; }
    forall i | 0 <= i < |gs| ensures Fields.Writable(gs[i]) { assert hs[|fs| + i] == gs[i]; }
  }

  lemma {:induction false} BlocksOctets(blks: seq<Blk>, tail: seq<byte>)
    requires forall i :: 0 <= i < |blks| ==> blks[i].gap <= MAX_VARINT && blks[i].len <= MAX_VARINT
    requires Fields.AllWritable(IntFields(Flat(blks)))
    ensures Fields.EncodeAll(IntFields(Flat(blks)), tail) == Blocks(blks, tail)
  {
    if blks != [] {
      var head, rest := FirstPair(blks[0]), IntFields(Flat(blks[1..]));
      BlocksSplit(blks);
      WritableParts(head, rest);
      BlocksOctets(blks[1..], tail);
      EncodeOnto(head, rest, tail);
      EncodeFew(head, Fields.EncodeAll(rest, tail));
    }
  }

  lemma AckOctets(a: Ack, tail: seq<byte>)
    requires WellFormedAck(a)
    ensures Encode(AckFrame(a), tail) == Octets(AckFrame(a), tail)
  {
    var ns := IntFields(Flat(a.blks));
    FlatBound(a);
    BlocksOctets(a.blks, tail);
    HeadRoundTrip(a, []);
    EncodeOnto(HeadFields(a), ns, tail);
    var s := Fields.EncodeAll(HeadFields(a) + ns, tail);
    AckEncoded(a, s, tail);
    HeadOctets(a, Fields.EncodeAll(ns, tail));
    AckJoined(a, s, tail);
  }

  lemma AckJoined(a: Ack, s: seq<byte>, tail: seq<byte>)
    requires WellFormedAck(a) && Encode(AckFrame(a), tail) == [TypeByte(AckFrame(a))] + s
    requires s == Put(a.largest) + (Put(a.delay) + (Put(|a.blks|) + (Put(a.firstLen) + Blocks(a.blks, tail))))
    ensures Encode(AckFrame(a), tail) == Octets(AckFrame(a), tail)
  {
  }

  lemma HeadOctets(a: Ack, tail: seq<byte>)
    requires WellFormedAck(a) && Fields.AllWritable(HeadFields(a))
    ensures Fields.EncodeAll(HeadFields(a), tail) == Put(a.largest) + (Put(a.delay) + (Put(|a.blks|) + (Put(a.firstLen) + tail)))
  {
    var fs := HeadFields(a);
    assert fs[1..] == [Fields.Int(a.delay), Fields.Int(|a.blks|), Fields.Int(a.firstLen)];
    EncodeFew(fs[1..], tail);
  }

  /** Every frame is written in the octets of the draft. */
  lemma WrittenOctets(f: Frame, tail: seq<byte>)
    requires WellFormed(f) && !f.Padding?
    ensures Encode(f, tail) == Octets(f, tail)
  {
    if f.AckFrame? {
      AckOctets(f.ack, tail);
    } else if f.Stream? {
      StreamOctets(f, tail);
    } else {
      FixedOctets(f, tail);
    }
  }

  /** These octets are read as the frame; an ACK frame only with its first 255 blocks. */
  lemma ReadOctets(f: Frame, tail: seq<byte>)
    requires WellFormed(f) && !f.Padding?
    ensures Decode(Octets(f, tail)) == Some((Arriving(f), tail))
  {
    WrittenOctets(f, tail);
    RoundTrip(f, tail);
  }

  /** The octets after the type of a STREAM frame: the ID, the offset if there is one, and the rest. */
  ghost function Body(id: nat, off: bool, offset: nat, rest: seq<byte>): seq<byte>
    requires id <= MAX_VARINT && offset <= MAX_VARINT
  {
    Put(id) + (if off then Put(offset) + rest else rest)
  }

  function Flags(fin: bool, off: bool): nat { (if fin then 1 else 0) + (if off then 4 else 0) }

  /** A STREAM frame with a length, with or without an offset. */
  lemma StreamWithLength(fin: bool, off: bool, id: nat, offset: nat, data: seq<byte>, tail: seq<byte>)
    requires id <= MAX_VARINT && offset <= MAX_VARINT && |data| <= MAX_VARINT && (off || offset == 0)
    ensures Decode([0x12 + Flags(fin, off)] + Body(id, off, offset, Put(|data|) + data + tail)) == Some((Stream(fin, id, offset, data), tail))
  {
    var fs := StreamFields(off, id, offset) + [Fields.Blob(data)];
    StreamForm(0x12 + Flags(fin, off), fin, off, true, fs, tail);
    LengthBody(off, id, offset, data, tail, fs);
  }

  function StreamFields(off: bool, id: nat, offset: nat): seq<Fields.Field> {
    if off then [Fields.Int(id), Fields.Int(offset)] else [Fields.Int(id)]
  }

  lemma LengthBody(off: bool, id: nat, offset: nat, data: seq<byte>, tail: seq<byte>, fs: seq<Fields.Field>)
    requires id <= MAX_VARINT && offset <= MAX_VARINT && |data| <= MAX_VARINT && fs == StreamFields(off, id, offset) + [Fields.Blob(data)]
    requires Fields.AllWritable(fs)
    ensures Fields.EncodeAll(fs, tail) == Body(id, off, offset, Put(|data|) + data + tail)
  {
    EncodeFew(fs, tail);
  }

  /** Without a length, the data is all that follows. */
  lemma StreamToEnd(fin: bool, off: bool, id: nat, offset: nat, data: seq<byte>)
    requires id <= MAX_VARINT && offset <= MAX_VARINT && (off || offset == 0)
    ensures Decode([0x10 + Flags(fin, off)] + Body(id, off, offset, data)) == Some((Stream(fin, id, offset, data), []))
  {
    var fs := StreamFields(off, id, offset);
    StreamForm(0x10 + Flags(fin, off), fin, off, false, fs, data);
    EncodeFew(fs, data);
  }

  lemma StreamForm(t: byte, fin: bool, off: bool, len: bool, fs: seq<Fields.Field>, tail: seq<byte>)
    requires t == 0x10 + (if len then 2 else 0) + Flags(fin, off)
    requires Fields.AllFit(fs, [Fields.IntS] + (if off then [Fields.IntS] else []) + (if len then [Fields.BlobS] else []))
    ensures Fields.AllWritable(fs)
    ensures var offset := if off then fs[1].n else 0;
            Decode([t] + Fields.EncodeAll(fs, tail)) ==
            if len then Some((Stream(fin, fs[0].n, offset, fs[|fs| - 1].data), tail)) else Some((Stream(fin, fs[0].n, offset, tail), []))
  {
    FormBits(t, fin, off, len);
    Fields.ParseEncodeAll(fs, StreamLayout(t), tail);
    DecodeCons(t, Fields.EncodeAll(fs, tail));
  }

  lemma FormBits(t: byte, fin: bool, off: bool, len: bool)
    requires t == 0x10 + (if len then 2 else 0) + Flags(fin, off)
    ensures StreamType(t) && Bit(t, OFF_BIT) == off && Bit(t, LEN_BIT) == len && Bit(t, FIN_BIT) == fin
  {
  }
}
