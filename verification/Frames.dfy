/**
 Frames: their layout on the wire, and the round trip through it.
 */
module Frames {
  import opened Basics
  import opened Varint
  import opened Fields
  import opened AckFrames

  datatype Frame =
    | Padding(len: nat)
    | RstStream(streamId: nat, appErrorCode: nat, finalOffset: nat)
    | ConnectionClose(errorCode: nat, reason: seq<byte>)
    | ApplicationClose(appErrorCode: nat, reason: seq<byte>)
    | MaxData(maxData: nat)
    | MaxStreamData(streamId: nat, maxStreamData: nat)
    | MaxStreamId(maxStreamId: nat)
    | Ping(data: seq<byte>)
    | Blocked(offset: nat)
    | StreamBlocked(streamId: nat, offset: nat)
    | StreamIdBlocked(streamId: nat)
    | NewConnectionId(sequence: nat, connId: nat, token: seq<byte>)
    | StopSending(streamId: nat, appErrorCode: nat)
    | Pong(data: seq<byte>)
    | AckFrame(ack: Ack)
    | Stream(fin: bool, streamId: nat, offset: nat, data: seq<byte>)

  // ----- layout -----

  predicate Bit(b: byte, mask: nat)
    requires mask > 0
  {
    b / mask % 2 == 1
  }

  const FIN_BIT: nat := 1
  const LEN_BIT: nat := 2
  const OFF_BIT: nat := 4

  predicate StreamType(t: byte) { Bit(t, 16) }

  predicate AckType(t: byte) { Bit(t, 2) && Bit(t, 4) && Bit(t, 8) }

  /** The fields after the type byte, for the frames with a fixed layout. */
  function Layout(t: byte): Option<seq<Shape>> {
    if t == 0x01 then Some([IntS, WordS(2), IntS])
    else if t == 0x02 || t == 0x03 then Some([WordS(2), BlobS])
    else if t == 0x04 || t == 0x06 || t == 0x08 || t == 0x0a then Some([IntS])
    else if t == 0x05 || t == 0x09 then Some([IntS, IntS])
    else if t == 0x07 || t == 0x0d then Some([ShortBlobS])
    else if t == 0x0b then Some([IntS, WordS(8), RawS(16)])
    else if t == 0x0c then Some([IntS, WordS(2)])
    else None
  }

  /** The fields of a STREAM frame with this type byte; without the length bit, the rest of the payload is data. */
  function StreamLayout(t: byte): seq<Shape> {
    [IntS] + (if Bit(t, OFF_BIT) then [IntS] else []) + (if Bit(t, LEN_BIT) then [BlobS] else [])
  }

  /** A frame with a fixed layout from its fields. */
  function FromFields(t: byte, fs: seq<Field>): Frame
    requires Layout(t).Some? && |fs| == |Layout(t).value|
    requires forall i :: 0 <= i < |fs| ==> HasShape(fs[i], Layout(t).value[i])
  {
    assert forall i :: 0 <= i < |fs| ==> HasShape(fs[i], Layout(t).value[i]);
    if t == 0x01 then RstStream(fs[0].n, fs[1].n, fs[2].n)
    else if t == 0x02 then ConnectionClose(fs[0].n, fs[1].data)
    else if t == 0x03 then ApplicationClose(fs[0].n, fs[1].data)
    else if t == 0x04 then MaxData(fs[0].n)
    else if t == 0x05 then MaxStreamData(fs[0].n, fs[1].n)
    else if t == 0x06 then MaxStreamId(fs[0].n)
    else if t == 0x07 then Ping(fs[0].data)
    else if t == 0x08 then Blocked(fs[0].n)
    else if t == 0x09 then StreamBlocked(fs[0].n, fs[1].n)
    else if t == 0x0a then StreamIdBlocked(fs[0].n)
    else if t == 0x0b then NewConnectionId(fs[0].n % 0x1_0000, fs[1].n, fs[2].data)
    else if t == 0x0c then StopSending(fs[0].n, fs[1].n)
    else Pong(fs[0].data)
  }

  // ----- decoding -----

  /** The number of leading zero bytes. */
  function Zeros(s: seq<byte>): (r: nat)
    ensures r <= |s|
  {
    if s == [] || s[0] != 0 then 0 else 1 + Zeros(s[1..])
  }

  /** The shapes of `k` variable-length integers. */
  function Ints(k: nat): (r: seq<Shape>)
    ensures |r| == k && forall i :: 0 <= i < k ==> r[i] == IntS
  {
    seq(k, _ => IntS)
  }

  predicate AllInts(fs: seq<Field>) { forall i :: 0 <= i < |fs| ==> fs[i].Int? }

  /** The first `k` gap and length pairs. */
  function Pairs(fs: seq<Field>, k: nat): (r: seq<Blk>)
    requires AllInts(fs) && 2 * k <= |fs|
    ensures |r| == k
  {
    seq(k, i requires 0 <= i < k => Blk(fs[2 * i].n, fs[2 * i + 1].n))
  }

  /** How many blocks are kept. */
  function KeptCount(count: nat): nat { if count < MAX_ACK_BLKS then count else MAX_ACK_BLKS }

  datatype AckHead = AckHead(largest: nat, delay: nat, count: nat, first: nat)

  /** The integers of an ACK frame before its blocks. */
  function ReadHead(s: seq<byte>): (r: Option<(AckHead, seq<byte>)>)
    ensures r.Some? ==> Suffix(r.value.1, s)
  {
    match ParseAll(s, [IntS, IntS, IntS, IntS])
    case None => None
    case Some((fs, rest)) => Some((AckHead(fs[0].n, fs[1].n, fs[2].n, fs[3].n), rest))
  }

  /** An ACK frame after its type byte; only the first 255 blocks are kept. */
  function DecodeAck(s: seq<byte>): (r: Option<(Frame, seq<byte>)>)
    ensures r.Some? ==> Suffix(r.value.1, s)
  {
    match ReadHead(s)
    case None => None
    case Some((h, s')) =>
      match ParseAll(s', Ints(2 * h.count))
      case None => None
      case Some((fs, rest)) =>
        Some((AckFrame(Ack(h.largest, h.delay, h.first, Pairs(fs, KeptCount(h.count)))), rest))
  }

  function DecodeStream(t: byte, s: seq<byte>): (r: Option<(Frame, seq<byte>)>)
    ensures r.Some? ==> Suffix(r.value.1, s)
  {
    match ParseAll(s, StreamLayout(t))
    case None => None
    case Some((fs, rest)) =>
      var offset := if Bit(t, OFF_BIT) then fs[1].n else 0;
      if Bit(t, LEN_BIT) then Some((Stream(Bit(t, FIN_BIT), fs[0].n, offset, fs[|fs| - 1].data), rest))
      else Some((Stream(Bit(t, FIN_BIT), fs[0].n, offset, rest), []))
  }

  function DecodeFixed(t: byte, s: seq<byte>): (r: Option<(Frame, seq<byte>)>)
    ensures r.Some? ==> Suffix(r.value.1, s)
  {
    if Layout(t).None? then None else
    match ParseAll(s, Layout(t).value)
    case None => None
    case Some((fs, rest)) => Some((FromFields(t, fs), rest))
  }

  /** The frame after a type byte. */
  function DecodeBody(t: byte, s: seq<byte>): (r: Option<(Frame, seq<byte>)>)
    ensures r.Some? ==> Suffix(r.value.1, s)
  {
    if StreamType(t) then DecodeStream(t, s)
    else if AckType(t) then DecodeAck(s)
    else if t == 0 then Some((Padding(1 + Zeros(s)), s[Zeros(s)..]))
    else DecodeFixed(t, s)
  }

  /** The frame at the start of a payload, and what is left of it: at least one byte less. */
  function Decode(payload: seq<byte>): (r: Option<(Frame, seq<byte>)>)
    requires payload != []
    ensures r.Some? ==> Suffix(r.value.1, payload) && |r.value.1| < |payload|
  {
    DecodeBody(payload[0], payload[1..])
  }

  // ----- encoding -----

  function FlagByte(fin: bool, offset: nat): byte {
    0x10 + LEN_BIT + (if fin then FIN_BIT else 0) + (if offset != 0 then OFF_BIT else 0)
  }

  function TypeByte(f: Frame): byte {
    match f
    case Padding(_) => 0x00
    case RstStream(_, _, _) => 0x01
    case ConnectionClose(_, _) => 0x02
    case ApplicationClose(_, _) => 0x03
    case MaxData(_) => 0x04
    case MaxStreamData(_, _) => 0x05
    case MaxStreamId(_) => 0x06
    case Ping(_) => 0x07
    case Blocked(_) => 0x08
    case StreamBlocked(_, _) => 0x09
    case StreamIdBlocked(_) => 0x0a
    case NewConnectionId(_, _, _) => 0x0b
    case StopSending(_, _) => 0x0c
    case Pong(_) => 0x0d
    case AckFrame(_) => 0x0e
    case Stream(fin, _, offset, _) => FlagByte(fin, offset)
  }

  function IntFields(ns: seq<nat>): (r: seq<Field>)
    ensures |r| == |ns| && forall i :: 0 <= i < |ns| ==> r[i] == Int(ns[i])
  {
    seq(|ns|, i requires 0 <= i < |ns| => Int(ns[i]))
  }

  /** The gaps and lengths of the blocks in order. */
  function Flat(blks: seq<Blk>): (r: seq<nat>)
    ensures |r| == 2 * |blks|
    ensures forall i :: 0 <= i < |blks| ==> r[2 * i] == blks[i].gap && r[2 * i + 1] == blks[i].len
  {
    if blks == [] then [] else
    var n := |blks| - 1;
    Flat(blks[..n]) + [blks[n].gap, blks[n].len]
  }

  /** The fields of a frame other than PADDING. */
  function FieldsOf(f: Frame): seq<Field> {
    match f
    case Padding(_) => []
    case RstStream(id, code, offset) => [Int(id), Word(code, 2), Int(offset)]
    case ConnectionClose(code, reason) => [Word(code, 2), Blob(reason)]
    case ApplicationClose(code, reason) => [Word(code, 2), Blob(reason)]
    case MaxData(n) => [Int(n)]
    case MaxStreamData(id, n) => [Int(id), Int(n)]
    case MaxStreamId(id) => [Int(id)]
    case Ping(data) => [ShortBlob(data)]
    case Blocked(offset) => [Int(offset)]
    case StreamBlocked(id, offset) => [Int(id), Int(offset)]
    case StreamIdBlocked(id) => [Int(id)]
    case NewConnectionId(sequence, connId, token) => [Int(sequence), Word(connId, 8), Raw(token)]
    case StopSending(id, code) => [Int(id), Word(code, 2)]
    case Pong(data) => [ShortBlob(data)]
    case AckFrame(a) => [Int(a.largest), Int(a.delay), Int(|a.blks|), Int(a.firstLen)] + IntFields(Flat(a.blks))
    case Stream(_, id, offset, data) => [Int(id)] + (if offset != 0 then [Int(offset)] else []) + [Blob(data)]
  }

  /** The values that the fields of a frame can hold. */
  predicate WellFormed(f: Frame) {
    match f
    case Padding(len) => 1 <= len
    case RstStream(id, code, offset) => id <= MAX_VARINT && code < 0x1_0000 && offset <= MAX_VARINT
    case ConnectionClose(code, reason) => code < 0x1_0000 && |reason| <= MAX_VARINT
    case ApplicationClose(code, reason) => code < 0x1_0000 && |reason| <= MAX_VARINT
    case MaxData(n) => n <= MAX_VARINT
    case MaxStreamData(id, n) => id <= MAX_VARINT && n <= MAX_VARINT
    case MaxStreamId(id) => id <= MAX_VARINT
    case Ping(data) => |data| < 256
    case Blocked(offset) => offset <= MAX_VARINT
    case StreamBlocked(id, offset) => id <= MAX_VARINT && offset <= MAX_VARINT
    case StreamIdBlocked(id) => id <= MAX_VARINT
    case NewConnectionId(sequence, connId, token) => sequence < 0x1_0000 && connId < 0x1_0000_0000_0000_0000 && |token| == 16
    case StopSending(id, code) => id <= MAX_VARINT && code < 0x1_0000
    case Pong(data) => |data| < 256
    case AckFrame(a) => WellFormedAck(a)
    case Stream(_, id, offset, data) => id <= MAX_VARINT && offset <= MAX_VARINT && |data| <= MAX_VARINT
  }

  predicate WellFormedAck(a: Ack) {
    && a.largest <= MAX_VARINT && a.delay <= MAX_VARINT && a.firstLen <= MAX_VARINT && |a.blks| <= MAX_VARINT
    && (forall i :: 0 <= i < |a.blks| ==> a.blks[i].gap <= MAX_VARINT && a.blks[i].len <= MAX_VARINT)
  }

  lemma FlatBound(a: Ack)
    requires WellFormedAck(a)
    ensures AllWritable(IntFields(Flat(a.blks)))
  {
    var ns := Flat(a.blks);
    forall i | 0 <= i < |ns| ensures ns[i] <= MAX_VARINT {
      var b := a.blks[i / 2];
      assert ns[i] == if i % 2 == 0 then b.gap else b.len;
    }
  }

  lemma FrameWritable(f: Frame)
    requires WellFormed(f)
    ensures AllWritable(FieldsOf(f))
  {
    if f.AckFrame? { FlatBound(f.ack); }
  }

  /** The bytes of a frame, followed by `tail`. */
  ghost function Encode(f: Frame, tail: seq<byte>): (r: seq<byte>)
    requires WellFormed(f)
    ensures r != []
  {
    if f.Padding? then seq(f.len, _ => 0) + tail
    else
      FrameWritable(f);
      [TypeByte(f)] + EncodeAll(FieldsOf(f), tail)
  }

  // ----- round trips -----

  lemma {:induction false} ZerosThen(k: nat, tail: seq<byte>)
    requires tail == [] || tail[0] != 0
    ensures Zeros(seq(k, _ => 0) + tail) == k
  {
    var z: seq<byte> := seq(k, _ => 0);
    if k == 0 {
      assert z + tail == tail;
    } else {
      ZerosThen(k - 1, tail);
      assert (z + tail)[1..] == seq(k - 1, _ => 0) + tail;
    }
  }

  lemma PaddingRoundTrip(len: nat, tail: seq<byte>)
    requires 1 <= len && (tail == [] || tail[0] != 0)
    ensures Decode(Encode(Padding(len), tail)) == Some((Padding(len), tail))
  {
    var z: seq<byte> := seq(len - 1, _ => 0);
    ZerosThen(len - 1, tail);
    assert Encode(Padding(len), tail) == [0] + (z + tail);
    assert (z + tail)[len - 1..] == tail;
    ZeroTyped(0, z + tail, len - 1);
  }

  lemma ZeroTyped(t: byte, s: seq<byte>, k: nat)
    requires t == 0 && Zeros(s) == k
    ensures Decode([t] + s) == Some((Padding(1 + k), s[k..]))
  {
    DecodeCons(t, s);
  }

  /** A type byte before a body. */
  lemma DecodeCons(t: byte, s: seq<byte>)
    ensures Decode([t] + s) == DecodeBody(t, s)
  {
    assert ([t] + s)[1..] == s;
  }

  predicate Fixed(f: Frame) { !f.Padding? && !f.AckFrame? && !f.Stream? }

  lemma FixedFits(f: Frame)
    requires WellFormed(f) && Fixed(f)
    ensures var t := TypeByte(f);
            && !StreamType(t) && !AckType(t) && t != 0
            && Layout(t).Some? && AllFit(FieldsOf(f), Layout(t).value)
  {
    Spans();
  }

  lemma FixedRoundTrip(f: Frame, tail: seq<byte>)
    requires WellFormed(f) && Fixed(f)
    ensures Decode(Encode(f, tail)) == Some((f, tail))
  {
    FixedFits(f);
    ParseEncodeAll(FieldsOf(f), Layout(TypeByte(f)).value, tail);
    FixedBody(f, EncodeAll(FieldsOf(f), tail), tail);
    DecodeCons(TypeByte(f), EncodeAll(FieldsOf(f), tail));
  }

  lemma FixedBody(f: Frame, s: seq<byte>, tail: seq<byte>)
    requires WellFormed(f) && Fixed(f) && Layout(TypeByte(f)).Some?
    requires ParseAll(s, Layout(TypeByte(f)).value) == Some((FieldsOf(f), tail))
    ensures DecodeFixed(TypeByte(f), s) == Some((f, tail))
  {
    FixedParsed(TypeByte(f), Layout(TypeByte(f)).value, s, FieldsOf(f), tail);
    FixedBack(f, FieldsOf(f));
  }

  lemma FixedParsed(t: byte, shapes: seq<Shape>, s: seq<byte>, fs: seq<Field>, tail: seq<byte>)
    requires Layout(t) == Some(shapes) && ParseAll(s, shapes) == Some((fs, tail))
    ensures |fs| == |shapes| && forall i :: 0 <= i < |fs| ==> HasShape(fs[i], shapes[i])
    ensures DecodeFixed(t, s) == Some((FromFields(t, fs), tail))
  {
  }

  lemma FixedBack(f: Frame, fs: seq<Field>)
    requires WellFormed(f) && Fixed(f) && fs == FieldsOf(f)
    requires Layout(TypeByte(f)).Some? && |fs| == |Layout(TypeByte(f)).value|
    requires forall i :: 0 <= i < |fs| ==> HasShape(fs[i], Layout(TypeByte(f)).value[i])
    ensures FromFields(TypeByte(f), fs) == f
  {
  }

  lemma FlagBits(fin: bool, offset: nat)
    ensures var t := FlagByte(fin, offset);
            StreamType(t) && Bit(t, LEN_BIT) && Bit(t, FIN_BIT) == fin && Bit(t, OFF_BIT) == (offset != 0)
  {
  }

  lemma StreamRoundTrip(f: Frame, tail: seq<byte>)
    requires WellFormed(f) && f.Stream?
    ensures Decode(Encode(f, tail)) == Some((f, tail))
  {
    FlagBits(f.fin, f.offset);
    assert AllFit(FieldsOf(f), StreamLayout(TypeByte(f)));
    ParseEncodeAll(FieldsOf(f), StreamLayout(TypeByte(f)), tail);
    StreamBody(f, EncodeAll(FieldsOf(f), tail), tail);
    DecodeCons(TypeByte(f), EncodeAll(FieldsOf(f), tail));
  }

  lemma StreamBody(f: Frame, s: seq<byte>, tail: seq<byte>)
    requires f.Stream? && ParseAll(s, StreamLayout(TypeByte(f))) == Some((FieldsOf(f), tail))
    ensures DecodeStream(TypeByte(f), s) == Some((f, tail))
  {
    FlagBits(f.fin, f.offset);
  }

  lemma IntsRoundTrip(ns: seq<nat>, tail: seq<byte>)
    requires AllWritable(IntFields(ns))
    ensures ParseAll(EncodeAll(IntFields(ns), tail), Ints(|ns|)) == Some((IntFields(ns), tail))
  {
    var fs := IntFields(ns);
    forall i | 0 <= i < |ns| ensures Fits(fs[i], Ints(|ns|)[i]) { assert Writable(fs[i]); }
    ParseEncodeAll(fs, Ints(|ns|), tail);
  }

  lemma PairsOf(ns: seq<nat>, blks: seq<Blk>, k: nat)
    requires |ns| == 2 * |blks| && k <= |blks|
    requires forall i :: 0 <= i < |blks| ==> ns[2 * i] == blks[i].gap && ns[2 * i + 1] == blks[i].len
    ensures Pairs(IntFields(ns), k) == blks[..k]
  {
    forall i | 0 <= i < k ensures Pairs(IntFields(ns), k)[i] == blks[..k][i] {
      assert blks[..k][i] == blks[i];
    }
  }

  /** What is left of an ACK frame: its first 255 blocks. */
  function Kept(a: Ack): Ack { a.(blks := a.blks[..KeptCount(|a.blks|)]) }

  lemma AckFromHead(s: seq<byte>, h: AckHead, s': seq<byte>, fs: seq<Field>, tail: seq<byte>)
    requires ReadHead(s) == Some((h, s')) && ParseAll(s', Ints(2 * h.count)) == Some((fs, tail))
    requires AllInts(fs) && |fs| == 2 * h.count
    ensures DecodeAck(s) == Some((AckFrame(Ack(h.largest, h.delay, h.first, Pairs(fs, KeptCount(h.count)))), tail))
  {
  }

  lemma AckBody(a: Ack, s: seq<byte>, s': seq<byte>, tail: seq<byte>)
    requires ReadHead(s) == Some((AckHead(a.largest, a.delay, |a.blks|, a.firstLen), s'))
    requires ParseAll(s', Ints(2 * |a.blks|)) == Some((IntFields(Flat(a.blks)), tail))
    ensures DecodeAck(s) == Some((AckFrame(Kept(a)), tail))
  {
    PairsOf(Flat(a.blks), a.blks, KeptCount(|a.blks|));
    AckFromHead(s, AckHead(a.largest, a.delay, |a.blks|, a.firstLen), s', IntFields(Flat(a.blks)), tail);
  }

  lemma HeadRoundTrip(a: Ack, s': seq<byte>)
    requires WellFormedAck(a)
    ensures AllWritable(HeadFields(a)) &&
            ReadHead(EncodeAll(HeadFields(a), s')) == Some((AckHead(a.largest, a.delay, |a.blks|, a.firstLen), s'))
  {
    ParseEncodeAll(HeadFields(a), [IntS, IntS, IntS, IntS], s');
  }

  function HeadFields(a: Ack): seq<Field> { [Int(a.largest), Int(a.delay), Int(|a.blks|), Int(a.firstLen)] }

  lemma {:induction false} EncodeOnto(fs: seq<Field>, gs: seq<Field>, tail: seq<byte>)
    requires AllWritable(fs) && AllWritable(gs)
    ensures AllWritable(fs + gs) && EncodeAll(fs + gs, tail) == EncodeAll(fs, EncodeAll(gs, tail))
  {
    if fs == [] {
      assert fs + gs == gs;
    } else {
      EncodeOnto(fs[1..], gs, tail);
      assert (fs + gs)[1..] == fs[1..] + gs;
    }
  }

  lemma AckRoundTrip(a: Ack, tail: seq<byte>)
    requires WellFormedAck(a)
    ensures Decode(Encode(AckFrame(a), tail)) == Some((AckFrame(Kept(a)), tail))
  {
    var ns := IntFields(Flat(a.blks));
    FlatBound(a);
    IntsRoundTrip(Flat(a.blks), tail);
    HeadRoundTrip(a, EncodeAll(ns, tail));
    EncodeOnto(HeadFields(a), ns, tail);
    var s := EncodeAll(HeadFields(a) + ns, tail);
    AckBody(a, s, EncodeAll(ns, tail), tail);
    AckEncoded(a, s, tail);
    AckTyped(TypeByte(AckFrame(a)), s);
  }

  lemma AckEncoded(a: Ack, s: seq<byte>, tail: seq<byte>)
    requires WellFormedAck(a) && AllWritable(HeadFields(a) + IntFields(Flat(a.blks)))
    requires s == EncodeAll(HeadFields(a) + IntFields(Flat(a.blks)), tail)
    ensures Encode(AckFrame(a), tail) == [TypeByte(AckFrame(a))] + s
    ensures AckType(TypeByte(AckFrame(a))) && !StreamType(TypeByte(AckFrame(a)))
  {
    assert FieldsOf(AckFrame(a)) == HeadFields(a) + IntFields(Flat(a.blks));
  }

  lemma AckTyped(t: byte, s: seq<byte>)
    requires AckType(t) && !StreamType(t)
    ensures Decode([t] + s) == DecodeAck(s)
  {
    DecodeCons(t, s);
  }

  /** The frame as it arrives. */
  function Arriving(f: Frame): Frame { if f.AckFrame? then AckFrame(Kept(f.ack)) else f }

  /**
   Every frame is read back as it was written, whatever follows it, except that an ACK frame
   loses its blocks past the 255th, and that PADDING takes zero bytes after it for its own.
   */
  lemma RoundTrip(f: Frame, tail: seq<byte>)
    requires WellFormed(f) && (f.Padding? ==> tail == [] || tail[0] != 0)
    ensures Decode(Encode(f, tail)) == Some((Arriving(f), tail))
    ensures Arriving(f) == f <==> !(f.AckFrame? && |f.ack.blks| > 255)
  {
    ArrivesSame(f);
    match f
    case Padding(len) => PaddingRoundTrip(len, tail);
    case AckFrame(a) => AckRoundTrip(a, tail);
    case Stream(_, _, _, _) => StreamRoundTrip(f, tail);
    case _ => FixedRoundTrip(f, tail);
  }

  lemma ArrivesSame(f: Frame)
    ensures Arriving(f) == f <==> !(f.AckFrame? && |f.ack.blks| > 255)
  {
    if f.AckFrame? { assert f.ack.blks[..|f.ack.blks|] == f.ack.blks; }
  }
}
