/**
 The fields that frames are made of, how they are written, and how they are read
 back: in one pass here, in two passes by the decoders.
 */
module Fields {
  import opened Basics
  import opened Varint

  /** A field: a variable-length integer, a big-endian number, data after its length, or data of known length. */
  datatype Field = Int(n: nat) | Word(n: nat, w: nat) | Blob(data: seq<byte>) | ShortBlob(data: seq<byte>) | Raw(data: seq<byte>)

  datatype Shape = IntS | WordS(w: nat) | BlobS | ShortBlobS | RawS(len: nat)

  /** The field has this shape, and its value can be written. */
  predicate Fits(f: Field, s: Shape) {
    match s
    case IntS => f.Int? && f.n <= MAX_VARINT
    case WordS(w) => f.Word? && f.w == w && f.n < Span(w)
    case BlobS => f.Blob? && |f.data| <= MAX_VARINT
    case ShortBlobS => f.ShortBlob? && |f.data| < 256
    case RawS(len) => f.Raw? && |f.data| == len
  }

  predicate AllFit(fs: seq<Field>, shapes: seq<Shape>) {
    |fs| == |shapes| && forall i :: 0 <= i < |fs| ==> Fits(fs[i], shapes[i])
  }

  // ----- writing -----

  predicate Writable(f: Field) {
    match f
    case Int(n) => n <= MAX_VARINT
    case Blob(data) => |data| <= MAX_VARINT
    case _ => true
  }

  /** The bytes of a field. */
  function Encode(f: Field): (r: seq<byte>)
    requires Writable(f)
    ensures |r| == Size(f)
  {
    match f
    case Int(n) => Put(n)
    case Word(n, w) => BigEndian(n, w)
    case Blob(data) => Put(|data|) + data
    case ShortBlob(data) => [|data| % 256] + data
    case Raw(data) => data
  }

  /** The length the encoders compute in advance. */
  function Size(f: Field): nat {
    match f
    case Int(n) => PutLen(n)
    case Word(_, w) => w
    case Blob(data) => PutLen(|data|) + |data|
    case ShortBlob(data) => 1 + |data|
    case Raw(data) => |data|
  }

  ghost predicate AllWritable(fs: seq<Field>) { forall i :: 0 <= i < |fs| ==> Writable(fs[i]) }

  /** The bytes of the fields, followed by `tail`. */
  ghost function EncodeAll(fs: seq<Field>, tail: seq<byte>): seq<byte>
    requires AllWritable(fs)
  {
    if fs == [] then tail else Encode(fs[0]) + EncodeAll(fs[1..], tail)
  }

  function SizeAll(fs: seq<Field>): nat {
    if fs == [] then 0 else Size(fs[0]) + SizeAll(fs[1..])
  }

  lemma {:induction false} EncodeTail(fs: seq<Field>, tail: seq<byte>)
    requires AllWritable(fs)
    ensures EncodeAll(fs, tail) == EncodeAll(fs, []) + tail && |EncodeAll(fs, [])| == SizeAll(fs)
  {
    if fs != [] { EncodeTail(fs[1..], tail); }
  }

  lemma FitsWritable(fs: seq<Field>, shapes: seq<Shape>)
    requires AllFit(fs, shapes)
    ensures AllWritable(fs)
  {
    forall i | 0 <= i < |fs| ensures Writable(fs[i]) { assert Fits(fs[i], shapes[i]); }
  }

  // ----- reading -----

  /** `rest` is what is left of `s` after some of it was read. */
  ghost predicate Suffix(rest: seq<byte>, s: seq<byte>) { |rest| <= |s| && rest == s[|s| - |rest|..] }

  /** Reads a variable-length integer from the start of `s`; the result is it and the rest. */
  function ReadInt(s: seq<byte>): (r: Option<(nat, seq<byte>)>)
    ensures r.Some? ==> Suffix(r.value.1, s) && |r.value.1| < |s|
  {
    if s == [] || |s| < GetLen(s[0]) then None else Some((Get(s), s[GetLen(s[0])..]))
  }

  lemma ReadPut(n: nat, tail: seq<byte>)
    requires n <= MAX_VARINT
    ensures ReadInt(Put(n) + tail) == Some((n, tail))
  {
    PutGet(n, tail);
  }

  function Take(s: seq<byte>, n: nat): (r: Option<(seq<byte>, seq<byte>)>)
    ensures r.Some? ==> Suffix(r.value.1, s)
  {
    if |s| < n then None else Some((s[..n], s[n..]))
  }

  lemma TakeBack(data: seq<byte>, tail: seq<byte>)
    ensures Take(data + tail, |data|) == Some((data, tail))
  {
  }

  /** Reads a field from the start of `s`. */
  function Parse(s: seq<byte>, shape: Shape): (r: Option<(Field, seq<byte>)>)
    ensures r.Some? ==> Suffix(r.value.1, s) && HasShape(r.value.0, shape)
  {
    match shape
    case IntS => (match ReadInt(s) case None => None case Some((n, rest)) => Some((Int(n), rest)))
    case WordS(w) => (match Take(s, w) case None => None case Some((d, rest)) => Some((Word(Value(d), w), rest)))
    case BlobS =>
      (match ReadInt(s)
       case None => None
       case Some((n, s')) => match Take(s', n) case None => None case Some((d, rest)) => Some((Blob(d), rest)))
    case ShortBlobS =>
      if s == [] then None
      else (match Take(s[1..], s[0]) case None => None case Some((d, rest)) => Some((ShortBlob(d), rest)))
    case RawS(len) => (match Take(s, len) case None => None case Some((d, rest)) => Some((Raw(d), rest)))
  }

  predicate HasShape(f: Field, s: Shape) {
    match s
    case IntS => f.Int?
    case WordS(w) => f.Word?
    case BlobS => f.Blob?
    case ShortBlobS => f.ShortBlob?
    case RawS(_) => f.Raw?
  }

  function ParseAll(s: seq<byte>, shapes: seq<Shape>): (r: Option<(seq<Field>, seq<byte>)>)
    ensures r.Some? ==> Suffix(r.value.1, s)
    ensures r.Some? ==> |r.value.0| == |shapes| && forall i :: 0 <= i < |shapes| ==> HasShape(r.value.0[i], shapes[i])
    decreases |shapes|
  {
    if shapes == [] then Some(([], s)) else
    match Parse(s, shapes[0])
    case None => None
    case Some((f, s')) =>
      match ParseAll(s', shapes[1..])
      case None => None
      case Some((fs, rest)) => Some(([f] + fs, rest))
  }

  /** A field is read back as it was written, and what follows it is left. */
  lemma ParseEncode(f: Field, shape: Shape, tail: seq<byte>)
    requires Fits(f, shape)
    ensures Writable(f) && Parse(Encode(f) + tail, shape) == Some((f, tail))
  {
    match f
    case Int(n) => ReadPut(n, tail);
    case Word(n, w) =>
      BigEndianRoundTrip(n, w);
      TakeBack(BigEndian(n, w), tail);
    case Blob(data) =>
      assert Put(|data|) + data + tail == Put(|data|) + (data + tail);
      ReadPut(|data|, data + tail);
      TakeBack(data, tail);
    case ShortBlob(data) =>
      assert ([|data| % 256] + data + tail)[1..] == data + tail;
      TakeBack(data, tail);
    case Raw(data) => TakeBack(data, tail);
  }

  lemma {:induction false} ParseEncodeAll(fs: seq<Field>, shapes: seq<Shape>, tail: seq<byte>)
    requires AllFit(fs, shapes)
    ensures AllWritable(fs) && ParseAll(EncodeAll(fs, tail), shapes) == Some((fs, tail))
  {
    FitsWritable(fs, shapes);
    if fs != [] {
      ParseEncodeAll(fs[1..], shapes[1..], tail);
      ParseEncode(fs[0], shapes[0], EncodeAll(fs[1..], tail));
      assert fs == [fs[0]] + fs[1..];
    }
  }
}
