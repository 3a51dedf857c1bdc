/**
 The frame encoders: the length is computed first, then the frame is written into the
 caller's buffer.
 */
module FrameWriter {
  import opened Basics
  import opened Bits
  import opened Varint
  import opened Fields
  import opened Frames

  /** `s` has been written at `p`, and the rest of the buffer is as it was. */
  ghost predicate Wrote(before: seq<byte>, after: seq<byte>, p: nat, s: seq<byte>) {
    && |after| == |before| && p + |s| <= |after|
    && after[..p + |s|] == before[..p] + s && after[p + |s|..] == before[p + |s|..]
  }

  /** Two pieces written one after the other. */
  lemma Joined(before: seq<byte>, mid: seq<byte>, after: seq<byte>, p: nat, s: seq<byte>, t: seq<byte>)
    requires Wrote(before, mid, p, s) && Wrote(mid, after, p + |s|, t)
    ensures Wrote(before, after, p, s + t)
  {
    assert before[..p] + s + t == before[..p] + (s + t);
    var n := p + |s| + |t|;
    assert mid[n..] == mid[p + |s|..][|t|..] == before[p + |s|..][|t|..] == before[n..];
  }

  method PutBytes(out: array<byte>, p: nat, s: seq<byte>) returns (p': nat)
    requires p + |s| <= out.Length
    modifies out
    ensures p' == p + |s| && Wrote(old(out[..]), out[..], p, s)
  {
    for i := 0 to |s|
      invariant out[..p + i] == old(out[..p]) + s[..i] && out[p + i..] == old(out[p + i..])
    {
      out[p + i] := s[i];
    }
    p' := p + |s|;
  }

  lemma WordNext(k: nat, i: nat, after: seq<byte>, word: seq<byte>)
    requires i > 0 && BigEndian(k, i) + after == word
    ensures BigEndian(k / 256, i - 1) + ([k % 256] + after) == word
  {
    assert BigEndian(k / 256, i - 1) + [k % 256] + after == BigEndian(k / 256, i - 1) + ([k % 256] + after);
  }

  /** Writes a big-endian number, last byte first. */
  method PutWord(out: array<byte>, p: nat, n: nat, w: nat) returns (p': nat)
    requires p + w <= out.Length
    modifies out
    ensures p' == p + w && Wrote(old(out[..]), out[..], p, BigEndian(n, w))
  {
    p' := p + w;
    var k, i := n, w;
    ghost var word := BigEndian(n, w);
    while i > 0
      invariant 0 <= i <= w && 0 <= k && BigEndian(k, i) + out[p + i..p + w] == word
      invariant out[..p + i] == old(out[..p + i]) && out[p + w..] == old(out[p + w..])
    {
      ghost var after := out[p + i..p + w];
      out[p + i - 1] := k % 256;
      assert out[p + i - 1..p + w] == [k % 256] + after;
      WordNext(k, i, after, word);
      k, i := k / 256, i - 1;
    }
    assert out[p..p + w] == word;
    assert out[..p + w] == out[..p + 0] + out[p..p + w];
  }

  method PutVarint(out: array<byte>, p: nat, n: nat) returns (p': nat)
    requires n <= MAX_VARINT && p + PutLen(n) <= out.Length
    modifies out
    ensures p' == p + PutLen(n) && Wrote(old(out[..]), out[..], p, Put(n))
  {
    var w := PutLen(n);
    p' := PutWord(out, p, n, w);
    ghost var mid := out[..];
    TaggedByte(n);
    assert out[p] == mid[..p + w][p] == BigEndian(n, w)[0];
    out[p] := Or(TagOf(w) * 64, out[p]);
    assert out[..p + w] == mid[..p + w][p := out[p]];
  }

  method WriteField(out: array<byte>, p: nat, f: Field) returns (p': nat)
    requires Writable(f) && p + Size(f) <= out.Length
    modifies out
    ensures p' == p + Size(f) && Wrote(old(out[..]), out[..], p, Fields.Encode(f))
  {
    match f
    case Int(n) => p' := PutVarint(out, p, n);
    case Word(n, w) => p' := PutWord(out, p, n, w);
    case Blob(data) =>
      p' := PutVarint(out, p, |data|);
      ghost var mid := out[..];
      p' := PutBytes(out, p', data);
      Joined(old(out[..]), mid, out[..], p, Put(|data|), data);
    case ShortBlob(data) =>
      p' := PutBytes(out, p, [|data| % 256]);
      ghost var mid := out[..];
      p' := PutBytes(out, p', data);
      Joined(old(out[..]), mid, out[..], p, [|data| % 256], data);
    case Raw(data) => p' := PutBytes(out, p, data);
  }

  lemma {:induction false} EncodeNext(fs: seq<Field>, i: nat)
    requires AllWritable(fs) && i < |fs|
    ensures AllWritable(fs[..i]) && AllWritable(fs[..i + 1])
    ensures EncodeAll(fs[..i + 1], []) == EncodeAll(fs[..i], []) + Fields.Encode(fs[i])
  {
    var a, b := fs[..i], fs[..i + 1];
    forall k | 0 <= k < |b| ensures Writable(b[k]) { assert b[k] == fs[k]; }
    forall k | 0 <= k < |a| ensures Writable(a[k]) { assert a[k] == fs[k]; }
    assert fs[..i + 1] == fs[..i] + [fs[i]];
    EncodeOnto(fs[..i], [fs[i]], []);
    EncodeTail(fs[..i], EncodeAll([fs[i]], []));
    assert EncodeAll([fs[i]], []) == Fields.Encode(fs[i]) + EncodeAll([fs[i]][1..], []);
  }

  /** The length of a frame as the encoders compute it. */
  method Length(f: Frame) returns (len: nat)
    requires WellFormed(f)
    ensures len == |Frames.Encode(f, [])|
  {
    if f.Padding? {
      return f.len;
    }
    var fs := FieldsOf(f);
    FrameWritable(f);
    EncodeTail(fs, []);
    len := 1;
    for i := 0 to |fs|
      invariant len == 1 + SizeAll(fs[..i])
    {
      SizeNext(fs, i);
      len := len + Size(fs[i]);
    }
    assert fs[..|fs|] == fs;
  }

  lemma {:induction false} SizeNext(fs: seq<Field>, i: nat)
    requires i < |fs|
    ensures SizeAll(fs[..i + 1]) == SizeAll(fs[..i]) + Size(fs[i])
  {
    if i > 0 {
      SizeNext(fs[1..], i - 1);
      assert fs[..i + 1][1..] == fs[1..][..i] && fs[..i][1..] == fs[1..][..i - 1];
    } else {
      assert fs[..1] == [fs[0]];
    }
  }

  /**
   Writes a frame at the start of the buffer: fails exactly if it does not fit, and
   otherwise writes its bytes and nothing else.
   */
  method EncodeFrame(out: array<byte>, f: Frame) returns (r: Option<nat>)
    requires WellFormed(f)
    modifies out
    ensures r.None? <==> out.Length < |Frames.Encode(f, [])|
    ensures r.None? ==> out[..] == old(out[..])
    ensures r.Some? ==> r.value == |Frames.Encode(f, [])| && Wrote(old(out[..]), out[..], 0, Frames.Encode(f, []))
  {
    var len := Length(f);
    if out.Length < len {
      return None;
    }
    if f.Padding? {
      var p := PutBytes(out, 0, seq(f.len, _ => 0));
      assert Frames.Encode(f, []) == seq(f.len, _ => 0);
      return Some(len);
    }
    FrameWritable(f);
    EncodeTail(FieldsOf(f), []);
    var p := PutBytes(out, 0, [TypeByte(f)]);
    ghost var mid := out[..];
    p := WriteFields(out, p, FieldsOf(f));
    Joined(old(out[..]), mid, out[..], 0, [TypeByte(f)], EncodeAll(FieldsOf(f), []));
    return Some(len);
  }

  method WriteFields(out: array<byte>, start: nat, fs: seq<Field>) returns (p: nat)
    requires AllWritable(fs) && start + SizeAll(fs) <= out.Length
    modifies out
    ensures p == start + SizeAll(fs) && Wrote(old(out[..]), out[..], start, EncodeAll(fs, []))
  {
    p := start;
    assert fs[..0] == [];
    for i := 0 to |fs|
      invariant Written(old(out[..]), out[..], start, p, fs, i)
    {
      p := WriteNext(out, start, p, fs, i, old(out[..]));
    }
    assert fs[..|fs|] == fs;
  }

  /** The first `i` fields have been written, up to `p`. */
  ghost predicate Written(before: seq<byte>, after: seq<byte>, start: nat, p: nat, fs: seq<Field>, i: nat) {
    && i <= |fs| && AllWritable(fs[..i]) && p == start + SizeAll(fs[..i])
    && Wrote(before, after, start, EncodeAll(fs[..i], []))
  }

  /** One turn of the loop of WriteFields. */
  method WriteNext(out: array<byte>, start: nat, p: nat, fs: seq<Field>, i: nat, ghost before: seq<byte>) returns (p': nat)
    requires AllWritable(fs) && start + SizeAll(fs) <= out.Length && i < |fs| && Written(before, out[..], start, p, fs, i)
    modifies out
    ensures Written(before, out[..], start, p', fs, i + 1)
  {
    SizeNext(fs, i);
    SizePrefix(fs, i + 1);
    ghost var mid := out[..];
    p' := WriteField(out, p, fs[i]);
    WrittenNext(before, mid, out[..], start, p, fs, i);
  }

  lemma WrittenNext(before: seq<byte>, mid: seq<byte>, after: seq<byte>, start: nat, p: nat, fs: seq<Field>, i: nat)
    requires AllWritable(fs) && i < |fs| && Written(before, mid, start, p, fs, i) && Wrote(mid, after, p, Fields.Encode(fs[i]))
    ensures Written(before, after, start, p + Size(fs[i]), fs, i + 1)
  {
    EncodeNext(fs, i);
    SizeNext(fs, i);
    EncodeTail(fs[..i], []);
    Joined(before, mid, after, start, EncodeAll(fs[..i], []), Fields.Encode(fs[i]));
  }

  lemma {:induction false} SizePrefix(fs: seq<Field>, i: nat)
    requires i <= |fs|
    ensures SizeAll(fs[..i]) <= SizeAll(fs)
    decreases |fs| - i
  {
    if i < |fs| {
      SizePrefix(fs, i + 1);
      SizeNext(fs, i);
    } else {
      assert fs[..i] == fs;
    }
  }
}
