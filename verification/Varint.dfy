/**
 Integers on the wire: big-endian numbers of a fixed width, and variable-length
 integers whose two highest bits give the length.
 */
module Varint {
  import opened Basics
  import opened Bits

  // ----- big-endian numbers -----

  /** The number of values of `w` bytes. */
  function Span(w: nat): (r: nat)
    ensures 0 < r
  {
    if w == 0 then 1 else 256 * Span(w - 1)
  }

  function BigEndian(n: nat, w: nat): (r: seq<byte>)
    ensures |r| == w
  {
    if w == 0 then [] else BigEndian(n / 256, w - 1) + [n % 256]
  }

  function Value(s: seq<byte>): nat {
    if s == [] then 0 else 256 * Value(s[..|s| - 1]) + s[|s| - 1]
  }

  lemma ValueNext(s: seq<byte>, b: byte)
    ensures Value(s + [b]) == 256 * Value(s) + b
  {
    assert (s + [b])[..|s|] == s;
  }

  lemma {:induction false} BigEndianRoundTrip(n: nat, w: nat)
    requires n < Span(w)
    ensures Value(BigEndian(n, w)) == n
  {
    if w > 0 {
      BigEndianRoundTrip(n / 256, w - 1);
      ValueNext(BigEndian(n / 256, w - 1), n % 256);
    }
  }

  /** Byte `i` of `w` has the weight of the bytes after it: the most significant comes first. */
  lemma {:induction false} ByteAt(n: nat, w: nat, i: nat)
    requires i < w
    ensures BigEndian(n, w)[i] == n / Span(w - 1 - i) % 256
  {
    if i < w - 1 {
      ByteAt(n / 256, w - 1, i);
      DivideTwice(n, Span(w - 2 - i));
    }
  }

  lemma DivideTwice(n: nat, m: nat)
    requires 0 < m
    ensures n / 256 / m == n / (256 * m)
  {
    var q, r := n / 256 / m, n / 256 % m;
    assert n / 256 == q * m + r;
    var x := 256 * r + n % 256;
    assert n == q * (256 * m) + x by { assert 256 * (q * m) == q * (256 * m); }
    QuotientIs(n, 256 * m, q, x);
  }

  lemma QuotientIs(n: nat, m: nat, q: nat, r: nat)
    requires r < m && n == q * m + r
    ensures n / m == q
  {
    Remainder(n, m, q, r);
    var d := n / m - q;
    assert n == n / m * m + n % m;
    assert (n / m - q) * m == 0;
  }

  /** The first byte is the number divided by the span of the others. */
  lemma {:induction false} FirstByte(n: nat, w: nat, top: nat)
    requires 0 < w && n < top * Span(w - 1) && top <= 256
    ensures BigEndian(n, w)[0] < top
  {
    if w > 1 {
      assert n / 256 < top * Span(w - 2) by { assert n < 256 * (top * Span(w - 2)); }
      FirstByte(n / 256, w - 1, top);
    } else {
      assert BigEndian(n, 1) == [n % 256];
    }
  }

  // ----- variable-length integers -----

  /** The length in which a number is written. */
  function PutLen(n: nat): nat {
    if n < 64 then 1 else if n < 16384 then 2 else if n < 1073741824 then 4 else 8
  }

  function TagOf(len: nat): nat { if len == 1 then 0 else if len == 2 then 1 else if len == 4 then 2 else 3 }

  /** The length that a first byte announces. */
  function GetLen(b: byte): (r: nat)
    ensures 1 <= r <= 8
  {
    if b / 64 == 0 then 1 else if b / 64 == 1 then 2 else if b / 64 == 2 then 4 else 8
  }

  /** The two highest bits of the first byte are the base-2 logarithm of the length, for reading and for writing. */
  lemma TagIsLog(b: byte, n: nat)
    ensures GetLen(b) == Pow2(b / 64)
    ensures PutLen(n) == Pow2(TagOf(PutLen(n))) && TagOf(PutLen(n)) < 4
  {
    assert Pow2(0) == 1 && Pow2(1) == 2 && Pow2(2) == 4 && Pow2(3) == 8;
  }

  /** A number is written in the shortest of the four lengths that has room for it besides the tag. */
  lemma PutShortest(n: nat, w: nat)
    requires n <= MAX_VARINT && (w == 1 || w == 2 || w == 4 || w == 8)
    ensures PutLen(n) <= w <==> n < 64 * Span(w - 1)
  {
    Spans();
  }

  /** The number in its length, with the tag in the two highest bits. */
  function Put(n: nat): (r: seq<byte>)
    requires n <= MAX_VARINT
    ensures |r| == PutLen(n)
  {
    var s := BigEndian(n, PutLen(n));
    TaggedByte(n);
    s[0 := Or(TagOf(PutLen(n)) * 64, s[0])]
  }

  lemma TaggedByte(n: nat)
    requires n <= MAX_VARINT
    ensures BigEndian(n, PutLen(n))[0] < 64
    ensures Or(TagOf(PutLen(n)) * 64, BigEndian(n, PutLen(n))[0]) == TagOf(PutLen(n)) * 64 + BigEndian(n, PutLen(n))[0]
  {
    Spans();
    FirstByte(n, PutLen(n), 64);
    assert Pow2(6) == 64;
    OrLow(TagOf(PutLen(n)), 6, BigEndian(n, PutLen(n))[0]);
  }

  lemma Spans()
    ensures Span(0) == 1 && Span(1) == 0x100 && Span(3) == 0x100_0000 && Span(7) == 0x100_0000_0000_0000
    ensures Span(2) == 0x1_0000 && Span(4) == 0x1_0000_0000 && Span(8) == 0x1_0000_0000_0000_0000
  {
    assert Span(5) == 256 * Span(4) && Span(6) == 256 * Span(5);
  }

  function Get(s: seq<byte>): nat
    requires s != [] && GetLen(s[0]) <= |s|
  {
    AndMask(s[0], 6);
    assert Pow2(6) == 64;
    Value(s[..GetLen(s[0])][0 := And(s[0], 63)])
  }

  /** Reading gives back what was written, whatever follows it, and the length functions agree. */
  lemma PutGet(n: nat, tail: seq<byte>)
    requires n <= MAX_VARINT
    ensures var s := Put(n) + tail; GetLen(s[0]) == |Put(n)| && Get(s) == n
  {
    var w := PutLen(n);
    var be, s := BigEndian(n, w), Put(n) + tail;
    TaggedByte(n);
    Untag(TagOf(w), be[0]);
    assert s[0] == TagOf(w) * 64 + be[0];
    assert s[..w] == Put(n) && Put(n)[0 := be[0]] == be;
    FitsLength(n);
    BigEndianRoundTrip(n, w);
  }

  /** The bytes of a number are those of the big-endian number, with the tag added to the first. */
  lemma PutIs(n: nat, i: nat)
    requires n <= MAX_VARINT && i < PutLen(n)
    ensures Put(n)[i] == n / Span(PutLen(n) - 1 - i) % 256 + (if i == 0 then 64 * TagOf(PutLen(n)) else 0)
  {
    TaggedByte(n);
    ByteAt(n, PutLen(n), i);
  }

  lemma FitsLength(n: nat)
    requires n <= MAX_VARINT
    ensures n < Span(PutLen(n))
  {
    Spans();
  }

  lemma Untag(tag: nat, b: nat)
    requires tag < 4 && b < 64
    ensures (tag * 64 + b) / 64 == tag && And(tag * 64 + b, 63) == b
  {
    AndMask(tag * 64 + b, 6);
    assert Pow2(6) == 64;
    Remainder(tag * 64 + b, 64, tag, b);
  }

  lemma GetBound(s: seq<byte>)
    requires s != [] && GetLen(s[0]) <= |s|
    ensures Get(s) <= MAX_VARINT
  {
    var w := GetLen(s[0]);
    AndMask(s[0], 6);
    assert Pow2(6) == 64;
    var t := s[..w][0 := And(s[0], 63)];
    FirstBound(t);
    Spans();
  }

  lemma {:induction false} FirstBound(s: seq<byte>)
    requires s != [] && s[0] < 64
    ensures Value(s) < 64 * Span(|s| - 1)
  {
    if |s| > 1 {
      FirstBound(s[..|s| - 1]);
    } else {
      assert s[..0] == [];
    }
  }
}
