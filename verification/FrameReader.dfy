/**
 The frame decoders: a first pass checks that all fields are there, and how long the frame is,
 a second one reads them.
 */
module FrameReader {
  import opened Basics
  import opened Varint
  import opened Fields
  import opened AckFrames
  import opened Frames

  /** The least number of bytes a field takes. */
  function MinLen(s: Shape): nat {
    match s
    case IntS => 1
    case WordS(w) => w
    case BlobS => 1
    case ShortBlobS => 1
    case RawS(len) => len
  }

  function MinAll(shapes: seq<Shape>): nat {
    if shapes == [] then 0 else MinLen(shapes[0]) + MinAll(shapes[1..])
  }

  // ----- where fields end -----

  ghost function Within(payload: seq<byte>, end: nat): Option<nat> { if end <= |payload| then Some(end) else None }

  ghost function IntEnd(payload: seq<byte>, p: nat): Option<nat> {
    if |payload| <= p then None else Within(payload, p + GetLen(payload[p]))
  }

  /** Where the field at `p` ends, if it ends within the payload. */
  ghost function FieldEnd(payload: seq<byte>, p: nat, shape: Shape): Option<nat>
    requires p <= |payload|
  {
    match shape
    case IntS => IntEnd(payload, p)
    case WordS(w) => Within(payload, p + w)
    case BlobS => (match IntEnd(payload, p) case None => None case Some(q) => Within(payload, q + Get(payload[p..])))
    case ShortBlobS => if |payload| <= p then None else Within(payload, p + 1 + payload[p])
    case RawS(len) => Within(payload, p + len)
  }

  ghost function FieldsEnd(payload: seq<byte>, p: nat, shapes: seq<Shape>): Option<nat>
    requires p <= |payload|
    decreases |shapes|
  {
    if shapes == [] then Some(p) else
    match FieldEnd(payload, p, shapes[0])
    case None => None
    case Some(q) => FieldsEnd(payload, q, shapes[1..])
  }

  lemma FieldEndLeast(payload: seq<byte>, p: nat, shape: Shape)
    requires p <= |payload| && FieldEnd(payload, p, shape).Some?
    ensures p + MinLen(shape) <= FieldEnd(payload, p, shape).value <= |payload|
  {
  }

  lemma {:induction false} FieldsEndLeast(payload: seq<byte>, p: nat, shapes: seq<Shape>)
    requires p <= |payload| && FieldsEnd(payload, p, shapes).Some?
    ensures p + MinAll(shapes) <= FieldsEnd(payload, p, shapes).value <= |payload|
    decreases |shapes|
  {
    if shapes != [] {
      FieldEndLeast(payload, p, shapes[0]);
      FieldsEndLeast(payload, FieldEnd(payload, p, shapes[0]).value, shapes[1..]);
    }
  }

  lemma IntAt(payload: seq<byte>, p: nat)
    requires p < |payload|
    ensures var n := GetLen(payload[p]);
            && payload[p..][0] == payload[p]
            && (if p + n <= |payload| then ReadInt(payload[p..]) == Some((Get(payload[p..]), payload[p + n..]))
                else ReadInt(payload[p..]).None?)
  {
  }

  lemma TakeAt(payload: seq<byte>, p: nat, n: nat)
    requires p <= |payload|
    ensures if p + n <= |payload| then Take(payload[p..], n) == Some((payload[p..p + n], payload[p + n..]))
            else Take(payload[p..], n).None?
  {
    if p + n <= |payload| {
      assert payload[p..][..n] == payload[p..p + n] && payload[p..][n..] == payload[p + n..];
    }
  }

  lemma ShortAt(payload: seq<byte>, p: nat)
    requires p < |payload|
    ensures var n := payload[p];
            if p + 1 + n <= |payload| then
              Parse(payload[p..], ShortBlobS) == Some((ShortBlob(payload[p + 1..p + 1 + n]), payload[p + 1 + n..]))
            else Parse(payload[p..], ShortBlobS).None?
  {
    assert payload[p..][1..] == payload[p + 1..];
    TakeAt(payload, p + 1, payload[p]);
  }

  /** A reading of the bytes from some place on ends at `end`. */
  ghost predicate EndsAt<T>(payload: seq<byte>, r: Option<(T, seq<byte>)>, end: Option<nat>) {
    (r.Some? <==> end.Some?) && (r.Some? ==> end.value <= |payload| && r.value.1 == payload[end.value..])
  }

  lemma FieldEndIs(payload: seq<byte>, p: nat, shape: Shape)
    requires p <= |payload|
    ensures EndsAt(payload, Parse(payload[p..], shape), FieldEnd(payload, p, shape))
  {
    match shape
    case IntS => if p < |payload| { IntAt(payload, p); }
    case WordS(w) => TakeAt(payload, p, w);
    case BlobS => BlobEndIs(payload, p);
    case ShortBlobS => if p < |payload| { ShortAt(payload, p); }
    case RawS(len) => TakeAt(payload, p, len);
  }

  lemma BlobEndIs(payload: seq<byte>, p: nat)
    requires p <= |payload|
    ensures EndsAt(payload, Parse(payload[p..], BlobS), FieldEnd(payload, p, BlobS))
  {
    if p < |payload| {
      IntAt(payload, p);
      var q := p + GetLen(payload[p]);
      if q <= |payload| { TakeAt(payload, q, Get(payload[p..])); }
    }
  }

  lemma {:induction false} FieldsEndIs(payload: seq<byte>, p: nat, shapes: seq<Shape>)
    requires p <= |payload|
    ensures EndsAt(payload, ParseAll(payload[p..], shapes), FieldsEnd(payload, p, shapes))
    decreases |shapes|
  {
    if shapes != [] {
      var f, q := Parse(payload[p..], shapes[0]), FieldEnd(payload, p, shapes[0]);
      FieldEndIs(payload, p, shapes[0]);
      if f.Some? { FieldsEndIs(payload, q.value, shapes[1..]); }
    }
  }

  // ----- the first pass -----

  /** The end is known, and at least `more` bytes follow it. */
  ghost predicate Fitting(payload: seq<byte>, end: Option<nat>, more: nat) { end.Some? && end.value + more <= |payload| }

  /** The first pass over an integer: `len` counts it with the least length, and `more` bytes after it. */
  method MeasureInt(payload: seq<byte>, p: nat, len: nat, ghost more: nat) returns (ok: bool, p': nat, len': nat)
    requires p + 1 + more == len <= |payload|
    ensures ok <==> Fitting(payload, IntEnd(payload, p), more)
    ensures ok ==> Some(p') == IntEnd(payload, p) && p' + more == len' <= |payload|
  {
    p', len' := p + GetLen(payload[p]), len + GetLen(payload[p]) - 1;
    ok := len' <= |payload|;
  }

  /** The first pass over data after its length. */
  method MeasureBlob(payload: seq<byte>, p: nat, len: nat, ghost more: nat) returns (ok: bool, p': nat, len': nat)
    requires p + 1 + more == len <= |payload|
    ensures ok <==> Fitting(payload, FieldEnd(payload, p, BlobS), more)
    ensures ok ==> Some(p') == FieldEnd(payload, p, BlobS) && p' + more == len' <= |payload|
  {
    ok, p', len' := MeasureInt(payload, p, len, more);
    if ok {
      var size := Get(payload[p..]);
      p', len' := p' + size, len' + size;
      ok := len' <= |payload|;
    }
  }

  /** The first pass over one field: `len` counts the field with the least length, and `more` bytes after it. */
  method MeasureField(payload: seq<byte>, p: nat, len: nat, shape: Shape, ghost more: nat)
    returns (ok: bool, p': nat, len': nat)
    requires p + MinLen(shape) + more == len <= |payload|
    ensures ok <==> Fitting(payload, FieldEnd(payload, p, shape), more)
    ensures ok ==> Some(p') == FieldEnd(payload, p, shape) && p' + more == len' <= |payload|
  {
    if shape.BlobS? {
      ok, p', len' := MeasureBlob(payload, p, len, more);
    } else if shape.IntS? {
      ok, p', len' := MeasureInt(payload, p, len, more);
    } else if shape.ShortBlobS? {
      p', len' := p + 1 + payload[p], len + payload[p];
      ok := len' <= |payload|;
    } else {
      ok, p', len' := true, p + MinLen(shape), len;
    }
  }

  lemma {:induction false} MinNext(shapes: seq<Shape>, i: nat)
    requires i < |shapes|
    ensures MinAll(shapes[..i + 1]) == MinAll(shapes[..i]) + MinLen(shapes[i])
  {
    if i > 0 {
      MinNext(shapes[1..], i - 1);
      assert shapes[..i + 1][1..] == shapes[1..][..i] && shapes[..i][1..] == shapes[1..][..i - 1];
    } else {
      assert shapes[..1] == [shapes[0]];
    }
  }

  /** The length of a frame with the least fields. */
  method Least(start: nat, shapes: seq<Shape>) returns (len: nat)
    ensures len == start + MinAll(shapes)
  {
    len := start;
    for i := 0 to |shapes|
      invariant len == start + MinAll(shapes[..i])
    {
      MinNext(shapes, i);
      len := len + MinLen(shapes[i]);
    }
    assert shapes[..|shapes|] == shapes;
  }

  /** If the next field leaves too little for the others, the fields do not fit. */
  lemma FittingNext(payload: seq<byte>, p: nat, shapes: seq<Shape>, slack: nat)
    requires p <= |payload| && shapes != []
    ensures var f := FieldEnd(payload, p, shapes[0]);
            && (f.Some? ==> FieldsEnd(payload, p, shapes) == FieldsEnd(payload, f.value, shapes[1..]))
            && (Fitting(payload, FieldsEnd(payload, p, shapes), slack) ==> Fitting(payload, f, MinAll(shapes[1..]) + slack))
  {
    if Fitting(payload, FieldsEnd(payload, p, shapes), slack) {
      FieldsEndLeast(payload, FieldEnd(payload, p, shapes[0]).value, shapes[1..]);
    }
  }

  /** The first pass over a sequence of fields after which at least `slack` bytes must follow. */
  method MeasureFields(payload: seq<byte>, start: nat, shapes: seq<Shape>, slack: nat) returns (ok: bool, len: nat)
    requires start <= |payload|
    ensures ok <==> Fitting(payload, FieldsEnd(payload, start, shapes), slack)
    ensures ok ==> len == FieldsEnd(payload, start, shapes).value + slack
  {
    ghost var goal := FieldsEnd(payload, start, shapes);
    len := Least(start + slack, shapes);
    if |payload| < len {
      if goal.Some? { FieldsEndLeast(payload, start, shapes); }
      return false, len;
    }
    var p: nat := start;
    assert shapes[0..] == shapes;
    for i := 0 to |shapes|
      invariant p <= |payload| && p + MinAll(shapes[i..]) + slack == len <= |payload|
      invariant goal == FieldsEnd(payload, p, shapes[i..])
    {
      assert shapes[i..][1..] == shapes[i + 1..];
      FittingNext(payload, p, shapes[i..], slack);
      ok, p, len := MeasureField(payload, p, len, shapes[i], MinAll(shapes[i + 1..]) + slack);
      if !ok {
        return;
      }
    }
    ok := true;
  }

  /** The first pass over a frame of fixed layout. */
  method Measure(payload: seq<byte>, start: nat, shapes: seq<Shape>) returns (ok: bool, len: nat)
    requires start <= |payload|
    ensures EndsAt(payload, ParseAll(payload[start..], shapes), if ok then Some(len) else None)
  {
    FieldsEndIs(payload, start, shapes);
    if FieldsEnd(payload, start, shapes).Some? { FieldsEndLeast(payload, start, shapes); }
    ok, len := MeasureFields(payload, start, shapes, 0);
  }

  // ----- the second pass -----

  method GetInt(payload: seq<byte>, p: nat) returns (n: nat, p': nat)
    requires p <= |payload| && IntEnd(payload, p).Some?
    ensures n == Get(payload[p..]) && IntEnd(payload, p) == Some(p')
  {
    n, p' := Get(payload[p..]), p + GetLen(payload[p]);
  }

  method ReadVarint(payload: seq<byte>, p: nat) returns (n: nat, p': nat)
    requires p <= |payload| && ReadInt(payload[p..]).Some?
    ensures p < p' <= |payload| && ReadInt(payload[p..]) == Some((n, payload[p'..]))
  {
    IntAt(payload, p);
    n, p' := GetInt(payload, p);
  }

  method ReadField(payload: seq<byte>, p: nat, shape: Shape) returns (f: Field, p': nat)
    requires p <= |payload| && Parse(payload[p..], shape).Some?
    ensures p <= p' <= |payload| && Parse(payload[p..], shape) == Some((f, payload[p'..]))
  {
    var n;
    match shape {
      case IntS =>
        n, p' := ReadVarint(payload, p);
        f := Int(n);
      case BlobS =>
        n, p' := ReadVarint(payload, p);
        TakeAt(payload, p', n);
        assert Parse(payload[p..], shape) == Some((Blob(payload[p'..p' + n]), payload[p' + n..]));
        f, p' := Blob(payload[p'..p' + n]), p' + n;
      case ShortBlobS =>
        ShortAt(payload, p);
        n := payload[p];
        f, p' := ShortBlob(payload[p + 1..p + 1 + n]), p + 1 + n;
      case WordS(w) =>
        TakeAt(payload, p, w);
        f, p' := Word(Value(payload[p..p + w]), w), p + w;
      case RawS(len) =>
        TakeAt(payload, p, len);
        f, p' := Raw(payload[p..p + len]), p + len;
    }
  }

  /** After `fs`, what is still to be read completes `goal`. */
  ghost predicate Completes(goal: (seq<Field>, seq<byte>), fs: seq<Field>, r: Option<(seq<Field>, seq<byte>)>) {
    r.Some? && goal == (fs + r.value.0, r.value.1)
  }

  lemma ReadNext(goal: (seq<Field>, seq<byte>), fs: seq<Field>, s: seq<byte>, shapes: seq<Shape>)
    requires shapes != [] && Completes(goal, fs, ParseAll(s, shapes))
    ensures var f := Parse(s, shapes[0]); f.Some? && Completes(goal, fs + [f.value.0], ParseAll(f.value.1, shapes[1..]))
  {
    var f := Parse(s, shapes[0]).value;
    var more := ParseAll(f.1, shapes[1..]).value.0;
    assert fs + ([f.0] + more) == fs + [f.0] + more;
  }

  method ReadFields(payload: seq<byte>, start: nat, shapes: seq<Shape>) returns (fs: seq<Field>, p: nat)
    requires start <= |payload| && ParseAll(payload[start..], shapes).Some?
    ensures start <= p <= |payload| && ParseAll(payload[start..], shapes) == Some((fs, payload[p..]))
  {
    ghost var goal := ParseAll(payload[start..], shapes).value;
    fs, p := [], start;
    assert shapes[0..] == shapes && [] + goal.0 == goal.0;
    for i := 0 to |shapes|
      invariant start <= p <= |payload| && Completes(goal, fs, ParseAll(payload[p..], shapes[i..]))
    {
      assert shapes[i..][1..] == shapes[i + 1..];
      ReadNext(goal, fs, payload[p..], shapes[i..]);
      var f;
      f, p := ReadField(payload, p, shapes[i]);
      fs := fs + [f];
    }
    assert fs + [] == fs;
  }

  // ----- frames -----

  /** A decoder's result, the frame and how many bytes it takes, is the one expected. */
  ghost predicate Decoded(payload: seq<byte>, want: Option<(Frame, seq<byte>)>, got: Option<(Frame, nat)>) {
    match got
    case None => want.None?
    case Some((f, n)) => 1 <= n <= |payload| && want == Some((f, payload[n..]))
  }

  method DecodeFixedFrame(payload: seq<byte>) returns (r: Option<(Frame, nat)>)
    requires payload != []
    ensures Decoded(payload, DecodeFixed(payload[0], payload[1..]), r)
  {
    var t := payload[0];
    if Layout(t).None? {
      return None;
    }
    var shapes := Layout(t).value;
    var ok, len := Measure(payload, 1, shapes);
    if !ok {
      return None;
    }
    var fs, p := ReadFields(payload, 1, shapes);
    assert p == len;
    r := Some((FromFields(t, fs), len));
  }

  /** A STREAM frame from its fields and what follows them. */
  lemma StreamOf(t: byte, s: seq<byte>, fs: seq<Field>, rest: seq<byte>)
    requires ParseAll(s, StreamLayout(t)) == Some((fs, rest))
    ensures 0 < |fs| && fs[0].Int? && (Bit(t, OFF_BIT) ==> 1 < |fs| && fs[1].Int?)
    ensures Bit(t, LEN_BIT) ==> fs[|fs| - 1].Blob?
    ensures var offset := if Bit(t, OFF_BIT) then fs[1].n else 0;
            DecodeStream(t, s) == Some(
              if Bit(t, LEN_BIT) then (Stream(Bit(t, FIN_BIT), fs[0].n, offset, fs[|fs| - 1].data), rest)
              else (Stream(Bit(t, FIN_BIT), fs[0].n, offset, rest), []))
  {
  }

  method DecodeStreamFrame(payload: seq<byte>) returns (r: Option<(Frame, nat)>)
    requires payload != []
    ensures Decoded(payload, DecodeStream(payload[0], payload[1..]), r)
  {
    var t := payload[0];
    var shapes := StreamLayout(t);
    var ok, len := Measure(payload, 1, shapes);
    if !ok {
      return None;
    }
    var fs, p := ReadFields(payload, 1, shapes);
    StreamOf(t, payload[1..], fs, payload[p..]);
    var offset := if Bit(t, OFF_BIT) then fs[1].n else 0;
    if Bit(t, LEN_BIT) {
      assert p == len;
      r := Some((Stream(Bit(t, FIN_BIT), fs[0].n, offset, fs[|fs| - 1].data), len));
    } else {
      assert payload[|payload|..] == [];
      r := Some((Stream(Bit(t, FIN_BIT), fs[0].n, offset, payload[p..]), |payload|));
    }
  }

  lemma {:induction false} ZerosFrom(s: seq<byte>, k: nat)
    requires k <= |s| && forall i :: 0 <= i < k ==> s[i] == 0
    requires k < |s| ==> s[k] != 0
    ensures Zeros(s) == k
  {
    if k > 0 { ZerosFrom(s[1..], k - 1); }
  }

  method DecodePaddingFrame(payload: seq<byte>) returns (len: nat)
    requires payload != []
    ensures 1 <= len <= |payload| && len == 1 + Zeros(payload[1..])
  {
    len := 1;
    while len < |payload| && payload[len] == 0
      invariant 1 <= len <= |payload|
      invariant forall i :: 1 <= i < len ==> payload[i] == 0
    {
      len := len + 1;
    }
    ZerosFrom(payload[1..], len - 1);
  }

  // ----- ACK frames -----

  ghost function Prepend(f: Field, r: Option<(seq<Field>, seq<byte>)>): Option<(seq<Field>, seq<byte>)> {
    if r.None? then None else Some(([f] + r.value.0, r.value.1))
  }

  /** Reads more fields after those read in `r`. */
  ghost function Then(r: Option<(seq<Field>, seq<byte>)>, shapes: seq<Shape>): Option<(seq<Field>, seq<byte>)> {
    if r.None? then None else
    var more := ParseAll(r.value.1, shapes);
    if more.None? then None else Some((r.value.0 + more.value.0, more.value.1))
  }

  lemma PrependThen(f: Field, r: Option<(seq<Field>, seq<byte>)>, shapes: seq<Shape>)
    ensures Prepend(f, Then(r, shapes)) == Then(Prepend(f, r), shapes)
  {
    if Then(r, shapes).Some? {
      var gs := ParseAll(r.value.1, shapes).value.0;
      assert [f] + (r.value.0 + gs) == [f] + r.value.0 + gs;
    }
  }

  lemma ParseFirst(s: seq<byte>, shapes: seq<Shape>)
    requires shapes != []
    ensures ParseAll(s, shapes) ==
            if Parse(s, shapes[0]).None? then None
            else Prepend(Parse(s, shapes[0]).value.0, ParseAll(Parse(s, shapes[0]).value.1, shapes[1..]))
  {
  }

  lemma {:induction false} ParseAppend(s: seq<byte>, a: seq<Shape>, b: seq<Shape>)
    ensures ParseAll(s, a + b) == Then(ParseAll(s, a), b)
    decreases |a|
  {
    if a == [] {
      assert a + b == b;
      if ParseAll(s, b).Some? { assert [] + ParseAll(s, b).value.0 == ParseAll(s, b).value.0; }
    } else {
      assert (a + b)[0] == a[0] && (a + b)[1..] == a[1..] + b;
      ParseFirst(s, a);
      ParseFirst(s, a + b);
      if Parse(s, a[0]).Some? {
        var (f, s') := Parse(s, a[0]).value;
        ParseAppend(s', a[1..], b);
        PrependThen(f, ParseAll(s', a[1..]), b);
      }
    }
  }

  /** An ACK frame from its two leading integers, the next two, and the others. */
  ghost function AckOf(hs: seq<Field>, cs: seq<Field>, bs: seq<Field>): Frame
    requires |hs| == |cs| == 2 && AllInts(hs) && AllInts(cs) && AllInts(bs) && |bs| == 2 * cs[0].n
  {
    AckFrame(Ack(hs[0].n, hs[1].n, cs[1].n, Pairs(bs, KeptCount(cs[0].n))))
  }

  /** The number of blocks, the first one, and the others. */
  ghost function ReadBlocks(s: seq<byte>, two: seq<Shape>): (r: Option<(seq<Field>, seq<Field>, seq<byte>)>)
    requires two == Ints(2)
    ensures r.Some? ==> |r.value.0| == 2 && AllInts(r.value.0) && AllInts(r.value.1) && |r.value.1| == 2 * r.value.0[0].n
  {
    var c := ParseAll(s, two);
    if c.None? then None else
    var b := ParseAll(c.value.1, Ints(2 * c.value.0[0].n));
    if b.None? then None else Some((c.value.0, b.value.0, b.value.1))
  }

  /** What is read of an ACK frame in these parts. */
  ghost function AckFrom(s: seq<byte>, two: seq<Shape>): Option<(Frame, seq<byte>)>
    requires two == Ints(2)
  {
    var h := ParseAll(s, two);
    if h.None? then None else
    var b := ReadBlocks(h.value.1, two);
    if b.None? then None else Some((AckOf(h.value.0, b.value.0, b.value.1), b.value.2))
  }

  lemma AckParts(s: seq<byte>, two: seq<Shape>)
    requires two == Ints(2)
    ensures DecodeAck(s) == AckFrom(s, two)
  {
    assert [IntS, IntS, IntS, IntS] == two + two;
    ParseAppend(s, two, two);
  }

  // ----- the first pass over an ACK frame -----

  lemma IntsTail(k: nat)
    requires k > 0
    ensures Ints(k)[0] == IntS && Ints(k)[1..] == Ints(k - 1)
  {
  }

  lemma {:induction false} IntsLeast(k: nat)
    ensures MinAll(Ints(k)) == k
  {
    if k > 0 {
      IntsTail(k);
      IntsLeast(k - 1);
    }
  }

  /** If the next integer leaves too little for the others, they do not fit. */
  lemma IntsEndNext(payload: seq<byte>, p: nat, k: nat)
    requires p <= |payload| && k > 0
    ensures var q := IntEnd(payload, p);
            && FieldsEnd(payload, p, Ints(k)) == (if q.None? then None else FieldsEnd(payload, q.value, Ints(k - 1)))
            && (FieldsEnd(payload, p, Ints(k)).Some? ==> Fitting(payload, q, k - 1))
  {
    IntsTail(k);
    if FieldsEnd(payload, p, Ints(k)).Some? {
      FieldsEndLeast(payload, IntEnd(payload, p).value, Ints(k - 1));
      IntsLeast(k - 1);
    }
  }

  /** The first pass over `k` integers: `len` counts the ones ahead with the least length. */
  method MeasureInts(payload: seq<byte>, start: nat, k: nat) returns (ok: bool, len: nat)
    requires start + k <= |payload|
    ensures FieldsEnd(payload, start, Ints(k)) == if ok then Some(len) else None
  {
    var p: nat := start;
    len := start + k;
    for i := 0 to k
      invariant p + (k - i) == len <= |payload| && FieldsEnd(payload, start, Ints(k)) == FieldsEnd(payload, p, Ints(k - i))
    {
      IntsEndNext(payload, p, k - i);
      ok, p, len := MeasureInt(payload, p, len, k - i - 1);
      if !ok {
        return;
      }
    }
    ok := true;
  }

  /** Where the blocks of an ACK frame end: their number, the first of them, and two integers for each other one. */
  ghost function BlocksEnd(payload: seq<byte>, p: nat): Option<nat>
    requires p <= |payload|
  {
    match IntEnd(payload, p)
    case None => None
    case Some(q) =>
      match IntEnd(payload, q)
      case None => None
      case Some(q') => FieldsEnd(payload, q', Ints(2 * Get(payload[p..])))
  }

  lemma BlocksEndLeast(payload: seq<byte>, p: nat)
    requires p <= |payload| && BlocksEnd(payload, p).Some?
    ensures IntEnd(payload, IntEnd(payload, p).value).value + 2 * Get(payload[p..]) <= BlocksEnd(payload, p).value <= |payload|
  {
    FieldsEndLeast(payload, IntEnd(payload, IntEnd(payload, p).value).value, Ints(2 * Get(payload[p..])));
    IntsLeast(2 * Get(payload[p..]));
  }

  /** The first pass over the blocks of an ACK frame. */
  method MeasureBlocks(payload: seq<byte>, start: nat) returns (ok: bool, len: nat)
    requires start + 2 <= |payload|
    ensures BlocksEnd(payload, start) == if ok then Some(len) else None
  {
    if BlocksEnd(payload, start).Some? { BlocksEndLeast(payload, start); }
    var p: nat;
    ok, p, len := MeasureInt(payload, start, start + 2, 1);
    if !ok {
      return;
    }
    var count := Get(payload[start..]);
    len := len + 2 * count;
    if |payload| < len {
      return false, len;
    }
    ok, p, len := MeasureInt(payload, p, len, 2 * count);
    if ok {
      ok, len := MeasureInts(payload, p, 2 * count);
    }
  }

  /** The first of two integers is the one at `p`. */
  lemma TwoEnd(payload: seq<byte>, p: nat, two: seq<Shape>)
    requires p <= |payload| && two == Ints(2)
    ensures FieldsEnd(payload, p, two) == (match IntEnd(payload, p) case None => None case Some(q) => IntEnd(payload, q))
    ensures ParseAll(payload[p..], two).Some? ==> ParseAll(payload[p..], two).value.0[0].n == Get(payload[p..])
  {
    var q := IntEnd(payload, p);
    IntsTail(2);
    if q.Some? {
      IntsTail(1);
      assert Ints(1)[1..] == [];
    }
    ParseFirst(payload[p..], two);
  }

  lemma BlocksEndIs(payload: seq<byte>, p: nat, two: seq<Shape>)
    requires p <= |payload| && two == Ints(2)
    ensures var b, end := ReadBlocks(payload[p..], two), BlocksEnd(payload, p);
            (b.Some? <==> end.Some?) && (b.Some? ==> end.value <= |payload| && b.value.2 == payload[end.value..])
  {
    TwoEnd(payload, p, two);
    FieldsEndIs(payload, p, two);
    var q := FieldsEnd(payload, p, two);
    if q.Some? { FieldsEndIs(payload, q.value, Ints(2 * Get(payload[p..]))); }
  }

  /** Where an ACK frame ends. */
  ghost function AckEnd(payload: seq<byte>, two: seq<Shape>): Option<nat>
    requires payload != []
  {
    match FieldsEnd(payload, 1, two)
    case None => None
    case Some(q) => if q <= |payload| then BlocksEnd(payload, q) else None
  }

  lemma AckEndIs(payload: seq<byte>, two: seq<Shape>)
    requires payload != [] && two == Ints(2)
    ensures EndsAt(payload, DecodeAck(payload[1..]), AckEnd(payload, two))
  {
    AckParts(payload[1..], two);
    FieldsEndIs(payload, 1, two);
    var q := FieldsEnd(payload, 1, two);
    if q.Some? { BlocksEndIs(payload, q.value, two); }
  }

  /** The first pass over an ACK frame. */
  method MeasureAck(payload: seq<byte>, two: seq<Shape>) returns (ok: bool, len: nat)
    requires payload != [] && two == Ints(2)
    ensures EndsAt(payload, DecodeAck(payload[1..]), if ok then Some(len) else None)
  {
    AckEndIs(payload, two);
    ok, len := MeasureHeadAndBlocks(payload, two);
  }

  method MeasureHeadAndBlocks(payload: seq<byte>, two: seq<Shape>) returns (ok: bool, len: nat)
    requires payload != []
    ensures AckEnd(payload, two) == if ok then Some(len) else None
  {
    ok, len := MeasureFields(payload, 1, two, 2);
    if FieldsEnd(payload, 1, two).Some? { FieldsEndLeast(payload, 1, two); }
    if AckEnd(payload, two).Some? { BlocksEndLeast(payload, FieldsEnd(payload, 1, two).value); }
    if ok {
      ok, len := MeasureBlocks(payload, len - 2);
    }
  }

  // ----- the second pass over an ACK frame -----

  /** The last `left` blocks are at `p`; their gaps and lengths are `fs`. */
  ghost predicate AtBlocks(payload: seq<byte>, p: nat, left: nat, fs: seq<Field>, rest: seq<byte>) {
    p <= |payload| && AllInts(fs) && |fs| == 2 * left && ParseAll(payload[p..], Ints(2 * left)) == Some((fs, rest))
  }

  /** The gap and the length of a block. */
  method ReadPair(payload: seq<byte>, p: nat, two: seq<Shape>, ghost left: nat, ghost fs: seq<Field>, ghost rest: seq<byte>)
    returns (gap: nat, len: nat, p': nat, ghost fs': seq<Field>)
    requires left > 0 && two == Ints(2) && AtBlocks(payload, p, left, fs, rest)
    ensures p <= p' && AtBlocks(payload, p', left - 1, fs', rest) && fs == [Int(gap), Int(len)] + fs'
  {
    assert Ints(2 * left) == two + Ints(2 * left - 2);
    ParseAppend(payload[p..], two, Ints(2 * left - 2));
    var ns;
    ns, p' := ReadFields(payload, p, two);
    fs' := ParseAll(payload[p'..], Ints(2 * left - 2)).value.0;
    gap, len := ns[0].n, ns[1].n;
    assert ns == [Int(gap), Int(len)];
  }

  lemma PairsCons(gap: nat, len: nat, fs: seq<Field>, k: nat)
    requires AllInts(fs) && 2 * k <= |fs|
    ensures Pairs([Int(gap), Int(len)] + fs, k + 1) == [Blk(gap, len)] + Pairs(fs, k)
  {
    var all := [Int(gap), Int(len)] + fs;
    forall i | 0 <= i < k + 1 ensures Pairs(all, k + 1)[i] == ([Blk(gap, len)] + Pairs(fs, k))[i] {
      if i > 0 { assert all[2 * i] == fs[2 * (i - 1)] && all[2 * i + 1] == fs[2 * (i - 1) + 1]; }
    }
  }

  lemma PairsNext(gap: nat, len: nat, fs: seq<Field>, blks: seq<Blk>, k: nat)
    requires AllInts(fs) && 2 * k <= |fs|
    ensures blks + Pairs([Int(gap), Int(len)] + fs, k + 1) == blks + [Blk(gap, len)] + Pairs(fs, k)
  {
    PairsCons(gap, len, fs, k);
    assert blks + ([Blk(gap, len)] + Pairs(fs, k)) == blks + [Blk(gap, len)] + Pairs(fs, k);
  }

  /** Keeps the first `keep` blocks. */
  method KeepBlks(payload: seq<byte>, start: nat, two: seq<Shape>, keep: nat, ghost count: nat, ghost fs: seq<Field>, ghost rest: seq<byte>)
    returns (blks: seq<Blk>, p: nat, ghost fs': seq<Field>)
    requires keep <= count && two == Ints(2) && AtBlocks(payload, start, count, fs, rest)
    ensures start <= p && AtBlocks(payload, p, count - keep, fs', rest) && blks == Pairs(fs, keep)
  {
    var k: nat := 0;
    ghost var want := Pairs(fs, keep);
    blks, p, fs' := [], start, fs;
    while k < keep
      invariant k <= keep && start <= p && AtBlocks(payload, p, count - k, fs', rest)
      invariant want == blks + Pairs(fs', keep - k)
    {
      var gap, len;
      gap, len, p, fs' := ReadPair(payload, p, two, count - k, fs', rest);
      PairsNext(gap, len, fs', blks, keep - k - 1);
      blks, k := blks + [Blk(gap, len)], k + 1;
    }
  }

  /** Skips the last `left` blocks. */
  method SkipBlks(payload: seq<byte>, start: nat, two: seq<Shape>, left: nat, ghost fs: seq<Field>, ghost rest: seq<byte>) returns (p: nat)
    requires two == Ints(2) && AtBlocks(payload, start, left, fs, rest)
    ensures start <= p <= |payload| && payload[p..] == rest
  {
    p := start;
    ghost var todo := fs;
    for i := 0 to left
      invariant start <= p && AtBlocks(payload, p, left - i, todo, rest)
    {
      var _, _, q, more := ReadPair(payload, p, two, left - i, todo, rest);
      p, todo := q, more;
    }
  }

  /** The second pass over the blocks: the first 255 are kept, the others skipped. */
  method ReadBlks(payload: seq<byte>, start: nat, two: seq<Shape>, count: nat) returns (blks: seq<Blk>, p: nat)
    requires start <= |payload| && two == Ints(2) && ParseAll(payload[start..], Ints(2 * count)).Some?
    ensures start <= p <= |payload|
    ensures var (fs, rest) := ParseAll(payload[start..], Ints(2 * count)).value; blks == Pairs(fs, KeptCount(count)) && payload[p..] == rest
  {
    ghost var (fs, rest) := ParseAll(payload[start..], Ints(2 * count)).value;
    ghost var todo;
    var keep := KeptCount(count);
    blks, p, todo := KeepBlks(payload, start, two, keep, count, fs, rest);
    p := SkipBlks(payload, p, two, count - keep, todo, rest);
  }

  /** The second pass over an ACK frame. */
  method ReadAck(payload: seq<byte>, two: seq<Shape>) returns (f: Frame, p: nat)
    requires payload != [] && two == Ints(2) && DecodeAck(payload[1..]).Some?
    ensures 1 <= p <= |payload| && DecodeAck(payload[1..]) == Some((f, payload[p..]))
  {
    AckParts(payload[1..], two);
    var hs, cs, blks;
    hs, p := ReadFields(payload, 1, two);
    cs, p := ReadFields(payload, p, two);
    blks, p := ReadBlks(payload, p, two, cs[0].n);
    f := AckFrame(Ack(hs[0].n, hs[1].n, cs[1].n, blks));
  }

  method DecodeAckFrame(payload: seq<byte>) returns (r: Option<(Frame, nat)>)
    requires payload != []
    ensures Decoded(payload, DecodeAck(payload[1..]), r)
  {
    var two := Ints(2);
    var ok, len := MeasureAck(payload, two);
    if !ok {
      return None;
    }
    var f, p := ReadAck(payload, two);
    assert p == len;
    r := Some((f, len));
  }

  /** The decoder reads the frame that `Frames.Decode` defines, or fails as it does. */
  method DecodeFrame(payload: seq<byte>) returns (r: Option<(Frame, nat)>)
    requires payload != []
    ensures Decoded(payload, Decode(payload), r)
  {
    var t := payload[0];
    if StreamType(t) {
      r := DecodeStreamFrame(payload);
    } else if AckType(t) {
      r := DecodeAckFrame(payload);
    } else if t == 0 {
      var len := DecodePaddingFrame(payload);
      assert payload[1..][len - 1..] == payload[len..];
      r := Some((Padding(len), len));
    } else {
      r := DecodeFixedFrame(payload);
    }
  }
}
