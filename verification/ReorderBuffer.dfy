/**
 The reorder buffer: a sorted list of gaps, and a sorted list of chunk-aligned
 buffers that hold the bytes received beyond the first gap.
 */
module ReorderBuffer {
  import opened Basics
  import opened Ranges

  // ----- chunk alignment -----

  /** `o` is a multiple of `chunk`. */
  ghost predicate Aligned(o: nat, chunk: nat)
    requires chunk > 0
  {
    o == 0 || (o >= chunk && Aligned(o - chunk, chunk))
  }

  lemma {:induction false} MultipleAligned(k: nat, chunk: nat)
    requires chunk > 0
    ensures k * chunk >= 0 && Aligned(k * chunk, chunk)
  {
    if k > 0 {
      MultipleAligned(k - 1, chunk);
      assert k * chunk == (k - 1) * chunk + chunk;
    }
  }

  function ChunkStart(offset: nat, chunk: nat): (r: nat)
    requires chunk > 0
    ensures Aligned(r, chunk) && r <= offset < r + chunk
  {
    MultipleAligned(offset / chunk, chunk);
    (offset / chunk) * chunk
  }

  /** Two different aligned offsets are at least one chunk apart. */
  lemma {:induction false} AlignedApart(a: nat, b: nat, chunk: nat)
    requires chunk > 0 && Aligned(a, chunk) && Aligned(b, chunk) && a < b
    ensures a + chunk <= b
  {
    if a > 0 {
      AlignedApart(a - chunk, b - chunk, chunk);
    }
  }

  // ----- the contents of the data list -----

  /** The stream offset and the contents of one chunk. */
  datatype Cell = Cell(offset: nat, bytes: seq<byte>)

  /** Chunk-aligned, sorted and apart. */
  ghost predicate ValidCells(cells: seq<Cell>, chunk: nat) {
    && chunk > 0
    && (forall i :: 0 <= i < |cells| ==> Aligned(cells[i].offset, chunk) && |cells[i].bytes| == chunk)
    && (forall i, j :: 0 <= i < j < |cells| ==> cells[i].offset + chunk <= cells[j].offset)
  }

  ghost predicate InCell(c: Cell, o: nat, b: byte) {
    c.offset <= o < c.offset + |c.bytes| && c.bytes[o - c.offset] == b
  }

  /** Some chunk holds `b` for stream offset `o`. */
  ghost predicate Holds(cells: seq<Cell>, o: nat, b: byte) {
    exists i :: 0 <= i < |cells| && InCell(cells[i], o, b)
  }

  /** Every stored byte is held by some chunk. */
  ghost predicate Keeps(cells: seq<Cell>, bytes: map<nat, byte>) {
    forall o {:trigger Holds(cells, o, bytes[o])} :: o in bytes ==> Holds(cells, o, bytes[o])
  }

  /** `base` lies before the end of every chunk. */
  ghost predicate Beyond(cells: seq<Cell>, chunk: nat, base: nat) {
    forall i :: 0 <= i < |cells| ==> base < cells[i].offset + chunk
  }

  ghost function Overwrite(c: Cell, o: nat, src: seq<byte>): (r: Cell)
    requires c.offset <= o && o + |src| <= c.offset + |c.bytes|
  {
    Cell(c.offset, c.bytes[..o - c.offset] + src + c.bytes[o - c.offset + |src|..])
  }

  /** Every stored byte is in exactly one chunk, however often it was received. */
  lemma OneChunk(cells: seq<Cell>, chunk: nat, bytes: map<nat, byte>, o: nat) returns (i: nat)
    requires ValidCells(cells, chunk) && Keeps(cells, bytes) && o in bytes
    ensures i < |cells| && InCell(cells[i], o, bytes[o])
    ensures forall j, b :: 0 <= j < |cells| && InCell(cells[j], o, b) ==> j == i && b == bytes[o]
  {
    assert Holds(cells, o, bytes[o]);
    i :| 0 <= i < |cells| && InCell(cells[i], o, bytes[o]);
  }

  function Insert<T>(s: seq<T>, i: nat, x: T): (r: seq<T>)
    requires i <= |s|
    ensures |r| == |s| + 1 && r[i] == x
    ensures forall j :: 0 <= j < i ==> r[j] == s[j]
    ensures forall j :: i < j < |r| ==> r[j] == s[j - 1]
  {
    s[..i] + [x] + s[i..]
  }

  lemma InsertValid(cells: seq<Cell>, chunk: nat, i: nat, c: Cell, base: nat)
    requires ValidCells(cells, chunk) && i <= |cells| && Aligned(c.offset, chunk) && |c.bytes| == chunk
    requires forall j :: 0 <= j < i ==> cells[j].offset < c.offset
    requires i < |cells| ==> c.offset < cells[i].offset
    requires Beyond(cells, chunk, base) && base < c.offset + chunk
    ensures ValidCells(Insert(cells, i, c), chunk) && Beyond(Insert(cells, i, c), chunk, base)
  {
    var r := Insert(cells, i, c);
    forall j | 0 <= j < i ensures r[j] == cells[j] && r[j].offset + chunk <= c.offset {
      AlignedApart(cells[j].offset, c.offset, chunk);
    }
    forall j | i < j < |r| ensures r[j] == cells[j - 1] && c.offset + chunk <= r[j].offset {
      AlignedApart(c.offset, cells[i].offset, chunk);
    }
    forall j, k | 0 <= j < k < |r| ensures r[j].offset + chunk <= r[k].offset {
      if j < i < k { assert cells[j].offset + chunk <= cells[k - 1].offset; }
    }
  }

  lemma InsertKeeps(cells: seq<Cell>, i: nat, c: Cell, bytes: map<nat, byte>)
    requires i <= |cells| && Keeps(cells, bytes)
    ensures Keeps(Insert(cells, i, c), bytes)
  {
    var r := Insert(cells, i, c);
    forall o | o in bytes ensures Holds(r, o, bytes[o]) {
      assert Holds(cells, o, bytes[o]);
      var j :| 0 <= j < |cells| && InCell(cells[j], o, bytes[o]);
      assert InCell(r[if j < i then j else j + 1], o, bytes[o]);
    }
  }

  predicate Within(o: nat, offset: nat, src: seq<byte>) { offset <= o < offset + |src| }

  /** The bytes of `src` by stream offset. */
  ghost function Placed(offset: nat, src: seq<byte>): map<nat, byte> {
    map o: nat | offset <= o < offset + |src| && Within(o, offset, src) :: src[o - offset]
  }

  /** What a chunk holds after `src` is copied into it. */
  lemma OverwriteCell(c: Cell, o: nat, src: seq<byte>, x: nat, b: byte)
    requires c.offset <= o && o + |src| <= c.offset + |c.bytes|
    ensures |Overwrite(c, o, src).bytes| == |c.bytes|
    ensures o <= x < o + |src| ==> (InCell(Overwrite(c, o, src), x, b) <==> src[x - o] == b)
    ensures !(o <= x < o + |src|) ==> (InCell(Overwrite(c, o, src), x, b) <==> InCell(c, x, b))
  {
  }

  /** Writing into a chunk adds the new bytes, and keeps all stored bytes outside their range. */
  lemma OverwriteKeeps(cells: seq<Cell>, i: nat, o: nat, src: seq<byte>, bytes: map<nat, byte>)
    requires i < |cells| && cells[i].offset <= o && o + |src| <= cells[i].offset + |cells[i].bytes|
    requires Keeps(cells, bytes) && bytes.Keys !! Placed(o, src).Keys
    ensures Keeps(cells[i := Overwrite(cells[i], o, src)], bytes + Placed(o, src))
  {
    var r := cells[i := Overwrite(cells[i], o, src)];
    var all := bytes + Placed(o, src);
    forall x | x in all ensures Holds(r, x, all[x]) {
      OverwriteCell(cells[i], o, src, x, all[x]);
      if x in Placed(o, src) {
        assert InCell(r[i], x, all[x]);
      } else {
        assert Holds(cells, x, bytes[x]);
        var j :| 0 <= j < |cells| && InCell(cells[j], x, bytes[x]);
        assert InCell(r[j], x, bytes[x]);
      }
    }
  }

  lemma OverwriteValid(cells: seq<Cell>, chunk: nat, i: nat, o: nat, src: seq<byte>, base: nat)
    requires ValidCells(cells, chunk) && Beyond(cells, chunk, base)
    requires i < |cells| && cells[i].offset <= o && o + |src| <= cells[i].offset + chunk
    ensures var r := cells[i := Overwrite(cells[i], o, src)]; ValidCells(r, chunk) && Beyond(r, chunk, base)
  {
    OverwriteCell(cells[i], o, src, o, 0);
  }

  lemma PlacedApart(kept: map<nat, byte>, offset: nat, src: seq<byte>, pos: nat, n: nat)
    requires pos + n <= |src| && kept.Keys !! Placed(offset, src).Keys
    ensures (kept + Placed(offset, src[..pos])).Keys !! Placed(offset + pos, src[pos..pos + n]).Keys
  {
    forall x | x in Placed(offset + pos, src[pos..pos + n]) ensures x !in kept && x !in Placed(offset, src[..pos]) {
      assert Within(x, offset, src);
      assert x in Placed(offset, src);
    }
  }

  lemma PlacedStep(kept: map<nat, byte>, offset: nat, src: seq<byte>, pos: nat, n: nat)
    requires pos + n <= |src|
    ensures kept + Placed(offset, src[..pos + n]) == (kept + Placed(offset, src[..pos])) + Placed(offset + pos, src[pos..pos + n])
  {
    var l, r := Placed(offset, src[..pos + n]), Placed(offset, src[..pos]) + Placed(offset + pos, src[pos..pos + n]);
    forall x: nat ensures x in l <==> x in r {
      assert Within(x, offset, src[..pos + n]) <==> Within(x, offset, src[..pos]) || Within(x, offset + pos, src[pos..pos + n]);
    }
    forall x: nat | x in l ensures l[x] == r[x] { assert l[x] == src[x - offset]; }
    assert l == r;
  }

  // ----- which offsets are stored -----

  /** Nothing below `base` is missing, and exactly the offsets from `base` on that are not missing are stored. */
  ghost predicate StoredKeys(gaps: seq<Range>, base: nat, bytes: map<nat, byte>) {
    && (forall o: nat :: o < base ==> !Covers(gaps, o))
    && (forall o: nat :: o in bytes <==> base <= o < UINT64_MAX && !Covers(gaps, o))
  }

  ghost function From(bytes: map<nat, byte>, offset: nat): map<nat, byte> {
    map o | o in bytes && offset <= o :: bytes[o]
  }

  /** The bytes of `src` at `offset` that fall into a gap. */
  ghost function Missing(gaps: seq<Range>, offset: nat, src: seq<byte>): map<nat, byte> {
    map o: nat | offset <= o < offset + |src| && Covers(gaps, o) :: src[o - offset]
  }

  lemma CoversSnoc(gaps: seq<Range>, k: nat, x: nat)
    requires k < |gaps|
    ensures Covers(gaps[..k + 1], x) <==> Covers(gaps[..k], x) || In(x, gaps[k])
  {
    assert gaps[..k + 1] == gaps[..k] + [gaps[k]];
    CoversConcat(gaps[..k], [gaps[k]], x);
    assert Covers([gaps[k]], x) <==> In(x, [gaps[k]][0]);
  }

  /** One more gap adds the part of `src` that falls into it. */
  lemma MissingNext(gaps: seq<Range>, k: nat, offset: nat, src: seq<byte>, m: Range, bytes: map<nat, byte>)
    requires k < |gaps| && m == Intersect(Range(offset, offset + |src|), gaps[k])
    ensures !NonEmpty(m) ==> Missing(gaps[..k + 1], offset, src) == Missing(gaps[..k], offset, src)
    ensures NonEmpty(m) ==> bytes + Missing(gaps[..k + 1], offset, src) ==
                            (bytes + Missing(gaps[..k], offset, src)) + Placed(m.begin, src[m.begin - offset..m.end - offset])
  {
    forall x: nat | offset <= x < offset + |src|
      ensures Covers(gaps[..k + 1], x) <==> Covers(gaps[..k], x) || In(x, m)
    {
      CoversSnoc(gaps, k, x);
      assert In(x, m) <==> In(x, Range(offset, offset + |src|)) && In(x, gaps[k]);
    }
    if NonEmpty(m) {
      MissingPart(gaps, k, offset, src, m);
      MapAssociative(bytes, Missing(gaps[..k], offset, src), Placed(m.begin, src[m.begin - offset..m.end - offset]));
    } else {
      assert forall x: nat :: !In(x, m);
    }
  }

  lemma MissingPart(gaps: seq<Range>, k: nat, offset: nat, src: seq<byte>, m: Range)
    requires k < |gaps| && offset <= m.begin < m.end <= offset + |src|
    requires forall x: nat :: offset <= x < offset + |src| ==> (Covers(gaps[..k + 1], x) <==> Covers(gaps[..k], x) || In(x, m))
    ensures Missing(gaps[..k + 1], offset, src) ==
            Missing(gaps[..k], offset, src) + Placed(m.begin, src[m.begin - offset..m.end - offset])
  {
    var l, r := Missing(gaps[..k + 1], offset, src), Missing(gaps[..k], offset, src);
    var part := src[m.begin - offset..m.end - offset];
    var p := Placed(m.begin, part);
    forall x: nat ensures x in l <==> x in r + p { assert Within(x, m.begin, part) <==> In(x, m); }
    forall x: nat | x in p ensures p[x] == src[x - offset] {}
  }

  lemma MapAssociative(a: map<nat, byte>, b: map<nat, byte>, c: map<nat, byte>)
    ensures a + (b + c) == (a + b) + c
  {
  }

  /** Gaps past the one that reaches the end of `src` add nothing. */
  lemma MissingAll(gaps: seq<Range>, k: nat, offset: nat, src: seq<byte>)
    requires Sorted(gaps) && k <= |gaps|
    requires k == |gaps| || (k > 0 && offset + |src| <= gaps[k - 1].end)
    ensures Missing(gaps[..k], offset, src) == Missing(gaps, offset, src)
  {
    assert gaps[..k] + gaps[k..] == gaps;
    forall x: nat | offset <= x < offset + |src| ensures Covers(gaps[..k], x) <==> Covers(gaps, x) {
      CoversConcat(gaps[..k], gaps[k..], x);
      if k < |gaps| {
        SortedRest(gaps, k - 1, gaps[k..]);
      }
    }
  }

  /** Nothing stored so far lies in the part of a gap that is about to be written. */
  lemma StoredOutside(gaps: seq<Range>, k: nat, base: nat, bytes: map<nat, byte>, offset: nat, src: seq<byte>, m: Range)
    requires Sorted(gaps) && k < |gaps| && m == Intersect(Range(offset, offset + |src|), gaps[k]) && NonEmpty(m)
    requires StoredKeys(gaps, base, bytes)
    ensures (bytes + Missing(gaps[..k], offset, src)).Keys !! Placed(m.begin, src[m.begin - offset..m.end - offset]).Keys
    ensures base <= m.begin
  {
    forall x: nat | In(x, m) ensures base <= x && x !in bytes && !Covers(gaps[..k], x) {
      assert In(x, gaps[k]);
      assert Covers(gaps, x);
      CoversBefore(gaps, k, x);
    }
    assert In(m.begin, m);
  }

  lemma CoversBefore(gaps: seq<Range>, k: nat, x: nat)
    requires Sorted(gaps) && k < |gaps|
    ensures Covers(gaps[..k], x) ==> x < gaps[k].begin
  {
    assert forall j :: 0 <= j < k ==> gaps[..k][j].end < gaps[k].begin;
  }

  /** Which offsets are stored after a push. */
  lemma PushedKeys(gaps: seq<Range>, base: nat, bytes: map<nat, byte>, offset: nat, src: seq<byte>)
    requires offset + |src| <= UINT64_MAX && StoredKeys(gaps, base, bytes)
    ensures StoredKeys(Subtract(gaps, Range(offset, offset + |src|)), base, bytes + Missing(gaps, offset, src))
  {
    var q := Range(offset, offset + |src|);
    forall o: nat ensures Covers(Subtract(gaps, q), o) <==> Covers(gaps, o) && !In(o, q) {
      SubtractCovers(gaps, q, o);
    }
  }

  /** Which offsets are stored after everything below `offset` is skipped. */
  lemma SkippedKeys(gaps: seq<Range>, gaps': seq<Range>, base: nat, bytes: map<nat, byte>, offset: nat)
    requires StoredKeys(gaps, base, bytes) && base <= offset
    requires forall x: nat :: Covers(gaps', x) <==> Covers(gaps, x) && offset <= x
    ensures StoredKeys(gaps', offset, From(bytes, offset))
  {
  }

  lemma ReadKeys(gaps: seq<Range>, base: nat, bytes: map<nat, byte>, offset: nat)
    requires Sorted(gaps) && gaps != [] && StoredKeys(gaps, base, bytes) && base <= offset <= gaps[0].begin
    ensures StoredKeys(gaps, offset, From(bytes, offset))
  {
    FirstOffsetIsLeastAll(gaps);
    SkippedKeys(gaps, gaps, base, bytes, offset);
  }

  /** Dropping the gaps below `offset`, and the lower part of one that straddles it. */
  lemma TrimCovers(orig: seq<Range>, k: nat, offset: nat, gaps: seq<Range>)
    requires Sorted(orig) && k <= |orig| && forall i :: 0 <= i < k ==> orig[i].end <= offset
    requires (gaps == orig[k..] && (gaps != [] ==> offset <= gaps[0].begin)) ||
             (k < |orig| && orig[k].begin < offset < orig[k].end && gaps == [Range(offset, orig[k].end)] + orig[k + 1..])
    ensures Sorted(gaps) && forall x: nat :: Covers(gaps, x) <==> Covers(orig, x) && offset <= x
  {
    forall x: nat ensures Covers(gaps, x) <==> Covers(orig, x) && offset <= x {
      assert orig == orig[..k] + orig[k..];
      CoversConcat(orig[..k], orig[k..], x);
      assert Covers(orig[..k], x) ==> x < offset;
      if gaps == orig[k..] {
        FirstOffsetIsLeast(gaps, x);
      } else {
        CoversTail(orig[k..], x);
        assert orig[k..][1..] == orig[k + 1..];
        CoversCons(Range(offset, orig[k].end), orig[k + 1..], x);
        TailBeyond(orig[k..], x);
      }
    }
  }

  /** Bytes at or past `offset` stay in place when only chunks that end by `offset` are dropped. */
  lemma SuffixKeeps(cells: seq<Cell>, k: nat, chunk: nat, offset: nat, bytes: map<nat, byte>, cells': seq<Cell>, bytes': map<nat, byte>)
    requires ValidCells(cells, chunk) && k <= |cells| && cells' == cells[k..] && bytes' == From(bytes, offset)
    requires forall i :: 0 <= i < k ==> cells[i].offset + chunk <= offset
    requires k < |cells| ==> offset < cells[k].offset + chunk
    requires Keeps(cells, bytes)
    ensures ValidCells(cells', chunk) && Keeps(cells', bytes') && Beyond(cells', chunk, offset)
  {
    forall o | o in bytes' ensures Holds(cells', o, bytes'[o]) {
      assert Holds(cells, o, bytes[o]);
      var j :| 0 <= j < |cells| && InCell(cells[j], o, bytes[o]);
      assert cells[j] == cells'[j - k];
    }
  }

  /** The first chunk is the one that holds `base`, if that byte is stored. */
  lemma FirstCell(cells: seq<Cell>, chunk: nat, base: nat, bytes: map<nat, byte>, o: nat)
    requires ValidCells(cells, chunk) && Beyond(cells, chunk, base) && Keeps(cells, bytes)
    requires base in bytes && o in bytes && base <= o
    ensures cells != [] && cells[0].offset <= base < cells[0].offset + chunk
    ensures o < cells[0].offset + chunk ==> cells[0].bytes[o - cells[0].offset] == bytes[o]
  {
    assert Holds(cells, base, bytes[base]);
    var j :| 0 <= j < |cells| && InCell(cells[j], base, bytes[base]);
    assert Holds(cells, o, bytes[o]);
    var i :| 0 <= i < |cells| && InCell(cells[i], o, bytes[o]);
    assert base < cells[0].offset + chunk && j == 0;
  }

  /** `dest` is the stored bytes from `base` on. */
  ghost predicate ReadsFrom(bytes: map<nat, byte>, base: nat, dest: seq<byte>) {
    forall k {:trigger dest[k]} :: 0 <= k < |dest| ==> base + k in bytes && dest[k] == bytes[base + k]
  }

  /** What lies in the first chunk from `base` up to the first gap is the stored bytes. */
  lemma ReadBytes(gaps: seq<Range>, cells: seq<Cell>, chunk: nat, base: nat, bytes: map<nat, byte>, dest: seq<byte>)
    requires Sorted(gaps) && gaps != [] && StoredKeys(gaps, base, bytes)
    requires ValidCells(cells, chunk) && Beyond(cells, chunk, base) && Keeps(cells, bytes)
    requires base in bytes && cells != [] && cells[0].offset <= base
    requires base + |dest| <= gaps[0].begin && base + |dest| <= cells[0].offset + chunk
    requires dest == cells[0].bytes[base - cells[0].offset..][..|dest|]
    ensures ReadsFrom(bytes, base, dest)
  {
    FirstOffsetIsLeastAll(gaps);
    forall k | 0 <= k < |dest| ensures base + k in bytes && dest[k] == bytes[base + k] {
      assert !Covers(gaps, base + k);
      FirstCell(cells, chunk, base, bytes, base + k);
    }
  }

  // ----- the buffer itself -----

  /** One node of the data list; the buffer is written in place. */
  datatype Chunk = Chunk(offset: nat, buf: array<byte>)

  /** The list nodes have the contents `cells`, in buffers of their own. */
  ghost predicate Linked(data: seq<Chunk>, cells: seq<Cell>, repr: set<array<byte>>)
    reads repr
  {
    && |cells| == |data|
    && (forall i :: 0 <= i < |data| ==> data[i].buf in repr)
    && (forall i :: 0 <= i < |data| ==> cells[i] == Cell(data[i].offset, data[i].buf[..]))
    && (forall i, j :: 0 <= i < j < |data| ==> data[i].buf != data[j].buf)
  }

  lemma LinkedInsert(data: seq<Chunk>, cells: seq<Cell>, repr: set<array<byte>>, i: nat, d: Chunk)
    requires Linked(data, cells, repr) && i <= |data| && d.buf !in repr
    ensures Linked(Insert(data, i, d), Insert(cells, i, Cell(d.offset, d.buf[..])), repr + {d.buf})
  {
  }

  lemma LinkedSuffix(data: seq<Chunk>, cells: seq<Cell>, repr: set<array<byte>>, k: nat)
    requires Linked(data, cells, repr) && k <= |data|
    ensures Linked(data[k..], cells[k..], repr)
  {
  }

  class Rob {
    var gaps: seq<Range>
    var data: seq<Chunk>
    const chunk: nat
    // The buffers of the data list, and their contents.
    ghost var repr: set<array<byte>>
    ghost var cells: seq<Cell>
    // All bytes below base have been handed out.
    ghost var base: nat
    // The bytes received and not handed out, by stream offset.
    ghost var bytes: map<nat, byte>

    /** What the data list must satisfy between any two of its updates. */
    ghost predicate ValidData(bytes: map<nat, byte>)
      reads this, repr
    {
      Linked(data, cells, repr) && ValidCells(cells, chunk) && Beyond(cells, chunk, base) && Keeps(cells, bytes)
    }

    ghost predicate Valid()
      reads this, repr
    {
      Sorted(gaps) && StoredKeys(gaps, base, bytes) && ValidData(bytes)
    }

    constructor (chunk: nat)
      requires chunk > 0
      ensures Valid() && this.chunk == chunk && fresh(repr)
      ensures gaps == [Range(0, UINT64_MAX)] && data == [] && base == 0 && bytes == map[]
    {
      this.chunk := chunk;
      gaps := [Range(0, UINT64_MAX)];
      data, repr, cells := [], {}, [];
      base, bytes := 0, map[];
      new;
      forall o: nat | o < UINT64_MAX ensures Covers(gaps, o) { assert In(o, gaps[0]); }
    }

    /** Inserts a new chunk for `offset` before position `i`. */
    method InsertChunk(i: nat, offset: nat, ghost kept: map<nat, byte>)
      requires ValidData(kept) && i <= |data| && base <= offset
      requires forall j :: 0 <= j < i ==> data[j].offset + chunk <= offset
      requires i < |data| ==> offset < data[i].offset
      modifies this`data, this`repr, this`cells
      ensures ValidData(kept) && |data| == |old(data)| + 1
      ensures data[i].offset <= offset < data[i].offset + chunk
      ensures forall j :: 0 <= j < i ==> data[j] == old(data)[j]
      ensures fresh(repr - old(repr))
    {
      var start := ChunkStart(offset, chunk);
      var buf := new byte[chunk];
      ghost var c := Cell(start, buf[..]);
      assert forall j :: 0 <= j < i ==> cells[j].offset + chunk <= offset;
      InsertValid(cells, chunk, i, c, base);
      InsertKeeps(cells, i, c, kept);
      LinkedInsert(data, cells, repr, i, Chunk(start, buf));
      data := Insert(data, i, Chunk(start, buf));
      cells := Insert(cells, i, c);
      repr := repr + {buf};
    }

    /** Copies `src` into the chunk at position `i`, at stream offset `offset`. */
    method WriteChunk(i: nat, offset: nat, src: seq<byte>, ghost kept: map<nat, byte>)
      requires ValidData(kept) && i < |data|
      requires data[i].offset <= offset && offset + |src| <= data[i].offset + chunk
      requires kept.Keys !! Placed(offset, src).Keys
      modifies data[i].buf, this`cells
      ensures ValidData(kept + Placed(offset, src))
    {
      OverwriteKeeps(cells, i, offset, src, kept);
      OverwriteValid(cells, chunk, i, offset, src, base);
      var d := data[i];
      forall k | 0 <= k < |src| {
        d.buf[offset - d.offset + k] := src[k];
      }
      cells := cells[i := Overwrite(cells[i], offset, src)];
      assert cells[i].bytes == d.buf[..];
    }

    /** The write loop stands at list position `i` with `pos` bytes of `src` written. */
    ghost predicate Writing(i: nat, pos: nat, offset: nat, src: seq<byte>, kept: map<nat, byte>)
      reads this, repr
    {
      && i <= |data| && pos <= |src| && base <= offset
      && ValidData(kept + Placed(offset, src[..pos]))
      && (pos < |src| ==> forall j :: 0 <= j < i ==> data[j].offset + chunk <= offset + pos)
    }

    /** Copies as many bytes as fit into the chunk at position `i`, and moves past it. */
    method FillChunk(i: nat, pos: nat, offset: nat, src: seq<byte>, ghost kept: map<nat, byte>) returns (n: nat)
      requires Writing(i, pos, offset, src, kept) && pos < |src| && kept.Keys !! Placed(offset, src).Keys
      requires i < |data| && data[i].offset <= offset + pos <= data[i].offset + chunk
      modifies data[i].buf, this`cells
      ensures n == Min(|src| - pos, data[i].offset + chunk - (offset + pos))
      ensures Writing(i + 1, pos + n, offset, src, kept)
    {
      n := Min(|src| - pos, data[i].offset + chunk - (offset + pos));
      PlacedApart(kept, offset, src, pos, n);
      WriteChunk(i, offset + pos, src[pos..pos + n], kept + Placed(offset, src[..pos]));
      PlacedStep(kept, offset, src, pos, n);
    }

    /** Adds the chunk for the next byte if the list has none at position `i`, and fills it. */
    method WriteTurn(i: nat, pos: nat, offset: nat, src: seq<byte>, ghost kept: map<nat, byte>) returns (n: nat)
      requires Writing(i, pos, offset, src, kept) && pos < |src| && kept.Keys !! Placed(offset, src).Keys
      requires i < |data| ==> offset + pos <= data[i].offset + chunk
      modifies this`data, this`repr, this`cells, repr
      ensures Writing(i + 1, pos + n, offset, src, kept) && fresh(repr - old(repr))
      ensures n > 0 || |data| == |old(data)|
    {
      if i == |data| || offset + pos < data[i].offset {
        InsertChunk(i, offset + pos, kept + Placed(offset, src[..pos]));
      }
      n := FillChunk(i, pos, offset, src, kept);
    }

    /** Writes `src` at stream offset `offset`, adding the chunks that are missing. */
    method WriteData(offset: nat, src: seq<byte>, ghost kept: map<nat, byte>)
      requires ValidData(kept) && src != [] && base <= offset
      requires kept.Keys !! Placed(offset, src).Keys
      modifies this`data, this`repr, this`cells, repr
      ensures ValidData(kept + Placed(offset, src)) && fresh(repr - old(repr))
    {
      var i: nat, pos: nat := 0, 0;
      assert kept + Placed(offset, src[..0]) == kept;
      while pos < |src|
        invariant Writing(i, pos, offset, src, kept) && fresh(repr - old(repr))
        decreases |src| - pos, |data| - i
      {
        if i < |data| && data[i].offset + chunk < offset + pos {
          i := i + 1;
          continue;
        }
        var n := WriteTurn(i, pos, offset, src, kept);
        i, pos := i + 1, pos + n;
      }
      assert src[..pos] == src;
    }

    /** Writes the part of `src` that falls into the gap at `k` of the original list, if any. */
    method WriteGap(ghost orig: seq<Range>, ghost k: nat, offset: nat, src: seq<byte>, m: Range)
      requires Sorted(orig) && k < |orig| && StoredKeys(orig, base, bytes)
      requires ValidData(bytes + Missing(orig[..k], offset, src))
      requires m == Intersect(Range(offset, offset + |src|), orig[k])
      modifies this`data, this`repr, this`cells, repr
      ensures ValidData(bytes + Missing(orig[..k + 1], offset, src)) && fresh(repr - old(repr))
    {
      ghost var kept := bytes + Missing(orig[..k], offset, src);
      MissingNext(orig, k, offset, src, m, bytes);
      if NonEmpty(m) {
        StoredOutside(orig, k, base, bytes, offset, src, m);
        var part := src[m.begin - offset..m.end - offset];
        WriteData(m.begin, part, kept);
      }
    }

    /** One turn of the loop of FillGaps. */
    method FillTurn(ghost orig: seq<Range>, ghost k: nat, i: nat, offset: nat, src: seq<byte>) returns (j: nat, stop: bool)
      requires k <= |orig| && Sorted(orig) && StoredKeys(orig, base, bytes)
      requires ValidData(bytes + Missing(orig[..k], offset, src))
      requires AtCursor(orig, k, gaps, i, Range(offset, offset + |src|)) && i < |gaps|
      modifies this`gaps, this`data, this`repr, this`cells, repr
      ensures k < |orig| && ValidData(bytes + Missing(orig[..k + 1], offset, src)) && fresh(repr - old(repr))
      ensures !stop ==> AtCursor(orig, k + 1, gaps, j, Range(offset, offset + |src|))
      ensures stop ==> gaps == Subtract(orig, Range(offset, offset + |src|)) && offset + |src| <= orig[k].end
    {
      var q := Range(offset, offset + |src|);
      var m := Intersect(q, gaps[i]);
      gaps, j, stop := PushTurn(orig, k, gaps, i, q);
      WriteGap(orig, k, offset, src, m);
    }

    /** Walks over the gaps, cutting the pushed range out of each and writing the bytes that fall into it. */
    method FillGaps(offset: nat, src: seq<byte>)
      requires Sorted(gaps) && StoredKeys(gaps, base, bytes) && ValidData(bytes)
      modifies this`gaps, this`data, this`repr, this`cells, repr
      ensures gaps == Subtract(old(gaps), Range(offset, offset + |src|))
      ensures ValidData(bytes + Missing(old(gaps), offset, src)) && fresh(repr - old(repr))
    {
      var q := Range(offset, offset + |src|);
      ghost var orig := gaps;
      ghost var k := 0;
      var i: nat := 0;
      assert bytes + Missing(orig[..0], offset, src) == bytes;
      while i < |gaps|
        invariant AtCursor(orig, k, gaps, i, q)
        invariant ValidData(bytes + Missing(orig[..k], offset, src)) && fresh(repr - old(repr))
        decreases |orig| - k
      {
        var stop;
        i, stop := FillTurn(orig, k, i, offset, src);
        k := k + 1;
        if stop {
          MissingAll(orig, k, offset, src);
          return;
        }
      }
      assert gaps[..i] == gaps && orig[..k] == orig;
    }

    /**
     Adds `src` at `offset`: only bytes that were missing are stored, each once,
     and they are no longer missing afterwards.
     */
    method Push(offset: nat, src: seq<byte>)
      requires Valid() && offset + |src| <= UINT64_MAX
      modifies this, repr
      ensures Valid() && fresh(repr - old(repr)) && base == old(base)
      ensures gaps == Subtract(old(gaps), Range(offset, offset + |src|))
      ensures bytes == old(bytes) + Missing(old(gaps), offset, src)
    {
      ghost var orig := gaps;
      FillGaps(offset, src);
      SubtractSorted(orig, Range(offset, offset + |src|));
      PushedKeys(orig, base, bytes, offset, src);
      bytes := bytes + Missing(orig, offset, src);
    }

    /** Forgets the gaps below `offset`. */
    method RemoveGaps(offset: nat)
      requires Sorted(gaps)
      modifies this`gaps
      ensures Sorted(gaps)
      ensures forall x: nat :: Covers(gaps, x) <==> old(Covers(gaps, x)) && offset <= x
      ensures old(gaps) != [] && offset < old(gaps)[|old(gaps)| - 1].end ==> gaps != []
    {
      ghost var orig := gaps;
      ghost var k := 0;
      while gaps != []
        invariant 0 <= k <= |orig| && gaps == orig[k..]
        invariant forall i :: 0 <= i < k ==> orig[i].end <= offset
        decreases |orig| - k
      {
        if offset <= gaps[0].begin {
          break;
        }
        if offset < gaps[0].end {
          gaps := [Range(offset, gaps[0].end)] + gaps[1..];
          break;
        }
        gaps := gaps[1..];
        k := k + 1;
      }
      TrimCovers(orig, k, offset, gaps);
    }

    /** Drops the chunks that end at or before `offset`. */
    method RemoveChunks(offset: nat)
      requires ValidData(bytes) && base <= offset
      modifies this`data, this`cells
      ensures ValidData(From(bytes, offset)) && Beyond(cells, chunk, offset)
    {
      ghost var orig := cells;
      ghost var k := 0;
      while data != []
        invariant k <= |orig| && cells == orig[k..] && Linked(data, cells, repr)
        invariant forall i :: 0 <= i < k ==> orig[i].offset + chunk <= offset
        decreases |data|
      {
        if offset <= data[0].offset {
          break;
        }
        if offset < data[0].offset + chunk {
          break;
        }
        data, cells := data[1..], cells[1..];
        k := k + 1;
      }
      SuffixKeeps(orig, k, chunk, offset, bytes, cells, From(bytes, offset));
    }

    /** Skips everything below `offset`: its gaps and the chunks that end there. */
    method RemovePrefix(offset: nat)
      requires Valid() && base <= offset
      modifies this
      ensures Valid() && repr == old(repr) && base == offset
      ensures forall x: nat :: Covers(gaps, x) <==> old(Covers(gaps, x)) && offset <= x
      ensures old(gaps) != [] && offset < old(gaps)[|old(gaps)| - 1].end ==> gaps != []
      ensures bytes == From(old(bytes), offset)
    {
      ghost var orig := gaps;
      RemoveGaps(offset);
      RemoveChunks(offset);
      SkippedKeys(orig, gaps, base, bytes, offset);
      base, bytes := offset, From(bytes, offset);
    }

    /** How far the first chunk can be read from `base`. */
    ghost function Readable(): nat
      requires gaps != [] && data != []
      reads this
    {
      Min(gaps[0].begin, data[0].offset + chunk)
    }

    /**
     The bytes available at `base` in the first chunk, up to the first gap; none
     if `base` is missing.  The three assertions of the source are proved here.
     */
    method DataAt(offset: nat) returns (dest: seq<byte>)
      requires Valid() && offset == base && gaps != []
      ensures |dest| == 0 <==> base == gaps[0].begin
      ensures |dest| > 0 ==> data != [] && base + |dest| == Readable()
      ensures base + |dest| <= gaps[0].begin
      ensures ReadsFrom(bytes, base, dest)
    {
      FirstOffsetIsLeastAll(gaps);
      if gaps[0].begin <= offset {
        return [];
      }
      FirstCell(cells, chunk, base, bytes, base);
      assert data != [];
      var d := data[0];
      assert d.offset <= offset;
      assert offset < d.offset + chunk;
      var len := Min(gaps[0].begin, d.offset + chunk) - offset;
      dest := d.buf[offset - d.offset..][..len];
      ReadBytes(gaps, cells, chunk, base, bytes, dest);
    }

    /** Drops what DataAt has handed out, and the first chunk once it is used up. */
    method Pop(offset: nat, len: nat)
      requires Valid() && offset == base && gaps != [] && data != [] && len > 0 && base + len == Readable()
      modifies this
      ensures Valid() && repr == old(repr) && gaps == old(gaps)
      ensures base == offset + len && bytes == From(old(bytes), offset + len)
    {
      ghost var orig, rest := data, From(bytes, offset + len);
      ReadKeys(gaps, base, bytes, offset + len);
      assert cells[0].offset == data[0].offset;
      ghost var k := if offset + len < data[0].offset + chunk then 0 else 1;
      ghost var left := cells[k..];
      SuffixKeeps(cells, k, chunk, offset + len, bytes, left, rest);
      LinkedSuffix(data, cells, repr, k);
      if offset + len < data[0].offset + chunk {
      } else {
        data := data[1..];
      }
      assert data == orig[k..];
      cells, base, bytes := left, offset + len, rest;
    }

    function FirstGapOffset(): (r: nat)
      requires Valid()
      reads this, repr
      ensures forall x: nat :: x < r ==> !Covers(gaps, x)
      ensures gaps != [] ==> Covers(gaps, r)
    {
      FirstOffsetIsLeastAll(gaps);
      FirstOffset(gaps)
    }
  }
}
