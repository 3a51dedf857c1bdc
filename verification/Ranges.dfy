/**
 Half-open ranges of stream offsets, and the sorted gap lists built from them.

 A gap list is the "not received yet" (or "not acknowledged yet", or "not
 opened yet") part of [0, UINT64_MAX).  Both gap trackers of the library and
 the stream ID tracker keep one.
 */
module Ranges {
  import opened Basics

  const UINT64_MAX: nat := 0xFFFF_FFFF_FFFF_FFFF

  datatype Range = Range(begin: nat, end: nat)

  predicate In(x: nat, r: Range) { r.begin <= x < r.end }

  predicate NonEmpty(r: Range) { r.begin < r.end }

  /** The common part of `a` and `b`, or the range [0, 0) if there is none. */
  function Intersect(a: Range, b: Range): (r: Range)
    ensures forall x :: In(x, r) <==> In(x, a) && In(x, b)
    ensures !NonEmpty(r) ==> r == Range(0, 0)
  {
    var begin := Max(a.begin, b.begin);
    var end := Min(a.end, b.end);
    if begin < end then Range(begin, end) else Range(0, 0)
  }

  datatype Sides = Sides(left: Range, right: Range)

  /** What is left of `a` on either side of `b`, which must lie inside `a`. */
  function Cut(a: Range, b: Range): (s: Sides)
    requires a.begin <= b.begin < b.end <= a.end
    ensures forall x :: In(x, a) && !In(x, b) <==> In(x, s.left) || In(x, s.right)
    ensures forall x, y :: In(x, s.left) && In(y, s.right) ==> x + 1 < y
  {
    Sides(Range(a.begin, b.begin), Range(b.end, a.end))
  }

  predicate NotAfter(a: Range, b: Range) { a.end <= b.end }

  // ----- gap lists -----

  /** `x` lies in one of the gaps. */
  ghost predicate Covers(gaps: seq<Range>, x: nat) {
    exists i :: 0 <= i < |gaps| && In(x, gaps[i])
  }

  /** Sorted, non-empty and separated by at least one offset outside every gap. */
  ghost predicate Sorted(gaps: seq<Range>) {
    && (forall i :: 0 <= i < |gaps| ==> NonEmpty(gaps[i]) && gaps[i].end <= UINT64_MAX)
    && (forall i, j :: 0 <= i < j < |gaps| ==> gaps[i].end < gaps[j].begin)
  }

  function FirstOffset(gaps: seq<Range>): (r: nat) {
    if gaps == [] then UINT64_MAX else gaps[0].begin
  }

  /** One gap with the offsets of `q` taken out: nothing, one piece or two. */
  function SubtractOne(g: Range, q: Range): (r: seq<Range>)
  {
    var m := Intersect(q, g);
    if !NonEmpty(m) then [g] else
    var Sides(left, right) := Cut(g, m);
    (if NonEmpty(left) then [left] else []) + (if NonEmpty(right) then [right] else [])
  }

  /** The reference meaning of pushing `q`: take it out of every gap. */
  function Subtract(gaps: seq<Range>, q: Range): (r: seq<Range>)
  {
    if gaps == [] then [] else SubtractOne(gaps[0], q) + Subtract(gaps[1..], q)
  }

  lemma CoversCons(g: Range, gaps: seq<Range>, x: nat)
    ensures Covers([g] + gaps, x) <==> In(x, g) || Covers(gaps, x)
  {
    var all := [g] + gaps;
    if In(x, g) { assert In(x, all[0]); }
    if Covers(gaps, x) {
      var i :| 0 <= i < |gaps| && In(x, gaps[i]);
      assert In(x, all[i + 1]);
    }
  }

  lemma CoversConcat(a: seq<Range>, b: seq<Range>, x: nat)
    ensures Covers(a + b, x) <==> Covers(a, x) || Covers(b, x)
  {
    if Covers(a, x) {
      var i :| 0 <= i < |a| && In(x, a[i]);
      assert In(x, (a + b)[i]);
    }
    if Covers(b, x) {
      var i :| 0 <= i < |b| && In(x, b[i]);
      assert In(x, (a + b)[|a| + i]);
    }
  }

  lemma SubtractOneCovers(g: Range, q: Range, x: nat)
    ensures Covers(SubtractOne(g, q), x) <==> In(x, g) && !In(x, q)
  {
    var m := Intersect(q, g);
    var s := SubtractOne(g, q);
    if NonEmpty(m) {
      var Sides(left, right) := Cut(g, m);
      CoversConcat(if NonEmpty(left) then [left] else [], if NonEmpty(right) then [right] else [], x);
      assert Covers([left], x) <==> In(x, [left][0]);
      assert Covers([right], x) <==> In(x, [right][0]);
    } else {
      assert s == [g];
      assert Covers(s, x) <==> In(x, s[0]);
      assert !In(x, m);
    }
  }

  /** Subtracting removes exactly the offsets of `q`. */
  lemma {:induction false} SubtractCovers(gaps: seq<Range>, q: Range, x: nat)
    ensures Covers(Subtract(gaps, q), x) <==> Covers(gaps, x) && !In(x, q)
  {
    if gaps != [] {
      SubtractOneCovers(gaps[0], q, x);
      SubtractCovers(gaps[1..], q, x);
      CoversConcat(SubtractOne(gaps[0], q), Subtract(gaps[1..], q), x);
      CoversCons(gaps[0], gaps[1..], x);
      assert [gaps[0]] + gaps[1..] == gaps;
    }
  }

  /** Every piece after a subtraction lies inside the offsets it came from. */
  lemma {:induction false} SubtractBounds(gaps: seq<Range>, q: Range, lo: nat)
    requires Sorted(gaps)
    requires forall i :: 0 <= i < |gaps| ==> lo <= gaps[i].begin
    ensures forall i :: 0 <= i < |Subtract(gaps, q)| ==> lo <= Subtract(gaps, q)[i].begin
  {
    if gaps != [] {
      SubtractBounds(gaps[1..], q, lo);
    }
  }

  lemma SortedConcat(a: seq<Range>, b: seq<Range>, mid: nat)
    requires Sorted(a) && Sorted(b)
    requires forall i :: 0 <= i < |a| ==> a[i].end <= mid
    requires forall i :: 0 <= i < |b| ==> mid < b[i].begin
    ensures Sorted(a + b)
  {
  }

  /** Subtracting keeps a gap list sorted, separated and free of empty gaps. */
  lemma {:induction false} SubtractSorted(gaps: seq<Range>, q: Range)
    requires Sorted(gaps)
    ensures Sorted(Subtract(gaps, q))
  {
    if gaps != [] {
      SubtractSorted(gaps[1..], q);
      SubtractBounds(gaps[1..], q, gaps[0].end + 1);
      SortedConcat(SubtractOne(gaps[0], q), Subtract(gaps[1..], q), gaps[0].end);
    }
  }

  /** Ranges that end at or before the first gap change nothing. */
  lemma {:induction false} SubtractNothing(gaps: seq<Range>, q: Range)
    requires Sorted(gaps)
    requires forall i :: 0 <= i < |gaps| ==> q.end <= gaps[i].begin
    ensures Subtract(gaps, q) == gaps
  {
    if gaps != [] {
      SubtractNothing(gaps[1..], q);
    }
  }

  lemma {:induction false} SubtractConcat(a: seq<Range>, b: seq<Range>, q: Range)
    ensures Subtract(a + b, q) == Subtract(a, q) + Subtract(b, q)
  {
    if a == [] {
      assert a + b == b;
    } else {
      SubtractConcat(a[1..], b, q);
      assert (a + b)[0] == a[0] && (a + b)[1..] == a[1..] + b;
      AppendAssociative(SubtractOne(a[0], q), Subtract(a[1..], q), Subtract(b, q));
    }
  }

  lemma AppendAssociative(a: seq<Range>, b: seq<Range>, c: seq<Range>)
    ensures a + (b + c) == (a + b) + c
  {
  }

  /**
   Shrinks the gap under the cursor `i` to what `m` leaves of it, inserting a
   new gap when `m` splits it in two; `j` is the last piece.
   */
  method CutGap(gaps: seq<Range>, i: nat, q: Range, m: Range) returns (r: seq<Range>, j: nat)
    requires i < |gaps| && m == Intersect(q, gaps[i]) && NonEmpty(m) && m != gaps[i]
    ensures r == gaps[..i] + SubtractOne(gaps[i], q) + gaps[i + 1..]
    ensures j + 1 == i + |SubtractOne(gaps[i], q)|
  {
    var Sides(left, right) := Cut(gaps[i], m);
    r, j := gaps, i;
    if NonEmpty(left) {
      r := gaps[i := left];
      if NonEmpty(right) {
        r := r[..i + 1] + [right] + r[i + 1..];
        j := i + 1;
      }
    } else if NonEmpty(right) {
      r := gaps[i := right];
    }
  }

  /** One turn of a push loop: the gap under the cursor is replaced by what is left of it. */
  lemma SubtractAdvance(orig: seq<Range>, k: nat, gaps: seq<Range>, i: nat, q: Range)
    requires k < |orig| && i < |gaps|
    requires gaps[..i] == Subtract(orig[..k], q) && gaps[i..] == orig[k..]
    ensures gaps[i] == orig[k] && gaps[i + 1..] == orig[k + 1..]
    ensures gaps[..i] + SubtractOne(gaps[i], q) == Subtract(orig[..k + 1], q)
  {
    assert gaps[i..][0] == gaps[i];
    assert gaps[i..][1..] == gaps[i + 1..];
    assert orig[k..][1..] == orig[k + 1..];
    assert orig[..k + 1] == orig[..k] + [orig[k]];
    SubtractConcat(orig[..k], [orig[k]], q);
    assert Subtract([orig[k]], q) == SubtractOne(orig[k], q) + Subtract([orig[k]][1..], q);
  }

  lemma SortedRest(gaps: seq<Range>, k: nat, rest: seq<Range>)
    requires Sorted(gaps) && k < |gaps| && rest == gaps[k + 1..]
    ensures Sorted(rest)
    ensures forall i :: 0 <= i < |rest| ==> gaps[k].end < rest[i].begin
  {
  }

  /** A push loop may stop at the first gap that reaches the end of `q`. */
  lemma SubtractStop(orig: seq<Range>, k: nat, q: Range)
    requires Sorted(orig) && k < |orig| && q.end <= orig[k].end
    ensures Subtract(orig, q) == Subtract(orig[..k + 1], q) + orig[k + 1..]
  {
    assert orig == orig[..k + 1] + orig[k + 1..];
    SubtractConcat(orig[..k + 1], orig[k + 1..], q);
    SortedRest(orig, k, orig[k + 1..]);
    SubtractNothing(orig[k + 1..], q);
  }

  /** A push loop of `q` has handled `k` of the original gaps and stands at position `i`. */
  ghost predicate AtCursor(orig: seq<Range>, k: nat, gaps: seq<Range>, i: nat, q: Range) {
    && k <= |orig| && i <= |gaps|
    && gaps[..i] == Subtract(orig[..k], q) && gaps[i..] == orig[k..]
  }

  /**
   One turn of a push loop: removes, shrinks or splits the gap under the cursor;
   `stop` if that gap reaches the end of `q`, and then the whole list is done.
   */
  method PushTurn(ghost orig: seq<Range>, ghost k: nat, gaps: seq<Range>, i: nat, q: Range)
    returns (r: seq<Range>, j: nat, stop: bool)
    requires Sorted(orig) && AtCursor(orig, k, gaps, i, q) && i < |gaps|
    ensures k < |orig| && gaps[i] == orig[k]
    ensures !stop ==> AtCursor(orig, k + 1, r, j, q)
    ensures stop ==> r == Subtract(orig, q) && q.end <= orig[k].end
  {
    SubtractAdvance(orig, k, gaps, i, q);
    r, j, stop := gaps, i, false;
    var m := Intersect(q, gaps[i]);
    if NonEmpty(m) {
      if gaps[i] == m {
        r := gaps[..i] + gaps[i + 1..];
        return;
      }
      r, j := CutGap(gaps, i, q, m);
    }
    Splice(gaps[..i], SubtractOne(gaps[i], q), gaps[i + 1..], r, j);
    if NotAfter(q, r[j]) {
      SubtractStop(orig, k, q);
      stop := true;
    } else {
      j := j + 1;
    }
  }

  lemma Splice(before: seq<Range>, mid: seq<Range>, after: seq<Range>, gaps: seq<Range>, j: nat)
    requires gaps == before + mid + after && j + 1 == |before| + |mid|
    ensures gaps[..j + 1] == before + mid && gaps[j + 1..] == after
    ensures mid != [] ==> gaps[j] == mid[|mid| - 1]
  {
  }

  /** The first gap offset is the least offset that is still missing. */
  lemma FirstOffsetIsLeast(gaps: seq<Range>, x: nat)
    requires Sorted(gaps)
    ensures gaps != [] ==> Covers(gaps, FirstOffset(gaps))
    ensures x < FirstOffset(gaps) ==> !Covers(gaps, x)
  {
    if gaps != [] {
      assert In(gaps[0].begin, gaps[0]);
      assert forall i :: 0 <= i < |gaps| ==> gaps[0].begin <= gaps[i].begin;
    }
  }

  lemma FirstOffsetIsLeastAll(gaps: seq<Range>)
    requires Sorted(gaps)
    ensures gaps != [] ==> Covers(gaps, FirstOffset(gaps))
    ensures forall x: nat :: x < FirstOffset(gaps) ==> !Covers(gaps, x)
  {
    forall x: nat | x < FirstOffset(gaps) ensures !Covers(gaps, x) { FirstOffsetIsLeast(gaps, x); }
    FirstOffsetIsLeast(gaps, 0);
  }

  lemma CoversTail(gaps: seq<Range>, x: nat)
    requires gaps != []
    ensures Covers(gaps, x) <==> In(x, gaps[0]) || Covers(gaps[1..], x)
  {
    CoversCons(gaps[0], gaps[1..], x);
    assert [gaps[0]] + gaps[1..] == gaps;
  }

  /** Gap lists are canonical: the set of missing offsets determines the list. */
  lemma {:induction false} Canonical(a: seq<Range>, b: seq<Range>)
    requires Sorted(a) && Sorted(b)
    requires forall x :: Covers(a, x) <==> Covers(b, x)
    ensures a == b
  {
    if a == [] {
      if b != [] { FirstOffsetIsLeast(b, 0); assert false; }
    } else if b == [] {
      FirstOffsetIsLeast(a, 0);
      assert false;
    } else {
      FirstOffsetIsLeast(a, b[0].begin);
      FirstOffsetIsLeast(b, a[0].begin);
      SameFirstEnd(a, b);
      SameFirstEnd(b, a);
      forall x ensures Covers(a[1..], x) <==> Covers(b[1..], x) {
        CoversTail(a, x);
        CoversTail(b, x);
        TailBeyond(a, x);
        TailBeyond(b, x);
      }
      Canonical(a[1..], b[1..]);
    }
  }

  lemma TailBeyond(gaps: seq<Range>, x: nat)
    requires Sorted(gaps) && gaps != []
    ensures Covers(gaps[1..], x) ==> gaps[0].end < x
  {
    if Covers(gaps[1..], x) {
      var i :| 0 <= i < |gaps[1..]| && In(x, gaps[1..][i]);
      assert gaps[1..][i] == gaps[i + 1];
    }
  }

  lemma SameFirstEnd(a: seq<Range>, b: seq<Range>)
    requires Sorted(a) && Sorted(b) && a != [] && b != []
    requires forall x :: Covers(a, x) <==> Covers(b, x)
    requires a[0].begin == b[0].begin
    ensures a[0].end <= b[0].end
  {
    if b[0].end < a[0].end {
      var x := b[0].end;
      assert In(x, a[0]);
      assert Covers(a, x);
      CoversTail(b, x);
      TailBeyond(b, x);
    }
  }
}
