/**
 The ring buffer: the most recent items, newest first, in a fixed array whose size
 is a power of two.
 */
module RingBuffer {
  import opened Basics
  import opened Bits

  /** Item `i` of a ring that starts at `first`. */
  function Slot(first: nat, i: nat, n: nat): (r: nat)
    requires 0 < n
    ensures r < n
  {
    (first + i) % n
  }

  /** Distinct items have distinct slots. */
  lemma SlotsDistinct(first: nat, i: nat, j: nat, n: nat)
    requires i < j < n
    ensures Slot(first, i, n) != Slot(first, j, n)
  {
    var q, r := (first + i) / n, (first + i) % n;
    if r + (j - i) < n {
      Remainder(first + j, n, q, r + (j - i));
    } else {
      assert first + j == (q + 1) * n + (r + (j - i) - n);
      Remainder(first + j, n, q + 1, r + (j - i) - n);
    }
  }

  /** Stepping the start back moves every item one slot on. */
  lemma SlotBack(first: nat, i: nat, n: nat)
    requires 0 < n && first < n
    ensures Slot(Back(first, n), i + 1, n) == Slot(first, i, n)
  {
    if first == 0 {
      Remainder(n - 1 + (i + 1), n, i / n + 1, i % n);
      Remainder(i, n, i / n, i % n);
    }
  }

  function Back(first: nat, n: nat): (r: nat)
    requires 0 < n && first < n
    ensures r < n
  {
    if first == 0 then n - 1 else first - 1
  }

  /** The slot before `first`, as computed by masking in 64 bits. */
  lemma MaskedBack(first: nat, k: nat)
    requires k <= 64 && first < Pow2(k)
    ensures And(if first == 0 then SPAN - 1 else first - 1, Pow2(k) - 1) == Back(first, Pow2(k))
  {
    var n := Pow2(k);
    if first == 0 {
      AndMask(SPAN - 1, k);
      SpanIsPow2();
      Pow2Add(64 - k, k);
      LastBlock(Pow2(64 - k), n);
    } else {
      AndMask(first - 1, k);
      Remainder(first - 1, n, 0, first - 1);
    }
  }

  lemma LastBlock(m: nat, n: nat)
    requires 0 < m && 0 < n
    ensures (m * n - 1) % n == n - 1
  {
    assert m * n - 1 == (m - 1) * n + (n - 1);
    Remainder(m * n - 1, n, m - 1, n - 1);
  }

  /** The cells of the ring hold `items` from slot `first` on. */
  ghost predicate Holds<T>(cells: seq<T>, items: seq<T>, first: nat) {
    && |items| <= |cells| && (items != [] ==> first < |cells|)
    && (forall i {:trigger items[i]} :: 0 <= i < |items| ==> items[i] == cells[Slot(first, i, |cells|)])
  }

  lemma PushHolds<T>(cells: seq<T>, items: seq<T>, first: nat, first': nat, x: T)
    requires Holds(cells, items, first) && first' < |cells| && (first < |cells| ==> first' == Back(first, |cells|))
    ensures Holds(cells[first' := x], [x] + items[..if |items| == |cells| then |items| - 1 else |items|], first')
  {
    var n := |cells|;
    var items' := [x] + items[..if |items| == n then |items| - 1 else |items|];
    FirstSlot(first', n);
    forall i | 1 <= i < |items'| ensures items'[i] == cells[first' := x][Slot(first', i, n)] {
      SlotBack(first, i - 1, n);
      SlotsDistinct(first', 0, i, n);
      assert items'[i] == items[i - 1];
    }
  }

  class Ring<T(0)> {
    const buf: array<T>
    const k: nat
    var first: nat
    var len: nat
    // What the ring holds, newest first.
    ghost var items: seq<T>

    ghost predicate Valid()
      reads this, buf
    {
      && buf.Length == Pow2(k) && k <= 64
      && |items| == len && Holds(buf[..], items, first)
    }

    /** `first` starts at an arbitrary slot, even one past the end of the array. */
    constructor (k: nat, first: nat)
      requires k <= 64
      ensures Valid() && items == [] && this.k == k && fresh(buf)
    {
      buf := new T[Pow2(k)];
      this.k, this.first, len, items := k, first, 0, [];
    }

    /** The new item comes first; the oldest one is lost if the ring was full. */
    method PushFront(x: T)
      requires Valid()
      modifies this, buf
      ensures Valid()
      ensures items == if old(len) == buf.Length then [x] + old(items)[..old(len) - 1] else [x] + old(items)
    {
      ghost var first0, cells := first, buf[..];
      first := And(if first == 0 then SPAN - 1 else first - 1, buf.Length - 1);
      AndMask(if first0 == 0 then SPAN - 1 else first0 - 1, k);
      if first0 < buf.Length {
        MaskedBack(first0, k);
      }
      PushHolds(cells, items, first0, first, x);
      len := if buf.Length < len + 1 then buf.Length else len + 1;
      buf[first] := x;
      items := [x] + items[..len - 1];
      assert buf[..] == cells[first := x];
    }

    /** Keeps the newest `n` items. */
    method Resize(n: nat)
      requires Valid() && n <= len
      modifies this`len, this`items
      ensures Valid() && items == old(items)[..n]
    {
      len := n;
      items := items[..n];
    }

    method Get(i: nat) returns (x: T)
      requires Valid() && i < len
      ensures x == items[i]
    {
      AndMask(first + i, k);
      assert items[i] == buf[..][Slot(first, i, buf.Length)];
      x := buf[And(first + i, buf.Length - 1)];
    }
  }

  lemma FirstSlot(first: nat, n: nat)
    requires first < n
    ensures Slot(first, 0, n) == first
  {
    Remainder(first, n, 0, first);
  }
}
