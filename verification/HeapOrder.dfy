/**
 The order of a binary heap, over the sequence of its keys.
 */
module HeapOrder {

  function Parent(i: nat): nat
    requires 0 < i
  {
    (i - 1) / 2
  }

  lemma Children(i: nat)
    ensures Parent(2 * i + 1) == i && Parent(2 * i + 2) == i
  {
  }

  lemma Family(i: nat)
    requires 0 < i
    ensures Parent(i) < i && (i == 2 * Parent(i) + 1 || i == 2 * Parent(i) + 2)
  {
  }

  /** The order holds between `i` and its parent. */
  ghost predicate Ordered(keys: seq<nat>, i: nat) {
    0 < i < |keys| ==> keys[Parent(i)] <= keys[i]
  }

  ghost predicate IsHeap(keys: seq<nat>) {
    forall i: nat {:trigger Ordered(keys, i)} :: i < |keys| ==> Ordered(keys, i)
  }

  /** The order is kept by all but `hole` towards its parent, which is not larger than the children of `hole`. */
  ghost predicate Rising(keys: seq<nat>, hole: nat) {
    && hole < |keys|
    && (forall i: nat {:trigger Ordered(keys, i)} :: i < |keys| && i != hole ==> Ordered(keys, i))
    && Skips(keys, hole)
  }

  /** The order is kept by all but the children of `hole`, whose parent is not larger than they are. */
  ghost predicate Sinking(keys: seq<nat>, hole: nat) {
    && (forall i: nat {:trigger Ordered(keys, i)} :: 0 < i < |keys| && Parent(i) != hole ==> Ordered(keys, i))
    && Skips(keys, hole)
  }

  /** The order holds between the children of `hole` and its parent. */
  ghost predicate Skips(keys: seq<nat>, hole: nat) {
    0 < hole < |keys| ==>
      && (2 * hole + 1 < |keys| ==> keys[Parent(hole)] <= keys[2 * hole + 1])
      && (2 * hole + 2 < |keys| ==> keys[Parent(hole)] <= keys[2 * hole + 2])
  }

  function Swap<T>(s: seq<T>, i: nat, j: nat): (r: seq<T>)
    requires i < |s| && j < |s|
    ensures |r| == |s|
  {
    s[i := s[j]][j := s[i]]
  }

  lemma {:induction false} RootIsLeast(keys: seq<nat>, i: nat)
    requires IsHeap(keys) && i < |keys|
    ensures keys[0] <= keys[i]
  {
    if i > 0 {
      assert Ordered(keys, i);
      Family(i);
      RootIsLeast(keys, Parent(i));
    }
  }

  lemma RisingStep(keys: seq<nat>, i: nat)
    requires Rising(keys, i) && 0 < i && keys[i] < keys[Parent(i)]
    ensures Rising(Swap(keys, Parent(i), i), Parent(i))
  {
    var p := Parent(i);
    var keys' := Swap(keys, p, i);
    Family(i);
    forall k: nat | k < |keys'| && k != p ensures Ordered(keys', k) {
      if k > 0 {
        Family(k);
        assert k != i ==> Ordered(keys, k);
        if k != i && Parent(k) == i { assert k == 2 * i + 1 || k == 2 * i + 2; }
      }
    }
    if p > 0 {
      assert Ordered(keys, p);
      Children(p);
      forall c: nat | (c == 2 * p + 1 || c == 2 * p + 2) && c < |keys| ensures keys'[Parent(p)] <= keys'[c] {
        if c != i { assert Ordered(keys, c); }
        Family(p);
      }
    }
  }

  lemma RisingDone(keys: seq<nat>, i: nat)
    requires Rising(keys, i) && Ordered(keys, i)
    ensures IsHeap(keys)
  {
  }

  lemma SinkingStep(keys: seq<nat>, i: nat, c: nat)
    requires Sinking(keys, i) && 0 < c < |keys| && Parent(c) == i && keys[c] < keys[i]
    requires 2 * i + 1 < |keys| ==> keys[c] <= keys[2 * i + 1]
    requires 2 * i + 2 < |keys| ==> keys[c] <= keys[2 * i + 2]
    ensures Sinking(Swap(keys, i, c), c)
  {
    var keys' := Swap(keys, i, c);
    Family(c);
    forall k: nat | 0 < k < |keys'| && Parent(k) != c ensures Ordered(keys', k) {
      Family(k);
      if Parent(k) != i { assert Ordered(keys, k); }
    }
    Children(c);
    forall d: nat | (d == 2 * c + 1 || d == 2 * c + 2) && d < |keys| ensures keys'[i] <= keys'[d] {
      assert Ordered(keys, d);
    }
  }

  lemma SinkingDone(keys: seq<nat>, i: nat)
    requires Sinking(keys, i)
    requires 2 * i + 1 < |keys| ==> keys[i] <= keys[2 * i + 1]
    requires 2 * i + 2 < |keys| ==> keys[i] <= keys[2 * i + 2]
    ensures IsHeap(keys)
  {
    forall k: nat | k < |keys| ensures Ordered(keys, k) {
      if k > 0 { Family(k); }
    }
  }

  lemma PushRises(keys: seq<nat>, k: nat)
    requires IsHeap(keys)
    ensures Rising(keys + [k], |keys|)
  {
    var keys' := keys + [k];
    forall i: nat | i < |keys'| && i != |keys| ensures Ordered(keys', i) { assert Ordered(keys, i); }
  }

  /** The last key takes the place of the key at `i`. */
  function Replace<T>(s: seq<T>, i: nat): (r: seq<T>)
    requires i < |s|
    ensures |r| == |s| - 1
  {
    s[i := s[|s| - 1]][..|s| - 1]
  }

  lemma ParentOrder(keys: seq<nat>, i: nat)
    requires IsHeap(keys) && i < |keys|
    ensures 0 < i ==> keys[Parent(i)] <= keys[i]
    ensures 2 * i + 1 < |keys| ==> keys[i] <= keys[2 * i + 1]
    ensures 2 * i + 2 < |keys| ==> keys[i] <= keys[2 * i + 2]
  {
    Children(i);
    assert Ordered(keys, i) && Ordered(keys, 2 * i + 1) && Ordered(keys, 2 * i + 2);
  }

  /** A larger key in its place may have to sink. */
  lemma ReplaceSinks(keys: seq<nat>, i: nat)
    requires IsHeap(keys) && i < |keys| && (i == 0 || keys[i] <= keys[|keys| - 1])
    ensures Sinking(Replace(keys, i), i)
  {
    var keys' := Replace(keys, i);
    ParentOrder(keys, i);
    forall k: nat | 0 < k < |keys'| && Parent(k) != i ensures Ordered(keys', k) { assert Ordered(keys, k); }
  }

  /** A key that is not larger in its place may have to rise. */
  lemma ReplaceRises(keys: seq<nat>, i: nat)
    requires IsHeap(keys) && i < |keys| - 1 && keys[|keys| - 1] <= keys[i]
    ensures Rising(Replace(keys, i), i)
  {
    var keys' := Replace(keys, i);
    ParentOrder(keys, i);
    forall k: nat | k < |keys'| && k != i ensures Ordered(keys', k) { assert Ordered(keys, k); }
  }

  lemma DropLast(keys: seq<nat>)
    requires IsHeap(keys) && keys != []
    ensures IsHeap(keys[..|keys| - 1])
  {
    var keys' := keys[..|keys| - 1];
    forall k: nat | k < |keys'| ensures Ordered(keys', k) { assert Ordered(keys, k); }
  }
}
