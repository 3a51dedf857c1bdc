/**
 The priority queue of entries by expiry: a binary heap in a growing array, where
 each entry knows its own position.
 */
module PriorityQueue {
  import opened HeapOrder

  /** An entry of the retransmission buffer; `index` and `expiry` are what the queue looks at. */
  class Ent {
    var index: nat
    var expiry: nat
    var pktNum: nat
    var deadline: nat
    var count: nat
    var pktLen: nat
    var unprotected: bool

    constructor (pktNum: nat, pktLen: nat, unprotected: bool, expiry: nat, deadline: nat)
      ensures this.pktNum == pktNum && this.pktLen == pktLen && this.unprotected == unprotected
      ensures this.expiry == expiry && this.deadline == deadline && count == 0
    {
      this.pktNum, this.pktLen, this.unprotected := pktNum, pktLen, unprotected;
      this.expiry, this.deadline, count, index := expiry, deadline, 0, 0;
    }
  }

  /** Every entry knows its position, and `keys` are the expiries. */
  ghost predicate Linked(ents: seq<Ent>, keys: seq<nat>)
    reads ents
  {
    |ents| == |keys| && forall i {:trigger ents[i]} :: 0 <= i < |ents| ==> ents[i].index == i && ents[i].expiry == keys[i]
  }

  ghost function Elems(s: seq<Ent>): set<Ent> { set e | e in s }

  /** The same entries in any order. */
  ghost predicate SameEnts(s: seq<Ent>, t: seq<Ent>) { |s| == |t| && Elems(s) == Elems(t) }

  lemma SwapSame(s: seq<Ent>, i: nat, j: nat)
    requires i < |s| && j < |s|
    ensures SameEnts(Swap(s, i, j), s)
  {
    var r := Swap(s, i, j);
    forall k | 0 <= k < |s| ensures s[k] in r {
      assert r[if k == i then j else if k == j then i else k] == s[k];
    }
    assert Elems(r) == Elems(s);
  }

  class Pq {
    var q: array<Ent?>
    var length: nat
    // The entries in heap order, and their expiries.
    ghost var ents: seq<Ent>
    ghost var keys: seq<nat>

    /** The array holds the entries; the order is not part of this. */
    ghost predicate Stored()
      reads this, q, ents
    {
      && length == |ents| <= q.Length && Linked(ents, keys)
      && (forall i {:trigger q[i]} {:trigger ents[i]} :: 0 <= i < length ==> q[i] == ents[i])
    }

    ghost predicate Valid()
      reads this, q, ents
    {
      Stored() && IsHeap(keys)
    }

    constructor ()
      ensures Valid() && ents == [] && fresh(q)
    {
      q := new Ent?[0];
      length, ents, keys := 0, [], [];
    }

    method SwapAt(i: nat, j: nat)
      requires Stored() && i < length && j < length && i != j
      modifies this`ents, this`keys, q, Elems(ents)`index
      ensures Stored() && ents == Swap(old(ents), i, j) && keys == Swap(old(keys), i, j)
    {
      var a, b := q[i], q[j];
      q[i] := b;
      b.index := i;
      q[j] := a;
      a.index := j;
      ents, keys := Swap(ents, i, j), Swap(keys, i, j);
    }

    method BubbleUp(start: nat)
      requires Stored() && Rising(keys, start)
      modifies this`ents, this`keys, q, Elems(ents)`index
      ensures Valid() && SameEnts(ents, old(ents))
    {
      var index: nat := start;
      while index != 0
        invariant Stored() && Rising(keys, index) && SameEnts(ents, old(ents))
      {
        var parent := (index - 1) / 2;
        Family(index);
        if !(q[index].expiry < q[parent].expiry) {
          break;
        }
        RisingStep(keys, index);
        SwapSame(ents, parent, index);
        SwapAt(parent, index);
        index := parent;
      }
      RisingDone(keys, index);
    }

    /** The smallest of an entry and its children. */
    method MinChild(index: nat) returns (min: nat)
      requires Stored()
      ensures min == index ==> (2 * index + 1 < |keys| ==> keys[index] <= keys[2 * index + 1]) &&
                               (2 * index + 2 < |keys| ==> keys[index] <= keys[2 * index + 2])
      ensures min != index ==> 0 < min < |keys| && Parent(min) == index && keys[min] < keys[index] &&
                               (2 * index + 1 < |keys| ==> keys[min] <= keys[2 * index + 1]) &&
                               (2 * index + 2 < |keys| ==> keys[min] <= keys[2 * index + 2])
    {
      Children(index);
      min := index;
      var j := index * 2 + 1;
      if j < length {
        if q[j].expiry < q[min].expiry {
          min := j;
        }
        j := j + 1;
        if j < length {
          if q[j].expiry < q[min].expiry {
            min := j;
          }
        }
      }
    }

    method BubbleDown(start: nat)
      requires Stored() && Sinking(keys, start)
      modifies this`ents, this`keys, q, Elems(ents)`index
      ensures Valid() && SameEnts(ents, old(ents))
    {
      var index: nat := start;
      while true
        invariant Stored() && Sinking(keys, index) && SameEnts(ents, old(ents))
        decreases length - index
      {
        var min := MinChild(index);
        if min == index {
          SinkingDone(keys, index);
          return;
        }
        Family(min);
        SinkingStep(keys, index, min);
        SwapSame(ents, index, min);
        SwapAt(index, min);
        index := min;
      }
    }

    /** Makes room for one more entry. */
    method Grow()
      requires Stored()
      modifies this`q
      ensures Stored() && length < q.Length && (q == old(q) || fresh(q))
    {
      if q.Length <= length {
        var nq := new Ent?[if 4 < q.Length * 2 then q.Length * 2 else 4];
        for i := 0 to length
          invariant Stored() && q == old(q) && forall k {:trigger nq[k]} :: 0 <= k < i ==> nq[k] == q[k]
        {
          nq[i] := q[i];
        }
        q := nq;
      }
    }

    method Push(e: Ent)
      requires Valid() && e !in ents
      modifies this, q, Elems(ents)`index, e`index
      ensures Valid() && SameEnts(ents, old(ents) + [e]) && (q == old(q) || fresh(q))
    {
      Grow();
      PushRises(keys, e.expiry);
      q[length] := e;
      e.index := length;
      length := length + 1;
      ents, keys := ents + [e], keys + [e.expiry];
      BubbleUp(length - 1);
    }

    /** The entry with the least expiry. */
    method Top() returns (e: Ent?)
      requires Valid()
      ensures e == null <==> ents == []
      ensures e != null ==> ents != [] && e == ents[0] && forall i :: 0 <= i < |ents| ==> e.expiry <= ents[i].expiry
    {
      if length == 0 {
        return null;
      }
      e := q[0];
      forall i | 0 <= i < |ents| ensures e.expiry <= ents[i].expiry { RootIsLeast(keys, i); }
    }

    /** The last entry takes the place of the one at `i`. */
    method MoveLast(i: nat)
      requires Stored() && i < length
      modifies this`length, this`ents, this`keys, q, Elems(ents)`index
      ensures Stored() && ents == Replace(old(ents), i) && keys == Replace(old(keys), i)
    {
      q[i] := q[length - 1];
      q[i].index := i;
      length := length - 1;
      ents, keys := Replace(ents, i), Replace(keys, i);
    }

    method Pop()
      requires Valid()
      modifies this`length, this`ents, this`keys, q, Elems(ents)`index
      ensures Valid() && if old(ents) == [] then ents == [] else Removed(old(ents), old(ents)[0], ents)
    {
      if length > 0 {
        ReplaceSinks(keys, 0);
        ReplaceRemoved(ents, 0);
        MoveLast(0);
        BubbleDown(0);
      }
    }

    method Remove(e: Ent)
      requires Valid() && e in ents
      modifies this`length, this`ents, this`keys, q, Elems(ents)`index
      ensures Valid() && Removed(old(ents), e, ents)
    {
      var i := e.index;
      ReplaceRemoved(ents, i);
      if i == 0 {
        Pop();
        return;
      }
      if i == length - 1 {
        DropLast(keys);
        length := length - 1;
        ents, keys := ents[..length], keys[..length];
        return;
      }
      if e.expiry < q[length - 1].expiry {
        ReplaceSinks(keys, i);
        MoveLast(i);
        BubbleDown(i);
      } else {
        ReplaceRises(keys, i);
        MoveLast(i);
        BubbleUp(i);
      }
    }
  }

  /** `t` are the entries of `s` without `e`. */
  ghost predicate Removed(s: seq<Ent>, e: Ent, t: seq<Ent>) { |t| + 1 == |s| && Elems(t) == Elems(s) - {e} }

  lemma ReplaceRemoved(s: seq<Ent>, i: nat)
    requires i < |s| && forall j, k :: 0 <= j < k < |s| ==> s[j] != s[k]
    ensures Removed(s, s[i], Replace(s, i))
  {
    var t := Replace(s, i);
    forall k | 0 <= k < |s| && s[k] != s[i] ensures s[k] in t {
      assert t[if k == |s| - 1 then i else k] == s[k];
    }
    assert Elems(t) == Elems(s) - {s[i]};
  }
}
