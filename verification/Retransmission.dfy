/**
 The retransmission buffer: a list of the packets in flight, newest first, and a
 priority queue of the same entries by expiry.
 */
module Retransmission {
  import opened AckWalk
  import opened PriorityQueue

  /** The bytes of all packets. */
  function SumLen(s: seq<Info>): nat {
    if s == [] then 0 else s[0].pktLen + SumLen(s[1..])
  }

  lemma {:induction false} SumWithout(s: seq<Info>, i: nat)
    requires i < |s|
    ensures SumLen(s) == s[i].pktLen + SumLen(Without(s, i))
  {
    if i == 0 {
      assert Without(s, 0) == s[1..];
    } else {
      SumWithout(s[1..], i - 1);
      assert Without(s, i)[1..] == Without(s[1..], i - 1);
    }
  }

  ghost predicate NoRepeat(list: seq<Ent>) {
    forall i, j :: 0 <= i < j < |list| ==> list[i] != list[j]
  }

  /** `info` is what the entries of the list say. */
  ghost predicate Described(list: seq<Ent>, info: seq<Info>)
    reads list
  {
    |info| == |list| && forall i {:trigger list[i]} {:trigger info[i]} :: 0 <= i < |list| ==> info[i] == Describe(list[i])
  }

  ghost function Describe(e: Ent): Info
    reads e
  {
    Info(e.pktNum, e.pktLen, e.unprotected, e.expiry, e.deadline, e.count)
  }

  lemma DescribedWithout(list: seq<Ent>, info: seq<Info>, i: nat)
    requires Described(list, info) && i < |list| && NoRepeat(list)
    ensures Described(Without(list, i), Without(info, i)) && NoRepeat(Without(list, i))
  {
    var rest := Without(list, i);
    forall k | 0 <= k < |rest| ensures Without(info, i)[k] == Describe(rest[k]) {
      assert rest[k] == list[if k < i then k else k + 1];
    }
  }

  /** Removing the same entry from the list and the queue leaves the same entries. */
  lemma RemovedSame(list: seq<Ent>, i: nat, ents: seq<Ent>, ents': seq<Ent>)
    requires i < |list| && NoRepeat(list) && SameEnts(list, ents) && Removed(ents, list[i], ents')
    ensures NoRepeat(Without(list, i)) && SameEnts(Without(list, i), ents')
  {
    var rest := Without(list, i);
    forall k | 0 <= k < |list| && k != i ensures list[k] in rest {
      assert rest[if k < i then k else k - 1] == list[k];
    }
    forall k | 0 <= k < |rest| ensures rest[k] in list && rest[k] != list[i] {
      assert rest[k] == list[if k < i then k else k + 1];
    }
    assert Elems(rest) == Elems(list) - {list[i]};
  }

  lemma AddedSame(list: seq<Ent>, e: Ent, ents: seq<Ent>, ents': seq<Ent>)
    requires SameEnts(list, ents) && SameEnts(ents', ents + [e])
    ensures SameEnts([e] + list, ents')
  {
    assert Elems([e] + list) == Elems(list) + {e};
    assert Elems(ents + [e]) == Elems(ents) + {e};
  }

  class Rtb {
    const pq: Pq
    var list: seq<Ent>
    var bytesInFlight: nat
    var largestAcked: nat
    ghost var info: seq<Info>

    ghost predicate Valid()
      reads this, pq, pq.q, pq.ents, list
    {
      pq.Valid() && SameEnts(list, pq.ents) && Counted()
    }

    /** All that the buffer is made of. */
    ghost function Repr(): set<object>
      reads this, pq
    {
      {this, pq, pq.q} + Elems(list)
    }

    /** The list is sound, and its packets are the bytes in flight. */
    ghost predicate Counted()
      reads this, list
    {
      NoRepeat(list) && Described(list, info) && bytesInFlight == SumLen(info)
    }

    constructor ()
      ensures Valid() && list == [] && largestAcked == 0 && fresh(pq) && fresh(pq.q)
    {
      pq := new Pq();
      list, bytesInFlight, largestAcked, info := [], 0, 0, [];
    }

    method Add(e: Ent)
      requires Valid() && e !in list
      modifies this`list, this`bytesInFlight, this`info, pq, pq.q, Elems(list)`index, e`index
      ensures Valid() && list == [e] + old(list) && info == [old(Describe(e))] + old(info)
      ensures pq.q == old(pq.q) || fresh(pq.q)
    {
      SameIn(list, pq.ents, e);
      ghost var ents := pq.ents;
      pq.Push(e);
      AddedSame(list, e, ents, pq.ents);
      Link(e);
    }

    method Link(e: Ent)
      requires Counted() && e !in list
      modifies this`list, this`bytesInFlight, this`info
      ensures Counted() && list == [e] + old(list) && info == [Describe(e)] + old(info)
    {
      list := [e] + list;
      info := [Describe(e)] + info;
      bytesInFlight := bytesInFlight + e.pktLen;
    }

    /** Unlinks an entry from the list and takes it out of the queue. */
    method RemoveAt(i: nat)
      requires Valid() && i < |list|
      modifies this`list, this`bytesInFlight, this`info, pq, pq.q, Elems(list)`index
      ensures Valid() && list == Without(old(list), i) && info == Without(old(info), i) && pq.q == old(pq.q)
    {
      var e := list[i];
      SameIn(list, pq.ents, e);
      ghost var ents := pq.ents;
      pq.Remove(e);
      RemovedSame(list, i, ents, pq.ents);
      Unlink(i);
    }

    method Unlink(i: nat)
      requires Counted() && i < |list|
      modifies this`list, this`bytesInFlight, this`info
      ensures Counted() && list == Without(old(list), i) && info == Without(old(info), i)
    {
      SumWithout(info, i);
      DescribedWithout(list, info, i);
      bytesInFlight := bytesInFlight - list[i].pktLen;
      list := Without(list, i);
      info := Without(info, i);
    }

    /** The entry with the least expiry. */
    method Top() returns (e: Ent?)
      requires Valid()
      ensures e == null <==> list == []
      ensures e != null ==> e in list && pq.ents != [] && e == pq.ents[0]
      ensures e != null ==> forall i :: 0 <= i < |list| ==> e.expiry <= list[i].expiry
    {
      e := pq.Top();
      if e != null {
        SameIn(list, pq.ents, e);
        forall i | 0 <= i < |list| ensures e.expiry <= list[i].expiry {
          SameIn(list, pq.ents, list[i]);
          var j :| 0 <= j < |pq.ents| && pq.ents[j] == list[i];
        }
      }
    }

    /** Takes the entry with the least expiry out. */
    method Pop() returns (e: Ent?, ghost i: nat)
      requires Valid()
      modifies this`list, this`bytesInFlight, this`info, pq, pq.q, Elems(list)`index
      ensures Valid() && pq.q == old(pq.q)
      ensures old(list) == [] ==> e == null && list == [] && info == old(info)
      ensures old(list) != [] ==>
                && i < |old(list)| && e == old(list)[i]
                && list == Without(old(list), i) && info == Without(old(info), i)
                && (forall k :: 0 <= k < |old(list)| ==> e.expiry <= old(list)[k].expiry)
    {
      e := Top();
      if e == null {
        return e, 0;
      }
      SameIn(list, pq.ents, e);
      var k: nat :| k < |list| && list[k] == e;
      i := k;
      PopTop(e, k);
    }

    method PopTop(e: Ent, k: nat)
      requires Valid() && k < |list| && list[k] == e && pq.ents != [] && pq.ents[0] == e
      modifies this`list, this`bytesInFlight, this`info, pq, pq.q, Elems(list)`index
      ensures Valid() && list == Without(old(list), k) && info == Without(old(info), k) && pq.q == old(pq.q)
    {
      ghost var ents := pq.ents;
      pq.Pop();
      RemovedSame(list, k, ents, pq.ents);
      Unlink(k);
    }
  }

  lemma SameIn(s: seq<Ent>, t: seq<Ent>, e: Ent)
    requires SameEnts(s, t)
    ensures e in s <==> e in t
  {
    assert e in Elems(s) <==> e in Elems(t);
  }
}
