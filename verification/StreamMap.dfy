/**
 The hash table of the streams of a connection.
 */
module StreamMap {
  import opened Bits
  import opened Basics
  import opened Varint
  import opened HashChains

  const INITIAL_BITS: nat := 8

  /** The table is not full to three quarters, as computed in 32 bits. */
  predicate HasRoom(size: nat, len: nat) { (size + 1) * 4 <= len * 3 % SPAN32 }

  lemma {:induction false} FnvNext(s: seq<byte>, i: nat)
    requires i < |s|
    ensures Fnv(s[..i + 1]) == Xor(Fnv(s[..i]), s[i]) * FNV_PRIME % SPAN32
  {
    assert s[..i + 1][..i] == s[..i];
  }

  method Hash(key: nat, len: nat, ghost bits: nat) returns (h: nat)
    requires len == Pow2(bits)
    ensures h == Bucket(key, bits)
  {
    var s := BigEndian(key, 8);
    h := FNV_BASIS;
    for i := 0 to |s|
      invariant h == Fnv(s[..i])
    {
      FnvNext(s, i);
      h := Xor(h, s[i]);
      h := h * FNV_PRIME % SPAN32;
    }
    assert s[..|s|] == s;
    h := And(h, len - 1);
  }

  /** The place of a key in a chain, or its length. */
  method Search<V>(c: Chain<V>, key: nat) returns (i: nat)
    ensures i <= |c| && (i < |c| <==> Has(c, key)) && (i < |c| ==> c[i].key == key)
  {
    i := 0;
    while i < |c| && c[i].key != key
      invariant i <= |c|
      invariant forall j :: 0 <= j < i ==> c[j].key != key
    {
      i := i + 1;
    }
  }

  /** Puts an entry in front of its chain, unless its key is there. */
  method InsertInto<V>(table: array<Chain<V>>, e: Entry<V>, ghost bits: nat, ghost m: map<nat, V>) returns (ok: bool)
    requires Holds(table[..], bits, m)
    modifies table
    ensures ok <==> e.key !in m
    ensures Holds(table[..], bits, if ok then m[e.key := e.value] else m)
    ensures !ok ==> table[..] == old(table[..])
  {
    var h := Hash(e.key, table.Length, bits);
    Found(table[..], bits, m, e.key);
    var i := Search(table[h], e.key);
    ok := i == |table[h]|;
    if ok {
      InsertHolds(table[..], bits, m, e);
      ghost var want := table[..][h := [e] + table[h]];
      table[h] := [e] + table[h];
      assert table[..] == want;
    }
  }

  /** Moves the entries of a chain to a new table. */
  method MoveChain<V>(table: array<Chain<V>>, c: Chain<V>, ghost bits': nat, ghost m: map<nat, V>, ghost bits: nat, ghost n: nat)
    requires ChainOf(c, n, bits, m) && Holds(table[..], bits', MovedTo(m, bits, n, c, 0))
    modifies table
    ensures Holds(table[..], bits', MovedTo(m, bits, n, c, |c|))
  {
    for j := 0 to |c|
      invariant Holds(table[..], bits', MovedTo(m, bits, n, c, j))
    {
      MovedNext(m, bits, n, c, j);
      var ok := InsertInto(table, c[j], bits', MovedTo(m, bits, n, c, j));
      assert ok;
    }
  }

  /** Moves the entries of a table to an empty one. */
  method MoveAll<V>(table: array<Chain<V>>, next: array<Chain<V>>, ghost bits': nat, ghost m: map<nat, V>, ghost bits: nat)
    requires table != next && Holds(table[..], bits, m) && Holds(next[..], bits', map[])
    modifies next
    ensures Holds(next[..], bits', m)
  {
    ghost var cells := table[..];
    MovedAll(m, bits);
    for i := 0 to table.Length
      invariant table[..] == cells && Holds(next[..], bits', Moved(m, bits, i))
    {
      MovedChain(m, bits, i, cells);
      assert ChainOf(cells[i], i, bits, m);
      MoveChain(next, table[i], bits', m, bits, i);
    }
  }

  /** Takes the entry of a key out of its chain. */
  method RemoveFrom<V>(table: array<Chain<V>>, key: nat, ghost bits: nat, ghost m: map<nat, V>) returns (ok: bool)
    requires Holds(table[..], bits, m)
    modifies table
    ensures ok <==> key in m
    ensures Holds(table[..], bits, m - {key})
  {
    var h := Hash(key, table.Length, bits);
    var c := table[h];
    Found(table[..], bits, m, key);
    var i := Search(c, key);
    ok := i < |c|;
    if ok {
      RemoveHolds(table[..], bits, m, key, i);
      ghost var want := table[..][h := Without(c, i)];
      table[h] := c[..i] + c[i + 1..];
      assert table[..] == want;
    } else {
      assert m - {key} == m;
    }
  }

  lemma RoomEnough(size: nat, len: nat)
    requires 256 <= len && size * 4 <= len * 3
    ensures (size + 1) * 4 <= len * 2 * 3 && (HasRoom(size, len) ==> (size + 1) * 4 <= len * 3)
  {
    assert len * 3 % SPAN32 <= len * 3;
  }

  class StreamTable<V> {
    var table: array<Chain<V>>
    var size: nat
    ghost var bits: nat
    ghost var contents: map<nat, V>

    /** The table holds the contents; its length is a power of two and at least 4/3 of their number. */
    ghost predicate Valid()
      reads this, table
    {
      && Holds(table[..], bits, contents)
      && 256 <= table.Length < SPAN32
      && size == |contents|
      && size * 4 <= table.Length * 3
    }

    constructor ()
      ensures Valid() && fresh(table) && contents == map[]
    {
      size, bits, contents := 0, INITIAL_BITS, map[];
      table := new Chain<V>[256](_ => []);
      new;
      assert Pow2(8) == 256;
      EmptyHolds(table[..], bits);
    }

    method Find(key: nat) returns (r: seq<V>)
      requires Valid()
      ensures r == if key in contents then [contents[key]] else []
    {
      var h := Hash(key, table.Length, bits);
      var c := table[h];
      Found(table[..], bits, contents, key);
      var i := Search(c, key);
      r := [];
      if i < |c| {
        FoundAt(table[..], bits, contents, key, i);
        r := [c[i].value];
      }
    }

    /** Moves all entries to a table twice as long. */
    method Grow()
      requires Holds(table[..], bits, contents) && table.Length * 2 < SPAN32
      modifies this
      ensures Holds(table[..], bits, contents) && fresh(table) && table.Length == old(table.Length) * 2
      ensures contents == old(contents) && size == old(size)
    {
      var next := new Chain<V>[table.Length * 2](_ => []);
      EmptyHolds(next[..], bits + 1);
      MoveAll(table, next, bits + 1, contents, bits);
      table, bits := next, bits + 1;
    }

    /** Adds an entry, unless its key is there; in a table that has no room, after doubling it. */
    method Insert(key: nat, value: V) returns (ok: bool)
      requires Valid() && (HasRoom(size, table.Length) || table.Length * 2 < SPAN32)
      modifies this, table
      ensures Valid() && (table == old(table) || fresh(table))
      ensures ok <==> key !in old(contents)
      ensures contents == if ok then old(contents)[key := value] else old(contents)
      ensures table.Length == old(if HasRoom(size, table.Length) then table.Length else table.Length * 2)
    {
      RoomEnough(size, table.Length);
      if !HasRoom(size, table.Length) {
        Grow();
      }
      ok := InsertInto(table, Entry(key, value), bits, contents);
      if ok {
        size, contents := size + 1, contents[key := value];
      }
    }

    /** Removes the entry of a key, if there is one. */
    method Remove(key: nat) returns (ok: bool)
      requires Valid()
      modifies this, table
      ensures Valid() && table == old(table)
      ensures ok <==> key in old(contents)
      ensures contents == old(contents) - {key}
    {
      ghost var m := contents - {key};
      FewerKeys(contents, key);
      ok := RemoveFrom(table, key, bits, contents);
      ghost var cells := table[..];
      size, contents := if ok then size - 1 else size, m;
      assert table[..] == cells;
    }
  }

  lemma FewerKeys<V>(m: map<nat, V>, key: nat)
    ensures |m - {key}| == if key in m then |m| - 1 else |m|
  {
    assert (m - {key}).Keys == m.Keys - {key};
    if key in m { assert |m.Keys - {key}| == |m.Keys| - 1; } else { assert m.Keys - {key} == m.Keys; }
    assert |m| == |m.Keys| && |m - {key}| == |(m - {key}).Keys|;
  }
}
