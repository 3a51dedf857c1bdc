/**
 The contents of a hash table with chained entries, as a finite map.
 */
module HashChains {
  import opened Bits
  import opened Basics
  import opened Varint

  datatype Entry<V> = Entry(key: nat, value: V)

  type Chain<V> = seq<Entry<V>>

  const FNV_BASIS: nat := 0x811C_9DC5
  const FNV_PRIME: nat := 0x0100_0193

  /** The FNV-1a hash of some octets, in 32 bits. */
  function Fnv(s: seq<byte>): (r: nat)
    ensures r < SPAN32
  {
    if s == [] then FNV_BASIS else Xor(Fnv(s[..|s| - 1]), s[|s| - 1]) * FNV_PRIME % SPAN32
  }

  /** The chain of a key in a table of 2^bits chains. */
  function Bucket(key: nat, bits: nat): (r: nat)
    ensures r < Pow2(bits)
  {
    AndMask(Fnv(BigEndian(key, 8)), bits);
    And(Fnv(BigEndian(key, 8)), Pow2(bits) - 1)
  }

  ghost predicate Has<V>(c: Chain<V>, key: nat) { exists i :: 0 <= i < |c| && c[i].key == key }

  /** The entries of chain `h` are entries of `m` that belong there, each once. */
  ghost predicate ChainOf<V>(c: Chain<V>, h: nat, bits: nat, m: map<nat, V>) {
    && (forall i :: 0 <= i < |c| ==> Bucket(c[i].key, bits) == h && c[i].key in m && m[c[i].key] == c[i].value)
    && (forall i, j :: 0 <= i < j < |c| ==> c[i].key != c[j].key)
  }

  /** The table holds exactly the entries of `m`. */
  ghost predicate Holds<V>(cells: seq<Chain<V>>, bits: nat, m: map<nat, V>) {
    && |cells| == Pow2(bits)
    && (forall h :: 0 <= h < |cells| ==> ChainOf(cells[h], h, bits, m))
    && (forall k :: k in m ==> Has(cells[Bucket(k, bits)], k))
  }

  lemma EmptyHolds<V>(cells: seq<Chain<V>>, bits: nat)
    requires |cells| == Pow2(bits) && forall h :: 0 <= h < |cells| ==> cells[h] == []
    ensures Holds(cells, bits, map[])
  {
  }

  /** A key is in its chain or nowhere. */
  lemma Found<V>(cells: seq<Chain<V>>, bits: nat, m: map<nat, V>, key: nat)
    requires Holds(cells, bits, m)
    ensures key in m <==> Has(cells[Bucket(key, bits)], key)
  {
    var h := Bucket(key, bits);
    assert ChainOf(cells[h], h, bits, m);
  }

  lemma FoundAt<V>(cells: seq<Chain<V>>, bits: nat, m: map<nat, V>, key: nat, i: nat)
    requires Holds(cells, bits, m) && i < |cells[Bucket(key, bits)]| && cells[Bucket(key, bits)][i].key == key
    ensures key in m && m[key] == cells[Bucket(key, bits)][i].value
  {
    var h := Bucket(key, bits);
    assert ChainOf(cells[h], h, bits, m);
  }

  // ----- insertion -----

  lemma HasCons<V>(c: Chain<V>, e: Entry<V>, k: nat)
    ensures Has([e] + c, k) <==> e.key == k || Has(c, k)
  {
    assert forall i :: 0 <= i < |c| ==> ([e] + c)[i + 1] == c[i];
    assert ([e] + c)[0] == e;
  }

  lemma ChainGrows<V>(c: Chain<V>, h: nat, bits: nat, m: map<nat, V>, e: Entry<V>)
    requires ChainOf(c, h, bits, m) && e.key !in m
    ensures ChainOf(c, h, bits, m[e.key := e.value])
    ensures Bucket(e.key, bits) == h ==> ChainOf([e] + c, h, bits, m[e.key := e.value])
  {
  }

  lemma InsertHolds<V>(cells: seq<Chain<V>>, bits: nat, m: map<nat, V>, e: Entry<V>)
    requires Holds(cells, bits, m) && e.key !in m
    ensures var h := Bucket(e.key, bits); Holds(cells[h := [e] + cells[h]], bits, m[e.key := e.value])
  {
    var b := Bucket(e.key, bits);
    var cells', m' := cells[b := [e] + cells[b]], m[e.key := e.value];
    forall h | 0 <= h < |cells| ensures ChainOf(cells'[h], h, bits, m') { ChainGrows(cells[h], h, bits, m, e); }
    forall k | k in m' ensures Has(cells'[Bucket(k, bits)], k) { HasCons(cells[b], e, k); }
  }

  // ----- removal -----

  function Without<V>(c: Chain<V>, i: nat): Chain<V>
    requires i < |c|
  {
    c[..i] + c[i + 1..]
  }

  lemma HasWithout<V>(c: Chain<V>, i: nat, k: nat)
    requires i < |c| && c[i].key != k && Has(c, k)
    ensures Has(Without(c, i), k)
  {
    var j :| 0 <= j < |c| && c[j].key == k;
    assert Without(c, i)[if j < i then j else j - 1] == c[j];
  }

  lemma ChainShrinks<V>(c: Chain<V>, h: nat, bits: nat, m: map<nat, V>, i: nat)
    requires ChainOf(c, h, bits, m) && i < |c|
    ensures ChainOf(Without(c, i), h, bits, m - {c[i].key})
  {
    var d := Without(c, i);
    forall j | 0 <= j < |d| ensures d[j] == c[if j < i then j else j + 1] {
    }
  }

  lemma ChainStays<V>(c: Chain<V>, h: nat, bits: nat, m: map<nat, V>, key: nat)
    requires ChainOf(c, h, bits, m) && Bucket(key, bits) != h
    ensures ChainOf(c, h, bits, m - {key})
  {
  }

  lemma RemoveHolds<V>(cells: seq<Chain<V>>, bits: nat, m: map<nat, V>, key: nat, i: nat)
    requires Holds(cells, bits, m) && i < |cells[Bucket(key, bits)]| && cells[Bucket(key, bits)][i].key == key
    ensures var h := Bucket(key, bits); Holds(cells[h := Without(cells[h], i)], bits, m - {key})
  {
    var b := Bucket(key, bits);
    var cells', m' := cells[b := Without(cells[b], i)], m - {key};
    forall h | 0 <= h < |cells| ensures ChainOf(cells'[h], h, bits, m') {
      if h == b { ChainShrinks(cells[b], b, bits, m, i); } else { ChainStays(cells[h], h, bits, m, key); }
    }
    forall k | k in m' ensures Has(cells'[Bucket(k, bits)], k) {
      if Bucket(k, bits) == b { HasWithout(cells[b], i, k); }
    }
  }

  // ----- growth -----

  /** The entries of `m` that are in the first `n` chains of a table of 2^bits. */
  function Moved<V>(m: map<nat, V>, bits: nat, n: nat): map<nat, V> {
    map k | k in m && Bucket(k, bits) < n :: m[k]
  }

  /** Those, and the first `j` entries of chain `n`. */
  ghost function MovedTo<V>(m: map<nat, V>, bits: nat, n: nat, c: Chain<V>, j: nat): map<nat, V>
    requires j <= |c|
  {
    map k | k in m && (Bucket(k, bits) < n || Has(c[..j], k)) :: m[k]
  }

  lemma MovedNext<V>(m: map<nat, V>, bits: nat, n: nat, c: Chain<V>, j: nat)
    requires j < |c| && ChainOf(c, n, bits, m)
    ensures c[j].key !in MovedTo(m, bits, n, c, j)
    ensures MovedTo(m, bits, n, c, j + 1) == MovedTo(m, bits, n, c, j)[c[j].key := c[j].value]
  {
    var d, d' := c[..j], c[..j + 1];
    assert forall i :: 0 <= i < j ==> d[i] == c[i] && d'[i] == c[i];
    assert d'[j] == c[j];
    assert forall k :: Has(d', k) <==> Has(d, k) || k == c[j].key;
  }

  lemma MovedChain<V>(m: map<nat, V>, bits: nat, n: nat, cells: seq<Chain<V>>)
    requires Holds(cells, bits, m) && n < |cells|
    ensures MovedTo(m, bits, n, cells[n], 0) == Moved(m, bits, n)
    ensures MovedTo(m, bits, n, cells[n], |cells[n]|) == Moved(m, bits, n + 1)
  {
    var c := cells[n];
    assert c[..|c|] == c && c[..0] == [];
    assert ChainOf(c, n, bits, m);
    forall k | k in m ensures Bucket(k, bits) == n <==> Has(c, k) {
      Found(cells, bits, m, k);
      if Has(c, k) {
        var i :| 0 <= i < |c| && c[i].key == k;
      }
    }
  }

  lemma MovedAll<V>(m: map<nat, V>, bits: nat)
    ensures Moved(m, bits, Pow2(bits)) == m && Moved(m, bits, 0) == map[]
  {
  }
}
