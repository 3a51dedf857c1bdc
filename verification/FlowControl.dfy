/**
 Sums over stream histories, and the counting argument behind the limit on
 peer-initiated streams.
 */
module FlowControl {

  /** The sum of all values. */
  ghost function Total(m: map<nat, nat>): nat
    decreases |m|
  {
    if m == map[] then 0 else
    var k :| k in m;
    m[k] + Total(m - {k})
  }

  /** Any entry can be the one taken out first. */
  lemma {:induction false} TotalSplit(m: map<nat, nat>, k: nat)
    requires k in m
    ensures Total(m) == m[k] + Total(m - {k})
    decreases |m|
  {
    var first :| first in m && Total(m) == m[first] + Total(m - {first});
    if first != k {
      TotalSplit(m - {first}, k);
      TotalSplit(m - {k}, first);
      assert m - {first} - {k} == m - {k} - {first};
    }
  }

  lemma TotalUpdate(m: map<nat, nat>, k: nat, v: nat)
    ensures Total(m[k := v]) == Total(m) - (if k in m then m[k] else 0) + v
  {
    TotalSplit(m[k := v], k);
    assert m[k := v] - {k} == m - {k};
    if k in m {
      TotalSplit(m, k);
    } else {
      assert m - {k} == m;
    }
  }

  /** The value at a key, or 0. */
  function At(m: map<nat, nat>, k: nat): nat { if k in m then m[k] else 0 }

  /** Sums are ordered as the values are. */
  lemma {:induction false} TotalMono(m: map<nat, nat>, m': map<nat, nat>)
    requires forall k: nat {:trigger At(m, k)} :: At(m, k) <= At(m', k)
    ensures Total(m) <= Total(m')
    decreases |m|
  {
    if m != map[] {
      var k :| k in m;
      assert At(m, k) <= At(m', k);
      var r, r' := m - {k}, m' - {k};
      forall x: nat ensures At(r, x) <= At(r', x) { assert At(m, x) <= At(m', x); }
      TotalMono(r, r');
      TotalSplit(m, k);
      if k in m' { TotalSplit(m', k); } else { assert r' == m'; }
    }
  }

  /** No more IDs than the limit allows fit below it. */
  lemma {:induction false} BoundedSet(s: set<nat>, n: nat)
    requires forall x :: x in s ==> x < n
    ensures |s| <= n
  {
    if n == 0 {
      assert s == {};
    } else {
      var t := s - {n - 1};
      BoundedSet(t, n - 1);
      assert s <= t + {n - 1};
      SubsetSize(s, t + {n - 1});
    }
  }

  lemma {:induction false} SubsetSize<T>(a: set<T>, b: set<T>)
    requires a <= b
    ensures |a| <= |b|
  {
    if a != {} {
      var x :| x in a;
      SubsetSize(a - {x}, b - {x});
    }
  }

  lemma DisjointSize<T>(a: set<T>, b: set<T>, c: set<T>)
    requires a !! b && a <= c && b <= c
    ensures |a| + |b| <= |c|
  {
    assert |a + b| == |a| + |b|;
    SubsetSize(a + b, c);
  }

  lemma {:induction false} ImageSize(ids: set<nat>, qs: set<nat>, r: nat)
    requires r < 4 && forall id :: id in ids ==> id % 4 == r && id / 4 in qs
    ensures |ids| <= |qs|
  {
    if ids != {} {
      var id :| id in ids;
      var rest := ids - {id};
      forall x | x in rest ensures x / 4 in qs - {id / 4} {
        assert x == 4 * (x / 4) + r && id == 4 * (id / 4) + r;
      }
      ImageSize(rest, qs - {id / 4}, r);
    }
  }

  /**
   The stream IDs of one kind that the peer may use: the advertised limit, the
   limit not yet advertised, and the IDs (divided by four) ever used, currently
   live, and closed.
   */
  datatype IdSpace = IdSpace(initial: nat, max: nat, unsent: nat, used: set<nat>, live: set<nat>, closed: set<nat>)

  ghost predicate ValidIds(s: IdSpace) {
    && s.initial <= s.max <= s.unsent
    && s.unsent <= s.initial + 4 * |s.closed| && s.max % 4 == s.unsent % 4 == s.initial % 4
    && s.live <= s.used && s.closed <= s.used && s.live !! s.closed
    && (forall q :: q in s.used ==> q <= s.max / 4)
  }

  /** At most initial/4 + 1 streams of a kind are live at any time. */
  lemma LiveBound(s: IdSpace)
    requires ValidIds(s)
    ensures |s.live| <= s.initial / 4 + 1
  {
    DisjointSize(s.live, s.closed, s.used);
    BoundedSet(s.used, s.max / 4 + 1);
  }
}
