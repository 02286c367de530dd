/** Vocabulary shared by every pallet of the runtime: 128-bit balances, the
    three ways a call can end, and sums over storage maps. */
module Primitives {

  type AccountId = nat
  type AssetId = nat

  /** Largest value of the runtime's `Balance`, an unsigned 128-bit integer. */
  const MAX_BALANCE: nat := 0xFFFF_FFFF_FFFF_FFFF_FFFF_FFFF_FFFF_FFFF

  /** `Failed` is an `Err` returned by a call: whatever was written before it
      stays written.  `Aborted` is a panic (`expect`, `unwrap`, or arithmetic
      outside the 128-bit range): the block executor throws the call's writes away. */
  datatype Outcome = Done | Failed(reason: string) | Aborted

  datatype Option<+T> = None | Some(value: T)

  function Min(a: int, b: int): int { if a <= b then a else b }

  function Max(a: int, b: int): int { if a >= b then a else b }

  // ---------------------------------------------------------------- storage maps

  /** A storage map whose missing keys read as the default balance 0. */
  function Get<K>(m: map<K, nat>, k: K): nat { if k in m then m[k] else 0 }

  /** A write to such a map, and how every key reads afterwards. */
  function With<K(!new)>(m: map<K, nat>, k: K, v: nat): (r: map<K, nat>)
    ensures forall j :: Get(r, j) == if j == k then v else Get(m, j)
  {
    m[k := v]
  }

  /** The sum of all values of a storage map. */
  ghost function Sum<K>(m: map<K, nat>): nat
  {
    if m == map[] then 0
    else
      var k :| k in m;
      m[k] + Sum(m - {k})
  }

  /** The sum does not depend on the key taken out first. */
  lemma {:induction false} SumTake<K>(m: map<K, nat>, k: K)
    requires k in m
    ensures Sum(m) == m[k] + Sum(m - {k})
    decreases |m|
  {
    var j :| j in m && Sum(m) == m[j] + Sum(m - {j});
    if j != k {
      SumTake(m - {j}, k);
      SumTake(m - {k}, j);
      assert (m - {j}) - {k} == (m - {k}) - {j};
    }
  }

  lemma SumSet<K>(m: map<K, nat>, k: K, v: nat)
    ensures Sum(m[k := v]) == Sum(m) - Get(m, k) + v
  {
    var m' := m[k := v];
    SumTake(m', k);
    assert m' - {k} == m - {k};
    if k in m {
      SumTake(m, k);
    } else {
      assert m - {k} == m;
    }
  }

  lemma SumRemove<K>(m: map<K, nat>, k: K)
    ensures Sum(m - {k}) == Sum(m) - Get(m, k)
  {
    if k in m {
      SumTake(m, k);
    } else {
      assert m - {k} == m;
    }
  }

  lemma SumBoundsOne<K>(m: map<K, nat>, k: K)
    ensures Get(m, k) <= Sum(m)
  {
    if k in m { SumTake(m, k); }
  }

  lemma SumBoundsTwo<K>(m: map<K, nat>, j: K, k: K)
    requires j != k
    ensures Get(m, j) + Get(m, k) <= Sum(m)
  {
    if j in m {
      SumTake(m, j);
      SumBoundsOne(m - {j}, k);
    } else {
      SumBoundsOne(m, k);
    }
  }

  // ---------------------------------------------------------------- sequences and products

  function SumSeq(s: seq<nat>): nat { if s == [] then 0 else s[0] + SumSeq(s[1..]) }

  lemma {:induction false} SumAppend(s: seq<nat>, x: nat)
    ensures SumSeq(s + [x]) == SumSeq(s) + x
  {
    if s == [] {
      assert [x][1..] == [];
    } else {
      SumAppend(s[1..], x);
      assert (s + [x])[1..] == s[1..] + [x];
    }
  }

  lemma MulMono(a: int, b: int, c: nat)
    requires a <= b
    ensures a * c <= b * c
  {
  }

  lemma MulCancel(a: int, b: int, c: nat)
    requires c > 0 && a * c <= b * c
    ensures a <= b
  {
    if b < a { MulMono(b + 1, a, c); }
  }

  lemma QuotientIs(n: nat, d: nat, q: nat)
    requires d > 0 && q * d <= n < q * d + d
    ensures n / d == q
  {
    var q' := n / d;
    assert n == q' * d + n % d;
    if q' < q { MulMono(q' + 1, q, d); }
    if q' > q { MulMono(q + 1, q', d); }
  }
}
