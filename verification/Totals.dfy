/** Weighted sums over finite maps: the "exact sum" half of every byte and slot
    account in the native code. */
module Totals {

  datatype Option<+T> = None | Some(value: T)

  /** The sum of `w` over the values of `m`. */
  ghost function Total<K, V>(m: map<K, V>, w: V -> nat): nat
  {
    if m == map[] then 0 else
    var k :| k in m;
    w(m[k]) + Total(m - {k}, w)
  }

  /** The key that is split off first does not matter. */
  lemma {:induction false} TotalRemove<K, V>(m: map<K, V>, k: K, w: V -> nat)
    requires k in m
    ensures Total(m, w) == w(m[k]) + Total(m - {k}, w)
    decreases |m|
  {
    var j :| j in m && Total(m, w) == w(m[j]) + Total(m - {j}, w);
    if j != k {
      TotalRemove(m - {j}, k, w);
      TotalRemove(m - {k}, j, w);
      assert m - {j} - {k} == m - {k} - {j};
    }
  }

  lemma TotalUpdate<K, V>(m: map<K, V>, k: K, v: V, w: V -> nat)
    ensures Total(m[k := v], w) == Total(m - {k}, w) + w(v)
    ensures k !in m ==> Total(m[k := v], w) == Total(m, w) + w(v)
    ensures k in m ==> Total(m[k := v], w) + w(m[k]) == Total(m, w) + w(v)
  {
    TotalRemove(m[k := v], k, w);
    assert m[k := v] - {k} == m - {k};
    if k in m {
      TotalRemove(m, k, w);
    } else {
      assert m - {k} == m;
    }
  }

  /** A summand never exceeds its sum. */
  lemma TotalAtLeast<K, V>(m: map<K, V>, k: K, w: V -> nat)
    requires k in m
    ensures w(m[k]) <= Total(m, w)
  {
    TotalRemove(m, k, w);
  }

  /** A sum whose every summand is zero is zero, and conversely. */
  lemma {:induction false} TotalZero<K, V>(m: map<K, V>, w: V -> nat)
    ensures Total(m, w) == 0 <==> forall k :: k in m ==> w(m[k]) == 0
    decreases |m|
  {
    if m != map[] {
      var k :| k in m;
      TotalRemove(m, k, w);
      TotalZero(m - {k}, w);
      assert forall j :: j in m ==> j == k || (j in m - {k} && (m - {k})[j] == m[j]);
      assert forall j :: j in m - {k} ==> j in m && (m - {k})[j] == m[j];
    }
  }

  /** Sums agree when the weights agree on the values present. */
  lemma {:induction false} TotalSame<K, V>(m: map<K, V>, n: map<K, V>, w: V -> nat)
    requires m.Keys == n.Keys
    requires forall k :: k in m ==> w(m[k]) == w(n[k])
    ensures Total(m, w) == Total(n, w)
    decreases |m|
  {
    if m != map[] {
      var k :| k in m;
      TotalRemove(m, k, w);
      TotalRemove(n, k, w);
      assert (m - {k}).Keys == (n - {k}).Keys;
      TotalSame(m - {k}, n - {k}, w);
    } else {
      assert n == map[];
    }
  }

  /** The size of a map is the sum of ones over it. */
  lemma {:induction false} TotalOnes<K, V>(m: map<K, V>, w: V -> nat)
    requires forall k :: k in m ==> w(m[k]) <= 1
    ensures Total(m, w) <= |m|
    decreases |m|
  {
    if m != map[] {
      var k :| k in m;
      TotalRemove(m, k, w);
      TotalOnes(m - {k}, w);
    }
  }
}
