/** Sums over the values of a finite map. */
module Sums {

  ghost predicate Swaps<N>(add: (N, N) -> N, x: N, y: N, z: N) {
    add(x, add(y, z)) == add(y, add(x, z))
  }

  /** Any two terms can change places. */
  ghost predicate Exchanges<N(!new)>(add: (N, N) -> N) {
    forall x, y, z :: Swaps(add, x, y, z)
  }

  ghost function SumOf<K, N>(m: map<K, N>, zero: N, add: (N, N) -> N): N
    decreases |m|
  {
    if m == map[] then zero
    else
      var k :| k in m;
      add(m[k], SumOf(m - {k}, zero, add))
  }

  lemma SumOfFirst<K, N>(m: map<K, N>, zero: N, add: (N, N) -> N) returns (p: K)
    requires m != map[]
    ensures p in m && SumOf(m, zero, add) == add(m[p], SumOf(m - {p}, zero, add))
  {
    p :| p in m && SumOf(m, zero, add) == add(m[p], SumOf(m - {p}, zero, add));
  }

  /** Any key can be taken out first. */
  lemma {:induction false} SumOfRemove<K, N(!new)>(m: map<K, N>, k: K, zero: N, add: (N, N) -> N)
    requires Exchanges(add) && k in m
    ensures SumOf(m, zero, add) == add(m[k], SumOf(m - {k}, zero, add))
    decreases |m|
  {
    var p := SumOfFirst(m, zero, add);
    if p != k {
      SumOfRemove(m - {p}, k, zero, add);
      SumOfRemove(m - {k}, p, zero, add);
      assert m - {p} - {k} == m - {k} - {p};
      assert Swaps(add, m[p], m[k], SumOf(m - {k} - {p}, zero, add));
    }
  }

  function AddInt(a: int, b: int): int {
    a + b
  }

  function AddReal(a: real, b: real): real {
    a + b
  }

  ghost function IntSum<K>(m: map<K, int>): int {
    SumOf(m, 0, AddInt)
  }

  ghost function RealSum<K>(m: map<K, real>): real {
    SumOf(m, 0.0, AddReal)
  }

  lemma IntSumRemove<K>(m: map<K, int>, k: K)
    requires k in m
    ensures IntSum(m) == m[k] + IntSum(m - {k})
  {
    SumOfRemove(m, k, 0, AddInt);
  }

  lemma RealSumRemove<K>(m: map<K, real>, k: K)
    requires k in m
    ensures RealSum(m) == m[k] + RealSum(m - {k})
  {
    SumOfRemove(m, k, 0.0, AddReal);
  }
}
