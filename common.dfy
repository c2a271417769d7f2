/** Small helpers shared by every component: optional values, results of
    operations that can throw, and the sum of the values of a finite map. */
module Common {

  datatype Option<+T> = None | Some(value: T)

  /** The outcome of an operation that either returns a value or throws. */
  datatype Result<+T, +E> = Ok(value: T) | Err(error: E)

  /** Math.min / Math.abs on exact numbers. */
  function Min(x: real, y: real): real { if x <= y then x else y }
  function Abs(x: real): real { if x < 0.0 then -x else x }

  /** The product of two amounts. Written as a function so that a product passed
      to a lemma is recognised as the same term at the call site. */
  function Mul(x: real, y: real): real { x * y }

  /** The quotient of two amounts, for the same reason. */
  function Div(x: real, y: real): real
    requires y != 0.0
  {
    x / y
  }

  /** Multiplying by a non-negative amount keeps the order. */
  lemma MulMono(x: real, y: real, a: real)
    requires x <= y && a >= 0.0
    ensures Mul(x, a) <= Mul(y, a)
  {
    var d := y - x;
    assert d * a >= 0.0;
    assert y * a == x * a + d * a;
  }

  /** The value stored under `k`, or 0 when there is no entry (JavaScript's `m.get(k) || 0`). */
  function Get<K>(m: map<K, real>, k: K): real { if k in m then m[k] else 0.0 }

  /** Sum of the values of a finite map. */
  ghost function Sum<K>(m: map<K, real>): real
    decreases |m|
  {
    if m == map[] then 0.0 else var k :| k in m; m[k] + Sum(m - {k})
  }

  /** Any entry may be taken out first. */
  lemma {:induction false} SumRemove<K>(m: map<K, real>, k: K)
    requires k in m
    ensures Sum(m) == m[k] + Sum(m - {k})
    decreases |m|
  {
    var j :| j in m && Sum(m) == m[j] + Sum(m - {j});
    if j != k {
      SumRemove(m - {j}, k);
      SumRemove(m - {k}, j);
      assert (m - {j}) - {k} == (m - {k}) - {j};
    }
  }

  /** Overwriting (or adding) one entry changes the sum by the difference. */
  lemma SumUpdate<K>(m: map<K, real>, k: K, v: real)
    ensures Sum(m[k := v]) == Sum(m) - Get(m, k) + v
  {
    SumRemove(m[k := v], k);
    assert m[k := v] - {k} == m - {k};
    if k in m {
      SumRemove(m, k);
    } else {
      assert m - {k} == m;
    }
  }

  lemma Decompose<K>(m: map<K, real>, k: K)
    requires k in m
    ensures m == (m - {k})[k := m[k]]
  {
  }

  /** Every entry of `part` is an entry of `m`. */
  predicate Submap<K>(part: map<K, real>, m: map<K, real>) {
    forall k | k in part :: k in m && part[k] == m[k]
  }

  /** Taking one more entry out of the part still to visit adds it to the part visited. */
  lemma DoneStep<K>(m: map<K, real>, rest: map<K, real>, k: K)
    requires k in rest && Submap(rest, m)
    ensures m - (rest - {k}).Keys == (m - rest.Keys)[k := rest[k]]
    ensures (m - (rest - {k}).Keys).Keys == (m - rest.Keys).Keys + {k}
    ensures Submap(rest - {k}, m)
  {
  }

  lemma MergeUpdate<K>(m: map<K, real>, a: map<K, real>, k: K, v: real)
    ensures m + a[k := v] == (m + a)[k := v]
  {
  }

  /** One step of a loop that copies the entries of `m` over `base` in any order. */
  lemma CopyStep<K>(base: map<K, real>, m: map<K, real>, rest: map<K, real>, k: K)
    requires k in rest && Submap(rest, m)
    ensures base + (m - (rest - {k}).Keys) == (base + (m - rest.Keys))[k := rest[k]]
    ensures Submap(rest - {k}, m)
    ensures Sum(rest) == rest[k] + Sum(rest - {k})
    ensures |rest - {k}| < |rest|
  {
    DoneStep(m, rest, k);
    MergeUpdate(base, m - rest.Keys, k, rest[k]);
    SumRemove(rest, k);
  }

  /** A non-empty map has a key to visit next. */
  lemma SomeKey<K>(m: map<K, real>)
    requires m != map[]
    ensures exists k :: k in m
  {
    assert m.Keys != {};
  }

  /** Once nothing is left to visit, everything has been visited. */
  lemma AllVisited<K>(m: map<K, real>, rest: map<K, real>)
    requires rest == map[]
    ensures m - rest.Keys == m
  {
  }

  lemma RemoveOverwritten<K>(m: map<K, real>, k: K, v: real)
    ensures m[k := v] - {k} == m - {k}
  {
  }

  lemma RemoveUpdate<K>(m: map<K, real>, k: K, v: real, p: K)
    requires k != p
    ensures m[k := v] - {p} == (m - {p})[k := v]
  {
  }

  /** A map whose values are all zero sums to zero. */
  lemma {:induction false} SumZero<K>(m: map<K, real>)
    requires forall k | k in m :: m[k] == 0.0
    ensures Sum(m) == 0.0
    decreases |m|
  {
    if m != map[] {
      var k :| k in m;
      SumRemove(m, k);
      SumZero(m - {k});
    }
  }

  /** n copies of c added up. */
  function Scale(n: nat, c: real): real {
    if n == 0 then 0.0 else Scale(n - 1, c) + c
  }

  /** A map whose values all equal c sums to |m| copies of c. */
  lemma {:induction false} ConstantSum<K>(m: map<K, real>, c: real)
    requires forall k | k in m :: m[k] == c
    ensures Sum(m) == Scale(|m|, c)
    decreases |m|
  {
    if m != map[] {
      var k :| k in m;
      var rest := m - {k};
      SumRemove(m, k);
      ConstantSum(rest, c);
      assert rest.Keys == m.Keys - {k};
    }
  }

  lemma {:induction false} ScaleIsProduct(n: nat, c: real)
    ensures Scale(n, c) == Mul(n as real, c)
  {
    if n > 0 {
      ScaleIsProduct(n - 1, c);
    }
  }

  /** `for (const x of m.values()) total += x`. */
  method SumValues<K>(m: map<K, real>) returns (total: real)
    ensures total == Sum(m)
  {
    total := 0.0;
    var rest := m;
    while rest != map[]
      invariant total + Sum(rest) == Sum(m)
      decreases |rest|
    {
      var k :| k in rest;
      SumRemove(rest, k);
      total := total + rest[k];
      rest := rest - {k};
    }
  }
}
