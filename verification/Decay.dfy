/** Exponential decay over whole microseconds, and sums over finite maps. */
module Decay {

  /** The decay of one microsecond: exp(-rate / 86400000000), any positive real. */
  type Factor = q: real | 0.0 < q witness 1.0

  /** Multiplication of reals under a name, so that proofs can hide it and use only the laws below. */
  function Times(x: real, y: real): real {
    x * y
  }

  lemma TimesDistributes(x: real, y: real, c: real)
    ensures Times(x + y, c) == Times(x, c) + Times(y, c)
  {}

  lemma TimesAssociates(x: real, y: real, z: real)
    ensures Times(Times(x, y), z) == Times(x, Times(y, z))
  {}

  lemma TimesUnits(x: real)
    ensures Times(0.0, x) == 0.0 && Times(1.0, x) == x && Times(x, 1.0) == x
  {}

  lemma TimesCommutes(x: real, y: real)
    ensures Times(x, y) == Times(y, x)
  {}

  lemma TimesMonotone(x: real, y: real, c: real)
    requires x <= y && 0.0 < c
    ensures Times(x, c) <= Times(y, c)
  {}

  function Pow(q: Factor, n: nat): (r: real)
    ensures r > 0.0
  {
    if n == 0 then 1.0 else Times(q, Pow(q, n - 1))
  }

  lemma {:induction false} PowAdd(q: Factor, a: nat, b: nat)
    ensures Pow(q, a + b) == Times(Pow(q, a), Pow(q, b))
  {
    hide Times;
    if a == 0 {
      TimesUnits(Pow(q, b));
    } else {
      PowAdd(q, a - 1, b);
      TimesAssociates(q, Pow(q, a - 1), Pow(q, b));
    }
  }

  /** From one on, every power has moved to the side of one that the factor is on. */
  lemma {:induction false} PowAside(q: Factor, n: nat)
    requires n > 0
    ensures (q < 1.0 ==> Pow(q, n) < 1.0) && (q == 1.0 ==> Pow(q, n) == 1.0) && (q > 1.0 ==> Pow(q, n) > 1.0)
  {
    if n > 1 {
      PowAside(q, n - 1);
      TimesStrict(Pow(q, n - 1), 1.0, q);
      TimesStrict(1.0, Pow(q, n - 1), q);
    } else {
      assert Pow(q, 0) == 1.0;
    }
  }

  lemma TimesStrict(x: real, y: real, c: real)
    requires 0.0 < c
    ensures x < y ==> Times(c, x) < Times(c, y)
    ensures Times(c, 1.0) == c
  {}

  /** Unless there is no decay, different times decay differently. */
  lemma PowInjective(q: Factor, a: nat, b: nat)
    ensures Pow(q, a) == Pow(q, b) <==> q == 1.0 || a == b
  {
    var low, high := if a < b then a else b, if a < b then b else a;
    if low < high {
      PowAdd(q, low, high - low);
      PowAside(q, high - low);
      TimesStrict(Pow(q, high - low), 1.0, Pow(q, low));
      TimesStrict(1.0, Pow(q, high - low), Pow(q, low));
    }
  }

  /** The sum of all values of a map. */
  ghost function Total<K>(m: map<K, real>): real {
    if m == map[] then 0.0
    else
      var k :| k in m;
      m[k] + Total(m - {k})
  }

  /** The sum does not depend on which key is taken first. */
  lemma {:induction false} TotalPick<K>(m: map<K, real>, k: K)
    requires k in m
    ensures Total(m) == m[k] + Total(m - {k})
    decreases |m|
  {
    var j :| j in m && Total(m) == m[j] + Total(m - {j});
    if j != k {
      TotalPick(m - {j}, k);
      TotalPick(m - {k}, j);
      assert m - {j} - {k} == m - {k} - {j};
    }
  }

  lemma TotalInsert<K>(m: map<K, real>, k: K, v: real)
    requires k !in m
    ensures Total(m[k := v]) == Total(m) + v
  {
    TotalPick(m[k := v], k);
    assert m[k := v] - {k} == m;
  }

  /** Multiplying every value of a map multiplies its sum. */
  lemma {:induction false} TotalScaled<K>(m: map<K, real>, n: map<K, real>, c: real)
    requires m.Keys == n.Keys
    requires forall k | k in m :: n[k] == Times(m[k], c)
    ensures Total(n) == Times(Total(m), c)
    decreases |m|
  {
    hide Times;
    if m == map[] {
      TimesUnits(c);
      assert n == map[];
    } else {
      var k :| k in m;
      TotalPick(m, k);
      TotalPick(n, k);
      TotalScaled(m - {k}, n - {k}, c);
      TimesDistributes(m[k], Total(m - {k}), c);
    }
  }
}
