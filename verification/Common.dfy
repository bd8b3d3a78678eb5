/** Vocabulary shared by the models: optional values, dictionary lookups with a default, and
    sums over lists and over dictionaries. */
module Common {

  datatype Option<+T> = None | Some(value: T)

  /** A value, or the error raised instead. */
  datatype Result<+T, +E> = Ok(value: T) | Err(error: E) {
    predicate IsFailure() {
      Err?
    }

    function PropagateFailure<U>(): Result<U, E>
      requires Err?
    {
      Err(error)
    }

    function Extract(): T
      requires Ok?
    {
      value
    }
  }

  type Symbol = string

  type StrategyId = string

  /** A calendar date, as its proleptic Gregorian day number. */
  type Day = int

  /** An instant, in microseconds. */
  type Instant = int

  const MICROS_PER_SECOND: int := 1_000_000

  /** The source's `dict.get(key, default)`. */
  function Get<K(==), V>(m: map<K, V>, k: K, default: V): V {
    if k in m then m[k] else default
  }

  /** A product, named so that proofs can treat it as one term. */
  function Times(qty: real, unit: real): real {
    qty * unit
  }

  lemma TimesDistributes(a: real, b: real, unit: real)
    ensures Times(a + b, unit) == Times(a, unit) + Times(b, unit)
    ensures Times(a - b, unit) == Times(a, unit) - Times(b, unit)
    ensures Times(0.0, unit) == 0.0
  {
  }

  lemma TimesQuotient(q: real, x: real)
    requires q != 0.0
    ensures Times(q, x / q) == x
  {
  }

  lemma TimesMonotone(x: real, y: real, k: real)
    requires x <= y && k > 0.0
    ensures Times(x, k) <= Times(y, k)
    ensures x < y ==> Times(x, k) < Times(y, k)
  {
  }

  lemma TimesCancels(k: real, u: real, v: real)
    requires k > 0.0 && Times(k, u) == Times(k, v)
    ensures u == v
  {
    if u < v {
      TimesMonotone(u, v, k);
    } else if v < u {
      TimesMonotone(v, u, k);
    }
  }

  lemma TimesMonotoneRight(k: real, x: real, y: real)
    requires x <= y && k >= 0.0
    ensures Times(k, x) <= Times(k, y)
  {
  }

  predicate Distinct<T(==)>(xs: seq<T>) {
    forall i, j :: 0 <= i < j < |xs| ==> xs[i] != xs[j]
  }

  predicate NonDecreasing(xs: seq<int>) {
    forall i, j :: 0 <= i < j < |xs| ==> xs[i] <= xs[j]
  }

  function Max(a: real, b: real): real {
    if a < b then b else a
  }

  function Min(a: real, b: real): real {
    if b < a then b else a
  }

  function Abs(a: real): real {
    if a < 0.0 then -a else a
  }

  // ---------------------------------------------------------------------------
  // Sums over dictionaries
  // ---------------------------------------------------------------------------

  ghost function SomeKey<K>(m: map<K, real>): (k: K)
    requires m != map[]
    ensures k in m
  {
    var k :| k in m; k
  }

  /** The sum of the values of a dictionary. `SumValuesRemove` shows that it does not depend on
      the order in which the keys are visited. */
  ghost function SumValues<K>(m: map<K, real>): real
    decreases m.Keys
  {
    if m == map[] then 0.0 else
      var k := SomeKey(m);
      m[k] + SumValues(m - {k})
  }

  lemma {:induction false} SumValuesRemove<K>(m: map<K, real>, k: K)
    requires k in m
    ensures SumValues(m) == m[k] + SumValues(m - {k})
    decreases m.Keys
  {
    var j := SomeKey(m);
    if j != k {
      SumValuesRemove(m - {j}, k);
      SumValuesRemove(m - {k}, j);
      assert m - {j} - {k} == m - {k} - {j};
    }
  }

  lemma SumValuesUpdate<K>(m: map<K, real>, k: K, v: real)
    ensures SumValues(m[k := v]) == SumValues(m) - Get(m, k, 0.0) + v
  {
    SumValuesRemove(m[k := v], k);
    if k in m {
      SumValuesRemove(m, k);
      assert m[k := v] - {k} == m - {k};
    } else {
      assert m[k := v] - {k} == m;
    }
  }

  /** Larger values have the larger sum. */
  lemma {:induction false} SumValuesMonotone<K>(a: map<K, real>, b: map<K, real>)
    requires a.Keys == b.Keys && forall k :: k in a ==> a[k] <= b[k]
    ensures SumValues(a) <= SumValues(b)
    decreases a.Keys
  {
    if a == map[] {
      assert b == map[];
    } else {
      var k := SomeKey(a);
      SumValuesMonotone(a - {k}, b - {k});
      SumValuesRemove(a, k);
      SumValuesRemove(b, k);
    }
  }

  /** Looking a list of keys up in a dictionary, missing keys counting as zero. */
  function ListTotal<K(==)>(keys: seq<K>, m: map<K, real>): real {
    if keys == [] then 0.0 else ListTotal(keys[..|keys| - 1], m) + Get(m, keys[|keys| - 1], 0.0)
  }

  /** A duplicate-free list that covers the dictionary adds up to the sum of its values. */
  lemma {:induction false} ListTotalIsSumValues<K>(keys: seq<K>, m: map<K, real>)
    requires Distinct(keys)
    requires forall k :: k in m ==> k in keys
    ensures ListTotal(keys, m) == SumValues(m)
  {
    if keys == [] {
      assert forall k :: k !in m;
      assert m == map[];
    } else {
      var last := keys[|keys| - 1];
      var front := keys[..|keys| - 1];
      var rest := m - {last};
      ListTotalSkips(front, m, last);
      ListTotalIsSumValues(front, rest);
      if last in m {
        SumValuesRemove(m, last);
      } else {
        assert rest == m;
      }
    }
  }

  lemma {:induction false} ListTotalSkips<K>(keys: seq<K>, m: map<K, real>, k: K)
    requires k !in keys
    ensures ListTotal(keys, m) == ListTotal(keys, m - {k})
  {
    if keys != [] {
      ListTotalSkips(keys[..|keys| - 1], m, k);
    }
  }
}
