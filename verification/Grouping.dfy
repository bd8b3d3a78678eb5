/** Sums over groups of a dictionary, independent of the order in which it is visited. */
module Grouping {
  import opened Common

  /** The label of `k`, or the default label. */
  function LabelOf<K(==)>(labels: map<K, string>, default: string, k: K): string {
    Get(labels, k, default)
  }

  function Members<K(==)>(m: map<K, real>, labels: map<K, string>, default: string, g: string): map<K, real> {
    map k | k in m && LabelOf(labels, default, k) == g :: m[k]
  }

  function Labels<K(==)>(m: map<K, real>, labels: map<K, string>, default: string): set<string> {
    set k | k in m :: LabelOf(labels, default, k)
  }

  ghost function GroupSum<K>(m: map<K, real>, labels: map<K, string>, default: string, g: string): real {
    SumValues(Members(m, labels, default, g))
  }

  /** One total per group of `m`, for the groups in `gs`. */
  ghost function GroupSums<K>(m: map<K, real>, labels: map<K, string>, default: string, gs: set<string>)
    : map<string, real>
  {
    map g | g in gs :: GroupSum(m, labels, default, g)
  }

  lemma GroupSumOfNew<K>(m: map<K, real>, labels: map<K, string>, default: string, k: K, v: real, g: string)
    requires k !in m
    ensures GroupSum(m[k := v], labels, default, g)
         == GroupSum(m, labels, default, g) + if LabelOf(labels, default, k) == g then v else 0.0
  {
    var before := Members(m, labels, default, g);
    var after := Members(m[k := v], labels, default, g);
    if LabelOf(labels, default, k) == g {
      assert after == before[k := v];
      SumValuesUpdate(before, k, v);
    } else {
      assert after == before;
    }
  }

  lemma LabelsOfNew<K>(m: map<K, real>, labels: map<K, string>, default: string, k: K, v: real)
    ensures Labels(m[k := v], labels, default) == Labels(m, labels, default) + {LabelOf(labels, default, k)}
  {
    var after := m[k := v];
    forall g | g in Labels(m, labels, default) ensures g in Labels(after, labels, default) {
      var j :| j in m && LabelOf(labels, default, j) == g;
      assert j in after;
    }
    assert k in after;
  }

  lemma EmptyGroup<K>(m: map<K, real>, labels: map<K, string>, default: string, g: string)
    requires g !in Labels(m, labels, default)
    ensures Members(m, labels, default, g) == map[]
    ensures GroupSum(m, labels, default, g) == 0.0
  {
    assert Members(m, labels, default, g) == map[];
  }

  lemma OneGroupGrows<K>(m: map<K, real>, labels: map<K, string>, default: string, gs: set<string>, k: K, v: real)
    requires k !in m && LabelOf(labels, default, k) in gs
    ensures var g0 := LabelOf(labels, default, k);
      GroupSums(m[k := v], labels, default, gs)
        == GroupSums(m, labels, default, gs)[g0 := GroupSum(m, labels, default, g0) + v]
  {
    forall g | g in gs
      ensures GroupSum(m[k := v], labels, default, g)
           == GroupSum(m, labels, default, g) + if LabelOf(labels, default, k) == g then v else 0.0
    {
      GroupSumOfNew(m, labels, default, k, v, g);
    }
  }

  lemma GroupSumsOfNew<K>(m: map<K, real>, labels: map<K, string>, default: string, gs: set<string>, k: K, v: real)
    requires k !in m && LabelOf(labels, default, k) in gs
    ensures SumValues(GroupSums(m[k := v], labels, default, gs))
         == SumValues(GroupSums(m, labels, default, gs)) + v
  {
    var g0 := LabelOf(labels, default, k);
    OneGroupGrows(m, labels, default, gs, k, v);
    SumValuesUpdate(GroupSums(m, labels, default, gs), g0, GroupSum(m, labels, default, g0) + v);
  }

  /** Groups partition: the group totals add up to the whole, for any covering set of groups. */
  lemma {:induction false} GroupsPartition<K>(m: map<K, real>, labels: map<K, string>, default: string, gs: set<string>)
    requires Labels(m, labels, default) <= gs
    ensures SumValues(GroupSums(m, labels, default, gs)) == SumValues(m)
    decreases m.Keys
  {
    if m == map[] {
      forall g | g in gs ensures GroupSum(m, labels, default, g) == 0.0 {
        assert Members(m, labels, default, g) == map[];
      }
      AllZero(GroupSums(m, labels, default, gs));
    } else {
      var k := SomeKey(m);
      assert LabelOf(labels, default, k) in Labels(m, labels, default);
      assert Labels(m - {k}, labels, default) <= Labels(m, labels, default);
      GroupsPartition(m - {k}, labels, default, gs);
      GroupSumsOfNew(m - {k}, labels, default, gs, k, m[k]);
      assert m == (m - {k})[k := m[k]];
    }
  }

  lemma {:induction false} AllZero<K>(m: map<K, real>)
    requires forall k :: k in m ==> m[k] == 0.0
    ensures SumValues(m) == 0.0
    decreases m.Keys
  {
    if m != map[] {
      AllZero(m - {SomeKey(m)});
    }
  }

  lemma {:induction false} SumOfNonNegative<K>(m: map<K, real>)
    requires forall k :: k in m ==> m[k] >= 0.0
    ensures SumValues(m) >= 0.0
    ensures forall k :: k in m ==> m[k] <= SumValues(m)
    decreases m.Keys
  {
    if m != map[] {
      var j := SomeKey(m);
      SumOfNonNegative(m - {j});
      forall k | k in m ensures m[k] <= SumValues(m) {
        if k != j {
          assert k in m - {j};
        }
      }
    }
  }

  /** Dictionaries with no key in common add up. */
  lemma {:induction false} SumOfDisjoint<K>(a: map<K, real>, b: map<K, real>)
    requires a.Keys !! b.Keys
    ensures SumValues(a + b) == SumValues(a) + SumValues(b)
    decreases b.Keys
  {
    if b == map[] {
      assert a + b == a;
    } else {
      var k := SomeKey(b);
      SumOfDisjoint(a, b - {k});
      assert (a + b) - {k} == a + (b - {k});
      SumValuesRemove(a + b, k);
    }
  }

  /** The sum of two dictionaries on the same keys. */
  lemma {:induction false} SumOfSums<K>(a: map<K, real>, b: map<K, real>, c: map<K, real>)
    requires a.Keys == b.Keys == c.Keys
    requires forall k :: k in c ==> c[k] == a[k] + b[k]
    ensures SumValues(c) == SumValues(a) + SumValues(b)
    decreases c.Keys
  {
    if c != map[] {
      var k := SomeKey(c);
      SumValuesRemove(a, k);
      SumValuesRemove(b, k);
      SumOfSums(a - {k}, b - {k}, c - {k});
    } else {
      assert a == map[] && b == map[];
    }
  }

  // ---------------------------------------------------------------------------
  // Weights and concentration
  // ---------------------------------------------------------------------------

  function Weights<K(==)>(m: map<K, real>, total: real): map<K, real>
    requires total != 0.0
  {
    map k | k in m :: m[k] / total
  }

  function Squares<K(==)>(m: map<K, real>): map<K, real> {
    map k | k in m :: Times(m[k], m[k])
  }

  lemma {:induction false} SumOfWeights<K>(m: map<K, real>, total: real)
    requires total != 0.0
    ensures Times(total, SumValues(Weights(m, total))) == SumValues(m)
    decreases m.Keys
  {
    if m == map[] {
      assert Weights(m, total) == map[];
    } else {
      var k := SomeKey(m);
      var w := Weights(m, total);
      SumOfWeights(m - {k}, total);
      SumValuesRemove(w, k);
      assert w - {k} == Weights(m - {k}, total);
      TimesQuotient(total, m[k]);
      assert Times(total, w[k] + SumValues(w - {k})) == Times(total, w[k]) + Times(total, SumValues(w - {k}));
    }
  }

  /** The weights' squares are those of the values over the squared total. */
  lemma {:induction false} SquaresOfWeights<K>(m: map<K, real>, total: real)
    requires total != 0.0
    ensures Times(SumValues(Squares(Weights(m, total))), Times(total, total)) == SumValues(Squares(m))
    decreases m.Keys
  {
    var w := Weights(m, total);
    if m == map[] {
      assert w == map[] && Squares(w) == map[] && Squares(m) == map[];
    } else {
      var k := SomeKey(m);
      SquaresOfWeights(m - {k}, total);
      assert w - {k} == Weights(m - {k}, total);
      SquaresOfRest(m, k);
      SquaresOfRest(w, k);
      TimesQuotient(total, m[k]);
      SquareOfProduct(w[k], total, m[k]);
      TimesDistributes(Times(w[k], w[k]), SumValues(Squares(w - {k})), Times(total, total));
    }
  }

  lemma SquareOfProduct(w: real, total: real, x: real)
    requires Times(total, w) == x
    ensures Times(Times(w, w), Times(total, total)) == Times(x, x)
  {
    assert Times(x, x) == Times(Times(total, w), Times(total, w));
  }

  /** What one more value adds to the squared distances from `c`: never less than nothing. */
  lemma SquareStep(x: real, sum: real, c: real, n: real)
    ensures Times(x, x) - 2.0 * Times(c, x + sum) + Times(n + 1.0, Times(c, c))
         >= -2.0 * Times(c, sum) + Times(n, Times(c, c))
  {
    var gap := x - c;
    assert gap * gap >= 0.0;
    assert Times(x, x) - 2.0 * Times(c, x) + Times(c, c) == gap * gap;
  }

  /** For every constant `c`, the squared distances to it are not negative in total. */
  lemma {:induction false} SquaresAround<K>(m: map<K, real>, c: real)
    ensures SumValues(Squares(m)) - 2.0 * Times(c, SumValues(m)) + Times(|m| as real, Times(c, c)) >= 0.0
    decreases m.Keys
  {
    if m == map[] {
      assert Squares(m) == map[];
    } else {
      var k := SomeKey(m);
      var rest := m - {k};
      SquaresAround(rest, c);
      SquaresOfRest(m, k);
      SquareStep(m[k], SumValues(rest), c, |rest| as real);
    }
  }

  lemma SquaresOfRest<K>(m: map<K, real>, k: K)
    requires k in m
    ensures SumValues(Squares(m)) == Times(m[k], m[k]) + SumValues(Squares(m - {k}))
    ensures SumValues(m) == m[k] + SumValues(m - {k})
    ensures |m| == |m - {k}| + 1
  {
    SumValuesRemove(Squares(m), k);
    SumValuesRemove(m, k);
    SquaresWithout(m, k);
    assert m.Keys == (m - {k}).Keys + {k};
  }

  lemma SquaresWithout<K>(m: map<K, real>, k: K)
    ensures Squares(m) - {k} == Squares(m - {k})
  {
  }

  lemma BelowStep(x: real, sum: real, top: real)
    requires 0.0 <= x <= top
    ensures Times(x, x) + Times(top, sum) <= Times(top, x + sum)
  {
    assert x * x <= top * x;
    assert Times(top, x + sum) == top * x + top * sum;
  }

  lemma NoSquares<K>(m: map<K, real>, top: real)
    requires m == map[]
    ensures SumValues(Squares(m)) == 0.0 == Times(top, SumValues(m))
  {
    assert Squares(m) == map[];
  }

  lemma {:induction false} SquaresBelow<K>(m: map<K, real>, top: real)
    requires forall k :: k in m ==> 0.0 <= m[k] <= top
    ensures SumValues(Squares(m)) <= Times(top, SumValues(m))
    decreases m.Keys
  {
    hide SumValues, Squares, Times;
    if m == map[] {
      NoSquares(m, top);
    } else {
      var k := SomeKey(m);
      SquaresBelow(m - {k}, top);
      SquaresOfRest(m, k);
      BelowStep(m[k], SumValues(m - {k}), top);
    }
  }

  /** Cauchy-Schwarz for weights: n of them, summing to one, have squares summing to at least 1/n
      and at most their largest. */
  lemma ConcentrationBounds<K>(w: map<K, real>, top: real)
    requires w != map[] && SumValues(w) == 1.0
    requires forall k :: k in w ==> 0.0 <= w[k] <= top
    requires exists k :: k in w && w[k] == top
    ensures 1.0 / |w| as real <= SumValues(Squares(w)) <= top <= 1.0
  {
    var n := |w| as real;
    assert n > 0.0;
    var c := 1.0 / n;
    SquaresAround(w, c);
    TimesQuotient(n, 1.0);
    assert Times(n, Times(c, c)) == Times(Times(n, c), c) == c;
    SquaresBelow(w, top);
    SumOfNonNegative(w);
  }
}
