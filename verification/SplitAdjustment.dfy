/** Split-adjusted price history (accounting/corporate_actions.py, second half). */
module SplitAdjustment {
  import opened Common
  import opened Rounding
  import opened CorporateActions

  /** The split takes a bar of `barDate` into the share terms of `asOf`. */
  predicate InWindow(s: CorporateAction, barDate: Day, asOf: Day) {
    IsSplit(s) && barDate < s.effectiveDate <= asOf
  }

  function RatioInWindow(s: CorporateAction, barDate: Day, asOf: Day): (r: real)
    ensures r > 0.0
  {
    if InWindow(s, barDate, asOf) then RatioOf(s) else 1.0
  }

  function SplitFactorFor(splits: seq<CorporateAction>, barDate: Day, asOf: Day): (f: real)
    ensures f > 0.0
  {
    if splits == [] then 1.0
    else SplitFactorFor(splits[..|splits| - 1], barDate, asOf) / RatioInWindow(splits[|splits| - 1], barDate, asOf)
  }

  method ComputeSplitFactorFor(splits: seq<CorporateAction>, barDate: Day, asOf: Day) returns (factor: real)
    ensures factor == SplitFactorFor(splits, barDate, asOf)
  {
    factor := 1.0;
    for i := 0 to |splits|
      invariant factor == SplitFactorFor(splits[..i], barDate, asOf)
    {
      assert splits[..i + 1][..i] == splits[..i];
      if !IsSplit(splits[i]) {
        continue;
      }
      if barDate < splits[i].effectiveDate <= asOf {
        factor := factor / SplitRatioOf(splits[i]).value;
      }
    }
    assert splits[..|splits|] == splits;
  }

  // ---------------------------------------------------------------------------
  // Factors telescope, ignore order and do not look ahead
  // ---------------------------------------------------------------------------

  lemma ProductOfQuotients(x: real, y: real, a: real, b: real)
    requires a > 0.0 && b > 0.0 && (a == 1.0 || b == 1.0)
    ensures Times(x / a, y / b) == Times(x, y) / Times(a, b)
  {
    TimesQuotient(a, x);
    TimesQuotient(b, y);
    TimesQuotient(Times(a, b), Times(x, y));
    if a == 1.0 {
      assert Times(b, Times(x, y / b)) == Times(x, Times(b, y / b)) == Times(x, y);
      TimesCancels(b, Times(x, y / b), Times(x, y) / b);
    } else {
      assert Times(a, Times(x / a, y)) == Times(Times(a, x / a), y) == Times(x, y);
      TimesCancels(a, Times(x / a, y), Times(x, y) / a);
    }
  }

  /** Re-expressing a price in two steps equals one step: the factor from a bar's date to `c` is
      the product of the factors over the two parts of the way, wherever the stop `b` lies. */
  lemma {:induction false} FactorsTelescope(splits: seq<CorporateAction>, a: Day, b: Day, c: Day)
    requires a <= b <= c
    ensures SplitFactorFor(splits, a, c) == Times(SplitFactorFor(splits, a, b), SplitFactorFor(splits, b, c))
  {
    if splits != [] {
      var front, last := splits[..|splits| - 1], splits[|splits| - 1];
      FactorsTelescope(front, a, b, c);
      ProductOfQuotients(SplitFactorFor(front, a, b), SplitFactorFor(front, b, c),
                         RatioInWindow(last, a, b), RatioInWindow(last, b, c));
    }
  }

  lemma {:induction false} FactorWithout(splits: seq<CorporateAction>, i: nat, barDate: Day, asOf: Day)
    requires i < |splits|
    ensures SplitFactorFor(splits, barDate, asOf)
         == SplitFactorFor(splits[..i] + splits[i + 1..], barDate, asOf) / RatioInWindow(splits[i], barDate, asOf)
  {
    if i == |splits| - 1 {
      assert splits[..i] + splits[i + 1..] == splits[..i];
    } else {
      var front, last := splits[..|splits| - 1], splits[|splits| - 1];
      FactorWithout(front, i, barDate, asOf);
      var without := splits[..i] + splits[i + 1..];
      assert without[..|without| - 1] == front[..i] + front[i + 1..];
      QuotientsCommute(SplitFactorFor(front[..i] + front[i + 1..], barDate, asOf),
                       RatioInWindow(splits[i], barDate, asOf), RatioInWindow(last, barDate, asOf));
    }
  }

  lemma WithoutOne<T>(xs: seq<T>, i: nat)
    requires i < |xs|
    ensures multiset(xs[..i] + xs[i + 1..]) == multiset(xs) - multiset{xs[i]}
  {
    assert xs == xs[..i] + [xs[i]] + xs[i + 1..];
  }

  lemma WithoutLast<T>(xs: seq<T>)
    requires xs != []
    ensures multiset(xs[..|xs| - 1]) == multiset(xs) - multiset{xs[|xs| - 1]}
  {
    assert xs == xs[..|xs| - 1] + [xs[|xs| - 1]];
  }

  lemma MatchedLast<T>(xs: seq<T>, ys: seq<T>) returns (i: nat)
    requires xs != [] && multiset(xs) == multiset(ys)
    ensures i < |ys| && ys[i] == xs[|xs| - 1]
    ensures multiset(xs[..|xs| - 1]) == multiset(ys[..i] + ys[i + 1..])
  {
    var last := xs[|xs| - 1];
    assert last in multiset(ys);
    i :| 0 <= i < |ys| && ys[i] == last;
    WithoutOne(ys, i);
    WithoutLast(xs);
  }

  /** The order of the splits does not matter. */
  lemma {:induction false} FactorIgnoresOrder(xs: seq<CorporateAction>, ys: seq<CorporateAction>, barDate: Day,
                                              asOf: Day)
    requires multiset(xs) == multiset(ys)
    ensures SplitFactorFor(xs, barDate, asOf) == SplitFactorFor(ys, barDate, asOf)
    decreases |xs|
  {
    hide RatioInWindow;
    if xs == [] {
      assert |ys| == |multiset(ys)| == 0;
    } else {
      var i := MatchedLast(xs, ys);
      FactorIgnoresOrder(xs[..|xs| - 1], ys[..i] + ys[i + 1..], barDate, asOf);
      FactorWithout(ys, i, barDate, asOf);
    }
  }

  /** The splits a decision on `asOf` can know about. */
  function Known(splits: seq<CorporateAction>, asOf: Day): seq<CorporateAction> {
    if splits == [] then []
    else
      var front, last := Known(splits[..|splits| - 1], asOf), splits[|splits| - 1];
      if IsSplit(last) && last.effectiveDate <= asOf then front + [last] else front
  }

  lemma {:induction false} FactorOfKnown(splits: seq<CorporateAction>, barDate: Day, asOf: Day)
    ensures SplitFactorFor(Known(splits, asOf), barDate, asOf) == SplitFactorFor(splits, barDate, asOf)
    ensures Known(splits, asOf) == [] ==> SplitFactorFor(splits, barDate, asOf) == 1.0
  {
    if splits != [] {
      var front, last := splits[..|splits| - 1], splits[|splits| - 1];
      FactorOfKnown(front, barDate, asOf);
      var known := Known(front, asOf);
      assert (known + [last])[..|known|] == known;
    }
  }

  // ---------------------------------------------------------------------------
  // Bars
  // ---------------------------------------------------------------------------

  datatype PriceBasis = Raw | Adjusted

  /** A bar; `date` is the UTC date of its timestamp. */
  datatype Bar = Bar(
    barId: string,
    date: Day,
    open: real,
    high: real,
    low: real,
    close: real,
    vwap: Option<real>,
    volume: int,
    basis: PriceBasis,
    adjustmentFactor: real)

  function Scale(price: Option<real>, factor: real): Option<real> {
    match price
    case None => None
    case Some(p) => Some(Times(p, factor))
  }

  function AdjustBar(bar: Bar, factor: real): Result<Bar, RuleError> {
    if factor == 1.0 then Ok(bar)
    else if factor <= 0.0 then Err(NonPositiveFactor)
    else
      Ok(bar.(open := Times(bar.open, factor),
              high := Times(bar.high, factor),
              low := Times(bar.low, factor),
              close := Times(bar.close, factor),
              vwap := Scale(bar.vwap, factor),
              volume := HalfUp(bar.volume as real / factor),
              basis := Adjusted,
              adjustmentFactor := Times(bar.adjustmentFactor, factor)))
  }

  /** The bar in the share terms of `asOf`, straight from the definition: every split considered. */
  function Reexpressed(bar: Bar, splits: seq<CorporateAction>, asOf: Day): Bar {
    AdjustBar(bar, SplitFactorFor(splits, bar.date, asOf)).value
  }

  /** `adjust_bars_for_splits`: its filter and its early return change nothing. */
  method AdjustBarsForSplits(bars: seq<Bar>, splits: seq<CorporateAction>, asOf: Day) returns (out: seq<Bar>)
    ensures |out| == |bars|
    ensures forall i :: 0 <= i < |bars| ==> out[i] == Reexpressed(bars[i], splits, asOf)
  {
    var applicable := Known(splits, asOf);
    if applicable == [] {
      forall i | 0 <= i < |bars| ensures bars[i] == Reexpressed(bars[i], splits, asOf) {
        FactorOfKnown(splits, bars[i].date, asOf);
      }
      return bars;
    }
    out := [];
    for k := 0 to |bars|
      invariant |out| == k
      invariant forall i :: 0 <= i < k ==> out[i] == Reexpressed(bars[i], splits, asOf)
    {
      FactorOfKnown(splits, bars[k].date, asOf);
      var factor := ComputeSplitFactorFor(applicable, bars[k].date, asOf);
      out := out + [AdjustBar(bars[k], factor).value];
    }
  }

  /** `b` has the prices and the adjustment factor of `a`, all times `f`. */
  predicate ScaledBy(a: Bar, b: Bar, f: real) {
    && b.open == Times(a.open, f) && b.high == Times(a.high, f)
    && b.low == Times(a.low, f) && b.close == Times(a.close, f)
    && (b.vwap.Some? <==> a.vwap.Some?) && (a.vwap.Some? ==> b.vwap.value == Times(a.vwap.value, f))
    && b.adjustmentFactor == Times(a.adjustmentFactor, f)
  }

  /** A bar in the share terms of `asOf`, piece by piece: the prices and the adjustment factor are the raw
      ones times the split factor, volume is a whole number within one half of the raw one over it, the
      basis turns to adjusted exactly when the factor is not one, and all else stays. */
  lemma ReexpressedIsScaled(bar: Bar, splits: seq<CorporateAction>, asOf: Day)
    ensures var r, f := Reexpressed(bar, splits, asOf), SplitFactorFor(splits, bar.date, asOf);
      && ScaledBy(bar, r, f)
      && Abs(r.volume as real - bar.volume as real / f) <= 0.5 && (f == 1.0 ==> r.volume == bar.volume)
      && r.basis == (if f == 1.0 then bar.basis else Adjusted)
      && r.barId == bar.barId && r.date == bar.date
  {
    hide SplitFactorFor, HalfUp, Times;
    var f := SplitFactorFor(splits, bar.date, asOf);
    if f == 1.0 {
      ScaledByOne(bar);
    } else {
      HalfUpIsNearest(bar.volume as real / f);
    }
  }

  lemma ScaledByOne(bar: Bar)
    ensures ScaledBy(bar, bar, 1.0)
  {
  }

  /** One split between a bar and the as-of date: the raw prices are the adjusted ones times its ratio,
      and volume is multiplied by it. */
  lemma OneSplitDividesPrices(bar: Bar, s: CorporateAction, ratio: real, asOf: Day)
    requires s.kind.SplitForward? || s.kind.SplitReverse?
    requires s.splitRatio == Some(ratio) && ratio > 0.0 && ratio != 1.0 && bar.date < s.effectiveDate <= asOf
    ensures var r := Reexpressed(bar, [s], asOf);
      && ScaledBy(r, bar, ratio)
      && Abs(r.volume as real - Times(bar.volume as real, ratio)) <= 0.5 && r.basis == Adjusted
  {
    hide SplitFactorFor, Reexpressed, Times;
    var r, f := Reexpressed(bar, [s], asOf), SplitFactorFor([s], bar.date, asOf);
    FactorOfOneSplit(s, ratio, bar.date, asOf);
    ReexpressedIsScaled(bar, [s], asOf);
    UndoneByRatio(bar.open, f, ratio);
    UndoneByRatio(bar.high, f, ratio);
    UndoneByRatio(bar.low, f, ratio);
    UndoneByRatio(bar.close, f, ratio);
    UndoneByRatio(bar.adjustmentFactor, f, ratio);
    if bar.vwap.Some? {
      UndoneByRatio(bar.vwap.value, f, ratio);
    }
    QuotientByReciprocal(bar.volume as real, f, ratio);
  }

  lemma FactorOfOneSplit(s: CorporateAction, ratio: real, barDate: Day, asOf: Day)
    requires s.kind.SplitForward? || s.kind.SplitReverse?
    requires s.splitRatio == Some(ratio) && ratio > 0.0 && ratio != 1.0 && barDate < s.effectiveDate <= asOf
    ensures var f := SplitFactorFor([s], barDate, asOf);
      Times(ratio, f) == 1.0 && f != 1.0
  {
    assert [s][..0] == [];
    assert SplitFactorFor([], barDate, asOf) == 1.0 && RatioInWindow(s, barDate, asOf) == ratio;
    TimesQuotient(ratio, 1.0);
    assert Times(ratio, 1.0) == ratio;
  }

  lemma UndoneByRatio(price: real, f: real, ratio: real)
    requires Times(ratio, f) == 1.0
    ensures price == Times(Times(price, f), ratio)
  {
    assert Times(Times(price, f), ratio) == Times(price, Times(ratio, f));
  }

  lemma QuotientByReciprocal(volume: real, f: real, ratio: real)
    requires Times(ratio, f) == 1.0 && f > 0.0
    ensures volume / f == Times(volume, ratio)
  {
    TimesQuotient(f, volume);
    assert Times(f, Times(volume, ratio)) == Times(volume, Times(ratio, f));
    TimesCancels(f, volume / f, Times(volume, ratio));
  }

  /** No lookahead: two histories that agree on the splits up to `asOf` re-express every bar alike,
      whatever splits come after. */
  lemma NoLookahead(bar: Bar, xs: seq<CorporateAction>, ys: seq<CorporateAction>, asOf: Day)
    requires multiset(Known(xs, asOf)) == multiset(Known(ys, asOf))
    ensures Reexpressed(bar, xs, asOf) == Reexpressed(bar, ys, asOf)
  {
    FactorOfKnown(xs, bar.date, asOf);
    FactorOfKnown(ys, bar.date, asOf);
    FactorIgnoresOrder(Known(xs, asOf), Known(ys, asOf), bar.date, asOf);
  }

  lemma {:induction false} LaterSplitIsUnknown(before: seq<CorporateAction>, s: CorporateAction,
                                               after: seq<CorporateAction>, asOf: Day)
    requires s.effectiveDate > asOf
    ensures Known(before + [s] + after, asOf) == Known(before + after, asOf)
  {
    if after == [] {
      assert before + [s] + after == before + [s];
      assert (before + [s])[..|before|] == before;
      assert before + after == before;
    } else {
      var front, last := after[..|after| - 1], after[|after| - 1];
      LaterSplitIsUnknown(before, s, front, asOf);
      assert (before + [s] + after)[..|before| + |after|] == before + [s] + front;
      assert (before + after)[..|before| + |after| - 1] == before + front;
    }
  }

  /** Adding a split dated after `asOf` anywhere in the list, or removing it, changes no bar. */
  lemma FutureSplitsDoNotMatter(bar: Bar, before: seq<CorporateAction>, s: CorporateAction, after: seq<CorporateAction>,
                                asOf: Day)
    requires s.effectiveDate > asOf
    ensures Reexpressed(bar, before + [s] + after, asOf) == Reexpressed(bar, before + after, asOf)
  {
    LaterSplitIsUnknown(before, s, after, asOf);
    NoLookahead(bar, before + [s] + after, before + after, asOf);
  }

  predicate Ordered(bar: Bar) {
    bar.low <= bar.open <= bar.high && bar.low <= bar.close <= bar.high
  }

  /** A well-formed bar stays well-formed: low <= open, close <= high. */
  lemma AdjustedBarStaysOrdered(bar: Bar, splits: seq<CorporateAction>, asOf: Day)
    requires Ordered(bar)
    ensures Ordered(Reexpressed(bar, splits, asOf))
  {
    var f := SplitFactorFor(splits, bar.date, asOf);
    TimesMonotone(bar.low, bar.open, f);
    TimesMonotone(bar.open, bar.high, f);
    TimesMonotone(bar.low, bar.close, f);
    TimesMonotone(bar.close, bar.high, f);
  }

  /** A price at the old volume against the adjusted price at the new one. */
  predicate DollarsWithinHalf(before: real, volume: int, after: real, newVolume: int) {
    Abs(Times(after, newVolume as real) - Times(before, volume as real)) <= after / 2.0
  }

  /** Price times volume moves by at most half the adjusted price, the effect of rounding volume to
      whole shares, for each of the bar's prices. */
  lemma DollarVolumeMovesByHalfAPrice(bar: Bar, splits: seq<CorporateAction>, asOf: Day)
    requires bar.open >= 0.0 && bar.high >= 0.0 && bar.low >= 0.0 && bar.close >= 0.0
    requires bar.vwap.Some? ==> bar.vwap.value >= 0.0
    ensures var r := Reexpressed(bar, splits, asOf);
      && DollarsWithinHalf(bar.open, bar.volume, r.open, r.volume)
      && DollarsWithinHalf(bar.high, bar.volume, r.high, r.volume)
      && DollarsWithinHalf(bar.low, bar.volume, r.low, r.volume)
      && DollarsWithinHalf(bar.close, bar.volume, r.close, r.volume)
      && (r.vwap.Some? <==> bar.vwap.Some?)
      && (bar.vwap.Some? ==> DollarsWithinHalf(bar.vwap.value, bar.volume, r.vwap.value, r.volume))
  {
    var f := SplitFactorFor(splits, bar.date, asOf);
    if f != 1.0 {
      RoundedVolume(bar.open, bar.volume, f);
      RoundedVolume(bar.high, bar.volume, f);
      RoundedVolume(bar.low, bar.volume, f);
      RoundedVolume(bar.close, bar.volume, f);
      if bar.vwap.Some? {
        RoundedVolume(bar.vwap.value, bar.volume, f);
      }
    }
  }

  lemma RoundedVolume(price: real, volume: int, f: real)
    requires price >= 0.0 && f > 0.0
    ensures DollarsWithinHalf(price, volume, Times(price, f), HalfUp(volume as real / f))
  {
    var exact := volume as real / f;
    HalfUpIsNearest(exact);
    TimesQuotient(f, volume as real);
    var adjusted := Times(price, f);
    assert Times(adjusted, exact) == Times(price, Times(f, exact)) == Times(price, volume as real);
    WithinHalf(adjusted, HalfUp(exact) as real, exact);
  }

  lemma WithinHalf(k: real, u: real, v: real)
    requires k >= 0.0 && Abs(u - v) <= 0.5
    ensures Abs(Times(k, u) - Times(k, v)) <= k / 2.0
  {
    var gap := u - v;
    assert Times(k, u) - Times(k, v) == k * gap;
    assert -0.5 * k <= k * gap <= 0.5 * k;
  }

  /** The bar's adjustment factor keeps pace with its prices, each in its own place: every adjusted
      price over the new factor is the raw price over the old one. */
  lemma FactorTracksPrices(bar: Bar, splits: seq<CorporateAction>, asOf: Day)
    ensures var r := Reexpressed(bar, splits, asOf);
      && Times(r.open, bar.adjustmentFactor) == Times(bar.open, r.adjustmentFactor)
      && Times(r.high, bar.adjustmentFactor) == Times(bar.high, r.adjustmentFactor)
      && Times(r.low, bar.adjustmentFactor) == Times(bar.low, r.adjustmentFactor)
      && Times(r.close, bar.adjustmentFactor) == Times(bar.close, r.adjustmentFactor)
      && (r.vwap.Some? <==> bar.vwap.Some?)
      && (bar.vwap.Some? ==> Times(r.vwap.value, bar.adjustmentFactor) == Times(bar.vwap.value, r.adjustmentFactor))
      && r.barId == bar.barId && r.date == bar.date
  {
    var f := SplitFactorFor(splits, bar.date, asOf);
    Rescaled(bar.open, bar.adjustmentFactor, f);
    Rescaled(bar.high, bar.adjustmentFactor, f);
    Rescaled(bar.low, bar.adjustmentFactor, f);
    Rescaled(bar.close, bar.adjustmentFactor, f);
    if bar.vwap.Some? {
      Rescaled(bar.vwap.value, bar.adjustmentFactor, f);
    }
  }

  lemma Rescaled(price: real, adjustment: real, f: real)
    ensures Times(Times(price, f), adjustment) == Times(price, Times(adjustment, f))
  {
  }

  predicate SamePrices(a: Bar, b: Bar) {
    && a.open == b.open && a.high == b.high && a.low == b.low && a.close == b.close
    && a.vwap == b.vwap && a.adjustmentFactor == b.adjustmentFactor
  }

  lemma ScalesCompose(price: real, f: real, g: real)
    ensures Times(Times(price, f), g) == Times(price, Times(f, g))
  {
  }

  /** Re-expressing a bar as of `b` and then from `b` to `c` gives the prices of one step to `c`. */
  lemma TwoStepsGiveTheSamePrices(bar: Bar, splits: seq<CorporateAction>, b: Day, c: Day)
    requires bar.date <= b <= c
    ensures AdjustBar(Reexpressed(bar, splits, b), SplitFactorFor(splits, b, c)).Ok?
    ensures SamePrices(AdjustBar(Reexpressed(bar, splits, b), SplitFactorFor(splits, b, c)).value,
                       Reexpressed(bar, splits, c))
  {
    var f, g := SplitFactorFor(splits, bar.date, b), SplitFactorFor(splits, b, c);
    FactorsTelescope(splits, bar.date, b, c);
    assert forall p: real :: Times(p, 1.0) == p;
    ScalesCompose(bar.open, f, g);
    ScalesCompose(bar.high, f, g);
    ScalesCompose(bar.low, f, g);
    ScalesCompose(bar.close, f, g);
    ScalesCompose(bar.adjustmentFactor, f, g);
    if bar.vwap.Some? {
      ScalesCompose(bar.vwap.value, f, g);
    }
  }

  // ---------------------------------------------------------------------------
  // Splits held in memory
  // ---------------------------------------------------------------------------

  /** The constructor's argument: a list, or a dictionary of lists in its order. */
  datatype Given = Listed(actions: seq<CorporateAction>) | Grouped(groups: seq<(Symbol, seq<CorporateAction>)>)

  function ItemsOf(given: Given): seq<CorporateAction> {
    match given
    case Listed(actions) => actions
    case Grouped(groups) => Flattened(groups)
  }

  function Flattened(groups: seq<(Symbol, seq<CorporateAction>)>): seq<CorporateAction> {
    if groups == [] then [] else Flattened(groups[..|groups| - 1]) + groups[|groups| - 1].1
  }

  /** A dictionary's lists come one after the other, in its order. */
  lemma {:induction false} FlattenedJoins(xs: seq<(Symbol, seq<CorporateAction>)>,
                                          ys: seq<(Symbol, seq<CorporateAction>)>)
    ensures Flattened(xs + ys) == Flattened(xs) + Flattened(ys)
    ensures |ys| == 1 ==> Flattened(ys) == ys[0].1
  {
    if ys == [] {
      assert xs + ys == xs;
    } else {
      var front, last := ys[..|ys| - 1], ys[|ys| - 1];
      FlattenedJoins(xs, front);
      assert (xs + ys)[..|xs| + |ys| - 1] == xs + front;
    }
  }

  /** The actions whose symbol has the upper-case form `key`. */
  function ForSymbol(actions: seq<CorporateAction>, upper: string -> string, key: string): seq<CorporateAction> {
    if actions == [] then []
    else
      var front, last := ForSymbol(actions[..|actions| - 1], upper, key), actions[|actions| - 1];
      if upper(last.symbol) == key then front + [last] else front
  }

  function SplitsBetween(actions: seq<CorporateAction>, start: Day, end: Day): seq<CorporateAction> {
    if actions == [] then []
    else
      var front, last := SplitsBetween(actions[..|actions| - 1], start, end), actions[|actions| - 1];
      if IsSplit(last) && start <= last.effectiveDate <= end then front + [last] else front
  }

  /** A symbol's actions are all those whose upper-case symbol it is, as often as they were given; a window's
      splits all the usable ones dated in it, both ends included. */
  lemma {:induction false} SelectedActions(actions: seq<CorporateAction>, upper: string -> string, key: string,
                                           start: Day, end: Day, a: CorporateAction)
    ensures multiset(ForSymbol(actions, upper, key))[a] == if upper(a.symbol) == key then multiset(actions)[a] else 0
    ensures multiset(SplitsBetween(actions, start, end))[a]
         == if IsSplit(a) && start <= a.effectiveDate <= end then multiset(actions)[a] else 0
  {
    if actions != [] {
      SelectedActions(actions[..|actions| - 1], upper, key, start, end, a);
      WithoutLast(actions);
    }
  }

  /** `StaticSplitSource`; `upper` is the platform's `str.upper`, whatever it does. */
  class StaticSplitSource {
    const upper: string -> string
    var bySymbol: map<string, seq<CorporateAction>>

    constructor (given: Given, upper: string -> string)
      ensures Holds(ItemsOf(given)) && this.upper == upper
    {
      var items := ItemsOf(given);
      var grouped: map<string, seq<CorporateAction>> := map[];
      for i := 0 to |items|
        invariant forall key :: Get(grouped, key, []) == ForSymbol(items[..i], upper, key)
      {
        assert items[..i + 1][..i] == items[..i];
        var key := upper(items[i].symbol);
        grouped := grouped[key := Get(grouped, key, []) + [items[i]]];
      }
      assert items[..|items|] == items;
      this.upper := upper;
      bySymbol := grouped;
    }

    /** Each symbol's actions are kept, complete and in order. */
    ghost predicate Holds(items: seq<CorporateAction>)
      reads this
    {
      forall key :: Get(bySymbol, key, []) == ForSymbol(items, upper, key)
    }

    function SplitsFor(symbol: Symbol, start: Day, end: Day): seq<CorporateAction>
      reads this
    {
      SplitsBetween(Get(bySymbol, upper(symbol), []), start, end)
    }
  }

  /** Asking for the splits of a window that starts no later than the day after a bar and ends no
      earlier than the as-of date loses nothing. */
  lemma {:induction false} WindowSuffices(actions: seq<CorporateAction>, start: Day, end: Day, barDate: Day, asOf: Day)
    requires start <= barDate + 1 && asOf <= end
    ensures SplitFactorFor(SplitsBetween(actions, start, end), barDate, asOf) == SplitFactorFor(actions, barDate, asOf)
  {
    if actions != [] {
      var front, last := actions[..|actions| - 1], actions[|actions| - 1];
      WindowSuffices(front, start, end, barDate, asOf);
      var window := SplitsBetween(front, start, end);
      assert (window + [last])[..|window|] == window;
    }
  }

  /** Adjusting a bar with the splits the source returns for its symbol, from the oldest bar's date to the
      as-of date, is re-expressing it over every action the source was given for that symbol. */
  lemma SourceSuffices(source: StaticSplitSource, items: seq<CorporateAction>, symbol: Symbol, bar: Bar, oldest: Day,
                       asOf: Day)
    requires source.Holds(items) && oldest <= bar.date
    ensures Reexpressed(bar, source.SplitsFor(symbol, oldest, asOf), asOf)
         == Reexpressed(bar, ForSymbol(items, source.upper, source.upper(symbol)), asOf)
  {
    WindowSuffices(ForSymbol(items, source.upper, source.upper(symbol)), oldest, asOf, bar.date, asOf);
  }
}
