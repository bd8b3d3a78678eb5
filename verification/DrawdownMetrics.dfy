/** Drawdown of an equity curve (visualization/metrics.py and visualization/synthetic.py). */
module DrawdownMetrics {
  import opened Common

  /** The running maximum of the curve up to and including index `i`. */
  function RunningMax(xs: seq<real>, i: nat): real
    requires i < |xs|
  {
    if i == 0 then xs[0] else Max(RunningMax(xs, i - 1), xs[i])
  }

  function MaxOf(xs: seq<real>): real
    requires xs != []
  {
    RunningMax(xs, |xs| - 1)
  }

  lemma {:induction false} RunningMaxIsMax(xs: seq<real>, i: nat)
    requires i < |xs|
    ensures forall k :: 0 <= k <= i ==> xs[k] <= RunningMax(xs, i)
    ensures exists k :: 0 <= k <= i && xs[k] == RunningMax(xs, i)
  {
    if i == 0 {
      assert xs[0] == RunningMax(xs, 0);
    } else {
      RunningMaxIsMax(xs, i - 1);
      assert xs[i] == RunningMax(xs, i) || RunningMax(xs, i) == RunningMax(xs, i - 1);
    }
  }

  lemma {:induction false} RunningMaxPrefix(xs: seq<real>, ys: seq<real>, i: nat)
    requires i < |xs| <= |ys| && xs == ys[..|xs|]
    ensures RunningMax(xs, i) == RunningMax(ys, i)
  {
    if i > 0 {
      RunningMaxPrefix(xs, ys, i - 1);
    }
  }

  lemma MaxOfAppend(xs: seq<real>, x: real)
    ensures MaxOf(xs + [x]) == if xs == [] then x else Max(MaxOf(xs), x)
  {
    if xs != [] {
      assert (xs + [x])[..|xs|] == xs;
      RunningMaxPrefix(xs, xs + [x], |xs| - 1);
    }
  }

  /** An equity curve that never goes below zero and is not zero throughout. */
  predicate Solvent(xs: seq<real>) {
    xs != [] && (forall i :: 0 <= i < |xs| ==> xs[i] >= 0.0) && MaxOf(xs) > 0.0
  }

  /** Relative change between two values. */
  function Change(before: real, after: real): real
    requires before != 0.0
  {
    (after - before) / before
  }

  /** A drawdown is a number unless the running peak is zero, which the source replaces by NaN. */
  predicate HasDrawdown(xs: seq<real>, i: nat)
    requires i < |xs|
  {
    RunningMax(xs, i) != 0.0
  }

  /** `rolling_drawdown` and `_compute_drawdown` at one index. */
  function DrawdownAt(xs: seq<real>, i: nat): real
    requires i < |xs| && HasDrawdown(xs, i)
  {
    Change(RunningMax(xs, i), xs[i])
  }

  /** The series, with nothing for NaN. */
  function DrawdownSeries(xs: seq<real>): (ds: seq<Option<real>>)
    ensures |ds| == |xs|
  {
    seq(|xs|, i requires 0 <= i < |xs| => if HasDrawdown(xs, i) then Some(DrawdownAt(xs, i)) else None)
  }

  /** Index of the first minimum among the drawdowns of the first `n` points; NaN is skipped (pandas'
      `idxmin`). */
  function FirstMin(xs: seq<real>, n: nat): (t: Option<nat>)
    requires n <= |xs|
    ensures t.None? <==> forall i :: 0 <= i < n ==> !HasDrawdown(xs, i)
    ensures t.Some? ==> t.value < n && HasDrawdown(xs, t.value)
    ensures t.Some? ==> forall i :: 0 <= i < n && HasDrawdown(xs, i) ==> DrawdownAt(xs, t.value) <= DrawdownAt(xs, i)
    ensures t.Some? ==>
              forall i :: 0 <= i < t.value && HasDrawdown(xs, i) ==> DrawdownAt(xs, t.value) < DrawdownAt(xs, i)
  {
    if n == 0 then None
    else
      var t := FirstMin(xs, n - 1);
      if HasDrawdown(xs, n - 1) && (t.None? || DrawdownAt(xs, n - 1) < DrawdownAt(xs, t.value)) then Some(n - 1) else t
  }

  /** The last index at or before `i` where the curve meets its running maximum. */
  function LastPeak(xs: seq<real>, i: nat): (p: nat)
    requires i < |xs|
    ensures p <= i
  {
    if xs[i] >= RunningMax(xs, i) then i else
      assert i > 0;
      LastPeak(xs, i - 1)
  }

  /** The first index from `i` on where the curve is back at `level`. */
  function FirstReturn(xs: seq<real>, i: nat, level: real): (r: Option<nat>)
    requires i <= |xs|
    ensures r.Some? ==> i <= r.value < |xs| && xs[r.value] >= level
    ensures r.Some? ==> forall k :: i <= k < r.value ==> xs[k] < level
    ensures r.None? ==> forall k :: i <= k < |xs| ==> xs[k] < level
    decreases |xs| - i
  {
    if i == |xs| then None
    else if xs[i] >= level then Some(i)
    else FirstReturn(xs, i + 1, level)
  }

  datatype Details = Details(
    maxDrawdown: real,
    peak: Option<nat>,
    trough: Option<nat>,
    recovery: Option<nat>,
    recovered: bool)

  /** `max_drawdown_details`, with positions in the curve for dates; nothing when every drawdown is
      NaN, where the source has no trough to look up. */
  function MaxDrawdownDetails(xs: seq<real>): Option<Details> {
    if |xs| < 2 then Some(Details(0.0, None, None, None, true))
    else
      match FirstMin(xs, |xs|)
      case None => None
      case Some(trough) =>
        var recovery := FirstReturn(xs, trough, RunningMax(xs, trough));
        Some(Details(DrawdownAt(xs, trough), Some(LastPeak(xs, trough)), Some(trough), recovery, recovery.Some?))
  }

  lemma {:induction false} LastPeakCarriesTheRunningMax(xs: seq<real>, i: nat)
    requires i < |xs|
    ensures xs[LastPeak(xs, i)] == RunningMax(xs, i)
    ensures forall k :: LastPeak(xs, i) < k <= i ==> xs[k] < RunningMax(xs, i)
  {
    if xs[i] >= RunningMax(xs, i) {
      RunningMaxIsMax(xs, i);
    } else {
      assert i > 0 && RunningMax(xs, i) == RunningMax(xs, i - 1);
      LastPeakCarriesTheRunningMax(xs, i - 1);
    }
  }

  lemma ChangeIsAntitone(a: real, b: real, x: real)
    requires 0.0 < a <= b && x >= 0.0
    ensures Change(b, x) <= Change(a, x)
  {
    var u, v := 1.0 + Change(a, x), 1.0 + Change(b, x);
    TimesQuotient(a, x - a);
    TimesQuotient(b, x - b);
    assert Times(a, u) == x && Times(b, v) == x;
    if u < 0.0 {
      TimesMonotone(u, 0.0, a);
    }
    if v > u {
      TimesMonotone(u, v, b);
      TimesMonotoneRight(u, a, b);
    }
  }

  /** On a solvent curve there is a trough, and every positive point has a drawdown from then on. */
  lemma TroughExists(xs: seq<real>)
    requires |xs| >= 2 && Solvent(xs)
    ensures FirstMin(xs, |xs|).Some? && MaxDrawdownDetails(xs).Some?
    ensures forall i :: 0 <= i < |xs| ==> (HasDrawdown(xs, i) <==> RunningMax(xs, i) > 0.0)
  {
    assert HasDrawdown(xs, |xs| - 1);
    forall i | 0 <= i < |xs| ensures RunningMax(xs, i) >= 0.0 {
      RunningMaxIsMax(xs, i);
      assert xs[0] <= RunningMax(xs, i);
    }
  }

  /** The one-pass figure is the worst relative loss over every pair of points in time order that starts
      above zero, and the reported peak and trough are such a pair. */
  lemma OnePassIsWorstPair(xs: seq<real>)
    requires |xs| >= 2 && Solvent(xs)
    ensures MaxDrawdownDetails(xs).Some?
    ensures var d := MaxDrawdownDetails(xs).value;
      && (forall i, j :: 0 <= i <= j < |xs| && xs[i] > 0.0 ==> d.maxDrawdown <= Change(xs[i], xs[j]))
      && d.peak.Some? && d.trough.Some? && d.peak.value <= d.trough.value < |xs|
      && xs[d.peak.value] > 0.0 && d.maxDrawdown == Change(xs[d.peak.value], xs[d.trough.value])
  {
    TroughExists(xs);
    var trough := FirstMin(xs, |xs|).value;
    forall i, j | 0 <= i <= j < |xs| && xs[i] > 0.0
      ensures DrawdownAt(xs, trough) <= Change(xs[i], xs[j])
    {
      RunningMaxIsMax(xs, j);
      ChangeIsAntitone(xs[i], RunningMax(xs, j), xs[j]);
      assert DrawdownAt(xs, trough) <= DrawdownAt(xs, j);
    }
    LastPeakCarriesTheRunningMax(xs, trough);
  }

  /** The reported peak is the last point before the trough at the running peak's level, and
      recovery is the first return to that level, or none when the curve never returns. */
  lemma PeakAndRecoveryBracketTheTrough(xs: seq<real>)
    requires |xs| >= 2 && MaxDrawdownDetails(xs).Some?
    ensures var d := MaxDrawdownDetails(xs).value;
      && d.peak.Some? && d.trough.Some? && d.peak.value <= d.trough.value < |xs|
      && (forall k :: 0 <= k <= d.trough.value ==> xs[k] <= xs[d.peak.value])
      && (forall k :: d.peak.value < k <= d.trough.value ==> xs[k] < xs[d.peak.value])
      && (d.recovered <==> d.recovery.Some?)
      && (d.recovered <==> exists k :: d.trough.value <= k < |xs| && xs[k] >= xs[d.peak.value])
      && (d.recovered ==>
            && d.recovery.Some? && d.trough.value <= d.recovery.value < |xs|
            && xs[d.recovery.value] >= xs[d.peak.value]
            && (forall k :: d.peak.value < k < d.recovery.value ==> xs[k] < xs[d.peak.value]))
  {
    var trough := FirstMin(xs, |xs|).value;
    LastPeakCarriesTheRunningMax(xs, trough);
    RunningMaxIsMax(xs, trough);
  }

  /** A curve of fewer than two points has no drawdown to report, and counts as recovered. */
  lemma ShortCurvesHaveNoDrawdown(xs: seq<real>)
    ensures |xs| < 2 <==> MaxDrawdownDetails(xs).Some? && MaxDrawdownDetails(xs).value.trough == None
    ensures |xs| < 2 ==>
              var d := MaxDrawdownDetails(xs).value;
              d.maxDrawdown == 0.0 && d.peak == d.trough == d.recovery == None && d.recovered
    ensures MaxDrawdownDetails(xs).None? <==> |xs| >= 2 && forall i :: 0 <= i < |xs| ==> !HasDrawdown(xs, i)
  {
  }

  // ---------------------------------------------------------------------------
  // Drawdown duration
  // ---------------------------------------------------------------------------

  /** `v < 0`, which NaN is not. */
  predicate IsNegative(v: Option<real>) {
    v.Some? && v.value < 0.0
  }

  predicate AllNegative(ds: seq<Option<real>>, from: nat, to: nat)
    requires from <= to <= |ds|
  {
    forall i :: from <= i < to ==> IsNegative(ds[i])
  }

  /** `_max_dd_duration`: the length of the longest contiguous stretch of negative values. */
  method MaxDrawdownDuration(ds: seq<Option<real>>) returns (maxLen: nat)
    ensures exists a, b :: 0 <= a <= b <= |ds| && AllNegative(ds, a, b) && maxLen == b - a
    ensures forall a, b :: 0 <= a <= b <= |ds| && AllNegative(ds, a, b) ==> b - a <= maxLen
  {
    var curLen := 0;
    maxLen := 0;
    ghost var from, to := 0, 0;
    for i := 0 to |ds|
      invariant 0 <= curLen <= i && curLen <= maxLen
      invariant AllNegative(ds, i - curLen, i)
      invariant curLen < i ==> !IsNegative(ds[i - curLen - 1])
      invariant 0 <= from <= to <= i && AllNegative(ds, from, to) && maxLen == to - from
      invariant forall a, b :: 0 <= a <= b <= i && AllNegative(ds, a, b) ==> b - a <= maxLen
    {
      if IsNegative(ds[i]) {
        curLen := curLen + 1;
        if curLen > maxLen {
          maxLen := curLen;
          from, to := i + 1 - curLen, i + 1;
        }
        assert curLen <= i ==> !IsNegative(ds[i - curLen]);
      } else {
        curLen := 0;
      }
    }
  }

  /** On a drawdown series, a value that counts as negative is exactly a point below an earlier one, so the
      duration is the longest time the curve spends under water; minus one is the loss of everything,
      and NaN the time before the curve leaves zero. */
  lemma NegativeIsUnderWater(xs: seq<real>, i: nat)
    requires i < |xs| && Solvent(xs)
    ensures DrawdownSeries(xs)[i].None? <==> forall k :: 0 <= k <= i ==> xs[k] == 0.0
    ensures IsNegative(DrawdownSeries(xs)[i]) <==> exists k :: 0 <= k < i && xs[k] > xs[i]
    ensures DrawdownSeries(xs)[i].Some? ==>
              var d := DrawdownSeries(xs)[i].value;
              && -1.0 <= d <= 0.0 && (d == -1.0 <==> xs[i] == 0.0)
  {
    RunningMaxIsMax(xs, i);
    var peak := RunningMax(xs, i);
    var k :| 0 <= k <= i && xs[k] == peak;
    assert xs[0] <= peak;
    if peak != 0.0 {
      var d := DrawdownAt(xs, i);
      TimesQuotient(peak, xs[i] - peak);
      assert Times(peak, d) == xs[i] - peak;
      DrawdownSign(peak, xs[i], d);
      assert xs[i] < peak ==> k < i;
    }
  }

  lemma DrawdownSign(peak: real, x: real, d: real)
    requires peak > 0.0 && 0.0 <= x <= peak && Times(peak, d) == x - peak
    ensures d < 0.0 <==> x < peak
    ensures -1.0 <= d <= 0.0 && (d == -1.0 <==> x == 0.0)
  {
    if d < -1.0 {
      TimesMonotone(d, -1.0, peak);
    } else if d > 0.0 {
      TimesMonotone(0.0, d, peak);
    }
  }
}
