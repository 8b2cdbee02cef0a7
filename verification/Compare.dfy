/**
 From repeated measurements to a verdict: `aggregate` of `runner.ts`, then `compareMetric` and
 `compare` of `report.ts`.  Values are reals; floating-point rounding is not modelled.
 */
module Compare {
  import opened Common
  import opened Sequences
  import opened Quotients
  import opened OrderStats

  /** One measured value and how to judge it; `higher` means bigger is better. */
  datatype Metric = Metric(
    name: string, value: real, higher: bool, informational: bool, exact: bool, noiseFloor: Option<real>)

  /** A metric across repetitions; `spread` is the noise as a fraction of the median. */
  datatype Aggregated = Aggregated(meta: Metric, value: real, samples: seq<real>, min: real, max: real, spread: real)

  function Abs(x: real): real {
    if x < 0.0 then -x else x
  }

  function Max(x: real, y: real): real {
    if x < y then y else x
  }

  /** The full range of fewer than eight samples, the interquartile range of more. */
  function Dispersion(values: seq<real>): real
    requires values != []
  {
    SortSorts(values);
    if |values| < 8 then Sort(values)[|values| - 1] - Sort(values)[0] else Quantile(values, 0.75) - Quantile(values, 0.25)
  }

  function Summary(meta: Metric, values: seq<real>): Aggregated
    requires values != []
  {
    SortSorts(values);
    var med := MeanMedian(values);
    Aggregated(meta, med, values, Sort(values)[0], Sort(values)[|values| - 1],
               if med == 0.0 then 0.0 else Abs(Dispersion(values) / med))
  }

  /** `range` is the distance from the smallest value to the largest. */
  ghost predicate IsRange(values: seq<real>, range: real) {
    exists lo, hi :: LeastOf(values, lo) && GreatestOf(values, hi) && range == hi - lo
  }

  ghost predicate LeastOf(values: seq<real>, lo: real) { lo in values && forall x :: x in values ==> lo <= x }

  ghost predicate GreatestOf(values: seq<real>, hi: real) { hi in values && forall x :: x in values ==> x <= hi }

  /** `range` is the distance between the first and the third quartile, by nearest rank. */
  ghost predicate IsQuartileRange(values: seq<real>, range: real) {
    exists lo, hi :: IsQuantile(values, 0.25, lo) && IsQuantile(values, 0.75, hi) && range == hi - lo
  }

  lemma DispersionMeans(values: seq<real>)
    requires values != []
    ensures |values| < 8 ==> IsRange(values, Dispersion(values))
    ensures |values| >= 8 ==> IsQuartileRange(values, Dispersion(values))
  {
    ExtremesOfSorted(values);
    if |values| < 8 {
      assert LeastOf(values, Sort(values)[0]) && GreatestOf(values, Sort(values)[|values| - 1]);
    } else {
      QuantileByCounts(values, 0.25, Quantile(values, 0.25));
      QuantileByCounts(values, 0.75, Quantile(values, 0.75));
    }
  }

  lemma ExtremesOfSorted(values: seq<real>)
    requires values != []
    ensures |Sort(values)| == |values|
    ensures LeastOf(values, Sort(values)[0]) && GreatestOf(values, Sort(values)[|values| - 1])
  {
    MedianWithinRange(values);
    SortMembers(values);
    assert Sort(values)[0] in Sort(values) && Sort(values)[|values| - 1] in Sort(values);
  }

  /** A summary: the samples themselves, their extremes, and the average of their two middle values. */
  lemma SummaryMeans(meta: Metric, values: seq<real>) returns (lo: real, hi: real)
    requires values != []
    ensures var a := Summary(meta, values);
            a.meta == meta && a.samples == values && LeastOf(values, a.min) && GreatestOf(values, a.max) && 2.0 * a.value == lo + hi
    ensures IsKth(values, (|values| - 1) / 2, lo) && IsKth(values, |values| / 2, hi)
  {
    ExtremesOfSorted(values);
    lo, hi := MediansByCounts(values);
  }

  /** Its spread is the dispersion as a fraction of the median, and zero for a median of zero. */
  lemma SpreadMeans(meta: Metric, values: seq<real>)
    requires values != []
    ensures var a := Summary(meta, values);
            if a.value == 0.0 then a.spread == 0.0 else a.spread * Abs(a.value) == Dispersion(values)
  {
    var median, dispersion := MeanMedian(values), Dispersion(values);
    DispersionIsNotNegative(values);
    if median != 0.0 {
      SpreadOfRange(dispersion, median);
      var q := Quotient(dispersion, Abs(median));
    }
  }

  lemma DispersionIsNotNegative(values: seq<real>)
    requires values != []
    ensures Dispersion(values) >= 0.0
  {
    SortSorts(values);
    if |values| >= 8 {
      RankMonotone(|values|, 0.25, 0.75);
    }
  }

  // ---------- Grouping repetitions by metric ----------

  /** The metric names in order of first appearance. */
  function Names(ms: seq<Metric>): seq<string> {
    if ms == [] then []
    else
      var before := Names(ms[..|ms| - 1]);
      if ms[|ms| - 1].name in before then before else before + [ms[|ms| - 1].name]
  }

  predicate HasName(name: string, m: Metric) { m.name == name }

  function Named(ms: seq<Metric>, name: string): seq<Metric> {
    Filter((m: Metric) => HasName(name, m), ms)
  }

  function ValuesOf(ms: seq<Metric>, name: string): seq<real> {
    Map((m: Metric) => m.value, Named(ms, name))
  }

  /** The first metric of that name decides its unit, direction and flags. */
  function MetaOf(ms: seq<Metric>, name: string): Option<Metric> {
    if Named(ms, name) == [] then None else Some(Named(ms, name)[0])
  }

  lemma NamedPush(ms: seq<Metric>, m: Metric, name: string)
    ensures Named(ms + [m], name) == Named(ms, name) + if m.name == name then [m] else []
    ensures ValuesOf(ms + [m], name) == ValuesOf(ms, name) + if m.name == name then [m.value] else []
    ensures MetaOf(ms + [m], name) == if MetaOf(ms, name).None? && m.name == name then Some(m) else MetaOf(ms, name)
  {
    FilterPush((a: Metric) => HasName(name, a), ms, m);
  }

  lemma NamesPush(ms: seq<Metric>, m: Metric)
    ensures Names(ms + [m]) == if m.name in Names(ms) then Names(ms) else Names(ms) + [m.name]
  {
    assert (ms + [m])[..|ms|] == ms;
  }

  lemma {:induction false} NamedOnce(ms: seq<Metric>, name: string)
    ensures name in Names(ms) <==> MetaOf(ms, name).Some?
    ensures name in Names(ms) <==> ValuesOf(ms, name) != []
    ensures forall i, j :: 0 <= i < j < |Names(ms)| ==> Names(ms)[i] != Names(ms)[j]
  {
    if ms != [] {
      var before, m := ms[..|ms| - 1], ms[|ms| - 1];
      assert ms == before + [m];
      NamedOnce(before, name);
      NamedPush(before, m, name);
      NamesPush(before, m);
    }
  }

  /** Where in `ms` the metrics of that name stand. */
  function PlacesOf(ms: seq<Metric>, name: string): seq<nat> {
    Positions((m: Metric) => HasName(name, m), ms)
  }

  /** The values of a name are those of all its metrics, in their order, and its first metric is its meta. */
  lemma ValuesByPlace(ms: seq<Metric>, name: string)
    ensures var at := PlacesOf(ms, name);
            && (forall i :: 0 <= i < |ms| ==> (i in at <==> ms[i].name == name))
            && (forall j, k :: 0 <= j < k < |at| ==> at[j] < at[k] < |ms|)
            && |ValuesOf(ms, name)| == |at| && (forall k :: 0 <= k < |at| ==> at[k] < |ms| && ValuesOf(ms, name)[k] == ms[at[k]].value)
            && MetaOf(ms, name) == if at == [] then None else Some(ms[at[0]])
  {
    var test := (m: Metric) => HasName(name, m);
    FilterByPosition(test, ms);
    forall i | 0 <= i < |ms| ensures i in PlacesOf(ms, name) <==> ms[i].name == name {
      PositionsAreThoseThatPass(test, ms, i);
    }
  }

  /** The names stand in the order in which they first appear. */
  lemma {:induction false} NamesByFirstAppearance(ms: seq<Metric>) returns (first: seq<nat>)
    ensures |first| == |Names(ms)|
    ensures forall k :: 0 <= k < |first| ==>
              first[k] < |ms| && ms[first[k]].name == Names(ms)[k] && forall i :: 0 <= i < first[k] ==> ms[i].name != Names(ms)[k]
    ensures forall j, k :: 0 <= j < k < |first| ==> first[j] < first[k]
    ensures forall i :: 0 <= i < |ms| ==> ms[i].name in Names(ms)
  {
    first := [];
    if ms != [] {
      var before, m := ms[..|ms| - 1], ms[|ms| - 1];
      assert ms == before + [m];
      first := NamesByFirstAppearance(before);
      NamesPush(before, m);
      if m.name !in Names(before) {
        first := first + [|before|];
      }
      assert forall i :: 0 <= i < |before| ==> ms[i] == before[i] && before[i].name in Names(before);
    }
  }

  datatype Entry = Entry(meta: Metric, values: seq<real>)

  /** What the table holds once the metrics `ms` have been entered. */
  ghost predicate Grouped(ms: seq<Metric>, order: seq<string>, byName: map<string, Entry>) {
    && order == Names(ms)
    && (forall name :: name in byName <==> name in order)
    && forall name :: name in byName ==>
         MetaOf(ms, name) == Some(byName[name].meta) && byName[name].values == ValuesOf(ms, name)
  }

  lemma NamedOnceForAll(ms: seq<Metric>)
    ensures forall name :: name in Names(ms) <==> MetaOf(ms, name).Some?
    ensures forall name :: name in Names(ms) <==> ValuesOf(ms, name) != []
  {
    forall name
      ensures name in Names(ms) <==> MetaOf(ms, name).Some?
      ensures name in Names(ms) <==> ValuesOf(ms, name) != []
    {
      NamedOnce(ms, name);
    }
  }

  /** Enter one metric: open its entry if the name is new, then add the value. */
  method Enter(ghost ms: seq<Metric>, m: Metric, order: seq<string>, byName: map<string, Entry>)
    returns (order': seq<string>, byName': map<string, Entry>)
    requires Grouped(ms, order, byName)
    ensures Grouped(ms + [m], order', byName')
  {
    NamedOnceForAll(ms);
    NamesPush(ms, m);
    forall name
      ensures ValuesOf(ms + [m], name) == ValuesOf(ms, name) + if m.name == name then [m.value] else []
      ensures MetaOf(ms + [m], name) == if MetaOf(ms, name).None? && m.name == name then Some(m) else MetaOf(ms, name)
    {
      NamedPush(ms, m, name);
    }
    order', byName' := order, byName;
    if m.name !in byName' {
      byName' := byName'[m.name := Entry(m, [])];
      order' := order' + [m.name];
    }
    byName' := byName'[m.name := byName'[m.name].(values := byName'[m.name].values + [m.value])];
  }

  method EnterAll(ghost before: seq<Metric>, run: seq<Metric>, order: seq<string>, byName: map<string, Entry>)
    returns (order': seq<string>, byName': map<string, Entry>)
    requires Grouped(before, order, byName)
    ensures Grouped(before + run, order', byName')
  {
    order', byName' := order, byName;
    assert before + run[..0] == before;
    for i := 0 to |run|
      invariant Grouped(before + run[..i], order', byName')
    {
      assert before + run[..i + 1] == before + run[..i] + [run[i]];
      order', byName' := Enter(before + run[..i], run[i], order', byName');
    }
    assert run[..|run|] == run;
  }

  function SummaryOf(ms: seq<Metric>, name: string): Aggregated
    requires name in Names(ms)
  {
    NamedOnce(ms, name);
    Summary(MetaOf(ms, name).value, ValuesOf(ms, name))
  }

  /** One summary per metric name, in order of first appearance, over all its values in run order. */
  method Aggregate(perRun: seq<seq<Metric>>) returns (result: seq<Aggregated>)
    ensures var ms := Flatten(perRun);
            && |result| == |Names(ms)|
            && forall i :: 0 <= i < |result| ==> result[i] == SummaryOf(ms, Names(ms)[i])
  {
    var order: seq<string> := [];
    var byName: map<string, Entry> := map[];
    for r := 0 to |perRun|
      invariant Grouped(Flatten(perRun[..r]), order, byName)
    {
      assert perRun[..r + 1][..r] == perRun[..r];
      order, byName := EnterAll(Flatten(perRun[..r]), perRun[r], order, byName);
    }
    assert perRun[..|perRun|] == perRun;
    result := Summaries(Flatten(perRun), order, byName);
  }

  method Summaries(ghost ms: seq<Metric>, order: seq<string>, byName: map<string, Entry>) returns (result: seq<Aggregated>)
    requires Grouped(ms, order, byName)
    ensures |result| == |Names(ms)|
    ensures forall i :: 0 <= i < |result| ==> result[i] == SummaryOf(ms, Names(ms)[i])
  {
    result := [];
    for i := 0 to |order|
      invariant |result| == i
      invariant forall j :: 0 <= j < i ==> result[j] == SummaryOf(ms, Names(ms)[j])
    {
      NamedOnce(ms, order[i]);
      var entry := byName[order[i]];
      result := result + [Summary(entry.meta, entry.values)];
    }
  }

  // ---------- Comparing two runs ----------

  datatype Verdict = Regressed | Improved | Unchanged | Inconclusive | New

  /** `delta` is a signed fraction, positive when better; `None` when none is defined. */
  datatype Comparison = Comparison(
    scenario: string, metric: string, informational: bool, exact: bool,
    baseline: real, current: real, delta: Option<real>, absoluteDiff: real, verdict: Verdict)

  function Improvement(higher: bool, baseline: real, current: real): real {
    if higher then current - baseline else baseline - current
  }

  function CompareMetric(scenario: string, current: Aggregated, baseline: Option<Aggregated>, threshold: real): Comparison {
    var m := current.meta;
    if baseline.None? then
      Comparison(scenario, m.name, false, false, 0.0, current.value, None, 0.0, New)
    else
      var b := baseline.value;
      var diff := current.value - b.value;
      var better := Improvement(m.higher, b.value, current.value);
      var base := Comparison(scenario, m.name, m.informational, false, b.value, current.value, None, diff, Unchanged);
      var relative := if b.value > 0.0 then Some(better / b.value) else None;
      if m.exact && !m.informational then
        base.(exact := true, delta := relative,
              verdict := if diff == 0.0 then Unchanged else if better < 0.0 then Regressed else Improved)
      else if m.informational then base.(delta := relative)
      else if Abs(diff) <= (if m.noiseFloor.Some? then m.noiseFloor.value else 0.0) then base
      else if b.value <= 0.0 then base.(verdict := if better < 0.0 then Regressed else Improved)
      else
        var delta := better / b.value;
        base.(delta := Some(delta),
              verdict := if Abs(delta) <= threshold then Unchanged
                         else if Abs(delta) <= Max(current.spread, b.spread) then Inconclusive
                         else if delta < 0.0 then Regressed else Improved)
  }

  predicate Called(v: Verdict) {
    v.Regressed? || v.Improved?
  }

  lemma DivideBoth(a: real, b: real, c: real)
    requires c > 0.0
    ensures a / c > b / c <==> a > b
    ensures Abs(a / c) == Abs(a) / c
  {
    var p, q := a / c, b / c;
    assert (p - q) * c == a - b;
    TimesPositive(p - q, c);
    assert p * c == a;
    TimesPositive(p, c);
  }

  /** A called timing moved, in its own units, by more than either run's noise. */
  lemma CalledBeatsNoise(scenario: string, cur: Aggregated, base: Aggregated, threshold: real)
    requires !cur.meta.exact && base.value > 0.0
    requires Called(CompareMetric(scenario, cur, Some(base), threshold).verdict)
    ensures Abs(cur.value - base.value) / base.value > base.spread
    ensures Abs(cur.value - base.value) / base.value > cur.spread
  {
    DivideBoth(Improvement(cur.meta.higher, base.value, cur.value), 0.0, base.value);
  }

  /** The value lies strictly beyond every sample, on one side of them all. */
  ghost predicate Outside(value: real, samples: seq<real>) {
    (forall x :: x in samples ==> value < x) || (forall x :: x in samples ==> x < value)
  }

  lemma FarMeansOutside(value: real, samples: seq<real>)
    requires samples != []
    requires Abs(value - MeanMedian(samples)) > Sort(samples)[|Sort(samples)| - 1] - Sort(samples)[0]
    ensures Outside(value, samples)
  {
    MedianWithinRange(samples);
  }

  /**
   A called timing is no accident of the baseline: with fewer than eight baseline samples the
   current median lies strictly outside all of them.
   */
  lemma CalledIsOutsideBaseline(scenario: string, cur: Aggregated, meta: Metric, samples: seq<real>, threshold: real)
    requires !cur.meta.exact && 0 < |samples| < 8 && Summary(meta, samples).value > 0.0
    requires Called(CompareMetric(scenario, cur, Some(Summary(meta, samples)), threshold).verdict)
    ensures Outside(cur.value, samples)
  {
    var base := Summary(meta, samples);
    CalledBeatsNoise(scenario, cur, base, threshold);
    MedianWithinRange(samples);
    DivideBoth(Abs(cur.value - base.value), Dispersion(samples), base.value);
    DivideBoth(Dispersion(samples), 0.0, base.value);
    FarMeansOutside(cur.value, samples);
  }

  /**
   Nor of the current run, as long as its median is not zero and no further from zero than the
   baseline: with fewer than eight current samples the baseline median lies outside all of them.
   `CurrentIsGuardedIff` shows that this guard is exact.
   */
  lemma CalledIsOutsideCurrent(scenario: string, meta: Metric, samples: seq<real>, base: Aggregated, threshold: real)
    requires !meta.exact && 0 < |samples| < 8
    requires 0.0 < Abs(Summary(meta, samples).value) <= base.value
    requires Called(CompareMetric(scenario, Summary(meta, samples), Some(base), threshold).verdict)
    ensures Outside(base.value, samples)
  {
    var cur := Summary(meta, samples);
    CalledBeatsNoise(scenario, cur, base, threshold);
    MedianWithinRange(samples);
    var d, range := Abs(cur.value - base.value), Dispersion(samples);
    SpreadOfRange(range, cur.value);
    DivideMonotone(range, Abs(cur.value), base.value);
    DivideBoth(d, range, base.value);
    FarMeansOutside(base.value, samples);
  }

  lemma SpreadOfRange(range: real, median: real)
    requires range >= 0.0 && median != 0.0
    ensures Abs(range / median) == range / Abs(median)
  {
    var q := Quotient(range, median);
    if median > 0.0 {
      TimesPositive(q, median);
    } else {
      NegateBoth(q, median);
      QuotientIs(range, -median, -q);
      TimesPositive(-q, -median);
    }
  }

  lemma NegateBoth(x: real, y: real)
    ensures (-x) * (-y) == x * y
  {
  }

  lemma DivideMonotone(a: real, b: real, c: real)
    requires a >= 0.0 && 0.0 < b <= c
    ensures a / b >= a / c
  {
    var p, q := a / b, a / c;
    assert p * b == a == q * c;
    TimesPositive(q, c);
    assert q * (c - b) >= 0.0;
    assert (p - q) * b == q * (c - b);
    TimesPositive(p - q, b);
  }

  lemma SummaryOfSorted(meta: Metric, t: seq<real>)
    requires Sorted(t) && 0 < |t| < 8 && |t| % 2 == 1
    ensures var med := t[|t| / 2];
            Summary(meta, t) == Aggregated(meta, med, t, t[0], t[|t| - 1], if med == 0.0 then 0.0 else Abs((t[|t| - 1] - t[0]) / med))
  {
    SortOfSorted(t);
  }

  // ---------- What a verdict says about the two values ----------

  /** The current value is the worse one, in the metric's own direction. */
  predicate Worse(higher: bool, baseline: real, current: real) {
    if higher then current < baseline else current > baseline
  }

  /** The two values are no further apart than that fraction of the baseline. */
  predicate Within(baseline: real, current: real, fraction: real) {
    Abs(current - baseline) <= fraction * baseline
  }

  predicate WithinFloor(m: Metric, baseline: real, current: real) {
    Abs(current - baseline) <= if m.noiseFloor.Some? then m.noiseFloor.value else 0.0
  }

  /** Without a baseline entry a row is new, and with one it never is. */
  lemma NewIffNoBaseline(scenario: string, cur: Aggregated, base: Option<Aggregated>, threshold: real)
    ensures CompareMetric(scenario, cur, base, threshold).verdict.New? <==> base.None?
  {
  }

  /** An exact row: no threshold and no noise, any difference is called, by its direction. */
  lemma ExactVerdictMeans(scenario: string, cur: Aggregated, base: Aggregated, threshold: real)
    requires cur.meta.exact && !cur.meta.informational
    ensures var v, higher := CompareMetric(scenario, cur, Some(base), threshold).verdict, cur.meta.higher;
            && (v.Unchanged? <==> cur.value == base.value)
            && (v.Regressed? <==> Worse(higher, base.value, cur.value))
            && (v.Improved? <==> Worse(higher, cur.value, base.value))
  {
  }

  /** An informational row is never called. */
  lemma InformationalIsUnchanged(scenario: string, cur: Aggregated, base: Aggregated, threshold: real)
    requires cur.meta.informational
    ensures CompareMetric(scenario, cur, Some(base), threshold).verdict.Unchanged?
  {
  }

  lemma WithinMeans(baseline: real, current: real, higher: bool, fraction: real)
    requires baseline > 0.0
    ensures Abs(Improvement(higher, baseline, current) / baseline) <= fraction <==> Within(baseline, current, fraction)
  {
    var better := Improvement(higher, baseline, current);
    var q := Quotient(better, baseline);
    DivideBoth(better, 0.0, baseline);
    var p := Quotient(Abs(better), baseline);
    assert p == Abs(q);
    TimesPositive(p - fraction, baseline);
    assert (p - fraction) * baseline == p * baseline - fraction * baseline;
  }

  /**
   A timing against a positive baseline: unchanged within the noise floor or the threshold,
   inconclusive within either run's own spread, and beyond all of them called by its direction.
   */
  lemma TimingVerdictMeans(scenario: string, cur: Aggregated, base: Aggregated, threshold: real)
    requires !cur.meta.exact && !cur.meta.informational && base.value > 0.0
    ensures var v, b, c := CompareMetric(scenario, cur, Some(base), threshold).verdict, base.value, cur.value;
            var unmoved := WithinFloor(cur.meta, b, c) || Within(b, c, threshold);
            var noise := Within(b, c, cur.spread) || Within(b, c, base.spread);
            && (v.Unchanged? <==> unmoved)
            && (v.Inconclusive? <==> !unmoved && noise)
            && (v.Regressed? ==> Worse(cur.meta.higher, b, c))
            && (v.Improved? ==> Worse(cur.meta.higher, c, b) || b == c)
            && (Called(v) <==> !unmoved && !noise)
  {
    var higher := cur.meta.higher;
    WithinMeans(base.value, cur.value, higher, threshold);
    WithinMeans(base.value, cur.value, higher, cur.spread);
    WithinMeans(base.value, cur.value, higher, base.spread);
    DeltaSign(higher, base.value, cur.value);
  }

  /** A relative delta is negative exactly for the worse value, and positive exactly for the better one. */
  lemma DeltaSign(higher: bool, baseline: real, current: real)
    requires baseline > 0.0
    ensures Improvement(higher, baseline, current) / baseline < 0.0 <==> Worse(higher, baseline, current)
    ensures Improvement(higher, baseline, current) / baseline > 0.0 <==> Worse(higher, current, baseline)
  {
    var q := Quotient(Improvement(higher, baseline, current), baseline);
    TimesPositive(q, baseline);
  }

  /** A timing against a baseline at or below zero: nothing but the noise floor is applied. */
  lemma VerdictWithoutPercentage(scenario: string, cur: Aggregated, base: Aggregated, threshold: real)
    requires !cur.meta.exact && !cur.meta.informational && base.value <= 0.0
    ensures var v, b, c := CompareMetric(scenario, cur, Some(base), threshold).verdict, base.value, cur.value;
            && (v.Unchanged? <==> WithinFloor(cur.meta, b, c))
            && (v.Regressed? <==> !WithinFloor(cur.meta, b, c) && Worse(cur.meta.higher, b, c))
            && (v.Unchanged? || Called(v))
  {
  }

  /** For every row that is called, the direction: regressed exactly if the current value is the worse one. */
  lemma CalledByDirection(scenario: string, cur: Aggregated, base: Aggregated, threshold: real)
    requires Called(CompareMetric(scenario, cur, Some(base), threshold).verdict)
    ensures CompareMetric(scenario, cur, Some(base), threshold).verdict.Regressed? <==> Worse(cur.meta.higher, base.value, cur.value)
  {
    if base.value > 0.0 {
      DeltaSign(cur.meta.higher, base.value, cur.value);
    }
  }

  /** Where a row carries a delta, it is the improvement as a fraction of the baseline, positive for the better value. */
  lemma DeltaMeans(scenario: string, cur: Aggregated, base: Aggregated, threshold: real)
    ensures var c := CompareMetric(scenario, cur, Some(base), threshold);
            && (c.delta.Some? <==>
                  base.value > 0.0 && (cur.meta.exact || cur.meta.informational || !WithinFloor(cur.meta, base.value, cur.value)))
            && (c.delta.Some? ==>
                  c.delta.value * base.value == if cur.meta.higher then cur.value - base.value else base.value - cur.value)
            && c.scenario == scenario && c.metric == cur.meta.name
            && c.baseline == base.value && c.current == cur.value && c.absoluteDiff == cur.value - base.value
            && (c.exact <==> cur.meta.exact && !cur.meta.informational) && c.informational == cur.meta.informational
  {
    if base.value > 0.0 {
      var q := Quotient(Improvement(cur.meta.higher, base.value, cur.value), base.value);
    }
  }

  // ---------- Exactly when the current run's range protects a verdict ----------

  /** The move from baseline to current passes every test of the verdict but the current run's own noise. */
  predicate CanBeCalled(meta: Metric, base: Aggregated, current: real, threshold: real)
    requires base.value > 0.0
  {
    var move := Abs(current - base.value);
    && !meta.informational
    && move > (if meta.noiseFloor.Some? then meta.noiseFloor.value else 0.0)
    && move / base.value > threshold
    && move / base.value > base.spread
  }

  lemma CalledIffMoved(scenario: string, cur: Aggregated, base: Aggregated, threshold: real)
    requires !cur.meta.exact && base.value > 0.0
    ensures Called(CompareMetric(scenario, cur, Some(base), threshold).verdict)
       <==> CanBeCalled(cur.meta, base, cur.value, threshold) && Abs(cur.value - base.value) / base.value > cur.spread
  {
    DivideBoth(Improvement(cur.meta.higher, base.value, cur.value), 0.0, base.value);
  }

  /** No run of fewer than eight samples with this median gets a verdict while its samples surround the baseline. */
  ghost predicate CurrentIsGuarded(meta: Metric, base: Aggregated, current: real, threshold: real) {
    forall samples: seq<real> |
      0 < |samples| < 8 && MeanMedian(samples) == current
      && Called(CompareMetric("", Summary(meta, samples), Some(base), threshold).verdict) ::
      Outside(base.value, samples)
  }

  /** Three samples with median `current`, the range of which reaches just to the baseline. */
  function Reaching(baseline: real, current: real): seq<real> {
    if current < baseline then [current, current, baseline] else [baseline, current, current]
  }

  /** Too far from zero, or at zero, the median hides how far its samples reach. */
  lemma ReachingIsCalled(meta: Metric, base: Aggregated, current: real, threshold: real)
    requires !meta.exact && base.value > 0.0 && CanBeCalled(meta, base, current, threshold)
    requires current == 0.0 || Abs(current) > base.value
    ensures var samples := Reaching(base.value, current);
            && MeanMedian(samples) == current
            && Called(CompareMetric("", Summary(meta, samples), Some(base), threshold).verdict)
            && !Outside(base.value, samples)
  {
    var samples, range := Reaching(base.value, current), Abs(current - base.value);
    SummaryOfSorted(meta, samples);
    DivideBoth(range, 0.0, base.value);
    if current != 0.0 {
      SpreadOfRange(range, current);
      DivideStrictlyMonotone(range, base.value, Abs(current));
    }
    CalledIffMoved("", Summary(meta, samples), base, threshold);
    assert samples[0] in samples && samples[2] in samples;
  }

  lemma DivideStrictlyMonotone(a: real, b: real, c: real)
    requires a > 0.0 && 0.0 < b < c
    ensures a / b > a / c
  {
    var p, q := a / b, a / c;
    assert p * b == a == q * c;
    TimesPositive(q, c);
    TimesPositive(c - b, q);
    assert (p - q) * b == (c - b) * q;
    TimesPositive(p - q, b);
  }

  /**
   The current run's range protects a verdict if and only if the current median is not zero and no
   further from zero than the baseline, or the move is too small to be called in any case.  It
   fails for a median above the baseline, for one of zero, and for one below minus the baseline.
   */
  lemma CurrentIsGuardedIff(meta: Metric, base: Aggregated, current: real, threshold: real)
    requires !meta.exact && base.value > 0.0
    ensures CurrentIsGuarded(meta, base, current, threshold)
       <==> 0.0 < Abs(current) <= base.value || !CanBeCalled(meta, base, current, threshold)
  {
    if 0.0 < Abs(current) <= base.value || !CanBeCalled(meta, base, current, threshold) {
      forall samples: seq<real> |
        0 < |samples| < 8 && MeanMedian(samples) == current
        && Called(CompareMetric("", Summary(meta, samples), Some(base), threshold).verdict)
        ensures Outside(base.value, samples)
      {
        CalledIffMoved("", Summary(meta, samples), base, threshold);
        CalledIsOutsideCurrent("", meta, samples, base, threshold);
      }
    } else {
      ReachingIsCalled(meta, base, current, threshold);
    }
  }

  // ---------- The whole comparison ----------

  datatype Scenario = Scenario(name: string, failed: bool, metrics: seq<Aggregated>)

  /** `probe` is the median of the bare-CPU calibration samples. */
  datatype Result = Result(scenarios: seq<Scenario>, probe: real)

  const MACHINE_DRIFT_LIMIT := 0.05

  function MachineDelta(current: Result, baseline: Result): real {
    if baseline.probe == 0.0 then 0.0 else (current.probe - baseline.probe) / baseline.probe
  }

  /** The last scenario, and in it the last metric, of that name: `new Map` keeps the last entry. */
  function FindScenario(ss: seq<Scenario>, name: string): Option<Scenario> {
    if ss == [] then None
    else if ss[|ss| - 1].name == name then Some(ss[|ss| - 1])
    else FindScenario(ss[..|ss| - 1], name)
  }

  function FindMetric(ms: seq<Aggregated>, name: string): Option<Aggregated> {
    if ms == [] then None
    else if ms[|ms| - 1].meta.name == name then Some(ms[|ms| - 1])
    else FindMetric(ms[..|ms| - 1], name)
  }

  function BaselineOf(baseline: Result, scenario: string, metric: string): Option<Aggregated> {
    match FindScenario(baseline.scenarios, scenario)
    case None => None
    case Some(s) => FindMetric(s.metrics, metric)
  }

  function RawOf(baseline: Result, s: Scenario, threshold: real): seq<Comparison> {
    if s.failed then [] else
      seq(|s.metrics|, i requires 0 <= i < |s.metrics| =>
        CompareMetric(s.name, s.metrics[i], BaselineOf(baseline, s.name, s.metrics[i].meta.name), threshold))
  }

  function Raw(baseline: Result, scenarios: seq<Scenario>, threshold: real): seq<Comparison> {
    Collect((s: Scenario) => RawOf(baseline, s, threshold), scenarios)
  }

  /** What an untrustworthy machine leaves of a comparison. */
  function Downgraded(c: Comparison): Comparison {
    if !c.exact && Called(c.verdict) then c.(verdict := Inconclusive) else c
  }

  function Judged(current: Result, baseline: Result, threshold: real): (cs: seq<Comparison>)
    ensures |cs| == |Raw(baseline, current.scenarios, threshold)|
  {
    var raw := Raw(baseline, current.scenarios, threshold);
    if Abs(MachineDelta(current, baseline)) > MACHINE_DRIFT_LIMIT then
      seq(|raw|, i requires 0 <= i < |raw| => Downgraded(raw[i]))
    else raw
  }

  method CompareScenario(baseline: Result, scenario: Scenario, threshold: real) returns (cs: seq<Comparison>)
    ensures cs == RawOf(baseline, scenario, threshold)
  {
    cs := [];
    if !scenario.failed {
      for i := 0 to |scenario.metrics|
        invariant |cs| == i
        invariant forall j :: 0 <= j < i ==> cs[j] == RawOf(baseline, scenario, threshold)[j]
      {
        var m := scenario.metrics[i];
        cs := cs + [CompareMetric(scenario.name, m, BaselineOf(baseline, scenario.name, m.meta.name), threshold)];
      }
    }
  }

  method Downgrade(raw: seq<Comparison>) returns (comparisons: seq<Comparison>)
    ensures comparisons == seq(|raw|, i requires 0 <= i < |raw| => Downgraded(raw[i]))
  {
    comparisons := raw;
    for i := 0 to |comparisons|
      invariant |comparisons| == |raw|
      invariant forall j :: 0 <= j < i ==> comparisons[j] == Downgraded(raw[j])
      invariant forall j :: i <= j < |raw| ==> comparisons[j] == raw[j]
    {
      var c := comparisons[i];
      if !c.exact && (c.verdict.Regressed? || c.verdict.Improved?) {
        comparisons := comparisons[i := c.(verdict := Inconclusive)];
      }
    }
  }

  predicate IsRegressed(c: Comparison) { c.verdict.Regressed? }

  function Regressions(cs: seq<Comparison>): seq<Comparison> {
    Filter(IsRegressed, cs)
  }

  method CompareAll(current: Result, baseline: Result, threshold: real) returns (comparisons: seq<Comparison>)
    ensures comparisons == Raw(baseline, current.scenarios, threshold)
  {
    comparisons := [];
    for s := 0 to |current.scenarios|
      invariant comparisons == Raw(baseline, current.scenarios[..s], threshold)
    {
      assert current.scenarios[..s + 1][..s] == current.scenarios[..s];
      var cs := CompareScenario(baseline, current.scenarios[s], threshold);
      comparisons := comparisons + cs;
    }
    assert current.scenarios[..|current.scenarios|] == current.scenarios;
  }

  method SelectRegressed(comparisons: seq<Comparison>) returns (regressions: seq<Comparison>)
    ensures regressions == Regressions(comparisons)
  {
    regressions := [];
    for i := 0 to |comparisons|
      invariant regressions == Regressions(comparisons[..i])
    {
      assert comparisons[..i + 1][..i] == comparisons[..i];
      if comparisons[i].verdict.Regressed? {
        regressions := regressions + [comparisons[i]];
      }
    }
    assert comparisons[..|comparisons|] == comparisons;
  }

  method CompareRuns(current: Result, baseline: Result, threshold: real)
    returns (comparisons: seq<Comparison>, regressions: seq<Comparison>)
    ensures comparisons == Judged(current, baseline, threshold)
    ensures regressions == Regressions(comparisons)
  {
    comparisons := CompareAll(current, baseline, threshold);
    if Abs(MachineDelta(current, baseline)) > MACHINE_DRIFT_LIMIT {
      comparisons := Downgrade(comparisons);
    }
    regressions := SelectRegressed(comparisons);
  }

  /** The machine moved by more than a twentieth of what it was. */
  predicate MachineMoved(current: Result, baseline: Result) {
    baseline.probe != 0.0 && Abs(current.probe - baseline.probe) > 0.05 * Abs(baseline.probe)
  }

  lemma MachineMovedIff(current: Result, baseline: Result)
    ensures Abs(MachineDelta(current, baseline)) > MACHINE_DRIFT_LIMIT <==> MachineMoved(current, baseline)
  {
    if baseline.probe != 0.0 {
      var q := Quotient(current.probe - baseline.probe, baseline.probe);
      assert MachineDelta(current, baseline) == q;
      AbsTimes(q, baseline.probe);
      assert Abs(q) * Abs(baseline.probe) == Abs(current.probe - baseline.probe);
      FurtherThan(Abs(q), 0.05, Abs(baseline.probe));
    }
  }

  lemma AbsTimes(x: real, y: real)
    ensures Abs(x * y) == Abs(x) * Abs(y)
  {
    if x != 0.0 && y != 0.0 {
      TimesPositive(Abs(x), Abs(y));
      NegateBoth(x, y);
      assert (-x) * y == -(x * y) && x * (-y) == -(x * y);
    }
  }

  /** On a machine that did not move, every row keeps the verdict of its two values. */
  lemma SteadyMachineKeepsVerdicts(current: Result, baseline: Result, threshold: real)
    requires !MachineMoved(current, baseline)
    ensures Judged(current, baseline, threshold) == Raw(baseline, current.scenarios, threshold)
  {
    MachineMovedIff(current, baseline);
  }

  /** Where the rows of scenario `i` start. */
  function Offset(scenarios: seq<Scenario>, i: nat): nat
    requires i <= |scenarios|
  {
    if i == 0 then 0 else Offset(scenarios, i - 1) + if scenarios[i - 1].failed then 0 else |scenarios[i - 1].metrics|
  }

  lemma {:induction false} OffsetOfPrefix(scenarios: seq<Scenario>, more: seq<Scenario>, i: nat)
    requires i <= |scenarios|
    ensures Offset(scenarios + more, i) == Offset(scenarios, i)
  {
    if i > 0 {
      OffsetOfPrefix(scenarios, more, i - 1);
    }
  }

  /** Every metric of a scenario that did not fail has its row, in order, and there are no others. */
  lemma {:induction false} RowsInOrder(baseline: Result, scenarios: seq<Scenario>, threshold: real, i: nat, m: nat)
    requires i < |scenarios| && !scenarios[i].failed && m < |scenarios[i].metrics|
    ensures var cur, raw := scenarios[i].metrics[m], Raw(baseline, scenarios, threshold);
            && |raw| == Offset(scenarios, |scenarios|)
            && Offset(scenarios, i) + m < |raw|
            && raw[Offset(scenarios, i) + m]
               == CompareMetric(scenarios[i].name, cur, BaselineOf(baseline, scenarios[i].name, cur.meta.name), threshold)
  {
    RowCount(baseline, scenarios, threshold);
    var n := |scenarios| - 1;
    var before := scenarios[..n];
    assert scenarios == before + [scenarios[n]];
    RowCount(baseline, before, threshold);
    OffsetOfPrefix(before, [scenarios[n]], n);
    if i < n {
      RowsInOrder(baseline, before, threshold, i, m);
      OffsetOfPrefix(before, [scenarios[n]], i);
    }
  }

  lemma {:induction false} RowCount(baseline: Result, scenarios: seq<Scenario>, threshold: real)
    ensures |Raw(baseline, scenarios, threshold)| == Offset(scenarios, |scenarios|)
  {
    if scenarios != [] {
      var n := |scenarios| - 1;
      RowCount(baseline, scenarios[..n], threshold);
      OffsetOfPrefix(scenarios[..n], [scenarios[n]], n);
      assert scenarios == scenarios[..n] + [scenarios[n]];
    }
  }

  /** Entry `i` is the last of that name. */
  predicate LastNamed(names: seq<string>, name: string, i: int) {
    0 <= i < |names| && names[i] == name && forall j :: i < j < |names| ==> names[j] != name
  }

  ghost predicate IsBaseline(baseline: Result, scenario: string, metric: string, i: int, m: int) {
    && LastNamed(ScenarioNames(baseline.scenarios), scenario, i)
    && LastNamed(MetricNames(baseline.scenarios[i].metrics), metric, m)
  }

  function ScenarioNames(ss: seq<Scenario>): seq<string> { Map((s: Scenario) => s.name, ss) }

  function MetricNames(ms: seq<Aggregated>): seq<string> { Map((m: Aggregated) => m.meta.name, ms) }

  lemma {:induction false} FindScenarioIsLast(ss: seq<Scenario>, name: string) returns (i: nat)
    ensures FindScenario(ss, name).None? ==> name !in ScenarioNames(ss)
    ensures FindScenario(ss, name).Some? ==> LastNamed(ScenarioNames(ss), name, i) && FindScenario(ss, name).value == ss[i]
  {
    i := 0;
    if ss != [] {
      var n := |ss| - 1;
      if ss[n].name == name {
        i := n;
      } else {
        i := FindScenarioIsLast(ss[..n], name);
        assert ScenarioNames(ss) == ScenarioNames(ss[..n]) + [ss[n].name];
      }
    }
  }

  lemma {:induction false} FindMetricIsLast(ms: seq<Aggregated>, name: string) returns (i: nat)
    ensures FindMetric(ms, name).None? ==> name !in MetricNames(ms)
    ensures FindMetric(ms, name).Some? ==> LastNamed(MetricNames(ms), name, i) && FindMetric(ms, name).value == ms[i]
  {
    i := 0;
    if ms != [] {
      var n := |ms| - 1;
      if ms[n].meta.name == name {
        i := n;
      } else {
        i := FindMetricIsLast(ms[..n], name);
        assert MetricNames(ms) == MetricNames(ms[..n]) + [ms[n].meta.name];
      }
    }
  }

  /** A row is matched with the last metric of its name in the last scenario of its name, and with nothing if there is none. */
  lemma BaselineIsTheLastOfItsName(baseline: Result, scenario: string, metric: string, i: nat, m: nat)
    ensures IsBaseline(baseline, scenario, metric, i, m) ==>
              BaselineOf(baseline, scenario, metric) == Some(baseline.scenarios[i].metrics[m])
    ensures BaselineOf(baseline, scenario, metric).Some? ==>
              exists k, l :: IsBaseline(baseline, scenario, metric, k, l)
                             && BaselineOf(baseline, scenario, metric).value == baseline.scenarios[k].metrics[l]
  {
    var ss := baseline.scenarios;
    var k := FindScenarioIsLast(ss, scenario);
    assert forall j | 0 <= j < |ss| :: ScenarioNames(ss)[j] in ScenarioNames(ss);
    if FindScenario(ss, scenario).Some? {
      var l := FindMetricIsLast(ss[k].metrics, metric);
      if FindMetric(ss[k].metrics, metric).Some? {
        assert IsBaseline(baseline, scenario, metric, k, l);
      }
      if IsBaseline(baseline, scenario, metric, i, m) {
        assert i == k;
        assert MetricNames(ss[i].metrics)[m] in MetricNames(ss[i].metrics);
        assert m == l;
      }
    }
  }

  /** The regressions are the regressed rows, each in its place among the others. */
  lemma RegressionsInOrder(cs: seq<Comparison>)
    ensures var at := Positions(IsRegressed, cs);
            && (forall i :: 0 <= i < |cs| ==> (i in at <==> cs[i].verdict.Regressed?))
            && (forall j, k :: 0 <= j < k < |at| ==> at[j] < at[k])
            && |Regressions(cs)| == |at| && forall k :: 0 <= k < |at| ==> at[k] < |cs| && Regressions(cs)[k] == cs[at[k]]
  {
    FilterByPosition(IsRegressed, cs);
    forall i | 0 <= i < |cs| ensures i in Positions(IsRegressed, cs) <==> cs[i].verdict.Regressed? {
      PositionsAreThoseThatPass(IsRegressed, cs, i);
    }
  }

  /** On a machine that moved, no timing is called; exact metrics keep whatever verdict they had. */
  lemma DriftSilencesTimings(current: Result, baseline: Result, threshold: real, i: nat)
    requires i < |Judged(current, baseline, threshold)|
    requires MachineMoved(current, baseline)
    ensures var raw, c := Raw(baseline, current.scenarios, threshold)[i], Judged(current, baseline, threshold)[i];
            && (Called(c.verdict) ==> c.exact)
            && (c.exact || !Called(raw.verdict) ==> c == raw)
            && c.(verdict := raw.verdict) == raw
  {
    MachineMovedIff(current, baseline);
  }
}
