/**
 The interleaved A/B: the counterbalanced schedule of `ab.ts`, and `ab-verdict.ts`, which turns
 the rounds into one verdict per metric.
 */
module AbVerdict {
  import opened Common
  import opened Sequences
  import opened Quotients
  import opened OrderStats
  import Reals = Series
  import C = Compare

  const NOISY_SPREAD_PCT := 10.0
  const MIN_EFFECT_PCT := 3.0

  /** `max/min - 1` in percent; a side that touches zero and moves has no finite spread. */
  datatype Spread = Pct(value: real) | Infinite

  function SpreadPct(values: seq<real>): Spread
    requires values != []
  {
    SortSorts(values);
    var min, max := Sort(values)[0], Sort(values)[|values| - 1];
    if min <= 0.0 then (if max == min then Pct(0.0) else Infinite)
    else Pct((max / min - 1.0) * 100.0)
  }

  /** What one round says about a metric: both values, and `compare`'s delta and verdict on them. */
  datatype Round = Round(base: real, head: real, delta: Option<real>, verdict: C.Verdict)

  datatype Series = Series(exact: bool, informational: bool, rounds: seq<Round>)
  {
    function Base(): seq<real> { Map((r: Round) => r.base, rounds) }
    function Head(): seq<real> { Map((r: Round) => r.head, rounds) }
    /** A round without a delta reads as zero here; both block the sign test. */
    function Deltas(): seq<real> { Map((r: Round) => if r.delta.Some? then r.delta.value else 0.0, rounds) }
  }

  datatype Verdict = Improved | Regressed | NoChange | Noisy | Info | Unchanged | Nondeterministic

  predicate Constant(values: seq<real>) {
    forall x, y | x in values && y in values :: x == y
  }

  predicate AllPositive(values: seq<real>) {
    forall x | x in values :: x > 0.0
  }

  predicate AllNegative(values: seq<real>) {
    forall x | x in values :: x < 0.0
  }

  function VerdictFor(s: Series): Verdict
    requires s.rounds != []
  {
    if s.exact && !s.informational then
      if !Constant(s.Base()) || !Constant(s.Head()) then Nondeterministic
      else if s.rounds[0].verdict.Regressed? then Regressed
      else if s.rounds[0].verdict.Improved? then Improved
      else Unchanged
    else if s.informational then Info
    else TimingVerdict(s.Base(), s.Head(), s.Deltas())
  }

  /** The sign test: every round agrees, and the median clears the floor. */
  function TimingVerdict(base: seq<real>, head: seq<real>, deltas: seq<real>): Verdict
    requires base != [] && head != [] && deltas != []
  {
    if SpreadPct(base).Infinite? || SpreadPct(head).Infinite?
       || C.Max(SpreadPct(base).value, SpreadPct(head).value) > NOISY_SPREAD_PCT then Noisy
    else if 0.0 in deltas then NoChange
    else
      var medianDelta := LowerMedian(deltas) * 100.0;
      if !(AllPositive(deltas) || AllNegative(deltas)) || C.Abs(medianDelta) < FloorOf(base, head) then NoChange
      else if medianDelta > 0.0 then Improved else Regressed
  }

  /** What a called effect has to clear: the minimum effect and both sides' own spread. */
  function FloorOf(base: seq<real>, head: seq<real>): real
    requires base != [] && head != []
  {
    var b, h := SpreadPct(base), SpreadPct(head);
    C.Max(MIN_EFFECT_PCT, C.Max(if b.Pct? then b.value else 0.0, if h.Pct? then h.value else 0.0))
  }

  function Floor(s: Series): real
    requires s.rounds != []
  {
    FloorOf(s.Base(), s.Head())
  }

  predicate Timing(s: Series) {
    !s.exact && !s.informational
  }

  /** Neither side varies too much to be judged. */
  predicate Quiet(base: seq<real>, head: seq<real>)
    requires base != [] && head != []
  {
    var b, h := SpreadPct(base), SpreadPct(head);
    b.Pct? && h.Pct? && C.Max(b.value, h.value) <= NOISY_SPREAD_PCT
  }

  // ---------- The order of the rounds does not matter ----------

  lemma SameMembers<A>(a: seq<A>, b: seq<A>)
    requires multiset(a) == multiset(b)
    ensures forall x :: x in a <==> x in b
    ensures |a| == |b|
  {
    assert |a| == |multiset(a)| == |multiset(b)| == |b|;
    forall x ensures x in a <==> x in b {
      assert x in multiset(a) <==> x in multiset(b);
    }
  }

  /** A verdict on a timing is unchanged by any reordering of the rounds. */
  lemma TimingVerdictOrderFree(s: Series, t: Series)
    requires s.rounds != [] && multiset(s.rounds) == multiset(t.rounds)
    requires !s.exact && s.exact == t.exact && s.informational == t.informational
    ensures t.rounds != [] && VerdictFor(s) == VerdictFor(t)
  {
    SameMembers(s.rounds, t.rounds);
    MapOrderFree((r: Round) => r.base, s.rounds, t.rounds);
    MapOrderFree((r: Round) => r.head, s.rounds, t.rounds);
    MapOrderFree((r: Round) => if r.delta.Some? then r.delta.value else 0.0, s.rounds, t.rounds);
    TimingOrderFree(s.Base(), s.Head(), s.Deltas(), t.Base(), t.Head(), t.Deltas());
  }

  lemma TimingOrderFree(b1: seq<real>, h1: seq<real>, d1: seq<real>, b2: seq<real>, h2: seq<real>, d2: seq<real>)
    requires multiset(b1) == multiset(b2) && multiset(h1) == multiset(h2) && multiset(d1) == multiset(d2)
    requires b1 != [] && h1 != [] && d1 != [] && b2 != [] && h2 != [] && d2 != []
    ensures TimingVerdict(b1, h1, d1) == TimingVerdict(b2, h2, d2)
  {
    SameMembers(b1, b2);
    SameMembers(h1, h2);
    SameMembers(d1, d2);
    SortOrderFree(b1, b2);
    SortOrderFree(h1, h2);
    SortOrderFree(d1, d2);
  }

  /** An exact row's round verdicts all follow from the two values, as `compare` computes them. */
  ghost predicate ExactByCompare(s: Series, higher: bool) {
    forall i :: 0 <= i < |s.rounds| ==>
      var r := s.rounds[i];
      r.verdict == if r.head == r.base then C.Unchanged
                   else if C.Improvement(higher, r.base, r.head) < 0.0 then C.Regressed else C.Improved
  }

  /** So neither does the order matter for an exact row. */
  lemma ExactVerdictOrderFree(s: Series, t: Series, higher: bool)
    requires s.rounds != [] && multiset(s.rounds) == multiset(t.rounds)
    requires s.exact && s.exact == t.exact && s.informational == t.informational && ExactByCompare(s, higher)
    ensures t.rounds != [] && VerdictFor(s) == VerdictFor(t)
  {
    SameMembers(s.rounds, t.rounds);
    MapOrderFree((r: Round) => r.base, s.rounds, t.rounds);
    MapOrderFree((r: Round) => r.head, s.rounds, t.rounds);
    assert multiset(s.Base()) == multiset(t.Base());
    assert multiset(s.Head()) == multiset(t.Head());
    SameMembers(s.Base(), t.Base());
    SameMembers(s.Head(), t.Head());
    assert t.rounds[0] in s.rounds;
    var j :| 0 <= j < |s.rounds| && s.rounds[j] == t.rounds[0];
    assert s.Base()[0] in s.Base() && s.Base()[j] in s.Base();
    assert s.Head()[0] in s.Head() && s.Head()[j] in s.Head();
  }

  // ---------- What a called verdict means ----------

  /** How many rounds moved by at least the floor, in the called direction. */
  function BigMoves(s: Series, better: bool): nat
    requires s.rounds != []
  {
    var floor := Floor(s);
    if better then Count((d: real) => d * 100.0 >= floor, s.Deltas()) else Count((d: real) => -d * 100.0 >= floor, s.Deltas())
  }

  /** Improved (or regressed): every round moved that way, and at least half of them by the floor or more. */
  lemma CalledMeansHalfTheRounds(s: Series)
    requires s.rounds != [] && Timing(s) && (VerdictFor(s).Improved? || VerdictFor(s).Regressed?)
    ensures VerdictFor(s).Improved? ==> AllPositive(s.Deltas()) && 2 * BigMoves(s, true) >= |s.rounds|
    ensures VerdictFor(s).Regressed? ==> AllNegative(s.Deltas()) && 2 * BigMoves(s, false) >= |s.rounds|
    ensures Floor(s) >= MIN_EFFECT_PCT
  {
    var ds, floor := s.Deltas(), Floor(s);
    var k := (|ds| - 1) / 2;
    RankCounts(ds, k);
    MedianMembers(ds);
    var m := LowerMedian(ds);
    if VerdictFor(s).Improved? {
      CountWeaker((x: real) => x >= m, (d: real) => d * 100.0 >= floor, ds);
    } else {
      CountWeaker((x: real) => x <= m, (d: real) => -d * 100.0 >= floor, ds);
    }
  }

  lemma {:induction false} CountWeaker(p: real -> bool, q: real -> bool, s: seq<real>)
    requires forall x :: p(x) ==> q(x)
    ensures Count(p, s) <= Count(q, s)
  {
    if s != [] {
      CountWeaker(p, q, s[1..]);
    }
  }

  // ---------- Every verdict, by what it says of the rounds ----------

  /** A side's spread, from its smallest and largest value. */
  lemma SpreadPctMeans(values: seq<real>) returns (lo: real, hi: real)
    requires values != []
    ensures C.LeastOf(values, lo) && C.GreatestOf(values, hi)
    ensures SpreadPct(values).Infinite? <==> lo <= 0.0 && lo != hi
    ensures lo <= 0.0 && lo == hi ==> SpreadPct(values) == Pct(0.0)
    ensures lo > 0.0 ==> SpreadPct(values).Pct? && SpreadPct(values).value * lo == 100.0 * (hi - lo)
  {
    C.ExtremesOfSorted(values);
    lo, hi := Sort(values)[0], Sort(values)[|values| - 1];
    if lo > 0.0 {
      var q := Quotient(hi, lo);
      PercentOf(q, lo, hi);
    }
  }

  lemma PercentOf(q: real, lo: real, hi: real)
    requires q * lo == hi
    ensures (q - 1.0) * 100.0 * lo == 100.0 * (hi - lo)
  {
    assert (q - 1.0) * lo == q * lo - lo;
    assert (q - 1.0) * 100.0 * lo == 100.0 * ((q - 1.0) * lo);
  }

  /** The values differ by no more than a tenth of the smallest, or do not differ. */
  ghost predicate Close(values: seq<real>) {
    || Constant(values)
    || (AllPositive(values) && forall x, y :: x in values && y in values ==> 10.0 * (y - x) <= x)
  }

  lemma QuietSide(values: seq<real>)
    requires values != []
    ensures SpreadPct(values).Pct? && SpreadPct(values).value <= NOISY_SPREAD_PCT <==> Close(values)
  {
    var lo, hi := SpreadPctMeans(values);
    CloseByExtremes(values, lo, hi);
    if lo > 0.0 {
      TenPercent(SpreadPct(values).value, lo, 100.0 * (hi - lo));
    }
  }

  lemma TenPercent(v: real, lo: real, product: real)
    requires lo > 0.0 && product == v * lo
    ensures v <= 10.0 <==> product <= 10.0 * lo
  {
    FurtherThan(v, 10.0, lo);
    assert v > 10.0 <==> product > 10.0 * lo;
  }

  lemma CloseByExtremes(values: seq<real>, lo: real, hi: real)
    requires C.LeastOf(values, lo) && C.GreatestOf(values, hi)
    ensures Close(values) <==> lo == hi || (lo > 0.0 && 10.0 * (hi - lo) <= lo)
  {
    assert Constant(values) <==> lo == hi;
    assert AllPositive(values) <==> lo > 0.0;
  }

  /** A timing is noisy exactly if one of its sides is not close. */
  lemma NoisyIffASideIsNotClose(s: Series)
    requires s.rounds != [] && Timing(s)
    ensures VerdictFor(s).Noisy? <==> !Close(s.Base()) || !Close(s.Head())
  {
    QuietSide(s.Base());
    QuietSide(s.Head());
  }

  /** The floor is the largest of the minimum effect and the two spreads. */
  lemma FloorMeans(base: seq<real>, head: seq<real>)
    requires base != [] && head != [] && Quiet(base, head)
    ensures var f, b, h := FloorOf(base, head), SpreadPct(base).value, SpreadPct(head).value;
            f >= 3.0 && f >= b && f >= h && (f == 3.0 || f == b || f == h)
  {
  }

  /**
   A timing is called improved if and only if its sides are close, every round improved, and all but
   `(R - 1) / 2` of the R rounds did so by the floor or more; regressed, if and only if its sides are
   close, every round regressed, and more than `(R - 1) / 2` of them by the floor or more.
   */
  lemma CalledIff(s: Series)
    requires s.rounds != [] && Timing(s)
    ensures var quiet, k := Close(s.Base()) && Close(s.Head()), (|s.rounds| - 1) / 2;
            && (VerdictFor(s).Improved? <==> quiet && AllPositive(s.Deltas()) && BigMoves(s, true) >= |s.rounds| - k)
            && (VerdictFor(s).Regressed? <==> quiet && AllNegative(s.Deltas()) && BigMoves(s, false) >= k + 1)
  {
    NoisyIffASideIsNotClose(s);
    var ds, floor := s.Deltas(), Floor(s);
    var k := (|ds| - 1) / 2;
    KthReaches(ds, k, floor / 100.0);
    KthStaysWithin(ds, k, -floor / 100.0);
    SameCount((d: real) => d >= floor / 100.0, (d: real) => d * 100.0 >= floor, ds);
    SameCount((d: real) => d <= -floor / 100.0, (d: real) => -d * 100.0 >= floor, ds);
    MedianMembers(ds);
  }

  lemma SameCount(p: real -> bool, q: real -> bool, s: seq<real>)
    requires forall x :: p(x) <==> q(x)
    ensures Count(p, s) == Count(q, s)
  {
    CountWeaker(p, q, s);
    CountWeaker(q, p, s);
  }

  /** The verdicts that need no arithmetic: informational rows, and timings that are neither noisy nor called. */
  lemma OtherVerdicts(s: Series)
    requires s.rounds != []
    ensures VerdictFor(s).Info? <==> s.informational
    ensures VerdictFor(s).Nondeterministic? || VerdictFor(s).Unchanged? ==> s.exact && !s.informational
    ensures Timing(s) ==> VerdictFor(s).Noisy? || VerdictFor(s).Improved? || VerdictFor(s).Regressed? || VerdictFor(s).NoChange?
  {
  }

  /**
   An exact row: nondeterministic exactly if a side varies; otherwise called exactly if head and base differ,
   regressed where the head is the worse one in the metric's direction.
   */
  lemma ExactRowMeans(s: Series, higher: bool)
    requires s.rounds != [] && s.exact && !s.informational && ExactByCompare(s, higher)
    ensures var v, r := VerdictFor(s), s.rounds[0];
            && (v.Nondeterministic? <==> !Constant(s.Base()) || !Constant(s.Head()))
            && (!v.Nondeterministic? ==>
                  && (v.Regressed? <==> C.Worse(higher, r.base, r.head))
                  && (v.Improved? <==> C.Worse(higher, r.head, r.base))
                  && (v.Unchanged? <==> r.head == r.base))
  {
  }

  // ---------- Reading the metric the other way round ----------

  /** The same measurements of a metric whose direction is the opposite one: every delta changes sign. */
  function Flip(s: Series): Series {
    s.(rounds := Map((r: Round) => r.(delta := if r.delta.Some? then Some(-r.delta.value) else None), s.rounds))
  }

  function Mirror(v: Verdict): Verdict {
    match v
    case Improved => Regressed
    case Regressed => Improved
    case _ => v
  }

  lemma FlipParts(s: Series)
    ensures Flip(s).Base() == s.Base() && Flip(s).Head() == s.Head() && Flip(s).Deltas() == Negate(s.Deltas())
  {
  }

  lemma MedianMembers(s: seq<real>)
    requires s != []
    ensures LowerMedian(s) in s && UpperMedian(s) in s
  {
    SortSorts(s);
    SortMembers(s);
    assert Sort(s)[(|s| - 1) / 2] in Sort(s) && Sort(s)[|s| / 2] in Sort(s);
  }

  lemma NegateMembers(s: seq<real>)
    ensures forall x :: x in Negate(s) <==> -x in s
  {
    forall x ensures x in Negate(s) <==> -x in s {
      if x in Negate(s) {
        var i :| 0 <= i < |s| && Negate(s)[i] == x;
        assert s[i] == -x;
      }
      if -x in s {
        var i :| 0 <= i < |s| && s[i] == -x;
        assert Negate(s)[i] == x;
      }
    }
  }

  lemma SignsFlip(ds: seq<real>)
    ensures AllPositive(Negate(ds)) <==> AllNegative(ds)
    ensures AllNegative(Negate(ds)) <==> AllPositive(ds)
    ensures 0.0 in Negate(ds) <==> 0.0 in ds
  {
    NegateMembers(ds);
    assert forall x :: x in ds ==> -x in Negate(ds);
  }

  /** The rounds agree in sign, but only one of the two middle deltas clears the floor. */
  predicate Lopsided(base: seq<real>, head: seq<real>, ds: seq<real>)
    requires base != [] && head != [] && ds != []
  {
    && Quiet(base, head)
    && (AllPositive(ds) || AllNegative(ds))
    && (C.Abs(LowerMedian(ds)) * 100.0 < FloorOf(base, head)) != (C.Abs(UpperMedian(ds)) * 100.0 < FloorOf(base, head))
  }

  /** What the sign test makes of negated deltas. */
  lemma FlipTiming(base: seq<real>, head: seq<real>, ds: seq<real>)
    requires base != [] && head != [] && ds != []
    ensures var v, v' := TimingVerdict(base, head, ds), TimingVerdict(base, head, Negate(ds));
            && (v' == Mirror(v) <==> !Lopsided(base, head, ds))
            && (Lopsided(base, head, ds) && AllNegative(ds) ==> v == Regressed && v' == NoChange)
            && (Lopsided(base, head, ds) && AllPositive(ds) ==> v == NoChange && v' == Regressed)
  {
    SignsFlip(ds);
    NegatedMedian(ds);
    MediansOrdered(ds);
    MedianMembers(ds);
  }

  /**
   Judging the same measurements in the opposite direction mirrors the verdict if and only if the
   series is not lopsided.  Where it is, a regression has no improvement for its mirror image, and
   an unchanged row (all deltas positive, the lower median under the floor, the upper one not)
   has a regression for its own.
   */
  lemma FlipMirrorsIff(s: Series)
    requires s.rounds != [] && Timing(s)
    ensures VerdictFor(Flip(s)) == Mirror(VerdictFor(s)) <==> !Lopsided(s.Base(), s.Head(), s.Deltas())
    ensures Lopsided(s.Base(), s.Head(), s.Deltas()) ==>
              if AllNegative(s.Deltas()) then VerdictFor(s) == Regressed && VerdictFor(Flip(s)) == NoChange
              else VerdictFor(s) == NoChange && VerdictFor(Flip(s)) == Regressed
  {
    FlipParts(s);
    FlipTiming(s.Base(), s.Head(), s.Deltas());
  }

  /** With an odd number of rounds there is one middle delta, so the verdict always mirrors. */
  lemma OddRoundsMirror(s: Series)
    requires Timing(s) && |s.rounds| % 2 == 1
    ensures VerdictFor(Flip(s)) == Mirror(VerdictFor(s))
  {
    FlipMirrorsIff(s);
    MediansOrdered(s.Deltas());
  }

  /** Two rounds of a slowdown, 5% and 1%. */
  const SLOWDOWN := Series(false, false, [Round(100.0, 105.0, Some(-0.05), C.Regressed), Round(100.0, 101.0, Some(-0.01), C.Regressed)])

  lemma SortSwapped(x: real, y: real)
    requires x <= y
    ensures Sort([y, x]) == [x, y]
  {
    SortOfSorted([x, y]);
    assert multiset([y, x]) == multiset([x, y]);
    SortOrderFree([y, x], [x, y]);
  }

  lemma SlowdownSpreads()
    ensures SpreadPct([100.0, 100.0]) == Pct(0.0)
    ensures SpreadPct([105.0, 101.0]) == Pct((105.0 / 101.0 - 1.0) * 100.0)
  {
    SortSwapped(100.0, 100.0);
    SortSwapped(101.0, 105.0);
  }

  lemma SlowdownMedians()
    ensures LowerMedian([-0.05, -0.01]) == -0.05 && UpperMedian([-0.05, -0.01]) == -0.01
  {
    SortOfSorted([-0.05, -0.01]);
  }

  lemma SlowdownParts()
    ensures SLOWDOWN.Base() == [100.0, 100.0] && SLOWDOWN.Head() == [105.0, 101.0] && SLOWDOWN.Deltas() == [-0.05, -0.01]
  {
  }

  lemma FlippedTwice(s: Series)
    ensures Flip(Flip(s)) == s
  {
    assert forall i | 0 <= i < |s.rounds| :: Flip(Flip(s)).rounds[i] == s.rounds[i];
  }

  /** Both kinds of mirror that fail: a regression without an improvement, and an unchanged row with a regression. */
  lemma EvenRoundsNeedNotMirror()
    ensures VerdictFor(SLOWDOWN) == Regressed && VerdictFor(Flip(SLOWDOWN)) == NoChange
    ensures VerdictFor(Flip(Flip(SLOWDOWN))) == Regressed
  {
    SlowdownParts();
    SlowdownSpreads();
    SlowdownMedians();
    FlipMirrorsIff(SLOWDOWN);
    FlippedTwice(SLOWDOWN);
  }

  /** `Flip` is what judging the same two runs with the opposite direction produces. */
  lemma OppositeDirectionNegatesDelta(scenario: string, cur: C.Aggregated, base: Option<C.Aggregated>, threshold: real)
    ensures var d := C.CompareMetric(scenario, cur, base, threshold).delta;
            var d' := C.CompareMetric(scenario, cur.(meta := cur.meta.(higher := !cur.meta.higher)), base, threshold).delta;
            d' == if d.Some? then Some(-d.value) else None
  {
    if base.Some? && base.value.value > 0.0 {
      var better := C.Improvement(cur.meta.higher, base.value.value, cur.value);
      assert (-better) / base.value.value == -(better / base.value.value);
    }
  }

  // ---------- Collecting the rounds ----------

  /** A row is known by its scenario and metric. */
  datatype RowKey = RowKey(scenario: string, metric: string)

  function KeyOf(c: C.Comparison): RowKey {
    RowKey(c.scenario, c.metric)
  }

  function RoundOf(c: C.Comparison): Round {
    Round(c.baseline, c.current, c.delta, c.verdict)
  }

  /** The comparisons that matched `key` on both sides; a row measured on one side only says nothing. */
  function Matches(rows: seq<C.Comparison>, key: RowKey): seq<C.Comparison> {
    Filter((c: C.Comparison) => IsMatch(key, c), rows)
  }

  predicate IsMatch(key: RowKey, c: C.Comparison) {
    KeyOf(c) == key && !c.verdict.New?
  }

  /** The first match decides whether a row is exact or informational; every match adds a round. */
  function SeriesOf(matches: seq<C.Comparison>): (s: Series)
    requires matches != []
    ensures |s.rounds| == |matches|
  {
    Series(matches[0].exact, matches[0].informational, Map(RoundOf, matches))
  }

  /** Each round holds the two values of its row, and the delta it had; a row without one counts as zero. */
  lemma SeriesByPlace(matches: seq<C.Comparison>, k: nat)
    requires k < |matches|
    ensures var s := SeriesOf(matches);
            && s.Base()[k] == matches[k].baseline && s.Head()[k] == matches[k].current
            && s.Deltas()[k] == (if matches[k].delta.Some? then matches[k].delta.value else 0.0)
            && s.rounds[k].verdict == matches[k].verdict
            && s.exact == matches[0].exact && s.informational == matches[0].informational
  {
  }

  ghost predicate Collected(rows: seq<C.Comparison>, byKey: map<RowKey, Series>) {
    && (forall key :: key in byKey <==> Matches(rows, key) != [])
    && (forall key :: key in byKey ==> byKey[key] == SeriesOf(Matches(rows, key)))
  }

  lemma SeriesGrows(matches: seq<C.Comparison>, c: C.Comparison)
    ensures matches == [] ==> SeriesOf(matches + [c]) == Series(c.exact, c.informational, [RoundOf(c)])
    ensures matches != [] ==>
              var s := SeriesOf(matches); SeriesOf(matches + [c]) == s.(rounds := s.rounds + [RoundOf(c)])
  {
  }

  /** One more comparison of the key adds one match to its own, and none to any other. */
  lemma MatchesPush(rows: seq<C.Comparison>, c: C.Comparison, key: RowKey)
    ensures Matches(rows + [c], key) == Matches(rows, key) + if IsMatch(key, c) then [c] else []
  {
    FilterPush((a: C.Comparison) => IsMatch(key, a), rows, c);
  }

  /** The matches of a key are all its two-sided rows, in their order. */
  lemma MatchesByPlace(rows: seq<C.Comparison>, key: RowKey)
    ensures var at := Positions((c: C.Comparison) => IsMatch(key, c), rows);
            && (forall i :: 0 <= i < |rows| ==>
                  (i in at <==> rows[i].scenario == key.scenario && rows[i].metric == key.metric && !rows[i].verdict.New?))
            && (forall j, k :: 0 <= j < k < |at| ==> at[j] < at[k])
            && |Matches(rows, key)| == |at| && forall k :: 0 <= k < |at| ==> at[k] < |rows| && Matches(rows, key)[k] == rows[at[k]]
  {
    var test := (c: C.Comparison) => IsMatch(key, c);
    FilterByPosition(test, rows);
    forall i | 0 <= i < |rows| ensures i in Positions(test, rows) <==> IsMatch(key, rows[i]) {
      PositionsAreThoseThatPass(test, rows, i);
    }
  }

  method CollectRow(ghost rows: seq<C.Comparison>, c: C.Comparison, byKey: map<RowKey, Series>) returns (byKey': map<RowKey, Series>)
    requires Collected(rows, byKey)
    ensures Collected(rows + [c], byKey')
  {
    byKey' := byKey;
    if !c.verdict.New? {
      var key := KeyOf(c);
      SeriesGrows(Matches(rows, key), c);
      if key !in byKey' {
        byKey' := byKey'[key := Series(c.exact, c.informational, [])];
      }
      byKey' := byKey'[key := byKey'[key].(rounds := byKey'[key].rounds + [RoundOf(c)])];
    }
    forall key
      ensures key in byKey' <==> Matches(rows + [c], key) != []
      ensures key in byKey' ==> byKey'[key] == SeriesOf(Matches(rows + [c], key))
    {
      MatchesPush(rows, c, key);
    }
  }

  /** What the report does with a metric: a verdict if it has as many matches as there were rounds. */
  predicate IsJudged(rounds: seq<seq<C.Comparison>>, key: RowKey) {
    var matches := Matches(Flatten(rounds), key);
    matches != [] && |matches| == |rounds|
  }

  function JudgedVerdict(rounds: seq<seq<C.Comparison>>, key: RowKey): Verdict
    requires IsJudged(rounds, key)
  {
    VerdictFor(SeriesOf(Matches(Flatten(rounds), key)))
  }

  /** Every matched metric gets a verdict on all its matches, or is listed as partial. */
  method BuildReport(rounds: seq<seq<C.Comparison>>) returns (rows: map<RowKey, Verdict>, partial: set<RowKey>)
    ensures forall key :: key in rows <==> IsJudged(rounds, key)
    ensures forall key :: key in rows ==> IsJudged(rounds, key) && rows[key] == JudgedVerdict(rounds, key)
    ensures forall key :: key in partial <==> Matches(Flatten(rounds), key) != [] && !IsJudged(rounds, key)
  {
    var byKey := CollectRounds(rounds);
    rows := map key | key in byKey && |byKey[key].rounds| == |rounds| :: VerdictFor(byKey[key]);
    partial := set key | key in byKey && |byKey[key].rounds| != |rounds|;
  }

  method CollectRounds(rounds: seq<seq<C.Comparison>>) returns (byKey: map<RowKey, Series>)
    ensures Collected(Flatten(rounds), byKey)
  {
    byKey := map[];
    for i := 0 to |rounds|
      invariant Collected(Flatten(rounds[..i]), byKey)
    {
      byKey := CollectRound(Flatten(rounds[..i]), rounds[i], byKey);
      assert rounds[..i + 1][..i] == rounds[..i];
    }
    assert rounds[..|rounds|] == rounds;
  }

  method CollectRound(ghost before: seq<C.Comparison>, round: seq<C.Comparison>, byKey: map<RowKey, Series>)
    returns (byKey': map<RowKey, Series>)
    requires Collected(before, byKey)
    ensures Collected(before + round, byKey')
  {
    byKey' := byKey;
    assert before + round[..0] == before;
    for k := 0 to |round|
      invariant Collected(before + round[..k], byKey')
    {
      assert before + round[..k + 1] == before + round[..k] + [round[k]];
      byKey' := CollectRow(before + round[..k], round[k], byKey');
    }
    assert round[..|round|] == round;
  }

  lemma {:induction false} MatchesConcat(a: seq<C.Comparison>, b: seq<C.Comparison>, key: RowKey)
    ensures Matches(a + b, key) == Matches(a, key) + Matches(b, key)
  {
    if b == [] {
      assert a + b == a;
    } else {
      var before, c := b[..|b| - 1], b[|b| - 1];
      assert b == before + [c] && a + b == (a + before) + [c];
      MatchesConcat(a, before, key);
      MatchesPush(a + before, c, key);
      MatchesPush(before, c, key);
      Associate(Matches(a, key), Matches(before, key), if IsMatch(key, c) then [c] else []);
    }
  }

  /** How many rounds missed `key`. */
  function Missed(rounds: seq<seq<C.Comparison>>, key: RowKey): (n: nat)
    ensures n == 0 <==> forall i :: 0 <= i < |rounds| ==> Matches(rounds[i], key) != []
  {
    if rounds == [] then 0
    else
      var n := |rounds| - 1;
      assert forall i :: 0 <= i < n ==> rounds[..n][i] == rounds[i];
      Missed(rounds[..n], key) + if Matches(rounds[n], key) == [] then 1 else 0
  }

  /** How many matches came on top of the first one of their round. */
  function Surplus(rounds: seq<seq<C.Comparison>>, key: RowKey): (n: nat)
    ensures n == 0 <==> forall i :: 0 <= i < |rounds| ==> |Matches(rounds[i], key)| <= 1
  {
    if rounds == [] then 0
    else
      var n, m := |rounds| - 1, |Matches(rounds[|rounds| - 1], key)|;
      assert forall i :: 0 <= i < n ==> rounds[..n][i] == rounds[i];
      Surplus(rounds[..n], key) + if m > 1 then m - 1 else 0
  }

  lemma {:induction false} MatchCount(rounds: seq<seq<C.Comparison>>, key: RowKey)
    ensures |Matches(Flatten(rounds), key)| == |rounds| + Surplus(rounds, key) - Missed(rounds, key)
  {
    if rounds != [] {
      var n := |rounds| - 1;
      MatchCount(rounds[..n], key);
      MatchesConcat(Flatten(rounds[..n]), rounds[n], key);
    }
  }

  /** A metric is judged exactly if its surplus matches make up for the rounds that missed it. */
  lemma JudgedIffSurplusIsMissed(rounds: seq<seq<C.Comparison>>, key: RowKey)
    requires rounds != []
    ensures IsJudged(rounds, key) <==> Surplus(rounds, key) == Missed(rounds, key)
  {
    MatchCount(rounds, key);
  }

  predicate MatchedInEveryRound(rounds: seq<seq<C.Comparison>>, key: RowKey) {
    forall i | 0 <= i < |rounds| :: Matches(rounds[i], key) != []
  }

  /**
   A metric is meant to be judged when every round matched it.  That is what happens if and only if
   no round names it twice, or some round missed it and the surplus is not just as large.
   */
  lemma JudgedAsMeantIff(rounds: seq<seq<C.Comparison>>, key: RowKey)
    requires rounds != []
    ensures (IsJudged(rounds, key) <==> MatchedInEveryRound(rounds, key)) <==>
              var surplus, missed := Surplus(rounds, key), Missed(rounds, key);
              surplus == 0 || (missed > 0 && surplus != missed)
  {
    JudgedIffSurplusIsMissed(rounds, key);
  }

  lemma TwoRounds(a: seq<C.Comparison>, b: seq<C.Comparison>)
    ensures Flatten([a, b]) == a + b
  {
    assert [a, b][..1] == [a] && [a][..0] == [];
    assert Flatten([a]) == [] + a;
  }

  lemma MatchesOfCopies(c: C.Comparison)
    requires !c.verdict.New?
    ensures Matches([c], KeyOf(c)) == [c] && Matches([c, c], KeyOf(c)) == [c, c]
  {
    MatchesPush([], c, KeyOf(c));
    MatchesPush([c], c, KeyOf(c));
    assert [] + [c] == [c] && [c] + [c] == [c, c];
  }

  /** A name repeated within a round makes up for a round that missed it: the metric is judged all the same. */
  lemma DuplicateStandsInForAMissingRound(c: C.Comparison)
    requires !c.verdict.New?
    ensures IsJudged([[c, c], []], KeyOf(c)) && !MatchedInEveryRound([[c, c], []], KeyOf(c))
  {
    var rounds: seq<seq<C.Comparison>> := [[c, c], []];
    TwoRounds([c, c], []);
    assert [c, c] + [] == [c, c];
    MatchesOfCopies(c);
    assert Matches(rounds[1], KeyOf(c)) == [];
  }

  /** And where no round missed it, a repeated name keeps it from being judged. */
  lemma DuplicateUnseatsAFullRow(c: C.Comparison)
    requires !c.verdict.New?
    ensures !IsJudged([[c, c], [c]], KeyOf(c)) && MatchedInEveryRound([[c, c], [c]], KeyOf(c))
  {
    TwoRounds([c, c], [c]);
    MatchesOfCopies(c);
    MatchesConcat([c, c], [c], KeyOf(c));
  }

  // ---------- The schedule ----------

  datatype Side = BaseSide | HeadSide

  datatype RoundResult = RoundResult(index: nat, order: seq<Side>, base: real, head: real)

  /** Which measurement of the whole run, counting from zero, round `i` takes on a side. */
  function Slot(i: nat, side: Side): nat {
    if (i % 2 == 0) == side.BaseSide? then 2 * i else 2 * i + 1
  }

  /** Round `i` measured both sides, the even ones base first and the odd ones head first. */
  ghost predicate Scheduled(r: RoundResult, i: nat, measure: (nat, Side) -> real) {
    && r.index == i
    && r.order == (if i % 2 == 0 then [BaseSide, HeadSide] else [HeadSide, BaseSide])
    && r.base == measure(Slot(i, BaseSide), BaseSide)
    && r.head == measure(Slot(i, HeadSide), HeadSide)
  }

  method RunRounds(rounds: nat, measure: (nat, Side) -> real) returns (results: seq<RoundResult>)
    ensures |results| == rounds
    ensures forall i :: 0 <= i < rounds ==> Scheduled(results[i], i, measure)
  {
    results := [];
    var slot := 0;
    for round := 0 to rounds
      invariant slot == 2 * round && |results| == round
      invariant forall i :: 0 <= i < round ==> Scheduled(results[i], i, measure)
    {
      var order := if round % 2 == 0 then [BaseSide, HeadSide] else [HeadSide, BaseSide];
      var payloads: map<Side, real> := map[];
      for k := 0 to |order|
        invariant slot == 2 * round + k
        invariant forall j :: 0 <= j < k ==> order[j] in payloads && payloads[order[j]] == measure(2 * round + j, order[j])
      {
        payloads := payloads[order[k] := measure(slot, order[k])];
        slot := slot + 1;
      }
      assert order[0] in payloads && order[1] in payloads;
      var result := RoundResult(round, order, payloads[BaseSide], payloads[HeadSide]);
      assert Scheduled(result, round, measure);
      results := results + [result];
    }
  }

  // ---------- Drift cancels ----------

  ghost predicate Monotone(drift: nat -> real) {
    || (forall i: nat, j: nat :: i <= j ==> drift(i) <= drift(j))
    || (forall i: nat, j: nat :: i <= j ==> drift(i) >= drift(j))
  }

  /** A machine whose drift adds to every measurement, and a change that adds `effect` to the head's. */
  function Measured(drift: nat -> real, effect: real, slot: nat, side: Side): real {
    drift(slot) + if side.HeadSide? then effect else 0.0
  }

  /** The series `buildReport` collects for a timing when `compare` judges such measurements. */
  ghost predicate CollectedUnderDrift(s: Series, higher: bool, drift: nat -> real, effect: real) {
    && Timing(s)
    && forall i :: 0 <= i < |s.rounds| ==>
         && s.rounds[i].base == Measured(drift, effect, Slot(i, BaseSide), BaseSide)
         && s.rounds[i].head == Measured(drift, effect, Slot(i, HeadSide), HeadSide)
         && exists cur: C.Aggregated, base: C.Aggregated, threshold: real ::
              Judges(s.rounds[i], higher, cur, base, threshold)
  }

  ghost predicate Judges(r: Round, higher: bool, cur: C.Aggregated, base: C.Aggregated, threshold: real) {
    && cur.value == r.head && base.value == r.base
    && cur.meta.higher == higher && !cur.meta.exact && !cur.meta.informational
    && r.delta == C.CompareMetric("", cur, Some(base), threshold).delta
  }

  /** A round's delta, where it has one, has the sign of the improvement it measured. */
  lemma DeltaSign(s: Series, higher: bool, drift: nat -> real, effect: real, i: nat)
    requires CollectedUnderDrift(s, higher, drift, effect) && i < |s.rounds|
    ensures var better := C.Improvement(higher, s.rounds[i].base, s.rounds[i].head);
            && (s.Deltas()[i] > 0.0 ==> better > 0.0)
            && (s.Deltas()[i] < 0.0 ==> better < 0.0)
  {
    var r := s.rounds[i];
    var cur: C.Aggregated, base: C.Aggregated, threshold: real :| Judges(r, higher, cur, base, threshold);
    if r.delta.Some? {
      var better := C.Improvement(higher, r.base, r.head);
      assert r.base > 0.0 && r.delta.value == better / r.base;
      assert r.delta.value * r.base == better;
      TimesPositive(r.delta.value, r.base);
    }
  }

  /**
   With at least two rounds, a called verdict has the sign of the true effect, however strongly the
   machine drifts in one direction; so identical code is never called.
   */
  lemma CalledHasTheSignOfTheEffect(s: Series, higher: bool, drift: nat -> real, effect: real)
    requires |s.rounds| >= 2 && Monotone(drift) && CollectedUnderDrift(s, higher, drift, effect)
    ensures VerdictFor(s).Improved? ==> C.Improvement(higher, 0.0, effect) > 0.0
    ensures VerdictFor(s).Regressed? ==> C.Improvement(higher, 0.0, effect) < 0.0
    ensures effect == 0.0 ==> !VerdictFor(s).Improved? && !VerdictFor(s).Regressed?
  {
    var v := VerdictFor(s);
    if v.Improved? || v.Regressed? {
      CalledMeansHalfTheRounds(s);
      DeltaSign(s, higher, drift, effect, 0);
      DeltaSign(s, higher, drift, effect, 1);
      assert s.Deltas()[0] in s.Deltas() && s.Deltas()[1] in s.Deltas();
      var d0, d1 := drift(1) - drift(0), drift(2) - drift(3);
      assert s.rounds[0].head - s.rounds[0].base == d0 + effect;
      assert s.rounds[1].head - s.rounds[1].base == d1 + effect;
      assert (d0 >= 0.0 && d1 <= 0.0) || (d0 <= 0.0 && d1 >= 0.0);
    }
  }

  /** One round of identical code on a machine whose measurements rise from 1 to 2. */
  const FOOLED := Series(false, false, [Round(1.0, 2.0, Some(1.0), C.Improved)])

  lemma FooledParts()
    ensures FOOLED.Base() == [1.0] && FOOLED.Head() == [2.0] && FOOLED.Deltas() == [1.0]
  {
  }

  lemma FooledVerdict()
    ensures VerdictFor(FOOLED) == Improved
  {
    FooledParts();
    SortOfSorted([1.0]);
    SortOfSorted([2.0]);
  }

  lemma FooledRound()
    ensures exists cur: C.Aggregated, base: C.Aggregated, threshold: real :: Judges(FOOLED.rounds[0], true, cur, base, threshold)
  {
    var m := C.Metric("", 0.0, true, false, false, None);
    assert Judges(FOOLED.rounds[0], true, C.Aggregated(m, 2.0, [], 0.0, 0.0, 0.0), C.Aggregated(m, 1.0, [], 0.0, 0.0, 0.0), 0.1);
  }

  /** One round cannot tell drift from effect: identical code on a machine speeding up reads as improved. */
  lemma OneRoundIsFooled()
    ensures CollectedUnderDrift(FOOLED, true, (t: nat) => t as real + 1.0, 0.0) && VerdictFor(FOOLED) == Improved
  {
    FooledRound();
    FooledVerdict();
  }

  /** Head minus base, round by round. */
  function PairedDifferences(drift: nat -> real, effect: real, rounds: nat): (d: seq<real>)
    ensures |d| == rounds
  {
    seq(rounds, i requires 0 <= i < rounds =>
      Measured(drift, effect, Slot(i, HeadSide), HeadSide) - Measured(drift, effect, Slot(i, BaseSide), BaseSide))
  }

  lemma RoundOfLinearDrift(drift: nat -> real, start: real, slope: real, effect: real, rounds: nat, i: nat)
    requires i < rounds && forall t: nat :: drift(t) == start + slope * t as real
    ensures PairedDifferences(drift, effect, rounds)[i] == effect + if i % 2 == 0 then slope else -slope
  {
    var early, late: nat := 2 * i, 2 * i + 1;
    assert slope * late as real == slope * early as real + slope;
    assert drift(late) - drift(early) == slope;
  }

  lemma OneMore(i: nat, effect: real)
    ensures (i + 1) as real * effect == i as real * effect + effect
  {
  }

  lemma {:induction false} AlternatingSum(d: seq<real>, effect: real, slope: real)
    requires forall i :: 0 <= i < |d| ==> d[i] == effect + if i % 2 == 0 then slope else -slope
    ensures Reals.Sum(d) == |d| as real * effect + if |d| % 2 == 0 then 0.0 else slope
  {
    if d != [] {
      AlternatingSum(d[..|d| - 1], effect, slope);
      OneMore(|d| - 1, effect);
    }
  }

  /** Linear drift cancels exactly over an even number of rounds; an odd one keeps a single step of it. */
  lemma LinearDriftCancels(drift: nat -> real, start: real, slope: real, effect: real, rounds: nat)
    requires forall t: nat :: drift(t) == start + slope * t as real
    ensures Reals.Sum(PairedDifferences(drift, effect, rounds)) == rounds as real * effect + if rounds % 2 == 0 then 0.0 else slope
  {
    var d := PairedDifferences(drift, effect, rounds);
    forall i | 0 <= i < rounds ensures d[i] == effect + if i % 2 == 0 then slope else -slope {
      RoundOfLinearDrift(drift, start, slope, effect, rounds, i);
    }
    AlternatingSum(d, effect, slope);
  }
}
