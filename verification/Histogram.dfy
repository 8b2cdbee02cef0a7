/** The seeded xorshift32 generator of `histogram.ts`. */
module Rng {

  function Left13(x: bv32): bv32 { x ^ (x << 13) }
  function Right17(x: bv32): bv32 { x ^ (x >> 17) }
  function Left5(x: bv32): bv32 { x ^ (x << 5) }

  /** One step on the 32-bit state. */
  function Xorshift(s: bv32): bv32 {
    Left5(Right17(Left13(s)))
  }

  /** `seed | 0 || 1`. */
  function Seeded(seed: bv32): (s: bv32)
    ensures s != 0
  {
    if seed == 0 then 1 else seed
  }

  function Word(s: bv32): (n: nat)
    ensures n < 0x1_0000_0000
  {
    s as nat
  }

  lemma Left13Injective(a: bv32, b: bv32)
    requires Left13(a) == Left13(b)
    ensures a == b
  {
  }

  lemma HalvesDecide(a: bv32, b: bv32)
    requires a >> 15 == b >> 15 && a << 17 == b << 17
    ensures a == b
  {
  }

  lemma Right17KeepsTop(a: bv32)
    ensures Right17(a) >> 15 == a >> 15
  {
  }

  lemma Right17DecidesTop(a: bv32, b: bv32)
    requires Right17(a) == Right17(b)
    ensures a >> 15 == b >> 15
  {
    Right17KeepsTop(a);
    Right17KeepsTop(b);
  }

  lemma Right17DecidesLow(a: bv32, b: bv32)
    requires a >> 15 == b >> 15 && Right17(a) == Right17(b)
    ensures a << 17 == b << 17
  {
  }

  lemma Right17Injective(a: bv32, b: bv32)
    requires Right17(a) == Right17(b)
    ensures a == b
  {
    Right17DecidesTop(a, b);
    Right17DecidesLow(a, b);
    HalvesDecide(a, b);
  }

  lemma Left5Injective(a: bv32, b: bv32)
    requires Left5(a) == Left5(b)
    ensures a == b
  {
  }

  /** The step loses no state, so a state never recurs before its whole cycle has. */
  lemma XorshiftInjective(a: bv32, b: bv32)
    requires Xorshift(a) == Xorshift(b)
    ensures a == b
  {
    Left5Injective(Right17(Left13(a)), Right17(Left13(b)));
    Right17Injective(Left13(a), Left13(b));
    Left13Injective(a, b);
  }

  /** The generator's published first outputs, from the state 1. */
  lemma FirstStates()
    ensures Xorshift(1) == 270369
    ensures Xorshift(270369) == 67634689
    ensures Xorshift(67634689) == 2647435461
  {
  }

  /** A seed is the first state, unless it is zero. */
  lemma SeededMeans(seed: bv32)
    ensures Seeded(seed) == if seed == 0 then 1 else seed
  {
  }

  function StateAfter(seed: bv32, n: nat): bv32 {
    if n == 0 then Seeded(seed) else Xorshift(StateAfter(seed, n - 1))
  }

  /** Zero, where the generator would stick, is never reached. */
  lemma {:induction false} NeverZero(seed: bv32, n: nat)
    ensures StateAfter(seed, n) != 0
  {
    if n > 0 {
      NeverZero(seed, n - 1);
      ZeroOnlyFromZero(StateAfter(seed, n - 1));
    }
  }

  lemma ZeroOnlyFromZero(s: bv32)
    requires s != 0
    ensures Xorshift(s) != 0
  {
    assert Xorshift(0) == 0;
    if Xorshift(s) == 0 {
      XorshiftInjective(s, 0);
    }
  }
}

/**
 `histogram.ts`: latency samples, exact up to a capacity and reservoir-sampled past it, with a
 seeded generator so that two runs of the same scenario roll alike.
 */
module Histogram {
  import opened Common
  import opened OrderStats
  import opened Quotients
  import opened Rng
  import opened Series

  // ---------- The reservoir ----------

  const SEED: bv32 := 0x5eed

  /** `min` and `max` are `None` until something is recorded, where the original has the infinities. */
  datatype Reservoir = Reservoir(
    capacity: nat, held: seq<real>, seen: nat, min: Option<real>, max: Option<real>, sum: real, rng: bv32)

  function Empty(capacity: nat): Reservoir {
    Reservoir(capacity, [], 0, None, None, 0.0, Seeded(SEED))
  }

  /** The slot the n-th sample would take once the reservoir is full: uniform over `seen`. */
  function Pick(rng: bv32, seen: nat): (j: nat)
  {
    Scaled(Word(rng), seen)
  }

  const WORDS := 0x1_0000_0000

  function Scaled(word: nat, seen: nat): nat {
    (word * seen) / WORDS
  }

  lemma ScaleBelow(word: nat, seen: nat)
    requires word < 0x1_0000_0000 && seen > 0
    ensures (word * seen) / 0x1_0000_0000 < seen
  {
    assert word * seen < 0x1_0000_0000 * seen;
  }

  lemma PickBelow(rng: bv32, seen: nat)
    requires seen > 0
    ensures Pick(rng, seen) < seen
  {
    ScaleBelow(Word(rng), seen);
  }

  /** Algorithm R's step on a full reservoir: into the picked slot, if there is one. */
  function Replace<A>(held: seq<A>, j: nat, value: A): (held': seq<A>)
    ensures |held'| == |held|
  {
    if j < |held| then held[j := value] else held
  }

  /** Where the `seen`-th value goes: the next free slot, or the picked one, or nowhere. */
  function Place(held: seq<real>, capacity: nat, rng: bv32, seen: nat, value: real): (seq<real>, bv32) {
    if |held| < capacity then (held + [value], rng)
    else
      var rng' := Xorshift(rng);
      var j := Pick(rng', seen);
      (Replace(held, j, value), rng')
  }

  function Record(r: Reservoir, value: real): Reservoir {
    var (held, rng) := Place(r.held, r.capacity, r.rng, r.seen + 1, value);
    Reservoir(r.capacity, held, r.seen + 1,
              if r.min.None? || value < r.min.value then Some(value) else r.min,
              if r.max.None? || value > r.max.value then Some(value) else r.max,
              r.sum + value, rng)
  }

  /** All zero before anything is recorded; a percentile is `None` when nothing is held (capacity 0). */
  datatype Percentiles = Percentiles(
    count: nat, min: real, max: real, mean: real,
    p50: Option<real>, p90: Option<real>, p99: Option<real>, p999: Option<real>)

  /** Nearest rank in the sorted held samples. */
  function At(held: seq<real>, q: real): Option<real> {
    if held == [] then None else Some(Quantile(held, q))
  }

  function Summarize(r: Reservoir): Percentiles
    requires r.seen > 0 ==> r.min.Some? && r.max.Some?
  {
    if r.seen == 0 then Percentiles(0, 0.0, 0.0, 0.0, Some(0.0), Some(0.0), Some(0.0), Some(0.0))
    else Percentiles(r.seen, r.min.value, r.max.value, r.sum / r.seen as real,
                     At(r.held, 0.5), At(r.held, 0.9), At(r.held, 0.99), At(r.held, 0.999))
  }

  class Samples {
    const buf: array<real>
    var held: nat
    var seen: nat
    var min: Option<real>
    var max: Option<real>
    var sum: real
    var rng: bv32

    ghost predicate Valid()
      reads this
    {
      held <= buf.Length && (seen > 0 ==> min.Some? && max.Some?)
    }

    ghost function Abs(): Reservoir
      requires Valid()
      reads this, buf
    {
      Reservoir(buf.Length, buf[..held], seen, min, max, sum, rng)
    }

    constructor (capacity: nat)
      ensures Valid() && fresh(buf) && Abs() == Empty(capacity)
    {
      buf := new real[capacity];
      held, seen, sum := 0, 0, 0.0;
      min, max := None, None;
      rng := Seeded(SEED);
    }

    /** Keep the value if there is room, or in place of the picked one once there is not. */
    method Keep(value: real)
      requires Valid()
      modifies `held, `rng, buf
      ensures Valid()
      ensures (buf[..held], rng) == Place(old(buf[..held]), buf.Length, old(rng), seen, value)
    {
      if held < buf.Length {
        buf[held] := value;
        held := held + 1;
        assert buf[..held] == old(buf[..held]) + [value];
        return;
      }
      rng := Xorshift(rng);
      var j := Pick(rng, seen);
      if j < buf.Length {
        buf[j] := value;
      }
    }

    method RecordValue(value: real)
      requires Valid()
      modifies this, buf
      ensures Valid() && Abs() == Record(old(Abs()), value)
    {
      seen := seen + 1;
      sum := sum + value;
      if min.None? || value < min.value {
        min := Some(value);
      }
      if max.None? || value > max.value {
        max := Some(value);
      }
      Keep(value);
    }

    method GetPercentiles() returns (p: Percentiles)
      requires Valid()
      ensures p == Summarize(Abs())
    {
      if seen == 0 {
        return Percentiles(0, 0.0, 0.0, 0.0, Some(0.0), Some(0.0), Some(0.0), Some(0.0));
      }
      var copy := buf[..held];
      p := Percentiles(seen, min.value, max.value, sum / seen as real, At(copy, 0.5), At(copy, 0.9), At(copy, 0.99), At(copy, 0.999));
    }
  }

  // ---------- What the reservoir holds ----------

  function RecordAll(capacity: nat, stream: seq<real>): Reservoir {
    if stream == [] then Empty(capacity) else Record(RecordAll(capacity, stream[..|stream| - 1]), stream[|stream| - 1])
  }

  /** Which stream position each held slot came from, and the generator state, after `n` samples. */
  function Origins(capacity: nat, n: nat): (seq<nat>, bv32) {
    if n == 0 then ([], Seeded(SEED)) else NextOrigins(capacity, n - 1, Origins(capacity, n - 1))
  }

  /** The sample at position `n` comes in. */
  function NextOrigins(capacity: nat, n: nat, before: (seq<nat>, bv32)): (seq<nat>, bv32) {
    var (from, rng) := before;
    if |from| < capacity then (from + [n], rng)
    else
      var rng' := Xorshift(rng);
      (Replace(from, Pick(rng', n + 1), n), rng')
  }

  /** Distinct slots hold distinct positions of the stream. */
  ghost predicate Injects(from: seq<nat>, n: nat) {
    && (forall i :: 0 <= i < |from| ==> from[i] < n)
    && (forall i, j :: 0 <= i < j < |from| ==> from[i] != from[j])
  }

  lemma {:induction false} OriginsInject(capacity: nat, n: nat)
    ensures var from := Origins(capacity, n).0;
            Injects(from, n) && |from| == (if n < capacity then n else capacity)
  {
    if n > 0 {
      OriginsInject(capacity, n - 1);
    }
  }

  /**
   The reservoir holds exactly `min(seen, capacity)` samples, each from a stream position of its own;
   which positions depends on the length of the stream alone, never on the values.
   */
  lemma {:induction false} HeldComesFromTheStream(capacity: nat, stream: seq<real>)
    ensures var r, from := RecordAll(capacity, stream), Origins(capacity, |stream|).0;
            && r.seen == |stream| && r.capacity == capacity && r.rng == Origins(capacity, |stream|).1
            && |r.held| == |from| == (if |stream| < capacity then |stream| else capacity)
            && Injects(from, |stream|)
            && forall i :: 0 <= i < |from| ==> r.held[i] == stream[from[i]]
  {
    OriginsInject(capacity, |stream|);
    RecordFollows(capacity, stream);
  }

  /** The reservoir has seen the stream, and holds its values at the positions the picks have left. */
  ghost predicate Follows(r: Reservoir, stream: seq<real>, origins: (seq<nat>, bv32)) {
    && r.seen == |stream| && r.rng == origins.1 && |r.held| == |origins.0|
    && forall i :: 0 <= i < |r.held| ==> origins.0[i] < |stream| && r.held[i] == stream[origins.0[i]]
  }

  lemma {:induction false} RecordFollows(capacity: nat, stream: seq<real>)
    ensures var r := RecordAll(capacity, stream); r.capacity == capacity && Follows(r, stream, Origins(capacity, |stream|))
  {
    if stream != [] {
      var before, value := stream[..|stream| - 1], stream[|stream| - 1];
      RecordFollows(capacity, before);
      NextFollows(RecordAll(capacity, before), before, value, Origins(capacity, |before|));
      assert before + [value] == stream;
    }
  }

  lemma NextFollows(r: Reservoir, stream: seq<real>, value: real, origins: (seq<nat>, bv32))
    requires Follows(r, stream, origins)
    ensures Follows(Record(r, value), stream + [value], NextOrigins(r.capacity, |stream|, origins))
  {
  }

  /** Up to capacity nothing is sampled away: the reservoir is the stream. */
  lemma {:induction false} ExactUpToCapacity(capacity: nat, stream: seq<real>)
    requires |stream| <= capacity
    ensures RecordAll(capacity, stream).held == stream
  {
    if stream != [] {
      ExactUpToCapacity(capacity, stream[..|stream| - 1]);
      HeldComesFromTheStream(capacity, stream[..|stream| - 1]);
    }
  }

  lemma {:induction false} SumOfTheStream(capacity: nat, stream: seq<real>)
    ensures RecordAll(capacity, stream).sum == Sum(stream)
  {
    if stream != [] {
      SumOfTheStream(capacity, stream[..|stream| - 1]);
    }
  }

  ghost predicate Bounds(r: Reservoir, stream: seq<real>) {
    && (stream != [] ==> r.min.Some? && r.max.Some? && r.min.value in stream && r.max.value in stream)
    && forall x :: x in stream ==> r.min.Some? && r.max.Some? && r.min.value <= x <= r.max.value
  }

  lemma RecordBounds(r: Reservoir, stream: seq<real>, value: real)
    requires Bounds(r, stream) && (stream == [] ==> r.min.None? && r.max.None?)
    ensures Bounds(Record(r, value), stream + [value])
  {
    assert forall x :: x in stream + [value] <==> x in stream || x == value;
  }

  /** Minimum and maximum are the whole stream's, whatever the reservoir dropped. */
  lemma {:induction false} ExtremesOfTheStream(capacity: nat, stream: seq<real>)
    ensures Bounds(RecordAll(capacity, stream), stream)
  {
    if stream != [] {
      var n := |stream| - 1;
      ExtremesOfTheStream(capacity, stream[..n]);
      RecordBounds(RecordAll(capacity, stream[..n]), stream[..n], stream[n]);
      assert stream[..n] + [stream[n]] == stream;
    }
  }

  /**
   The nearest-rank definition: a percentile is a held sample, at least the fraction `q` of the held
   samples do not exceed it, and fewer than that fraction lie below it.
   */
  lemma PercentileIsNearestRank(held: seq<real>, q: real)
    requires held != [] && 0.0 < q <= 1.0
    ensures IsQuantile(held, q, At(held, q).value)
  {
    QuantileByCounts(held, q, At(held, q).value);
  }

  lemma QuantilesOrdered(held: seq<real>, p: real, q: real)
    requires held != [] && 0.0 < p <= q <= 1.0
    ensures Quantile(held, p) <= Quantile(held, q) && Quantile(held, p) in held && Quantile(held, q) in held
  {
    RankMonotone(|held|, p, q);
    SortSorts(held);
    SortMembers(held);
    assert Sort(held)[Rank(|held|, p)] in Sort(held) && Sort(held)[Rank(|held|, q)] in Sort(held);
  }

  lemma HeldWithinBounds(capacity: nat, stream: seq<real>, x: real)
    requires x in RecordAll(capacity, stream).held
    ensures var r := RecordAll(capacity, stream);
            r.min.Some? && r.max.Some? && r.min.value <= x <= r.max.value
  {
    HeldComesFromTheStream(capacity, stream);
    ExtremesOfTheStream(capacity, stream);
    var i :| 0 <= i < |RecordAll(capacity, stream).held| && RecordAll(capacity, stream).held[i] == x;
    assert stream[Origins(capacity, |stream|).0[i]] == x;
  }

  /** The report is ordered: minimum, the four percentiles, maximum; its mean is the stream's. */
  lemma PercentilesOrdered(capacity: nat, stream: seq<real>)
    requires stream != [] && capacity > 0
    ensures var r := RecordAll(capacity, stream);
            && r.seen > 0 && r.min.Some? && r.max.Some? && r.held != []
            && var p := Summarize(r);
               && p.count == |stream| && p.mean == Sum(stream) / |stream| as real
               && p.p50.Some? && p.p90.Some? && p.p99.Some? && p.p999.Some?
               && p.min <= p.p50.value <= p.p90.value <= p.p99.value <= p.p999.value <= p.max
  {
    var r := RecordAll(capacity, stream);
    HeldComesFromTheStream(capacity, stream);
    SumOfTheStream(capacity, stream);
    QuantilesOrdered(r.held, 0.5, 0.9);
    QuantilesOrdered(r.held, 0.9, 0.99);
    QuantilesOrdered(r.held, 0.99, 0.999);
    HeldWithinBounds(capacity, stream, Quantile(r.held, 0.5));
    HeldWithinBounds(capacity, stream, Quantile(r.held, 0.999));
  }

  /** With something seen, percentiles exist exactly if the capacity is not zero. */
  lemma PercentilesNeedCapacity(capacity: nat, stream: seq<real>, q: real)
    requires stream != []
    ensures At(RecordAll(capacity, stream).held, q).Some? <==> capacity > 0
  {
    HeldComesFromTheStream(capacity, stream);
  }

  /** A held sample which `num` in `den` of the held samples do not exceed, while fewer lie below it. */
  ghost predicate AtFraction(held: seq<real>, v: Option<real>, num: nat, den: nat) {
    v.Some? && v.value in held && den * AtMost(held, v.value) >= num * |held| > den * Below(held, v.value)
  }

  /**
   Each percentile is tied to its own fraction: half of the held samples, nine tenths, ninety-nine
   hundredths and 999 thousandths do not exceed it, and fewer lie below it.  The extremes are those of
   the stream.
   */
  lemma PercentilesMean(capacity: nat, stream: seq<real>)
    requires stream != [] && capacity > 0
    ensures var r := RecordAll(capacity, stream);
            && r.seen > 0 && r.min.Some? && r.max.Some?
            && var p := Summarize(r);
               && AtFraction(r.held, p.p50, 1, 2) && AtFraction(r.held, p.p90, 9, 10)
               && AtFraction(r.held, p.p99, 99, 100) && AtFraction(r.held, p.p999, 999, 1000)
               && p.min in stream && p.max in stream && forall x :: x in stream ==> p.min <= x <= p.max
  {
    var r := RecordAll(capacity, stream);
    HeldComesFromTheStream(capacity, stream);
    ExtremesOfTheStream(capacity, stream);
    ByCounts(r.held, 0.5, 1, 2);
    ByCounts(r.held, 0.9, 9, 10);
    ByCounts(r.held, 0.99, 99, 100);
    ByCounts(r.held, 0.999, 999, 1000);
  }

  /** The nearest rank in whole numbers. */
  lemma ByCounts(held: seq<real>, q: real, num: nat, den: nat)
    requires held != [] && 0 < num <= den && q * den as real == num as real
    ensures AtFraction(held, At(held, q), num, den)
  {
    var v := At(held, q).value;
    AtMostOne(q, num, den);
    PercentileIsNearestRank(held, q);
    QuantileCleared(held, q, v, num, den);
  }

  lemma QuantileCleared(held: seq<real>, q: real, v: real, num: nat, den: nat)
    requires den > 0 && q * den as real == num as real && IsQuantile(held, q, v)
    ensures den * AtMost(held, v) >= num * |held| > den * Below(held, v)
  {
    Cleared(AtMost(held, v), q, |held|, num, den);
    Cleared(Below(held, v), q, |held|, num, den);
  }

  lemma AtMostOne(q: real, num: nat, den: nat)
    requires 0 < num <= den && q * den as real == num as real
    ensures 0.0 < q <= 1.0
  {
    var d, product := den as real, num as real;
    FurtherThan(q, 0.0, d);
    FurtherThan(q, 1.0, d);
    assert q > 1.0 <==> product > d;
  }

  /** Comparing with a fraction of `n`, and with its numerator once the denominator is cleared. */
  lemma Cleared(count: nat, q: real, n: nat, num: nat, den: nat)
    requires den > 0 && q * den as real == num as real
    ensures count as real >= q * n as real <==> den * count >= num * n
  {
    var c, x, d := count as real, q * n as real, den as real;
    assert x * d == (q * d) * n as real;
    assert (den * count) as real == d * c;
    assert (num * n) as real == num as real * n as real;
    assert (c - x) * d == c * d - x * d;
    assert c >= x ==> (c - x) * d >= 0.0;
    assert c < x ==> (x - c) * d > 0.0;
  }

  /** Before anything is recorded the report is all zeros. */
  lemma NothingRecorded(capacity: nat)
    ensures Summarize(RecordAll(capacity, [])) == Percentiles(0, 0.0, 0.0, 0.0, Some(0.0), Some(0.0), Some(0.0), Some(0.0))
  {
  }

  // ---------- How evenly a word is spread over the picks ----------

  /** The words, among all those the generator can produce, that pick index `j`. */
  function WordsFor(j: nat, seen: nat): set<nat> {
    set w: nat | 0 <= w < WORDS && Scaled(w, seen) == j
  }

  /** The least word times `seen` that reaches `x`. */
  function CeilDiv(x: nat, seen: nat): nat
    requires seen > 0
  {
    (x + seen - 1) / seen
  }

  lemma QuotientBounds(x: nat, d: nat)
    requires d > 0
    ensures x / d * d <= x < (x / d + 1) * d
  {
  }

  lemma LessTimes(a: nat, b: nat, d: nat)
    requires d > 0
    ensures a <= b <==> a * d <= b * d
  {
    if a <= b {
      Distribute(a, b - a, d);
    } else {
      Distribute(b, a - b, d);
      AtLeastOnce(a - b, d);
    }
  }

  lemma AtLeastOnce(k: nat, d: nat)
    requires k > 0
    ensures k * d >= d
  {
    Distribute(1, k - 1, d);
  }

  lemma CeilDivReaches(x: nat, seen: nat, w: nat)
    requires seen > 0
    ensures w >= CeilDiv(x, seen) <==> w * seen >= x
  {
    var c := CeilDiv(x, seen);
    QuotientBounds(x + seen - 1, seen);
    assert (c + 1) * seen == c * seen + seen;
    assert c * seen >= x;
    LessTimes(c, w, seen);
    if w < c {
      LessTimes(w + 1, c, seen);
      assert (w + 1) * seen == w * seen + seen;
    }
  }

  lemma ScaledIs(w: nat, seen: nat, j: nat)
    ensures Scaled(w, seen) == j <==> j * WORDS <= w * seen < (j + 1) * WORDS
  {
  }

  function Between(a: nat, b: nat): (ws: set<nat>)
    ensures forall w :: w in ws <==> a <= w < b
    ensures |ws| == if a < b then b - a else 0
  {
    if a < b then Between(a, b - 1) + {b - 1} else {}
  }

  /** The words of one index are consecutive. */
  lemma WordsAreConsecutive(j: nat, seen: nat)
    requires j < seen
    ensures WordsFor(j, seen) == Between(CeilDiv(j * WORDS, seen), CeilDiv((j + 1) * WORDS, seen))
  {
    forall w: nat
      ensures w in WordsFor(j, seen) <==> w in Between(CeilDiv(j * WORDS, seen), CeilDiv((j + 1) * WORDS, seen))
    {
      ScaledIs(w, seen, j);
      CeilDivReaches(j * WORDS, seen, w);
      CeilDivReaches((j + 1) * WORDS, seen, w);
      WithinWords(w, j, seen);
    }
  }

  lemma WithinWords(w: nat, j: nat, seen: nat)
    requires j < seen
    ensures w * seen < (j + 1) * WORDS ==> w < WORDS
  {
    if w >= WORDS {
      LessTimes(WORDS, w, seen);
    }
  }

  /** Adding `step` to what is divided adds its quotient, or one more. */
  lemma CeilDivStep(x: nat, step: nat, seen: nat)
    requires seen > 0
    ensures CeilDiv(x, seen) + step / seen <= CeilDiv(x + step, seen) <= CeilDiv(x, seen) + step / seen + 1
    ensures step % seen == 0 ==> CeilDiv(x + step, seen) == CeilDiv(x, seen) + step / seen
  {
    var c, f, r := CeilDiv(x, seen), step / seen, step % seen;
    assert step == f * seen + r;
    assert (c + f) * seen == c * seen + f * seen;
    assert (c + f + 1) * seen == c * seen + f * seen + seen;
    CeilDivReaches(x, seen, c);
    CeilDivReaches(x + step, seen, c + f + 1);
    if r == 0 {
      CeilDivReaches(x + step, seen, c + f);
    }
    if c + f > 0 {
      assert (c + f - 1) * seen == c * seen + f * seen - seen;
      CeilDivReaches(x + step, seen, c + f - 1);
      if c > 0 {
        assert (c - 1) * seen == c * seen - seen;
        CeilDivReaches(x, seen, c - 1);
      } else {
        CeilDivReaches(x, seen, 0);
      }
    }
  }

  lemma NextMultiple(j: nat)
    ensures (j + 1) * WORDS == j * WORDS + WORDS
  {
  }

  lemma WordsBetween(j: nat, seen: nat) returns (lo: nat, hi: nat)
    requires j < seen
    ensures WordsFor(j, seen) == Between(lo, hi)
    ensures lo + WORDS / seen <= hi <= lo + WORDS / seen + 1
    ensures WORDS % seen == 0 ==> hi == lo + WORDS / seen
  {
    WordsAreConsecutive(j, seen);
    NextMultiple(j);
    CeilDivStep(j * WORDS, WORDS, seen);
    lo, hi := CeilDiv(j * WORDS, seen), CeilDiv(j * WORDS + WORDS, seen);
  }

  /** Every index below `seen` is picked by 2^32/seen words, rounded one way or the other, and exactly that many where it is whole. */
  lemma PicksAreEven(j: nat, seen: nat)
    requires j < seen
    ensures WORDS / seen <= |WordsFor(j, seen)| <= WORDS / seen + 1
    ensures WORDS % seen == 0 ==> |WordsFor(j, seen)| == WORDS / seen
  {
    var lo, hi := WordsBetween(j, seen);
    SizeBetween(lo, hi, WORDS / seen, WORDS % seen == 0);
  }

  lemma SizeBetween(lo: nat, hi: nat, f: nat, exact: bool)
    requires lo + f <= hi <= lo + f + 1 && (exact ==> hi == lo + f)
    ensures f <= |Between(lo, hi)| <= f + 1 && (exact ==> |Between(lo, hi)| == f)
  {
  }

  // ---------- How evenly it samples ----------

  /**
   A full reservoir holds the stream positions `from` after `m` samples.  Of all the ways to pick for
   the samples up to the n-th, the k-th of which picks any number below k: how many end with position
   `p` held?
   */
  function Ways(from: seq<nat>, m: nat, n: nat, p: nat): nat
    requires m <= n
    decreases n - m, m + 2
  {
    if m == n then (if p in from then 1 else 0) else WaysOver(from, m, n, p, m + 1)
  }

  /** The same, where the next pick is below `picks`. */
  function WaysOver(from: seq<nat>, m: nat, n: nat, p: nat, picks: nat): nat
    requires m < n
    decreases n - m, picks
  {
    if picks == 0 then 0 else WaysOver(from, m, n, p, picks - 1) + Ways(Replace(from, picks - 1, m), m + 1, n, p)
  }

  /** All the ways to pick for the samples after the m-th up to the n-th. */
  function AllWays(m: nat, n: nat): nat
    requires m <= n
    decreases n - m
  {
    if m == n then 1 else (m + 1) * AllWays(m + 1, n)
  }

  /** Those among them that leave one given slot alone. */
  function Spared(m: nat, n: nat): nat
    requires m <= n
    decreases n - m
  {
    if m == n then 1 else m * Spared(m + 1, n)
  }

  ghost predicate Full(from: seq<nat>, m: nat) {
    Injects(from, m) && |from| <= m
  }

  lemma ReplaceKeepsFull(from: seq<nat>, j: nat, m: nat)
    requires Full(from, m)
    ensures Full(Replace(from, j, m), m + 1)
  {
  }

  lemma Distribute(a: nat, b: nat, c: nat)
    ensures (a + b) * c == a * c + b * c
  {
  }

  /** A position that was dropped never comes back. */
  lemma {:induction false} DroppedStaysDropped(from: seq<nat>, m: nat, n: nat, p: nat)
    requires m <= n && p < m && p !in from
    ensures Ways(from, m, n, p) == 0
    decreases n - m, m + 2
  {
    if m < n {
      DroppedOver(from, m, n, p, m + 1);
    }
  }

  lemma {:induction false} DroppedOver(from: seq<nat>, m: nat, n: nat, p: nat, picks: nat)
    requires m < n && p < m && p !in from
    ensures WaysOver(from, m, n, p, picks) == 0
    decreases n - m, picks
  {
    if picks > 0 {
      DroppedOver(from, m, n, p, picks - 1);
      DroppedStaysDropped(Replace(from, picks - 1, m), m + 1, n, p);
    }
  }

  /** A held position survives every pick but the one of its slot. */
  lemma {:induction false} HeldSurvives(from: seq<nat>, m: nat, n: nat, slot: nat)
    requires m <= n && Full(from, m) && slot < |from|
    ensures Ways(from, m, n, from[slot]) == Spared(m, n)
    decreases n - m, m + 2
  {
    if m < n {
      HeldOver(from, m, n, slot, m + 1);
    }
  }

  lemma {:induction false} HeldOver(from: seq<nat>, m: nat, n: nat, slot: nat, picks: nat)
    requires m < n && Full(from, m) && slot < |from|
    ensures WaysOver(from, m, n, from[slot], picks) == (if slot < picks then picks - 1 else picks) * Spared(m + 1, n)
    decreases n - m, picks
  {
    if picks > 0 {
      var j, p := picks - 1, from[slot];
      var from' := Replace(from, j, m);
      HeldOver(from, m, n, slot, j);
      if slot == j {
        DroppedStaysDropped(from', m + 1, n, p);
      } else {
        ReplaceKeepsFull(from, j, m);
        HeldSurvives(from', m + 1, n, slot);
        Distribute(if slot < j then j - 1 else j, 1, Spared(m + 1, n));
      }
    }
  }

  /** A sample still to come is held in as many ways for one position as for another. */
  lemma {:induction false} LaterSurvives(from: seq<nat>, m: nat, n: nat, p: nat)
    requires m <= p < n && Full(from, m)
    ensures Ways(from, m, n, p) == |from| * Spared(m + 1, n)
    decreases n - m, m + 2
  {
    if p == m {
      EntersOver(from, n, p, m + 1);
    } else {
      LaterOver(from, m, n, p, m + 1);
      Commute(m + 1, |from|, Spared(m + 2, n));
    }
  }

  lemma Commute(a: nat, b: nat, c: nat)
    ensures a * (b * c) == b * (a * c)
  {
  }

  /** The next sample itself: held if its pick is a slot, and then it survives like any held one. */
  lemma {:induction false} EntersOver(from: seq<nat>, n: nat, m: nat, picks: nat)
    requires m < n && Full(from, m)
    ensures WaysOver(from, m, n, m, picks) == (if picks < |from| then picks else |from|) * Spared(m + 1, n)
    decreases n - m, picks
  {
    if picks > 0 {
      var j := picks - 1;
      EntersOver(from, n, m, j);
      ReplaceKeepsFull(from, j, m);
      if j < |from| {
        HeldSurvives(Replace(from, j, m), m + 1, n, j);
        Distribute(j, 1, Spared(m + 1, n));
      } else {
        DroppedStaysDropped(from, m + 1, n, m);
      }
    }
  }

  lemma {:induction false} LaterOver(from: seq<nat>, m: nat, n: nat, p: nat, picks: nat)
    requires m < p < n && Full(from, m)
    ensures WaysOver(from, m, n, p, picks) == picks * (|from| * Spared(m + 2, n))
    decreases n - m, picks
  {
    if picks > 0 {
      var j := picks - 1;
      LaterOver(from, m, n, p, j);
      ReplaceKeepsFull(from, j, m);
      LaterSurvives(Replace(from, j, m), m + 1, n, p);
      Distribute(j, 1, |from| * Spared(m + 2, n));
    }
  }

  /** The reservoir when it has just become full. */
  function FirstPositions(capacity: nat): (from: seq<nat>)
    ensures |from| == capacity && forall i :: 0 <= i < capacity ==> from[i] == i
  {
    seq(capacity, i requires 0 <= i < capacity => i)
  }

  /** Counted over all picks, every position of the stream is held equally often. */
  lemma EveryPositionEquallyOften(capacity: nat, n: nat, p: nat)
    requires capacity <= n && p < n
    ensures Ways(FirstPositions(capacity), capacity, n, p) == Spared(capacity, n)
  {
    if p < capacity {
      HeldSurvives(FirstPositions(capacity), capacity, n, p);
    } else {
      LaterSurvives(FirstPositions(capacity), capacity, n, p);
    }
  }

  /** And that is `capacity` times out of `n`: the n-th sample survives with probability capacity/n. */
  lemma {:induction false} SurvivalIsCapacityOverSeen(capacity: nat, n: nat)
    requires capacity <= n
    ensures n * Spared(capacity, n) == capacity * AllWays(capacity, n)
    decreases n - capacity
  {
    if capacity < n {
      var m := capacity + 1;
      SurvivalIsCapacityOverSeen(m, n);
      Commute(n, capacity, Spared(m, n));
    }
  }
}
