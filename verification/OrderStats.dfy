/** Sorting and order statistics over reals: what the medians, quantiles and percentiles rest on. */
module OrderStats {
  import opened Series
  import opened StableSort

  ghost predicate Sorted(s: seq<real>) {
    forall i, j :: 0 <= i < j < |s| ==> s[i] <= s[j]
  }

  predicate AtMostAs(x: real, y: real) { x <= y }

  /** `[...values].sort((a, b) => a - b)`. */
  function Sort(s: seq<real>): seq<real> {
    SortBy(AtMostAs, s)
  }

  lemma SortSorts(s: seq<real>)
    ensures Sorted(Sort(s)) && multiset(Sort(s)) == multiset(s) && |Sort(s)| == |s|
  {
    SortBySorts(AtMostAs, s);
    forall i, j | 0 <= i < j < |Sort(s)| ensures Sort(s)[i] <= Sort(s)[j] {
      assert AtMostAs(Sort(s)[i], Sort(s)[j]);
    }
  }

  /** The least value of a sorted sequence stands first, wherever the other one lists it. */
  lemma FirstIsLeast(a: seq<real>, b: seq<real>)
    requires Sorted(a) && a != [] && multiset(a) == multiset(b) && b != []
    ensures a[0] <= b[0]
  {
    assert b[0] in multiset(a);
    var i :| 0 <= i < |a| && a[i] == b[0];
  }

  /** Nothing but the values decides a sorted sequence. */
  lemma {:induction false} SortedUnique(a: seq<real>, b: seq<real>)
    requires Sorted(a) && Sorted(b) && multiset(a) == multiset(b)
    ensures a == b
  {
    assert |a| == |multiset(a)| == |multiset(b)| == |b|;
    if a != [] {
      FirstIsLeast(a, b);
      FirstIsLeast(b, a);
      assert a == [a[0]] + a[1..] && b == [b[0]] + b[1..];
      assert multiset(a[1..]) == multiset(a) - multiset{a[0]} == multiset(b[1..]);
      SortedUnique(a[1..], b[1..]);
    }
  }

  lemma SortOrderFree(a: seq<real>, b: seq<real>)
    requires multiset(a) == multiset(b)
    ensures Sort(a) == Sort(b)
  {
    SortSorts(a);
    SortSorts(b);
    SortedUnique(Sort(a), Sort(b));
  }

  lemma SortOfSorted(t: seq<real>)
    requires Sorted(t)
    ensures Sort(t) == t
  {
    SortSorts(t);
    SortedUnique(Sort(t), t);
  }

  lemma SortMembers(s: seq<real>)
    ensures forall x :: x in Sort(s) <==> x in s
  {
    SortSorts(s);
    forall x ensures x in Sort(s) <==> x in s {
      assert x in multiset(Sort(s)) <==> x in multiset(s);
    }
  }

  // ---------- Counting ----------

  function Map<A, B>(f: A -> B, s: seq<A>): (r: seq<B>)
    ensures |r| == |s| && forall i :: 0 <= i < |s| ==> r[i] == f(s[i])
  {
    seq(|s|, i requires 0 <= i < |s| => f(s[i]))
  }

  function Count<A>(p: A -> bool, s: seq<A>): nat {
    if s == [] then 0 else (if p(s[0]) then 1 else 0) + Count(p, s[1..])
  }

  lemma {:induction false} CountConcat<A>(p: A -> bool, a: seq<A>, b: seq<A>)
    ensures Count(p, a + b) == Count(p, a) + Count(p, b)
  {
    if a == [] {
      assert a + b == b;
    } else {
      CountConcat(p, a[1..], b);
      assert (a + b)[1..] == a[1..] + b;
    }
  }

  lemma {:induction false} CountAll<A>(p: A -> bool, s: seq<A>)
    ensures (forall i :: 0 <= i < |s| ==> p(s[i])) ==> Count(p, s) == |s|
    ensures (forall i :: 0 <= i < |s| ==> !p(s[i])) ==> Count(p, s) == 0
    ensures Count(p, s) <= |s|
  {
    if s != [] {
      CountAll(p, s[1..]);
      assert forall i :: 0 <= i < |s[1..]| ==> s[1..][i] == s[i + 1];
    }
  }

  function Drop<A>(s: seq<A>, i: nat): (rest: seq<A>)
    requires i < |s|
    ensures |rest| == |s| - 1
  {
    s[..i] + s[i + 1..]
  }

  lemma DropSame<A>(s: seq<A>, i: nat)
    requires i < |s|
    ensures multiset(Drop(s, i)) == multiset(s) - multiset{s[i]}
  {
    assert s == s[..i] + [s[i]] + s[i + 1..];
  }

  /** Taking the head of `a` out of a reordering of `a`. */
  lemma MatchHead<A>(a: seq<A>, b: seq<A>) returns (i: nat)
    requires a != [] && multiset(a) == multiset(b)
    ensures i < |b| && b[i] == a[0] && multiset(a[1..]) == multiset(Drop(b, i))
  {
    assert a[0] in multiset(b);
    i :| 0 <= i < |b| && b[i] == a[0];
    DropSame(b, i);
    DropSame(a, 0);
    assert Drop(a, 0) == a[1..];
  }

  lemma CountDrop<A>(p: A -> bool, s: seq<A>, i: nat)
    requires i < |s|
    ensures Count(p, s) == Count(p, Drop(s, i)) + if p(s[i]) then 1 else 0
  {
    assert s == s[..i] + s[i..];
    CountConcat(p, s[..i], s[i..]);
    CountConcat(p, s[..i], s[i + 1..]);
  }

  lemma {:induction false} CountOrderFree<A>(p: A -> bool, a: seq<A>, b: seq<A>)
    requires multiset(a) == multiset(b)
    ensures Count(p, a) == Count(p, b)
  {
    if a == [] {
      assert |b| == |multiset(b)| == 0;
    } else {
      var i := MatchHead(a, b);
      CountOrderFree(p, a[1..], Drop(b, i));
      CountDrop(p, b, i);
    }
  }

  lemma MapDrop<A, B>(f: A -> B, s: seq<A>, i: nat)
    requires i < |s|
    ensures multiset(Map(f, s)) == multiset(Map(f, Drop(s, i))) + multiset{f(s[i])}
  {
    DropSame(Map(f, s), i);
    assert Drop(Map(f, s), i) == Map(f, Drop(s, i));
    assert f(s[i]) == Map(f, s)[i];
  }

  lemma {:induction false} MapOrderFree<A, B>(f: A -> B, a: seq<A>, b: seq<A>)
    requires multiset(a) == multiset(b)
    ensures multiset(Map(f, a)) == multiset(Map(f, b))
  {
    if a == [] {
      assert |b| == |multiset(b)| == 0;
    } else {
      var i := MatchHead(a, b);
      MapOrderFree(f, a[1..], Drop(b, i));
      MapDrop(f, a, 0);
      MapDrop(f, b, i);
      assert Drop(a, 0) == a[1..];
    }
  }

  /** What passes a test in the two parts of a sequence bounds what passes it altogether. */
  lemma CountParts<A>(p: A -> bool, t: seq<A>, k: nat)
    requires k <= |t|
    ensures (forall i :: k <= i < |t| ==> p(t[i])) ==> Count(p, t) >= |t| - k
    ensures (forall i :: 0 <= i < k ==> p(t[i])) ==> Count(p, t) >= k
    ensures (forall i :: k <= i < |t| ==> !p(t[i])) ==> Count(p, t) <= k
  {
    assert t == t[..k] + t[k..];
    CountConcat(p, t[..k], t[k..]);
    CountAll(p, t[..k]);
    CountAll(p, t[k..]);
    assert forall i :: 0 <= i < |t| - k ==> t[k..][i] == t[k + i];
  }

  function AtLeast(s: seq<real>, v: real): nat { Count((x: real) => x >= v, s) }
  function AtMost(s: seq<real>, v: real): nat { Count((x: real) => x <= v, s) }
  function Below(s: seq<real>, v: real): nat { Count((x: real) => x < v, s) }

  lemma AtLeastRank(s: seq<real>, k: nat)
    requires k < |s|
    ensures |Sort(s)| == |s| && AtLeast(s, Sort(s)[k]) >= |s| - k
  {
    SortSorts(s);
    var t := Sort(s);
    CountOrderFree((x: real) => x >= t[k], s, t);
    CountParts((x: real) => x >= t[k], t, k);
  }

  lemma AtMostRank(s: seq<real>, k: nat)
    requires k < |s|
    ensures |Sort(s)| == |s| && AtMost(s, Sort(s)[k]) >= k + 1
  {
    SortSorts(s);
    var t := Sort(s);
    CountOrderFree((x: real) => x <= t[k], s, t);
    CountParts((x: real) => x <= t[k], t, k + 1);
  }

  lemma BelowRank(s: seq<real>, k: nat)
    requires k < |s|
    ensures |Sort(s)| == |s| && Below(s, Sort(s)[k]) <= k
  {
    SortSorts(s);
    var t := Sort(s);
    CountOrderFree((x: real) => x < t[k], s, t);
    CountParts((x: real) => x < t[k], t, k);
  }

  /** At least `|s| - k` values reach the k-th smallest, `k + 1` do not pass it, and at most `k` fall short of it. */
  lemma RankCounts(s: seq<real>, k: nat)
    requires k < |s|
    ensures |Sort(s)| == |s|
    ensures AtLeast(s, Sort(s)[k]) >= |s| - k
    ensures AtMost(s, Sort(s)[k]) >= k + 1
    ensures Below(s, Sort(s)[k]) <= k
  {
    AtLeastRank(s, k);
    AtMostRank(s, k);
    BelowRank(s, k);
  }

  // ---------- Negation ----------

  function Negate(s: seq<real>): seq<real> {
    Map((x: real) => -x, s)
  }

  lemma {:induction false} ReverseSame(s: seq<real>)
    ensures multiset(Reverse(s)) == multiset(s)
  {
    if s != [] {
      ReverseSame(s[1..]);
      assert Reverse(s) == Reverse(s[1..]) + [s[0]];
      assert s == [s[0]] + s[1..];
    } else {
      assert Reverse(s) == s;
    }
  }

  /** Negating a series reverses and negates its sorted form. */
  lemma SortNegated(s: seq<real>)
    ensures Sort(Negate(s)) == Reverse(Negate(Sort(s)))
  {
    SortSorts(s);
    SortSorts(Negate(s));
    MapOrderFree((x: real) => -x, s, Sort(s));
    ReverseSame(Negate(Sort(s)));
    SortedUnique(Sort(Negate(s)), Reverse(Negate(Sort(s))));
  }

  // ---------- Medians and quantiles ----------

  function Ceil(x: real): int {
    -((-x).Floor)
  }

  /** The index a quantile reads: nearest rank, clamped into the array. */
  function Rank(n: nat, q: real): (k: nat)
    requires n > 0
    ensures k < n
  {
    var idx := Ceil(q * n as real) - 1;
    if idx < 0 then 0 else if idx > n - 1 then n - 1 else idx
  }

  /** `median` of `ab-verdict.ts`: the lower-middle value. */
  function LowerMedian(s: seq<real>): real
    requires s != []
  {
    SortSorts(s);
    Sort(s)[(|s| - 1) / 2]
  }

  function UpperMedian(s: seq<real>): real
    requires s != []
  {
    SortSorts(s);
    Sort(s)[|s| / 2]
  }

  /** `median` of `runner.ts`: the two middle values averaged. */
  function MeanMedian(s: seq<real>): real {
    SortSorts(s);
    if s == [] then 0.0
    else if |s| % 2 == 1 then Sort(s)[|s| / 2]
    else (Sort(s)[|s| / 2 - 1] + Sort(s)[|s| / 2]) / 2.0
  }

  function Quantile(s: seq<real>, q: real): real {
    SortSorts(s);
    if s == [] then 0.0 else Sort(s)[Rank(|s|, q)]
  }

  lemma NegatedMedian(s: seq<real>)
    requires s != []
    ensures LowerMedian(Negate(s)) == -UpperMedian(s)
  {
    SortSorts(s);
    SortNegated(s);
    assert |s| - 1 - (|s| - 1) / 2 == |s| / 2;
  }

  lemma MediansOrdered(s: seq<real>)
    requires s != []
    ensures LowerMedian(s) <= UpperMedian(s) && (|s| % 2 == 1 ==> LowerMedian(s) == UpperMedian(s))
  {
    SortSorts(s);
  }

  /** The smallest and largest value bound every one, and the averaged median lies between them. */
  lemma MedianWithinRange(s: seq<real>)
    requires s != []
    ensures |Sort(s)| == |s|
    ensures Sort(s)[0] <= MeanMedian(s) <= Sort(s)[|s| - 1]
    ensures forall x :: x in s ==> Sort(s)[0] <= x <= Sort(s)[|s| - 1]
  {
    SortSorts(s);
    SortMembers(s);
    forall x | x in s ensures Sort(s)[0] <= x <= Sort(s)[|s| - 1] {
      var i :| 0 <= i < |Sort(s)| && Sort(s)[i] == x;
    }
  }

  // ---------- The same by counting ----------

  /** `k` values at most lie below `v`, and more than `k` do not exceed it. */
  ghost predicate IsKth(s: seq<real>, k: nat, v: real) {
    v in s && Below(s, v) <= k < AtMost(s, v)
  }

  /** The k-th smallest value is the one with these counts, and there is no other. */
  lemma KthByCounts(s: seq<real>, k: nat, v: real)
    requires k < |s|
    ensures |Sort(s)| == |s| && (IsKth(s, k, v) <==> v == Sort(s)[k])
  {
    SortSorts(s);
    SortMembers(s);
    RankCounts(s, k);
    var t := Sort(s);
    assert t[k] in t;
    if v < t[k] {
      CountOrderFree((x: real) => x <= v, s, t);
      CountParts((x: real) => x <= v, t, k);
    } else if v > t[k] {
      CountOrderFree((x: real) => x < v, s, t);
      CountParts((x: real) => x < v, t, k + 1);
    }
  }

  /** The two middle values, which are one for an odd count, and their average. */
  lemma MediansByCounts(s: seq<real>) returns (lo: real, hi: real)
    requires s != []
    ensures IsKth(s, (|s| - 1) / 2, lo) && IsKth(s, |s| / 2, hi)
    ensures LowerMedian(s) == lo && UpperMedian(s) == hi && 2.0 * MeanMedian(s) == lo + hi
  {
    SortSorts(s);
    lo, hi := Sort(s)[(|s| - 1) / 2], Sort(s)[|s| / 2];
    KthByCounts(s, (|s| - 1) / 2, lo);
    KthByCounts(s, |s| / 2, hi);
  }

  lemma CeilBounds(x: real)
    ensures x <= Ceil(x) as real < x + 1.0
  {
  }

  lemma Scale(q: real, n: nat)
    requires n > 0 && 0.0 < q <= 1.0
    ensures 0.0 < q * n as real <= n as real
  {
    var m := n as real;
    assert q * m > 0.0 && (1.0 - q) * m >= 0.0;
  }

  lemma RankIsCeil(n: nat, q: real)
    requires n > 0 && 0.0 < q <= 1.0
    ensures Rank(n, q) == Ceil(q * n as real) - 1
    ensures Rank(n, q) as real < q * n as real <= Rank(n, q) as real + 1.0
  {
    Scale(q, n);
    CeilBounds(q * n as real);
  }

  lemma RankMonotone(n: nat, p: real, q: real)
    requires n > 0 && 0.0 < p <= q <= 1.0
    ensures Rank(n, p) <= Rank(n, q)
  {
    var m := n as real;
    assert (q - p) * m >= 0.0;
    RankIsCeil(n, p);
    RankIsCeil(n, q);
  }

  /** At least the fraction `q` of the values do not exceed `v`, fewer lie below it, and it is one of them. */
  ghost predicate IsQuantile(s: seq<real>, q: real, v: real) {
    && v in s
    && AtMost(s, v) as real >= q * |s| as real
    && (Below(s, v) as real) < q * |s| as real
  }

  /** The nearest-rank definition, and only one value meets it. */
  lemma QuantileByCounts(s: seq<real>, q: real, v: real)
    requires s != [] && 0.0 < q <= 1.0
    ensures IsQuantile(s, q, v) <==> v == Quantile(s, q)
  {
    var n := |s|;
    var k := Rank(n, q);
    RankIsCeil(n, q);
    KthByCounts(s, k, v);
    assert AtMost(s, v) as real >= q * n as real <==> AtMost(s, v) > k by {
      FirstAbove(AtMost(s, v), k, q * n as real);
    }
    assert (Below(s, v) as real) < q * n as real <==> Below(s, v) <= k by {
      FirstAbove(Below(s, v), k, q * n as real);
    }
  }

  lemma FirstAbove(count: nat, k: nat, x: real)
    requires (k as real) < x <= k as real + 1.0
    ensures count as real >= x <==> count > k
  {
    assert count > k ==> count as real >= (k + 1) as real;
    assert count <= k ==> count as real <= k as real;
  }

  /** The k-th smallest value reaches `v` exactly if all but `k` values do. */
  lemma KthReaches(s: seq<real>, k: nat, v: real)
    requires k < |s|
    ensures |Sort(s)| == |s| && (Sort(s)[k] >= v <==> AtLeast(s, v) >= |s| - k)
  {
    SortSorts(s);
    var t := Sort(s);
    CountOrderFree((x: real) => x >= v, s, t);
    if t[k] >= v {
      CountParts((x: real) => x >= v, t, k);
    } else {
      NoneBelow((x: real) => x >= v, t, k + 1);
    }
  }

  /** And it stays within `v` exactly if more than `k` values do. */
  lemma KthStaysWithin(s: seq<real>, k: nat, v: real)
    requires k < |s|
    ensures |Sort(s)| == |s| && (Sort(s)[k] <= v <==> AtMost(s, v) >= k + 1)
  {
    SortSorts(s);
    var t := Sort(s);
    CountOrderFree((x: real) => x <= v, s, t);
    if t[k] <= v {
      CountParts((x: real) => x <= v, t, k + 1);
    } else {
      CountParts((x: real) => x <= v, t, k);
    }
  }

  lemma NoneBelow<A>(p: A -> bool, t: seq<A>, k: nat)
    requires k <= |t| && forall i :: 0 <= i < k ==> !p(t[i])
    ensures Count(p, t) <= |t| - k
  {
    assert t == t[..k] + t[k..];
    CountConcat(p, t[..k], t[k..]);
    CountAll(p, t[..k]);
    CountAll(p, t[k..]);
  }
}
