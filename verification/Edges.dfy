/**
 `cluster.ts`: the load-balancer edges of the locality scenario, and the stride on which its
 measured phase visits the actors.
 */
module Edges {

  // ---------- The edges ----------

  class RoundRobin {
    const n: nat
    var next: nat

    constructor (n: nat)
      ensures this.n == n && next == 0
    {
      this.n, next := n, 0;
    }

    method Edge() returns (host: nat)
      requires n > 0
      modifies this
      ensures next == old(next) + 1 && host == old(next) % n
    {
      host := next % n;
      next := next + 1;
    }
  }

  /** Where the i-th call of a skewed edge over `n` hosts goes. */
  function SkewedHost(n: nat, i: nat): nat
    requires n > 0
  {
    if i % 5 == 0 then (i / 5) % n else 0
  }

  /** Four calls in five go to host 0; the fifth takes its own round-robin counter over all hosts. */
  class Skewed {
    const n: nat
    var next: nat
    var rest: nat

    constructor (n: nat)
      ensures this.n == n && Valid() && next == 0
    {
      this.n, next, rest := n, 0, 0;
    }

    /** After `next` calls, every fifth of them (counting the first) went through `rest`. */
    ghost predicate Valid()
      reads this
    {
      rest == (next + 4) / 5
    }

    method Edge() returns (host: nat)
      requires n > 0 && Valid()
      modifies this
      ensures Valid() && next == old(next) + 1 && host == SkewedHost(n, old(next))
    {
      if next % 5 == 0 {
        host := rest % n;
        rest := rest + 1;
      } else {
        host := 0;
      }
      next := next + 1;
    }
  }

  /** How many of the first `k` calls went through the skewed edge's own counter. */
  function Spread(k: nat): nat {
    if k == 0 then 0 else Spread(k - 1) + if (k - 1) % 5 == 0 then 1 else 0
  }

  /** Of those, how many landed on `host`. */
  function SpreadOn(n: nat, host: nat, k: nat): nat
    requires n > 0
  {
    if k == 0 then 0
    else SpreadOn(n, host, k - 1) + if (k - 1) % 5 == 0 && SkewedHost(n, k - 1) == host then 1 else 0
  }

  lemma {:induction false} SpreadIsAFifth(k: nat)
    ensures Spread(k) == (k + 4) / 5
  {
    if k > 0 {
      SpreadIsAFifth(k - 1);
    }
  }

  /** A multiple of `n` strictly between `-n` and `n` is zero. */
  lemma SmallMultiple(n: int, m: int)
    requires n > 0
    ensures -n < n * m < n ==> m == 0
  {
    if m >= 1 {
      assert n * (m - 1) >= 0;
    } else if m <= -1 {
      assert n * (-m - 1) >= 0;
    }
  }

  lemma QuotientOf(m: int, n: int, q: int, r: int)
    requires n > 0 && m == q * n + r && 0 <= r < n
    ensures m / n == q && m % n == r
  {
    assert m == (m / n) * n + m % n;
    assert n * (m / n - q) == r - m % n;
    SmallMultiple(n, m / n - q);
  }

  /** How many of `m` turns of a counter over `n` hosts are `host`'s. */
  function Turns(m: nat, n: nat, host: nat): nat
    requires n > 0
  {
    m / n + if host < m % n then 1 else 0
  }

  lemma TurnsOf(m: nat, n: nat, host: nat, q: nat, r: nat)
    requires n > 0 && m == q * n + r && r < n
    ensures Turns(m, n, host) == q + (if host < r then 1 else 0) && m % n == r
  {
    QuotientOf(m, n, q, r);
  }

  lemma NextRow(q: nat, n: nat)
    ensures (q + 1) * n == q * n + n
  {
  }

  /** One more turn. */
  lemma CounterStep(m: nat, n: nat, host: nat)
    requires n > 0 && host < n
    ensures Turns(m + 1, n, host) == Turns(m, n, host) + if m % n == host then 1 else 0
  {
    var q, r := m / n, m % n;
    assert m == q * n + r;
    TurnsOf(m, n, host, q, r);
    if r + 1 < n {
      TurnsOf(m + 1, n, host, q, r + 1);
    } else {
      NextRow(q, n);
      TurnsOf(m + 1, n, host, q + 1, 0);
    }
  }

  /** The spread calls go round the hosts. */
  lemma SkewedIsCounter(n: nat, k: nat)
    requires n > 0 && k % 5 == 0
    ensures SkewedHost(n, k) == Spread(k) % n
  {
    SpreadIsAFifth(k);
    assert (k + 4) / 5 == k / 5;
  }

  lemma SpreadStep(n: nat, host: nat, k: nat)
    requires n > 0 && k > 0
    ensures (k - 1) % 5 == 0 ==>
              && Spread(k) == Spread(k - 1) + 1
              && SpreadOn(n, host, k) == SpreadOn(n, host, k - 1) + if Spread(k - 1) % n == host then 1 else 0
    ensures (k - 1) % 5 != 0 ==> Spread(k) == Spread(k - 1) && SpreadOn(n, host, k) == SpreadOn(n, host, k - 1)
  {
    if (k - 1) % 5 == 0 {
      SkewedIsCounter(n, k - 1);
    }
  }

  /** Every host gets the whole turns of the counter, and the first hosts one more. */
  lemma {:induction false} SpreadOnHost(n: nat, host: nat, k: nat)
    requires n > 0 && host < n
    ensures SpreadOn(n, host, k) == Turns(Spread(k), n, host)
  {
    if k == 0 {
      TurnsOf(0, n, host, 0, 0);
    } else {
      SpreadOnHost(n, host, k - 1);
      SpreadStep(n, host, k);
      CounterStep(Spread(k - 1), n, host);
    }
  }

  /** So the fifth that is spread is spread evenly: no host gets more than one call above another. */
  lemma SpreadIsEven(n: nat, h1: nat, h2: nat, k: nat)
    requires n > 0 && h1 < n && h2 < n
    ensures -1 <= SpreadOn(n, h1, k) - SpreadOn(n, h2, k) <= 1
    ensures Spread(k) == (k + 4) / 5
  {
    SpreadOnHost(n, h1, k);
    SpreadOnHost(n, h2, k);
    SpreadIsAFifth(k);
  }

  /** How many of the first `k` calls went to `host`, by whichever way. */
  function CallsTo(n: nat, host: nat, k: nat): nat
    requires n > 0
  {
    if k == 0 then 0 else CallsTo(n, host, k - 1) + if SkewedHost(n, k - 1) == host then 1 else 0
  }

  lemma {:induction false} CallsToBySpread(n: nat, host: nat, k: nat)
    requires n > 0
    ensures CallsTo(n, host, k) == SpreadOn(n, host, k) + if host == 0 then k - Spread(k) else 0
    ensures Spread(k) <= k
  {
    if k > 0 {
      CallsToBySpread(n, host, k - 1);
    }
  }

  /**
   Of the first `k` calls host 0 gets all but the fifth that is spread, and its share of that fifth;
   every other host gets its share of the fifth and nothing else.
   */
  lemma WhereTheCallsGo(n: nat, host: nat, k: nat)
    requires n > 0 && host < n
    ensures var spread := (k + 4) / 5;
            CallsTo(n, host, k) == Turns(spread, n, host) + if host == 0 then k - spread else 0
  {
    CallsToBySpread(n, host, k);
    SpreadOnHost(n, host, k);
    SpreadIsAFifth(k);
  }

  // ---------- The stride ----------

  /** No number but 1 divides both. */
  ghost predicate Coprime(a: nat, b: nat) {
    forall d: nat, x: nat, y: nat :: a == x * d && b == y * d ==> d == 1
  }

  function Visited(actors: nat, stride: nat, step: nat): nat
    requires actors > 0
  {
    (step * stride) % actors
  }

  method VisitAll(actors: nat, stride: nat) returns (visits: seq<nat>)
    requires actors > 0
    ensures |visits| == actors && forall step :: 0 <= step < actors ==> visits[step] == Visited(actors, stride, step)
  {
    visits := [];
    for step := 0 to actors
      invariant |visits| == step
      invariant forall s :: 0 <= s < step ==> visits[s] == Visited(actors, stride, s)
    {
      visits := visits + [(step * stride) % actors];
    }
  }

  /** A greatest common divisor, as a combination of the two numbers and as a divisor of both. */
  datatype Bezout = Bezout(g: nat, u: int, v: int, x: nat, y: nat)

  lemma {:induction false} FindBezout(a: nat, b: nat) returns (z: Bezout)
    requires a + b > 0
    ensures z.g > 0 && z.u * a + z.v * b == z.g && a == z.x * z.g && b == z.y * z.g
    decreases b
  {
    if b == 0 {
      z := Bezout(a, 1, 0, 1, 0);
    } else {
      var q, r := a / b, a % b;
      assert a == q * b + r;
      var w := FindBezout(b, r);
      EuclidStep(a, b, q, r, w.u, w.v, w.g);
      assert (q * w.x + w.y) * w.g == q * (w.x * w.g) + w.y * w.g;
      z := Bezout(w.g, w.v, w.u - w.v * q, q * w.x + w.y, w.x);
    }
  }

  lemma EuclidStep(a: int, b: int, q: int, r: int, u: int, v: int, g: int)
    requires a == q * b + r && u * b + v * r == g
    ensures v * a + (u - v * q) * b == g
  {
    assert v * a == v * (q * b) + v * r;
    assert (u - v * q) * b == u * b - v * q * b;
    assert v * (q * b) == v * q * b;
  }

  /** The step that reaches actor `t`: its multiple of the stride's inverse. */
  lemma Reaches(actors: nat, stride: nat, u: int, v: int, t: nat) returns (step: nat)
    requires actors > 0 && u * stride + v * actors == 1 && t < actors
    ensures step < actors && Visited(actors, stride, step) == t
  {
    var q := (t * u) / actors;
    step := (t * u) % actors;
    assert t * u == q * actors + step;
    var k := -(t * v) - q * stride;
    assert step * stride == k * actors + t by {
      ReachesAlgebra(actors, stride, u, v, t, q, step);
    }
    QuotientOf(step * stride, actors, k, t);
  }

  lemma ReachesAlgebra(n: int, a: int, u: int, v: int, t: int, q: int, step: int)
    requires u * a + v * n == 1 && t * u == q * n + step
    ensures step * a == (-(t * v) - q * a) * n + t
  {
    assert step * a == (t * u) * a - (q * n) * a;
    assert (t * u) * a == t * (u * a) == t * (1 - v * n) == t - t * (v * n);
    assert (-(t * v) - q * a) * n == -(n * (t * v)) - n * (q * a);
    assert t * (v * n) == n * (t * v) && (q * n) * a == n * (q * a);
  }

  /** Two steps that reach the same actor are the same step. */
  lemma ReachesOnce(actors: nat, stride: nat, u: int, v: int, s1: nat, s2: nat)
    requires actors > 0 && u * stride + v * actors == 1
    requires s1 <= s2 < actors && Visited(actors, stride, s1) == Visited(actors, stride, s2)
    ensures s1 == s2
  {
    var k := SameResidue(s1 * stride, s2 * stride, actors);
    assert (s2 - s1) * stride == s2 * stride - s1 * stride;
    OnceAlgebra(actors, stride, u, v, s2 - s1, k);
    SmallMultiple(actors, u * k + (s2 - s1) * v);
  }

  lemma SameResidue(p1: nat, p2: nat, n: nat) returns (k: int)
    requires n > 0 && p1 % n == p2 % n
    ensures p2 - p1 == k * n
  {
    k := p2 / n - p1 / n;
    assert p1 == (p1 / n) * n + p1 % n && p2 == (p2 / n) * n + p2 % n;
    assert k * n == (p2 / n) * n - (p1 / n) * n;
  }

  lemma OnceAlgebra(n: int, a: int, u: int, v: int, d: int, k: int)
    requires u * a + v * n == 1 && d * a == k * n
    ensures d == n * (u * k + d * v)
  {
    assert d == d * (u * a + v * n) == u * (d * a) + n * (d * v);
    assert u * (k * n) == n * (u * k);
    assert n * (u * k + d * v) == n * (u * k) + n * (d * v);
  }

  ghost predicate IsVisited(actors: nat, stride: nat, t: nat)
    requires actors > 0
  {
    exists step :: 0 <= step < actors && Visited(actors, stride, step) == t
  }

  ghost predicate VisitsEachOnce(actors: nat, stride: nat)
    requires actors > 0
  {
    && (forall t :: 0 <= t < actors ==> IsVisited(actors, stride, t))
    && forall s1, s2 :: 0 <= s1 < s2 < actors ==> Visited(actors, stride, s1) != Visited(actors, stride, s2)
  }

  lemma BezoutVisits(actors: nat, stride: nat, u: int, v: int)
    requires actors > 0 && u * stride + v * actors == 1
    ensures VisitsEachOnce(actors, stride)
  {
    forall t | 0 <= t < actors ensures IsVisited(actors, stride, t) {
      var step := Reaches(actors, stride, u, v, t);
      assert 0 <= step < actors && Visited(actors, stride, step) == t;
    }
    forall s1, s2 | 0 <= s1 < s2 < actors ensures Visited(actors, stride, s1) != Visited(actors, stride, s2) {
      if Visited(actors, stride, s1) == Visited(actors, stride, s2) {
        ReachesOnce(actors, stride, u, v, s1, s2);
      }
    }
  }

  /** With a common divisor, the visits start over before every actor has had one. */
  lemma CommonDivisorRepeats(actors: nat, stride: nat, d: nat, x: nat, y: nat)
    requires actors > 0 && d > 1 && actors == x * d && stride == y * d
    ensures 0 < x < actors && Visited(actors, stride, x) == Visited(actors, stride, 0)
  {
    assert x > 0;
    assert x * d >= x * 2;
    assert x * stride == y * actors;
    QuotientOf(x * stride, actors, y, 0);
  }

  /** The measured loop visits every actor exactly once if and only if the stride is coprime with their number. */
  lemma StrideVisitsEachOnce(actors: nat, stride: nat)
    requires actors > 0
    ensures VisitsEachOnce(actors, stride) <==> Coprime(actors, stride)
  {
    var z := FindBezout(actors, stride);
    if z.g == 1 {
      BezoutVisits(actors, stride, z.v, z.u);
      forall d: nat, x: nat, y: nat | actors == x * d && stride == y * d ensures d == 1 {
        CommonDividesOne(actors, stride, z.u, z.v, d, x, y);
      }
    } else {
      CommonDivisorRepeats(actors, stride, z.g, z.x, z.y);
    }
  }

  lemma CommonDividesOne(a: nat, b: nat, u: int, v: int, d: nat, x: nat, y: nat)
    requires u * a + v * b == 1 && a == x * d && b == y * d
    ensures d == 1
  {
    var m := u * x + v * y;
    assert d * m == u * (x * d) + v * (y * d) == 1;
    if d > 1 {
      SmallMultiple(d, m);
    }
  }

  /** The scenario's stride of 97 serves both of its actor counts. */
  lemma Stride97()
    ensures VisitsEachOnce(60, 97) && VisitsEachOnce(240, 97)
  {
    BezoutVisits(60, 97, 13, -21);
    BezoutVisits(240, 97, 193, -78);
  }
}
