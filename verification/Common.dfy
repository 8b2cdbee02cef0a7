/** The small shared vocabulary: optional values and the JSON codec of a store. */
module Common {

  datatype Option<+T> = None | Some(value: T)

  /** `JSON.stringify` and `JSON.parse` at one type; `parse` is `None` where the original throws. */
  datatype Codec<!T> = Codec(stringify: T -> string, parse: string -> Option<T>)

  /** A value survives the trip through its text. */
  ghost predicate Lawful<T(!new)>(c: Codec<T>) {
    forall t: T :: c.parse(c.stringify(t)) == Some(t)
  }
}

/** Joining sequences. */
module Sequences {

  /** The parts one after the other. */
  function Flatten<A>(parts: seq<seq<A>>): seq<A> {
    if parts == [] then [] else Flatten(parts[..|parts| - 1]) + parts[|parts| - 1]
  }

  /** What `f` makes of each element, one after the other. */
  function Collect<A, B>(f: A -> seq<B>, s: seq<A>): seq<B> {
    if s == [] then [] else Collect(f, s[..|s| - 1]) + f(s[|s| - 1])
  }

  lemma {:induction false} CollectFront<A, B>(f: A -> seq<B>, first: A, more: seq<A>)
    ensures Collect(f, [first] + more) == f(first) + Collect(f, more)
  {
    var all := [first] + more;
    if more == [] {
      assert all[..0] == [];
    } else {
      var n := |more| - 1;
      CollectFront(f, first, more[..n]);
      assert all[..n + 1] == [first] + more[..n];
      Associate(f(first), Collect(f, more[..n]), f(more[n]));
    }
  }

  /** The elements that pass the test, in their order. */
  function Filter<A>(test: A -> bool, s: seq<A>): seq<A> {
    if s == [] then [] else Filter(test, s[..|s| - 1]) + if test(s[|s| - 1]) then [s[|s| - 1]] else []
  }

  lemma FilterPush<A>(test: A -> bool, s: seq<A>, a: A)
    ensures Filter(test, s + [a]) == Filter(test, s) + if test(a) then [a] else []
  {
    assert (s + [a])[..|s|] == s;
  }

  /** The positions of the elements that pass, in increasing order. */
  function Positions<A>(test: A -> bool, s: seq<A>): (at: seq<nat>)
    ensures forall k :: 0 <= k < |at| ==> at[k] < |s|
    ensures forall j, k :: 0 <= j < k < |at| ==> at[j] < at[k]
  {
    if s == [] then [] else Positions(test, s[..|s| - 1]) + if test(s[|s| - 1]) then [|s| - 1] else []
  }

  lemma {:induction false} PositionsAreThoseThatPass<A>(test: A -> bool, s: seq<A>, i: nat)
    requires i < |s|
    ensures i in Positions(test, s) <==> test(s[i])
  {
    var n := |s| - 1;
    if i < n {
      PositionsAreThoseThatPass(test, s[..n], i);
    } else {
      assert n !in Positions(test, s[..n]);
      assert test(s[n]) ==> Positions(test, s)[|Positions(test, s[..n])|] == n;
    }
  }

  /** Filtering keeps each element that passes, once for each of its positions, and nothing else. */
  lemma {:induction false} FilterByPosition<A>(test: A -> bool, s: seq<A>)
    ensures |Filter(test, s)| == |Positions(test, s)|
    ensures forall k :: 0 <= k < |Filter(test, s)| ==> Filter(test, s)[k] == s[Positions(test, s)[k]]
  {
    if s != [] {
      FilterByPosition(test, s[..|s| - 1]);
    }
  }

  lemma Associate<A>(a: seq<A>, b: seq<A>, c: seq<A>)
    ensures (a + b) + c == a + (b + c)
  {
  }
}

/** Series of reals. */
module Series {

  function Sum(s: seq<real>): real {
    if s == [] then 0.0 else Sum(s[..|s| - 1]) + s[|s| - 1]
  }

  function Reverse(s: seq<real>): (r: seq<real>)
    ensures |r| == |s| && forall i :: 0 <= i < |s| ==> r[i] == s[|s| - 1 - i]
  {
    seq(|s|, i requires 0 <= i < |s| => s[|s| - 1 - i])
  }
}

/** Lines of text. */
module Text {
  import opened Common

  /** `indexOf('\n')`. */
  function Newline(s: string): (r: Option<nat>)
    ensures r.Some? ==> r.value < |s| && s[r.value] == '\n' && '\n' !in s[..r.value]
    ensures r.None? ==> '\n' !in s
  {
    if s == "" then None
    else if s[0] == '\n' then Some(0)
    else
      match Newline(s[1..])
      case None => None
      case Some(i) =>
        assert s[..i + 1] == [s[0]] + s[1..][..i];
        Some(i + 1)
  }

  /** Text after the first newline does not move it. */
  lemma {:induction false} FirstNewline(a: string, b: string, i: nat)
    requires Newline(a) == Some(i)
    ensures Newline(a + b) == Some(i)
  {
    if a[0] != '\n' {
      FirstNewline(a[1..], b, i - 1);
      assert (a + b)[1..] == a[1..] + b;
    }
  }
}

/** Quotients of reals. */
module Quotients {

  lemma Quotient(a: real, b: real) returns (q: real)
    requires b != 0.0
    ensures q == a / b && q * b == a
  {
    q := a / b;
  }

  lemma NoZeroDivisor(x: real, b: real)
    requires b != 0.0 && x * b == 0.0
    ensures x == 0.0
  {
  }

  /** There is no other. */
  lemma QuotientIs(a: real, b: real, q: real)
    requires b != 0.0 && q * b == a
    ensures a / b == q
  {
    var p := Quotient(a, b);
    assert (p - q) * b == p * b - q * b;
    NoZeroDivisor(p - q, b);
  }

  lemma TimesPositive(x: real, c: real)
    requires c > 0.0
    ensures x > 0.0 <==> x * c > 0.0
    ensures x < 0.0 <==> x * c < 0.0
  {
    if x > 0.0 {
      assert x * c > 0.0;
    } else if x < 0.0 {
      assert (-x) * c > 0.0;
    }
  }

  lemma FurtherThan(x: real, limit: real, scale: real)
    requires scale > 0.0
    ensures x > limit <==> x * scale > limit * scale
  {
    assert (x - limit) * scale == x * scale - limit * scale;
    TimesPositive(x - limit, scale);
  }
}
