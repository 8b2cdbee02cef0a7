/** Stable sorting by a total preorder, as `Array.prototype.sort` does it. */
module StableSort {
  import opened Sequences

  ghost predicate TotalPreorder<A(!new)>(le: (A, A) -> bool) {
    && (forall a, b :: le(a, b) || le(b, a))
    && forall a, b, c :: le(a, b) && le(b, c) ==> le(a, c)
  }

  ghost predicate SortedBy<A>(le: (A, A) -> bool, s: seq<A>) {
    forall i, j :: 0 <= i < j < |s| ==> le(s[i], s[j])
  }

  /** After everything it does not strictly precede. */
  function InsertBy<A>(le: (A, A) -> bool, s: seq<A>, x: A): seq<A> {
    if s == [] || le(s[|s| - 1], x) then s + [x]
    else InsertBy(le, s[..|s| - 1], x) + [s[|s| - 1]]
  }

  function SortBy<A>(le: (A, A) -> bool, s: seq<A>): seq<A> {
    if s == [] then [] else InsertBy(le, SortBy(le, s[..|s| - 1]), s[|s| - 1])
  }

  lemma {:induction false} InsertBySame<A>(le: (A, A) -> bool, s: seq<A>, x: A)
    ensures multiset(InsertBy(le, s, x)) == multiset(s) + multiset{x}
  {
    if s != [] && !le(s[|s| - 1], x) {
      InsertBySame(le, s[..|s| - 1], x);
      assert s == s[..|s| - 1] + [s[|s| - 1]];
    }
  }

  lemma {:induction false} InsertBySorted<A(!new)>(le: (A, A) -> bool, s: seq<A>, x: A)
    requires TotalPreorder(le) && SortedBy(le, s)
    ensures SortedBy(le, InsertBy(le, s, x))
    ensures forall i :: 0 <= i < |InsertBy(le, s, x)| ==> InsertBy(le, s, x)[i] == x || InsertBy(le, s, x)[i] in s
  {
    if s != [] && !le(s[|s| - 1], x) {
      var n := |s| - 1;
      InsertBySorted(le, s[..n], x);
      var t := InsertBy(le, s[..n], x);
      forall i | 0 <= i < |t| ensures le(t[i], s[n]) && (t[i] == x || t[i] in s) {
        if t[i] != x {
          var j :| 0 <= j < |s[..n]| && s[..n][j] == t[i];
          assert s[j] == t[i];
        }
      }
    }
  }

  lemma {:induction false} SortBySorts<A(!new)>(le: (A, A) -> bool, s: seq<A>)
    requires TotalPreorder(le)
    ensures SortedBy(le, SortBy(le, s)) && multiset(SortBy(le, s)) == multiset(s) && |SortBy(le, s)| == |s|
  {
    if s != [] {
      var n := |s| - 1;
      SortBySorts(le, s[..n]);
      InsertBySame(le, SortBy(le, s[..n]), s[n]);
      InsertBySorted(le, SortBy(le, s[..n]), s[n]);
      assert s == s[..n] + [s[n]];
    }
    assert |multiset(SortBy(le, s))| == |SortBy(le, s)| && |multiset(s)| == |s|;
  }

  /** What is already in order stays as it was. */
  lemma {:induction false} SortByKeepsSorted<A>(le: (A, A) -> bool, s: seq<A>)
    requires SortedBy(le, s)
    ensures SortBy(le, s) == s
  {
    if s != [] {
      var n := |s| - 1;
      SortByKeepsSorted(le, s[..n]);
      assert s == s[..n] + [s[n]];
    }
  }

  predicate Ties<A>(le: (A, A) -> bool, a: A, x: A) { le(a, x) && le(x, a) }

  lemma {:induction false} InsertByStable<A(!new)>(le: (A, A) -> bool, s: seq<A>, x: A, a: A)
    requires TotalPreorder(le)
    ensures var tied := (y: A) => Ties(le, a, y);
            Filter(tied, InsertBy(le, s, x)) == Filter(tied, s) + if Ties(le, a, x) then [x] else []
  {
    var tied := (y: A) => Ties(le, a, y);
    if s == [] || le(s[|s| - 1], x) {
      FilterPush(tied, s, x);
    } else {
      var front, last := s[..|s| - 1], s[|s| - 1];
      assert s == front + [last];
      InsertByStable(le, front, x, a);
      FilterPush(tied, InsertBy(le, front, x), last);
      FilterPush(tied, front, last);
      assert !(Ties(le, a, x) && Ties(le, a, last));
    }
  }

  /** Stability: elements that tie with one another keep the order they had. */
  lemma {:induction false} SortByStable<A(!new)>(le: (A, A) -> bool, s: seq<A>, a: A)
    requires TotalPreorder(le)
    ensures var tied := (y: A) => Ties(le, a, y); Filter(tied, SortBy(le, s)) == Filter(tied, s)
  {
    if s != [] {
      var front, last := s[..|s| - 1], s[|s| - 1];
      assert s == front + [last];
      SortByStable(le, front, a);
      InsertByStable(le, SortBy(le, front), last, a);
      FilterPush((y: A) => Ties(le, a, y), front, last);
    }
  }
}
