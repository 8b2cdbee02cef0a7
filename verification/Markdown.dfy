/** The pull-request report of `markdown.ts`: which rows it keeps, and how long it can get. */
module Markdown {
  import opened Common
  import opened StableSort
  import C = Compare

  const MAX_REPORT_CHARS := 60_000
  const MAX_CHANGE_ROWS := 60
  const NOTICE_BUDGET := 200

  // ---------- Ranking ----------

  /** How far a metric moved, for ordering only; a move no percentage can express outranks them all. */
  datatype Magnitude = Moved(size: real) | Unbounded

  function MagnitudeOf(c: C.Comparison): Magnitude {
    if c.verdict.New? then Moved(-1.0)
    else if c.delta.Some? then Moved(C.Abs(c.delta.value))
    else if C.Called(c.verdict) then Unbounded
    else Moved(0.0)
  }

  predicate AtLeastAsBig(a: Magnitude, b: Magnitude) {
    a.Unbounded? || (b.Moved? && a.size >= b.size)
  }

  function Priority(v: C.Verdict): nat {
    match v
    case Regressed => 0
    case Improved => 1
    case Inconclusive => 2
    case Unchanged => 3
    case New => 4
  }

  predicate BiggerFirst(a: C.Comparison, b: C.Comparison) {
    AtLeastAsBig(MagnitudeOf(a), MagnitudeOf(b))
  }

  predicate SeverityFirst(a: C.Comparison, b: C.Comparison) {
    || Priority(a.verdict) < Priority(b.verdict)
    || (a.verdict == b.verdict && BiggerFirst(a, b))
  }

  lemma RankingsAreOrders()
    ensures TotalPreorder(BiggerFirst) && TotalPreorder(SeverityFirst)
  {
  }

  /** How much further a metric moved: the larger absolute delta ranks first, whatever its sign and verdict. */
  lemma BiggerDeltaRanksFirst(a: C.Comparison, b: C.Comparison)
    requires a.delta.Some? && b.delta.Some? && !a.verdict.New? && !b.verdict.New?
    ensures BiggerFirst(a, b) <==>
              a.delta.value >= b.delta.value >= -a.delta.value || -a.delta.value >= b.delta.value >= a.delta.value
  {
  }

  /** A called row without a delta outranks every row with one; a row without either moved by nothing; new rows rank last. */
  lemma RowsWithoutADelta(a: C.Comparison, b: C.Comparison)
    requires a.delta.None? && !a.verdict.New? && b.delta.Some? && !b.verdict.New?
    ensures C.Called(a.verdict) ==> BiggerFirst(a, b) && !BiggerFirst(b, a)
    ensures !C.Called(a.verdict) ==> BiggerFirst(b, a) && (BiggerFirst(a, b) <==> b.delta.value == 0.0)
    ensures forall c: C.Comparison :: c.verdict.New? ==> BiggerFirst(a, c) && BiggerFirst(b, c) && !BiggerFirst(c, b)
  {
  }

  /** Severity: regressed, improved, inconclusive, unchanged, new; among equals the bigger move. */
  lemma SeverityOrder(a: C.Comparison, b: C.Comparison)
    ensures a.verdict.Regressed? && !b.verdict.Regressed? ==> SeverityFirst(a, b) && !SeverityFirst(b, a)
    ensures a.verdict.Improved? && !b.verdict.Regressed? && !b.verdict.Improved? ==> SeverityFirst(a, b) && !SeverityFirst(b, a)
    ensures a.verdict.Inconclusive? && (b.verdict.Unchanged? || b.verdict.New?) ==> SeverityFirst(a, b) && !SeverityFirst(b, a)
    ensures a.verdict.Unchanged? && b.verdict.New? ==> SeverityFirst(a, b) && !SeverityFirst(b, a)
    ensures a.verdict == b.verdict ==> (SeverityFirst(a, b) <==> BiggerFirst(a, b))
  {
  }

  // ---------- The change table ----------

  function Ranked(interesting: seq<C.Comparison>): seq<C.Comparison> {
    SortBy(SeverityFirst, interesting)
  }

  function ShownCount(n: nat): nat {
    if n < MAX_CHANGE_ROWS then n else MAX_CHANGE_ROWS
  }

  lemma RankedKeepsAll(interesting: seq<C.Comparison>)
    ensures |Ranked(interesting)| == |interesting|
  {
    RankingsAreOrders();
    SortBySorts(SeverityFirst, interesting);
  }

  method ChangeRows(interesting: seq<C.Comparison>) returns (shown: seq<C.Comparison>, cut: nat)
    ensures |Ranked(interesting)| == |interesting|
    ensures shown == Ranked(interesting)[..ShownCount(|interesting|)] && cut == |interesting| - |shown|
  {
    RankedKeepsAll(interesting);
    var ranked := SortBy(SeverityFirst, interesting);
    shown := [];
    for i := 0 to ShownCount(|ranked|)
      invariant shown == ranked[..i]
    {
      shown := shown + [ranked[i]];
    }
    cut := |ranked| - |shown|;
  }

  /**
   A row cut from the change table is never more severe than one kept, and never a bigger move among
   equally severe ones; so if a regression is cut, every row kept is a regression.
   */
  lemma CutIsLessActionable(interesting: seq<C.Comparison>, kept: nat, dropped: nat)
    requires kept < MAX_CHANGE_ROWS <= dropped < |interesting|
    ensures |Ranked(interesting)| == |interesting|
    ensures var k, d := Ranked(interesting)[kept], Ranked(interesting)[dropped];
            && Priority(k.verdict) <= Priority(d.verdict)
            && (d.verdict.Regressed? ==> k.verdict.Regressed?)
            && (k.verdict == d.verdict ==> AtLeastAsBig(MagnitudeOf(k), MagnitudeOf(d)))
  {
    RankingsAreOrders();
    SortBySorts(SeverityFirst, interesting);
    assert SeverityFirst(Ranked(interesting)[kept], Ranked(interesting)[dropped]);
  }

  /** The table's closing note: no row that was cut moved more than any row above it. */
  ghost predicate NoteHolds(ranked: seq<C.Comparison>) {
    forall kept, dropped | 0 <= kept < MAX_CHANGE_ROWS <= dropped < |ranked| :: BiggerFirst(ranked[kept], ranked[dropped])
  }

  predicate LastKept(ranked: seq<C.Comparison>, i: int) {
    0 <= i < MAX_CHANGE_ROWS < |ranked| && (i == MAX_CHANGE_ROWS - 1 || ranked[i + 1].verdict != ranked[i].verdict)
  }

  predicate FirstCut(ranked: seq<C.Comparison>, i: int) {
    MAX_CHANGE_ROWS <= i < |ranked| && (i == MAX_CHANGE_ROWS || ranked[i - 1].verdict != ranked[i].verdict)
  }

  /** The last row kept of each verdict is at least as big a move as the first row cut of each verdict. */
  ghost predicate GroupsInOrder(ranked: seq<C.Comparison>) {
    forall i, j | LastKept(ranked, i) && FirstCut(ranked, j) :: BiggerFirst(ranked[i], ranked[j])
  }

  lemma {:induction false} LastKeptOf(ranked: seq<C.Comparison>, kept: nat) returns (i: nat)
    requires SortedBy(SeverityFirst, ranked) && kept < MAX_CHANGE_ROWS < |ranked|
    ensures LastKept(ranked, i) && BiggerFirst(ranked[kept], ranked[i])
    decreases MAX_CHANGE_ROWS - kept
  {
    if LastKept(ranked, kept) {
      i := kept;
    } else {
      i := LastKeptOf(ranked, kept + 1);
      assert SeverityFirst(ranked[kept], ranked[kept + 1]);
    }
  }

  lemma {:induction false} FirstCutOf(ranked: seq<C.Comparison>, dropped: nat) returns (j: nat)
    requires SortedBy(SeverityFirst, ranked) && MAX_CHANGE_ROWS <= dropped < |ranked|
    ensures FirstCut(ranked, j) && BiggerFirst(ranked[j], ranked[dropped])
  {
    if FirstCut(ranked, dropped) {
      j := dropped;
    } else {
      j := FirstCutOf(ranked, dropped - 1);
      assert SeverityFirst(ranked[dropped - 1], ranked[dropped]);
    }
  }

  /** For every table that is cut: its closing note is true if and only if the verdicts' groups are in order. */
  lemma NoteHoldsIff(interesting: seq<C.Comparison>)
    requires |interesting| > MAX_CHANGE_ROWS
    ensures NoteHolds(Ranked(interesting)) <==> GroupsInOrder(Ranked(interesting))
  {
    RankingsAreOrders();
    SortBySorts(SeverityFirst, interesting);
    var ranked := Ranked(interesting);
    if GroupsInOrder(ranked) {
      forall kept, dropped | 0 <= kept < MAX_CHANGE_ROWS <= dropped < |ranked|
        ensures BiggerFirst(ranked[kept], ranked[dropped])
      {
        var i := LastKeptOf(ranked, kept);
        var j := FirstCutOf(ranked, dropped);
        assert BiggerFirst(ranked[i], ranked[j]);
      }
    }
  }

  /** In particular it is true wherever all rows of the table have one verdict. */
  lemma NoteHoldsForOneVerdict(interesting: seq<C.Comparison>, v: C.Verdict)
    requires forall c :: c in interesting ==> c.verdict == v
    ensures NoteHolds(Ranked(interesting))
  {
    RankingsAreOrders();
    SortBySorts(SeverityFirst, interesting);
    var ranked := Ranked(interesting);
    forall c | c in ranked ensures c.verdict == v {
      assert c in multiset(ranked);
    }
    forall kept, dropped | 0 <= kept < MAX_CHANGE_ROWS <= dropped < |ranked|
      ensures BiggerFirst(ranked[kept], ranked[dropped])
    {
      assert SeverityFirst(ranked[kept], ranked[dropped]);
      assert ranked[kept] in ranked && ranked[dropped] in ranked;
    }
  }

  function Sample(delta: real, verdict: C.Verdict): C.Comparison {
    C.Comparison("s", "m", false, false, 1.0, 1.0, Some(delta), 0.0, verdict)
  }

  /** Across verdicts it need not be: sixty regressions of 20% keep an improvement of 90% out of the table. */
  lemma CutCanBeABiggerMove()
    ensures var cs := seq(60, i => Sample(-0.2, C.Regressed)) + [Sample(0.9, C.Improved)];
            !NoteHolds(Ranked(cs))
  {
    var cs := seq(60, i => Sample(-0.2, C.Regressed)) + [Sample(0.9, C.Improved)];
    assert SortedBy(SeverityFirst, cs);
    SortByKeepsSorted(SeverityFirst, cs);
    assert !BiggerFirst(cs[0], cs[60]);
  }

  // ---------- Lines and characters ----------

  /** Characters a list of lines takes, each with the newline after it. */
  function Charge(lines: seq<string>): nat {
    if lines == [] then 0 else Charge(lines[..|lines| - 1]) + |lines[|lines| - 1]| + 1
  }

  lemma {:induction false} ChargeConcat(a: seq<string>, b: seq<string>)
    ensures Charge(a + b) == Charge(a) + Charge(b)
  {
    if b == [] {
      assert a + b == a;
    } else {
      ChargeConcat(a, b[..|b| - 1]);
      assert (a + b)[..|a + b| - 1] == a + b[..|b| - 1];
    }
  }

  /** The lines joined by newlines, with one more at the end. */
  function Text(lines: seq<string>): string {
    if lines == [] then "\n"
    else if |lines| == 1 then lines[0] + "\n"
    else Text(lines[..|lines| - 1]) + lines[|lines| - 1] + "\n"
  }

  lemma {:induction false} TextLength(lines: seq<string>)
    requires lines != []
    ensures |Text(lines)| == Charge(lines)
  {
    if |lines| > 1 {
      TextLength(lines[..|lines| - 1]);
    } else {
      assert lines[..0] == [];
    }
  }

  function Decimal(n: nat): string {
    if n < 10 then [('0' as int + n) as char] else Decimal(n / 10) + [('0' as int + n % 10) as char]
  }

  function DigitsValue(digits: string): int {
    if digits == "" then 0 else DigitsValue(digits[..|digits| - 1]) * 10 + (digits[|digits| - 1] as int - '0' as int)
  }

  /** The decimal digits of a number, read back, are the number. */
  lemma {:induction false} DecimalReadsBack(n: nat)
    ensures Decimal(n) != "" && DigitsValue(Decimal(n)) == n && forall c :: c in Decimal(n) ==> '0' <= c <= '9'
  {
    if n >= 10 {
      DecimalReadsBack(n / 10);
      var front := Decimal(n / 10);
      assert Decimal(n)[..|front|] == front;
    } else {
      assert Decimal(n)[..0] == "";
    }
  }

  lemma DecimalLength(n: nat)
    requires n < 0x1_0000_0000
    ensures |Decimal(n)| <= 10
  {
    DigitsBound(n, 10, 10_000_000_000);
  }

  lemma {:induction false} DigitsBound(n: nat, digits: nat, bound: nat)
    requires digits > 0 && n < bound && bound == Power10(digits)
    ensures |Decimal(n)| <= digits
  {
    if n >= 10 {
      assert Power10(digits) == 10 * Power10(digits - 1);
      DigitsBound(n / 10, digits - 1, bound / 10);
    }
  }

  function Power10(k: nat): nat {
    if k == 0 then 1 else 10 * Power10(k - 1)
  }

  // ---------- The appendix ----------

  const TABLE_HEAD := ["| scenario | metric | before | after | delta | |", "| --- | --- | ---: | ---: | ---: | --- |"]

  const OPEN: seq<string> := ["", "<details><summary>Every metric, biggest mover first</summary>", ""] + TABLE_HEAD

  const CLOSE: seq<string> := ["", "</details>"]

  function Notice(dropped: nat): seq<string> {
    if dropped == 0 then []
    else ["", "_… and " + Decimal(dropped) + " more metric(s), all smaller movers — the full comparison is in the run's JSON artifact._"]
  }

  /** The notice always fits the room reserved for it. */
  lemma NoticeFits(dropped: nat)
    requires dropped < 0x1_0000_0000
    ensures Charge(Notice(dropped)) <= NOTICE_BUDGET
  {
    if dropped > 0 {
      DecimalLength(dropped);
      var ls := Notice(dropped);
      assert ls[..1] == [""] && ls[..1][..0] == [];
      assert Charge(ls) == Charge(ls[..1]) + |ls[1]| + 1;
    }
  }

  function BySize(comparisons: seq<C.Comparison>): seq<C.Comparison> {
    SortBy(BiggerFirst, comparisons)
  }

  /** How many of the sorted rows fit once `spent` characters are taken: the longest prefix that does. */
  function Admitted(rows: seq<string>, spent: nat): (k: nat)
    ensures k <= |rows|
  {
    if rows == [] || spent + |rows[0]| + 1 > MAX_REPORT_CHARS then 0
    else 1 + Admitted(rows[1..], spent + |rows[0]| + 1)
  }

  function Rendered(row: C.Comparison -> string, cs: seq<C.Comparison>): (r: seq<string>)
    ensures |r| == |cs| && forall i :: 0 <= i < |cs| ==> r[i] == row(cs[i])
  {
    seq(|cs|, i requires 0 <= i < |cs| => row(cs[i]))
  }

  function Fixed(head: seq<string>, footer: seq<string>): nat {
    Charge(head) + Charge(OPEN) + Charge(CLOSE) + Charge(footer)
  }

  /** How many rows the appendix keeps, and the lines it renders. */
  function KeptRows(row: C.Comparison -> string, comparisons: seq<C.Comparison>, head: seq<string>, footer: seq<string>): (k: nat)
    ensures k <= |BySize(comparisons)|
  {
    Admitted(Rendered(row, BySize(comparisons)), Fixed(head, footer) + NOTICE_BUDGET)
  }

  function Appendix(row: C.Comparison -> string, comparisons: seq<C.Comparison>, head: seq<string>, footer: seq<string>): seq<string> {
    var sorted := BySize(comparisons);
    var k := KeptRows(row, comparisons, head, footer);
    OPEN + (Rendered(row, sorted)[..k] + Notice(|sorted| - k)) + CLOSE
  }

  lemma {:induction false} AdmittedCharge(rows: seq<string>, spent: nat)
    ensures Admitted(rows, spent) > 0 ==> spent + Charge(rows[..Admitted(rows, spent)]) <= MAX_REPORT_CHARS
  {
    if Admitted(rows, spent) > 0 {
      var rest, k := rows[1..], Admitted(rows, spent);
      AdmittedCharge(rest, spent + |rows[0]| + 1);
      assert rows[..k] == [rows[0]] + rest[..k - 1];
      ChargeConcat([rows[0]], rest[..k - 1]);
      assert [rows[0]][..0] == [];
      assert Charge([rows[0]]) == |rows[0]| + 1;
      if k == 1 {
        assert rest[..0] == [];
      }
    }
  }

  /** No row is left out that would have fitted: one more would overrun the limit. */
  lemma {:induction false} OneMoreRowOverruns(rows: seq<string>, spent: nat)
    requires Admitted(rows, spent) < |rows|
    ensures spent + Charge(rows[..Admitted(rows, spent) + 1]) > MAX_REPORT_CHARS
  {
    var k := Admitted(rows, spent);
    var rest, charge := rows[1..], |rows[0]| + 1;
    assert rows[..k + 1] == [rows[0]] + rest[..k];
    ChargeConcat([rows[0]], rest[..k]);
    assert [rows[0]][..0] == [];
    assert Charge([rows[0]]) == charge;
    if k > 0 {
      OneMoreRowOverruns(rest, spent + charge);
    }
  }

  /** In the appendix: the first row left out does not fit beside everything else and the reserve. */
  lemma NoRowLeftOutFits(row: C.Comparison -> string, comparisons: seq<C.Comparison>, head: seq<string>, footer: seq<string>)
    requires KeptRows(row, comparisons, head, footer) < |BySize(comparisons)|
    ensures var k := KeptRows(row, comparisons, head, footer);
            Fixed(head, footer) + NOTICE_BUDGET + Charge(Rendered(row, BySize(comparisons))[..k + 1]) > MAX_REPORT_CHARS
  {
    OneMoreRowOverruns(Rendered(row, BySize(comparisons)), Fixed(head, footer) + NOTICE_BUDGET);
  }

  /** Render rows, biggest first, until one no longer fits. */
  method Admit(row: C.Comparison -> string, sorted: seq<C.Comparison>, taken: nat) returns (rows: seq<string>)
    ensures rows == Rendered(row, sorted)[..Admitted(Rendered(row, sorted), taken)]
  {
    ghost var all := Rendered(row, sorted);
    var spent: nat := taken;
    rows := [];
    var i := 0;
    assert all[0..] == all;
    while i < |sorted|
      invariant i <= |sorted| && rows == all[..i]
      invariant i + Admitted(all[i..], spent) == Admitted(all, taken)
    {
      var rendered := row(sorted[i]);
      assert all[i..][0] == rendered && all[i..][1..] == all[i + 1..];
      if spent + |rendered| + 1 > MAX_REPORT_CHARS {
        break;
      }
      spent := spent + |rendered| + 1;
      rows := rows + [rendered];
      i := i + 1;
    }
  }

  method AppendixLines(row: C.Comparison -> string, comparisons: seq<C.Comparison>, head: seq<string>, footer: seq<string>)
    returns (lines: seq<string>)
    ensures lines == Appendix(row, comparisons, head, footer)
  {
    var sorted := BySize(comparisons);
    var rows := Admit(row, sorted, Fixed(head, footer) + NOTICE_BUDGET);
    var dropped := |sorted| - |rows|;
    if dropped > 0 {
      rows := rows + Notice(dropped);
    } else {
      assert rows + [] == rows;
    }
    lines := OPEN + rows + CLOSE;
  }

  /** The rows the appendix keeps. */
  function Kept(row: C.Comparison -> string, comparisons: seq<C.Comparison>, head: seq<string>, footer: seq<string>): seq<string> {
    Rendered(row, BySize(comparisons))[..KeptRows(row, comparisons, head, footer)]
  }

  /** Row by row: the appendix opens, lists the biggest movers in order, notes how many it leaves out, and closes. */
  lemma AppendixRowByRow(row: C.Comparison -> string, comparisons: seq<C.Comparison>, head: seq<string>, footer: seq<string>, i: nat)
    requires i < KeptRows(row, comparisons, head, footer)
    ensures var kept, k := Kept(row, comparisons, head, footer), KeptRows(row, comparisons, head, footer);
            && Appendix(row, comparisons, head, footer) == OPEN + (kept + Notice(|BySize(comparisons)| - k)) + CLOSE
            && |kept| == k && kept[i] == row(BySize(comparisons)[i])
  {
  }

  /** The whole report: headline, appendix and footer. */
  function Report(row: C.Comparison -> string, comparisons: seq<C.Comparison>, head: seq<string>, footer: seq<string>): string {
    Text(head + Appendix(row, comparisons, head, footer) + footer)
  }

  lemma ChargeThree(a: seq<string>, b: seq<string>, c: seq<string>)
    ensures Charge(a + b + c) == Charge(a) + Charge(b) + Charge(c)
  {
    ChargeConcat(a, b);
    ChargeConcat(a + b, c);
  }

  lemma AppendixCharge(row: C.Comparison -> string, comparisons: seq<C.Comparison>, head: seq<string>, footer: seq<string>)
    ensures Charge(Appendix(row, comparisons, head, footer))
         == Charge(OPEN) + Charge(Kept(row, comparisons, head, footer))
            + Charge(Notice(|BySize(comparisons)| - KeptRows(row, comparisons, head, footer))) + Charge(CLOSE)
  {
    var kept, notice := Kept(row, comparisons, head, footer), Notice(|BySize(comparisons)| - KeptRows(row, comparisons, head, footer));
    ChargeThree(OPEN, kept + notice, CLOSE);
    ChargeConcat(kept, notice);
  }

  lemma ReportLength(head: seq<string>, middle: seq<string>, footer: seq<string>)
    requires middle != []
    ensures |Text(head + middle + footer)| == Charge(head) + Charge(middle) + Charge(footer)
  {
    ChargeThree(head, middle, footer);
    TextLength(head + middle + footer);
  }

  lemma ReportCharge(row: C.Comparison -> string, comparisons: seq<C.Comparison>, head: seq<string>, footer: seq<string>)
    ensures |Report(row, comparisons, head, footer)|
         == Fixed(head, footer) + Charge(Kept(row, comparisons, head, footer))
            + Charge(Notice(|BySize(comparisons)| - KeptRows(row, comparisons, head, footer)))
  {
    ReportLength(head, Appendix(row, comparisons, head, footer), footer);
    AppendixCharge(row, comparisons, head, footer);
  }

  /** What is kept fits beside everything else and the reserve; without that much room nothing is kept. */
  lemma KeptFits(row: C.Comparison -> string, comparisons: seq<C.Comparison>, head: seq<string>, footer: seq<string>)
    ensures var k, fixed := KeptRows(row, comparisons, head, footer), Fixed(head, footer) + NOTICE_BUDGET;
            && (k > 0 ==> fixed + Charge(Kept(row, comparisons, head, footer)) <= MAX_REPORT_CHARS)
            && (k == 0 ==> Charge(Kept(row, comparisons, head, footer)) == 0)
            && (fixed > MAX_REPORT_CHARS ==> k == 0)
  {
    AdmittedCharge(Rendered(row, BySize(comparisons)), Fixed(head, footer) + NOTICE_BUDGET);
  }

  /**
   The report stays within its 60 000 characters exactly if headline, wrapper and footer leave the
   reserved room, or at least room for the notice that every row was left out.
   */
  lemma ReportFitsIff(row: C.Comparison -> string, comparisons: seq<C.Comparison>, head: seq<string>, footer: seq<string>)
    requires |comparisons| < 0x1_0000_0000
    ensures |Report(row, comparisons, head, footer)| <= MAX_REPORT_CHARS <==>
              || Fixed(head, footer) + NOTICE_BUDGET <= MAX_REPORT_CHARS
              || Fixed(head, footer) + Charge(Notice(|comparisons|)) <= MAX_REPORT_CHARS
  {
    var k, n := KeptRows(row, comparisons, head, footer), |comparisons|;
    NothingLostInSorting(comparisons);
    ReportCharge(row, comparisons, head, footer);
    KeptFits(row, comparisons, head, footer);
    NoticeFits(n - k);
    FitsIff(|Report(row, comparisons, head, footer)|, Fixed(head, footer), Charge(Kept(row, comparisons, head, footer)),
            Charge(Notice(n - k)), Charge(Notice(n)), k);
  }

  /** The arithmetic of it: `kept` rows that fit beside the reserve, or none. */
  lemma FitsIff(length: nat, fixed: nat, kept: nat, notice: nat, noticeOfAll: nat, k: nat)
    requires length == fixed + kept + notice && notice <= NOTICE_BUDGET
    requires k > 0 ==> fixed + NOTICE_BUDGET + kept <= MAX_REPORT_CHARS
    requires k == 0 ==> kept == 0 && notice == noticeOfAll
    ensures length <= MAX_REPORT_CHARS <==>
              fixed + NOTICE_BUDGET <= MAX_REPORT_CHARS || fixed + noticeOfAll <= MAX_REPORT_CHARS
  {
  }

  /** The condition can fail: a headline of one long line overruns the limit on its own, and is not cut. */
  lemma HeadlineCanOverrun(row: C.Comparison -> string, comparisons: seq<C.Comparison>)
    ensures |Report(row, comparisons, [seq(MAX_REPORT_CHARS, _ => '#')], [])| > MAX_REPORT_CHARS
  {
    var line := seq(MAX_REPORT_CHARS, _ => '#');
    assert [line][..0] == [];
    assert Charge([line]) == MAX_REPORT_CHARS + 1;
    ReportCharge(row, comparisons, [line], []);
  }

  /** Every metric dropped from the appendix moved no more than any metric kept. */
  lemma DroppedMovedLess(row: C.Comparison -> string, comparisons: seq<C.Comparison>, head: seq<string>, footer: seq<string>,
                         kept: nat, dropped: nat)
    requires kept < KeptRows(row, comparisons, head, footer) <= dropped < |BySize(comparisons)|
    ensures AtLeastAsBig(MagnitudeOf(BySize(comparisons)[kept]), MagnitudeOf(BySize(comparisons)[dropped]))
  {
    RankingsAreOrders();
    SortBySorts(BiggerFirst, comparisons);
    assert BiggerFirst(BySize(comparisons)[kept], BySize(comparisons)[dropped]);
  }

  /** And the appendix ranks exactly the comparisons it was given. */
  lemma NothingLostInSorting(comparisons: seq<C.Comparison>)
    ensures multiset(BySize(comparisons)) == multiset(comparisons) && |BySize(comparisons)| == |comparisons|
    ensures multiset(Ranked(comparisons)) == multiset(comparisons)
  {
    RankingsAreOrders();
    SortBySorts(BiggerFirst, comparisons);
    SortBySorts(SeverityFirst, comparisons);
  }
}
