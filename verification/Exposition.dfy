/**
 The reader of the Prometheus text format in `prometheus.ts` (providers example), against a
 printer of that format: exposition format version 0.0.4, "Text format details", with the label
 escaping of `renderPrometheus`.  The two regular expressions are modelled by what they match.
 */
module Exposition {
  import opened Common
  import opened Sequences
  import opened Text

  // ---------- Characters ----------

  /** `\s`, and what `trim` removes. */
  predicate IsSpace(c: char) {
    || '\t' <= c <= '\r' || c == ' ' || c == '\U{a0}' || c == '\U{1680}' || '\U{2000}' <= c <= '\U{200a}'
    || c == '\U{2028}' || c == '\U{2029}' || c == '\U{202f}' || c == '\U{205f}' || c == '\U{3000}' || c == '\U{feff}'
  }

  predicate NotSpace(c: char) { !IsSpace(c) }

  /** What `.` does not match. */
  predicate IsTerminator(c: char) {
    c == '\n' || c == '\r' || c == '\U{2028}' || c == '\U{2029}'
  }

  predicate IsDot(c: char) { !IsTerminator(c) }

  predicate IsDigit(c: char) { '0' <= c <= '9' }

  predicate LabelStart(c: char) { 'A' <= c <= 'Z' || 'a' <= c <= 'z' || c == '_' }

  predicate LabelChar(c: char) { LabelStart(c) || IsDigit(c) }

  predicate NameStart(c: char) { LabelStart(c) || c == ':' }

  predicate NameChar(c: char) { LabelChar(c) || c == ':' }

  /** How long a prefix of `s` passes the test. */
  function Span(p: char -> bool, s: string): (n: nat)
    ensures n <= |s|
    ensures forall i :: 0 <= i < n ==> p(s[i])
    ensures n < |s| ==> !p(s[n])
  {
    if s == "" || !p(s[0]) then 0 else 1 + Span(p, s[1..])
  }

  lemma {:induction false} SpanOf(p: char -> bool, a: string, b: string)
    requires forall i :: 0 <= i < |a| ==> p(a[i])
    requires b == "" || !p(b[0])
    ensures Span(p, a + b) == |a|
  {
    if a == "" {
      assert a + b == b;
    } else {
      SpanOf(p, a[1..], b);
      assert (a + b)[1..] == a[1..] + b;
    }
  }

  // ---------- Escaping ----------

  function EscapeChar(c: char): string {
    if c == '\\' then "\\\\" else if c == '"' then "\\\"" else if c == '\n' then "\\n" else [c]
  }

  function Escape(s: string): string {
    if s == "" then "" else EscapeChar(s[0]) + Escape(s[1..])
  }

  /** `value.replace(/c/g, r)`. */
  function ReplaceAll(s: string, c: char, r: string): string {
    if s == "" then "" else (if s[0] == c then r else [s[0]]) + ReplaceAll(s[1..], c, r)
  }

  /** The printer's escaping: three replacements, one after the other. */
  function EscapeLabel(s: string): string {
    ReplaceAll(ReplaceAll(ReplaceAll(s, '\\', "\\\\"), '"', "\\\""), '\n', "\\n")
  }

  lemma {:induction false} ReplaceConcat(a: string, b: string, c: char, r: string)
    ensures ReplaceAll(a + b, c, r) == ReplaceAll(a, c, r) + ReplaceAll(b, c, r)
  {
    if a == "" {
      assert a + b == b;
    } else {
      ReplaceConcat(a[1..], b, c, r);
      assert (a + b)[1..] == a[1..] + b;
      Associate(if a[0] == c then r else [a[0]], ReplaceAll(a[1..], c, r), ReplaceAll(b, c, r));
    }
  }

  lemma ReplaceOne(x: char, c: char, r: string)
    ensures ReplaceAll([x], c, r) == if x == c then r else [x]
  {
    assert [x][1..] == "";
  }

  lemma ReplaceTwo(x: char, y: char, c: char, r: string)
    requires x != c && y != c
    ensures ReplaceAll([x, y], c, r) == [x, y]
  {
    assert [x, y][1..] == [y];
    ReplaceOne(y, c, r);
  }

  /** The three passes do not disturb one another: the result is each character's own escape. */
  lemma {:induction false} EscapeLabelIsEscape(s: string)
    ensures EscapeLabel(s) == Escape(s)
  {
    if s != "" {
      var head, rest := [s[0]], s[1..];
      EscapeLabelIsEscape(rest);
      assert s == head + rest;
      var h1 := ReplaceAll(head, '\\', "\\\\");
      var h2 := ReplaceAll(h1, '"', "\\\"");
      ReplaceConcat(head, rest, '\\', "\\\\");
      ReplaceConcat(h1, ReplaceAll(rest, '\\', "\\\\"), '"', "\\\"");
      ReplaceConcat(h2, ReplaceAll(ReplaceAll(rest, '\\', "\\\\"), '"', "\\\""), '\n', "\\n");
      EscapeHead(s[0]);
    }
  }

  lemma EscapeHead(c: char)
    ensures EscapeLabel([c]) == EscapeChar(c)
  {
    ReplaceOne(c, '\\', "\\\\");
    if c == '\\' {
      ReplaceTwo('\\', '\\', '"', "\\\"");
      ReplaceTwo('\\', '\\', '\n', "\\n");
    } else {
      ReplaceOne(c, '"', "\\\"");
      if c == '"' {
        ReplaceTwo('\\', '"', '\n', "\\n");
      } else {
        ReplaceOne(c, '\n', "\\n");
      }
    }
  }

  /** `unescapeLabel`: a backslash and the character after it, which `.` must match. */
  function Unescape(s: string): string
    decreases |s|
  {
    if s == "" then ""
    else if s[0] == '\\' && |s| >= 2 && IsDot(s[1]) then [if s[1] == 'n' then '\n' else s[1]] + Unescape(s[2..])
    else [s[0]] + Unescape(s[1..])
  }

  /** Unescaping undoes escaping, for every string. */
  lemma {:induction false} UnescapeEscape(s: string)
    ensures Unescape(EscapeLabel(s)) == s
  {
    EscapeLabelIsEscape(s);
    if s != "" {
      EscapeLabelIsEscape(s[1..]);
      UnescapeEscape(s[1..]);
      UnescapeFront(s[0], Escape(s[1..]));
      assert s == [s[0]] + s[1..];
    }
  }

  lemma UnescapeFront(c: char, rest: string)
    ensures Unescape(EscapeChar(c) + rest) == [c] + Unescape(rest)
  {
    var e := EscapeChar(c);
    assert (e + rest)[|e|..] == rest;
  }

  // ---------- The two regular expressions ----------

  /** Where the quoted value that starts at `t` ends: `(?:[^"\\]|\\.)*"`. */
  function QuotedLength(t: string): (n: Option<nat>)
    ensures n.Some? ==> n.value < |t|
    decreases |t|
  {
    if t == "" then None
    else if t[0] == '"' then Some(0)
    else
      var step := if t[0] != '\\' then 1 else 2;
      if step == 2 && !(|t| >= 2 && IsDot(t[1])) then None
      else
        match QuotedLength(t[step..])
        case None => None
        case Some(n) => Some(n + step)
  }

  /** A label at the very start of `t`: its name, its raw value, and how many characters it takes. */
  datatype LabelMatch = LabelMatch(name: string, raw: string, length: nat)

  function LabelAt(t: string): (m: Option<LabelMatch>)
    ensures m.Some? ==> 0 < m.value.length <= |t|
  {
    if t == "" || !LabelStart(t[0]) then None
    else
      var n := Span(LabelChar, t);
      if n + 2 > |t| || t[n] != '=' || t[n + 1] != '"' then None else QuotedLabel(t[..n], t[n + 2..])
  }

  /** A label whose name and opening quote have been read. */
  function QuotedLabel(name: string, quoted: string): (m: Option<LabelMatch>)
    ensures m.Some? ==> |name| + 2 < m.value.length <= |name| + 2 + |quoted|
  {
    match QuotedLength(quoted)
    case None => None
    case Some(q) => Some(LabelMatch(name, quoted[..q], |name| + q + 3))
  }

  type Labels = map<string, string>

  /** Assigning a string to a plain object's `__proto__` leaves the object as it was. */
  function SetLabel(labels: Labels, name: string, value: string): Labels {
    if name == "__proto__" then labels else labels[name := value]
  }

  /** `matchAll`: every label, leftmost first, skipping what is none. */
  function ReadLabels(t: string, labels: Labels): Labels
    decreases |t|
  {
    if t == "" then labels
    else
      match LabelAt(t)
      case None => ReadLabels(t[1..], labels)
      case Some(m) => ReadLabels(t[m.length..], SetLabel(labels, m.name, Unescape(m.raw)))
  }

  /** `\s+(\S+)(?:\s+\d+)?$`: the value's text, when the rest of the line is a value and perhaps a timestamp. */
  function Tail(s: string): Option<string> {
    var a := Span(IsSpace, s);
    if a == 0 then None else ValueAtFront(s[a..])
  }

  function ValueAtFront(t: string): Option<string> {
    var b := Span(NotSpace, t);
    if b == 0 || !EndsLine(t[b..]) then None else Some(t[..b])
  }

  /** `(?:\s+\d+)?$` where no value character is left. */
  predicate EndsLine(rest: string) {
    rest != "" ==>
      var stamp := rest[Span(IsSpace, rest)..];
      stamp != "" && Span(IsDigit, stamp) == |stamp|
  }

  /** A `}` after which the line ends properly. */
  predicate Closes(s: string, i: nat) {
    i < |s| && s[i] == '}' && Tail(s[i + 1..]).Some?
  }

  /** The last such brace before position `j`. */
  function LastClose(s: string, j: nat): (r: Option<nat>)
    ensures r.Some? ==> r.value < j
  {
    if j == 0 then None
    else if Closes(s, j - 1) then Some(j - 1)
    else LastClose(s, j - 1)
  }

  datatype LineMatch = LineMatch(name: string, labels: string, value: string)

  /** `SAMPLE` after the name and an opening brace: `.*` stops at a terminator and gives back to the last `}` that fits. */
  function MatchBraced(name: string, inner: string): Option<LineMatch> {
    match LastClose(inner, Span(IsDot, inner))
    case None => None
    case Some(j) =>
      match Tail(inner[j + 1..])
      case None => None
      case Some(v) => Some(LineMatch(name, inner[..j], v))
  }

  function MatchBare(name: string, rest: string): Option<LineMatch> {
    match Tail(rest)
    case None => None
    case Some(v) => Some(LineMatch(name, "", v))
  }

  /** `SAMPLE`, on a trimmed line. */
  function MatchLine(line: string): Option<LineMatch> {
    if line == "" || !NameStart(line[0]) then None
    else
      var n := Span(NameChar, line);
      var rest := line[n..];
      if rest != "" && rest[0] == '{' then MatchBraced(line[..n], rest[1..]) else MatchBare(line[..n], rest)
  }

  // ---------- The reader ----------

  datatype Value<V> = PosInf | NegInf | Finite(v: V)

  /** JavaScript's `Number`, and how the printer writes a finite value; `None` is NaN. */
  datatype Numbers<!V> = Numbers(parse: string -> Option<Value<V>>, show: V -> string)

  datatype Sample<V> = Sample(name: string, labels: Labels, value: Value<V>)

  function ReadValue<V>(num: Numbers<V>, text: string): Option<Value<V>> {
    if text == "+Inf" then Some(PosInf) else if text == "-Inf" then Some(NegInf) else num.parse(text)
  }

  function Trim(s: string): string {
    var t := s[Span(IsSpace, s)..];
    TrimEnd(t)
  }

  function TrimEnd(s: string): string {
    if s != "" && IsSpace(s[|s| - 1]) then TrimEnd(s[..|s| - 1]) else s
  }

  /** One line: a sample, or nothing for blank, comment and malformed lines. */
  function ReadLine<V>(num: Numbers<V>, raw: string): seq<Sample<V>> {
    var line := Trim(raw);
    if line == "" || line[0] == '#' then [] else ReadMatch(num, MatchLine(line))
  }

  /** A match is a sample unless its value is no number. */
  function ReadMatch<V>(num: Numbers<V>, m: Option<LineMatch>): seq<Sample<V>> {
    if m.None? then []
    else
      match ReadValue(num, m.value.value)
      case None => []
      case Some(v) => [Sample(m.value.name, ReadLabels(m.value.labels, map[]), v)]
  }

  /** `text.split('\n')`. */
  function Split(text: string): seq<string>
    decreases |text|
  {
    match Newline(text)
    case None => [text]
    case Some(i) => [text[..i]] + Split(text[i + 1..])
  }

  function ReadLines<V>(num: Numbers<V>, lines: seq<string>): seq<Sample<V>> {
    Collect((raw: string) => ReadLine(num, raw), lines)
  }

  method CollectLabels(text: string) returns (labels: Labels)
    ensures labels == ReadLabels(text, map[])
  {
    labels := map[];
    var t := text;
    while t != ""
      invariant ReadLabels(t, labels) == ReadLabels(text, map[])
      decreases |t|
    {
      match LabelAt(t) {
        case None => t := t[1..];
        case Some(m) =>
          labels := SetLabel(labels, m.name, Unescape(m.raw));
          t := t[m.length..];
      }
    }
  }

  method ParseExposition<V>(num: Numbers<V>, text: string) returns (samples: seq<Sample<V>>)
    ensures samples == ReadLines(num, Split(text))
  {
    samples := [];
    var lines := Split(text);
    for i := 0 to |lines|
      invariant samples == ReadLines(num, lines[..i])
    {
      assert lines[..i + 1][..i] == lines[..i];
      var more := ParseLine(num, lines[i]);
      samples := samples + more;
    }
    assert lines[..|lines|] == lines;
  }

  /** What one pass of the loop adds. */
  method ParseLine<V>(num: Numbers<V>, raw: string) returns (samples: seq<Sample<V>>)
    ensures samples == ReadLine(num, raw)
  {
    var line := Trim(raw);
    if line == "" || line[0] == '#' {
      return [];
    }
    var m := MatchLine(line);
    if m.None? {
      return [];
    }
    var labels := CollectLabels(m.value.labels);
    var value := ReadValue(num, m.value.value);
    if value.None? {
      return [];
    }
    samples := [Sample(m.value.name, labels, value.value)];
  }

  predicate Fits<V>(s: Sample<V>, name: string, labels: Labels) {
    s.name == name && forall k | k in labels :: k in s.labels && s.labels[k] == labels[k]
  }

  predicate FirstFit<V>(samples: seq<Sample<V>>, name: string, labels: Labels, i: int) {
    0 <= i < |samples| && Fits(samples[i], name, labels) && forall j :: 0 <= j < i ==> !Fits(samples[j], name, labels)
  }

  /** `find`: the first sample of that name carrying at least those labels. */
  function Hit<V>(samples: seq<Sample<V>>, name: string, labels: Labels): (r: Option<nat>)
    ensures r.None? <==> forall i :: 0 <= i < |samples| ==> !Fits(samples[i], name, labels)
    ensures r.Some? ==> FirstFit(samples, name, labels, r.value)
  {
    if samples == [] then None
    else
      var n := |samples| - 1;
      assert forall j :: 0 <= j < n ==> samples[..n][j] == samples[j];
      match Hit(samples[..n], name, labels)
      case Some(i) => Some(i)
      case None => if Fits(samples[n], name, labels) then Some(n) else None
  }

  function SampleValue<V>(samples: seq<Sample<V>>, name: string, labels: Labels): Option<Value<V>> {
    match Hit(samples, name, labels)
    case None => None
    case Some(i) => Some(samples[i].value)
  }

  // ---------- The printer ----------

  datatype Pair = Pair(name: string, value: string)

  /** A line of a scrape: a comment, or a sample with its labels in order and perhaps a timestamp. */
  datatype Line<V> =
    | Comment(text: string)
    | Metric(name: string, pairs: seq<Pair>, value: Value<V>, stamp: string)

  function ShowValue<V>(num: Numbers<V>, v: Value<V>): string {
    match v
    case PosInf => "+Inf"
    case NegInf => "-Inf"
    case Finite(x) => num.show(x)
  }

  function ShowPair(p: Pair): string {
    p.name + "=\"" + EscapeLabel(p.value) + "\""
  }

  function ShowPairs(pairs: seq<Pair>): string
    decreases |pairs|, 0
  {
    if pairs == [] then "" else ShowPair(pairs[0]) + ShowMore(pairs[1..])
  }

  /** The pairs after another one. */
  function ShowMore(pairs: seq<Pair>): string
    decreases |pairs|, 1
  {
    if pairs == [] then "" else "," + ShowPairs(pairs)
  }

  /** The end of a sample line: a space, the value, and the timestamp after another space. */
  function ShowTail<V>(num: Numbers<V>, v: Value<V>, stamp: string): string {
    " " + ShowValue(num, v) + if stamp == "" then "" else " " + stamp
  }

  function ShowLine<V>(num: Numbers<V>, l: Line<V>): string {
    match l
    case Comment(text) => "#" + text
    case Metric(name, pairs, v, stamp) =>
      name + (if pairs == [] then "" else "{" + ShowPairs(pairs) + "}") + ShowTail(num, v, stamp)
  }

  /** Every line with its newline. */
  function Show<V>(num: Numbers<V>, lines: seq<Line<V>>): string {
    if lines == [] then "" else ShowLine(num, lines[0]) + "\n" + Show(num, lines[1..])
  }

  ghost predicate LawfulNumbers<V(!new)>(num: Numbers<V>) {
    && (forall v: V :: num.parse(num.show(v)) == Some(Finite(v)))
    && (forall v: V :: num.show(v) != "" && num.show(v) != "+Inf" && num.show(v) != "-Inf")
    && (forall v: V :: Token(num.show(v)))
    && (forall t: string :: '"' in t ==> num.parse(t) == None)
  }

  /** A value's text is one token without a brace. */
  predicate Token(t: string) {
    forall c | c in t :: NotSpace(c) && c != '}' && c != '{' && c != '"'
  }

  predicate IsName(name: string) {
    name != "" && NameStart(name[0]) && forall c | c in name :: NameChar(c)
  }

  predicate IsLabelName(name: string) {
    name != "" && LabelStart(name[0]) && forall c | c in name :: LabelChar(c)
  }

  predicate DistinctNames(pairs: seq<Pair>) {
    forall i, j | 0 <= i < j < |pairs| :: pairs[i].name != pairs[j].name
  }

  /** What the format allows to be printed. */
  predicate Printable<V>(l: Line<V>) {
    match l
    case Comment(text) => '\n' !in text
    case Metric(name, pairs, _, stamp) =>
      && IsName(name)
      && DistinctNames(pairs)
      && LabelNames(pairs)
      && forall c | c in stamp :: IsDigit(c)
  }

  function LabelsOf(pairs: seq<Pair>): Labels {
    if pairs == [] then map[] else LabelsOf(pairs[1..])[pairs[0].name := pairs[0].value]
  }

  function SampleOf<V>(l: Line<V>): seq<Sample<V>> {
    if l.Metric? then [Sample(l.name, LabelsOf(l.pairs), l.value)] else []
  }

  /** The samples printed, in order. */
  function SamplesOf<V>(lines: seq<Line<V>>): seq<Sample<V>> {
    if lines == [] then [] else SampleOf(lines[0]) + SamplesOf(lines[1..])
  }

  /** The exact condition: no label value holds a character `.` refuses, and no label is called `__proto__`. */
  predicate Readable<V>(l: Line<V>) {
    l.Metric? ==> PlainPairs(l.pairs) && NoProto(l.pairs)
  }

  predicate PlainChar(c: char) { c != '\r' && c != '\U{2028}' && c != '\U{2029}' }

  predicate Plain(s: string) {
    forall i | 0 <= i < |s| :: PlainChar(s[i])
  }

  predicate PlainPairs(pairs: seq<Pair>) {
    forall i | 0 <= i < |pairs| :: Plain(pairs[i].value)
  }

  // ---------- One label ----------

  /** An escaped value ends at the quote after it, whatever it holds. */
  lemma {:induction false} QuotedEscape(v: string, rest: string)
    ensures QuotedLength(Escape(v) + "\"" + rest) == Some(|Escape(v)|)
  {
    if v != "" {
      var e, t := EscapeChar(v[0]), Escape(v[1..]) + "\"" + rest;
      QuotedEscape(v[1..], rest);
      assert Escape(v) + "\"" + rest == e + t;
      QuotedFront(v[0], t);
    }
  }

  /** An escaped character is never the closing quote. */
  lemma QuotedFront(c: char, t: string)
    ensures QuotedLength(EscapeChar(c) + t) ==
            match QuotedLength(t)
            case None => None
            case Some(n) => Some(n + |EscapeChar(c)|)
  {
    var e := EscapeChar(c);
    assert (e + t)[|e|..] == t;
  }

  /** A name followed by `="` is a label as long as its quote is closed. */
  lemma LabelAtName(name: string, quoted: string)
    requires IsLabelName(name)
    ensures LabelAt(name + ("=\"" + quoted)) == QuotedLabel(name, quoted)
  {
    var n, after := |name|, "=\"" + quoted;
    var t := name + after;
    SpanOf(LabelChar, name, after);
    assert t[0] == name[0] && name[0] in name;
    assert t[n] == after[0] && t[n + 1] == after[1];
    assert t[n + 2..] == quoted;
    assert t[..n] == name;
  }

  /** An escaped value with its closing quote is the whole label value. */
  lemma QuotedParts(name: string, v: string, rest: string)
    ensures QuotedLabel(name, Escape(v) + "\"" + rest) == Some(LabelMatch(name, Escape(v), |name| + |Escape(v)| + 3))
  {
    QuotedEscape(v, rest);
    assert (Escape(v) + "\"" + rest)[..|Escape(v)|] == Escape(v);
  }

  /** A name, `="`, and an escaped value with its closing quote are read as a label. */
  lemma LabelAtParts(name: string, v: string, rest: string)
    requires IsLabelName(name)
    ensures LabelAt(name + ("=\"" + (Escape(v) + "\"" + rest))) == Some(LabelMatch(name, Escape(v), |name| + |Escape(v)| + 3))
  {
    LabelAtName(name, Escape(v) + "\"" + rest);
    QuotedParts(name, v, rest);
  }

  lemma PairShape(p: Pair, rest: string)
    ensures ShowPair(p) + rest == p.name + ("=\"" + (Escape(p.value) + "\"" + rest))
    ensures |ShowPair(p)| == |p.name| + |Escape(p.value)| + 3
  {
    EscapeLabelIsEscape(p.value);
    Regroup(p.name, "=\"", Escape(p.value), "\"", rest);
  }

  lemma Regroup(a: string, b: string, c: string, d: string, e: string)
    ensures a + b + c + d + e == a + (b + (c + d + e))
  {
    Associate(a, b, c);
    Associate(a, b + c, d);
    Associate(a, b + c + d, e);
    Associate(b, c, d);
    Associate(b, c + d, e);
  }

  lemma LabelAtPair(p: Pair, rest: string)
    requires IsLabelName(p.name)
    ensures LabelAt(ShowPair(p) + rest) == Some(LabelMatch(p.name, Escape(p.value), |ShowPair(p)|))
  {
    PairShape(p, rest);
    LabelAtParts(p.name, p.value, rest);
  }

  // ---------- All labels ----------

  /** The pairs assigned one after the other. */
  function SetAll(labels: Labels, pairs: seq<Pair>): Labels
    decreases |pairs|
  {
    if pairs == [] then labels else SetAll(SetLabel(labels, pairs[0].name, pairs[0].value), pairs[1..])
  }

  predicate LabelNames(pairs: seq<Pair>) {
    forall i | 0 <= i < |pairs| :: IsLabelName(pairs[i].name)
  }

  predicate NoProto(pairs: seq<Pair>) {
    forall i | 0 <= i < |pairs| :: pairs[i].name != "__proto__"
  }

  /** A printed pair at the front is read and set, whatever follows it. */
  lemma ReadPairFront(p: Pair, rest: string, labels: Labels)
    requires IsLabelName(p.name)
    ensures ReadLabels(ShowPair(p) + rest, labels) == ReadLabels(rest, SetLabel(labels, p.name, p.value))
  {
    var shown := ShowPair(p);
    LabelAtPair(p, rest);
    EscapeLabelIsEscape(p.value);
    UnescapeEscape(p.value);
    assert (shown + rest)[|shown|..] == rest;
  }

  /** What is no label's beginning is skipped. */
  lemma SkipComma(rest: string, labels: Labels)
    ensures ReadLabels("," + rest, labels) == ReadLabels(rest, labels)
  {
    assert ("," + rest)[1..] == rest;
  }

  lemma {:induction false} ReadShown(pairs: seq<Pair>, labels: Labels)
    requires LabelNames(pairs)
    ensures ReadLabels(ShowPairs(pairs), labels) == SetAll(labels, pairs)
    decreases |pairs|
  {
    if pairs != [] {
      var p, more := pairs[0], pairs[1..];
      var set1 := SetLabel(labels, p.name, p.value);
      ReadPairFront(p, ShowMore(more), labels);
      ReadShown(more, set1);
      SkipComma(ShowPairs(more), set1);
    }
  }

  lemma {:induction false} NamesOf(pairs: seq<Pair>, name: string)
    ensures name in LabelsOf(pairs) <==> exists i :: 0 <= i < |pairs| && pairs[i].name == name
  {
    if pairs != [] {
      NamesOf(pairs[1..], name);
      forall i | 0 <= i < |pairs| && pairs[i].name == name
        ensures name in LabelsOf(pairs)
      {
        if i > 0 {
          assert pairs[1..][i - 1].name == name;
        }
      }
    }
  }

  /** Distinct names, none of them `__proto__`: the object ends up with exactly the printed labels. */
  lemma {:induction false} SetAllIsLabels(labels: Labels, pairs: seq<Pair>)
    requires DistinctNames(pairs) && NoProto(pairs)
    ensures SetAll(labels, pairs) == labels + LabelsOf(pairs)
    decreases |pairs|
  {
    if pairs != [] {
      SetAllIsLabels(labels[pairs[0].name := pairs[0].value], pairs[1..]);
      NamesOf(pairs[1..], pairs[0].name);
    }
  }

  /** A label called `__proto__` is never set. */
  lemma {:induction false} ProtoNeverSet(labels: Labels, pairs: seq<Pair>)
    requires "__proto__" !in labels
    ensures "__proto__" !in SetAll(labels, pairs)
    decreases |pairs|
  {
    if pairs != [] {
      ProtoNeverSet(SetLabel(labels, pairs[0].name, pairs[0].value), pairs[1..]);
    }
  }

  /** Where a name is printed twice, the later label wins. */
  lemma {:induction false} LastLabelWins(pairs: seq<Pair>, labels: Labels, k: nat)
    requires k < |pairs| && pairs[k].name != "__proto__"
    requires forall i :: k < i < |pairs| ==> pairs[i].name != pairs[k].name
    ensures var set1 := SetAll(labels, pairs); pairs[k].name in set1 && set1[pairs[k].name] == pairs[k].value
    decreases k
  {
    var set1 := SetLabel(labels, pairs[0].name, pairs[0].value);
    if k > 0 {
      LastLabelWins(pairs[1..], set1, k - 1);
    } else {
      OtherLabelsStay(pairs[1..], set1, pairs[0].name);
    }
  }

  lemma {:induction false} OtherLabelsStay(pairs: seq<Pair>, labels: Labels, name: string)
    requires name in labels && forall i :: 0 <= i < |pairs| ==> pairs[i].name != name
    ensures name in SetAll(labels, pairs) && SetAll(labels, pairs)[name] == labels[name]
    decreases |pairs|
  {
    if pairs != [] {
      OtherLabelsStay(pairs[1..], SetLabel(labels, pairs[0].name, pairs[0].value), name);
    }
  }

  /** The labels come back exactly when none of them is called `__proto__`. */
  lemma LabelsComeBackIff(pairs: seq<Pair>)
    requires LabelNames(pairs) && DistinctNames(pairs)
    ensures ReadLabels(ShowPairs(pairs), map[]) == LabelsOf(pairs) <==> NoProto(pairs)
  {
    ReadShown(pairs, map[]);
    ProtoNeverSet(map[], pairs);
    NamesOf(pairs, "__proto__");
    if NoProto(pairs) {
      SetAllIsLabels(map[], pairs);
    }
  }

  // ---------- The end of the line ----------

  /** A blank, a token, and then the end of the line or a blank and digits. */
  lemma TailOfParts(value: string, stamp: string)
    requires value != "" && Token(value)
    requires forall c | c in stamp :: IsDigit(c)
    ensures Tail(" " + (value + if stamp == "" then "" else " " + stamp)) == Some(value)
  {
    var rest := if stamp == "" then "" else " " + stamp;
    var line := " " + (value + rest);
    assert value[0] in value;
    SpanOf(IsSpace, " ", value + rest);
    assert line[1..] == value + rest;
    SpanOf(NotSpace, value, rest);
    assert (value + rest)[..|value|] == value;
    assert (value + rest)[|value|..] == rest;
    if stamp != "" {
      StampOfParts(stamp);
    }
  }

  lemma StampOfParts(stamp: string)
    requires stamp != "" && forall c | c in stamp :: IsDigit(c)
    ensures Span(IsSpace, " " + stamp) == 1 && (" " + stamp)[1..] == stamp && Span(IsDigit, stamp) == |stamp|
  {
    assert stamp[0] in stamp && IsDigit(stamp[0]);
    SpanOf(IsSpace, " ", stamp);
    SpanOf(IsDigit, stamp, "");
    assert stamp + "" == stamp;
  }

  lemma TailOfShown<V(!new)>(num: Numbers<V>, v: Value<V>, stamp: string)
    requires LawfulNumbers(num)
    requires forall c | c in stamp :: IsDigit(c)
    ensures Tail(ShowTail(num, v, stamp)) == Some(ShowValue(num, v))
  {
    ShownIsToken(num, v);
    var value, rest := ShowValue(num, v), if stamp == "" then "" else " " + stamp;
    TailOfParts(value, stamp);
    Associate(" ", value, rest);
  }

  lemma ShownIsToken<V(!new)>(num: Numbers<V>, v: Value<V>)
    requires LawfulNumbers(num)
    ensures var t := ShowValue(num, v); t != "" && Token(t)
    ensures ReadValue(num, ShowValue(num, v)) == Some(v)
  {
  }

  /** Around the value's text there are only blanks and digits. */
  lemma TailShape(s: string, i: nat)
    requires i < |s| && Tail(s).Some?
    ensures s[i] in Tail(s).value || IsSpace(s[i]) || IsDigit(s[i])
  {
    var a := Span(IsSpace, s);
    var t := s[a..];
    var b := Span(NotSpace, t);
    if a <= i < a + b {
      assert t[..b][i - a] == s[i];
    } else if a + b <= i {
      var rest := t[b..];
      var c := Span(IsSpace, rest);
      var k := i - a - b;
      assert rest[k] == s[i];
      assert c <= k ==> rest[c..][k - c] == s[i];
    }
  }

  /** With no later brace, the closing one is found. */
  lemma {:induction false} LastCloseIs(s: string, j: nat, k: nat)
    requires k < j <= |s| && Closes(s, k)
    requires forall i :: k < i < j ==> s[i] != '}'
    ensures LastClose(s, j) == Some(k)
  {
    if j - 1 != k {
      LastCloseIs(s, j - 1, k);
    }
  }

  lemma {:induction false} LastCloseCloses(s: string, j: nat)
    ensures LastClose(s, j).Some? ==> Closes(s, LastClose(s, j).value)
  {
    if j > 0 && !Closes(s, j - 1) {
      LastCloseCloses(s, j - 1);
    }
  }

  // ---------- One line ----------

  /** Nothing in the printed end of a line is a brace or a terminator. */
  lemma TailIsPlain<V(!new)>(num: Numbers<V>, v: Value<V>, stamp: string, i: nat)
    requires LawfulNumbers(num)
    requires forall c | c in stamp :: IsDigit(c)
    requires i < |ShowTail(num, v, stamp)|
    ensures var c := ShowTail(num, v, stamp)[i]; c != '}' && IsDot(c)
  {
    var value, t := ShowValue(num, v), ShowTail(num, v, stamp);
    ShownIsToken(num, v);
    if 1 <= i <= |value| {
      assert t[i] == value[i - 1];
      assert t[i] in value;
    } else if i > |value| + 1 {
      assert t[i] == stamp[i - |value| - 2];
      assert t[i] in stamp;
    }
  }

  lemma BracedLine(name: string, inner: string)
    requires IsName(name)
    ensures MatchLine(name + ("{" + inner)) == MatchBraced(name, inner)
  {
    var rest := "{" + inner;
    var line := name + rest;
    SpanOf(NameChar, name, rest);
    assert line[0] == name[0];
    assert line[|name|..] == rest;
    assert line[..|name|] == name;
    assert rest[1..] == inner;
  }

  lemma BareLine(name: string, rest: string)
    requires IsName(name) && rest != "" && IsSpace(rest[0])
    ensures MatchLine(name + rest) == MatchBare(name, rest)
  {
    var line := name + rest;
    SpanOf(NameChar, name, rest);
    assert line[0] == name[0];
    assert line[|name|..] == rest;
    assert line[..|name|] == name;
  }

  /** On a line without a terminator the last brace closes the labels, if the line ends properly after it. */
  lemma MatchLastBrace(name: string, inner: string, k: nat, value: string)
    requires forall i | 0 <= i < |inner| :: IsDot(inner[i])
    requires k < |inner| && inner[k] == '}' && Tail(inner[k + 1..]) == Some(value)
    requires forall i | k < i < |inner| :: inner[i] != '}'
    ensures MatchBraced(name, inner) == Some(LineMatch(name, inner[..k], value))
  {
    SpanOf(IsDot, inner, "");
    assert inner + "" == inner;
    LastCloseIs(inner, |inner|, k);
  }

  lemma BraceThenTail<V(!new)>(num: Numbers<V>, p: string, v: Value<V>, stamp: string, i: nat)
    requires LawfulNumbers(num)
    requires forall c | c in stamp :: IsDigit(c)
    requires i < |p + ("}" + ShowTail(num, v, stamp))|
    ensures var c := (p + ("}" + ShowTail(num, v, stamp)))[i];
            && (i < |p| ==> c == p[i]) && (i == |p| ==> c == '}')
            && (i > |p| ==> c != '}' && IsDot(c))
  {
    if i > |p| {
      TailIsPlain(num, v, stamp, i - |p| - 1);
    }
  }

  /** Labels without a terminator: the brace that closes them is the last one, so it is found. */
  lemma DottedLabels<V(!new)>(num: Numbers<V>, name: string, p: string, v: Value<V>, stamp: string)
    requires LawfulNumbers(num)
    requires forall c | c in stamp :: IsDigit(c)
    requires forall i | 0 <= i < |p| :: IsDot(p[i])
    ensures MatchBraced(name, p + ("}" + ShowTail(num, v, stamp))) == Some(LineMatch(name, p, ShowValue(num, v)))
  {
    var t := ShowTail(num, v, stamp);
    var inner, k := p + ("}" + t), |p|;
    forall i | 0 <= i < |inner|
      ensures IsDot(inner[i]) && (i > k ==> inner[i] != '}')
    {
      BraceThenTail(num, p, v, stamp, i);
    }
    BraceThenTail(num, p, v, stamp, k);
    assert inner[k + 1..] == t && inner[..k] == p;
    TailOfShown(num, v, stamp);
    MatchLastBrace(name, inner, k, ShowValue(num, v));
  }

  lemma QuoteAfterClose(inner: string, j: nat, q: nat)
    requires Closes(inner, j) && j < q < |inner| && inner[q] == '"'
    ensures '"' in Tail(inner[j + 1..]).value
  {
    assert inner[j + 1..][q - j - 1] == '"';
    TailShape(inner[j + 1..], q - j - 1);
  }

  /** A terminator before a quote: a match ends too early, so the quote is in its value. */
  lemma CutLabels(name: string, inner: string, k: nat, q: nat)
    requires k < q < |inner| && IsTerminator(inner[k]) && inner[q] == '"'
    ensures var m := MatchBraced(name, inner); m.None? || '"' in m.value.value
  {
    var run := Span(IsDot, inner);
    assert run <= k;
    LastCloseCloses(inner, run);
    var close := LastClose(inner, run);
    if close.Some? {
      QuoteAfterClose(inner, close.value, q);
    }
  }

  lemma TrimKeeps(s: string)
    requires s != "" && !IsSpace(s[0]) && !IsSpace(s[|s| - 1])
    ensures Trim(s) == s
  {
    assert Span(IsSpace, s) == 0;
    assert s[0..] == s;
  }

  // ---------- Where a terminator can hide ----------

  predicate AllDots(s: string) {
    forall i | 0 <= i < |s| :: IsDot(s[i])
  }

  lemma AllDotsConcat(a: string, b: string)
    ensures AllDots(a + b) <==> AllDots(a) && AllDots(b)
  {
    if AllDots(a + b) {
      assert forall i | 0 <= i < |a| :: (a + b)[i] == a[i];
      assert forall i | 0 <= i < |b| :: (a + b)[|a| + i] == b[i];
    }
  }

  lemma EscapeDot(c: char)
    ensures AllDots(EscapeChar(c)) <==> PlainChar(c)
  {
    assert !PlainChar(c) ==> !IsDot(EscapeChar(c)[0]);
  }

  lemma PlainFront(v: string)
    requires v != ""
    ensures Plain(v) <==> PlainChar(v[0]) && Plain(v[1..])
  {
    assert v == [v[0]] + v[1..];
  }

  lemma {:induction false} EscapedDots(v: string)
    ensures AllDots(Escape(v)) <==> Plain(v)
    ensures '\n' !in Escape(v)
  {
    if v != "" {
      EscapedDots(v[1..]);
      AllDotsConcat(EscapeChar(v[0]), Escape(v[1..]));
      EscapeDot(v[0]);
      PlainFront(v);
    }
  }

  lemma PairDots(p: Pair)
    requires IsLabelName(p.name)
    ensures AllDots(ShowPair(p)) <==> Plain(p.value)
    ensures '\n' !in ShowPair(p)
    ensures ShowPair(p)[|ShowPair(p)| - 1] == '"'
  {
    EscapeLabelIsEscape(p.value);
    EscapedDots(p.value);
    var e := Escape(p.value);
    AllDotsConcat(p.name + "=\"" + e, "\"");
    AllDotsConcat(p.name + "=\"", e);
    AllDotsConcat(p.name, "=\"");
    assert forall i | 0 <= i < |p.name| :: p.name[i] in p.name;
    assert AllDots(p.name);
  }

  /** The labels hold a terminator exactly when a value does; they end with a quote and hold no newline. */
  lemma {:induction false} PairsDots(pairs: seq<Pair>)
    requires LabelNames(pairs)
    ensures AllDots(ShowPairs(pairs)) <==> PlainPairs(pairs)
    ensures '\n' !in ShowPairs(pairs)
    ensures pairs != [] ==> ShowPairs(pairs) != "" && ShowPairs(pairs)[|ShowPairs(pairs)| - 1] == '"'
    decreases |pairs|
  {
    if pairs != [] {
      var p, more := pairs[0], pairs[1..];
      PairDots(p);
      PlainSplit(pairs);
      if more == [] {
        assert ShowPairs(pairs) == ShowPair(p);
      } else {
        PairsDots(more);
        JoinedDots(ShowPair(p), ShowPairs(more));
      }
    }
  }

  lemma JoinedDots(a: string, b: string)
    requires '\n' !in a && '\n' !in b && b != ""
    ensures AllDots(a + ("," + b)) <==> AllDots(a) && AllDots(b)
    ensures '\n' !in a + ("," + b)
    ensures (a + ("," + b))[|a + ("," + b)| - 1] == b[|b| - 1]
  {
    AllDotsConcat(a, "," + b);
    AllDotsConcat(",", b);
  }

  lemma PlainSplit(pairs: seq<Pair>)
    requires pairs != []
    ensures PlainPairs(pairs) <==> Plain(pairs[0].value) && PlainPairs(pairs[1..])
  {
    assert pairs == [pairs[0]] + pairs[1..];
  }

  // ---------- A printed line, read back ----------

  lemma LineEnds<V(!new)>(num: Numbers<V>, l: Line<V>)
    requires LawfulNumbers(num) && Printable(l) && l.Metric?
    ensures Trim(ShowLine(num, l)) == ShowLine(num, l)
    ensures ShowLine(num, l) != "" && ShowLine(num, l)[0] != '#'
  {
    var line, t := ShowLine(num, l), ShowTail(num, l.value, l.stamp);
    ShownIsToken(num, l.value);
    assert line[0] == l.name[0] && l.name[0] in l.name;
    assert line[|line| - 1] == t[|t| - 1];
    var value := ShowValue(num, l.value);
    if l.stamp == "" {
      assert t[|t| - 1] == value[|value| - 1] && value[|value| - 1] in value;
    } else {
      assert t[|t| - 1] == l.stamp[|l.stamp| - 1] && l.stamp[|l.stamp| - 1] in l.stamp;
    }
    TrimKeeps(line);
  }

  lemma BracedShape<V>(num: Numbers<V>, l: Line<V>)
    requires l.Metric? && l.pairs != []
    ensures ShowLine(num, l) == l.name + ("{" + (ShowPairs(l.pairs) + ("}" + ShowTail(num, l.value, l.stamp))))
  {
    Regroup(l.name, "{", ShowPairs(l.pairs), "}", ShowTail(num, l.value, l.stamp));
  }

  lemma MatchPlain<V(!new)>(num: Numbers<V>, l: Line<V>)
    requires LawfulNumbers(num) && Printable(l) && l.Metric? && l.pairs != [] && PlainPairs(l.pairs)
    ensures MatchLine(ShowLine(num, l)) == Some(LineMatch(l.name, ShowPairs(l.pairs), ShowValue(num, l.value)))
  {
    var p := ShowPairs(l.pairs);
    PairsDots(l.pairs);
    BracedShape(num, l);
    BracedLine(l.name, p + ("}" + ShowTail(num, l.value, l.stamp)));
    DottedLabels(num, l.name, p, l.value, l.stamp);
  }

  lemma CutInner(name: string, p: string, rest: string, k: nat)
    requires k < |p| && !IsDot(p[k]) && p[|p| - 1] == '"'
    ensures var m := MatchBraced(name, p + rest); m.None? || '"' in m.value.value
  {
    assert (p + rest)[k] == p[k] && (p + rest)[|p| - 1] == p[|p| - 1];
    CutLabels(name, p + rest, k, |p| - 1);
  }

  lemma CutBraced(name: string, p: string, rest: string)
    requires IsName(name) && !AllDots(p) && p[|p| - 1] == '"'
    ensures var m := MatchLine(name + ("{" + (p + rest))); m.None? || '"' in m.value.value
  {
    BracedLine(name, p + rest);
    var k :| 0 <= k < |p| && !IsDot(p[k]);
    CutInner(name, p, rest, k);
  }

  lemma MatchCut<V>(num: Numbers<V>, l: Line<V>)
    requires Printable(l) && l.Metric? && !PlainPairs(l.pairs)
    ensures var m := MatchLine(ShowLine(num, l)); m.None? || '"' in m.value.value
  {
    PairsDots(l.pairs);
    BracedShape(num, l);
    CutBraced(l.name, ShowPairs(l.pairs), "}" + ShowTail(num, l.value, l.stamp));
  }

  lemma MatchNoLabels<V(!new)>(num: Numbers<V>, l: Line<V>)
    requires LawfulNumbers(num) && Printable(l) && l.Metric? && l.pairs == []
    ensures MatchLine(ShowLine(num, l)) == Some(LineMatch(l.name, "", ShowValue(num, l.value)))
  {
    var t := ShowTail(num, l.value, l.stamp);
    assert l.name + "" + t == l.name + t;
    BareLine(l.name, t);
    TailOfShown(num, l.value, l.stamp);
  }

  lemma CommentSkipped<V>(num: Numbers<V>, text: string)
    ensures ReadLine(num, "#" + text) == []
  {
    var line := "#" + text;
    assert Span(IsSpace, line) == 0;
    assert line[0..] == line;
    TrimEndKeepsFirst(line);
  }

  lemma {:induction false} TrimEndKeepsFirst(s: string)
    requires s != "" && !IsSpace(s[0])
    ensures TrimEnd(s) != "" && TrimEnd(s)[0] == s[0]
  {
    if IsSpace(s[|s| - 1]) {
      TrimEndKeepsFirst(s[..|s| - 1]);
    }
  }

  /** A match whose value holds a quote gives nothing. */
  lemma QuotedValueIsNothing<V(!new)>(num: Numbers<V>, m: Option<LineMatch>)
    requires LawfulNumbers(num)
    requires m.None? || '"' in m.value.value
    ensures ReadMatch(num, m) == []
  {
  }

  lemma ReadPlain<V(!new)>(num: Numbers<V>, l: Line<V>)
    requires LawfulNumbers(num) && Printable(l) && l.Metric? && PlainPairs(l.pairs)
    ensures ReadLine(num, ShowLine(num, l)) == [Sample(l.name, ReadLabels(ShowPairs(l.pairs), map[]), l.value)]
  {
    LineEnds(num, l);
    ShownIsToken(num, l.value);
    if l.pairs == [] {
      MatchNoLabels(num, l);
    } else {
      MatchPlain(num, l);
    }
  }

  lemma ReadCut<V(!new)>(num: Numbers<V>, l: Line<V>)
    requires LawfulNumbers(num) && Printable(l) && l.Metric? && !PlainPairs(l.pairs)
    ensures ReadLine(num, ShowLine(num, l)) == []
  {
    LineEnds(num, l);
    MatchCut(num, l);
    QuotedValueIsNothing(num, MatchLine(ShowLine(num, l)));
  }

  /** One printed line gives its sample back exactly when it is readable, and never more than one sample. */
  lemma LineRoundTripIff<V(!new)>(num: Numbers<V>, l: Line<V>)
    requires LawfulNumbers(num) && Printable(l)
    ensures ReadLine(num, ShowLine(num, l)) == SampleOf(l) <==> Readable(l)
    ensures |ReadLine(num, ShowLine(num, l))| <= |SampleOf(l)|
  {
    if l.Comment? {
      CommentSkipped(num, l.text);
    } else if PlainPairs(l.pairs) {
      ReadPlain(num, l);
      LabelsComeBackIff(l.pairs);
    } else {
      ReadCut(num, l);
    }
  }

  // ---------- A whole exposition ----------

  predicate AllPrintable<V>(lines: seq<Line<V>>) {
    forall i | 0 <= i < |lines| :: Printable(lines[i])
  }

  predicate AllReadable<V>(lines: seq<Line<V>>) {
    forall i | 0 <= i < |lines| :: Readable(lines[i])
  }

  lemma NoNewline<V(!new)>(num: Numbers<V>, l: Line<V>)
    requires LawfulNumbers(num) && Printable(l)
    ensures '\n' !in ShowLine(num, l)
  {
    if l.Metric? {
      var t := ShowTail(num, l.value, l.stamp);
      forall i | 0 <= i < |t|
        ensures t[i] != '\n'
      {
        TailIsPlain(num, l.value, l.stamp, i);
      }
      PairsDots(l.pairs);
      assert '\n' !in l.name;
    }
  }

  lemma {:induction false} FirstNewlineAt(a: string, b: string)
    requires '\n' !in a
    ensures Newline(a + "\n" + b) == Some(|a|)
  {
    if a == "" {
      assert a + "\n" + b == "\n" + b;
    } else {
      FirstNewlineAt(a[1..], b);
      assert (a + "\n" + b)[1..] == a[1..] + "\n" + b;
    }
  }

  /** A line and its newline are split off the front. */
  lemma SplitFront(a: string, b: string)
    requires '\n' !in a
    ensures Split(a + "\n" + b) == [a] + Split(b)
  {
    FirstNewlineAt(a, b);
    var text := a + "\n" + b;
    assert text[..|a|] == a;
    assert text[|a| + 1..] == b;
  }

  lemma ReadLinesFront<V>(num: Numbers<V>, first: string, more: seq<string>)
    ensures ReadLines(num, [first] + more) == ReadLine(num, first) + ReadLines(num, more)
  {
    CollectFront((raw: string) => ReadLine(num, raw), first, more);
  }

  lemma ReadShownFront<V(!new)>(num: Numbers<V>, l: Line<V>, rest: string)
    requires LawfulNumbers(num) && Printable(l)
    ensures ReadLines(num, Split(ShowLine(num, l) + "\n" + rest))
         == ReadLine(num, ShowLine(num, l)) + ReadLines(num, Split(rest))
  {
    NoNewline(num, l);
    SplitFront(ShowLine(num, l), rest);
    ReadLinesFront(num, ShowLine(num, l), Split(rest));
  }

  lemma NothingToRead<V>(num: Numbers<V>)
    ensures ReadLines(num, Split("")) == []
  {
    assert Split("") == [""];
    assert [""][..0] == [];
    assert ReadLine(num, "") == [];
  }

  /** Two splits of equal sequences agree when neither first part nor second part is too long. */
  lemma PartsAgree<T>(a: seq<T>, b: seq<T>, c: seq<T>, d: seq<T>)
    requires |a| <= |c| && |b| <= |d|
    ensures a + b == c + d <==> a == c && b == d
  {
    if a + b == c + d {
      assert |a| == |c|;
      assert a == (a + b)[..|a|] && c == (c + d)[..|a|];
      assert b == (a + b)[|a|..] && d == (c + d)[|a|..];
    }
  }

  /**
   The round trip, with its exact condition: parsing a printed exposition gives back its samples, in order
   and nothing else, if and only if every line is readable.
   */
  lemma {:induction false} RoundTripIff<V(!new)>(num: Numbers<V>, lines: seq<Line<V>>)
    requires LawfulNumbers(num) && AllPrintable(lines)
    ensures ReadLines(num, Split(Show(num, lines))) == SamplesOf(lines) <==> AllReadable(lines)
    ensures |ReadLines(num, Split(Show(num, lines)))| <= |SamplesOf(lines)|
  {
    if lines == [] {
      NothingToRead(num);
    } else {
      var l, more := lines[0], lines[1..];
      RoundTripIff(num, more);
      LineRoundTripIff(num, l);
      ReadShownFront(num, l, Show(num, more));
      PartsAgree(ReadLine(num, ShowLine(num, l)), ReadLines(num, Split(Show(num, more))), SampleOf(l), SamplesOf(more));
      ReadableSplit(lines);
    }
  }

  lemma ReadableSplit<V>(lines: seq<Line<V>>)
    requires lines != []
    ensures AllReadable(lines) <==> Readable(lines[0]) && AllReadable(lines[1..])
  {
    assert lines == [lines[0]] + lines[1..];
  }

  // ---------- What the two expressions match, on any text ----------

  predicate AllOf(p: char -> bool, s: string) {
    forall i | 0 <= i < |s| :: p(s[i])
  }

  /** Blanks, a value, and then nothing or blanks and a timestamp. */
  predicate TailParts(s: string, blanks: string, value: string, gap: string, stamp: string) {
    && s == blanks + (value + (gap + stamp))
    && blanks != "" && AllOf(IsSpace, blanks)
    && value != "" && AllOf(NotSpace, value)
    && AllOf(IsSpace, gap) && AllOf(IsDigit, stamp) && (gap == "" <==> stamp == "")
  }

  ghost predicate IsTail(s: string, value: string) {
    exists blanks, gap, stamp :: TailParts(s, blanks, value, gap, stamp)
  }

  lemma GapComplete(gap: string, stamp: string)
    requires gap != "" && stamp != "" && AllOf(IsSpace, gap) && AllOf(IsDigit, stamp)
    ensures Span(IsSpace, gap + stamp) == |gap| && (gap + stamp)[|gap|..] == stamp && Span(IsDigit, stamp) == |stamp|
  {
    assert IsDigit(stamp[0]);
    SpanOf(IsSpace, gap, stamp);
    SpanOf(IsDigit, stamp, "");
    assert stamp + "" == stamp;
  }

  lemma TailComplete(s: string, blanks: string, value: string, gap: string, stamp: string)
    requires TailParts(s, blanks, value, gap, stamp)
    ensures Tail(s) == Some(value)
  {
    var rest := gap + stamp;
    assert NotSpace(value[0]);
    SpanOf(IsSpace, blanks, value + rest);
    assert s[|blanks|..] == value + rest;
    if gap != "" {
      assert IsSpace(gap[0]) && rest[0] == gap[0];
      GapComplete(gap, stamp);
    }
    SpanOf(NotSpace, value, rest);
    assert (value + rest)[..|value|] == value && (value + rest)[|value|..] == rest;
  }

  lemma TailSound(s: string)
    requires Tail(s).Some?
    ensures IsTail(s, Tail(s).value)
  {
    var a := Span(IsSpace, s);
    var t := s[a..];
    var gap, stamp := ValueSound(t);
    assert s == s[..a] + t;
    assert TailParts(s, s[..a], Tail(s).value, gap, stamp);
  }

  lemma ValueSound(t: string) returns (gap: string, stamp: string)
    requires ValueAtFront(t).Some?
    ensures var value := ValueAtFront(t).value;
            && t == value + (gap + stamp) && value != "" && AllOf(NotSpace, value)
            && AllOf(IsSpace, gap) && AllOf(IsDigit, stamp) && (gap == "" <==> stamp == "")
  {
    var b := Span(NotSpace, t);
    gap, stamp := GapSound(t[b..]);
    assert t == t[..b] + t[b..];
  }

  /** What follows the value starts with a blank, so it is nothing at all or a gap and a timestamp. */
  lemma GapSound(rest: string) returns (gap: string, stamp: string)
    requires EndsLine(rest) && (rest == "" || IsSpace(rest[0]))
    ensures rest == gap + stamp && AllOf(IsSpace, gap) && AllOf(IsDigit, stamp) && (gap == "" <==> stamp == "")
  {
    var c := Span(IsSpace, rest);
    gap, stamp := rest[..c], rest[c..];
  }

  /** The end of a sample line, exactly. */
  lemma TailIff(s: string, value: string)
    ensures Tail(s) == Some(value) <==> IsTail(s, value)
  {
    if IsTail(s, value) {
      var blanks, gap, stamp :| TailParts(s, blanks, value, gap, stamp);
      TailComplete(s, blanks, value, gap, stamp);
    }
    if Tail(s).Some? {
      TailSound(s);
    }
  }

  /** A name and the end of the line. */
  ghost predicate IsBare(line: string, name: string, value: string) {
    IsName(name) && |name| <= |line| && line[..|name|] == name && IsTail(line[|name|..], value)
  }

  /** A name, labels in braces without a terminator, and the end of the line. */
  ghost predicate IsBraced(line: string, name: string, labels: string, value: string) {
    && IsName(name) && AllDots(labels)
    && exists rest :: line == name + ("{" + (labels + ("}" + rest))) && IsTail(rest, value)
  }

  lemma SpanAtLeast(p: char -> bool, s: string, k: nat)
    requires k <= |s| && forall i | 0 <= i < k :: p(s[i])
    ensures Span(p, s) >= k
  {
    var n := Span(p, s);
    assert n < |s| ==> !p(s[n]);
  }

  lemma {:induction false} LastCloseIsLast(s: string, j: nat, i: nat)
    requires i < j <= |s| && Closes(s, i)
    ensures LastClose(s, j).Some? && LastClose(s, j).value >= i
  {
    if !Closes(s, j - 1) {
      LastCloseIsLast(s, j - 1, i);
    }
  }

  /** After the opening brace: labels, a closing brace, and the end of the line. */
  ghost predicate IsInner(inner: string, labels: string, value: string) {
    AllDots(labels) && exists rest :: inner == labels + ("}" + rest) && IsTail(rest, value)
  }

  /** The three parts of what follows the opening brace. */
  lemma InnerParts(labels: string, rest: string)
    ensures var inner := labels + ("}" + rest);
            inner[..|labels|] == labels && inner[|labels|] == '}' && inner[|labels| + 1..] == rest
  {
  }

  lemma InnerSpan(labels: string, rest: string)
    requires AllDots(labels)
    ensures Span(IsDot, labels + ("}" + rest)) > |labels|
  {
    var inner := labels + ("}" + rest);
    assert forall i | 0 <= i < |labels| :: inner[i] == labels[i];
    SpanAtLeast(IsDot, inner, |labels| + 1);
  }

  lemma InnerCloses(inner: string, labels: string, value: string)
    requires IsInner(inner, labels, value)
    ensures |labels| < |inner| && inner[..|labels|] == labels
    ensures Closes(inner, |labels|) && Tail(inner[|labels| + 1..]) == Some(value)
    ensures |labels| < Span(IsDot, inner)
  {
    var rest :| inner == labels + ("}" + rest) && IsTail(rest, value);
    InnerParts(labels, rest);
    InnerSpan(labels, rest);
    TailIff(rest, value);
  }

  lemma ClosesInner(inner: string, i: nat)
    requires i < Span(IsDot, inner) && Closes(inner, i)
    ensures IsInner(inner, inner[..i], Tail(inner[i + 1..]).value)
  {
    var rest := inner[i + 1..];
    TailSound(rest);
    InnerAgain(inner, i);
    assert forall k | 0 <= k < i :: inner[..i][k] == inner[k];
  }

  lemma InnerAgain(inner: string, i: nat)
    requires i < |inner| && inner[i] == '}'
    ensures inner == inner[..i] + ("}" + inner[i + 1..])
  {
  }

  /** Any labels that let the line end properly are no longer than those of the last closing brace. */
  lemma NoLongerThanLast(inner: string, labels: string, value: string)
    requires IsInner(inner, labels, value)
    ensures var close := LastClose(inner, Span(IsDot, inner)); close.Some? && |labels| <= close.value
  {
    InnerCloses(inner, labels, value);
    LastCloseIsLast(inner, Span(IsDot, inner), |labels|);
  }

  /** The match is what that brace ends. */
  lemma MatchAtLast(name: string, inner: string, i: nat)
    requires LastClose(inner, Span(IsDot, inner)) == Some(i) && Closes(inner, i)
    ensures MatchBraced(name, inner) == Some(LineMatch(name, inner[..i], Tail(inner[i + 1..]).value))
  {
  }

  /** Labels as long as those of the last closing brace are those labels. */
  lemma SameLengthSameInner(inner: string, labels: string, value: string, i: nat)
    requires IsInner(inner, labels, value) && i == |labels| && Closes(inner, i)
    ensures labels == inner[..i] && value == Tail(inner[i + 1..]).value
  {
    InnerCloses(inner, labels, value);
  }

  /** Any other labels are no longer, and the last closing brace's are one such choice. */
  lemma LastIsLongest(inner: string, i: nat)
    requires LastClose(inner, Span(IsDot, inner)) == Some(i)
    ensures Closes(inner, i) && IsInner(inner, inner[..i], Tail(inner[i + 1..]).value)
    ensures forall l, v :: IsInner(inner, l, v) ==> |l| <= i
  {
    LastCloseCloses(inner, Span(IsDot, inner));
    ClosesInner(inner, i);
    forall l, v | IsInner(inner, l, v) ensures |l| <= i {
      NoLongerThanLast(inner, l, v);
    }
  }

  /** The labels are the longest that let the rest of the line end properly. */
  ghost predicate IsLongest(inner: string, labels: string, value: string) {
    IsInner(inner, labels, value) && forall l, v :: IsInner(inner, l, v) ==> |l| <= |labels|
  }

  lemma LongestIsMatch(inner: string, labels: string, value: string, i: nat)
    requires LastClose(inner, Span(IsDot, inner)) == Some(i)
    ensures IsLongest(inner, labels, value) <==> i < |inner| && labels == inner[..i] && Some(value) == Tail(inner[i + 1..])
  {
    LastIsLongest(inner, i);
    if IsLongest(inner, labels, value) {
      SameLengthSameInner(inner, labels, value, i);
    }
  }

  /** What the greedy labels leave: the longest that let the rest of the line end properly. */
  lemma MatchBracedIff(name: string, inner: string, labels: string, value: string)
    ensures MatchBraced(name, inner) == Some(LineMatch(name, labels, value)) <==> IsLongest(inner, labels, value)
    ensures MatchBraced(name, inner).None? <==> forall l, v :: !IsInner(inner, l, v)
  {
    var close := LastClose(inner, Span(IsDot, inner));
    if close.Some? {
      LastIsLongest(inner, close.value);
      MatchAtLast(name, inner, close.value);
      LongestIsMatch(inner, labels, value, close.value);
    } else {
      NoneCloses(inner);
    }
  }

  lemma NoneCloses(inner: string)
    requires LastClose(inner, Span(IsDot, inner)).None?
    ensures forall l, v :: !IsInner(inner, l, v)
  {
    forall l, v ensures !IsInner(inner, l, v) {
      if IsInner(inner, l, v) {
        NoLongerThanLast(inner, l, v);
      }
    }
  }

  lemma InnerOfLine(name: string, inner: string, labels: string, value: string)
    requires IsName(name)
    ensures IsBraced(name + ("{" + inner), name, labels, value) <==> IsInner(inner, labels, value)
  {
    var line := name + ("{" + inner);
    if IsBraced(line, name, labels, value) {
      var rest :| line == name + ("{" + (labels + ("}" + rest))) && IsTail(rest, value);
      assert line[|name| + 1..] == inner && line[|name| + 1..] == labels + ("}" + rest);
    }
    if IsInner(inner, labels, value) {
      var rest :| inner == labels + ("}" + rest) && IsTail(rest, value);
      assert line == name + ("{" + (labels + ("}" + rest)));
    }
  }

  /**
   A line with labels, exactly: the match is a decomposition of the line, and the one with the longest
   labels; without any decomposition there is no match.
   */
  lemma BracedLineIff(name: string, inner: string, labels: string, value: string)
    requires IsName(name)
    ensures var line := name + ("{" + inner);
            && (MatchLine(line) == Some(LineMatch(name, labels, value)) <==>
                  IsBraced(line, name, labels, value) && forall l, v :: IsBraced(line, name, l, v) ==> |l| <= |labels|)
            && (MatchLine(line).None? <==> forall l, v :: !IsBraced(line, name, l, v))
  {
    BracedLine(name, inner);
    MatchBracedIff(name, inner, labels, value);
    forall l, v ensures IsBraced(name + ("{" + inner), name, l, v) <==> IsInner(inner, l, v) {
      InnerOfLine(name, inner, l, v);
    }
  }

  /** A line without labels, exactly. */
  lemma BareLineIff(name: string, rest: string, value: string)
    requires IsName(name) && (rest == "" || (!NameChar(rest[0]) && rest[0] != '{'))
    ensures MatchLine(name + rest) == Some(LineMatch(name, "", value)) <==> IsBare(name + rest, name, value)
    ensures MatchLine(name + rest).Some? ==> exists v :: IsBare(name + rest, name, v)
  {
    var line := name + rest;
    SpanOf(NameChar, name, rest);
    assert line[0] == name[0];
    assert line[|name|..] == rest && line[..|name|] == name;
    assert MatchLine(line) == MatchBare(name, rest);
    TailIff(rest, value);
    if Tail(rest).Some? {
      TailIff(rest, Tail(rest).value);
      assert IsBare(line, name, Tail(rest).value);
    }
  }

  /** And every match starts with a metric name: the longest run of name characters. */
  lemma MatchStartsWithName(line: string)
    requires MatchLine(line).Some?
    ensures var name := MatchLine(line).value.name;
            IsName(name) && |name| <= |line| && line[..|name|] == name && (|name| < |line| ==> !NameChar(line[|name|]))
  {
    var n := Span(NameChar, line);
    SpanAtLeast(NameChar, line, 1);
    assert line[..n][0] == line[0];
    forall c | c in line[..n] ensures NameChar(c) {
      var i :| 0 <= i < n && line[..n][i] == c;
    }
  }

  /** The inside of a quoted value: no bare quote, and each backslash followed by what it escapes. */
  predicate IsQuotedText(raw: string)
    decreases |raw|
  {
    || raw == ""
    || (raw[0] != '"' && raw[0] != '\\' && IsQuotedText(raw[1..]))
    || (raw[0] == '\\' && |raw| >= 2 && IsDot(raw[1]) && IsQuotedText(raw[2..]))
  }

  /** Where a quoted value ends, exactly. */
  lemma {:induction false} QuotedLengthIff(t: string, n: nat)
    ensures QuotedLength(t) == Some(n) <==> n < |t| && t[n] == '"' && IsQuotedText(t[..n])
    decreases |t|
  {
    if t != "" && n < |t| && n > 0 && t[0] != '"' {
      var step := if t[0] != '\\' then 1 else 2;
      if step <= n {
        QuotedLengthIff(t[step..], n - step);
        assert t[..n][step..] == t[step..][..n - step];
      }
    }
  }

  /** A label at the front of a text, exactly: a name, `="`, quoted text, and the closing quote. */
  lemma LabelAtIff(t: string, m: LabelMatch)
    ensures LabelAt(t) == Some(m) <==>
              && IsLabelName(m.name) && m.length == |m.name| + |m.raw| + 3 <= |t|
              && t[..|m.name|] == m.name && t[|m.name|..|m.name| + 2] == "=\""
              && t[|m.name| + 2..m.length - 1] == m.raw && t[m.length - 1] == '"' && IsQuotedText(m.raw)
  {
    if IsLabelName(m.name) && |m.name| + 2 <= |t| && t[..|m.name|] == m.name && t[|m.name|..|m.name| + 2] == "=\"" {
      LabelAtFront(t, m);
    } else if LabelAt(t).Some? {
      LabelHasName(t);
    }
  }

  lemma LabelAtFront(t: string, m: LabelMatch)
    requires IsLabelName(m.name) && |m.name| + 2 <= |t| && t[..|m.name|] == m.name && t[|m.name|..|m.name| + 2] == "=\""
    ensures LabelAt(t) == Some(m) <==>
              && m.length == |m.name| + |m.raw| + 3 <= |t|
              && t[|m.name| + 2..m.length - 1] == m.raw && t[m.length - 1] == '"' && IsQuotedText(m.raw)
  {
    var quoted := t[|m.name| + 2..];
    assert t == m.name + ("=\"" + quoted);
    LabelAtName(m.name, quoted);
    QuotedLabelIff(quoted, m);
    SameInside(t, quoted, m);
  }

  lemma QuotedLabelIff(quoted: string, m: LabelMatch)
    ensures QuotedLabel(m.name, quoted) == Some(m) <==>
              && m.length == |m.name| + |m.raw| + 3 && |m.raw| < |quoted|
              && quoted[..|m.raw|] == m.raw && quoted[|m.raw|] == '"' && IsQuotedText(m.raw)
  {
    QuotedLengthIff(quoted, |m.raw|);
  }

  lemma SameInside(t: string, quoted: string, m: LabelMatch)
    requires |m.name| + 2 <= |t| && quoted == t[|m.name| + 2..]
    ensures m.length == |m.name| + |m.raw| + 3 ==>
              && (m.length <= |t| <==> |m.raw| < |quoted|)
              && (m.length <= |t| ==> quoted[..|m.raw|] == t[|m.name| + 2..m.length - 1] && quoted[|m.raw|] == t[m.length - 1])
  {
  }

  lemma LabelHasName(t: string)
    requires LabelAt(t).Some?
    ensures var name := LabelAt(t).value.name;
            IsLabelName(name) && |name| + 2 <= |t| && t[..|name|] == name && t[|name|..|name| + 2] == "=\""
  {
    var n := Span(LabelChar, t);
    SpanAtLeast(LabelChar, t, 1);
    assert t[..n][0] == t[0];
    forall c | c in t[..n] ensures LabelChar(c) {
      var i :| 0 <= i < n && t[..n][i] == c;
    }
    assert t[n..n + 2] == [t[n], t[n + 1]];
  }

  /** `trim`: what is left has no blank at either end, and only blanks were taken from around it. */
  lemma TrimMeans(s: string) returns (a: nat, b: nat)
    ensures a <= b <= |s| && Trim(s) == s[a..b]
    ensures AllOf(IsSpace, s[..a]) && AllOf(IsSpace, s[b..])
    ensures a < b ==> !IsSpace(s[a]) && !IsSpace(s[b - 1])
  {
    a := Span(IsSpace, s);
    var t := s[a..];
    var k := TrimEndMeans(t);
    b := a + k;
    assert s[a..b] == t[..k] && s[b..] == t[k..];
    assert a < |s| ==> t[0] == s[a];
  }

  lemma {:induction false} TrimEndMeans(s: string) returns (k: nat)
    ensures k <= |s| && TrimEnd(s) == s[..k] && AllOf(IsSpace, s[k..]) && (k > 0 ==> !IsSpace(s[k - 1]))
  {
    k := |s|;
    assert s[..k] == s;
    if s != "" && IsSpace(s[|s| - 1]) {
      var n := |s| - 1;
      k := TrimEndMeans(s[..n]);
      assert s[..n][..k] == s[..k];
      forall i | 0 <= i < |s| - k ensures IsSpace(s[k..][i]) {
        assert i < n - k ==> s[k..][i] == s[..n][k..][i];
      }
    }
  }

  // ---------- Asking the scrape ----------

  /** A line of that name on which every label asked for is printed with that very value. */
  predicate Asked<V>(l: Line<V>, name: string, labels: Labels) {
    l.Metric? && l.name == name && forall k | k in labels :: Pair(k, labels[k]) in l.pairs
  }

  lemma {:induction false} PrintedPairs(pairs: seq<Pair>, p: Pair)
    requires DistinctNames(pairs)
    ensures p in pairs <==> p.name in LabelsOf(pairs) && LabelsOf(pairs)[p.name] == p.value
  {
    if pairs != [] {
      PrintedPairs(pairs[1..], p);
      NamesOf(pairs[1..], pairs[0].name);
      assert p in pairs <==> p == pairs[0] || p in pairs[1..];
    }
  }

  lemma AskedFits<V>(l: Line<V>, name: string, labels: Labels)
    requires l.Metric? && Printable(l)
    ensures Asked(l, name, labels) <==> Fits(SampleOf(l)[0], name, labels)
  {
    forall k | k in labels
      ensures Pair(k, labels[k]) in l.pairs <==> k in LabelsOf(l.pairs) && LabelsOf(l.pairs)[k] == labels[k]
    {
      PrintedPairs(l.pairs, Pair(k, labels[k]));
    }
  }

  /** The value of the first line printed for that name with at least those labels. */
  function Printed<V>(lines: seq<Line<V>>, name: string, labels: Labels): Option<Value<V>> {
    if lines == [] then None
    else if Asked(lines[0], name, labels) then Some(lines[0].value)
    else Printed(lines[1..], name, labels)
  }

  lemma FirstFitIsHit<V>(samples: seq<Sample<V>>, name: string, labels: Labels, i: nat)
    requires FirstFit(samples, name, labels, i)
    ensures Hit(samples, name, labels) == Some(i)
  {
  }

  lemma FirstSampleDecides<V>(first: Sample<V>, more: seq<Sample<V>>, name: string, labels: Labels)
    ensures SampleValue([first] + more, name, labels)
         == if Fits(first, name, labels) then Some(first.value) else SampleValue(more, name, labels)
  {
    var all, h := [first] + more, Hit(more, name, labels);
    assert forall i :: 0 < i < |all| ==> all[i] == more[i - 1];
    if Fits(first, name, labels) {
      FirstFitIsHit(all, name, labels, 0);
    } else if h.Some? {
      FirstFitIsHit(all, name, labels, h.value + 1);
    } else {
      assert forall i :: 0 <= i < |all| ==> !Fits(all[i], name, labels);
    }
  }

  lemma {:induction false} SamplesAnswer<V>(lines: seq<Line<V>>, name: string, labels: Labels)
    requires AllPrintable(lines)
    ensures SampleValue(SamplesOf(lines), name, labels) == Printed(lines, name, labels)
  {
    if lines != [] {
      SamplesAnswer(lines[1..], name, labels);
      if lines[0].Metric? {
        AskedFits(lines[0], name, labels);
        FirstSampleDecides(SampleOf(lines[0])[0], SamplesOf(lines[1..]), name, labels);
      } else {
        assert [] + SamplesOf(lines[1..]) == SamplesOf(lines[1..]);
      }
    }
  }

  /** What a demo asserts on a scrape is what the host printed. */
  lemma ScrapeAnswers<V(!new)>(num: Numbers<V>, lines: seq<Line<V>>, name: string, labels: Labels)
    requires LawfulNumbers(num) && AllPrintable(lines) && AllReadable(lines)
    ensures SampleValue(ReadLines(num, Split(Show(num, lines))), name, labels) == Printed(lines, name, labels)
  {
    RoundTripIff(num, lines);
    SamplesAnswer(lines, name, labels);
  }

  function Example<V>(key: string, value: string, v: V): Line<V> {
    Metric("up", [Pair(key, value)], Finite(v), "")
  }

  /** A carriage return in a label value loses the sample. */
  lemma ReturnLosesSample<V(!new)>(num: Numbers<V>, v: V)
    requires LawfulNumbers(num)
    ensures ReadLine(num, ShowLine(num, Example("type", "a\rb", v))) == []
  {
    var l := Example("type", "a\rb", v);
    assert !PlainChar(l.pairs[0].value[1]);
    ReadCut(num, l);
  }

  /** A label called `__proto__` is lost from its sample. */
  lemma ProtoLosesLabel<V(!new)>(num: Numbers<V>, v: V)
    requires LawfulNumbers(num)
    ensures ReadLine(num, ShowLine(num, Example("__proto__", "a", v))) == [Sample("up", map[], Finite(v))]
  {
    ReadPlain(num, Example("__proto__", "a", v));
    NothingSet([Pair("__proto__", "a")]);
  }

  lemma NothingSet(pairs: seq<Pair>)
    requires |pairs| == 1 && pairs[0].name == "__proto__"
    ensures ReadLabels(ShowPairs(pairs), map[]) == map[]
  {
    ReadShown(pairs, map[]);
    assert SetAll(map[], pairs) == SetAll(map[], pairs[1..]);
  }
}
