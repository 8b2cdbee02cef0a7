/**
 `countingStorage`: a wrapper that counts every call and remembers, per record type, the last
 write that landed.  The remembering happens in promise continuations, which run later, in the
 order the calls were made; `queue` holds the ones still to run.
 */
module Counting {
  import opened Common
  import opened RecordStore

  /** A write is remembered in the form it arrived in. */
  datatype Payload<S> = Tree(state: S) | Text(json: string)

  function Json<S>(codec: Codec<S>, p: Payload<S>): string {
    match p
    case Tree(state) => codec.stringify(state)
    case Text(json) => json
  }

  datatype Last<S> = Last(key: string, payload: Payload<S>)

  datatype Continuation<S> =
    | Remember(typ: string, key: string, payload: Payload<S>)
    | Forget(typ: string, key: string)

  type Cache<S> = map<string, Last<S>>

  function Resume<S>(last: Cache<S>, k: Continuation<S>): Cache<S> {
    match k
    case Remember(typ, key, payload) => last[typ := Last(key, payload)]
    case Forget(typ, key) => if typ in last && last[typ].key == key then last - {typ} else last
  }

  datatype Call<S> =
    | LoadCall(typ: string, key: string)
    | SaveCall(typ: string, key: string, state: S, expected: Option<nat>)
    | SaveTextCall(typ: string, key: string, json: string, expected: Option<nat>)
    | AppendCall(typ: string, key: string, json: string, expected: Option<nat>)
    | ClearCall(typ: string, key: string, expected: Option<nat>)

  function Forwarded<S>(codec: Codec<S>, c: Call<S>): Command {
    match c
    case LoadCall(typ, key) => Load(typ, key)
    case SaveCall(typ, key, state, expected) => Save(typ, key, codec.stringify(state), expected)
    case SaveTextCall(typ, key, json, expected) => Save(typ, key, json, expected)
    case AppendCall(typ, key, json, expected) => Append(typ, key, json, expected)
    case ClearCall(typ, key, expected) => Clear(typ, key, expected)
  }

  /** What the wrapper hangs on the inner promise; a rejected one runs nothing. */
  function Continue<S>(c: Call<S>, a: Answer): seq<Continuation<S>> {
    if a.Conflict? then []
    else
      match c
      case SaveCall(typ, key, state, _) => [Remember(typ, key, Tree(state))]
      case SaveTextCall(typ, key, json, _) => [Remember(typ, key, Text(json))]
      case ClearCall(typ, key, _) => [Forget(typ, key)]
      case _ => []
  }

  datatype Counts = Counts(loads: nat, saves: nat, appends: nat, clears: nat)

  const ZERO := Counts(0, 0, 0, 0)

  function Count<S>(n: Counts, c: Call<S>): Counts {
    match c
    case LoadCall(_, _) => n.(loads := n.loads + 1)
    case SaveCall(_, _, _, _) => n.(saves := n.saves + 1)
    case SaveTextCall(_, _, _, _) => n.(saves := n.saves + 1)
    case AppendCall(_, _, _, _) => n.(appends := n.appends + 1)
    case ClearCall(_, _, _) => n.(clears := n.clears + 1)
  }

  datatype Wrapper<S> = Wrapper(inner: Store, counts: Counts, last: Cache<S>, queue: seq<Continuation<S>>)

  datatype Step<S> = Called(call: Call<S>) | Turn | Reset

  /** One step; a call answers, a turn runs the oldest pending continuation if there is one. */
  function Advance<S>(codec: Codec<S>, w: Wrapper<S>, step: Step<S>): (Wrapper<S>, Option<Answer>) {
    match step
    case Called(c) =>
      var (inner, a) := RecordStore.Step(w.inner, Forwarded(codec, c));
      (Wrapper(inner, Count(w.counts, c), w.last, w.queue + Continue(c, a)), Some(a))
    case Turn => (if w.queue == [] then w else w.(last := Resume(w.last, w.queue[0]), queue := w.queue[1..]), None)
    case Reset => (w.(counts := ZERO, last := map[]), None)
  }

  // ---------- The wrapper itself ----------

  class CountingStorage<S, E> {
    const inner: TextStorage<S, E>
    /** Whether the inner store exposes `saveText` and `appendText`; if not, neither does the wrapper. */
    const text: bool
    var loads: nat
    var saves: nat
    var appends: nat
    var clears: nat
    var lastByType: Cache<S>
    var queue: seq<Continuation<S>>

    constructor (inner: TextStorage<S, E>, text: bool)
      ensures this.inner == inner && this.text == text
      ensures Abs() == Wrapper(inner.Abs(), ZERO, map[], [])
    {
      this.inner, this.text := inner, text;
      loads, saves, appends, clears := 0, 0, 0, 0;
      lastByType, queue := map[], [];
    }

    ghost function Abs(): Wrapper<S>
      reads this, inner
    {
      Wrapper(inner.Abs(), Counts(loads, saves, appends, clears), lastByType, queue)
    }

    method Load(typ: string, key: string) returns (r: Reading<S, E>)
      modifies this
      ensures Abs() == Advance(inner.codec, old(Abs()), Called(LoadCall(typ, key))).0
      ensures inner.Abs() == old(inner.Abs())
      ensures r == Read(inner.codec, inner.entries, RecordStore.Step(old(inner.Abs()), Command.Load(typ, key)).1.record)
    {
      loads := loads + 1;
      r := inner.Load(typ, key);
    }

    method Save(typ: string, key: string, state: S, expected: Option<nat>) returns (a: Answer)
      modifies this, inner
      ensures (Abs(), Some(a)) == Advance(inner.codec, old(Abs()), Called(SaveCall(typ, key, state, expected)))
      ensures (inner.Abs(), a) == RecordStore.Step(old(inner.Abs()), Command.Save(typ, key, inner.codec.stringify(state), expected))
    {
      assert queue + [] == queue;
      saves := saves + 1;
      a := inner.Save(typ, key, state, expected);
      if !a.Conflict? {
        queue := queue + [Remember(typ, key, Tree(state))];
      }
    }

    method Clear(typ: string, key: string, expected: Option<nat>) returns (a: Answer)
      modifies this, inner
      ensures (Abs(), Some(a)) == Advance(inner.codec, old(Abs()), Called(ClearCall(typ, key, expected)))
      ensures (inner.Abs(), a) == RecordStore.Step(old(inner.Abs()), Command.Clear(typ, key, expected))
    {
      assert queue + [] == queue;
      clears := clears + 1;
      a := inner.Clear(typ, key, expected);
      if !a.Conflict? {
        queue := queue + [Forget(typ, key)];
      }
    }

    method SaveText(typ: string, key: string, json: string, expected: Option<nat>) returns (a: Answer)
      requires text
      modifies this, inner
      ensures (Abs(), Some(a)) == Advance(inner.codec, old(Abs()), Called(SaveTextCall(typ, key, json, expected)))
      ensures (inner.Abs(), a) == RecordStore.Step(old(inner.Abs()), Command.Save(typ, key, json, expected))
    {
      assert queue + [] == queue;
      saves := saves + 1;
      a := inner.SaveText(typ, key, json, expected);
      if !a.Conflict? {
        queue := queue + [Remember(typ, key, Text(json))];
      }
    }

    method AppendText(typ: string, key: string, json: string, expected: Option<nat>) returns (a: Answer)
      requires text
      modifies this, inner
      ensures (Abs(), Some(a)) == Advance(inner.codec, old(Abs()), Called(AppendCall(typ, key, json, expected)))
      ensures (inner.Abs(), a) == RecordStore.Step(old(inner.Abs()), Command.Append(typ, key, json, expected))
    {
      assert queue + [] == queue;
      appends := appends + 1;
      a := inner.AppendText(typ, key, json, expected);
    }

    /** The event loop gives the oldest pending continuation its turn. */
    method RunContinuation()
      modifies this
      ensures Abs() == Advance(inner.codec, old(Abs()), Turn).0
    {
      if queue == [] {
        return;
      }
      var k := queue[0];
      queue := queue[1..];
      match k {
        case Remember(typ, key, payload) =>
          lastByType := lastByType[typ := Last(key, payload)];
        case Forget(typ, key) =>
          if typ in lastByType && lastByType[typ].key == key {
            lastByType := lastByType - {typ};
          }
      }
    }

    /** The text of the last landed write of `typ`; its entries and bytes are read off this text. */
    method LastWrite(typ: string) returns (json: Option<string>)
      ensures json == if typ in Abs().last then Some(Json(inner.codec, Abs().last[typ].payload)) else None
    {
      if typ !in lastByType {
        return None;
      }
      match lastByType[typ].payload {
        case Text(text) => return Some(text);
        case Tree(state) => return Some(inner.codec.stringify(state));
      }
    }

    method ResetCounts()
      modifies this
      ensures Abs() == Advance(inner.codec, old(Abs()), Reset).0
    {
      loads, saves, appends, clears := 0, 0, 0, 0;
      lastByType := map[];
    }
  }

  // ---------- Runs ----------

  datatype Outcome<S> = Outcome(wrapper: Wrapper<S>, answers: seq<Answer>)

  function RunSteps<S>(codec: Codec<S>, steps: seq<Step<S>>): Outcome<S> {
    if steps == [] then Outcome(Wrapper(EMPTY, ZERO, map[], []), [])
    else
      var before := RunSteps(codec, steps[..|steps| - 1]);
      var (w, a) := Advance(codec, before.wrapper, steps[|steps| - 1]);
      Outcome(w, before.answers + if a.Some? then [a.value] else [])
  }

  /** The calls of a run as the unwrapped store would receive them. */
  function Commands<S>(codec: Codec<S>, steps: seq<Step<S>>): seq<Command> {
    if steps == [] then []
    else
      var last := steps[|steps| - 1];
      Commands(codec, steps[..|steps| - 1]) + if last.Called? then [Forwarded(codec, last.call)] else []
  }

  function Answers(trace: seq<Event>): seq<Answer> {
    seq(|trace|, i requires 0 <= i < |trace| => trace[i].answer)
  }

  lemma RunOfPush(commands: seq<Command>, c: Command)
    ensures var before, after := RunOf(commands), RunOf(commands + [c]);
            && after.store == RecordStore.Step(before.store, c).0
            && Answers(after.trace) == Answers(before.trace) + [RecordStore.Step(before.store, c).1]
  {
    assert (commands + [c])[..|commands|] == commands;
  }

  /** The wrapper changes nothing a caller or the inner store can see, whenever its continuations run. */
  lemma {:induction false} WrapperIsTransparent<S>(codec: Codec<S>, steps: seq<Step<S>>)
    ensures var bare := RunOf(Commands(codec, steps));
            && RunSteps(codec, steps).wrapper.inner == bare.store
            && RunSteps(codec, steps).answers == Answers(bare.trace)
  {
    if steps != [] {
      var n := |steps| - 1;
      WrapperIsTransparent(codec, steps[..n]);
      var before := Commands(codec, steps[..n]);
      if steps[n].Called? {
        RunOfPush(before, Forwarded(codec, steps[n].call));
      } else {
        assert before + [] == before;
        assert RunSteps(codec, steps).answers == RunSteps(codec, steps[..n]).answers;
      }
    }
  }

  // ---------- What the counters count ----------

  predicate IsSave<S>(step: Step<S>) {
    step.Called? && (step.call.SaveCall? || step.call.SaveTextCall?)
  }

  predicate IsLoad<S>(step: Step<S>) { step.Called? && step.call.LoadCall? }

  predicate IsAppend<S>(step: Step<S>) { step.Called? && step.call.AppendCall? }

  predicate IsClear<S>(step: Step<S>) { step.Called? && step.call.ClearCall? }

  /** Where the counting of `steps` starts: just after the last reset. */
  function SinceReset<S>(steps: seq<Step<S>>): (n: nat)
    ensures n <= |steps|
    ensures n > 0 ==> steps[n - 1].Reset?
    ensures forall i :: n <= i < |steps| ==> !steps[i].Reset?
  {
    if steps == [] || steps[|steps| - 1].Reset? then |steps| else SinceReset(steps[..|steps| - 1])
  }

  /** The positions from `n` on of the steps that pass the test. */
  ghost function Positions<S>(steps: seq<Step<S>>, n: nat, test: Step<S> -> bool): set<nat> {
    set i | n <= i < |steps| && test(steps[i])
  }

  lemma PositionsPush<S>(steps: seq<Step<S>>, step: Step<S>, test: Step<S> -> bool)
    requires !step.Reset?
    ensures SinceReset(steps + [step]) == SinceReset(steps)
    ensures |Positions(steps + [step], SinceReset(steps), test)|
         == |Positions(steps, SinceReset(steps), test)| + if test(step) then 1 else 0
  {
    var n, all := SinceReset(steps), steps + [step];
    assert all[..|steps|] == steps;
    assert Positions(all, n, test) == Positions(steps, n, test) + if test(step) then {|steps|} else {};
  }

  lemma NoPositions<S>(steps: seq<Step<S>>, test: Step<S> -> bool)
    ensures |Positions(steps, |steps|, test)| == 0
  {
    assert Positions(steps, |steps|, test) == {};
  }

  /** How many steps since the last reset pass the test. */
  ghost function HowMany<S>(steps: seq<Step<S>>, test: Step<S> -> bool): nat {
    |Positions(steps, SinceReset(steps), test)|
  }

  /**
   After every run each counter is the number of calls of its kind since the last reset, the rejected
   ones among them; a save counts as one whichever form it arrived in.
   */
  lemma {:induction false} CountersCountCalls<S>(codec: Codec<S>, steps: seq<Step<S>>)
    ensures RunSteps(codec, steps).wrapper.counts.loads == HowMany(steps, IsLoad)
    ensures RunSteps(codec, steps).wrapper.counts.saves == HowMany(steps, IsSave)
    ensures RunSteps(codec, steps).wrapper.counts.appends == HowMany(steps, IsAppend)
    ensures RunSteps(codec, steps).wrapper.counts.clears == HowMany(steps, IsClear)
  {
    if steps == [] || steps[|steps| - 1].Reset? {
      NoPositions(steps, IsLoad);
      NoPositions(steps, IsSave);
      NoPositions(steps, IsAppend);
      NoPositions(steps, IsClear);
    } else {
      var before, step := steps[..|steps| - 1], steps[|steps| - 1];
      assert before + [step] == steps;
      CountersCountCalls(codec, before);
      PositionsPush(before, step, IsLoad);
      PositionsPush(before, step, IsSave);
      PositionsPush(before, step, IsAppend);
      PositionsPush(before, step, IsClear);
    }
  }

  // ---------- What the cache reports ----------

  /** The cache once every pending continuation has run. */
  function Drained<S>(last: Cache<S>, queue: seq<Continuation<S>>): Cache<S> {
    if queue == [] then last
    else Resume(Drained(last, queue[..|queue| - 1]), queue[|queue| - 1])
  }

  lemma {:induction false} DrainedFromHead<S>(last: Cache<S>, queue: seq<Continuation<S>>)
    requires queue != []
    ensures Drained(Resume(last, queue[0]), queue[1..]) == Drained(last, queue)
  {
    if |queue| > 1 {
      DrainedFromHead(last, queue[..|queue| - 1]);
      assert queue[1..][..|queue| - 2] == queue[..|queue| - 1][1..];
    }
  }

  /** Starting with less remembered, the queue never ends up reporting anything different. */
  lemma {:induction false} DrainedFromEmpty<S>(last: Cache<S>, queue: seq<Continuation<S>>, typ: string)
    requires typ in Drained(map[], queue)
    ensures typ in Drained(last, queue) && Drained(last, queue)[typ] == Drained(map[], queue)[typ]
  {
    var n := |queue| - 1;
    if typ in Drained(map[], queue[..n]) {
      DrainedFromEmpty(last, queue[..n], typ);
    }
  }

  lemma DrainedPush<S>(last: Cache<S>, queue: seq<Continuation<S>>, k: Continuation<S>)
    ensures Drained(last, queue + [k]) == Resume(Drained(last, queue), k)
  {
    assert (queue + [k])[..|queue|] == queue;
  }

  /** No two of the types can have records that share an id. */
  predicate NoClash(types: set<string>) {
    forall t1, t2 | t1 in types && t2 in types && t1 != t2 :: !Clash(t1, t2)
  }

  predicate NamesOnly<S>(steps: seq<Step<S>>, types: set<string>) {
    forall i | 0 <= i < |steps| && steps[i].Called? :: steps[i].call.typ in types
  }

  predicate Held<S>(codec: Codec<S>, s: Store, typ: string, last: Last<S>) {
    Id(typ, last.key) in s.records && s.records[Id(typ, last.key)].json == Json(codec, last.payload)
  }

  /** Every write the drained cache reports is one the store holds. */
  ghost predicate Reported<S>(codec: Codec<S>, types: set<string>, w: Wrapper<S>) {
    var d := Drained(w.last, w.queue);
    forall typ :: typ in d ==> typ in types && Held(codec, w.inner, typ, d[typ])
  }

  /** A landed command moves no other record than its own. */
  lemma HeldElsewhere<S>(codec: Codec<S>, s: Store, c: Call<S>, typ: string, last: Last<S>)
    requires Held(codec, s, typ, last)
    requires Id(typ, last.key) != Id(c.typ, c.key) || Continue(c, RecordStore.Step(s, Forwarded(codec, c)).1) == []
    ensures Held(codec, RecordStore.Step(s, Forwarded(codec, c)).0, typ, last)
  {
  }

  /** A write that lands is held, and reported of its own type. */
  lemma LandedIsHeld<S>(codec: Codec<S>, s: Store, c: Call<S>, k: Continuation<S>)
    requires Continue(c, RecordStore.Step(s, Forwarded(codec, c)).1) == [k] && k.Remember?
    ensures k.typ == c.typ && Held(codec, RecordStore.Step(s, Forwarded(codec, c)).0, c.typ, Last(c.key, k.payload))
    ensures k.key == c.key
  {
  }

  /** A report of before that still stands is of a record the call has not written. */
  lemma OlderStaysHeld<S>(codec: Codec<S>, types: set<string>, d: Cache<S>, s: Store, c: Call<S>, typ: string)
    requires NoClash(types) && c.typ in types && typ in types && typ in d && Held(codec, s, typ, d[typ])
    requires var ks := Continue(c, RecordStore.Step(s, Forwarded(codec, c)).1);
             ks != [] ==> typ in Resume(d, ks[0]) && Resume(d, ks[0])[typ] == d[typ] && (ks[0].Remember? ==> typ != c.typ)
    ensures Held(codec, RecordStore.Step(s, Forwarded(codec, c)).0, typ, d[typ])
  {
    IdInjective(typ, d[typ].key, c.typ, c.key);
    HeldElsewhere(codec, s, c, typ, d[typ]);
  }

  lemma CallKeepsReported<S>(codec: Codec<S>, types: set<string>, w: Wrapper<S>, c: Call<S>)
    requires NoClash(types) && c.typ in types && Reported(codec, types, w)
    ensures Reported(codec, types, Advance(codec, w, Called(c)).0)
  {
    var w' := Advance(codec, w, Called(c)).0;
    var ks := Continue(c, RecordStore.Step(w.inner, Forwarded(codec, c)).1);
    var d, d' := Drained(w.last, w.queue), Drained(w'.last, w'.queue);
    DrainedMore(w.last, w.queue, ks);
    forall typ | typ in d'
      ensures typ in types && Held(codec, w'.inner, typ, d'[typ])
    {
      if ks != [] && ks[0].Remember? && typ == c.typ {
        LandedIsHeld(codec, w.inner, c, ks[0]);
      } else {
        OlderStaysHeld(codec, types, d, w.inner, c, typ);
      }
    }
  }

  lemma DrainedMore<S>(last: Cache<S>, queue: seq<Continuation<S>>, ks: seq<Continuation<S>>)
    requires |ks| <= 1
    ensures Drained(last, queue + ks) == if ks == [] then Drained(last, queue) else Resume(Drained(last, queue), ks[0])
  {
    if ks == [] {
      assert queue + ks == queue;
    } else {
      assert ks == [ks[0]];
      DrainedPush(last, queue, ks[0]);
    }
  }

  lemma StepKeepsReported<S>(codec: Codec<S>, types: set<string>, w: Wrapper<S>, step: Step<S>)
    requires NoClash(types) && Reported(codec, types, w) && (step.Called? ==> step.call.typ in types)
    ensures Reported(codec, types, Advance(codec, w, step).0)
  {
    match step {
      case Called(c) => CallKeepsReported(codec, types, w, c);
      case Turn => if w.queue != [] { DrainedFromHead(w.last, w.queue); }
      case Reset =>
        forall typ | typ in Drained(map[], w.queue)
          ensures typ in Drained(w.last, w.queue) && Drained(w.last, w.queue)[typ] == Drained(map[], w.queue)[typ]
        {
          DrainedFromEmpty(w.last, w.queue, typ);
        }
    }
  }

  lemma {:induction false} ReportedAlways<S>(codec: Codec<S>, types: set<string>, steps: seq<Step<S>>)
    requires NoClash(types) && NamesOnly(steps, types)
    ensures Reported(codec, types, RunSteps(codec, steps).wrapper)
  {
    if steps != [] {
      var n := |steps| - 1;
      ReportedAlways(codec, types, steps[..n]);
      StepKeepsReported(codec, types, RunSteps(codec, steps[..n]).wrapper, steps[n]);
    }
  }

  /** Once every continuation has run, a reported last write is a text the inner store holds right now. */
  ghost predicate Truthful<S>(codec: Codec<S>, w: Wrapper<S>) {
    w.queue == [] ==> forall typ :: typ in w.last ==> Held(codec, w.inner, typ, w.last[typ])
  }

  /**
   Whatever calls, rejected writes, clears, appends and resets came before, in any interleaving
   with the continuations: as long as no two types of the run clash, what is reported is held.
   */
  lemma LastWriteIsHeld<S>(codec: Codec<S>, types: set<string>, steps: seq<Step<S>>)
    requires NoClash(types) && NamesOnly(steps, types)
    ensures Truthful(codec, RunSteps(codec, steps).wrapper)
  {
    ReportedAlways(codec, types, steps);
    var w := RunSteps(codec, steps).wrapper;
    assert w.queue == [] ==> Drained(w.last, w.queue) == w.last;
  }

  /** Two types that clash: writing the second one's record overwrites what is reported of the first. */
  lemma ClashBreaksTheReport<S>(codec: Codec<S>, t1: string, t2: string) returns (steps: seq<Step<S>>)
    requires t1 != t2 && Clash(t1, t2)
    ensures NamesOnly(steps, {t1, t2}) && !Truthful(codec, RunSteps(codec, steps).wrapper)
  {
    var k1, k2 := KeysThatClash(t1, t2);
    var s1: Step<S> := Called(SaveTextCall(t1, k1, "1", None));
    var s2: Step<S> := Called(SaveTextCall(t2, k2, "2", Some(1)));
    steps := [s1, s2, Turn, Turn];
    var w := AfterOverwrite(codec, t1, k1, t2, k2, steps);
    assert w.last[t1] == Last(k1, Text("1"));
  }

  lemma AfterOverwrite<S>(codec: Codec<S>, t1: string, k1: string, t2: string, k2: string, steps: seq<Step<S>>)
    returns (w: Wrapper<S>)
    requires t1 != t2 && Id(t1, k1) == Id(t2, k2)
    requires steps == [Called(SaveTextCall(t1, k1, "1", None)), Called(SaveTextCall(t2, k2, "2", Some(1))), Turn, Turn]
    ensures w == RunSteps(codec, steps).wrapper && w.queue == []
    ensures w.last == map[t1 := Last(k1, Text("1")), t2 := Last(k2, Text("2"))]
    ensures w.inner.records == map[Id(t1, k1) := Record("2", 2, [])]
  {
    var start: Wrapper<S> := Wrapper(EMPTY, ZERO, map[], []);
    var w1 := Advance(codec, start, steps[0]).0;
    var w2 := Advance(codec, w1, steps[1]).0;
    var w3 := Advance(codec, w2, Turn).0;
    assert w2.queue == [Remember(t1, k1, Text("1")), Remember(t2, k2, Text("2"))];
    assert steps[..3][..2] == steps[..2] && steps[..2][..1] == steps[..1] && steps[..1][..0] == [];
    assert RunSteps(codec, steps[..1]).wrapper == w1;
    assert RunSteps(codec, steps[..2]).wrapper == w2;
    assert RunSteps(codec, steps[..3]).wrapper == w3;
    w := Advance(codec, w3, Turn).0;
  }

  /** The report can be relied upon, over every run that names only these types, exactly if no two of them clash. */
  lemma ReportHoldsIffNoClash<S(!new)>(codec: Codec<S>, types: set<string>)
    ensures (forall steps: seq<Step<S>> | NamesOnly(steps, types) :: Truthful(codec, RunSteps(codec, steps).wrapper))
       <==> NoClash(types)
  {
    if NoClash(types) {
      forall steps: seq<Step<S>> | NamesOnly(steps, types)
        ensures Truthful(codec, RunSteps(codec, steps).wrapper)
      {
        LastWriteIsHeld(codec, types, steps);
      }
    } else {
      var t1, t2 :| t1 in types && t2 in types && t1 != t2 && Clash(t1, t2);
      var steps := ClashBreaksTheReport(codec, t1, t2);
      assert NamesOnly(steps, types);
    }
  }

  // ---------- What is remembered, from the history ----------

  /** Every continuation of the run, in the order of the calls. */
  function Continuations<S>(codec: Codec<S>, steps: seq<Step<S>>): seq<Continuation<S>> {
    if steps == [] then []
    else
      var before, step := steps[..|steps| - 1], steps[|steps| - 1];
      Continuations(codec, before) +
        if step.Called? then Continue(step.call, RecordStore.Step(RunSteps(codec, before).wrapper.inner, Forwarded(codec, step.call)).1)
        else []
  }

  /** How many of them have run: one for each turn that found one. */
  function Ran<S>(codec: Codec<S>, steps: seq<Step<S>>): nat {
    if steps == [] then 0
    else
      var before := steps[..|steps| - 1];
      Ran(codec, before) + if steps[|steps| - 1].Turn? && RunSteps(codec, before).wrapper.queue != [] then 1 else 0
  }

  /** A write that is still remembered when all of `ks` have run: later ones only forget other records. */
  predicate Standing<S>(ks: seq<Continuation<S>>, typ: string, i: int) {
    && 0 <= i < |ks| && ks[i].Remember? && ks[i].typ == typ
    && forall j | i < j < |ks| && ks[j].typ == typ :: ks[j].Forget? && ks[j].key != ks[i].key
  }

  lemma {:induction false} DrainedIsStanding<S>(ks: seq<Continuation<S>>, typ: string) returns (i: int)
    ensures typ in Drained(map[], ks) <==> Standing(ks, typ, i)
    ensures Standing(ks, typ, i) ==> Drained(map[], ks)[typ] == Last(ks[i].key, ks[i].payload)
    ensures (exists k :: Standing(ks, typ, k)) ==> Standing(ks, typ, i)
  {
    i := -1;
    if ks != [] {
      var n := |ks| - 1;
      i := DrainedIsStanding(ks[..n], typ);
      if ks[n].Remember? && ks[n].typ == typ {
        i := n;
      }
      forall k | Standing(ks, typ, k) && k < n ensures Standing(ks[..n], typ, k) {
      }
    }
  }

  /** The queue holds the continuations still to run, and the cache what those from `from` on have left. */
  ghost predicate Follows<S>(w: Wrapper<S>, all: seq<Continuation<S>>, from: nat, ran: nat) {
    from <= ran <= |all| && w.queue == all[ran..] && w.last == Drained(map[], all[from..ran])
  }

  lemma CallFollows<S>(codec: Codec<S>, w: Wrapper<S>, c: Call<S>, all: seq<Continuation<S>>, from: nat, ran: nat)
    requires Follows(w, all, from, ran)
    ensures Follows(Advance(codec, w, Called(c)).0, all + Continue(c, RecordStore.Step(w.inner, Forwarded(codec, c)).1), from, ran)
  {
    var more := Continue(c, RecordStore.Step(w.inner, Forwarded(codec, c)).1);
    assert (all + more)[ran..] == all[ran..] + more && (all + more)[from..ran] == all[from..ran];
  }

  lemma TurnFollows<S>(codec: Codec<S>, w: Wrapper<S>, all: seq<Continuation<S>>, from: nat, ran: nat)
    requires Follows(w, all, from, ran)
    ensures Follows(Advance(codec, w, Turn).0, all, from, ran + if w.queue != [] then 1 else 0)
  {
    if w.queue != [] {
      assert all[from..ran + 1] == all[from..ran] + [all[ran]];
      DrainedPush(map[], all[from..ran], all[ran]);
      assert w.queue[1..] == all[ran + 1..];
    }
  }

  lemma ResetFollows<S>(codec: Codec<S>, w: Wrapper<S>, all: seq<Continuation<S>>, from: nat, ran: nat)
    requires Follows(w, all, from, ran)
    ensures Follows(Advance(codec, w, Reset).0, all, ran, ran)
  {
  }

  lemma ResetPoint<S>(steps: seq<Step<S>>)
    requires steps != []
    ensures steps[..SinceReset(steps)] ==
              if steps[|steps| - 1].Reset? then steps else steps[..|steps| - 1][..SinceReset(steps[..|steps| - 1])]
  {
  }

  lemma {:induction false} CacheIsWhatRan<S>(codec: Codec<S>, steps: seq<Step<S>>)
    ensures Follows(RunSteps(codec, steps).wrapper, Continuations(codec, steps),
                    Ran(codec, steps[..SinceReset(steps)]), Ran(codec, steps))
  {
    if steps != [] {
      var before, step := steps[..|steps| - 1], steps[|steps| - 1];
      CacheIsWhatRan(codec, before);
      ResetPoint(steps);
      var w, all := RunSteps(codec, before).wrapper, Continuations(codec, before);
      var from, ran := Ran(codec, before[..SinceReset(before)]), Ran(codec, before);
      match step {
        case Called(c) => CallFollows(codec, w, c, all, from, ran);
        case Turn =>
          TurnFollows(codec, w, all, from, ran);
          assert all + [] == all;
        case Reset =>
          ResetFollows(codec, w, all, from, ran);
          assert all + [] == all;
      }
    }
  }

  /**
   The last write reported at any moment of any run: among the continuations that have run since the
   last reset, the last one that remembers a write of the type, unless one after it forgets that record.
   */
  lemma LastWriteFromHistory<S>(codec: Codec<S>, steps: seq<Step<S>>, typ: string)
    ensures Ran(codec, steps[..SinceReset(steps)]) <= Ran(codec, steps) <= |Continuations(codec, steps)|
    ensures var w := RunSteps(codec, steps).wrapper;
            var ks := Continuations(codec, steps)[Ran(codec, steps[..SinceReset(steps)])..Ran(codec, steps)];
            && (typ in w.last <==> exists i :: Standing(ks, typ, i))
            && forall i :: Standing(ks, typ, i) ==> typ in w.last && w.last[typ] == Last(ks[i].key, ks[i].payload)
  {
    CacheIsWhatRan(codec, steps);
    var ks := Continuations(codec, steps)[Ran(codec, steps[..SinceReset(steps)])..Ran(codec, steps)];
    var i := DrainedIsStanding(ks, typ);
    forall k | Standing(ks, typ, k) ensures k == i {
      assert Standing(ks, typ, i);
    }
  }

  // ---------- How long a landed write stays reported ----------

  /** The step neither lands another write of `typ`, nor clears this record, nor resets the cache. */
  predicate Undisturbed<S>(codec: Codec<S>, w: Wrapper<S>, step: Step<S>, typ: string, key: string) {
    match step
    case Reset => false
    case Turn => true
    case Called(c) =>
      || RecordStore.Step(w.inner, Forwarded(codec, c)).1.Conflict?
      || match c
         case SaveCall(t, _, _, _) => t != typ
         case SaveTextCall(t, _, _, _) => t != typ
         case ClearCall(t, k, _) => t != typ || k != key
         case _ => true
  }

  /** The wrapper after further steps. */
  function After<S>(codec: Codec<S>, w: Wrapper<S>, steps: seq<Step<S>>): Wrapper<S>
    decreases |steps|
  {
    if steps == [] then w else After(codec, Advance(codec, w, steps[0]).0, steps[1..])
  }

  /** None of the steps disturbs the write. */
  predicate UndisturbedThrough<S>(codec: Codec<S>, w: Wrapper<S>, steps: seq<Step<S>>, typ: string, key: string)
    decreases |steps|
  {
    steps != [] ==>
      Undisturbed(codec, w, steps[0], typ, key) && UndisturbedThrough(codec, Advance(codec, w, steps[0]).0, steps[1..], typ, key)
  }

  lemma UndisturbedStep<S>(codec: Codec<S>, w: Wrapper<S>, step: Step<S>, typ: string, last: Last<S>)
    requires typ in Drained(w.last, w.queue) && Drained(w.last, w.queue)[typ] == last
    requires Undisturbed(codec, w, step, typ, last.key)
    ensures var w' := Advance(codec, w, step).0;
            typ in Drained(w'.last, w'.queue) && Drained(w'.last, w'.queue)[typ] == last
  {
    match step {
      case Called(c) =>
        var ks := Continue(c, RecordStore.Step(w.inner, Forwarded(codec, c)).1);
        if ks == [] {
          assert w.queue + ks == w.queue;
        } else {
          DrainedPush(w.last, w.queue, ks[0]);
        }
      case Turn => if w.queue != [] { DrainedFromHead(w.last, w.queue); }
    }
  }

  /** A remembered write stays what the drained cache reports through any number of undisturbing steps. */
  lemma {:induction false} StaysReported<S>(codec: Codec<S>, w: Wrapper<S>, steps: seq<Step<S>>, typ: string, last: Last<S>)
    requires typ in Drained(w.last, w.queue) && Drained(w.last, w.queue)[typ] == last
    requires UndisturbedThrough(codec, w, steps, typ, last.key)
    ensures var w' := After(codec, w, steps);
            typ in Drained(w'.last, w'.queue) && Drained(w'.last, w'.queue)[typ] == last
    decreases |steps|
  {
    if steps != [] {
      UndisturbedStep(codec, w, steps[0], typ, last);
      StaysReported(codec, Advance(codec, w, steps[0]).0, steps[1..], typ, last);
    }
  }

  lemma SaveIsReported<S>(codec: Codec<S>, w: Wrapper<S>, c: Call<S>) returns (last: Last<S>)
    requires c.SaveCall? || c.SaveTextCall?
    requires !RecordStore.Step(w.inner, Forwarded(codec, c)).1.Conflict?
    ensures var d := Drained(w.last, Advance(codec, w, Called(c)).0.queue); c.typ in d && d[c.typ] == last
    ensures last.key == c.key && Json(codec, last.payload) == Forwarded(codec, c).json
  {
    var a := RecordStore.Step(w.inner, Forwarded(codec, c)).1;
    var k := Continue(c, a)[0];
    DrainedPush(w.last, w.queue, k);
    last := Last(c.key, k.payload);
  }

  /**
   The other direction: a save that lands is what the wrapper reports once its continuations have
   run, however many steps later, until another write of its type lands, its record is cleared or
   the counts are reset.
   */
  lemma LandedWriteIsReported<S>(codec: Codec<S>, w: Wrapper<S>, c: Call<S>, more: seq<Step<S>>)
    requires c.SaveCall? || c.SaveTextCall?
    requires !RecordStore.Step(w.inner, Forwarded(codec, c)).1.Conflict?
    requires UndisturbedThrough(codec, Advance(codec, w, Called(c)).0, more, c.typ, c.key)
    ensures var w' := After(codec, Advance(codec, w, Called(c)).0, more);
            w'.queue == [] ==>
              && c.typ in w'.last
              && w'.last[c.typ].key == c.key && Json(codec, w'.last[c.typ].payload) == Forwarded(codec, c).json
  {
    var last := SaveIsReported(codec, w, c);
    StaysReported(codec, Advance(codec, w, Called(c)).0, more, c.typ, last);
  }
}
