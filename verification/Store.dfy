/**
 The two compare-and-swap record stores of `host-fixture.ts`: `stringifyStorage`,
 and `textStorage` with its append log.  `Store` and `Step` specify the text store;
 `TreeStore` and `TreeStep` the other one.  The classes are the stores themselves.
 */
module RecordStore {
  import opened Common

  datatype Record = Record(json: string, etag: nat, log: seq<string>)

  datatype Store = Store(records: map<string, Record>, counter: nat)

  const EMPTY := Store(map[], 0)

  /** The key a record is filed under. */
  function Id(typ: string, key: string): string {
    typ + ['\0'] + key
  }

  /** The etag a caller must present: `None` is the original's `null`, "no record". */
  function Current(s: Store, id: string): Option<nat> {
    if id in s.records then Some(s.records[id].etag) else None
  }

  datatype Command =
    | Load(typ: string, key: string)
    | Save(typ: string, key: string, json: string, expected: Option<nat>)
    | Append(typ: string, key: string, json: string, expected: Option<nat>)
    | Clear(typ: string, key: string, expected: Option<nat>)
  {
    function Slot(): string { Id(typ, key) }
  }

  datatype Answer =
    | Loaded(record: Option<Record>)
    | Issued(etag: nat)
    | Cleared
    | Conflict

  function Put(s: Store, id: string, json: string, expected: Option<nat>): (Store, Answer) {
    if Current(s, id) != expected then (s, Conflict)
    else (Store(s.records[id := Record(json, s.counter + 1, [])], s.counter + 1), Issued(s.counter + 1))
  }

  function AppendTo(s: Store, id: string, json: string, expected: Option<nat>): (Store, Answer) {
    if id !in s.records || Some(s.records[id].etag) != expected then (s, Conflict)
    else
      var r := s.records[id];
      (Store(s.records[id := Record(r.json, s.counter + 1, r.log + [json])], s.counter + 1), Issued(s.counter + 1))
  }

  function Remove(s: Store, id: string, expected: Option<nat>): (Store, Answer) {
    if id !in s.records && expected == None then (s, Cleared)
    else if Current(s, id) != expected then (s, Conflict)
    else (s.(records := s.records - {id}), Cleared)
  }

  function Step(s: Store, c: Command): (Store, Answer) {
    match c
    case Load(_, _) => (s, Loaded(if c.Slot() in s.records then Some(s.records[c.Slot()]) else None))
    case Save(_, _, json, expected) => Put(s, c.Slot(), json, expected)
    case Append(_, _, json, expected) => AppendTo(s, c.Slot(), json, expected)
    case Clear(_, _, expected) => Remove(s, c.Slot(), expected)
  }

  // ---------- Record ids ----------

  predicate NulFree(s: string) {
    '\0' !in s
  }

  /** One type, with the separator after it, is a prefix of the other. */
  predicate Clash(t1: string, t2: string) {
    t1 + "\0" <= t2 + "\0" || t2 + "\0" <= t1 + "\0"
  }

  lemma SharedIdMeansClash(t1: string, k1: string, t2: string, k2: string)
    requires Id(t1, k1) == Id(t2, k2)
    ensures Clash(t1, t2)
  {
    var id := Id(t1, k1);
    assert t1 + "\0" == id[..|t1| + 1] && t2 + "\0" == id[..|t2| + 1];
  }

  lemma KeysThatClash(t1: string, t2: string) returns (k1: string, k2: string)
    requires Clash(t1, t2)
    ensures Id(t1, k1) == Id(t2, k2)
  {
    if t1 + "\0" <= t2 + "\0" {
      k1, k2 := (t2 + "\0")[|t1| + 1..], "";
      assert Id(t1, k1) == t2 + "\0" == Id(t2, k2);
    } else {
      k1, k2 := "", (t1 + "\0")[|t2| + 1..];
      assert Id(t2, k2) == t1 + "\0" == Id(t1, k1);
    }
  }

  ghost predicate ShareAnId(t1: string, t2: string) {
    exists k1, k2 :: Id(t1, k1) == Id(t2, k2)
  }

  /** Records of two types can share an id exactly if the types clash. */
  lemma ShareAnIdIffClash(t1: string, t2: string)
    ensures ShareAnId(t1, t2) <==> Clash(t1, t2)
  {
    if ShareAnId(t1, t2) {
      var k1, k2 :| Id(t1, k1) == Id(t2, k2);
      SharedIdMeansClash(t1, k1, t2, k2);
    }
    if Clash(t1, t2) {
      var k1, k2 := KeysThatClash(t1, t2);
    }
  }

  /** Where two types do not clash, their records share an id only if they are the same record. */
  lemma IdInjective(t1: string, k1: string, t2: string, k2: string)
    requires t1 == t2 || !Clash(t1, t2)
    ensures Id(t1, k1) == Id(t2, k2) <==> t1 == t2 && k1 == k2
  {
    if Id(t1, k1) == Id(t2, k2) {
      SharedIdMeansClash(t1, k1, t2, k2);
      assert Id(t1, k1)[|t1| + 1..] == k1 && Id(t2, k2)[|t2| + 1..] == k2;
    }
  }

  /** Types without a NUL never clash. */
  lemma NulFreeTypesNeverClash(t1: string, t2: string)
    requires NulFree(t1) && NulFree(t2) && t1 != t2
    ensures !Clash(t1, t2)
  {
    var a, b := t1 + "\0", t2 + "\0";
    if |t1| < |t2| {
      assert a[|t1|] == '\0' && b[|t1|] == t2[|t1|];
    } else if |t2| < |t1| {
      assert b[|t2|] == '\0' && a[|t2|] == t1[|t2|];
    } else {
      assert a[..|t1|] == t1 && b[..|t2|] == t2;
    }
  }

  // ---------- Runs ----------

  datatype Event = Event(command: Command, answer: Answer)

  /** A store after a run from empty, and everything it answered. */
  datatype Run = Run(store: Store, trace: seq<Event>)

  function Extend(r: Run, c: Command): Run {
    var (s, a) := Step(r.store, c);
    Run(s, r.trace + [Event(c, a)])
  }

  function RunOf(commands: seq<Command>): (r: Run)
    ensures |r.trace| == |commands|
    ensures forall i :: 0 <= i < |commands| ==> r.trace[i].command == commands[i]
  {
    if commands == [] then Run(EMPTY, [])
    else Extend(RunOf(commands[..|commands| - 1]), commands[|commands| - 1])
  }

  /** The command consumed `etag`: it changed the record the etag named. */
  predicate Consumes(e: Event, etag: nat) {
    && !e.command.Load?
    && !e.answer.Conflict?
    && e.command.expected == Some(etag)
  }

  /** Every live record carries an etag of its own, and all issued so far lie below the counter. */
  ghost predicate OwnEtags(r: Run) {
    && (forall id :: id in r.store.records ==> 1 <= r.store.records[id].etag <= r.store.counter)
    && (forall id1, id2 :: id1 in r.store.records && id2 in r.store.records && id1 != id2 ==>
          r.store.records[id1].etag != r.store.records[id2].etag)
  }

  ghost predicate Increasing(r: Run) {
    && (forall i :: 0 <= i < |r.trace| && r.trace[i].answer.Issued? ==> r.trace[i].answer.etag <= r.store.counter)
    && (forall i, j :: 0 <= i < j < |r.trace| && r.trace[i].answer.Issued? && r.trace[j].answer.Issued? ==>
          r.trace[i].answer.etag < r.trace[j].answer.etag)
  }

  /** A consumed etag names no live record, so nothing can consume it again. */
  ghost predicate Spent(r: Run) {
    && (forall i, e: nat :: 0 <= i < |r.trace| && Consumes(r.trace[i], e) ==>
          e <= r.store.counter && forall id :: id in r.store.records ==> r.store.records[id].etag != e)
    && (forall i, j, e: nat :: 0 <= i < j < |r.trace| && Consumes(r.trace[i], e) ==> !Consumes(r.trace[j], e))
  }

  /** Only the commanded record can change, and only to a fresh etag. */
  lemma StepFrame(s: Store, c: Command)
    ensures var (s', a) := Step(s, c);
            && s.counter <= s'.counter
            && (forall id :: id in s'.records ==>
                  (id in s.records && s'.records[id] == s.records[id]) || (id == c.Slot() && s'.records[id].etag == s'.counter == s.counter + 1))
            && (a.Issued? ==> a.etag == s'.counter == s.counter + 1)
            && (forall e: nat :: Consumes(Event(c, a), e) ==>
                  c.Slot() in s.records && s.records[c.Slot()].etag == e
                  && (c.Slot() in s'.records ==> s'.records[c.Slot()].etag == s.counter + 1))
  {
  }

  lemma OwnEtagsStep(r: Run, c: Command)
    requires OwnEtags(r)
    ensures OwnEtags(Extend(r, c))
  {
    StepFrame(r.store, c);
  }

  lemma IncreasingStep(r: Run, c: Command)
    requires Increasing(r)
    ensures Increasing(Extend(r, c))
  {
    StepFrame(r.store, c);
    assert forall i :: 0 <= i < |r.trace| ==> Extend(r, c).trace[i] == r.trace[i];
  }

  lemma SpentStep(r: Run, c: Command)
    requires OwnEtags(r) && Spent(r)
    ensures Spent(Extend(r, c))
  {
    StepFrame(r.store, c);
    var r' := Extend(r, c);
    var n := |r.trace|;
    assert forall i :: 0 <= i < n ==> r'.trace[i] == r.trace[i];
    forall i, e: nat | 0 <= i < |r'.trace| && Consumes(r'.trace[i], e)
      ensures e <= r'.store.counter && forall id :: id in r'.store.records ==> r'.store.records[id].etag != e
    {
      if i < n {
        assert Consumes(r.trace[i], e);
      } else {
        assert r.store.records[c.Slot()].etag == e;
      }
    }
  }

  lemma {:induction false} EtagInvariants(commands: seq<Command>)
    ensures var r := RunOf(commands); OwnEtags(r) && Increasing(r) && Spent(r)
  {
    if commands != [] {
      var last := |commands| - 1;
      EtagInvariants(commands[..last]);
      var before := RunOf(commands[..last]);
      OwnEtagsStep(before, commands[last]);
      IncreasingStep(before, commands[last]);
      SpentStep(before, commands[last]);
    }
  }

  /** No etag is issued twice: not for another key, not after a clear. */
  lemma EtagsNeverReissued(commands: seq<Command>, i: nat, j: nat)
    requires i < j < |commands|
    requires RunOf(commands).trace[i].answer.Issued? && RunOf(commands).trace[j].answer.Issued?
    ensures RunOf(commands).trace[i].answer.etag < RunOf(commands).trace[j].answer.etag
  {
    EtagInvariants(commands);
  }

  /** A numeric etag admits at most one write, append or clear, whoever presents it and wherever. */
  lemma OneWritePerEtag(commands: seq<Command>, i: nat, j: nat, etag: nat)
    requires i < |commands| && j < |commands|
    requires Consumes(RunOf(commands).trace[i], etag) && Consumes(RunOf(commands).trace[j], etag)
    ensures i == j
  {
    EtagInvariants(commands);
  }

  // ---------- What a record holds, read off the trace ----------

  predicate Wrote(e: Event, id: string) {
    e.command.Slot() == id && !e.command.Load? && !e.answer.Conflict?
  }

  /** The entries the accepted appends to `id` added, oldest first. */
  function Entries(trace: seq<Event>, id: string): seq<string> {
    if trace == [] then []
    else
      var e := trace[|trace| - 1];
      Entries(trace[..|trace| - 1], id) + if Wrote(e, id) && e.command.Append? then [e.command.json] else []
  }

  /** Event `i` is the full save of `id` that no later save or clear has replaced. */
  ghost predicate LastSave(trace: seq<Event>, id: string, i: nat) {
    && i < |trace|
    && Wrote(trace[i], id) && trace[i].command.Save?
    && forall j :: i < j < |trace| && Wrote(trace[j], id) ==> trace[j].command.Append?
  }

  /** No save of `id` has landed since it was last cleared, if it ever was. */
  ghost predicate NoSave(trace: seq<Event>, id: string) {
    forall i :: 0 <= i < |trace| && Wrote(trace[i], id) && trace[i].command.Save? ==>
      exists j :: i < j < |trace| && Wrote(trace[j], id) && trace[j].command.Clear?
  }

  /** The record of `id` is what event `i` saved, extended by the entries accepted since. */
  ghost predicate HeldSince(r: Run, id: string, i: nat) {
    && LastSave(r.trace, id, i)
    && id in r.store.records
    && r.store.records[id].json == r.trace[i].command.json
    && r.store.records[id].log == Entries(r.trace[i + 1..], id)
  }

  lemma HeldStep(r: Run, c: Command, id: string, i: nat)
    requires HeldSince(r, id, i)
    requires id in Extend(r, c).store.records && !(c.Save? && Wrote(Event(c, Step(r.store, c).1), id))
    ensures HeldSince(Extend(r, c), id, i)
  {
    var t, t' := r.trace, Extend(r, c).trace;
    var e := Event(c, Step(r.store, c).1);
    assert forall j :: 0 <= j < |t| ==> t'[j] == t[j];
    assert t'[i + 1..] == t[i + 1..] + [e];
    assert t'[i + 1..][..|t'| - i - 2] == t[i + 1..];
    assert Wrote(e, id) ==> c.Append?;
  }

  lemma NoSaveStep(r: Run, c: Command, id: string)
    requires if id in r.store.records then exists i: nat :: HeldSince(r, id, i) else NoSave(r.trace, id)
    requires id !in Extend(r, c).store.records
    ensures NoSave(Extend(r, c).trace, id)
  {
    var t, t' := r.trace, Extend(r, c).trace;
    var n := |t|;
    forall i | 0 <= i < |t'| && Wrote(t'[i], id) && t'[i].command.Save?
      ensures exists j :: i < j < |t'| && Wrote(t'[j], id) && t'[j].command.Clear?
    {
      assert i < n && t'[i] == t[i];
      if id in r.store.records {
        assert Wrote(t'[n], id) && t'[n].command.Clear?;
      } else {
        var j :| i < j < n && Wrote(t[j], id) && t[j].command.Clear?;
        assert t'[j] == t[j];
      }
    }
  }

  /**
   A record exists exactly when a save of it landed after its last clear.  It then holds the text
   of the last such save, and its log is exactly the entries accepted since, in order.
   */
  lemma {:induction false} LogIsEntriesSinceLastSave(commands: seq<Command>, id: string)
    ensures var r := RunOf(commands);
            if id in r.store.records then exists i: nat :: HeldSince(r, id, i) else NoSave(r.trace, id)
  {
    if commands != [] {
      var n := |commands| - 1;
      var c := commands[n];
      LogIsEntriesSinceLastSave(commands[..n], id);
      var before, after := RunOf(commands[..n]), RunOf(commands);
      if id !in after.store.records {
        NoSaveStep(before, c, id);
      } else if c.Save? && Wrote(after.trace[n], id) {
        assert after.trace[n + 1..] == [];
        assert HeldSince(after, id, n);
      } else {
        var i: nat :| HeldSince(before, id, i);
        HeldStep(before, c, id, i);
      }
    }
  }

  // ---------- Every answer, from what was answered before ----------

  /** What the events say of a record: its last save, the entries since, and the etag last issued for it. */
  function History(trace: seq<Event>, id: string): Option<Record> {
    if trace == [] then None
    else
      var e, before := trace[|trace| - 1], History(trace[..|trace| - 1], id);
      if !Wrote(e, id) then before
      else if e.command.Clear? || e.answer.Cleared? then None
      else if e.command.Append? && before.Some? && e.answer.Issued? then
        Some(Record(before.value.json, e.answer.etag, before.value.log + [e.command.json]))
      else if e.command.Save? && e.answer.Issued? then Some(Record(e.command.json, e.answer.etag, []))
      else before
  }

  /** How many etags were issued. */
  function IssuedBy(trace: seq<Event>): nat {
    if trace == [] then 0 else IssuedBy(trace[..|trace| - 1]) + if trace[|trace| - 1].answer.Issued? then 1 else 0
  }

  function Held(s: Store, id: string): Option<Record> {
    if id in s.records then Some(s.records[id]) else None
  }

  lemma HistoryStep(r: Run, c: Command, id: string)
    requires Held(r.store, id) == History(r.trace, id) && r.store.counter == IssuedBy(r.trace)
    ensures var r' := Extend(r, c); Held(r'.store, id) == History(r'.trace, id) && r'.store.counter == IssuedBy(r'.trace)
  {
    assert Extend(r, c).trace[..|r.trace|] == r.trace;
  }

  /** The store holds what its answers say it holds, and has issued as many etags as it has answered with. */
  lemma {:induction false} RecordIsItsHistory(commands: seq<Command>, id: string)
    ensures var r := RunOf(commands); Held(r.store, id) == History(r.trace, id) && r.store.counter == IssuedBy(r.trace)
  {
    if commands != [] {
      RecordIsItsHistory(commands[..|commands| - 1], id);
      HistoryStep(RunOf(commands[..|commands| - 1]), commands[|commands| - 1], id);
    }
  }

  /** The etag the history leaves current; `None` where there is no record. */
  function EtagLeft(trace: seq<Event>, id: string): Option<nat> {
    match History(trace, id)
    case None => None
    case Some(r) => Some(r.etag)
  }

  /**
   Every answer of every run.  A load gets the record as the history has it.  A save or clear is
   accepted exactly under the etag the history leaves current, an append only if there is a record as
   well; an accepted save or append gets the next etag in the order of issue.
   */
  lemma AnswersFollowFromHistory(commands: seq<Command>, c: Command)
    ensures var t, id := RunOf(commands).trace, c.Slot();
            var a := Step(RunOf(commands).store, c).1;
            && (c.Load? ==> a == Loaded(History(t, id)))
            && (c.Save? ==> a == if c.expected == EtagLeft(t, id) then Issued(1 + IssuedBy(t)) else Conflict)
            && (c.Append? ==>
                  a == if History(t, id).Some? && c.expected == EtagLeft(t, id) then Issued(1 + IssuedBy(t)) else Conflict)
            && (c.Clear? ==> a == if c.expected == EtagLeft(t, id) then Cleared else Conflict)
  {
    RecordIsItsHistory(commands, c.Slot());
  }

  /** And what each accepted command leaves behind: the saved text, one entry more, or no record. */
  lemma EffectsFollowFromHistory(commands: seq<Command>, c: Command, id: string)
    ensures var t := RunOf(commands).trace;
            var (s, a) := Step(RunOf(commands).store, c);
            && (c.Load? || a.Conflict? || id != c.Slot() ==> Held(s, id) == History(t, id))
            && (c.Save? && a.Issued? ==> Held(s, c.Slot()) == Some(Record(c.json, a.etag, [])))
            && (c.Append? && a.Issued? ==>
                  && History(t, c.Slot()).Some?
                  && var r := History(t, c.Slot()).value; Held(s, c.Slot()) == Some(Record(r.json, a.etag, r.log + [c.json])))
            && (c.Clear? && a.Cleared? ==> Held(s, c.Slot()) == None)
  {
    RecordIsItsHistory(commands, c.Slot());
    RecordIsItsHistory(commands, id);
  }

  // ---------- The store without a log, and the two arms compared ----------

  datatype TreeRecord = TreeRecord(json: string, etag: nat)

  datatype TreeStore = TreeStore(records: map<string, TreeRecord>, counter: nat)

  function TreeCurrent(s: TreeStore, id: string): Option<nat> {
    if id in s.records then Some(s.records[id].etag) else None
  }

  datatype TreeAnswer =
    | TreeLoaded(record: Option<TreeRecord>)
    | TreeIssued(etag: nat)
    | TreeCleared
    | TreeConflict

  function TreePut(s: TreeStore, id: string, json: string, expected: Option<nat>): (TreeStore, TreeAnswer) {
    if TreeCurrent(s, id) != expected then (s, TreeConflict)
    else (TreeStore(s.records[id := TreeRecord(json, s.counter + 1)], s.counter + 1), TreeIssued(s.counter + 1))
  }

  function TreeRemove(s: TreeStore, id: string, expected: Option<nat>): (TreeStore, TreeAnswer) {
    if id !in s.records && expected == None then (s, TreeCleared)
    else if TreeCurrent(s, id) != expected then (s, TreeConflict)
    else (s.(records := s.records - {id}), TreeCleared)
  }

  function TreeStep(s: TreeStore, c: Command): (TreeStore, TreeAnswer)
    requires !c.Append?
  {
    match c
    case Load(_, _) => (s, TreeLoaded(if c.Slot() in s.records then Some(s.records[c.Slot()]) else None))
    case Save(_, _, json, expected) => TreePut(s, c.Slot(), json, expected)
    case Clear(_, _, expected) => TreeRemove(s, c.Slot(), expected)
  }

  function TreeRunOf(commands: seq<Command>): (r: (TreeStore, seq<TreeAnswer>))
    requires forall c :: c in commands ==> !c.Append?
    ensures |r.1| == |commands|
  {
    if commands == [] then (TreeStore(map[], 0), [])
    else
      var last := |commands| - 1;
      var before := TreeRunOf(commands[..last]);
      var (s, a) := TreeStep(before.0, commands[last]);
      (s, before.1 + [a])
  }

  /** What the caller of either arm can tell apart: a load also shows the (always empty) log. */
  function View(a: TreeAnswer): Answer {
    match a
    case TreeLoaded(None) => Loaded(None)
    case TreeLoaded(Some(r)) => Loaded(Some(Record(r.json, r.etag, [])))
    case TreeIssued(e) => Issued(e)
    case TreeCleared => Cleared
    case TreeConflict => Conflict
  }

  function Widen(s: TreeStore): Store {
    Store(map id | id in s.records :: Record(s.records[id].json, s.records[id].etag, []), s.counter)
  }

  lemma StepsAgree(s: TreeStore, c: Command)
    requires !c.Append?
    ensures Step(Widen(s), c) == (Widen(TreeStep(s, c).0), View(TreeStep(s, c).1))
  {
    assert Step(Widen(s), c).0.records == Widen(TreeStep(s, c).0).records;
  }

  /** Until something is appended the two arms answer every command alike, etags and conflicts included. */
  lemma {:induction false} ArmsAgree(commands: seq<Command>)
    requires forall c :: c in commands ==> !c.Append?
    ensures RunOf(commands).store == Widen(TreeRunOf(commands).0)
    ensures forall i :: 0 <= i < |commands| ==> RunOf(commands).trace[i].answer == View(TreeRunOf(commands).1[i])
  {
    if commands != [] {
      var n := |commands| - 1;
      ArmsAgree(commands[..n]);
      StepsAgree(TreeRunOf(commands[..n]).0, commands[n]);
    }
  }

  // ---------- The stores ----------

  /** What a load hands the caller; `Malformed` is the exception `JSON.parse` throws. */
  datatype Reading<S, E> = Absent | Present(state: S, etag: nat, log: seq<E>) | Malformed

  function ParseAll<E>(entry: Codec<E>, texts: seq<string>): (r: Option<seq<E>>)
    ensures r.Some? ==> |r.value| == |texts|
  {
    if texts == [] then Some([])
    else
      match (ParseAll(entry, texts[..|texts| - 1]), entry.parse(texts[|texts| - 1]))
      case (Some(es), Some(e)) => Some(es + [e])
      case _ => None
  }

  function Read<S, E>(state: Codec<S>, entry: Codec<E>, record: Option<Record>): Reading<S, E> {
    match record
    case None => Absent
    case Some(r) =>
      match (state.parse(r.json), ParseAll(entry, r.log))
      case (Some(s), Some(es)) => Present(s, r.etag, es)
      case _ => Malformed
  }

  class StringifyStorage<S> {
    const codec: Codec<S>
    var records: map<string, TreeRecord>
    var counter: nat

    constructor (codec: Codec<S>)
      ensures this.codec == codec && Abs() == TreeStore(map[], 0)
    {
      this.codec := codec;
      records, counter := map[], 0;
    }

    ghost function Abs(): TreeStore
      reads this
    {
      TreeStore(records, counter)
    }

    method Load(typ: string, key: string) returns (r: Reading<S, S>)
      ensures r == match TreeStep(Abs(), Command.Load(typ, key)).1.record
                   case None => Absent
                   case Some(t) => if codec.parse(t.json).Some? then Present(codec.parse(t.json).value, t.etag, []) else Malformed
    {
      var id := Id(typ, key);
      if id !in records {
        return Absent;
      }
      var parsed := codec.parse(records[id].json);
      r := if parsed.Some? then Present(parsed.value, records[id].etag, []) else Malformed;
    }

    method Save(typ: string, key: string, state: S, expected: Option<nat>) returns (a: TreeAnswer)
      modifies this
      ensures (Abs(), a) == TreeStep(old(Abs()), Command.Save(typ, key, codec.stringify(state), expected))
    {
      var id := Id(typ, key);
      var existing := if id in records then Some(records[id].etag) else None;
      if existing != expected {
        return TreeConflict;
      }
      counter := counter + 1;
      var etag := counter;
      records := records[id := TreeRecord(codec.stringify(state), etag)];
      return TreeIssued(etag);
    }

    method Clear(typ: string, key: string, expected: Option<nat>) returns (a: TreeAnswer)
      modifies this
      ensures (Abs(), a) == TreeStep(old(Abs()), Command.Clear(typ, key, expected))
    {
      var id := Id(typ, key);
      if id !in records && expected == None {
        return TreeCleared;
      }
      var existing := if id in records then Some(records[id].etag) else None;
      if existing != expected {
        return TreeConflict;
      }
      records := records - {id};
      return TreeCleared;
    }
  }

  class TextStorage<S, E> {
    const codec: Codec<S>
    const entries: Codec<E>
    var records: map<string, Record>
    var counter: nat

    constructor (codec: Codec<S>, entries: Codec<E>)
      ensures this.codec == codec && this.entries == entries && Abs() == EMPTY
    {
      this.codec, this.entries := codec, entries;
      records, counter := map[], 0;
    }

    ghost function Abs(): Store
      reads this
    {
      Store(records, counter)
    }

    method Load(typ: string, key: string) returns (r: Reading<S, E>)
      ensures r == Read(codec, entries, Step(Abs(), Command.Load(typ, key)).1.record)
    {
      var id := Id(typ, key);
      if id !in records {
        return Absent;
      }
      var record := records[id];
      var state := codec.parse(record.json);
      var log: seq<E> := [];
      for i := 0 to |record.log|
        invariant ParseAll(entries, record.log[..i]) == Some(log)
      {
        assert record.log[..i + 1][..i] == record.log[..i];
        var e := entries.parse(record.log[i]);
        if e.None? {
          ParseAllFails(entries, record.log, i);
          return Malformed;
        }
        log := log + [e.value];
      }
      assert record.log[..|record.log|] == record.log;
      r := if state.Some? then Present(state.value, record.etag, log) else Malformed;
    }

    method SaveText(typ: string, key: string, json: string, expected: Option<nat>) returns (a: Answer)
      modifies this
      ensures (Abs(), a) == Step(old(Abs()), Command.Save(typ, key, json, expected))
    {
      var id := Id(typ, key);
      var existing := if id in records then Some(records[id].etag) else None;
      if existing != expected {
        return Conflict;
      }
      counter := counter + 1;
      var etag := counter;
      records := records[id := Record(json, etag, [])];
      return Issued(etag);
    }

    method Save(typ: string, key: string, state: S, expected: Option<nat>) returns (a: Answer)
      modifies this
      ensures (Abs(), a) == Step(old(Abs()), Command.Save(typ, key, codec.stringify(state), expected))
    {
      a := SaveText(typ, key, codec.stringify(state), expected);
    }

    method AppendText(typ: string, key: string, json: string, expected: Option<nat>) returns (a: Answer)
      modifies this
      ensures (Abs(), a) == Step(old(Abs()), Command.Append(typ, key, json, expected))
    {
      var id := Id(typ, key);
      if id !in records || Some(records[id].etag) != expected {
        return Conflict;
      }
      records := records[id := records[id].(log := records[id].log + [json])];
      counter := counter + 1;
      records := records[id := records[id].(etag := counter)];
      assert records == old(records)[id := Record(old(records)[id].json, counter, old(records)[id].log + [json])];
      return Issued(counter);
    }

    method Clear(typ: string, key: string, expected: Option<nat>) returns (a: Answer)
      modifies this
      ensures (Abs(), a) == Step(old(Abs()), Command.Clear(typ, key, expected))
    {
      var id := Id(typ, key);
      if id !in records && expected == None {
        return Cleared;
      }
      var existing := if id in records then Some(records[id].etag) else None;
      if existing != expected {
        return Conflict;
      }
      records := records - {id};
      return Cleared;
    }
  }

  /** A log is read entry by entry, in order, and only as a whole. */
  lemma {:induction false} ParseAllIff<E>(entry: Codec<E>, texts: seq<string>)
    ensures ParseAll(entry, texts).Some? <==> forall i :: 0 <= i < |texts| ==> entry.parse(texts[i]).Some?
    ensures ParseAll(entry, texts).Some? ==>
              forall i :: 0 <= i < |texts| ==> entry.parse(texts[i]).Some? && ParseAll(entry, texts).value[i] == entry.parse(texts[i]).value
  {
    if texts != [] {
      var n := |texts| - 1;
      ParseAllIff(entry, texts[..n]);
      assert forall i :: 0 <= i < n ==> texts[..n][i] == texts[i];
    }
  }

  /** One malformed entry makes the whole log malformed. */
  lemma {:induction false} ParseAllFails<E>(entry: Codec<E>, texts: seq<string>, i: nat)
    requires i < |texts| && entry.parse(texts[i]).None?
    ensures ParseAll(entry, texts).None?
  {
    if i < |texts| - 1 {
      ParseAllFails(entry, texts[..|texts| - 1], i);
    }
  }
}
