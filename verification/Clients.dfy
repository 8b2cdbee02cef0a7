/**
 Any number of clients sharing one text store: each loads a record, folds its log, and
 writes the outcome of a change back by compare-and-swap, either whole (`save`) or as one
 appended entry that every later load folds in.  The theorem is that no accepted change is
 ever lost, whatever the interleaving.
 */
module Clients {
  import opened Common
  import opened RecordStore

  /** The application side of a store: its two codecs and the fold (`None` is "no state yet"). */
  datatype App<!S, !U> = App(state: Codec<S>, entry: Codec<U>, apply: (Option<S>, U) -> S)

  ghost predicate LawfulApp<S(!new), U(!new)>(app: App<S, U>) {
    Lawful(app.state) && Lawful(app.entry)
  }

  function Fold<S, U>(app: App<S, U>, start: Option<S>, entries: seq<U>): Option<S> {
    if entries == [] then start
    else Some(app.apply(Fold(app, start, entries[..|entries| - 1]), entries[|entries| - 1]))
  }

  /** The state a load of the record `id` yields once its log is folded; `None` when absent. */
  function Value<S, U>(app: App<S, U>, s: Store, id: string): Option<S> {
    if id !in s.records then None
    else
      match Read(app.state, app.entry, Some(s.records[id]))
      case Present(state, _, log) => Fold(app, Some(state), log)
      case _ => None
  }

  /** What a client remembers of the record it works on. */
  datatype Client<S> = Client(typ: string, key: string, etag: Option<nat>, value: Option<S>)
  {
    function Slot(): string { Id(typ, key) }
  }

  /** `accepted` is bookkeeping: for each record id the changes accepted since its last clear. */
  datatype System<S, U> = System(store: Store, clients: map<nat, Client<S>>, accepted: map<string, seq<U>>)

  function Accepted<S, U>(y: System<S, U>, id: string): seq<U> {
    if id in y.accepted then y.accepted[id] else []
  }

  datatype Action<U> =
    | Fetch(who: nat, typ: string, key: string)
    | SaveChange(who: nat, change: U)
    | AppendChange(who: nat, change: U)
    | Rewrite(who: nat)
    | Erase(who: nat)

  function CommandOf<S, U>(app: App<S, U>, cl: Client<S>, a: Action<U>): Command
    requires !a.Fetch? && (a.Rewrite? ==> cl.value.Some?)
  {
    match a
    case SaveChange(_, u) => Save(cl.typ, cl.key, app.state.stringify(app.apply(cl.value, u)), cl.etag)
    case AppendChange(_, u) => Append(cl.typ, cl.key, app.entry.stringify(u), cl.etag)
    case Rewrite(_) => Save(cl.typ, cl.key, app.state.stringify(cl.value.value), cl.etag)
    case Erase(_) => Clear(cl.typ, cl.key, cl.etag)
  }

  /** What the client holds, and what counts as accepted, once the store has said yes. */
  function Landed<S, U>(app: App<S, U>, cl: Client<S>, a: Action<U>, answer: Answer): Client<S>
    requires !a.Fetch?
  {
    var etag := if answer.Issued? then Some(answer.etag) else None;
    match a
    case SaveChange(_, u) => cl.(etag := etag, value := Some(app.apply(cl.value, u)))
    case AppendChange(_, u) => cl.(etag := etag, value := Some(app.apply(cl.value, u)))
    case Rewrite(_) => cl.(etag := etag)
    case Erase(_) => cl.(etag := None, value := None)
  }

  function History<S, U>(y: System<S, U>, id: string, a: Action<U>): seq<U>
    requires !a.Fetch?
  {
    match a
    case SaveChange(_, u) => Accepted(y, id) + [u]
    case AppendChange(_, u) => Accepted(y, id) + [u]
    case Rewrite(_) => Accepted(y, id)
    case Erase(_) => []
  }

  /** One atomic step; a client that has loaded nothing, or has nothing to rewrite, does nothing. */
  function Act<S, U>(app: App<S, U>, y: System<S, U>, a: Action<U>): System<S, U> {
    if a.Fetch? then
      var id := Id(a.typ, a.key);
      y.(clients := y.clients[a.who := Client(a.typ, a.key, Current(y.store, id), Value(app, y.store, id))])
    else if a.who !in y.clients || (a.Rewrite? && y.clients[a.who].value.None?) then y
    else
      var cl := y.clients[a.who];
      var (store, answer) := Step(y.store, CommandOf(app, cl, a));
      if answer.Conflict? then y
      else
        System(store, y.clients[a.who := Landed(app, cl, a, answer)],
               y.accepted[cl.Slot() := History(y, cl.Slot(), a)])
  }

  function RunAll<S, U>(app: App<S, U>, actions: seq<Action<U>>): System<S, U> {
    if actions == [] then System(EMPTY, map[], map[])
    else Act(app, RunAll(app, actions[..|actions| - 1]), actions[|actions| - 1])
  }

  // ---------- The invariant ----------

  /** The record was written by clients, so its text parses and folds to the accepted changes. */
  ghost predicate RecordOk<S, U>(app: App<S, U>, y: System<S, U>, id: string) {
    && (id in y.store.records ==> Read(app.state, app.entry, Some(y.store.records[id])).Present?)
    && Value(app, y.store, id) == Fold(app, None, Accepted(y, id))
    && (id !in y.store.records ==> Accepted(y, id) == [])
  }

  /** A client whose etag is still current remembers the record's value right. */
  ghost predicate ClientOk<S, U>(app: App<S, U>, y: System<S, U>, cl: Client<S>) {
    match cl.etag
    case None => cl.value == None
    case Some(e) =>
      && e <= y.store.counter
      && forall id :: id in y.store.records && y.store.records[id].etag == e ==>
           id == cl.Slot() && cl.value == Value(app, y.store, id)
  }

  ghost predicate SystemOk<S, U>(app: App<S, U>, y: System<S, U>) {
    && OwnEtags(Run(y.store, []))
    && (forall id :: RecordOk(app, y, id))
    && (forall w :: w in y.clients ==> ClientOk(app, y, y.clients[w]))
  }

  /** Reading back a log one entry longer, all of it written by `stringify`. */
  lemma ReadAppended<S(!new), U(!new)>(app: App<S, U>, r: Record, u: U, etag: nat)
    requires LawfulApp(app) && Read(app.state, app.entry, Some(r)).Present?
    ensures var before := Read(app.state, app.entry, Some(r));
            Read(app.state, app.entry, Some(Record(r.json, etag, r.log + [app.entry.stringify(u)])))
              == Present(before.state, etag, before.log + [u])
  {
    var longer := r.log + [app.entry.stringify(u)];
    assert longer[..|longer| - 1] == r.log;
  }

  lemma FoldOne<S, U>(app: App<S, U>, start: Option<S>, us: seq<U>, u: U)
    ensures Fold(app, start, us + [u]) == Some(app.apply(Fold(app, start, us), u))
  {
    assert (us + [u])[..|us|] == us;
  }

  /** Some client's command was accepted in `y`. */
  ghost predicate Accepts<S, U>(app: App<S, U>, y: System<S, U>, a: Action<U>) {
    && !a.Fetch? && a.who in y.clients && (a.Rewrite? ==> y.clients[a.who].value.Some?)
    && !Step(y.store, CommandOf(app, y.clients[a.who], a)).1.Conflict?
  }

  /** The acting client remembers its record right, and its record is in order: what one action needs. */
  ghost predicate Ready<S, U>(app: App<S, U>, y: System<S, U>, a: Action<U>) {
    && Accepts(app, y, a)
    && RecordOk(app, y, y.clients[a.who].Slot())
    && y.clients[a.who].value == Value(app, y.store, y.clients[a.who].Slot())
  }

  /** The record in order after the action, and its client remembering it right. */
  ghost predicate Written<S, U>(app: App<S, U>, y: System<S, U>, a: Action<U>)
    requires a.who in y.clients
  {
    var y', id := Act(app, y, a), y.clients[a.who].Slot();
    && RecordOk(app, y', id)
    && a.who in y'.clients && y'.clients[a.who].value == Value(app, y'.store, id)
  }

  lemma AppendedValue<S(!new), U(!new)>(app: App<S, U>, y: System<S, U>, a: Action<U>)
    requires LawfulApp(app) && Ready(app, y, a) && a.AppendChange?
    ensures Written(app, y, a)
  {
    var id := y.clients[a.who].Slot();
    var r := y.store.records[id];
    var before := Read(app.state, app.entry, Some(r));
    ReadAppended(app, r, a.change, y.store.counter + 1);
    FoldOne(app, None, Accepted(y, id), a.change);
    FoldOne(app, Some(before.state), before.log, a.change);
  }

  lemma SavedValue<S(!new), U(!new)>(app: App<S, U>, y: System<S, U>, a: Action<U>)
    requires LawfulApp(app) && Ready(app, y, a) && a.SaveChange?
    ensures Written(app, y, a)
  {
    FoldOne(app, None, Accepted(y, y.clients[a.who].Slot()), a.change);
  }

  lemma RewrittenValue<S(!new), U(!new)>(app: App<S, U>, y: System<S, U>, a: Action<U>)
    requires LawfulApp(app) && Ready(app, y, a) && a.Rewrite?
    ensures Written(app, y, a)
  {
    var cl, y' := y.clients[a.who], Act(app, y, a);
    assert y'.store.records[cl.Slot()] == Record(app.state.stringify(cl.value.value), y.store.counter + 1, []);
    assert Accepted(y', cl.Slot()) == Accepted(y, cl.Slot());
  }

  lemma ErasedValue<S(!new), U(!new)>(app: App<S, U>, y: System<S, U>, a: Action<U>)
    requires Ready(app, y, a) && a.Erase?
    ensures Written(app, y, a)
  {
    var id, y' := y.clients[a.who].Slot(), Act(app, y, a);
    assert id !in y'.store.records && Accepted(y', id) == [];
  }

  /** A client whose command is accepted held the current etag, so it remembered the value right. */
  lemma WriterIsReady<S(!new), U(!new)>(app: App<S, U>, y: System<S, U>, a: Action<U>)
    requires SystemOk(app, y) && Accepts(app, y, a)
    ensures Ready(app, y, a)
  {
    var cl := y.clients[a.who];
    assert ClientOk(app, y, cl);
    assert RecordOk(app, y, cl.Slot());
  }

  /** The value of the written record after an accepted command. */
  lemma WrittenValue<S(!new), U(!new)>(app: App<S, U>, y: System<S, U>, a: Action<U>)
    requires LawfulApp(app) && SystemOk(app, y) && Accepts(app, y, a)
    ensures Written(app, y, a)
  {
    WriterIsReady(app, y, a);
    match a {
      case SaveChange(_, _) => SavedValue(app, y, a);
      case AppendChange(_, _) => AppendedValue(app, y, a);
      case Rewrite(_) => RewrittenValue(app, y, a);
      case Erase(_) => ErasedValue(app, y, a);
    }
  }

  lemma OtherRecordOk<S(!new), U(!new)>(app: App<S, U>, y: System<S, U>, a: Action<U>, id: string)
    requires RecordOk(app, y, id) && Accepts(app, y, a) && id != y.clients[a.who].Slot()
    ensures RecordOk(app, Act(app, y, a), id) && Value(app, Act(app, y, a).store, id) == Value(app, y.store, id)
  {
    var c := CommandOf(app, y.clients[a.who], a);
    assert id in Act(app, y, a).store.records <==> id in y.store.records;
  }

  lemma OtherClientOk<S(!new), U(!new)>(app: App<S, U>, y: System<S, U>, a: Action<U>, w: nat)
    requires SystemOk(app, y) && Accepts(app, y, a) && w in y.clients && w != a.who
    ensures ClientOk(app, Act(app, y, a), y.clients[w])
  {
    var y', c := Act(app, y, a), CommandOf(app, y.clients[a.who], a);
    StepFrame(y.store, c);
    assert ClientOk(app, y, y.clients[w]);
    forall id | id in y'.store.records && Some(y'.store.records[id].etag) == y.clients[w].etag
      ensures id == y.clients[w].Slot() && y.clients[w].value == Value(app, y'.store, id)
    {
      assert id != c.Slot();
      assert y'.store.records[id] == y.store.records[id];
      assert RecordOk(app, y, id);
      OtherRecordOk(app, y, a, id);
    }
  }

  lemma AcceptedEtags<S(!new), U(!new)>(app: App<S, U>, y: System<S, U>, a: Action<U>)
    requires LawfulApp(app) && SystemOk(app, y) && Accepts(app, y, a)
    ensures OwnEtags(Run(Act(app, y, a).store, []))
  {
    StepFrame(y.store, CommandOf(app, y.clients[a.who], a));
  }

  lemma AcceptedRecordOk<S(!new), U(!new)>(app: App<S, U>, y: System<S, U>, a: Action<U>, id: string)
    requires LawfulApp(app) && SystemOk(app, y) && Accepts(app, y, a)
    ensures RecordOk(app, Act(app, y, a), id)
  {
    if id == y.clients[a.who].Slot() {
      WrittenValue(app, y, a);
    } else {
      assert RecordOk(app, y, id);
      OtherRecordOk(app, y, a, id);
    }
  }

  lemma WriterOk<S(!new), U(!new)>(app: App<S, U>, y: System<S, U>, a: Action<U>)
    requires LawfulApp(app) && SystemOk(app, y) && Accepts(app, y, a)
    ensures ClientOk(app, Act(app, y, a), Act(app, y, a).clients[a.who])
  {
    StepFrame(y.store, CommandOf(app, y.clients[a.who], a));
    WrittenValue(app, y, a);
  }

  lemma AcceptedKeepsOk<S(!new), U(!new)>(app: App<S, U>, y: System<S, U>, a: Action<U>)
    requires LawfulApp(app) && SystemOk(app, y) && Accepts(app, y, a)
    ensures SystemOk(app, Act(app, y, a))
  {
    var y' := Act(app, y, a);
    AcceptedEtags(app, y, a);
    forall id ensures RecordOk(app, y', id) {
      AcceptedRecordOk(app, y, a, id);
    }
    forall w | w in y'.clients ensures ClientOk(app, y', y'.clients[w]) {
      if w == a.who {
        WriterOk(app, y, a);
      } else {
        OtherClientOk(app, y, a, w);
      }
    }
  }

  lemma FetchKeepsOk<S(!new), U(!new)>(app: App<S, U>, y: System<S, U>, a: Action<U>)
    requires SystemOk(app, y) && a.Fetch?
    ensures SystemOk(app, Act(app, y, a))
  {
    var y' := Act(app, y, a);
    forall id ensures RecordOk(app, y', id) {
      assert RecordOk(app, y, id);
    }
    forall w | w in y'.clients ensures ClientOk(app, y', y'.clients[w]) {
      assert w != a.who ==> ClientOk(app, y, y.clients[w]);
    }
  }

  lemma ActKeepsOk<S(!new), U(!new)>(app: App<S, U>, y: System<S, U>, a: Action<U>)
    requires LawfulApp(app) && SystemOk(app, y)
    ensures SystemOk(app, Act(app, y, a))
  {
    if a.Fetch? {
      FetchKeepsOk(app, y, a);
    } else if Accepts(app, y, a) {
      AcceptedKeepsOk(app, y, a);
    }
  }

  lemma {:induction false} RunOk<S(!new), U(!new)>(app: App<S, U>, actions: seq<Action<U>>)
    requires LawfulApp(app)
    ensures SystemOk(app, RunAll(app, actions))
  {
    if actions == [] {
      assert forall id :: RecordOk(app, RunAll(app, actions), id);
    } else {
      RunOk(app, actions[..|actions| - 1]);
      ActKeepsOk(app, RunAll(app, actions[..|actions| - 1]), actions[|actions| - 1]);
    }
  }

  /**
   No lost update.  After any interleaving of loads, whole saves, appended entries, rewrites and
   clears by any number of clients, folding a record's log over its snapshot gives exactly the
   accepted changes since its last clear, applied in the order they were accepted.
   */
  lemma NoLostUpdate<S(!new), U(!new)>(app: App<S, U>, actions: seq<Action<U>>, id: string)
    requires LawfulApp(app)
    ensures var y := RunAll(app, actions);
            && Value(app, y.store, id) == Fold(app, None, Accepted(y, id))
            && (id in y.store.records ==> Read(app.state, app.entry, Some(y.store.records[id])).Present?)
  {
    RunOk(app, actions);
    assert RecordOk(app, RunAll(app, actions), id);
  }

  // ---------- Which actions are accepted ----------

  /** The etag the client presents is the record's current one, and an append finds a record. */
  predicate UpToDate<S, U>(y: System<S, U>, a: Action<U>) {
    && !a.Fetch? && a.who in y.clients && (a.Rewrite? ==> y.clients[a.who].value.Some?)
    && y.clients[a.who].etag == Current(y.store, y.clients[a.who].Slot())
    && (a.AppendChange? ==> y.clients[a.who].etag.Some?)
  }

  /**
   An action is accepted exactly if its client is up to date.  Its change then joins the record's
   accepted ones (an erasure empties them, a rewrite leaves them), and no other record's; otherwise
   nothing at all happens.
   */
  lemma AcceptedIffUpToDate<S, U>(app: App<S, U>, y: System<S, U>, a: Action<U>, id: string)
    requires !a.Fetch?
    ensures !UpToDate(y, a) ==> Act(app, y, a) == y
    ensures UpToDate(y, a) ==>
              Accepted(Act(app, y, a), id) ==
                if id != y.clients[a.who].Slot() || a.Rewrite? then Accepted(y, id)
                else if a.Erase? then []
                else Accepted(y, id) + [a.change]
  {
  }

  lemma RunAllPush<S, U>(app: App<S, U>, actions: seq<Action<U>>, a: Action<U>)
    ensures RunAll(app, actions + [a]) == Act(app, RunAll(app, actions), a)
  {
    assert (actions + [a])[..|actions|] == actions;
  }

  lemma LoadingBringsUpToDate<S, U>(app: App<S, U>, y: System<S, U>, who: nat, typ: string, key: string, u: U)
    ensures var y' := Act(app, y, Fetch(who, typ, key));
            && y'.store == y.store && y'.accepted == y.accepted
            && UpToDate(y', SaveChange(who, u)) && y'.clients[who].Slot() == Id(typ, key)
  {
  }

  /** Whatever went before: a client that has just loaded the record gets its change accepted. */
  lemma FreshClientIsAccepted<S, U>(app: App<S, U>, actions: seq<Action<U>>, who: nat, typ: string, key: string, u: U)
    ensures var id := Id(typ, key);
            Accepted(RunAll(app, actions + [Fetch(who, typ, key)] + [SaveChange(who, u)]), id)
            == Accepted(RunAll(app, actions), id) + [u]
  {
    var y, fetch := RunAll(app, actions), Fetch(who, typ, key);
    RunAllPush(app, actions, fetch);
    RunAllPush(app, actions + [fetch], SaveChange(who, u));
    LoadingBringsUpToDate(app, y, who, typ, key, u);
    AcceptedIffUpToDate(app, Act(app, y, fetch), SaveChange(who, u), Id(typ, key));
  }

  // ---------- Two applications ----------

  function Sum(ds: seq<int>): int {
    if ds == [] then 0 else Sum(ds[..|ds| - 1]) + ds[|ds| - 1]
  }

  function AddTo(total: Option<int>, d: int): int {
    if total.Some? then total.value + d else d
  }

  lemma {:induction false} FoldIsSum(app: App<int, int>, ds: seq<int>)
    requires forall t, d :: app.apply(t, d) == AddTo(t, d)
    ensures Fold(app, None, ds) == if ds == [] then None else Some(Sum(ds))
  {
    if ds != [] {
      FoldIsSum(app, ds[..|ds| - 1]);
    }
  }

  /** A shared counter always equals the sum of the additions accepted since the last clear. */
  lemma CounterIsSumOfAccepted(app: App<int, int>, actions: seq<Action<int>>, id: string)
    requires LawfulApp(app) && forall t, d :: app.apply(t, d) == AddTo(t, d)
    ensures var y := RunAll(app, actions);
            Value(app, y.store, id).Some? ==> Value(app, y.store, id) == Some(Sum(Accepted(y, id)))
    ensures var y := RunAll(app, actions);
            Value(app, y.store, id).None? ==> Sum(Accepted(y, id)) == 0
  {
    NoLostUpdate(app, actions, id);
    FoldIsSum(app, Accepted(RunAll(app, actions), id));
  }

  /** `BenchAppendStepJob.apply`: push the row, starting from an empty checkpoint. */
  function PushRow<R>(checkpoint: Option<seq<R>>, row: R): seq<R> {
    (if checkpoint.Some? then checkpoint.value else []) + [row]
  }

  lemma {:induction false} FoldIsRows<R>(app: App<seq<R>, R>, rows: seq<R>)
    requires forall c, r :: app.apply(c, r) == PushRow(c, r)
    ensures Fold(app, None, rows) == if rows == [] then None else Some(rows)
  {
    if rows != [] {
      var before, row := rows[..|rows| - 1], rows[|rows| - 1];
      FoldIsRows(app, before);
      FoldOne(app, None, before, row);
      assert rows == before + [row];
    }
  }

  /**
   The step job's two arms.  However the rows reached the store, by whole checkpoints or by
   appended rows folded with `PushRow`, a load yields exactly the accepted rows, in order; so two
   runs that accepted the same rows hold the same checkpoint.
   */
  lemma RowsAreTheAcceptedRows<R(!new)>(app: App<seq<R>, R>, actions: seq<Action<R>>, id: string)
    requires LawfulApp(app) && forall c, r :: app.apply(c, r) == PushRow(c, r)
    ensures var y := RunAll(app, actions);
            Value(app, y.store, id) == if Accepted(y, id) == [] then None else Some(Accepted(y, id))
  {
    NoLostUpdate(app, actions, id);
    FoldIsRows(app, Accepted(RunAll(app, actions), id));
  }
}
