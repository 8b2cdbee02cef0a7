/**
 The step-job fixtures of `job-fixtures.ts`: a rendezvous channel between the driver and a
 detached job, and the job's loop of take a command, add a row, make it durable, acknowledge.
 */
module StepJob {
  import opened Common
  import opened RecordStore
  import opened Clients

  datatype Cmd = StepCmd | StopCmd

  /** Promises are numbered: a parked `nextCommand` in `waiters`, an unresolved `sendStep` in `acks`. */
  datatype Channel = Channel(commands: seq<Cmd>, waiters: seq<nat>, acks: seq<nat>)

  const FRESH := Channel([], [], [])

  /** Hand the command to the oldest parked waiter, or queue it. */
  function Deliver(ch: Channel, cmd: Cmd): (Channel, Option<nat>) {
    if ch.waiters != [] then (ch.(waiters := ch.waiters[1..]), Some(ch.waiters[0]))
    else (ch.(commands := ch.commands + [cmd]), None)
  }

  /** Take the oldest queued command, or park as `waiter`. */
  function Next(ch: Channel, waiter: nat): (Channel, Option<Cmd>) {
    if ch.commands != [] then (ch.(commands := ch.commands[1..]), Some(ch.commands[0]))
    else (ch.(waiters := ch.waiters + [waiter]), None)
  }

  function Settle(ch: Channel): (Channel, Option<nat>) {
    if ch.acks == [] then (ch, None) else (ch.(acks := ch.acks[1..]), Some(ch.acks[0]))
  }

  /** The module-scope table of channels, keyed by job key. */
  class Channels {
    var channels: map<string, Channel>

    constructor ()
      ensures channels == map[]
    {
      channels := map[];
    }

    ghost function At(key: string): Channel
      reads this
    {
      if key in channels then channels[key] else FRESH
    }

    method GetChannel(key: string) returns (ch: Channel)
      modifies this
      ensures ch == old(At(key)) && channels == old(channels)[key := ch]
    {
      if key !in channels {
        channels := channels[key := Channel([], [], [])];
      }
      ch := channels[key];
      assert channels == old(channels)[key := ch];
    }

    /** `woken` is the waiter whose promise now holds `cmd`. */
    method DeliverTo(key: string, cmd: Cmd) returns (woken: Option<nat>)
      modifies this
      ensures (At(key), woken) == Deliver(old(At(key)), cmd)
      ensures channels == old(channels)[key := At(key)]
    {
      var ch := GetChannel(key);
      if ch.waiters != [] {
        woken := Some(ch.waiters[0]);
        channels := channels[key := ch.(waiters := ch.waiters[1..])];
      } else {
        woken := None;
        channels := channels[key := ch.(commands := ch.commands + [cmd])];
      }
    }

    method NextCommand(key: string, waiter: nat) returns (cmd: Option<Cmd>)
      modifies this
      ensures (At(key), cmd) == Next(old(At(key)), waiter)
      ensures channels == old(channels)[key := At(key)]
    {
      var ch := GetChannel(key);
      if ch.commands != [] {
        cmd := Some(ch.commands[0]);
        channels := channels[key := ch.(commands := ch.commands[1..])];
      } else {
        cmd := None;
        channels := channels[key := ch.(waiters := ch.waiters + [waiter])];
      }
    }

    /** The acknowledgement is registered before the command goes out. */
    method SendStep(key: string, ack: nat) returns (woken: Option<nat>)
      modifies this
      ensures var ch := old(At(key)); (At(key), woken) == Deliver(ch.(acks := ch.acks + [ack]), StepCmd)
      ensures channels == old(channels)[key := At(key)]
    {
      var ch := GetChannel(key);
      channels := channels[key := ch.(acks := ch.acks + [ack])];
      woken := DeliverTo(key, StepCmd);
    }

    method SendStop(key: string) returns (woken: Option<nat>)
      modifies this
      ensures (At(key), woken) == Deliver(old(At(key)), StopCmd)
      ensures channels == old(channels)[key := At(key)]
    {
      woken := DeliverTo(key, StopCmd);
    }

    method Acknowledge(key: string) returns (acked: Option<nat>)
      modifies this
      ensures (At(key), acked) == Settle(old(At(key)))
      ensures channels == old(channels)[key := At(key)]
    {
      var ch := GetChannel(key);
      if ch.acks == [] {
        return None;
      }
      channels := channels[key := ch.(acks := ch.acks[1..])];
      return Some(ch.acks[0]);
    }

    method ResetStepChannel(key: string)
      modifies this
      ensures channels == old(channels) - {key}
    {
      channels := channels - {key};
    }
  }

  // ---------- One job, its driver and its record ----------

  /** `Holding`: the command's promise resolved.  `Writing`: the row is on its way to the store. */
  datatype Phase = Idle | Parked | Holding(cmd: Cmd) | Writing | Done(result: nat)

  /** The two durable fixtures: rewrite the whole checkpoint, or append the one row. */
  datatype Arm = Whole | Appending

  /** An acknowledgement, and the rows a load of the record would have returned at that moment. */
  datatype Ack<R> = Ack(number: nat, durable: Option<seq<R>>)

  /**
   The rows the job has, its channel and its record; `delivered`, `taken`, `sent` and `acked`
   are the history of the run.
   */
  datatype Job<R> = Job(
    ch: Channel, phase: Phase, rows: seq<R>, store: Store, etag: Option<nat>,
    delivered: seq<Cmd>, taken: seq<Cmd>, sent: nat, acked: seq<Ack<R>>)

  datatype Move = DriverStep | DriverStop | Poll | Handle | Land

  datatype Setup<!R> = Setup(app: App<seq<R>, R>, row: nat -> R, arm: Arm, typ: string, key: string)

  ghost predicate LawfulSetup<R(!new)>(u: Setup<R>) {
    LawfulApp(u.app) && forall c, r :: u.app.apply(c, r) == PushRow(c, r)
  }

  function Start<R>(): Job<R> {
    Job(FRESH, Idle, [], EMPTY, None, [], [], 0, [])
  }

  /** A delivery wakes the parked job, the channel's only consumer. */
  function Arrive<R>(j: Job<R>, cmd: Cmd): Job<R> {
    var (ch, woken) := Deliver(j.ch, cmd);
    var j' := j.(ch := ch, delivered := j.delivered + [cmd]);
    if woken.Some? then j'.(phase := Holding(cmd), taken := j.taken + [cmd]) else j'
  }

  /** The durable write: a checkpoint of every row, or the last row appended to an existing record. */
  function Write<R>(u: Setup<R>, j: Job<R>): Command
    requires j.rows != []
  {
    if u.arm.Appending? && j.etag.Some? then
      Append(u.typ, u.key, u.app.entry.stringify(j.rows[|j.rows| - 1]), j.etag)
    else Save(u.typ, u.key, u.app.state.stringify(j.rows), j.etag)
  }

  /** One step of the run; a move that is not enabled changes nothing. */
  function Move1<R>(u: Setup<R>, j: Job<R>, m: Move): Job<R> {
    match m
    case DriverStep =>
      Arrive(j.(ch := j.ch.(acks := j.ch.acks + [j.sent]), sent := j.sent + 1), StepCmd)
    case DriverStop => Arrive(j, StopCmd)
    case Poll =>
      if !j.phase.Idle? then j
      else
        var (ch, cmd) := Next(j.ch, |j.taken|);
        if cmd.Some? then j.(ch := ch, phase := Holding(cmd.value), taken := j.taken + [cmd.value])
        else j.(ch := ch, phase := Parked)
    case Handle =>
      if !j.phase.Holding? then j
      else if j.phase.cmd.StopCmd? then j.(phase := Done(|j.rows|))
      else j.(phase := Writing, rows := j.rows + [u.row(|j.rows|)])
    case Land =>
      if !j.phase.Writing? || j.rows == [] then j
      else
        var (store, answer) := Step(j.store, Write(u, j));
        Landing(u, j, store, if answer.Issued? then Some(answer.etag) else j.etag)
  }

  /** The write has returned: its step is acknowledged, and the acknowledgement sees what a load would return. */
  function Landing<R>(u: Setup<R>, j: Job<R>, store: Store, etag: Option<nat>): Job<R> {
    var (ch, ack) := Settle(j.ch);
    var j' := j.(store := store, etag := etag, ch := ch, phase := Idle);
    if ack.Some? then j'.(acked := j.acked + [Ack(ack.value, Value(u.app, store, Id(u.typ, u.key)))]) else j'
  }

  function RunJob<R>(u: Setup<R>, moves: seq<Move>): Job<R> {
    if moves == [] then Start()
    else Move1(u, RunJob(u, moves[..|moves| - 1]), moves[|moves| - 1])
  }

  // ---------- Counting commands ----------

  function Steps(cmds: seq<Cmd>): nat {
    if cmds == [] then 0 else Steps(cmds[..|cmds| - 1]) + if cmds[|cmds| - 1].StepCmd? then 1 else 0
  }

  lemma {:induction false} StepsConcat(a: seq<Cmd>, b: seq<Cmd>)
    ensures Steps(a + b) == Steps(a) + Steps(b)
  {
    if b == [] {
      assert a + b == a;
    } else {
      StepsConcat(a, b[..|b| - 1]);
      assert (a + b)[..|a + b| - 1] == a + b[..|b| - 1];
    }
  }

  lemma StepsPush(a: seq<Cmd>, c: Cmd)
    ensures Steps(a + [c]) == Steps(a) + if c.StepCmd? then 1 else 0
  {
    assert (a + [c])[..|a|] == a;
  }

  /** `n` is the number of steps before the first stop. */
  ghost predicate StepsBeforeStop(cmds: seq<Cmd>, n: nat) {
    n < |cmds| && cmds[n].StopCmd? && forall i :: 0 <= i < n ==> cmds[i].StepCmd?
  }

  // ---------- The invariant ----------

  function FirstRows<R>(row: nat -> R, k: nat): (rows: seq<R>)
    ensures |rows| == k
  {
    seq(k, i requires 0 <= i < k => row(i))
  }

  /** How many rows are already durable. */
  function Landed<R>(j: Job<R>): int {
    if j.phase.Writing? then |j.rows| - 1 else |j.rows|
  }

  /** Never both queued commands and a parked waiter, and nothing taken out of order. */
  ghost predicate ChannelOk<R>(j: Job<R>) {
    && (j.ch.commands == [] || j.ch.waiters == [])
    && |j.ch.waiters| == (if j.phase.Parked? then 1 else 0)
    && j.delivered == j.taken + j.ch.commands
    && Steps(j.delivered) == j.sent
  }

  /** Where the loop stands: every command taken so far was a step, save a stop that ends the run. */
  ghost predicate LoopOk<R>(u: Setup<R>, j: Job<R>) {
    && (forall i :: 0 <= i < |j.rows| ==> j.rows[i] == u.row(i))
    && (j.phase.Writing? ==> j.rows != [])
    && |j.taken| == |j.rows| + (if j.phase.Holding? || j.phase.Done? then 1 else 0)
    && (forall i :: 0 <= i < |j.rows| ==> j.taken[i].StepCmd?)
    && (j.phase.Holding? ==> j.taken[|j.rows|] == j.phase.cmd)
    && (j.phase.Done? ==> j.taken[|j.rows|].StopCmd? && j.phase.result == |j.rows|)
  }

  /** The record holds exactly the first `k` rows under the etag the job last got back. */
  ghost predicate RecordHolds<R>(u: Setup<R>, store: Store, etag: Option<nat>, k: nat) {
    var id := Id(u.typ, u.key);
    && etag == Current(store, id)
    && Value(u.app, store, id) == (if k == 0 then None else Some(FirstRows(u.row, k)))
    && (id in store.records ==> Read(u.app.state, u.app.entry, Some(store.records[id])).Present?)
  }

  /** Acknowledgements resolve in order, one per landed row, and the k-th saw exactly the first k rows. */
  ghost predicate AcksOk<R>(u: Setup<R>, j: Job<R>) {
    && 0 <= Landed(j) == |j.acked| <= j.sent
    && |j.ch.acks| == j.sent - Landed(j)
    && (forall i :: 0 <= i < |j.ch.acks| ==> j.ch.acks[i] == Landed(j) + i)
    && forall k :: 0 <= k < |j.acked| ==> j.acked[k] == Ack(k, Some(FirstRows(u.row, k + 1)))
  }

  ghost predicate JobOk<R>(u: Setup<R>, j: Job<R>) {
    ChannelOk(j) && LoopOk(u, j) && AcksOk(u, j) && RecordHolds(u, j.store, j.etag, |j.acked|)
  }

  lemma {:induction false} AllSteps(cmds: seq<Cmd>)
    requires forall i :: 0 <= i < |cmds| ==> cmds[i].StepCmd?
    ensures Steps(cmds) == |cmds|
  {
    if cmds != [] {
      AllSteps(cmds[..|cmds| - 1]);
    }
  }

  lemma StepsAtLeast(cmds: seq<Cmd>, n: nat)
    requires n <= |cmds| && forall i :: 0 <= i < n ==> cmds[i].StepCmd?
    ensures Steps(cmds) >= n
  {
    AllSteps(cmds[..n]);
    StepsConcat(cmds[..n], cmds[n..]);
    assert cmds == cmds[..n] + cmds[n..];
  }

  lemma ArriveOk<R>(u: Setup<R>, j: Job<R>, cmd: Cmd, sent: nat, acks: seq<nat>)
    requires ChannelOk(j) && LoopOk(u, j)
    requires sent == j.sent + if cmd.StepCmd? then 1 else 0
    ensures var j' := Arrive(j.(ch := j.ch.(acks := acks), sent := sent), cmd);
            ChannelOk(j') && LoopOk(u, j') && j'.ch.acks == acks && Landed(j') == Landed(j)
  {
    StepsPush(j.delivered, cmd);
    assert j.ch.waiters != [] ==> j.phase.Parked? && j.ch.waiters[1..] == [];
  }

  lemma DriverStepOk<R>(u: Setup<R>, j: Job<R>)
    requires JobOk(u, j)
    ensures JobOk(u, Move1(u, j, DriverStep))
  {
    ArriveOk(u, j, StepCmd, j.sent + 1, j.ch.acks + [j.sent]);
  }

  lemma DriverStopOk<R>(u: Setup<R>, j: Job<R>)
    requires JobOk(u, j)
    ensures JobOk(u, Move1(u, j, DriverStop))
  {
    ArriveOk(u, j, StopCmd, j.sent, j.ch.acks);
    assert j.(ch := j.ch.(acks := j.ch.acks), sent := j.sent) == j;
  }

  /** What a record's text folds to, where it can be read. */
  function Folded<R>(app: App<seq<R>, R>, r: Record): Option<seq<R>> {
    match Read(app.state, app.entry, Some(r))
    case Present(state, _, log) => Fold(app, Some(state), log)
    case _ => None
  }

  lemma AppendedRows<R(!new)>(app: App<seq<R>, R>, r: Record, rows: seq<R>, row: R, etag: nat)
    requires LawfulApp(app) && forall c, x :: app.apply(c, x) == PushRow(c, x)
    requires Read(app.state, app.entry, Some(r)).Present? && Folded(app, r) == Some(rows)
    ensures var longer := Record(r.json, etag, r.log + [app.entry.stringify(row)]);
            Read(app.state, app.entry, Some(longer)).Present? && Folded(app, longer) == Some(rows + [row])
  {
    var before := Read(app.state, app.entry, Some(r));
    ReadAppended(app, r, row, etag);
    FoldOne(app, Some(before.state), before.log, row);
    assert app.apply(Some(rows), row) == PushRow(Some(rows), row);
  }

  lemma AppendHolds<R(!new)>(u: Setup<R>, j: Job<R>)
    requires LawfulSetup(u) && LoopOk(u, j) && j.phase.Writing? && Write(u, j).Append?
    requires RecordHolds(u, j.store, j.etag, |j.rows| - 1)
    ensures var (store, answer) := Step(j.store, Write(u, j));
            answer.Issued? && RecordHolds(u, store, Some(answer.etag), |j.rows|)
  {
    var id, n := Id(u.typ, u.key), |j.rows|;
    assert FirstRows(u.row, n) == j.rows;
    assert FirstRows(u.row, n - 1) + [j.rows[n - 1]] == j.rows;
    AppendedRows(u.app, j.store.records[id], FirstRows(u.row, n - 1), j.rows[n - 1], j.store.counter + 1);
  }

  /** The durable write is never refused, and leaves exactly the job's rows in the record. */
  lemma WriteHolds<R(!new)>(u: Setup<R>, j: Job<R>)
    requires LawfulSetup(u) && LoopOk(u, j) && j.phase.Writing?
    requires RecordHolds(u, j.store, j.etag, |j.rows| - 1)
    ensures var (store, answer) := Step(j.store, Write(u, j));
            answer.Issued? && RecordHolds(u, store, Some(answer.etag), |j.rows|)
  {
    if Write(u, j).Append? {
      AppendHolds(u, j);
    } else {
      assert FirstRows(u.row, |j.rows|) == j.rows;
    }
  }

  lemma LandingOk<R>(u: Setup<R>, j: Job<R>, store: Store, etag: Option<nat>)
    requires JobOk(u, j) && j.phase.Writing? && RecordHolds(u, store, etag, |j.rows|)
    ensures JobOk(u, Landing(u, j, store, etag))
  {
    StepsAtLeast(j.delivered, |j.rows|);
    assert j.ch.acks[0] == |j.rows| - 1;
  }

  lemma LandOk<R(!new)>(u: Setup<R>, j: Job<R>)
    requires LawfulSetup(u) && JobOk(u, j) && j.phase.Writing?
    ensures JobOk(u, Move1(u, j, Land))
  {
    WriteHolds(u, j);
    var (store, answer) := Step(j.store, Write(u, j));
    LandingOk(u, j, store, Some(answer.etag));
  }

  lemma HandleOk<R>(u: Setup<R>, j: Job<R>)
    requires JobOk(u, j) && j.phase.Holding?
    ensures JobOk(u, Move1(u, j, Handle))
  {
    if j.phase.cmd.StepCmd? {
      StepsAtLeast(j.delivered, |j.taken|);
    }
  }

  lemma PollOk<R>(u: Setup<R>, j: Job<R>)
    requires JobOk(u, j) && j.phase.Idle?
    ensures JobOk(u, Move1(u, j, Poll))
  {
  }

  lemma MoveOk<R(!new)>(u: Setup<R>, j: Job<R>, m: Move)
    requires LawfulSetup(u) && JobOk(u, j)
    ensures JobOk(u, Move1(u, j, m))
  {
    match m {
      case DriverStep => DriverStepOk(u, j);
      case DriverStop => DriverStopOk(u, j);
      case Poll => if j.phase.Idle? { PollOk(u, j); }
      case Handle => if j.phase.Holding? { HandleOk(u, j); }
      case Land => if j.phase.Writing? { LandOk(u, j); }
    }
  }

  lemma {:induction false} JobInvariant<R(!new)>(u: Setup<R>, moves: seq<Move>)
    requires LawfulSetup(u)
    ensures JobOk(u, RunJob(u, moves))
  {
    if moves != [] {
      JobInvariant(u, moves[..|moves| - 1]);
      MoveOk(u, RunJob(u, moves[..|moves| - 1]), moves[|moves| - 1]);
    }
  }

  // ---------- What the driver may rely on ----------

  /** Commands are taken in the order they were delivered, and none is queued while the job is parked. */
  lemma TakenInDeliveryOrder<R(!new)>(u: Setup<R>, moves: seq<Move>)
    requires LawfulSetup(u)
    ensures var j := RunJob(u, moves);
            && j.taken <= j.delivered
            && (j.ch.commands == [] || j.ch.waiters == [])
            && (j.phase.Parked? ==> j.taken == j.delivered)
  {
    JobInvariant(u, moves);
  }

  /** The k-th `sendStep` resolves k-th, and when it does a load would return exactly the first k rows. */
  lemma AckMeansDurable<R(!new)>(u: Setup<R>, moves: seq<Move>, k: nat)
    requires LawfulSetup(u) && k < |RunJob(u, moves).acked|
    ensures RunJob(u, moves).acked[k] == Ack(k, Some(FirstRows(u.row, k + 1)))
  {
    JobInvariant(u, moves);
  }

  /** Both arms are indistinguishable to a reader: only the rows landed so far decide what a load returns. */
  lemma ArmsHoldTheSameRows<R(!new)>(u: Setup<R>, v: Setup<R>, moves: seq<Move>, moves': seq<Move>)
    requires LawfulSetup(u) && LawfulSetup(v) && u.row == v.row
    requires |RunJob(u, moves).acked| == |RunJob(v, moves').acked|
    ensures Value(u.app, RunJob(u, moves).store, Id(u.typ, u.key))
         == Value(v.app, RunJob(v, moves').store, Id(v.typ, v.key))
  {
    JobInvariant(u, moves);
    JobInvariant(v, moves');
  }

  /** The run returns the number of steps delivered before the first stop. */
  lemma ResultIsStepsBeforeStop<R(!new)>(u: Setup<R>, moves: seq<Move>)
    requires LawfulSetup(u) && RunJob(u, moves).phase.Done?
    ensures StepsBeforeStop(RunJob(u, moves).delivered, RunJob(u, moves).phase.result)
  {
    JobInvariant(u, moves);
  }

  /** A parked job has acknowledged every step ever sent: no driver is left waiting on it. */
  lemma ParkedMeansAllAcknowledged<R(!new)>(u: Setup<R>, moves: seq<Move>)
    requires LawfulSetup(u) && RunJob(u, moves).phase.Parked?
    ensures |RunJob(u, moves).acked| == RunJob(u, moves).sent && RunJob(u, moves).ch.acks == []
  {
    JobInvariant(u, moves);
    var j := RunJob(u, moves);
    assert j.taken + [] == j.taken;
    assert j.delivered == j.taken;
    AllSteps(j.delivered);
  }

  // ---------- What becomes of every command ----------

  /** What the driver sent in the run, as its moves say. */
  function Driven(moves: seq<Move>): seq<Cmd> {
    if moves == [] then []
    else
      var m := moves[|moves| - 1];
      Driven(moves[..|moves| - 1]) + if m.DriverStep? then [StepCmd] else if m.DriverStop? then [StopCmd] else []
  }

  /** `k` times: look for a command, act on it, let the write land. */
  function Rounds(k: nat): seq<Move> {
    if k == 0 then [] else Rounds(k - 1) + [Poll, Handle, Land]
  }

  lemma {:induction false} RoundsDriveNothing(moves: seq<Move>, k: nat)
    ensures Driven(moves + Rounds(k)) == Driven(moves)
  {
    if k == 0 {
      assert moves + Rounds(k) == moves;
    } else {
      RoundsDriveNothing(moves, k - 1);
      var before := moves + Rounds(k - 1);
      assert moves + Rounds(k) == before + [Poll] + [Handle] + [Land];
      DrivenPush(before, Poll);
      DrivenPush(before + [Poll], Handle);
      DrivenPush(before + [Poll] + [Handle], Land);
    }
  }

  lemma DrivenPush(moves: seq<Move>, m: Move)
    ensures Driven(moves + [m]) == Driven(moves) + if m.DriverStep? then [StepCmd] else if m.DriverStop? then [StopCmd] else []
  {
    assert (moves + [m])[..|moves|] == moves;
  }

  lemma RunPush<R>(u: Setup<R>, moves: seq<Move>, m: Move)
    ensures RunJob(u, moves + [m]) == Move1(u, RunJob(u, moves), m)
  {
    assert (moves + [m])[..|moves|] == moves;
  }

  /** Nothing the driver sent is lost on its way into the channel. */
  lemma {:induction false} DeliveredIsDriven<R>(u: Setup<R>, moves: seq<Move>)
    ensures RunJob(u, moves).delivered == Driven(moves)
  {
    if moves != [] {
      DeliveredIsDriven(u, moves[..|moves| - 1]);
      MoveDelivers(u, RunJob(u, moves[..|moves| - 1]), moves[|moves| - 1]);
    }
  }

  lemma MoveDelivers<R>(u: Setup<R>, j: Job<R>, m: Move)
    ensures Move1(u, j, m).delivered
         == j.delivered + if m.DriverStep? then [StepCmd] else if m.DriverStop? then [StopCmd] else []
  {
  }

  /**
   An idle job that has taken everything parks when it polls; the next command, whenever the driver
   sends it, then wakes the job and is taken at once, without another poll.
   */
  lemma ParkedJobIsWoken<R(!new)>(u: Setup<R>, moves: seq<Move>, m: Move)
    requires LawfulSetup(u) && RunJob(u, moves).phase.Idle? && RunJob(u, moves).taken == Driven(moves)
    requires m.DriverStep? || m.DriverStop?
    ensures var j := RunJob(u, moves + [Poll] + [m]);
            j.phase == Holding(if m.DriverStep? then StepCmd else StopCmd) && j.taken == Driven(moves + [Poll] + [m])
  {
    JobInvariant(u, moves);
    DeliveredIsDriven(u, moves);
    DrivenPush(moves, Poll);
    DrivenPush(moves + [Poll], m);
    RunPush(u, moves, Poll);
    RunPush(u, moves + [Poll], m);
    IdleParks(u, RunJob(u, moves));
    ParkedWakes(u, RunJob(u, moves + [Poll]), m);
  }

  lemma IdleParks<R>(u: Setup<R>, j: Job<R>)
    requires ChannelOk(j) && j.phase.Idle? && j.taken == j.delivered
    ensures var j' := Move1(u, j, Poll); j'.ch.waiters != [] && j'.taken == j.taken
  {
    assert |j.delivered| == |j.taken| + |j.ch.commands|;
  }

  lemma ParkedWakes<R>(u: Setup<R>, j: Job<R>, m: Move)
    requires j.ch.waiters != [] && (m.DriverStep? || m.DriverStop?)
    ensures var cmd := if m.DriverStep? then StepCmd else StopCmd;
            Move1(u, j, m).phase == Holding(cmd) && Move1(u, j, m).taken == j.taken + [cmd]
  {
  }

  /** Commands the job still has to deal with. */
  function Left<R>(j: Job<R>): nat {
    if j.phase.Done? then 0 else |j.ch.commands| + if j.phase.Holding? || j.phase.Writing? then 1 else 0
  }

  function Round<R>(u: Setup<R>, j: Job<R>): Job<R> {
    Move1(u, Move1(u, Move1(u, j, Poll), Handle), Land)
  }

  lemma PollTakes<R>(u: Setup<R>, j: Job<R>)
    requires JobOk(u, j)
    ensures var j' := Move1(u, j, Poll);
            && Left(j') == Left(j)
            && (Left(j') > 0 ==> j'.phase.Holding? || j'.phase.Writing?)
  {
  }

  lemma HandleActs<R>(u: Setup<R>, j: Job<R>)
    requires JobOk(u, j)
    ensures var j' := Move1(u, j, Handle);
            && !j'.phase.Holding? && Left(j') <= Left(j)
            && (j.phase.Holding? ==> j'.phase.Writing? || Left(j') == 0)
            && (!j.phase.Holding? ==> j' == j)
  {
  }

  lemma LandFrees<R>(u: Setup<R>, j: Job<R>)
    requires JobOk(u, j) && !j.phase.Holding?
    ensures var j' := Move1(u, j, Land);
            Left(j') == if j.phase.Writing? then Left(j) - 1 else Left(j)
  {
  }

  lemma RoundDealsWithOne<R(!new)>(u: Setup<R>, j: Job<R>)
    requires LawfulSetup(u) && JobOk(u, j)
    ensures JobOk(u, Round(u, j)) && Left(Round(u, j)) <= if Left(j) == 0 then 0 else Left(j) - 1
  {
    MoveOk(u, j, Poll);
    PollTakes(u, j);
    var j1 := Move1(u, j, Poll);
    MoveOk(u, j1, Handle);
    HandleActs(u, j1);
    var j2 := Move1(u, j1, Handle);
    MoveOk(u, j2, Land);
    LandFrees(u, j2);
  }

  lemma RunRound<R>(u: Setup<R>, moves: seq<Move>, k: nat)
    requires k > 0
    ensures RunJob(u, moves + Rounds(k)) == Round(u, RunJob(u, moves + Rounds(k - 1)))
  {
    var before := moves + Rounds(k - 1);
    assert moves + Rounds(k) == before + [Poll] + [Handle] + [Land];
    RunPush(u, before, Poll);
    RunPush(u, before + [Poll], Handle);
    RunPush(u, before + [Poll] + [Handle], Land);
  }

  lemma {:induction false} RoundsDealWithAll<R(!new)>(u: Setup<R>, moves: seq<Move>, k: nat)
    requires LawfulSetup(u)
    ensures JobOk(u, RunJob(u, moves + Rounds(k)))
    ensures Left(RunJob(u, moves + Rounds(k))) <= if Left(RunJob(u, moves)) <= k then 0 else Left(RunJob(u, moves)) - k
  {
    if k == 0 {
      assert moves + Rounds(k) == moves;
      JobInvariant(u, moves);
    } else {
      RoundsDealWithAll(u, moves, k - 1);
      RunRound(u, moves, k);
      RoundDealsWithOne(u, RunJob(u, moves + Rounds(k - 1)));
    }
  }

  /** As many rounds as the channel and the job hold commands, whatever they are. */
  ghost predicate EnoughRounds<R>(u: Setup<R>, moves: seq<Move>, k: nat) {
    k > |Driven(moves)| - |RunJob(u, moves).taken|
  }

  lemma AllDealtWith<R(!new)>(u: Setup<R>, moves: seq<Move>, k: nat)
    requires LawfulSetup(u) && EnoughRounds(u, moves, k)
    ensures var j := RunJob(u, moves + Rounds(k));
            JobOk(u, j) && j.delivered == Driven(moves) && Left(j) == 0
  {
    DeliveredIsDriven(u, moves);
    DeliveredIsDriven(u, moves + Rounds(k));
    RoundsDriveNothing(moves, k);
    JobInvariant(u, moves);
    RoundsDealWithAll(u, moves, k);
  }

  lemma DoneAfterTheFirstStop<R>(u: Setup<R>, j: Job<R>)
    requires JobOk(u, j) && j.phase.Done?
    ensures StepsBeforeStop(j.delivered, j.phase.result) && |j.acked| == j.phase.result
  {
    assert forall i :: 0 <= i < |j.taken| ==> j.delivered[i] == j.taken[i];
  }

  lemma NothingLeftOfSteps<R>(u: Setup<R>, j: Job<R>)
    requires JobOk(u, j) && !j.phase.Done? && Left(j) == 0
    ensures forall i :: 0 <= i < |j.delivered| ==> j.delivered[i].StepCmd?
    ensures |j.acked| == |j.delivered| && j.ch.acks == []
  {
    assert j.delivered == j.taken;
    AllSteps(j.delivered);
  }

  /**
   The run returns.  However the driver and the job got here: once a stop was sent after `n` steps,
   enough rounds of the loop end the run with the result `n`, and with exactly the `n` steps before
   the stop acknowledged.
   */
  lemma StopEndsTheRun<R(!new)>(u: Setup<R>, moves: seq<Move>, n: nat, k: nat)
    requires LawfulSetup(u) && StepsBeforeStop(Driven(moves), n) && EnoughRounds(u, moves, k)
    ensures var j := RunJob(u, moves + Rounds(k)); j.phase == Done(n) && |j.acked| == n
  {
    AllDealtWith(u, moves, k);
    var j := RunJob(u, moves + Rounds(k));
    assert !j.delivered[n].StepCmd?;
    if j.phase.Done? {
      DoneAfterTheFirstStop(u, j);
    } else {
      NothingLeftOfSteps(u, j);
    }
  }

  /** And as long as no stop was sent, enough rounds acknowledge every step that was. */
  lemma EveryStepIsAcknowledged<R(!new)>(u: Setup<R>, moves: seq<Move>, k: nat)
    requires LawfulSetup(u) && StopCmd !in Driven(moves) && EnoughRounds(u, moves, k)
    ensures var j := RunJob(u, moves + Rounds(k)); |j.acked| == |Driven(moves)| && j.ch.acks == []
  {
    AllDealtWith(u, moves, k);
    var j := RunJob(u, moves + Rounds(k));
    assert forall i :: 0 <= i < |j.delivered| ==> j.delivered[i] in j.delivered;
    if j.phase.Done? {
      DoneAfterTheFirstStop(u, j);
    } else {
      NothingLeftOfSteps(u, j);
    }
  }

  // ---------- What each arm writes ----------

  /** The entries of the rows from the second on. */
  function EntriesOf<R>(u: Setup<R>, k: nat): (log: seq<string>)
    ensures k > 0 ==> |log| == k - 1
  {
    if k == 0 then [] else seq(k - 1, i requires 0 <= i < k - 1 => u.app.entry.stringify(u.row(i + 1)))
  }

  /** The text of `k` rows: one checkpoint of them all, or a checkpoint of the first and an entry for each other. */
  predicate InFormOf<R>(u: Setup<R>, r: Record, k: nat) {
    match u.arm
    case Whole => r.json == u.app.state.stringify(FirstRows(u.row, k)) && r.log == []
    case Appending => r.json == u.app.state.stringify(FirstRows(u.row, 1)) && r.log == EntriesOf(u, k)
  }

  predicate RecordForm<R>(u: Setup<R>, store: Store, k: nat) {
    var id := Id(u.typ, u.key);
    if k == 0 then id !in store.records else id in store.records && InFormOf(u, store.records[id], k)
  }

  lemma LandKeepsForm<R(!new)>(u: Setup<R>, j: Job<R>)
    requires LawfulSetup(u) && JobOk(u, j) && j.phase.Writing? && RecordForm(u, j.store, |j.acked|)
    ensures RecordForm(u, Step(j.store, Write(u, j)).0, |j.acked| + 1)
  {
    var k := |j.acked|;
    WriteHolds(u, j);
    assert FirstRows(u.row, k + 1) == j.rows;
    if k > 0 && u.arm.Appending? {
      assert EntriesOf(u, k + 1) == EntriesOf(u, k) + [u.app.entry.stringify(j.rows[k])];
    } else if k == 0 {
      assert FirstRows(u.row, 1) == j.rows && EntriesOf(u, 1) == [];
    }
  }

  lemma OtherMovesKeepTheStore<R>(u: Setup<R>, j: Job<R>, m: Move)
    requires m.Land? ==> !j.phase.Writing?
    ensures Move1(u, j, m).store == j.store && Move1(u, j, m).acked == j.acked
  {
  }

  /** The whole arm rewrites every row with each step; the appending arm writes each row but the first as one entry. */
  lemma {:induction false} EachArmWritesItsForm<R(!new)>(u: Setup<R>, moves: seq<Move>)
    requires LawfulSetup(u)
    ensures RecordForm(u, RunJob(u, moves).store, |RunJob(u, moves).acked|)
  {
    if moves != [] {
      var before, m := moves[..|moves| - 1], moves[|moves| - 1];
      EachArmWritesItsForm(u, before);
      var j := RunJob(u, before);
      JobInvariant(u, before);
      if m.Land? && j.phase.Writing? {
        LandKeepsForm(u, j);
        LandAcknowledges(u, j);
      } else {
        OtherMovesKeepTheStore(u, j, m);
      }
    }
  }

  lemma LandAcknowledges<R>(u: Setup<R>, j: Job<R>)
    requires JobOk(u, j) && j.phase.Writing?
    ensures Move1(u, j, Land).store == Step(j.store, Write(u, j)).0 && |Move1(u, j, Land).acked| == |j.acked| + 1
  {
    StepsAtLeast(j.delivered, |j.rows|);
  }

  // ---------- The channel by itself, with any number of consumers ----------

  datatype ChannelOp = Put(cmd: Cmd) | Take

  /** A channel, what was put into it, and what each `nextCommand`, in the order of the calls, has received. */
  datatype Rendezvous = Rendezvous(ch: Channel, put: seq<Cmd>, received: seq<Option<Cmd>>)

  function Operate(r: Rendezvous, op: ChannelOp): Rendezvous {
    match op
    case Put(cmd) =>
      var (ch, woken) := Deliver(r.ch, cmd);
      Rendezvous(ch, r.put + [cmd],
                 if woken.Some? && woken.value < |r.received| then r.received[woken.value := Some(cmd)] else r.received)
    case Take =>
      var (ch, cmd) := Next(r.ch, |r.received|);
      Rendezvous(ch, r.put, r.received + [cmd])
  }

  function OperateAll(ops: seq<ChannelOp>): Rendezvous {
    if ops == [] then Rendezvous(FRESH, [], []) else Operate(OperateAll(ops[..|ops| - 1]), ops[|ops| - 1])
  }

  /** The puts among the operations, and how many takes there are. */
  function Puts(ops: seq<ChannelOp>): seq<Cmd> {
    if ops == [] then []
    else Puts(ops[..|ops| - 1]) + if ops[|ops| - 1].Put? then [ops[|ops| - 1].cmd] else []
  }

  function Takes(ops: seq<ChannelOp>): nat {
    if ops == [] then 0 else Takes(ops[..|ops| - 1]) + if ops[|ops| - 1].Take? then 1 else 0
  }

  ghost predicate Paired(r: Rendezvous) {
    && (forall i :: 0 <= i < |r.received| ==> r.received[i] == if i < |r.put| then Some(r.put[i]) else None)
    && r.ch.commands == (if |r.received| < |r.put| then r.put[|r.received|..] else [])
    && |r.ch.waiters| == (if |r.put| < |r.received| then |r.received| - |r.put| else 0)
    && forall i :: 0 <= i < |r.ch.waiters| ==> r.ch.waiters[i] == |r.put| + i
  }

  lemma OperateKeepsPaired(r: Rendezvous, op: ChannelOp)
    requires Paired(r)
    ensures Paired(Operate(r, op))
  {
    if op.Put? {
      assert forall i :: 0 <= i < |r.put| ==> (r.put + [op.cmd])[i] == r.put[i];
    }
  }

  /** The k-th call of `nextCommand` receives the k-th command delivered, whichever of the two comes first. */
  lemma {:induction false} TheKthTakeGetsTheKthPut(ops: seq<ChannelOp>)
    ensures var r := OperateAll(ops);
            && r.put == Puts(ops) && |r.received| == Takes(ops) && Paired(r)
  {
    if ops != [] {
      TheKthTakeGetsTheKthPut(ops[..|ops| - 1]);
      OperateKeepsPaired(OperateAll(ops[..|ops| - 1]), ops[|ops| - 1]);
    }
  }
}
