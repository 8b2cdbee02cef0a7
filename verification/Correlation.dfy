/**
 Matching replies to requests: the parent's table of waiters for one child, each with a
 timer (`request`, `replyKey`, `abort` in `rig.ts`), and the thread pool's table of calls
 (`thread-pool.ts`).  A request is numbered in the order it was made.
 */
module Correlation {
  import opened Common

  /** `<replyType>:<id>`, or the bare type; reply types hold no colon, so the pair says the same. */
  datatype Key = Key(t: string, id: Option<nat>)

  datatype How = Replied | TimedOut | Failed

  /** `init` waits for `ready` and `start` for `started`, each once; `ready` numbers the first of these requests. */
  datatype Stage = Forked | InitSent(ready: nat) | StartSent(ready: nat)

  /**
   `keys[r]` is what request `r` waits for; `waiters`, `armed` and `settled` say where it stands.
   `nextId` and `stopped` are shared by all children of the rig.
   */
  datatype Table = Table(
    nextId: nat, stopped: bool, stage: Stage, keys: seq<Key>,
    waiters: map<Key, nat>, armed: set<nat>, settled: map<nat, How>)

  const NEW := Table(1, false, Forked, [], map[], {}, map[])

  datatype Event =
    | Boot
    | Ask(replyType: string)
    | AskElsewhere
    | ReplyArrives(key: Key)
    | TimerFires(request: nat)
    | ChildFails
    | Stop
    | ChildExits

  function Ask1(w: Table, key: Key): Table {
    var r := |w.keys|;
    w.(keys := w.keys + [key], waiters := w.waiters[key := r], armed := w.armed + {r})
  }

  function SettleAll(settled: map<nat, How>, requests: set<nat>, how: How): map<nat, How> {
    map r | r in settled.Keys + requests :: if r in requests then how else settled[r]
  }

  function Next(w: Table, e: Event): Table {
    match e
    case Boot =>
      if w.stage.Forked? then Ask1(w, Key("ready", None)).(stage := InitSent(|w.keys|))
      else if w.stage.InitSent? && w.stage.ready in w.settled && w.settled[w.stage.ready].Replied? then
        Ask1(w, Key("started", None)).(stage := StartSent(w.stage.ready))
      else w
    case Ask(t) => Ask1(w, Key(t, Some(w.nextId))).(nextId := w.nextId + 1)
    case AskElsewhere => w.(nextId := w.nextId + 1)
    case ReplyArrives(key) =>
      if key !in w.waiters then w
      else
        var r := w.waiters[key];
        w.(waiters := w.waiters - {key}, armed := w.armed - {r}, settled := w.settled[r := Replied])
    case TimerFires(r) =>
      if r !in w.armed || r >= |w.keys| then w
      else w.(waiters := w.waiters - {w.keys[r]}, armed := w.armed - {r}, settled := w.settled[r := TimedOut])
    case ChildFails => FailWaiting(w)
    case Stop => w.(stopped := true)
    case ChildExits => if w.stopped then w else FailWaiting(w)
  }

  function FailWaiting(w: Table): Table {
    w.(waiters := map[], armed := w.armed - w.waiters.Values, settled := SettleAll(w.settled, w.waiters.Values, Failed))
  }

  /** The parent's side of one child. */
  class Member {
    var nextId: nat
    var stopped: bool
    var stage: Stage
    var keys: seq<Key>
    var waiters: map<Key, nat>
    var armed: set<nat>
    var settled: map<nat, How>

    constructor ()
      ensures Abs() == NEW
    {
      nextId, stopped, stage, keys, waiters, armed, settled := 1, false, Forked, [], map[], {}, map[];
    }

    ghost function Abs(): Table
      reads this
    {
      Table(nextId, stopped, stage, keys, waiters, armed, settled)
    }

    /** Register the waiter and arm its timer; `request` numbers the promise handed back. */
    method Request(key: Key) returns (request: nat)
      modifies this
      ensures request == |old(keys)| && Abs() == Ask1(old(Abs()), key)
    {
      request := |keys|;
      keys := keys + [key];
      armed := armed + {request};
      waiters := waiters[key := request];
    }

    method RequestWithId(replyType: string) returns (request: nat)
      modifies this
      ensures request == |old(keys)| && Abs() == Next(old(Abs()), Ask(replyType))
    {
      var id := nextId;
      nextId := nextId + 1;
      request := Request(Key(replyType, Some(id)));
    }

    method OnReply(key: Key)
      modifies this
      ensures Abs() == Next(old(Abs()), ReplyArrives(key))
    {
      if key in waiters {
        var request := waiters[key];
        armed := armed - {request};
        waiters := waiters - {key};
        settled := settled[request := Replied];
      }
    }

    method OnTimer(request: nat)
      requires request in armed && request < |keys|
      modifies this
      ensures Abs() == Next(old(Abs()), TimerFires(request))
    {
      armed := armed - {request};
      waiters := waiters - {keys[request]};
      settled := settled[request := TimedOut];
    }

    /** The child failed: reject everything the parent waits for. */
    method Abort()
      modifies this
      ensures Abs() == Next(old(Abs()), ChildFails)
    {
      var todo := waiters.Values;
      ghost var done: set<nat> := {};
      while todo != {}
        invariant done + todo == waiters.Values && done !! todo
        invariant waiters == old(waiters) && keys == old(keys)
        invariant nextId == old(nextId) && stopped == old(stopped) && stage == old(stage)
        invariant armed == old(armed) - done
        invariant settled == SettleAll(old(settled), done, Failed)
      {
        var request :| request in todo;
        armed := armed - {request};
        settled := settled[request := Failed];
        done, todo := done + {request}, todo - {request};
      }
      waiters := map[];
    }

    method OnStop()
      modifies `stopped
      ensures Abs() == Next(old(Abs()), Stop)
    {
      stopped := true;
    }

    /** An exit is a failure only while the rig has not been stopped. */
    method OnExit()
      modifies this
      ensures Abs() == Next(old(Abs()), ChildExits)
    {
      if !stopped {
        Abort();
      }
    }
  }

  function RunTable(events: seq<Event>): Table {
    if events == [] then NEW else Next(RunTable(events[..|events| - 1]), events[|events| - 1])
  }

  /** No two requests ever wait for the same key, so no waiter is overwritten. */
  ghost predicate FreshKeys(w: Table) {
    && (forall r, s :: 0 <= r < s < |w.keys| ==> w.keys[r] != w.keys[s])
    && (forall r :: 0 <= r < |w.keys| ==>
          match w.keys[r].id
          case Some(i) => i < w.nextId
          case None => (w.keys[r].t == "ready" && !w.stage.Forked?) || (w.keys[r].t == "started" && w.stage.StartSent?))
  }

  /** Entry present, timer armed and promise unsettled are the same thing. */
  ghost predicate Agreement(w: Table) {
    && (forall r :: 0 <= r < |w.keys| ==> (r in w.armed <==> r !in w.settled))
    && (forall r :: 0 <= r < |w.keys| ==> (r in w.armed <==> w.keys[r] in w.waiters && w.waiters[w.keys[r]] == r))
    && (forall r :: r in w.armed || r in w.settled ==> r < |w.keys|)
    && (forall k :: k in w.waiters ==> w.waiters[k] < |w.keys| && w.keys[w.waiters[k]] == k)
  }

  lemma AskKeepsAgreement(w: Table, key: Key)
    requires Agreement(w) && forall r :: 0 <= r < |w.keys| ==> w.keys[r] != key
    ensures Agreement(Ask1(w, key))
  {
    var w' := Ask1(w, key);
    assert forall r :: 0 <= r < |w.keys| ==> w'.keys[r] == w.keys[r];
  }

  lemma WaitersAreArmed(w: Table)
    requires Agreement(w)
    ensures w.waiters.Values == w.armed
  {
    forall r | r in w.armed ensures r in w.waiters.Values {
      assert w.waiters[w.keys[r]] == r;
    }
    forall r | r in w.waiters.Values ensures r in w.armed {
      var k :| k in w.waiters && w.waiters[k] == r;
    }
  }

  lemma SettleKeepsAgreement(w: Table, r: nat, how: How)
    requires FreshKeys(w) && Agreement(w) && r in w.armed
    ensures Agreement(w.(waiters := w.waiters - {w.keys[r]}, armed := w.armed - {r}, settled := w.settled[r := how]))
  {
    assert forall s :: 0 <= s < |w.keys| && s != r ==> w.keys[s] != w.keys[r];
  }

  lemma NextKeepsFresh(w: Table, e: Event)
    requires FreshKeys(w)
    ensures FreshKeys(Next(w, e))
  {
  }

  lemma NextKeeps(w: Table, e: Event)
    requires FreshKeys(w) && Agreement(w)
    ensures Agreement(Next(w, e))
  {
    match e {
      case Boot =>
        if w.stage.Forked? {
          AskKeepsAgreement(w, Key("ready", None));
        } else if w.stage.InitSent? {
          AskKeepsAgreement(w, Key("started", None));
        }
      case Ask(t) => AskKeepsAgreement(w, Key(t, Some(w.nextId)));
      case AskElsewhere =>
      case ReplyArrives(key) => if key in w.waiters { SettleKeepsAgreement(w, w.waiters[key], Replied); }
      case TimerFires(r) => if r in w.armed { SettleKeepsAgreement(w, r, TimedOut); }
      case ChildFails => WaitersAreArmed(w);
      case Stop =>
      case ChildExits => WaitersAreArmed(w);
    }
  }

  lemma {:induction false} AlwaysAgrees(events: seq<Event>)
    ensures FreshKeys(RunTable(events)) && Agreement(RunTable(events))
  {
    if events != [] {
      AlwaysAgrees(events[..|events| - 1]);
      NextKeepsFresh(RunTable(events[..|events| - 1]), events[|events| - 1]);
      NextKeeps(RunTable(events[..|events| - 1]), events[|events| - 1]);
    }
  }

  /** Requests that event `e` settles in `w`, and how. */
  function SettledBy(w: Table, e: Event): (set<nat>, How) {
    match e
    case ReplyArrives(key) => (if key in w.waiters then {w.waiters[key]} else {}, Replied)
    case TimerFires(r) => (if r in w.armed then {r} else {}, TimedOut)
    case ChildFails => (w.waiters.Values, Failed)
    case ChildExits => (if w.stopped then {} else w.waiters.Values, Failed)
    case _ => ({}, Failed)
  }

  /**
   A request is settled at most once, and only by the reply it waits for, its own timer or the
   child failing: one event settles exactly `SettledBy`, none of which was settled before.
   */
  lemma SettledAtMostOnce(events: seq<Event>, e: Event)
    ensures var w := RunTable(events);
            var (requests, how) := SettledBy(w, e);
            && requests !! w.settled.Keys
            && Next(w, e).settled == SettleAll(w.settled, requests, how)
            && forall r :: r in requests ==> r < |w.keys| && (e.ReplyArrives? ==> w.keys[r] == e.key)
  {
    AlwaysAgrees(events);
    OnlyWaitingAreSettled(RunTable(events), e);
    SettledAsStated(RunTable(events), e);
  }

  lemma OnlyWaitingAreSettled(w: Table, e: Event)
    requires Agreement(w)
    ensures var requests := SettledBy(w, e).0;
            && requests <= w.armed
            && requests !! w.settled.Keys
            && forall r :: r in requests ==> r < |w.keys| && (e.ReplyArrives? ==> w.keys[r] == e.key)
  {
    WaitersAreArmed(w);
    if e.ReplyArrives? && e.key in w.waiters {
      assert w.waiters[e.key] in w.waiters.Values;
    }
  }

  lemma SettledAsStated(w: Table, e: Event)
    requires Agreement(w)
    ensures Next(w, e).settled == SettleAll(w.settled, SettledBy(w, e).0, SettledBy(w, e).1)
  {
  }

  /** How many ids the rig has given out, to this child and to the others. */
  function Ids(events: seq<Event>): nat {
    if events == [] then 0
    else Ids(events[..|events| - 1]) + if events[|events| - 1].Ask? || events[|events| - 1].AskElsewhere? then 1 else 0
  }

  lemma {:induction false} NextIdCountsIds(events: seq<Event>)
    ensures RunTable(events).nextId == 1 + Ids(events)
  {
    if events != [] {
      NextIdCountsIds(events[..|events| - 1]);
    }
  }

  /** A request waits under its reply type and the next id, with its timer armed, and disturbs no other one. */
  lemma AskWaitsForItsReply(events: seq<Event>, t: string)
    ensures var w, w' := RunTable(events), RunTable(events + [Ask(t)]);
            && w'.keys == w.keys + [Key(t, Some(1 + Ids(events)))]
            && w'.armed == w.armed + {|w.keys|} && |w.keys| !in w.armed
            && w'.settled == w.settled && |w.keys| !in w'.settled
  {
    AlwaysAgrees(events);
    NextIdCountsIds(events);
    assert (events + [Ask(t)])[..|events|] == events;
  }

  /** Its reply, whatever was asked in between, settles it and nothing else. */
  lemma ReplySettlesItsRequest(events: seq<Event>, r: nat)
    requires var w := RunTable(events); r < |w.keys| && r in w.armed
    ensures var w, w' := RunTable(events), RunTable(events + [ReplyArrives(RunTable(events).keys[r])]);
            w'.settled == w.settled[r := Replied] && w'.armed == w.armed - {r} && w'.keys == w.keys
  {
    AlwaysAgrees(events);
    var e := ReplyArrives(RunTable(events).keys[r]);
    assert (events + [e])[..|events|] == events;
  }

  /** Once `ready` has been asked for, its request is known; once `started` has, it was answered. */
  ghost predicate BootInOrder(w: Table) {
    !w.stage.Forked? ==>
      && w.stage.ready < |w.keys| && w.keys[w.stage.ready] == Key("ready", None)
      && (w.stage.StartSent? ==> w.stage.ready in w.settled && w.settled[w.stage.ready] == Replied)
  }

  lemma NextKeepsOutcome(w: Table, e: Event, r: nat)
    requires Agreement(w) && r < |w.keys|
    ensures r < |Next(w, e).keys| && Next(w, e).keys[r] == w.keys[r]
    ensures r in w.settled ==> r in Next(w, e).settled && Next(w, e).settled[r] == w.settled[r]
  {
    WaitersAreArmed(w);
    OnlyWaitingAreSettled(w, e);
    SettledAsStated(w, e);
  }

  lemma TablePush(events: seq<Event>, e: Event)
    ensures RunTable(events + [e]) == Next(RunTable(events), e)
  {
    assert (events + [e])[..|events|] == events;
  }

  lemma SettledStaysOneMore(events: seq<Event>, e: Event, r: nat)
    requires r in RunTable(events).settled
    ensures r in RunTable(events + [e]).settled && RunTable(events + [e]).settled[r] == RunTable(events).settled[r]
  {
    AlwaysAgrees(events);
    TablePush(events, e);
    NextKeepsOutcome(RunTable(events), e, r);
  }

  /** What is settled stays settled, the same way. */
  lemma {:induction false} RequestSettledForGood(events: seq<Event>, more: seq<Event>, r: nat)
    requires r in RunTable(events).settled
    ensures r in RunTable(events + more).settled
    ensures RunTable(events + more).settled[r] == RunTable(events).settled[r]
  {
    if more == [] {
      assert events + more == events;
    } else {
      var n := |more| - 1;
      RequestSettledForGood(events, more[..n], r);
      SettledStaysOneMore(events + more[..n], more[n], r);
      assert events + more == events + more[..n] + [more[n]];
    }
  }

  /** The boot asks for `ready` once, and for `started` only after `ready` has been answered. */
  lemma {:induction false} StartedIsAskedAfterReady(events: seq<Event>)
    ensures BootInOrder(RunTable(events))
    ensures RunTable(events).stage.Forked? <==> Boot !in events
  {
    if events != [] {
      var before, e := events[..|events| - 1], events[|events| - 1];
      StartedIsAskedAfterReady(before);
      AlwaysAgrees(before);
      assert events == before + [e];
      var w := RunTable(before);
      if !w.stage.Forked? {
        NextKeepsOutcome(w, e, w.stage.ready);
      }
    }
  }

  /** A reply that is late or a duplicate, its request already settled, changes nothing at all. */
  lemma LateReplySettlesNothing(events: seq<Event>, r: nat)
    requires r < |RunTable(events).keys| && r in RunTable(events).settled
    ensures Next(RunTable(events), ReplyArrives(RunTable(events).keys[r])) == RunTable(events)
  {
    AlwaysAgrees(events);
    var w := RunTable(events);
    forall k | k in w.waiters ensures k != w.keys[r] {
      var s := w.waiters[k];
      assert w.keys[s] == k && s in w.armed;
    }
  }

  /** After the child failed, nothing asked before is left waiting and no timer is left armed. */
  lemma FailureSettlesEverything(events: seq<Event>)
    ensures var w := Next(RunTable(events), ChildFails);
            w.armed == {} && w.waiters == map[] && forall r :: 0 <= r < |w.keys| ==> r in w.settled
  {
    AlwaysAgrees(events);
    WaitersAreArmed(RunTable(events));
  }

  /** A child's exit leaves nothing waiting if and only if the rig was not stopped, or nothing was. */
  lemma ExitSettlesIffRunning(events: seq<Event>)
    ensures var w := RunTable(events);
            Next(w, ChildExits).armed == {} <==> !w.stopped || w.armed == {}
  {
    AlwaysAgrees(events);
    WaitersAreArmed(RunTable(events));
  }

  // ---------- The thread pool ----------

  datatype PoolHow = Value(value: int) | Rejected

  /** Call `i` carries id `i`; `workerOf[i]` is where it was posted. */
  datatype Pool = Pool(size: nat, nextId: nat, pending: set<nat>, settled: map<nat, PoolHow>, workerOf: seq<int>, closed: bool)

  datatype PoolEvent =
    | RunCall(throws: bool)
    | Message(id: nat, value: int)
    | WorkerError
    | WorkerExit
    | Close

  function FailAll(p: Pool): Pool {
    p.(pending := {}, settled := map id | id in p.settled.Keys + p.pending :: if id in p.pending then Rejected else p.settled[id])
  }

  /** With no workers, posting throws whatever the caller says. */
  function PoolNext(p: Pool, e: PoolEvent): Pool {
    match e
    case RunCall(throws) =>
      var id := p.nextId;
      var p' := p.(nextId := id + 1, workerOf := p.workerOf + [if p.size == 0 then -1 else id % p.size]);
      if throws || p.size == 0 then p'.(settled := p.settled[id := Rejected]) else p'.(pending := p.pending + {id})
    case Message(id, value) =>
      if id !in p.pending then p else p.(pending := p.pending - {id}, settled := p.settled[id := Value(value)])
    case WorkerError => FailAll(p)
    case WorkerExit => if p.closed then p else FailAll(p)
    case Close => FailAll(p.(closed := true))
  }

  function NewPool(size: nat): Pool {
    Pool(size, 0, {}, map[], [], false)
  }

  class ThreadPool {
    const size: nat
    var pending: set<nat>
    var settled: map<nat, PoolHow>
    var workerOf: seq<int>
    var nextId: nat
    var cursor: nat
    var closed: bool

    constructor (size: nat)
      ensures Valid() && Abs() == NewPool(size)
    {
      this.size := size;
      pending, settled, workerOf := {}, map[], [];
      nextId, cursor, closed := 0, 0, false;
    }

    ghost function Abs(): Pool
      reads this
    {
      Pool(size, nextId, pending, settled, workerOf, closed)
    }

    ghost predicate Valid()
      reads this
    {
      cursor == nextId && forall id :: id in pending ==> id < nextId
    }

    method FailPending()
      modifies `pending, `settled
      ensures Abs() == FailAll(old(Abs()))
    {
      ghost var done: set<nat> := {};
      while pending != {}
        invariant done + pending == old(pending) && done !! pending
        invariant settled == map id | id in old(settled).Keys + done :: if id in done then Rejected else old(settled)[id]
        decreases pending
      {
        var id :| id in pending;
        pending := pending - {id};
        settled := settled[id := Rejected];
        done := done + {id};
      }
    }

    method Run(throws: bool) returns (id: nat)
      requires Valid()
      modifies this
      ensures Valid() && id == old(nextId) && Abs() == PoolNext(old(Abs()), RunCall(throws))
    {
      id := nextId;
      nextId := nextId + 1;
      var worker := if size == 0 then -1 else cursor % size;
      cursor := cursor + 1;
      workerOf := workerOf + [worker];
      pending := pending + {id};
      if throws || worker == -1 {
        pending := pending - {id};
        settled := settled[id := Rejected];
      }
    }

    method OnMessage(id: nat, value: int)
      requires Valid()
      modifies `pending, `settled
      ensures Valid() && Abs() == PoolNext(old(Abs()), Message(id, value))
    {
      if id in pending {
        pending := pending - {id};
        settled := settled[id := Value(value)];
      }
    }

    method OnExit()
      requires Valid()
      modifies `pending, `settled
      ensures Valid() && Abs() == PoolNext(old(Abs()), WorkerExit)
    {
      if !closed {
        FailPending();
      }
    }

    method CloseAll()
      requires Valid()
      modifies `pending, `settled, `closed
      ensures Valid() && Abs() == PoolNext(old(Abs()), Close)
    {
      closed := true;
      FailPending();
    }
  }

  function RunPool(size: nat, events: seq<PoolEvent>): Pool {
    if events == [] then NewPool(size) else PoolNext(RunPool(size, events[..|events| - 1]), events[|events| - 1])
  }

  /** A call is pending or settled, never both and never neither. */
  ghost predicate PoolOk(p: Pool) {
    && (forall id: nat :: id < p.nextId <==> id in p.pending || id in p.settled)
    && p.pending !! p.settled.Keys
    && |p.workerOf| == p.nextId
    && (p.size > 0 ==> forall i :: 0 <= i < |p.workerOf| ==> p.workerOf[i] == i % p.size)
    && (p.size == 0 ==> p.pending == {})
  }

  lemma {:induction false} PoolAlwaysOk(size: nat, events: seq<PoolEvent>)
    ensures PoolOk(RunPool(size, events)) && RunPool(size, events).size == size
  {
    if events != [] {
      PoolAlwaysOk(size, events[..|events| - 1]);
      PoolStaysOk(RunPool(size, events[..|events| - 1]), events[|events| - 1]);
    }
  }

  lemma PoolStaysOk(p: Pool, e: PoolEvent)
    requires PoolOk(p)
    ensures PoolOk(PoolNext(p, e)) && PoolNext(p, e).size == p.size
  {
  }

  /** What is settled stays settled, the same way. */
  lemma {:induction false} SettledForGood(size: nat, events: seq<PoolEvent>, more: seq<PoolEvent>, id: nat)
    requires id in RunPool(size, events).settled
    ensures id in RunPool(size, events + more).settled
    ensures RunPool(size, events + more).settled[id] == RunPool(size, events).settled[id]
  {
    if more == [] {
      assert events + more == events;
    } else {
      var n := |more| - 1;
      SettledForGood(size, events, more[..n], id);
      PoolAlwaysOk(size, events + more[..n]);
      assert more == more[..n] + [more[n]];
      RunPoolPush(size, events, more[..n], more[n]);
      StepKeepsSettled(RunPool(size, events + more[..n]), more[n], id);
    }
  }

  lemma StepKeepsSettled(p: Pool, e: PoolEvent, id: nat)
    requires PoolOk(p) && id in p.settled
    ensures id in PoolNext(p, e).settled && PoolNext(p, e).settled[id] == p.settled[id]
  {
  }

  lemma RunPoolPush(size: nat, events: seq<PoolEvent>, more: seq<PoolEvent>, e: PoolEvent)
    ensures RunPool(size, events + (more + [e])) == PoolNext(RunPool(size, events + more), e)
  {
    assert (events + (more + [e]))[..|events| + |more|] == events + more;
  }

  /** Whatever follows a `close`, every call issued before it is settled. */
  lemma CloseSettlesEarlierCalls(size: nat, events: seq<PoolEvent>, more: seq<PoolEvent>, id: nat)
    requires id < RunPool(size, events).nextId
    ensures id in RunPool(size, events + [Close] + more).settled
  {
    PoolAlwaysOk(size, events);
    assert (events + [Close])[..|events|] == events;
    SettledForGood(size, events + [Close], more, id);
  }

  lemma {:induction false} ClosedIff(size: nat, events: seq<PoolEvent>)
    ensures RunPool(size, events).closed <==> Close in events
  {
    if events != [] {
      var n := |events| - 1;
      ClosedIff(size, events[..n]);
      assert events == events[..n] + [events[n]];
    }
  }

  /** How many calls were made. */
  function Calls(events: seq<PoolEvent>): nat {
    if events == [] then 0 else Calls(events[..|events| - 1]) + if events[|events| - 1].RunCall? then 1 else 0
  }

  /** The calls are numbered in the order they were made. */
  lemma {:induction false} IdsCountCalls(size: nat, events: seq<PoolEvent>)
    ensures RunPool(size, events).nextId == Calls(events)
  {
    if events != [] {
      IdsCountCalls(size, events[..|events| - 1]);
    }
  }

  /**
   What settles the pending call `id` after `history`: its own message, a worker's error, a close, or
   a worker's exit if the pool was never closed.
   */
  predicate Settles(history: seq<PoolEvent>, e: PoolEvent, id: nat) {
    match e
    case Message(i, _) => i == id
    case WorkerError => true
    case WorkerExit => Close !in history
    case Close => true
    case RunCall(_) => false
  }

  /** And how: a message resolves it with the value it carries, everything else rejects it. */
  function HowSettled(e: PoolEvent): PoolHow {
    match e
    case Message(_, value) => Value(value)
    case _ => Rejected
  }

  lemma StepSettlesIff(size: nat, history: seq<PoolEvent>, e: PoolEvent, id: nat)
    requires var p := RunPool(size, history); id in p.pending || id in p.settled
    ensures var p := RunPool(size, history);
            var p' := PoolNext(p, e);
            && (id in p'.settled <==> id in p.settled || Settles(history, e, id))
            && (id in p.pending && Settles(history, e, id) ==> p'.settled[id] == HowSettled(e))
            && (id in p'.pending || id in p'.settled)
  {
    PoolAlwaysOk(size, history);
    ClosedIff(size, history);
  }

  /** Event `k` of `more` settles the call if nothing before it has. */
  predicate SettledAt(events: seq<PoolEvent>, more: seq<PoolEvent>, k: int, id: nat) {
    0 <= k < |more| && Settles(events + more[..k], more[k], id)
  }

  /** Some event of `more` does. */
  ghost predicate SettledBySome(events: seq<PoolEvent>, more: seq<PoolEvent>, id: nat) {
    exists k :: SettledAt(events, more, k, id)
  }

  lemma SettledByLast(events: seq<PoolEvent>, more: seq<PoolEvent>, e: PoolEvent, id: nat)
    ensures SettledBySome(events, more + [e], id)
       <==> SettledBySome(events, more, id) || Settles(events + more, e, id)
  {
    var n := |more|;
    assert (more + [e])[..n] == more;
    forall k | 0 <= k < n
      ensures SettledAt(events, more + [e], k, id) <==> SettledAt(events, more, k, id)
    {
      assert (more + [e])[..k] == more[..k];
    }
    assert SettledAt(events, more + [e], n, id) <==> Settles(events + more, e, id);
    if SettledBySome(events, more, id) {
      var k :| SettledAt(events, more, k, id);
      assert SettledAt(events, more + [e], k, id);
    }
  }

  lemma {:induction false} PendingUntilSettled(size: nat, events: seq<PoolEvent>, more: seq<PoolEvent>, id: nat)
    requires id in RunPool(size, events).pending
    ensures id in RunPool(size, events + more).settled <==> SettledBySome(events, more, id)
    ensures id in RunPool(size, events + more).pending <==> !SettledBySome(events, more, id)
  {
    PoolAlwaysOk(size, events + more);
    if more == [] {
      assert events + more == events;
    } else {
      var before, e := more[..|more| - 1], more[|more| - 1];
      assert more == before + [e];
      PendingUntilSettled(size, events, before, id);
      PoolAlwaysOk(size, events + before);
      RunPoolPush(size, events, before, e);
      SettledByLast(events, before, e, id);
      StepSettlesIff(size, events + before, e, id);
    }
  }

  /**
   For every run: a call that was posted is settled if and only if, after it, its own message
   arrived, a worker failed, the pool was closed, or a worker exited while the pool was open.
   */
  lemma CallIsSettledIff(size: nat, events: seq<PoolEvent>, more: seq<PoolEvent>)
    requires size > 0
    ensures var id, posted := RunPool(size, events).nextId, events + [RunCall(false)];
            id in RunPool(size, posted + more).settled <==> SettledBySome(posted, more, id)
  {
    var posted := events + [RunCall(false)];
    PostedIsPending(size, events);
    PendingUntilSettled(size, posted, more, RunPool(size, events).nextId);
  }

  /** No event of `more` before `k` settles the call, and event `k` does. */
  ghost predicate FirstSettledAt(events: seq<PoolEvent>, more: seq<PoolEvent>, k: int, id: nat) {
    SettledAt(events, more, k, id) && forall i :: 0 <= i < k ==> !SettledAt(events, more, i, id)
  }

  lemma {:induction false} SomeIsFirst(events: seq<PoolEvent>, more: seq<PoolEvent>, k: nat, id: nat) returns (first: nat)
    requires SettledAt(events, more, k, id)
    ensures FirstSettledAt(events, more, first, id)
  {
    if FirstSettledAt(events, more, k, id) {
      first := k;
    } else {
      var i :| 0 <= i < k && SettledAt(events, more, i, id);
      first := SomeIsFirst(events, more, i, id);
    }
  }

  lemma FirstSettlesAsItSays(size: nat, events: seq<PoolEvent>, more: seq<PoolEvent>, k: nat, id: nat)
    requires id in RunPool(size, events).pending && FirstSettledAt(events, more, k, id)
    ensures id in RunPool(size, events + more).settled
    ensures RunPool(size, events + more).settled[id] == HowSettled(more[k])
  {
    var before, after := more[..k], more[k + 1..];
    NoneBeforeTheFirst(events, more, k, id);
    PendingUntilSettled(size, events, before, id);
    StepSettlesIff(size, events + before, more[k], id);
    RunPoolPush(size, events, before, more[k]);
    SettledForGood(size, events + (before + [more[k]]), after, id);
    Rejoin(events, more, k);
  }

  lemma NoneBeforeTheFirst(events: seq<PoolEvent>, more: seq<PoolEvent>, k: nat, id: nat)
    requires FirstSettledAt(events, more, k, id)
    ensures !SettledBySome(events, more[..k], id)
  {
    forall i | 0 <= i < k ensures !SettledAt(events, more[..k], i, id) {
      assert more[..k][..i] == more[..i];
      assert !SettledAt(events, more, i, id);
    }
  }

  lemma Rejoin(events: seq<PoolEvent>, more: seq<PoolEvent>, k: nat)
    requires k < |more|
    ensures events + (more[..k] + [more[k]]) + more[k + 1..] == events + more
  {
  }

  /**
   How a posted call comes out, for every run: resolved with `v` if and only if the first event after it
   that settles it is its message carrying `v`, and rejected if and only if that event is a worker's
   error, a close, or a worker's exit while the pool was open.
   */
  lemma OutcomeIsTheFirstToSettle(size: nat, events: seq<PoolEvent>, more: seq<PoolEvent>, v: int)
    requires size > 0
    ensures var id, posted := Calls(events), events + [RunCall(false)];
            var p := RunPool(size, posted + more);
            && ((id in p.settled && p.settled[id] == Value(v)) <==>
                exists k :: FirstSettledAt(posted, more, k, id) && more[k] == Message(id, v))
            && ((id in p.settled && p.settled[id] == Rejected) <==>
                exists k :: FirstSettledAt(posted, more, k, id) && !more[k].Message?)
  {
    var id, posted := Calls(events), events + [RunCall(false)];
    IdsCountCalls(size, events);
    CallIsSettledIff(size, events, more);
    PostedIsPending(size, events);
    forall k: nat | FirstSettledAt(posted, more, k, id)
      ensures id in RunPool(size, posted + more).settled
      ensures RunPool(size, posted + more).settled[id] == HowSettled(more[k])
    {
      FirstSettlesAsItSays(size, posted, more, k, id);
    }
    if SettledBySome(posted, more, id) {
      var k :| SettledAt(posted, more, k, id);
      var first := SomeIsFirst(posted, more, k, id);
      assert more[first].Message? ==> more[first].id == id;
    }
  }

  lemma PostedIsPending(size: nat, events: seq<PoolEvent>)
    requires size > 0
    ensures RunPool(size, events).nextId in RunPool(size, events + [RunCall(false)]).pending
  {
    PoolAlwaysOk(size, events);
    assert (events + [RunCall(false)])[..|events|] == events;
  }

  /** A call whose post throws is rejected at once, for good, and never pending; with no worker every post throws. */
  lemma ThrownPostIsRejected(size: nat, events: seq<PoolEvent>, throws: bool, more: seq<PoolEvent>)
    requires throws || size == 0
    ensures var id, p := Calls(events), RunPool(size, events + [RunCall(throws)] + more);
            id !in p.pending && id in p.settled && p.settled[id] == Rejected
  {
    var posted := events + [RunCall(throws)];
    assert posted[..|events|] == events;
    PoolAlwaysOk(size, events);
    IdsCountCalls(size, events);
    SettledForGood(size, posted, more, Calls(events));
    PoolAlwaysOk(size, posted + more);
  }

  /** So a worker's exit settles a call just posted if and only if the pool was never closed: a late call can hang. */
  lemma ExitSettlesCallIffNeverClosed(size: nat, events: seq<PoolEvent>)
    requires size > 0
    ensures RunPool(size, events).nextId in RunPool(size, events + [RunCall(false), WorkerExit]).settled <==> Close !in events
  {
    var all := events + [RunCall(false), WorkerExit];
    assert all[..|events| + 1] == events + [RunCall(false)];
    assert (events + [RunCall(false)])[..|events|] == events;
    PoolAlwaysOk(size, events);
    ClosedIff(size, events);
  }

  /** Calls go to the workers in turn. */
  lemma RoundRobin(size: nat, events: seq<PoolEvent>, id: nat)
    requires size > 0 && id < RunPool(size, events).nextId
    ensures var p := RunPool(size, events); id < |p.workerOf| && p.workerOf[id] == id % size
  {
    PoolAlwaysOk(size, events);
  }
}
