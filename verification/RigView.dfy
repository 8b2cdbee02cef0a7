/**
 The Tier-2 rig's membership traffic: children ask the parent's hub through RPCs, the parent
 answers and then pushes the hub's view to every registered child.  `rig.ts` is the parent,
 `child.ts` the child, `cluster/memory.ts` the hub.

 The parent's answer to one RPC is two steps here, invoking the hub and sending the reply, so
 that any other traffic may fall between them.
 */
module RigView {
  import opened Common
  import opened Sequences

  // ---------- The hub ----------

  datatype Descriptor = Descriptor(advertise: string, status: string)

  /** What `view()` returns: the version and the hosts it lists. */
  datatype View = View(version: nat, hosts: map<string, Descriptor>)

  /** A membership operation, or any directory operation, which leaves the view alone. */
  datatype StoreOp =
    | Join(hostId: string, self: Descriptor)
    | SetStatus(status: string)
    | Leave
    | Refresh
    | IsAlive(hostId: string)
    | DirectoryOp

  /** The hub after `op` from the provider whose own host is `self`, and that provider's host then. */
  function Invoke(hub: View, self: Option<string>, op: StoreOp): (View, Option<string>) {
    match op
    case Join(hostId, d) => (View(hub.version + 1, hub.hosts[hostId := d]), Some(hostId))
    case SetStatus(status) =>
      if self.Some? && self.value in hub.hosts then
        (View(hub.version + 1, hub.hosts[self.value := hub.hosts[self.value].(status := status)]), self)
      else (hub, self)
    case Leave =>
      if self.Some? && self.value in hub.hosts then (View(hub.version + 1, hub.hosts - {self.value}), self)
      else (hub, self)
    case _ => (hub, self)
  }

  // ---------- Messages and processes ----------

  datatype ToChild =
    | ViewMsg(view: View)
    | StoreReply(id: nat, refreshed: Option<View>)

  datatype StoreCall = StoreCall(id: nat, op: StoreOp)

  /** The two directions of one child's IPC channel; once disconnected nothing more is sent. */
  datatype Link = Link(connected: bool, toChild: seq<ToChild>, toParent: seq<StoreCall>)

  datatype Child = Child(nextRpc: nat, pending: set<nat>, cached: View)

  const NEWBORN := Child(1, {}, View(0, map[]))

  /** An answer computed but not yet sent. */
  datatype Task = Task(child: nat, id: nat, membership: bool, refreshed: Option<View>)

  /**
   `links[i]`, `kids[i]` and `selves[i]` belong to the i-th forked child; the first `registered`
   of them are in `members`.  `covered` is history: how many were registered at the last broadcast.
   */
  datatype World = World(
    hub: View, selves: seq<Option<string>>, links: seq<Link>, kids: seq<Child>,
    tasks: seq<Task>, registered: nat, up: bool, covered: nat)

  function Send(l: Link, m: ToChild): Link {
    if l.connected then l.(toChild := l.toChild + [m]) else l
  }

  function Broadcast(links: seq<Link>, registered: nat, hub: View): seq<Link>
    requires registered <= |links|
  {
    seq(|links|, i requires 0 <= i < |links| => if i < registered then Send(links[i], ViewMsg(hub)) else links[i])
  }

  /** The child's handler for `view` and `storeReply`; a reply nobody waits for is dropped. */
  function Handle(c: Child, m: ToChild): Child {
    match m
    case ViewMsg(v) => c.(cached := v)
    case StoreReply(id, refreshed) =>
      if id !in c.pending then c
      else c.(pending := c.pending - {id}, cached := if refreshed.Some? then refreshed.value else c.cached)
  }

  function Rpc(c: Child, op: StoreOp): (Child, StoreCall) {
    (c.(nextRpc := c.nextRpc + 1, pending := c.pending + {c.nextRpc}), StoreCall(c.nextRpc, op))
  }

  // ---------- The two processes as they run ----------

  class ChildProcess {
    var nextRpc: nat
    var pending: set<nat>
    var cachedView: View

    constructor ()
      ensures Abs() == NEWBORN
    {
      nextRpc, pending, cachedView := 1, {}, View(0, map[]);
    }

    ghost function Abs(): Child
      reads this
    {
      Child(nextRpc, pending, cachedView)
    }

    method CallStore(op: StoreOp) returns (message: StoreCall)
      modifies this
      ensures (Abs(), message) == Rpc(old(Abs()), op)
    {
      var id := nextRpc;
      nextRpc := nextRpc + 1;
      pending := pending + {id};
      message := StoreCall(id, op);
    }

    method OnMessage(m: ToChild)
      modifies this
      ensures Abs() == Handle(old(Abs()), m)
    {
      match m {
        case ViewMsg(view) => cachedView := view;
        case StoreReply(id, refreshed) =>
          if id in pending {
            pending := pending - {id};
            if refreshed.Some? {
              cachedView := refreshed.value;
            }
          }
      }
    }
  }

  class Parent {
    var hub: View
    var selves: seq<Option<string>>
    var links: seq<Link>
    var tasks: seq<Task>
    var registered: nat

    ghost predicate Valid()
      reads this
    {
      registered <= |links| == |selves|
    }

    constructor ()
      ensures Valid() && links == [] && tasks == [] && registered == 0 && hub == View(0, map[])
    {
      hub, selves, links, tasks, registered := View(0, map[]), [], [], [], 0;
    }

    /** Push the hub's view to every registered child that can still be reached. */
    method BroadcastView()
      requires Valid()
      modifies `links
      ensures Valid() && links == Broadcast(old(links), registered, hub)
    {
      ghost var before := links;
      for m := 0 to registered
        invariant Valid() && |links| == |before|
        invariant forall i :: 0 <= i < m ==> links[i] == Send(before[i], ViewMsg(hub))
        invariant forall i :: m <= i < |links| ==> links[i] == before[i]
      {
        if links[m].connected {
          links := links[m := links[m].(toChild := links[m].toChild + [ViewMsg(hub)])];
        }
      }
    }

    /** A `store` message arrived: run it against the hub and keep the answer to send. */
    method ReceiveStore(child: nat, call: StoreCall)
      requires Valid() && child < |links|
      modifies `hub, `selves, `tasks
      ensures Valid()
      ensures (hub, selves[child]) == Invoke(old(hub), old(selves[child]), call.op)
      ensures selves == old(selves)[child := selves[child]]
      ensures tasks == old(tasks) + [TaskFor(child, call, hub)]
    {
      var (h, self) := Invoke(hub, selves[child], call.op);
      hub, selves := h, selves[child := self];
      tasks := tasks + [TaskFor(child, call, hub)];
    }

    /** Send one computed answer; a membership operation is followed by a broadcast. */
    method SendReply(t: nat)
      requires Valid() && t < |tasks| && tasks[t].child < |links|
      modifies `links, `tasks
      ensures Valid() && tasks == old(tasks)[..t] + old(tasks)[t + 1..]
      ensures var task := old(tasks)[t];
              var sent := old(links)[task.child := Send(old(links)[task.child], StoreReply(task.id, task.refreshed))];
              links == if task.membership then Broadcast(sent, registered, hub) else sent
    {
      var task := tasks[t];
      tasks := tasks[..t] + tasks[t + 1..];
      if links[task.child].connected {
        var l := links[task.child];
        links := links[task.child := l.(toChild := l.toChild + [StoreReply(task.id, task.refreshed)])];
      }
      assert links == old(links)[task.child := Send(old(links)[task.child], StoreReply(task.id, task.refreshed))];
      if task.membership {
        BroadcastView();
      }
    }

    method Fork()
      requires Valid()
      modifies `links, `selves
      ensures Valid() && links == old(links) + [Link(true, [], [])] && selves == old(selves) + [None]
    {
      links, selves := links + [Link(true, [], [])], selves + [None];
    }

    /** The tail of `startChild`: broadcast first, and only then join `members`. */
    method Register()
      requires Valid() && registered < |links|
      modifies `links, `registered
      ensures Valid() && links == Broadcast(old(links), old(registered), hub) && registered == old(registered) + 1
    {
      BroadcastView();
      registered := registered + 1;
    }
  }

  function TaskFor(child: nat, call: StoreCall, hub: View): Task {
    Task(child, call.id, !call.op.DirectoryOp?, if call.op.Refresh? then Some(hub) else None)
  }

  // ---------- Runs ----------

  datatype Event =
    | ForkChild
    | RegisterChild
    | FinishStart
    | ChildCalls(child: nat, op: StoreOp)
    | ParentReceives(child: nat)
    | ParentReplies(task: nat)
    | ChildReceives(child: nat)
    | Disconnects(child: nat)

  const BEGIN := World(View(0, map[]), [], [], [], [], 0, false, 0)

  predicate Shaped(w: World) {
    && |w.selves| == |w.links| == |w.kids|
    && w.covered <= w.registered <= |w.links|
    && forall t :: 0 <= t < |w.tasks| ==> w.tasks[t].child < |w.links|
  }

  function Pushed(w: World): World
    requires Shaped(w)
  {
    w.(links := Broadcast(w.links, w.registered, w.hub), covered := w.registered)
  }

  /** One event; an event that cannot happen in `w` changes nothing. */
  function Next(w: World, e: Event): (w': World)
    requires Shaped(w)
    ensures Shaped(w')
  {
    match e
    case ForkChild =>
      if w.up || |w.links| != w.registered then w
      else w.(links := w.links + [Link(true, [], [])], selves := w.selves + [None], kids := w.kids + [NEWBORN])
    case RegisterChild =>
      if w.up || |w.links| != w.registered + 1 then w
      else Pushed(w).(registered := w.registered + 1)
    case FinishStart =>
      if w.up || |w.links| != w.registered then w else Pushed(w).(up := true)
    case ChildCalls(c, op) =>
      if c >= |w.links| || !w.links[c].connected then w
      else
        var (kid, call) := Rpc(w.kids[c], op);
        w.(kids := w.kids[c := kid], links := w.links[c := w.links[c].(toParent := w.links[c].toParent + [call])])
    case ParentReceives(c) =>
      if c >= |w.links| || w.links[c].toParent == [] then w
      else
        var call := w.links[c].toParent[0];
        var (hub, self) := Invoke(w.hub, w.selves[c], call.op);
        w.(hub := hub, selves := w.selves[c := self],
           links := w.links[c := w.links[c].(toParent := w.links[c].toParent[1..])],
           tasks := w.tasks + [TaskFor(c, call, hub)])
    case ParentReplies(t) =>
      if t >= |w.tasks| then w
      else
        var task := w.tasks[t];
        var w' := w.(tasks := w.tasks[..t] + w.tasks[t + 1..],
                     links := w.links[task.child := Send(w.links[task.child], StoreReply(task.id, task.refreshed))]);
        if task.membership then Pushed(w') else w'
    case ChildReceives(c) =>
      if c >= |w.links| || w.links[c].toChild == [] then w
      else
        w.(kids := w.kids[c := Handle(w.kids[c], w.links[c].toChild[0])],
           links := w.links[c := w.links[c].(toChild := w.links[c].toChild[1..])])
    case Disconnects(c) =>
      if c >= |w.links| then w else w.(links := w.links[c := w.links[c].(connected := false)])
  }

  function RunEvents(events: seq<Event>): (w: World)
    ensures Shaped(w)
  {
    if events == [] then BEGIN else Next(RunEvents(events[..|events| - 1]), events[|events| - 1])
  }

  // ---------- What the hub lists, from the operations it received ----------

  datatype Received = Received(child: nat, op: StoreOp)

  predicate Receives(w: World, e: Event) {
    e.ParentReceives? && e.child < |w.links| && w.links[e.child].toParent != []
  }

  /** The operations that reached the hub, in the order in which they did. */
  function ReceivedBy(events: seq<Event>): seq<Received> {
    if events == [] then []
    else
      var before, e := events[..|events| - 1], events[|events| - 1];
      var w := RunEvents(before);
      ReceivedBy(before) + if Receives(w, e) then [Received(e.child, w.links[e.child].toParent[0].op)] else []
  }

  /** The host a child joined as, last. */
  function HostOf(ops: seq<Received>, child: nat): Option<string> {
    if ops == [] then None
    else
      var r := ops[|ops| - 1];
      if r.child == child && r.op.Join? then Some(r.op.hostId) else HostOf(ops[..|ops| - 1], child)
  }

  /** How a host is listed: as it joined, with the status its child set since, until its child leaves. */
  function Listed(ops: seq<Received>, host: string): Option<Descriptor> {
    if ops == [] then None
    else
      var before, r := ops[..|ops| - 1], ops[|ops| - 1];
      match r.op
      case Join(h, d) => if h == host then Some(d) else Listed(before, host)
      case SetStatus(status) =>
        if HostOf(before, r.child) == Some(host) && Listed(before, host).Some? then
          Some(Listed(before, host).value.(status := status))
        else Listed(before, host)
      case Leave => if HostOf(before, r.child) == Some(host) then None else Listed(before, host)
      case _ => Listed(before, host)
  }

  /** How many of the operations changed what is listed: every join, and status changes and leaves of a listed host. */
  function Changes(ops: seq<Received>): nat {
    if ops == [] then 0
    else
      var before, r := ops[..|ops| - 1], ops[|ops| - 1];
      var own := HostOf(before, r.child);
      Changes(before)
      + if r.op.Join? || ((r.op.SetStatus? || r.op.Leave?) && own.Some? && Listed(before, own.value).Some?) then 1 else 0
  }

  ghost predicate HubFollows(w: World, ops: seq<Received>) {
    && w.hub.version == Changes(ops)
    && (forall host :: Listed(ops, host) == if host in w.hub.hosts then Some(w.hub.hosts[host]) else None)
    && (forall c :: 0 <= c < |w.selves| ==> w.selves[c] == HostOf(ops, c))
    && (forall k :: 0 <= k < |ops| ==> ops[k].child < |w.selves|)
  }

  lemma {:induction false} NoHostYet(ops: seq<Received>, child: nat)
    requires forall k :: 0 <= k < |ops| ==> ops[k].child != child
    ensures HostOf(ops, child) == None
  {
    if ops != [] {
      NoHostYet(ops[..|ops| - 1], child);
    }
  }

  lemma ReceiveFollows(w: World, c: nat, ops: seq<Received>)
    requires Shaped(w) && HubFollows(w, ops) && c < |w.links| && w.links[c].toParent != []
    ensures HubFollows(Next(w, ParentReceives(c)), ops + [Received(c, w.links[c].toParent[0].op)])
  {
    assert (ops + [Received(c, w.links[c].toParent[0].op)])[..|ops|] == ops;
  }

  lemma OthersLeaveTheHub(w: World, e: Event)
    requires Shaped(w) && !Receives(w, e)
    ensures Next(w, e).hub == w.hub
    ensures Next(w, e).selves == w.selves || Next(w, e).selves == w.selves + [None]
  {
  }

  /**
   The hub lists exactly the hosts that joined and have not left, each with the last status set by its
   own child, and its version counts the operations that changed the list.
   */
  lemma {:induction false} HubIsItsHistory(events: seq<Event>)
    ensures HubFollows(RunEvents(events), ReceivedBy(events))
  {
    if events != [] {
      var before, e := events[..|events| - 1], events[|events| - 1];
      HubIsItsHistory(before);
      var w := RunEvents(before);
      if Receives(w, e) {
        ReceiveFollows(w, e.child, ReceivedBy(before));
      } else {
        OthersFollow(w, e, ReceivedBy(before));
        assert ReceivedBy(events) == ReceivedBy(before);
      }
    }
  }

  lemma OthersFollow(w: World, e: Event, ops: seq<Received>)
    requires Shaped(w) && HubFollows(w, ops) && !Receives(w, e)
    ensures HubFollows(Next(w, e), ops)
  {
    OthersLeaveTheHub(w, e);
    NoHostYet(ops, |w.selves|);
  }

  // ---------- Every operation arrives, in order, and is answered for what it was ----------

  function OpsOf(calls: seq<StoreCall>): seq<StoreOp> {
    seq(|calls|, i requires 0 <= i < |calls| => calls[i].op)
  }

  function OpsBy(ops: seq<Received>, child: nat): seq<StoreOp> {
    if ops == [] then []
    else OpsBy(ops[..|ops| - 1], child) + if ops[|ops| - 1].child == child then [ops[|ops| - 1].op] else []
  }

  predicate CallsNow(w: World, e: Event, child: nat) {
    e.ChildCalls? && e.child == child && child < |w.links| && w.links[child].connected
  }

  /** The operations a child called while it was connected. */
  function CalledBy(events: seq<Event>, child: nat): seq<StoreOp> {
    if events == [] then []
    else
      var before, e := events[..|events| - 1], events[|events| - 1];
      var w := RunEvents(before);
      CalledBy(before, child) + if CallsNow(w, e, child) then [e.op] else []
  }

  lemma OpsByPush(ops: seq<Received>, r: Received, child: nat)
    ensures OpsBy(ops + [r], child) == OpsBy(ops, child) + if r.child == child then [r.op] else []
  {
    assert (ops + [r])[..|ops|] == ops;
  }

  lemma {:induction false} NoOpsBy(ops: seq<Received>, child: nat)
    requires forall k :: 0 <= k < |ops| ==> ops[k].child != child
    ensures OpsBy(ops, child) == []
  {
    if ops != [] {
      NoOpsBy(ops[..|ops| - 1], child);
    }
  }

  /** What is on its way from a child to the parent; nothing from a child not forked yet. */
  function OnTheWay(w: World, child: nat): seq<StoreOp> {
    if child < |w.links| then OpsOf(w.links[child].toParent) else []
  }

  lemma PushedKeepsCalls(w: World, child: nat)
    requires Shaped(w)
    ensures OnTheWay(Pushed(w), child) == OnTheWay(w, child)
  {
  }

  lemma RepliesKeepCalls(w: World, t: nat, child: nat)
    requires Shaped(w) && t < |w.tasks|
    ensures OnTheWay(Next(w, ParentReplies(t)), child) == OnTheWay(w, child)
  {
    var task := w.tasks[t];
    var w' := w.(tasks := w.tasks[..t] + w.tasks[t + 1..],
                 links := w.links[task.child := Send(w.links[task.child], StoreReply(task.id, task.refreshed))]);
    assert OnTheWay(w', child) == OnTheWay(w, child);
    PushedKeepsCalls(w', child);
  }

  lemma OnTheWayNext(w: World, e: Event, child: nat)
    requires Shaped(w)
    ensures OnTheWay(Next(w, e), child)
         == if CallsNow(w, e, child) then OnTheWay(w, child) + [e.op]
            else if Receives(w, e) && e.child == child then OnTheWay(w, child)[1..]
            else OnTheWay(w, child)
  {
    match e {
      case RegisterChild => PushedKeepsCalls(w, child);
      case FinishStart => PushedKeepsCalls(w, child);
      case ParentReplies(t) => if t < |w.tasks| { RepliesKeepCalls(w, t, child); }
      case _ =>
    }
  }

  lemma CalledNext(before: seq<Event>, e: Event, child: nat)
    ensures CalledBy(before + [e], child)
         == if CallsNow(RunEvents(before), e, child) then CalledBy(before, child) + [e.op] else CalledBy(before, child)
  {
    assert (before + [e])[..|before|] == before;
  }

  lemma ReceivedNext(before: seq<Event>, e: Event, child: nat)
    ensures OpsBy(ReceivedBy(before + [e]), child)
         == if Receives(RunEvents(before), e) && e.child == child
            then OpsBy(ReceivedBy(before), child) + [OnTheWay(RunEvents(before), child)[0]]
            else OpsBy(ReceivedBy(before), child)
  {
    assert (before + [e])[..|before|] == before;
    var w, ops := RunEvents(before), ReceivedBy(before);
    if Receives(w, e) {
      OpsByPush(ops, Received(e.child, w.links[e.child].toParent[0].op), child);
    } else {
      assert ops + [] == ops;
    }
  }

  /** One event on three lists: what was called, what has arrived, and what is on its way. */
  lemma RejoinOps(called: seq<StoreOp>, arrived: seq<StoreOp>, now: seq<StoreOp>,
                  called': seq<StoreOp>, arrived': seq<StoreOp>, now': seq<StoreOp>, calls: Option<StoreOp>, arrives: bool)
    requires called == arrived + now && (calls.Some? ==> !arrives) && (arrives ==> now != [])
    requires called' == if calls.Some? then called + [calls.value] else called
    requires arrived' == if arrives then arrived + [now[0]] else arrived
    requires now' == if calls.Some? then now + [calls.value] else if arrives then now[1..] else now
    ensures called' == arrived' + now'
  {
  }

  /** A child's operations reach the hub in the order in which it called them, none lost and none twice. */
  lemma {:induction false} OperationsArriveInOrder(events: seq<Event>, child: nat)
    ensures CalledBy(events, child) == OpsBy(ReceivedBy(events), child) + OnTheWay(RunEvents(events), child)
  {
    if events != [] {
      var before, e := events[..|events| - 1], events[|events| - 1];
      assert events == before + [e];
      OperationsArriveInOrder(before, child);
      ArrivesInOrderNext(before, e, child);
    }
  }

  lemma ArrivesInOrderNext(before: seq<Event>, e: Event, child: nat)
    requires CalledBy(before, child) == OpsBy(ReceivedBy(before), child) + OnTheWay(RunEvents(before), child)
    ensures CalledBy(before + [e], child) == OpsBy(ReceivedBy(before + [e]), child) + OnTheWay(RunEvents(before + [e]), child)
  {
    var w := RunEvents(before);
    RunPush(before, e);
    CalledNext(before, e, child);
    ReceivedNext(before, e, child);
    OnTheWayNext(w, e, child);
    RejoinOps(CalledBy(before, child), OpsBy(ReceivedBy(before), child), OnTheWay(w, child),
              CalledBy(before + [e], child), OpsBy(ReceivedBy(before + [e]), child), OnTheWay(Next(w, e), child),
              if CallsNow(w, e, child) then Some(e.op) else None, Receives(w, e) && e.child == child);
  }

  /** An answer: for which RPC of which child, and the view it carries if the RPC was a refresh. */
  datatype Answer = Answer(child: nat, id: nat, refreshed: Option<View>)

  /** The answers due for the operations received so far: a refresh gets the hub's view as it then was. */
  function AnswersDue(events: seq<Event>): set<Answer> {
    if events == [] then {}
    else
      var before, e := events[..|events| - 1], events[|events| - 1];
      var w := RunEvents(before);
      AnswersDue(before)
      + if Receives(w, e) then
          var call := w.links[e.child].toParent[0];
          {Answer(e.child, call.id, if call.op.Refresh? then Some(w.hub) else None)}
        else {}
  }

  ghost predicate OnlyDue(w: World, due: set<Answer>) {
    && (forall t :: 0 <= t < |w.tasks| ==> Answer(w.tasks[t].child, w.tasks[t].id, w.tasks[t].refreshed) in due)
    && (forall c, m :: 0 <= c < |w.links| && m in w.links[c].toChild && m.StoreReply? ==> Answer(c, m.id, m.refreshed) in due)
  }

  lemma PushedOnlyDue(w: World, due: set<Answer>)
    requires Shaped(w) && OnlyDue(w, due)
    ensures OnlyDue(Pushed(w), due)
  {
  }

  lemma RepliesOnlyDue(w: World, t: nat, due: set<Answer>)
    requires Shaped(w) && OnlyDue(w, due) && t < |w.tasks|
    ensures OnlyDue(Next(w, ParentReplies(t)), due)
  {
    var task := w.tasks[t];
    var w' := w.(tasks := w.tasks[..t] + w.tasks[t + 1..],
                 links := w.links[task.child := Send(w.links[task.child], StoreReply(task.id, task.refreshed))]);
    assert OnlyDue(w', due);
    if task.membership {
      PushedOnlyDue(w', due);
    }
  }

  lemma NextOnlyDue(w: World, e: Event, due: set<Answer>)
    requires Shaped(w) && OnlyDue(w, due) && !Receives(w, e)
    ensures OnlyDue(Next(w, e), due)
  {
    match e {
      case RegisterChild => PushedOnlyDue(w, due);
      case FinishStart => PushedOnlyDue(w, due);
      case ParentReplies(t) => if t < |w.tasks| { RepliesOnlyDue(w, t, due); }
      case _ =>
    }
  }

  lemma ReceivesOnlyDue(w: World, c: nat, due: set<Answer>)
    requires Shaped(w) && OnlyDue(w, due) && c < |w.links| && w.links[c].toParent != []
    ensures var call := w.links[c].toParent[0];
            OnlyDue(Next(w, ParentReceives(c)), due + {Answer(c, call.id, if call.op.Refresh? then Some(w.hub) else None)})
  {
  }

  /** Every answer a child can receive is the one due for an RPC of its own; a refresh brings the view of its moment. */
  lemma {:induction false} AnswersAreThoseDue(events: seq<Event>)
    ensures OnlyDue(RunEvents(events), AnswersDue(events))
  {
    if events != [] {
      var before, e := events[..|events| - 1], events[|events| - 1];
      AnswersAreThoseDue(before);
      var w := RunEvents(before);
      if Receives(w, e) {
        ReceivesOnlyDue(w, e.child, AnswersDue(before));
      } else {
        NextOnlyDue(w, e, AnswersDue(before));
        assert AnswersDue(before) + {} == AnswersDue(before);
      }
    }
  }

  // ---------- Every RPC is somewhere exactly once ----------

  function CallsOf(calls: seq<StoreCall>, id: nat): nat {
    if calls == [] then 0 else CallsOf(calls[1..], id) + if calls[0].id == id then 1 else 0
  }

  function TaskOf(task: Task, child: nat, id: nat): nat {
    if task.child == child && task.id == id then 1 else 0
  }

  function TasksOf(tasks: seq<Task>, child: nat, id: nat): nat {
    if tasks == [] then 0 else TaskOf(tasks[0], child, id) + TasksOf(tasks[1..], child, id)
  }

  function RepliesOf(messages: seq<ToChild>, id: nat): nat {
    if messages == [] then 0
    else RepliesOf(messages[1..], id) + if messages[0].StoreReply? && messages[0].id == id then 1 else 0
  }

  /** How often child `c`'s RPC `id` is in flight: asked, being answered, or answered but not delivered. */
  function InFlight(w: World, c: nat, id: nat): nat
    requires c < |w.links|
  {
    CallsOf(w.links[c].toParent, id) + TasksOf(w.tasks, c, id) + RepliesOf(w.links[c].toChild, id)
  }

  /** A connected child waits for an RPC exactly if it is in flight, and then it is so once. */
  ghost predicate Conserved(w: World, c: nat, id: nat)
    requires Shaped(w) && c < |w.links|
  {
    w.links[c].connected ==>
      && InFlight(w, c, id) == (if id in w.kids[c].pending then 1 else 0)
      && (id in w.kids[c].pending ==> id < w.kids[c].nextRpc)
  }

  lemma {:induction false} CallsPush(calls: seq<StoreCall>, call: StoreCall, id: nat)
    ensures CallsOf(calls + [call], id) == CallsOf(calls, id) + if call.id == id then 1 else 0
  {
    if calls != [] {
      CallsPush(calls[1..], call, id);
      assert (calls + [call])[1..] == calls[1..] + [call];
    }
  }

  lemma {:induction false} TasksConcat(a: seq<Task>, b: seq<Task>, child: nat, id: nat)
    ensures TasksOf(a + b, child, id) == TasksOf(a, child, id) + TasksOf(b, child, id)
  {
    if a == [] {
      assert a + b == b;
    } else {
      TasksConcat(a[1..], b, child, id);
      assert (a + b)[1..] == a[1..] + b;
    }
  }

  lemma TasksRemove(tasks: seq<Task>, t: nat, child: nat, id: nat)
    requires t < |tasks|
    ensures TasksOf(tasks, child, id) == TasksOf(tasks[..t] + tasks[t + 1..], child, id) + TaskOf(tasks[t], child, id)
  {
    assert tasks == tasks[..t] + tasks[t..];
    TasksConcat(tasks[..t], tasks[t..], child, id);
    TasksConcat(tasks[..t], tasks[t + 1..], child, id);
  }

  lemma {:induction false} NoTasksOf(tasks: seq<Task>, child: nat, id: nat)
    requires forall t :: 0 <= t < |tasks| ==> tasks[t].child != child
    ensures TasksOf(tasks, child, id) == 0
  {
    if tasks != [] {
      NoTasksOf(tasks[1..], child, id);
    }
  }

  lemma {:induction false} RepliesPush(ms: seq<ToChild>, m: ToChild, id: nat)
    ensures RepliesOf(ms + [m], id) == RepliesOf(ms, id) + if m.StoreReply? && m.id == id then 1 else 0
  {
    if ms != [] {
      RepliesPush(ms[1..], m, id);
      assert (ms + [m])[1..] == ms[1..] + [m];
    }
  }

  /** Pushing the view adds no RPC to anyone's channel. */
  lemma PushedConserves(w: World, c: nat, id: nat)
    requires Shaped(w) && c < |w.links| && Conserved(w, c, id)
    ensures Conserved(Pushed(w), c, id)
  {
    RepliesPush(w.links[c].toChild, ViewMsg(w.hub), id);
  }

  lemma RepliesConserve(w: World, t: nat, c: nat, id: nat)
    requires Shaped(w) && t < |w.tasks| && c < |w.links| && Conserved(w, c, id)
    ensures Conserved(Next(w, ParentReplies(t)), c, id)
  {
    var task := w.tasks[t];
    var w' := w.(tasks := w.tasks[..t] + w.tasks[t + 1..],
                 links := w.links[task.child := Send(w.links[task.child], StoreReply(task.id, task.refreshed))]);
    TasksRemove(w.tasks, t, c, id);
    RepliesPush(w.links[c].toChild, StoreReply(task.id, task.refreshed), id);
    assert Conserved(w', c, id);
    if task.membership {
      PushedConserves(w', c, id);
    }
  }

  lemma ReceivesConserve(w: World, d: nat, c: nat, id: nat)
    requires Shaped(w) && c < |w.links| && Conserved(w, c, id)
    ensures Conserved(Next(w, ParentReceives(d)), c, id)
  {
    var w' := Next(w, ParentReceives(d));
    if d < |w.links| && w.links[d].toParent != [] {
      TasksConcat(w.tasks, [TaskFor(d, w.links[d].toParent[0], w'.hub)], c, id);
    }
  }

  lemma NextConserves(w: World, e: Event, c: nat, id: nat)
    requires Shaped(w) && c < |Next(w, e).links|
    requires c < |w.links| ==> Conserved(w, c, id)
    ensures Conserved(Next(w, e), c, id)
  {
    match e {
      case ForkChild => if c == |w.links| { NoTasksOf(w.tasks, c, id); }
      case RegisterChild => PushedConserves(w, c, id);
      case FinishStart => PushedConserves(w, c, id);
      case ChildCalls(d, op) => if d == c { CallsPush(w.links[c].toParent, Rpc(w.kids[c], op).1, id); }
      case ParentReceives(d) => ReceivesConserve(w, d, c, id);
      case ParentReplies(t) => if t < |w.tasks| { RepliesConserve(w, t, c, id); }
      case ChildReceives(d) =>
      case Disconnects(d) =>
    }
  }

  lemma {:induction false} AlwaysConserved(events: seq<Event>, c: nat, id: nat)
    requires c < |RunEvents(events).links|
    ensures Conserved(RunEvents(events), c, id)
  {
    if events != [] {
      var w := RunEvents(events[..|events| - 1]);
      if c < |w.links| {
        AlwaysConserved(events[..|events| - 1], c, id);
      }
      NextConserves(w, events[|events| - 1], c, id);
    }
  }

  /** Every RPC of a connected child is answered: with nothing of its in flight, none is pending. */
  lemma QuietMeansAnswered(events: seq<Event>, c: nat)
    requires c < |RunEvents(events).links| && RunEvents(events).links[c] == Link(true, [], [])
    requires forall t :: 0 <= t < |RunEvents(events).tasks| ==> RunEvents(events).tasks[t].child != c
    ensures RunEvents(events).kids[c].pending == {}
  {
    forall id ensures id !in RunEvents(events).kids[c].pending {
      AlwaysConserved(events, c, id);
      NoTasksOf(RunEvents(events).tasks, c, id);
    }
  }

  // ---------- The pushed view converges ----------

  /** The view the child will hold once its channel has drained. */
  function Latest(messages: seq<ToChild>, cached: View): View {
    if messages == [] then cached
    else
      match messages[|messages| - 1]
      case ViewMsg(v) => v
      case StoreReply(_, Some(v)) => v
      case _ => Latest(messages[..|messages| - 1], cached)
  }

  function Seen(m: ToChild, cached: View): View {
    match m
    case ViewMsg(v) => v
    case StoreReply(_, refreshed) => if refreshed.Some? then refreshed.value else cached
  }

  lemma {:induction false} LatestFromHead(messages: seq<ToChild>, cached: View)
    requires messages != []
    ensures Latest(messages[1..], Seen(messages[0], cached)) == Latest(messages, cached)
  {
    if |messages| > 1 {
      LatestFromHead(messages[..|messages| - 1], cached);
      assert messages[1..][..|messages| - 2] == messages[..|messages| - 1][1..];
    }
  }

  lemma LatestPush(messages: seq<ToChild>, m: ToChild, cached: View)
    ensures Latest(messages + [m], cached) == if m.ViewMsg? || m.refreshed.Some? then Seen(m, cached) else Latest(messages, cached)
  {
    assert (messages + [m])[..|messages|] == messages;
  }

  ghost predicate BroadcastOwed(tasks: seq<Task>) {
    exists t :: 0 <= t < |tasks| && tasks[t].membership
  }

  /** Unless a broadcast is still owed, the child's channel ends in the hub's current view. */
  ghost predicate Converging(w: World, c: nat)
    requires Shaped(w) && c < |w.links|
  {
    c < w.covered && w.links[c].connected && !BroadcastOwed(w.tasks) ==>
      Latest(w.links[c].toChild, w.kids[c].cached) == w.hub
  }

  lemma PushedConverges(w: World, c: nat)
    requires Shaped(w) && c < |w.links|
    ensures Converging(Pushed(w), c)
  {
    LatestPush(w.links[c].toChild, ViewMsg(w.hub), w.kids[c].cached);
  }

  lemma RepliesConverge(w: World, t: nat, c: nat)
    requires Shaped(w) && t < |w.tasks| && c < |w.links| && Converging(w, c)
    requires w.tasks[t].refreshed.Some? ==> w.tasks[t].membership
    ensures Converging(Next(w, ParentReplies(t)), c)
  {
    var task := w.tasks[t];
    var reply := StoreReply(task.id, task.refreshed);
    var w' := w.(tasks := w.tasks[..t] + w.tasks[t + 1..],
                 links := w.links[task.child := Send(w.links[task.child], reply)]);
    if task.membership {
      PushedConverges(w', c);
    } else {
      LatestPush(w.links[c].toChild, reply, w.kids[c].cached);
      forall s | 0 <= s < |w.tasks| && w.tasks[s].membership ensures BroadcastOwed(w'.tasks) {
        assert w'.tasks[if s < t then s else s - 1] == w.tasks[s];
      }
    }
  }

  /** Only a refresh carries a view, and a refresh is a membership operation. */
  predicate TasksOk(w: World) {
    forall t :: 0 <= t < |w.tasks| && w.tasks[t].refreshed.Some? ==> w.tasks[t].membership
  }

  lemma ReceivesConverge(w: World, d: nat, c: nat)
    requires Shaped(w) && c < |w.links| && Converging(w, c)
    ensures Converging(Next(w, ParentReceives(d)), c)
  {
    var w' := Next(w, ParentReceives(d));
    if d < |w.links| && w.links[d].toParent != [] {
      var n := |w.tasks|;
      assert w'.tasks[n].membership == !w.links[d].toParent[0].op.DirectoryOp?;
      assert forall t :: 0 <= t < n ==> w'.tasks[t] == w.tasks[t];
    }
  }

  lemma NextConverges(w: World, e: Event, c: nat)
    requires Shaped(w) && TasksOk(w) && c < |w.links|
    requires Converging(w, c) && forall id :: Conserved(w, c, id)
    ensures Converging(Next(w, e), c)
  {
    match e {
      case ForkChild =>
      case RegisterChild => PushedConverges(w, c);
      case FinishStart => PushedConverges(w, c);
      case ChildCalls(d, op) =>
      case ParentReceives(d) => ReceivesConverge(w, d, c);
      case ParentReplies(t) => if t < |w.tasks| { RepliesConverge(w, t, c); }
      case ChildReceives(d) =>
        if d == c && w.links[c].toChild != [] && w.links[c].connected {
          LatestFromHead(w.links[c].toChild, w.kids[c].cached);
          var m := w.links[c].toChild[0];
          if m.StoreReply? {
            assert Conserved(w, c, m.id);
          }
        }
      case Disconnects(d) =>
    }
  }

  lemma {:induction false} AlwaysTasksOk(events: seq<Event>)
    ensures TasksOk(RunEvents(events))
  {
    if events != [] {
      AlwaysTasksOk(events[..|events| - 1]);
      TasksStayOk(RunEvents(events[..|events| - 1]), events[|events| - 1]);
    }
  }

  lemma TasksStayOk(w: World, e: Event)
    requires Shaped(w) && TasksOk(w)
    ensures TasksOk(Next(w, e))
  {
    match e {
      case ParentReceives(c) =>
        if c < |w.links| && w.links[c].toParent != [] {
          assert Next(w, e).tasks == w.tasks + [TaskFor(c, w.links[c].toParent[0], Next(w, e).hub)];
        }
      case ParentReplies(t) =>
        if t < |w.tasks| {
          assert Next(w, e).tasks == w.tasks[..t] + w.tasks[t + 1..];
        }
      case _ => assert Next(w, e).tasks == w.tasks;
    }
  }

  lemma {:induction false} AlwaysConverging(events: seq<Event>, c: nat)
    requires c < |RunEvents(events).links|
    ensures Converging(RunEvents(events), c)
  {
    if events != [] {
      var w := RunEvents(events[..|events| - 1]);
      if c < |w.links| {
        AlwaysConverging(events[..|events| - 1], c);
        forall id ensures Conserved(w, c, id) {
          AlwaysConserved(events[..|events| - 1], c, id);
        }
        AlwaysTasksOk(events[..|events| - 1]);
        NextConverges(w, events[|events| - 1], c);
      }
    }
  }

  /**
   Convergence.  Whatever interleaving of joins, status changes, leaves, refreshes, directory
   calls and disconnects came before: a connected child that a broadcast has covered, whose
   channel is empty while the parent owes no membership reply, holds the hub's current view.
   */
  lemma DeliveredMeansCurrent(events: seq<Event>, c: nat)
    requires var w := RunEvents(events);
             c < w.covered && w.links[c].connected && w.links[c].toChild == [] && !BroadcastOwed(w.tasks)
    ensures RunEvents(events).kids[c].cached == RunEvents(events).hub
  {
    AlwaysConverging(events, c);
  }

  /** `startRig` ends with a broadcast, so from then on every registered child is covered; before, all but the newest. */
  lemma {:induction false} WhoIsCovered(events: seq<Event>)
    ensures var w := RunEvents(events); w.registered <= w.covered + 1 && (w.up ==> w.covered == w.registered == |w.links|)
  {
    if events != [] {
      WhoIsCovered(events[..|events| - 1]);
    }
  }

  /**
   What a caller can rely on: once the rig is up, or already while it starts for every child but
   the newest, a connected child with nothing left to deliver holds the hub's view.
   */
  lemma RigConverges(events: seq<Event>, c: nat)
    requires var w := RunEvents(events);
             && c < w.registered && (w.up || c + 1 < w.registered)
             && w.links[c].connected && w.links[c].toChild == [] && !BroadcastOwed(w.tasks)
    ensures RunEvents(events).kids[c].cached == RunEvents(events).hub
  {
    WhoIsCovered(events);
    DeliveredMeansCurrent(events, c);
  }

  lemma RunPush(events: seq<Event>, e: Event)
    ensures RunEvents(events + [e]) == Next(RunEvents(events), e)
  {
    assert (events + [e])[..|events|] == events;
  }

  // ---------- Every run can come to rest ----------

  /** The parent takes, answers and the children receive: nobody asks anything new. */
  predicate Delivers(events: seq<Event>) {
    forall i | 0 <= i < |events| :: events[i].ParentReceives? || events[i].ParentReplies? || events[i].ChildReceives?
  }

  lemma DeliversBoth(a: seq<Event>, b: seq<Event>)
    requires Delivers(a) && Delivers(b)
    ensures Delivers(a + b)
  {
  }

  /** Who takes part, and how far the rig has come up, is as it was. */
  predicate SameRig(w: World, w': World) {
    && |w'.links| == |w.links| && w'.registered == w.registered && w'.up == w.up
    && forall c | 0 <= c < |w.links| :: w'.links[c].connected == w.links[c].connected
  }

  predicate NoCalls(w: World, n: nat) {
    n <= |w.links| && forall c | 0 <= c < n :: w.links[c].toParent == []
  }

  predicate NoMessages(w: World, n: nat) {
    n <= |w.links| && forall c | 0 <= c < n :: w.links[c].toChild == []
  }

  lemma RunOn(events: seq<Event>, a: seq<Event>, b: seq<Event>)
    ensures RunEvents(events + a + b) == RunEvents(events + (a + b))
  {
    assert events + a + b == events + (a + b);
  }

  lemma ReceiveOne(w: World, c: nat)
    requires Shaped(w) && c < |w.links| && w.links[c].toParent != []
    ensures var w' := Next(w, ParentReceives(c));
            && SameRig(w, w') && |w'.links[c].toParent| == |w.links[c].toParent| - 1
            && forall d | 0 <= d < |w.links| && d != c :: w'.links[d] == w.links[d]
  {
  }

  lemma {:induction false} TakeCalls(events: seq<Event>, c: nat) returns (more: seq<Event>)
    requires c < |RunEvents(events).links| && NoCalls(RunEvents(events), c)
    ensures Delivers(more)
    ensures SameRig(RunEvents(events), RunEvents(events + more)) && NoCalls(RunEvents(events + more), c + 1)
    decreases |RunEvents(events).links[c].toParent|
  {
    var w := RunEvents(events);
    if w.links[c].toParent == [] {
      more := [];
      assert events + more == events;
    } else {
      var e := ParentReceives(c);
      RunPush(events, e);
      ReceiveOne(w, c);
      var rest := TakeCalls(events + [e], c);
      more := [e] + rest;
      RunOn(events, [e], rest);
    }
  }

  lemma {:induction false} TakeAllCalls(events: seq<Event>, n: nat) returns (more: seq<Event>)
    requires n <= |RunEvents(events).links|
    ensures Delivers(more)
    ensures SameRig(RunEvents(events), RunEvents(events + more)) && NoCalls(RunEvents(events + more), n)
  {
    if n == 0 {
      more := [];
      assert events + more == events;
    } else {
      var first := TakeAllCalls(events, n - 1);
      var rest := TakeCalls(events + first, n - 1);
      more := first + rest;
      RunOn(events, first, rest);
    }
  }

  lemma ReplyOne(w: World)
    requires Shaped(w) && w.tasks != [] && NoCalls(w, |w.links|)
    ensures var w' := Next(w, ParentReplies(0));
            SameRig(w, w') && w'.tasks == w.tasks[1..] && NoCalls(w', |w'.links|)
  {
    assert w.tasks[..0] + w.tasks[1..] == w.tasks[1..];
  }

  lemma {:induction false} AnswerAll(events: seq<Event>) returns (more: seq<Event>)
    requires NoCalls(RunEvents(events), |RunEvents(events).links|)
    ensures Delivers(more)
    ensures SameRig(RunEvents(events), RunEvents(events + more)) && RunEvents(events + more).tasks == []
    ensures NoCalls(RunEvents(events + more), |RunEvents(events + more).links|)
    decreases |RunEvents(events).tasks|
  {
    var w := RunEvents(events);
    if w.tasks == [] {
      more := [];
      assert events + more == events;
    } else {
      var e := ParentReplies(0);
      RunPush(events, e);
      ReplyOne(w);
      var rest := AnswerAll(events + [e]);
      more := [e] + rest;
      RunOn(events, [e], rest);
    }
  }

  /** Nothing is left for the parent to take or to answer. */
  predicate ParentIdle(w: World) {
    NoCalls(w, |w.links|) && w.tasks == []
  }

  lemma DeliverOne(w: World, c: nat)
    requires Shaped(w) && c < |w.links| && w.links[c].toChild != [] && ParentIdle(w)
    ensures var w' := Next(w, ChildReceives(c));
            && SameRig(w, w') && ParentIdle(w') && |w'.links[c].toChild| == |w.links[c].toChild| - 1
            && forall d | 0 <= d < |w.links| && d != c :: w'.links[d] == w.links[d]
  {
  }

  lemma {:induction false} DeliverTo(events: seq<Event>, c: nat) returns (more: seq<Event>)
    requires c < |RunEvents(events).links| && NoMessages(RunEvents(events), c) && ParentIdle(RunEvents(events))
    ensures Delivers(more)
    ensures SameRig(RunEvents(events), RunEvents(events + more)) && ParentIdle(RunEvents(events + more))
    ensures NoMessages(RunEvents(events + more), c + 1)
    decreases |RunEvents(events).links[c].toChild|
  {
    var w := RunEvents(events);
    if w.links[c].toChild == [] {
      more := [];
      assert events + more == events;
    } else {
      var e := ChildReceives(c);
      RunPush(events, e);
      DeliverOne(w, c);
      var rest := DeliverTo(events + [e], c);
      RunOn(events, [e], rest);
      SameRigTwice(w, RunEvents(events + [e]), RunEvents(events + [e] + rest));
      more := [e] + rest;
    }
  }

  lemma {:induction false} DeliverAll(events: seq<Event>, n: nat) returns (more: seq<Event>)
    requires n <= |RunEvents(events).links| && ParentIdle(RunEvents(events))
    ensures Delivers(more)
    ensures SameRig(RunEvents(events), RunEvents(events + more)) && ParentIdle(RunEvents(events + more))
    ensures NoMessages(RunEvents(events + more), n)
  {
    if n == 0 {
      more := [];
      assert events + more == events;
    } else {
      var first := DeliverAll(events, n - 1);
      var rest := DeliverTo(events + first, n - 1);
      more := first + rest;
      RunOn(events, first, rest);
    }
  }

  lemma SameRigTwice(a: World, b: World, c: World)
    requires SameRig(a, b) && SameRig(b, c)
    ensures SameRig(a, c)
  {
  }

  lemma ParentComesToRest(events: seq<Event>) returns (more: seq<Event>)
    ensures Delivers(more)
    ensures SameRig(RunEvents(events), RunEvents(events + more)) && ParentIdle(RunEvents(events + more))
  {
    var a := TakeAllCalls(events, |RunEvents(events).links|);
    var b := AnswerAll(events + a);
    RunOn(events, a, b);
    SameRigTwice(RunEvents(events), RunEvents(events + a), RunEvents(events + a + b));
    more := a + b;
  }

  /** From wherever a run stands, delivering alone brings it to rest. */
  lemma ComesToRest(events: seq<Event>) returns (more: seq<Event>)
    ensures Delivers(more)
    ensures SameRig(RunEvents(events), RunEvents(events + more)) && ParentIdle(RunEvents(events + more))
    ensures NoMessages(RunEvents(events + more), |RunEvents(events + more).links|)
  {
    var a := ParentComesToRest(events);
    var b := DeliverAll(events + a, |RunEvents(events + a).links|);
    RunOn(events, a, b);
    SameRigTwice(RunEvents(events), RunEvents(events + a), RunEvents(events + a + b));
    more := a + b;
  }

  /**
   And at rest everything has come true: every RPC of a connected child is answered, and once the rig is
   up every connected child holds the hub's view.
   */
  lemma AtRestAllIsAnswered(events: seq<Event>, c: nat) returns (more: seq<Event>)
    requires var w := RunEvents(events); w.up && c < |w.links| && w.links[c].connected
    ensures Delivers(more)
    ensures var w' := RunEvents(events + more);
            c < |w'.links| && w'.kids[c].pending == {} && w'.kids[c].cached == w'.hub
  {
    more := ComesToRest(events);
    var w' := RunEvents(events + more);
    assert w'.links[c] == Link(true, [], []);
    QuietMeansAnswered(events + more, c);
    WhoIsCovered(events + more);
    RigConverges(events + more, c);
  }

  /** Startup: forking and registering alternate, and with no child left to register the rig comes up, covering them all. */
  lemma StartupGoesOn(w: World)
    requires Shaped(w) && !w.up
    ensures |w.links| == w.registered ==>
              var f := Next(w, ForkChild); |f.links| == w.registered + 1 && f.links[w.registered] == Link(true, [], []) && f.kids[w.registered] == NEWBORN
    ensures |w.links| == w.registered + 1 ==>
              var g := Next(w, RegisterChild); g.registered == w.registered + 1 && g.covered == w.registered
    ensures |w.links| == w.registered ==> Next(w, FinishStart).up && Next(w, FinishStart).covered == w.registered
  {
  }

  const H0 := Descriptor("http://127.0.0.1:1", "active")

  /** A first child is forked, joins, and its join is answered: only then is it pushed into `members`. */
  const FIRST_JOIN := [ForkChild, ChildCalls(0, Join("h0", H0)), ParentReceives(0), ParentReplies(0), ChildReceives(0), RegisterChild]

  lemma FirstJoinAsked()
    ensures RunEvents(FIRST_JOIN[..2]) == World(View(0, map[]), [None], [Link(true, [], [StoreCall(1, Join("h0", H0))])],
                                                [Child(2, {1}, View(0, map[]))], [], 0, false, 0)
  {
    RunPush([], ForkChild);
    RunPush([ForkChild], ChildCalls(0, Join("h0", H0)));
    assert [] + [ForkChild] == [ForkChild] && [ForkChild] + [ChildCalls(0, Join("h0", H0))] == FIRST_JOIN[..2];
    var w1 := RunEvents([ForkChild]);
    assert w1 == World(View(0, map[]), [None], [Link(true, [], [])], [NEWBORN], [], 0, false, 0);
    var w2 := RunEvents(FIRST_JOIN[..2]);
    assert w2.links[0].toParent == [StoreCall(1, Join("h0", H0))] && w2.kids[0].pending == {1};
    assert w2.links == [w2.links[0]] && w2.kids == [w2.kids[0]];
  }

  lemma FirstJoinTaken()
    ensures RunEvents(FIRST_JOIN[..3]) == World(View(1, map["h0" := H0]), [Some("h0")], [Link(true, [], [])],
                                                [Child(2, {1}, View(0, map[]))], [Task(0, 1, true, None)], 0, false, 0)
  {
    FirstJoinAsked();
    RunPush(FIRST_JOIN[..2], ParentReceives(0));
    assert FIRST_JOIN[..2] + [ParentReceives(0)] == FIRST_JOIN[..3];
    var w3 := RunEvents(FIRST_JOIN[..3]);
    assert w3.links[0].toParent == [] && w3.links == [w3.links[0]] && w3.tasks == [Task(0, 1, true, None)];
  }

  lemma FirstJoinAnswered()
    ensures RunEvents(FIRST_JOIN[..4]) == World(View(1, map["h0" := H0]), [Some("h0")], [Link(true, [StoreReply(1, None)], [])],
                                                [Child(2, {1}, View(0, map[]))], [], 0, false, 0)
  {
    FirstJoinTaken();
    RunPush(FIRST_JOIN[..3], ParentReplies(0));
    assert FIRST_JOIN[..3] + [ParentReplies(0)] == FIRST_JOIN[..4];
    assert RunEvents(FIRST_JOIN[..4]).links[0].toChild == [StoreReply(1, None)];
  }

  /** During startup the newest child is not covered yet, and its view can be stale with nothing in flight. */
  lemma NewestChildCanBeStale()
    ensures var w := RunEvents(FIRST_JOIN);
            && w.registered == 1 && w.covered == 0 && w.links == [Link(true, [], [])] && w.tasks == []
            && w.kids[0].cached != w.hub
  {
    FirstJoinAnswered();
    RunPush(FIRST_JOIN[..4], ChildReceives(0));
    RunPush(FIRST_JOIN[..5], RegisterChild);
    assert FIRST_JOIN[..4] + [ChildReceives(0)] == FIRST_JOIN[..5] && FIRST_JOIN[..5] + [RegisterChild] == FIRST_JOIN;
    var w5 := RunEvents(FIRST_JOIN[..5]);
    assert w5.links[0].toChild == [] && w5.links == [w5.links[0]];
  }
}
