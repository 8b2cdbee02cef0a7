/**
 The child's socket accounting (`watchSockets`, `snapshot` and the `resetStats` rebase in
 `child.ts`).  A socket counts its own bytes from birth; the child adds them up only when the
 socket closes, and a reset in between has to rebase the sockets that are still open.
 */
module Sockets {

  datatype Event =
    | Connect(socket: nat)
    | Traffic(socket: nat, received: nat, sent: nat)
    | Close(socket: nat)
    | Reset

  /** `read` and `written` are the sockets' own cumulative counters; `live` is in order of arrival. */
  datatype Stats = Stats(
    accepted: int, now: int, peak: int, bytesIn: int, bytesOut: int,
    live: seq<nat>, read: map<nat, nat>, written: map<nat, nat>)

  const ZERO := Stats(0, 0, 0, 0, 0, [], map[], map[])

  function Bytes(m: map<nat, nat>, socket: nat): nat {
    if socket in m then m[socket] else 0
  }

  function Total(live: seq<nat>, m: map<nat, nat>): int {
    if live == [] then 0 else Total(live[..|live| - 1], m) + Bytes(m, live[|live| - 1])
  }

  function Without(live: seq<nat>, socket: nat): seq<nat> {
    if live == [] then []
    else Without(live[..|live| - 1], socket) + if live[|live| - 1] == socket then [] else [live[|live| - 1]]
  }

  /** One event; one that cannot happen (a reused socket, traffic on a closed one) changes nothing. */
  function Next(s: Stats, e: Event): Stats {
    match e
    case Connect(k) =>
      if k in s.read then s
      else
        var now := s.now + 1;
        s.(accepted := s.accepted + 1, now := now, peak := if now > s.peak then now else s.peak,
           live := s.live + [k], read := s.read[k := 0], written := s.written[k := 0])
    case Traffic(k, received, sent) =>
      if k !in s.live then s
      else s.(read := s.read[k := Bytes(s.read, k) + received], written := s.written[k := Bytes(s.written, k) + sent])
    case Close(k) =>
      if k !in s.live then s
      else s.(now := s.now - 1, bytesIn := s.bytesIn + Bytes(s.read, k), bytesOut := s.bytesOut + Bytes(s.written, k),
              live := Without(s.live, k))
    case Reset =>
      s.(accepted := 0, peak := s.now, bytesIn := -Total(s.live, s.read), bytesOut := -Total(s.live, s.written))
  }

  class SocketStats {
    var accepted: int
    var concurrentNow: int
    var concurrentPeak: int
    var bytesIn: int
    var bytesOut: int
    var live: seq<nat>
    var read: map<nat, nat>
    var written: map<nat, nat>

    constructor ()
      ensures Abs() == ZERO
    {
      accepted, concurrentNow, concurrentPeak, bytesIn, bytesOut := 0, 0, 0, 0, 0;
      live, read, written := [], map[], map[];
    }

    ghost function Abs(): Stats
      reads this
    {
      Stats(accepted, concurrentNow, concurrentPeak, bytesIn, bytesOut, live, read, written)
    }

    method OnConnection(socket: nat)
      requires socket !in read
      modifies this
      ensures Abs() == Next(old(Abs()), Connect(socket))
    {
      accepted := accepted + 1;
      concurrentNow := concurrentNow + 1;
      if concurrentNow > concurrentPeak {
        concurrentPeak := concurrentNow;
      }
      read, written := read[socket := 0], written[socket := 0];
      live := live + [socket];
    }

    method OnClose(socket: nat)
      requires socket in live
      modifies this
      ensures Abs() == Next(old(Abs()), Close(socket))
    {
      concurrentNow := concurrentNow - 1;
      bytesIn := bytesIn + Bytes(read, socket);
      bytesOut := bytesOut + Bytes(written, socket);
      live := Without(live, socket);
    }

    /** The in-flight sockets' counters, added to the closed ones'. */
    method Snapshot() returns (reportedIn: int, reportedOut: int)
      ensures reportedIn == bytesIn + Total(live, read) && reportedOut == bytesOut + Total(live, written)
    {
      reportedIn, reportedOut := bytesIn, bytesOut;
      for i := 0 to |live|
        invariant reportedIn == bytesIn + Total(live[..i], read)
        invariant reportedOut == bytesOut + Total(live[..i], written)
      {
        assert live[..i + 1][..i] == live[..i];
        reportedIn := reportedIn + Bytes(read, live[i]);
        reportedOut := reportedOut + Bytes(written, live[i]);
      }
      assert live[..|live|] == live;
    }

    method ResetStats()
      modifies this
      ensures Abs() == Next(old(Abs()), Reset)
    {
      accepted := 0;
      concurrentPeak := concurrentNow;
      bytesIn, bytesOut := 0, 0;
      for i := 0 to |live|
        invariant live == old(live) && read == old(read) && written == old(written)
        invariant accepted == 0 && concurrentNow == concurrentPeak == old(concurrentNow)
        invariant bytesIn == -Total(live[..i], read) && bytesOut == -Total(live[..i], written)
      {
        assert live[..i + 1][..i] == live[..i];
        bytesIn := bytesIn - Bytes(read, live[i]);
        bytesOut := bytesOut - Bytes(written, live[i]);
      }
      assert live[..|live|] == live;
    }
  }

  function RunAll(events: seq<Event>): Stats {
    if events == [] then ZERO else Next(RunAll(events[..|events| - 1]), events[|events| - 1])
  }

  // ---------- The reference: the traffic of the window itself ----------

  /** Which sockets have connected, and which of them are open, after `events`. */
  function Seen(events: seq<Event>): set<nat> {
    set i | 0 <= i < |events| && events[i].Connect? :: events[i].socket
  }

  function Open(events: seq<Event>): set<nat> {
    if events == [] then {}
    else
      var before := events[..|events| - 1];
      match events[|events| - 1]
      case Connect(k) => if k in Seen(before) then Open(before) else Open(before) + {k}
      case Close(k) => Open(before) - {k}
      case _ => Open(before)
  }

  /** Bytes the open sockets received (`inbound`) or sent since the last reset. */
  function Window(events: seq<Event>, inbound: bool): int {
    if events == [] then 0
    else
      var before := events[..|events| - 1];
      match events[|events| - 1]
      case Reset => 0
      case Traffic(k, received, sent) =>
        Window(before, inbound) + if k !in Open(before) then 0 else if inbound then received else sent
      case _ => Window(before, inbound)
  }

  /** Where the current window starts: just after the last reset. */
  function WindowStart(events: seq<Event>): (n: nat)
    ensures n <= |events|
  {
    if events == [] then 0
    else if events[|events| - 1].Reset? then |events|
    else WindowStart(events[..|events| - 1])
  }

  // ---------- Sums over the live sockets ----------

  ghost predicate Distinct(live: seq<nat>) {
    forall i, j :: 0 <= i < j < |live| ==> live[i] != live[j]
  }

  lemma {:induction false} WithoutAbsent(live: seq<nat>, socket: nat)
    requires socket !in live
    ensures Without(live, socket) == live
  {
    if live != [] {
      WithoutAbsent(live[..|live| - 1], socket);
    }
  }

  lemma {:induction false} WithoutKeeps(live: seq<nat>, socket: nat)
    ensures forall k :: k in Without(live, socket) <==> k in live && k != socket
    ensures Distinct(live) ==> Distinct(Without(live, socket))
  {
    if live != [] {
      var n := |live| - 1;
      WithoutKeeps(live[..n], socket);
      var rest := Without(live[..n], socket);
      assert live == live[..n] + [live[n]];
      assert Without(live, socket) == if live[n] == socket then rest else rest + [live[n]];
      if Distinct(live) {
        assert forall i :: 0 <= i < n ==> live[..n][i] != live[n];
        assert live[n] !in rest;
      }
    }
  }

  lemma {:induction false} WithoutOne(live: seq<nat>, socket: nat)
    requires Distinct(live) && socket in live
    ensures |Without(live, socket)| == |live| - 1
  {
    var n := |live| - 1;
    if live[n] == socket {
      WithoutAbsent(live[..n], socket);
    } else {
      WithoutOne(live[..n], socket);
    }
  }

  lemma {:induction false} TotalWithout(live: seq<nat>, socket: nat, m: map<nat, nat>)
    requires Distinct(live) && socket in live
    ensures Total(Without(live, socket), m) == Total(live, m) - Bytes(m, socket)
  {
    var n := |live| - 1;
    if live[n] == socket {
      WithoutAbsent(live[..n], socket);
      assert live[..n] + [] == live[..n];
    } else {
      TotalWithout(live[..n], socket, m);
      TotalPush(Without(live[..n], socket), m, live[n]);
    }
  }

  lemma {:induction false} TotalElsewhere(live: seq<nat>, m: map<nat, nat>, socket: nat, bytes: nat)
    requires socket !in live
    ensures Total(live, m[socket := bytes]) == Total(live, m)
  {
    if live != [] {
      TotalElsewhere(live[..|live| - 1], m, socket, bytes);
    }
  }

  lemma {:induction false} TotalUpdated(live: seq<nat>, m: map<nat, nat>, socket: nat, bytes: nat)
    requires Distinct(live) && socket in live
    ensures Total(live, m[socket := bytes]) == Total(live, m) - Bytes(m, socket) + bytes
  {
    var n := |live| - 1;
    if live[n] == socket {
      TotalElsewhere(live[..n], m, socket, bytes);
    } else {
      TotalUpdated(live[..n], m, socket, bytes);
    }
  }

  lemma TotalPush(live: seq<nat>, m: map<nat, nat>, socket: nat)
    ensures Total(live + [socket], m) == Total(live, m) + Bytes(m, socket)
  {
    assert (live + [socket])[..|live|] == live;
  }

  // ---------- The invariant ----------

  ghost predicate ShapeOk(s: Stats, events: seq<Event>) {
    && Distinct(s.live)
    && s.now == |s.live|
    && (forall k :: k in s.live <==> k in Open(events))
    && (forall k :: k in s.live ==> k in s.read)
    && s.read.Keys == s.written.Keys == Seen(events)
  }

  ghost predicate BytesOk(s: Stats, events: seq<Event>) {
    && s.bytesIn + Total(s.live, s.read) == Window(events, true)
    && s.bytesOut + Total(s.live, s.written) == Window(events, false)
  }

  lemma SeenPush(events: seq<Event>, e: Event)
    ensures Seen(events + [e]) == Seen(events) + if e.Connect? then {e.socket} else {}
  {
    var longer := events + [e];
    assert forall i :: 0 <= i < |events| ==> longer[i] == events[i];
    assert longer[|events|] == e;
  }

  lemma NextShape(s: Stats, events: seq<Event>, e: Event)
    requires ShapeOk(s, events)
    ensures ShapeOk(Next(s, e), events + [e])
  {
    SeenPush(events, e);
    assert (events + [e])[..|events|] == events;
    if e.Close? && e.socket in s.live {
      WithoutKeeps(s.live, e.socket);
      WithoutOne(s.live, e.socket);
    }
  }

  lemma NextBytes(s: Stats, events: seq<Event>, e: Event)
    requires ShapeOk(s, events) && BytesOk(s, events)
    ensures BytesOk(Next(s, e), events + [e])
  {
    assert (events + [e])[..|events|] == events;
    match e {
      case Connect(k) =>
        if k !in s.read {
          TotalElsewhere(s.live, s.read, k, 0);
          TotalElsewhere(s.live, s.written, k, 0);
          TotalPush(s.live, s.read[k := 0], k);
          TotalPush(s.live, s.written[k := 0], k);
        }
      case Traffic(k, received, sent) =>
        if k in s.live {
          TotalUpdated(s.live, s.read, k, Bytes(s.read, k) + received);
          TotalUpdated(s.live, s.written, k, Bytes(s.written, k) + sent);
        }
      case Close(k) =>
        if k in s.live {
          TotalWithout(s.live, k, s.read);
          TotalWithout(s.live, k, s.written);
        }
      case Reset =>
    }
  }

  lemma {:induction false} AlwaysOk(events: seq<Event>)
    ensures ShapeOk(RunAll(events), events) && BytesOk(RunAll(events), events)
  {
    if events != [] {
      var n := |events| - 1;
      AlwaysOk(events[..n]);
      NextShape(RunAll(events[..n]), events[..n], events[n]);
      NextBytes(RunAll(events[..n]), events[..n], events[n]);
      assert events[..n] + [events[n]] == events;
    }
  }

  /**
   After any sequence of connects, traffic, closes and resets, the reported bytes are exactly the
   traffic since the last reset, sockets that straddle it included.
   */
  lemma ReportedIsWindowTraffic(events: seq<Event>)
    ensures var s := RunAll(events);
            && s.bytesIn + Total(s.live, s.read) == Window(events, true)
            && s.bytesOut + Total(s.live, s.written) == Window(events, false)
  {
    AlwaysOk(events);
  }

  lemma {:induction false} DistinctCount(live: seq<nat>, open: set<nat>)
    requires Distinct(live) && forall k :: k in live <==> k in open
    ensures |live| == |open|
  {
    if live == [] {
      assert open == {};
    } else {
      var n := |live| - 1;
      forall k ensures k in live[..n] <==> k in open - {live[n]} {
        if k in open - {live[n]} {
          var i :| 0 <= i < |live| && live[i] == k;
          assert live[..n][i] == k;
        }
      }
      DistinctCount(live[..n], open - {live[n]});
    }
  }

  lemma NowIsOpenSockets(events: seq<Event>)
    ensures RunAll(events).now == |Open(events)|
  {
    AlwaysOk(events);
    DistinctCount(RunAll(events).live, Open(events));
  }

  /** How many sockets were open after the first `k` events. */
  function OpenAt(events: seq<Event>, k: nat): nat
    requires k <= |events|
  {
    |Open(events[..k])|
  }

  ghost predicate Bounded(events: seq<Event>, peak: int) {
    forall k :: WindowStart(events) <= k <= |events| ==> OpenAt(events, k) <= peak
  }

  ghost predicate Reached(events: seq<Event>, peak: int) {
    exists k :: WindowStart(events) <= k <= |events| && OpenAt(events, k) == peak
  }

  ghost predicate IsPeak(events: seq<Event>, peak: int) {
    Bounded(events, peak) && Reached(events, peak)
  }

  lemma OpenAtPrefix(before: seq<Event>, e: Event, k: nat)
    requires k <= |before|
    ensures OpenAt(before + [e], k) == OpenAt(before, k)
  {
    assert (before + [e])[..k] == before[..k];
  }

  lemma WindowGoesOn(before: seq<Event>, e: Event)
    requires !e.Reset?
    ensures WindowStart(before + [e]) == WindowStart(before)
  {
    assert (before + [e])[..|before|] == before;
  }

  lemma BoundStep(before: seq<Event>, e: Event, peak: int, higher: int)
    requires Bounded(before, peak) && !e.Reset? && peak <= higher && OpenAt(before + [e], |before| + 1) <= higher
    ensures Bounded(before + [e], higher)
  {
    WindowGoesOn(before, e);
    forall k | WindowStart(before) <= k <= |before| + 1
      ensures OpenAt(before + [e], k) <= higher
    {
      if k <= |before| {
        OpenAtPrefix(before, e, k);
      }
    }
  }

  lemma ReachStep(before: seq<Event>, e: Event, peak: int)
    requires Reached(before, peak) && !e.Reset?
    ensures Reached(before + [e], peak)
  {
    WindowGoesOn(before, e);
    var k :| WindowStart(before) <= k <= |before| && OpenAt(before, k) == peak;
    OpenAtPrefix(before, e, k);
  }

  lemma PeakStep(before: seq<Event>, e: Event, peak: int, now: int)
    requires IsPeak(before, peak) && !e.Reset? && now == OpenAt(before + [e], |before| + 1)
    ensures IsPeak(before + [e], if now > peak then now else peak)
  {
    BoundStep(before, e, peak, if now > peak then now else peak);
    if now > peak {
      WindowGoesOn(before, e);
    } else {
      ReachStep(before, e, peak);
    }
  }

  lemma NowIsBounded(events: seq<Event>, peak: int)
    requires Bounded(events, peak)
    ensures RunAll(events).now <= peak
  {
    NowIsAtEnd(events);
    var n := |events|;
    assert WindowStart(events) <= n;
    assert OpenAt(events, n) <= peak;
  }

  lemma PeakFollowsNow(before: seq<Event>, e: Event)
    requires RunAll(before).now <= RunAll(before).peak && !e.Reset?
    ensures var s, s' := RunAll(before), RunAll(before + [e]); s'.peak == if s'.now > s.peak then s'.now else s.peak
  {
    assert (before + [e])[..|before|] == before;
    PeakOfNext(RunAll(before), e);
  }

  lemma PeakOfNext(s: Stats, e: Event)
    requires s.now <= s.peak && !e.Reset?
    ensures Next(s, e).peak == if Next(s, e).now > s.peak then Next(s, e).now else s.peak
  {
  }

  /** A window opens with the peak of its only moment so far. */
  lemma PeakAtStart(events: seq<Event>, peak: int)
    requires WindowStart(events) == |events| && peak == OpenAt(events, |events|)
    ensures IsPeak(events, peak)
  {
    forall k | WindowStart(events) <= k <= |events| ensures OpenAt(events, k) <= peak {
      assert k == |events|;
    }
  }

  lemma NowIsAtEnd(events: seq<Event>)
    ensures RunAll(events).now == OpenAt(events, |events|)
  {
    assert events[..|events|] == events;
    NowIsOpenSockets(events);
  }

  /** The peak is the largest number of sockets open at once at any moment of the window. */
  lemma {:induction false} PeakIsWindowMaximum(events: seq<Event>)
    ensures IsPeak(events, RunAll(events).peak)
  {
    NowIsAtEnd(events);
    if events == [] || events[|events| - 1].Reset? {
      PeakAtStart(events, RunAll(events).peak);
    } else {
      var before, e := events[..|events| - 1], events[|events| - 1];
      PeakIsWindowMaximum(before);
      NowIsBounded(before, RunAll(before).peak);
      PeakFollowsNow(before, e);
      assert before + [e] == events;
      PeakStep(before, e, RunAll(before).peak, RunAll(events).now);
    }
  }

  /** How many sockets have connected since the last reset. */
  function Connects(events: seq<Event>): nat {
    if events == [] then 0
    else
      var before := events[..|events| - 1];
      match events[|events| - 1]
      case Reset => 0
      case Connect(k) => Connects(before) + if k in Seen(before) then 0 else 1
      case _ => Connects(before)
  }

  /** `accepted` counts them, those that have closed again among them. */
  lemma {:induction false} AcceptedIsConnects(events: seq<Event>)
    ensures RunAll(events).accepted == Connects(events)
  {
    if events != [] {
      AcceptedIsConnects(events[..|events| - 1]);
      AlwaysOk(events[..|events| - 1]);
    }
  }
}
