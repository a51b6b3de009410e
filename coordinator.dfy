/** The event handlers of `CompetitionServer` (www/server.php) as a pure state
    machine: the specification the class in module Server is proved against,
    and the place where properties of single events and of whole event
    sequences are stated. */
module Coordinator {
  import opened Protocol
  import opened Registry

  /** The three fields of `CompetitionServer`, plus every send made so far. */
  datatype State = State(
    clients: seq<ConnId>,      // $clients
    startTime: Option<int>,    // $startTime, in milliseconds
    manager: Option<ConnId>,   // $manager
    outbox: seq<Send>)         // each ->send(...), in order

  /** What the transport delivers: `onOpen`, `onClose`, `onMessage` (with the
      clock reading and the formatted wall-clock time of its arrival), and one
      firing of the keepalive timer. */
  datatype Event =
    | Open(conn: ConnId)
    | Close(conn: ConnId)
    | Message(from: ConnId, msg: InMsg, now: int, timestamp: string)
    | Tick

  /** How a handler ends: normally, or by calling `send` on the still-null
      `$manager` (a `ready` before any `start`). */
  datatype Outcome = Handled | NoManager

  /** Right after `__construct`. */
  const Initial: State := State([], None, None, [])

  /** Each client is held once, and a race clock is set exactly when a manager is. */
  ghost predicate Inv(s: State)
  {
    Distinct(s.clients) && (s.startTime.Some? <==> s.manager.Some?)
  }

  /** `broadcast($msg)` and the body of the keepalive tick: send `m` to every client. */
  function Broadcast(s: State, m: OutMsg): State
  {
    s.(outbox := s.outbox + Fanout(s.clients, m))
  }

  /** `onMessage`: the switch on `action`. */
  function Dispatch(s: State, from: ConnId, msg: InMsg, now: int, timestamp: string): (State, Outcome)
  {
    match msg
    case Register(name) => (Broadcast(s, NewTeam(name)), Handled)
    case Start => (Broadcast(s.(startTime := Some(now)), StartOut).(manager := Some(from)), Handled)
    case Ready(team) =>
      // a null $startTime counts as 0 in the subtraction
      var elapsed := now - (if s.startTime.Some? then s.startTime.value else 0);
      var reply := ReadyOut(team, timestamp, elapsed);
      var sent := s.(outbox := s.outbox + [Send(from, reply)]);
      if s.manager.None? then (sent, NoManager)
      else (sent.(outbox := sent.outbox + [Send(s.manager.value, reply)]), Handled)
    case Other => (s, Handled)
  }

  function Step(s: State, e: Event): (State, Outcome)
  {
    match e
    case Open(c) => (s.(clients := Attach(s.clients, c)), Handled)
    case Close(c) => (s.(clients := Detach(s.clients, c)), Handled)
    case Message(from, msg, now, timestamp) => Dispatch(s, from, msg, now, timestamp)
    case Tick => (Broadcast(s, Ping), Handled)
  }

  /** The sends a step made. */
  function Appended(s: State, t: State): seq<Send>
    requires |s.outbox| <= |t.outbox|
  {
    t.outbox[|s.outbox|..]
  }

  // ---------------------------------------------------------------------------
  // Single events

  lemma InitialInv()
    ensures Inv(Initial) && Initial.clients == [] && Initial.startTime.None? && Initial.outbox == []
  {
  }

  /** Every handler keeps the invariant and only appends to the outbox. */
  lemma StepPreservesInv(s: State, e: Event)
    requires Inv(s)
    ensures Inv(Step(s, e).0)
    ensures s.outbox <= Step(s, e).0.outbox
  {
    match e
    case Open(c) => AttachDistinct(s.clients, c);
    case Close(c) => DetachDistinct(s.clients, c);
    case _ =>
  }

  /** `onOpen` adds the connection (and leaves a present one where it is);
      nothing else changes. */
  lemma OpenSpec(s: State, c: ConnId)
    ensures var (t, o) := Step(s, Open(c));
      o == Handled && (forall x :: x in t.clients <==> x in s.clients || x == c) &&
      (c in s.clients ==> t.clients == s.clients) &&
      t.startTime == s.startTime && t.manager == s.manager && t.outbox == s.outbox
  {
  }

  /** `onClose` removes the connection and nothing else: in particular the
      manager is kept even when it is the one that closed. */
  lemma CloseSpec(s: State, c: ConnId)
    ensures var (t, o) := Step(s, Close(c));
      o == Handled && (forall x :: x in t.clients <==> x in s.clients && x != c) &&
      t.startTime == s.startTime && t.manager == s.manager && t.outbox == s.outbox
  {
  }

  /** A broadcast sends `m` exactly once to every current client and to no
      other connection, and changes no field. */
  lemma BroadcastSpec(s: State, m: OutMsg, c: ConnId)
    requires Distinct(s.clients)
    ensures var t := Broadcast(s, m);
      t.clients == s.clients && t.startTime == s.startTime && t.manager == s.manager &&
      |s.outbox| <= |t.outbox| &&
      (forall k :: 0 <= k < |Appended(s, t)| ==> Appended(s, t)[k].msg == m) &&
      CountTo(Appended(s, t), c) == (if c in s.clients then 1 else 0)
  {
    var t := Broadcast(s, m);
    assert Appended(s, t) == Fanout(s.clients, m);
    FanoutCount(s.clients, m, c);
  }

  /** `register` announces the team to every current client, once each. */
  lemma RegisterSpec(s: State, from: ConnId, name: string, now: int, timestamp: string, c: ConnId)
    requires Distinct(s.clients)
    ensures var (t, o) := Step(s, Message(from, Register(name), now, timestamp));
      o == Handled && t.clients == s.clients && t.startTime == s.startTime && t.manager == s.manager &&
      |s.outbox| <= |t.outbox| &&
      (forall k :: 0 <= k < |Appended(s, t)| ==> Appended(s, t)[k].msg == NewTeam(name)) &&
      CountTo(Appended(s, t), c) == (if c in s.clients then 1 else 0)
  {
    BroadcastSpec(s, NewTeam(name), c);
  }

  /** `start` (re)sets the clock to `now`, makes the sender the manager, and
      announces the start to every current client, once each. */
  lemma StartSpec(s: State, from: ConnId, now: int, timestamp: string, c: ConnId)
    requires Distinct(s.clients)
    ensures var (t, o) := Step(s, Message(from, Start, now, timestamp));
      o == Handled && t.clients == s.clients && t.startTime == Some(now) && t.manager == Some(from) &&
      |s.outbox| <= |t.outbox| &&
      (forall k :: 0 <= k < |Appended(s, t)| ==> Appended(s, t)[k].msg == StartOut) &&
      CountTo(Appended(s, t), c) == (if c in s.clients then 1 else 0)
  {
    BroadcastSpec(s.(startTime := Some(now)), StartOut, c);
  }

  /** `ready` after a `start`: the same result goes first to the sender, then
      to the manager, whether or not either is still connected; so a manager
      that sends `ready` itself gets it twice. Nothing else changes. */
  lemma ReadySpec(s: State, from: ConnId, team: string, now: int, timestamp: string, t0: int, mgr: ConnId, c: ConnId)
    requires s.startTime == Some(t0) && s.manager == Some(mgr)
    ensures var (t, o) := Step(s, Message(from, Ready(team), now, timestamp));
      var reply := ReadyOut(team, timestamp, now - t0);
      o == Handled && t.clients == s.clients && t.startTime == s.startTime && t.manager == s.manager &&
      t.outbox == s.outbox + [Send(from, reply), Send(mgr, reply)] &&
      CountTo(Appended(s, t), c) == (if c == from then 1 else 0) + (if c == mgr then 1 else 0)
  {
    var t := Step(s, Message(from, Ready(team), now, timestamp)).0;
    var reply := ReadyOut(team, timestamp, now - t0);
    assert Appended(s, t) == [Send(from, reply)] + [Send(mgr, reply)];
    CountToAppend([Send(from, reply)], [Send(mgr, reply)], c);
    assert [Send(from, reply)][1..] == [] && [Send(mgr, reply)][1..] == [];
  }

  /** `ready` before any `start`: the sender is sent a time taken measured from
      0 (the null clock), and the handler then fails on the null manager. */
  lemma ReadyBeforeStart(s: State, from: ConnId, team: string, now: int, timestamp: string)
    requires Inv(s) && s.startTime.None?
    ensures var (t, o) := Step(s, Message(from, Ready(team), now, timestamp));
      o == NoManager && t.clients == s.clients && t.startTime == None && t.manager == None &&
      t.outbox == s.outbox + [Send(from, ReadyOut(team, timestamp, now))]
  {
  }

  /** An action the switch does not know changes nothing and sends nothing. */
  lemma OtherSpec(s: State, from: ConnId, now: int, timestamp: string)
    ensures Step(s, Message(from, Other, now, timestamp)) == (s, Handled)
  {
  }

  /** One keepalive tick pings every current client once and changes nothing else. */
  lemma TickSpec(s: State, c: ConnId)
    requires Distinct(s.clients)
    ensures var (t, o) := Step(s, Tick);
      o == Handled && t.clients == s.clients && t.startTime == s.startTime && t.manager == s.manager &&
      |s.outbox| <= |t.outbox| &&
      (forall k :: 0 <= k < |Appended(s, t)| ==> Appended(s, t)[k].msg == Ping) &&
      CountTo(Appended(s, t), c) == (if c in s.clients then 1 else 0)
  {
    BroadcastSpec(s, Ping, c);
  }

  /** Two `ready`s after the same `start` report times that differ by exactly
      the time between them, so later ones never report less. */
  lemma ReadyTimesMonotone(s: State, a: ConnId, ta: string, na: int, b: ConnId, tb: string, nb: int, tsa: string, tsb: string)
    requires Inv(s) && s.startTime.Some? && na <= nb
    ensures var s1 := Step(s, Message(a, Ready(ta), na, tsa)).0;
      var s2 := Step(s1, Message(b, Ready(tb), nb, tsb)).0;
      |s2.outbox| == |s.outbox| + 4 &&
      s2.outbox[|s.outbox|].msg.timeTaken <= s2.outbox[|s.outbox| + 2].msg.timeTaken &&
      s2.outbox[|s.outbox| + 2].msg.timeTaken - s2.outbox[|s.outbox|].msg.timeTaken == nb - na
  {
  }

  // ---------------------------------------------------------------------------
  // Event sequences

  /** The state after handling `es` in order, starting from `s`. */
  function Run(s: State, es: seq<Event>): State
    decreases |es|
  {
    if es == [] then s else Step(Run(s, es[..|es| - 1]), es[|es| - 1]).0
  }

  lemma {:induction false} RunPreservesInv(s: State, es: seq<Event>)
    requires Inv(s)
    ensures Inv(Run(s, es)) && s.outbox <= Run(s, es).outbox
    decreases |es|
  {
    if es != [] {
      var n := |es| - 1;
      RunPreservesInv(s, es[..n]);
      StepPreservesInv(Run(s, es[..n]), es[n]);
    }
  }

  /** The registry operations among `es`, in order. */
  function RegistryOps(es: seq<Event>): seq<RegistryOp>
    decreases |es|
  {
    if es == [] then [] else RegistryOps(es[..|es| - 1]) + OpOf(es[|es| - 1])
  }

  function OpOf(e: Event): seq<RegistryOp>
  {
    match e
    case Open(c) => [Add(c)]
    case Close(c) => [Remove(c)]
    case _ => []
  }

  /** Only `onOpen` and `onClose` change the clients: messages and ticks leave them alone. */
  lemma {:induction false} RunClients(s: State, es: seq<Event>)
    ensures Run(s, es).clients == Replay(s.clients, RegistryOps(es))
    decreases |es|
  {
    if es != [] {
      var n := |es| - 1;
      RunClients(s, es[..n]);
      StepClients(Run(s, es[..n]), es[n]);
      ReplayAppend(s.clients, RegistryOps(es[..n]), OpOf(es[n]));
    }
  }

  lemma StepClients(t: State, e: Event)
    ensures Step(t, e).0.clients == Replay(t.clients, OpOf(e))
  {
  }

  /** After any events, a connection is a client exactly when it was opened
      and not closed since (or was a client at the start and never closed). */
  lemma RunMembership(s: State, es: seq<Event>, c: ConnId)
    ensures c in Run(s, es).clients <==> AddedNotRemoved(s.clients, RegistryOps(es), c)
  {
    RunClients(s, es);
    ReplayMembers(s.clients, RegistryOps(es), c);
  }

  /** The sender and clock reading of the last `start` in `es`, if any. */
  function LastStart(es: seq<Event>): Option<(ConnId, int)>
    decreases |es|
  {
    if es == [] then None
    else match es[|es| - 1]
      case Message(from, Start, now, _) => Some((from, now))
      case _ => LastStart(es[..|es| - 1])
  }

  /** The clock and the manager are those of the last `start`: each `start`
      overwrites them, and nothing else (not even closing the manager's
      connection) resets them. */
  lemma {:induction false} RunRaceClock(s: State, es: seq<Event>)
    ensures match LastStart(es)
      case None => Run(s, es).startTime == s.startTime && Run(s, es).manager == s.manager
      case Some((m, t)) => Run(s, es).startTime == Some(t) && Run(s, es).manager == Some(m)
    decreases |es|
  {
    if es != [] {
      RunRaceClock(s, es[..|es| - 1]);
    }
  }

  /** Two connections; connection 1 starts the race and then disconnects;
      2345 ms later connection 2 sends `ready`. The result goes to 2 and to
      the departed manager 1, and reports 2345 ms. */
  lemma ManagerGoneExample()
    ensures var es := [Open(1), Open(2), Message(1, Start, 1000, "12:00:00"), Close(1),
                       Message(2, Ready("B"), 3345, "12:00:02")];
      var t := Run(Initial, es);
      var reply := ReadyOut("B", "12:00:02", 2345);
      t.clients == [2] && t.manager == Some(1) &&
      t.outbox == [Send(1, StartOut), Send(2, StartOut), Send(2, reply), Send(1, reply)]
  {
    var es := [Open(1), Open(2), Message(1, Start, 1000, "12:00:00"), Close(1),
               Message(2, Ready("B"), 3345, "12:00:02")];
    var e4, e3, e2, e1 := es[..4], es[..4][..3], es[..4][..3][..2], es[..4][..3][..2][..1];
    assert e4 == [Open(1), Open(2), Message(1, Start, 1000, "12:00:00"), Close(1)];
    assert e3 == [Open(1), Open(2), Message(1, Start, 1000, "12:00:00")];
    assert e2 == [Open(1), Open(2)];
    assert e1 == [Open(1)] && e1[..0] == [];
    assert Run(Initial, e1).clients == [1];
    assert Run(Initial, e2).clients == [1, 2];
    assert Fanout([1, 2], StartOut) == [Send(1, StartOut), Send(2, StartOut)];
    assert Run(Initial, e3).outbox == [Send(1, StartOut), Send(2, StartOut)];
    assert Detach([1, 2], 1) == [2];
  }
}
