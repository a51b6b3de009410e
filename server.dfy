/** `CompetitionServer` (www/server.php) as a class whose handlers update its
    fields in place. The outbox stands in for the transport: each
    `$conn->send(...)` appends one entry. Every handler is proved to do
    exactly what `Coordinator.Step` says for its event. */
module Server {
  import opened Protocol
  import opened Registry
  import opened Coordinator

  class CompetitionServer {
    var clients: seq<ConnId>
    var startTime: Option<int>
    var manager: Option<ConnId>
    var outbox: seq<Send>

    /** The fields as a value of the specification's state type. */
    ghost function Snapshot(): State
      reads this
    {
      State(clients, startTime, manager, outbox)
    }

    ghost predicate Valid()
      reads this
    {
      Inv(Snapshot())
    }

    /** An empty registry, no race clock and no manager yet. */
    constructor ()
      ensures Valid() && Snapshot() == Initial
      ensures clients == [] && startTime == None && manager == None && outbox == []
    {
      clients := [];
      startTime := None;
      manager := None;
      outbox := [];
    }

    /** One firing of the keepalive timer: a ping to each client in turn. */
    method KeepAliveTick()
      requires Valid()
      modifies this`outbox
      ensures Valid()
      ensures outbox == old(outbox) + Fanout(clients, Ping)
      ensures Snapshot() == Step(old(Snapshot()), Tick).0
    {
      var i := 0;
      while i < |clients|
        invariant 0 <= i <= |clients|
        invariant outbox == old(outbox) + Fanout(clients[..i], Ping)
      {
        FanoutSnoc(clients[..i], clients[i], Ping);
        assert clients[..i + 1] == clients[..i] + [clients[i]];
        outbox := outbox + [Send(clients[i], Ping)];
        i := i + 1;
      }
      assert clients[..i] == clients;
    }

    method OnOpen(conn: ConnId)
      requires Valid()
      modifies this`clients
      ensures Valid()
      ensures clients == Attach(old(clients), conn)
      ensures Snapshot() == Step(old(Snapshot()), Open(conn)).0
    {
      AttachDistinct(clients, conn);
      clients := Attach(clients, conn);
    }

    /** Removes the connection; `manager` is left as it is, even when it
        is this connection. */
    method OnClose(conn: ConnId)
      requires Valid()
      modifies this`clients
      ensures Valid()
      ensures clients == Detach(old(clients), conn)
      ensures Snapshot() == Step(old(Snapshot()), Close(conn)).0
    {
      DetachDistinct(clients, conn);
      clients := Detach(clients, conn);
    }

    /** Handles one decoded message that arrived on `from` when the clock read
        `now`, with `timestamp` the wall-clock time of day. `outcome` is
        `NoManager` when a `ready` came before any `start`, after the sender
        has already been sent its reply. */
    method OnMessage(from: ConnId, msg: InMsg, now: int, timestamp: string) returns (outcome: Outcome)
      requires Valid()
      modifies this
      ensures Valid()
      ensures (Snapshot(), outcome) == Step(old(Snapshot()), Message(from, msg, now, timestamp))
      ensures clients == old(clients)
      ensures msg.Register? ==>
        outcome == Handled && startTime == old(startTime) && manager == old(manager) &&
        outbox == old(outbox) + Fanout(clients, NewTeam(msg.teamName))
      ensures msg.Start? ==>
        outcome == Handled && startTime == Some(now) && manager == Some(from) &&
        outbox == old(outbox) + Fanout(clients, StartOut)
      ensures msg.Ready? && old(startTime).Some? ==>
        var reply := ReadyOut(msg.team, timestamp, now - old(startTime).value);
        outcome == Handled && startTime == old(startTime) && manager == old(manager) &&
        outbox == old(outbox) + [Send(from, reply), Send(old(manager).value, reply)]
      ensures msg.Ready? && old(startTime).None? ==>
        outcome == NoManager && startTime == None && manager == None &&
        outbox == old(outbox) + [Send(from, ReadyOut(msg.team, timestamp, now))]
      ensures msg.Other? ==> outcome == Handled && Snapshot() == old(Snapshot())
    {
      ghost var before := Snapshot();
      outcome := Handled;
      match msg {
        case Register(name) =>
          Broadcast(NewTeam(name));
        case Start =>
          startTime := Some(now);
          Broadcast(StartOut);
          manager := Some(from);
        case Ready(team) =>
          var elapsed := now - (if startTime.Some? then startTime.value else 0);
          var reply := ReadyOut(team, timestamp, elapsed);
          outbox := outbox + [Send(from, reply)];
          if manager.None? {
            outcome := NoManager;
          } else {
            outbox := outbox + [Send(manager.value, reply)];
          }
        case Other =>
      }
      StepPreservesInv(before, Message(from, msg, now, timestamp));
    }

    /** Sends `m` to each client in turn. */
    method Broadcast(m: OutMsg)
      modifies this`outbox
      ensures outbox == old(outbox) + Fanout(clients, m)
    {
      var i := 0;
      while i < |clients|
        invariant 0 <= i <= |clients|
        invariant outbox == old(outbox) + Fanout(clients[..i], m)
      {
        FanoutSnoc(clients[..i], clients[i], m);
        assert clients[..i + 1] == clients[..i] + [clients[i]];
        outbox := outbox + [Send(clients[i], m)];
        i := i + 1;
      }
      assert clients[..i] == clients;
    }
  }
}
