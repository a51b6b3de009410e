# CompetitionServer: a Dafny model

This project models the relay at the heart of the teamplay competition
server: the `CompetitionServer` class in `www/server.php`. It tracks the
open WebSocket connections (`$clients`), the race clock (`$startTime`) and
the connection that last started a race (`$manager`). It reacts to four
kinds of event:

- a connection opening;
- a connection closing;
- a decoded message (`register`, `start`, `ready` or anything else);
- one firing of the 30-second keepalive timer.

Every `$conn->send(...)` is recorded as one entry `Send(to, msg)` appended
to an `outbox` sequence. So each handler's whole effect is a change to three
fields plus the sends it appends.

Modules, leaves first:

- `Protocol` (protocol.dfy) holds the decoded inbound and outbound messages.
  `Fanout` is the list of sends made by one `foreach` over the clients.
  `CountTo` counts the sends addressed to one connection.
- `Registry` (registry.dfy) models the SplObjectStorage of clients as a
  duplicate-free list in attach order. `Attach` and `Detach` are the
  storage's operations. `Replay` applies a sequence of them.
- `Coordinator` (coordinator.dfy) is the pure specification. `Step` maps a
  state and an event to the next state and an `Outcome`. `Run` folds `Step`
  over a sequence of events. The lemmas here state what each handler
  does and what holds over any event sequence.
- `Server` (server.dfy) is the class `CompetitionServer`. Its fields are
  updated in place by `OnOpen`, `OnClose`, `OnMessage`, `Broadcast` and
  `KeepAliveTick`. `Broadcast` and `KeepAliveTick` are loops that send to
  one client at a time. Each handler (`OnOpen`, `OnClose`, `OnMessage`,
  `KeepAliveTick`) is proved to end in exactly the state `Coordinator.Step`
  gives for its event. `Broadcast`, which has no event of its own, is proved
  to append `Fanout(clients, m)` to the outbox and change nothing else.

Modelling decisions:

- Time is an integer number of milliseconds, passed to `OnMessage` as `now`.
  The `timestamp` (`date('H:i:s')` in the source) is passed in as an opaque
  string.
- Connections are identified by a `ConnId`. The transport's connection
  objects, and sending on them, are not modelled; the outbox records what
  was sent to whom.
- The clients are a list, not a set, because a `foreach` over an
  SplObjectStorage visits objects in attach order, and the order of sends is
  part of the outbox. The list never holds a connection twice
  (`Coordinator.Inv`).
- `ready` before any `start`. On that path `$startTime` and `$manager` are
  both still null. The source subtracts the null clock as 0 and sends the
  sender a `ready` result whose time taken is the absolute clock reading.
  It then calls `send` on the null `$manager`, which throws. The model
  performs that first send and then returns `Outcome.NoManager` in place of
  the thrown error. A stricter handler would reject this `ready` without
  sending anything; the model follows the code.
- `onClose` never clears `$manager`. A `ready` after the manager
  disconnected is still addressed to it.

## Model

| member | source | states |
|---|---|---|
| `Server.CompetitionServer.constructor` | www/server.php:17-20 | the registry is empty, no race clock and no manager are set, nothing has been sent |
| `Server.CompetitionServer.KeepAliveTick` | www/server.php:23-27 | the outbox grows by one `Ping` per client, in registry order; no field changes |
| `Server.CompetitionServer.OnOpen` | www/server.php:30-33 | the connection is attached; clock, manager and outbox are unchanged |
| `Server.CompetitionServer.OnClose` | www/server.php:63-66 | the connection is detached; clock, manager (even a departed one) and outbox are unchanged |
| `Server.CompetitionServer.OnMessage` | www/server.php:35-61 | the new fields and outcome are those `Coordinator.Step` gives. The clients never change. `register` and `start` append one fan-out of `new_team` or `start`; `start` also sets the clock to `now` and the manager to the sender. `ready` after a `start` appends the result to the sender and then to the manager. `ready` before any `start` appends one result timed from 0 and returns `NoManager`. Any other action changes nothing |
| `Server.CompetitionServer.Broadcast` | www/server.php:73-77 | the outbox grows by `Send(c, m)` for each client `c`, in registry order; no other field changes |
| `Protocol.Fanout` | www/server.php:74-76 | one send per listed connection, at the same position, each carrying the same message |
| `Protocol.FanoutCount` | www/server.php:73-77 | fanning out to a duplicate-free list sends exactly one message to each listed connection and none to any other |
| `Registry.Attach` | www/server.php:31 | afterwards the members are the old ones plus the new connection; the old order is a prefix; attaching a present connection changes nothing |
| `Registry.Detach` | www/server.php:64 | afterwards the members are the old ones minus the connection; detaching an absent connection changes nothing |
| `Registry.DetachAt` | www/server.php:64 | in a duplicate-free registry, detaching the connection at position `k` removes exactly that position and keeps the other connections in their order |
| `Registry.DetachDistinct` | www/server.php:64 | detaching keeps the registry free of duplicates |
| `Registry.ReplayMembers` | www/server.php:30-33 | after any sequence of attaches and detaches, a connection is registered exactly when it was attached and not detached since, or was there at the start and never detached |
| `Registry.ReplayDistinct` | www/server.php:63-66 | no sequence of attaches and detaches puts a connection in the registry twice |
| `Coordinator.StepPreservesInv` | www/server.php:23-77 | every handler keeps the registry duplicate-free, keeps "clock set exactly when manager set", and only appends to the outbox |
| `Coordinator.OpenSpec` | www/server.php:30-33 | opening adds the connection, leaves a present one in place, and changes nothing else |
| `Coordinator.CloseSpec` | www/server.php:63-66 | closing removes the connection and changes nothing else, so the manager survives its own disconnect |
| `Coordinator.BroadcastSpec` | www/server.php:73-77 | a broadcast sends its message exactly once to each current client and to no other connection, and changes no field |
| `Coordinator.RegisterSpec` | www/server.php:39-42 | `register` sends `new_team` with the team name exactly once to each current client and changes no field |
| `Coordinator.StartSpec` | www/server.php:44-48 | `start` overwrites the clock with `now`, makes the sender the manager, and sends `start` exactly once to each current client |
| `Coordinator.ReadySpec` | www/server.php:50-59 | after a `start` at `t0`, `ready` appends exactly two identical results with time taken `now - t0`: first to the sender, then to the manager; a manager that is also the sender gets two; no other connection gets one; no field changes |
| `Coordinator.ReadyBeforeStart` | www/server.php:50-58 | before any `start`, `ready` sends the sender a result timed from 0 and then fails on the null manager; no field changes |
| `Coordinator.OtherSpec` | www/server.php:38-60 | an unknown action changes nothing and sends nothing |
| `Coordinator.TickSpec` | www/server.php:23-27 | a tick sends `ping` exactly once to each current client and changes no field |
| `Coordinator.ReadyTimesMonotone` | www/server.php:51 | two `ready`s after the same `start` report times differing by exactly the time between them, so a later one never reports less |
| `Coordinator.RunPreservesInv` | www/server.php:12-78 | from a state meeting the invariant, any event sequence keeps it and only appends to the outbox |
| `Coordinator.RunClients` | www/server.php:30-66 | after any events, the clients are exactly the result of replaying the opens and closes among them; messages and ticks never change the registry |
| `Coordinator.RunMembership` | www/server.php:30-66 | after any events, a connection is a client exactly when it was opened and not closed since |
| `Coordinator.RunRaceClock` | www/server.php:44-48 | after any events, the clock and the manager are those of the last `start`, or unchanged if there was none; closing never resets them |
| `Coordinator.ManagerGoneExample` | www/server.php:44-59 | a manager that starts a race and disconnects is still sent the `ready` result, which reports the elapsed 2345 ms |

## Left out

- Transport and process bootstrap: the Ratchet `IoServer`/`HttpServer`/`WsServer` stack, the socket on port 7000 and `$server->run()` (www/server.php:80-95). These are library I/O.
- `onError` (www/server.php:68-71): it only logs and closes the connection. The close later arrives as an `onClose` event, which is modelled.
- The `echo` logging in `onOpen`, `onClose` and `onError`.
- JSON encoding and decoding. Messages are modelled already decoded. A message whose `action` matches no case becomes `Other`. The model does not capture PHP's behaviour on malformed JSON, a missing `teamName` or `team` (it would be sent as null), or loose `==` comparison in the `switch`.
- `microtime(true)` floats and `round($timeTaken, 3)`. Time is whole milliseconds, so no rounding is modelled.
- `date('H:i:s')`, which depends on the local clock and time zone. The timestamp is an opaque string parameter.
- The scheduling of the keepalive timer every 30 seconds (`addPeriodicTimer`). Only the body of one tick is modelled.
- What happens after a `ready` before any `start` throws: the model returns `NoManager`, and `Coordinator.Run` simply carries on with the next event. Whether the thrown error stops the process depends on the transport library, which is not part of this model.
- Failed sends and connections closing during a `foreach`: every send is assumed to be recorded. The transport's asynchronous failure path is not modelled.
- Concurrency: the event loop is single-threaded, so each handler runs atomically.
