/** The message vocabulary of the competition server (www/server.php), with
    messages already decoded from their JSON wire form, and the fan-out of one
    message to a list of connections that both `broadcast` and the keepalive
    tick perform. */
module Protocol {

  /** An open connection, identified by identity (Ratchet's connection object). */
  type ConnId = nat

  datatype Option<T> = None | Some(value: T)

  /** An inbound message after decoding, by its `action` field. */
  datatype InMsg =
    | Register(teamName: string)  // {"action": "register", "teamName": ...}
    | Start                       // {"action": "start"}
    | Ready(team: string)         // {"action": "ready", "team": ...}
    | Other                       // any other action: no case of the switch matches

  /** An outbound message. Times are whole milliseconds. */
  datatype OutMsg =
    | NewTeam(teamName: string)                                 // {"action": "new_team", ...}
    | StartOut                                                  // {"action": "start"}
    | ReadyOut(team: string, timestamp: string, timeTaken: int) // {"action": "ready", "data": ...}
    | Ping                                                      // {"type": "ping"}

  /** One call of `$conn->send(...)`: the message and the connection it is addressed to. */
  datatype Send = Send(to: ConnId, msg: OutMsg)

  /** No connection occurs twice (an SplObjectStorage holds each object once). */
  predicate Distinct(rs: seq<ConnId>)
  {
    forall i, j :: 0 <= i < j < |rs| ==> rs[i] != rs[j]
  }

  /** The sends of one `foreach` over `rs` that sends `m` to each element. */
  function Fanout(rs: seq<ConnId>, m: OutMsg): (out: seq<Send>)
    ensures |out| == |rs|
    ensures forall i :: 0 <= i < |rs| ==> out[i] == Send(rs[i], m)
  {
    if rs == [] then [] else [Send(rs[0], m)] + Fanout(rs[1..], m)
  }

  /** How many of the sends in `out` are addressed to `c`. */
  function CountTo(out: seq<Send>, c: ConnId): nat
  {
    if out == [] then 0 else (if out[0].to == c then 1 else 0) + CountTo(out[1..], c)
  }

  lemma {:induction false} CountToAppend(a: seq<Send>, b: seq<Send>, c: ConnId)
    ensures CountTo(a + b, c) == CountTo(a, c) + CountTo(b, c)
  {
    if a != [] {
      assert (a + b)[1..] == a[1..] + b;
      CountToAppend(a[1..], b, c);
    } else {
      assert a + b == b;
    }
  }

  lemma DistinctTail(rs: seq<ConnId>)
    requires rs != [] && Distinct(rs)
    ensures Distinct(rs[1..]) && rs[0] !in rs[1..]
  {
  }

  /** Fanning out to a duplicate-free list delivers exactly one message to
      each listed connection and none to any other. */
  lemma {:induction false} FanoutCount(rs: seq<ConnId>, m: OutMsg, c: ConnId)
    requires Distinct(rs)
    ensures CountTo(Fanout(rs, m), c) == if c in rs then 1 else 0
  {
    if rs != [] {
      var out := Fanout(rs, m);
      assert out[1..] == Fanout(rs[1..], m);
      DistinctTail(rs);
      FanoutCount(rs[1..], m, c);
      assert c in rs <==> c == rs[0] || c in rs[1..];
    }
  }

  /** Appending one more connection to the list appends one more send. */
  lemma FanoutSnoc(rs: seq<ConnId>, c: ConnId, m: OutMsg)
    ensures Fanout(rs + [c], m) == Fanout(rs, m) + [Send(c, m)]
  {
  }
}
