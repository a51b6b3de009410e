/** The connection registry: `$this->clients`, an SplObjectStorage, as a
    duplicate-free list in attach order (the order a `foreach` visits it). */
module Registry {
  import opened Protocol

  /** `SplObjectStorage::attach`: a new connection goes to the end; attaching
      one already present changes nothing. */
  function Attach(rs: seq<ConnId>, c: ConnId): (r: seq<ConnId>)
    ensures forall x :: x in r <==> x in rs || x == c
    ensures rs <= r
    ensures c in rs ==> r == rs
  {
    if c in rs then rs else rs + [c]
  }

  /** `SplObjectStorage::detach`: removes the connection, keeping the order of
      the others (see DetachAt); detaching one that is absent changes nothing. */
  function Detach(rs: seq<ConnId>, c: ConnId): (r: seq<ConnId>)
    ensures forall x :: x in r <==> x in rs && x != c
    ensures |r| <= |rs|
    ensures c !in rs ==> r == rs
  {
    if rs == [] then []
    else if rs[0] == c then Detach(rs[1..], c)
    else [rs[0]] + Detach(rs[1..], c)
  }

  lemma AttachDistinct(rs: seq<ConnId>, c: ConnId)
    requires Distinct(rs)
    ensures Distinct(Attach(rs, c))
  {
  }

  lemma {:induction false} DetachDistinct(rs: seq<ConnId>, c: ConnId)
    requires Distinct(rs)
    ensures Distinct(Detach(rs, c))
  {
    if rs != [] {
      DistinctTail(rs);
      DetachDistinct(rs[1..], c);
      if rs[0] != c {
        var t := Detach(rs[1..], c);
        var r := [rs[0]] + t;
        assert rs[0] !in t;
        forall i, j | 0 <= i < j < |r| ensures r[i] != r[j] {
          if i == 0 { assert r[j] == t[j - 1]; } else { assert r[i] == t[i - 1] && r[j] == t[j - 1]; }
        }
      }
    }
  }

  /** In a duplicate-free registry, detaching the connection at position `k`
      removes exactly that position and keeps the others in order. */
  lemma {:induction false} DetachAt(rs: seq<ConnId>, c: ConnId, k: nat)
    requires Distinct(rs) && k < |rs| && rs[k] == c
    ensures Detach(rs, c) == rs[..k] + rs[k + 1..]
  {
    var t := rs[1..];
    DistinctTail(rs);
    if k == 0 {
      assert Detach(rs, c) == Detach(t, c);
      assert rs[..0] + rs[1..] == t;
    } else {
      assert rs[0] != rs[k];
      assert Detach(rs, c) == [rs[0]] + Detach(t, c);
      assert t[k - 1] == c;
      DetachAt(t, c, k - 1);
      assert rs[..k] == [rs[0]] + t[..k - 1];
      assert rs[k + 1..] == t[k..];
    }
  }

  /** The registry operations, as delivered by `onOpen` and `onClose`. */
  datatype RegistryOp = Add(conn: ConnId) | Remove(conn: ConnId)

  function Apply(rs: seq<ConnId>, op: RegistryOp): seq<ConnId>
  {
    match op
    case Add(c) => Attach(rs, c)
    case Remove(c) => Detach(rs, c)
  }

  /** The registry after performing `ops` in order, starting from `rs`. */
  function Replay(rs: seq<ConnId>, ops: seq<RegistryOp>): seq<ConnId>
    decreases |ops|
  {
    if ops == [] then rs else Apply(Replay(rs, ops[..|ops| - 1]), ops[|ops| - 1])
  }

  /** No op after position `i` removes `c`. */
  ghost predicate KeptAfter(ops: seq<RegistryOp>, i: int, c: ConnId)
  {
    forall j :: 0 <= j < |ops| && i < j ==> ops[j] != Remove(c)
  }

  /** `c` was added and not removed afterwards, or was there from the start
      and never removed. */
  ghost predicate AddedNotRemoved(rs: seq<ConnId>, ops: seq<RegistryOp>, c: ConnId)
  {
    (exists i :: 0 <= i < |ops| && ops[i] == Add(c) && KeptAfter(ops, i, c))
    || (c in rs && KeptAfter(ops, -1, c))
  }

  /** An op about another connection does not change whether `c` was added
      and not removed. */
  lemma AddedNotRemovedOther(rs: seq<ConnId>, p: seq<RegistryOp>, op: RegistryOp, c: ConnId)
    requires op.conn != c
    ensures AddedNotRemoved(rs, p + [op], c) <==> AddedNotRemoved(rs, p, c)
  {
    var ops := p + [op];
    forall i | -1 <= i < |p| ensures KeptAfter(ops, i, c) <==> KeptAfter(p, i, c) {
      assert forall j :: i < j < |p| ==> ops[j] == p[j];
    }
    if AddedNotRemoved(rs, p, c) {
      if i :| 0 <= i < |p| && p[i] == Add(c) && KeptAfter(p, i, c) {
        assert ops[i] == Add(c);
      }
    }
    if AddedNotRemoved(rs, ops, c) {
      if i :| 0 <= i < |ops| && ops[i] == Add(c) && KeptAfter(ops, i, c) {
        assert p[i] == Add(c);
      }
    }
  }

  /** Any sequence of adds and removes leaves exactly the connections added
      and not removed since. */
  lemma {:induction false} ReplayMembers(rs: seq<ConnId>, ops: seq<RegistryOp>, c: ConnId)
    ensures c in Replay(rs, ops) <==> AddedNotRemoved(rs, ops, c)
    decreases |ops|
  {
    if ops != [] {
      var n := |ops| - 1;
      var p, last := ops[..n], ops[n];
      assert ops == p + [last];
      ReplayMembers(rs, p, c);
      if last == Add(c) {
        assert KeptAfter(ops, n, c);
      } else if last == Remove(c) {
        assert !KeptAfter(ops, -1, c);
        forall i | 0 <= i < n ensures !KeptAfter(ops, i, c) {
          assert ops[n] == Remove(c);
        }
      } else {
        AddedNotRemovedOther(rs, p, last, c);
      }
    }
  }

  /** Replaying one more op applies it to the replayed registry. */
  lemma ReplaySnoc(rs: seq<ConnId>, ops: seq<RegistryOp>, op: RegistryOp)
    ensures Replay(rs, ops + [op]) == Apply(Replay(rs, ops), op)
  {
    assert (ops + [op])[..|ops|] == ops;
  }

  /** Replaying two sequences of ops one after the other is replaying their concatenation. */
  lemma {:induction false} ReplayAppend(rs: seq<ConnId>, ops: seq<RegistryOp>, more: seq<RegistryOp>)
    ensures Replay(rs, ops + more) == Replay(Replay(rs, ops), more)
    decreases |more|
  {
    if more == [] {
      assert ops + more == ops;
    } else {
      var n := |more| - 1;
      var init, last := more[..n], more[n];
      assert more == init + [last];
      assert ops + more == (ops + init) + [last];
      ReplayAppend(rs, ops, init);
      ReplaySnoc(rs, ops + init, last);
      ReplaySnoc(Replay(rs, ops), init, last);
    }
  }

  /** The registry never holds a connection twice. */
  lemma {:induction false} ReplayDistinct(rs: seq<ConnId>, ops: seq<RegistryOp>)
    requires Distinct(rs)
    ensures Distinct(Replay(rs, ops))
    decreases |ops|
  {
    if ops != [] {
      var n := |ops| - 1;
      ReplayDistinct(rs, ops[..n]);
      match ops[n]
      case Add(c) => AttachDistinct(Replay(rs, ops[..n]), c);
      case Remove(c) => DetachDistinct(Replay(rs, ops[..n]), c);
    }
  }
}
