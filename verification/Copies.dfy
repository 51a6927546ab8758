/** Copies of a message: what a message was taken for once it is not taken for again. */
module Copies {
  import opened Texts
  import opened Hlcs
  import opened Clocks
  import opened Ops
  import opened Replicas
  import opened OpOrder
  import opened Storage
  import opened Engine
  import opened Sessions
  import opened Replication

  /** The same but for the clock. */
  ghost predicate Alike(r: Replica, q: Replica) {
    q == r.(clock := q.clock, saved := q.saved)
  }

  lemma {:induction false} TakenOnce(log: set<Op>, ops: seq<Op>)
    ensures forall o <- ops :: HasOp(log + OpSet(FreshOps(log, ops)), o.hlc)
  {
    if ops != [] {
      var init, last := ops[..|ops| - 1], ops[|ops| - 1];
      var before := FreshOps(log, init);
      AppendLast(ops);
      TakenOnce(log, init);
      OpSetAppend(before, last);
      forall o <- ops ensures HasOp(log + OpSet(FreshOps(log, ops)), o.hlc) {
        if o in init {
          assert HasOp(log + OpSet(before), o.hlc);
        } else if !HasOp(log, last.hlc) && !HasOp(OpSet(before), last.hlc) {
          assert last in log + OpSet(FreshOps(log, ops));
        }
      }
    }
  }

  lemma {:induction false} NoneFresh(log: set<Op>, ops: seq<Op>)
    requires forall o <- ops :: HasOp(log, o.hlc)
    ensures FreshOps(log, ops) == []
  {
    if ops != [] {
      AppendLast(ops);
      NoneFresh(log, ops[..|ops| - 1]);
    }
  }

  /** A batch taken a second time brings nothing. */
  lemma MergeAgain(r: Replica, ops: seq<Op>, pt: int, later: int)
    requires Merge(r, ops, pt).1.Applied?
    ensures var q := Merge(r, ops, pt).0; var (z, o) := Merge(q, ops, later);
      Alike(q, z) && (o.Applied? ==> o.count == 0)
  {
    hide ReceiveBatch, CellsAfter, FrontierAfter;
    TakenOnce(r.log, ops);
    var q := Merge(r, ops, pt).0;
    NoneFresh(q.log, ops);
    assert q.log + OpSet([]) == q.log;
    NoOpsAfter(q);
  }

  lemma NoOpsAfter(r: Replica)
    ensures CellsAfter(r.cells, []) == r.cells && FrontierAfter(r.frontier, []) == r.frontier
  {
  }

  lemma ObserveAlike(r: Replica, h: Hlc, pt: int)
    ensures Alike(r, ObserveClock(r, h, pt).0)
  {
  }

  /** The clock did not refuse the message. */
  ghost predicate Taken(n: Node, crypto: Crypto, m: Msg, pt: int) {
    match m.body
    case Hello(clock, _) => Decode(clock).Timestamp? && ObserveClock(n.replica, Decode(clock).hlc, pt).1.Applied?
    case OpsBatch(wire) => RemoteApplied(n.replica, crypto, n.keys, wire, pt).1 != Failed(ClockDrift)
                           && RemoteApplied(n.replica, crypto, n.keys, wire, pt).1 != Failed(ClockRange)
    case _ => true
  }

  lemma SecondHello(n: Node, crypto: Crypto, m: Msg, pt: int, later: int)
    requires m.body.Hello? && Taken(n, crypto, m, pt)
    ensures var q := OnHello(n, crypto, m, pt).0; var (z, out) := OnHello(q, crypto, m, later);
      && z == q.(replica := z.replica) && Alike(q.replica, z.replica) && forall s <- out :: !s.body.Hello?
  {
    hide Decode, ObserveClock, LatestClock;
    ObserveAlike(OnHello(n, crypto, m, pt).0.replica, Decode(m.body.clock).hlc, later);
  }

  lemma SecondBatch(n: Node, crypto: Crypto, m: Msg, pt: int, later: int)
    requires m.body.OpsBatch? && Taken(n, crypto, m, pt)
    ensures var q := OnOps(n, crypto, m, pt).0; var (z, out) := OnOps(q, crypto, m, later);
      z == q.(replica := z.replica) && Alike(q.replica, z.replica) && out == []
  {
    hide Merge, Admitted;
    if Admitted(crypto, n.keys, m.body.ops).Some? {
      var ops := Admitted(crypto, n.keys, m.body.ops).value;
      MergeErrors(n.replica, ops, pt);
      MergeAgain(n.replica, ops, pt, later);
    }
  }

  lemma MergeErrors(r: Replica, ops: seq<Op>, pt: int)
    ensures var o := Merge(r, ops, pt).1; o.Applied? || o == Failed(ClockDrift) || o == Failed(ClockRange)
  {
  }

  lemma SecondQuestion(n: Node, m: Msg)
    requires m.body.Since?
    ensures var (q, out) := OnSince(n, m); OnSince(q, m) == (q, out) && forall s <- out :: !s.body.Hello?
  {
    hide OpsSince, WireOf;
    var q := OnSince(n, m).0;
    assert q.peers[m.from := Some(m.body.have)] == q.peers;
    assert q.replica.peers == if m.from == n.id then n.replica.peers else n.replica.peers[m.from := m.body.have];
    assert RecordPeer(q.replica, n.id, m.from, m.body.have).peers == q.replica.peers;
  }

  /** Hearing a message again changes nothing but clocks, and a second copy of a batch is not even acknowledged. */
  lemma SecondCopy(n: Node, crypto: Crypto, m: Msg, pt: int, later: int)
    requires Taken(n, crypto, m, pt)
    ensures var q := Received(n, crypto, m, pt).0; var (z, out) := Received(q, crypto, m, later);
      && z == q.(replica := z.replica) && Alike(q.replica, z.replica)
      && (m.body.OpsBatch? ==> out == []) && forall s <- out :: !s.body.Hello?
  {
    hide OnHello, OnSince, OnOps, Genuine, Taken;
    var q := Received(n, crypto, m, pt).0;
    IgnoredAlike(n, crypto, m, pt);
    match m.body
    case Hello(_, _) => SecondHello(n, crypto, m, pt, later);
    case Keys(keys) => LearnedTwice(crypto, n.keys, keys);
    case Since(_) => SecondQuestion(n, m);
    case OpsBatch(_) => SecondBatch(n, crypto, m, pt, later);
    case Ack(_) =>
  }

  /** What a node ignores it ignores again. */
  lemma IgnoredAlike(n: Node, crypto: Crypto, m: Msg, pt: int)
    ensures Ignored(Received(n, crypto, m, pt).0, m) <==> Ignored(n, m)
  {
    hide Decode, ObserveClock, RemoteApplied, OpsSince, LatestClock, Genuine, WireOf;
  }

  lemma LearnedTwice(crypto: Crypto, own: map<Device, Key>, keys: map<Device, Key>)
    ensures own + Genuine(crypto, keys) + Genuine(crypto, keys) == own + Genuine(crypto, keys)
  {
  }

  /** A question of someone who has seen all there is gets no answer. */
  lemma CaughtUpIsSilent(n: Node, crypto: Crypto, m: Msg, pt: int)
    requires m.body.Since? && forall o <- n.replica.log :: Seen(m.body.have, o.hlc)
    ensures Received(n, crypto, m, pt).1 == []
  {
    var q := Replication.Recorded(n, m, m.body.have);
    OpsSinceContents(q.replica.log, m.body.have);
    forall o <- q.replica.log ensures !AboveFrontier(o, m.body.have) {
      AboveIsUnseen(o, m.body.have);
    }
  }
}
