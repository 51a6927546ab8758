/** What a session achieves: replicators greet, ask and answer over links that keep order, nobody writes, and
    when the links are empty everyone holds everything. */
module Reunion {
  import opened Texts
  import opened Hlcs
  import opened Ops
  import opened Replicas
  import opened Histories
  import opened OpOrder
  import opened Catchup
  import opened Storage
  import opened Engine
  import opened Sessions
  import opened Replication
  import opened Links

  /** The operations a batch carries. */
  function Carried(wire: seq<WireOp>): set<Op> {
    set w | w in wire && ValidateOp(w).Valid? :: ValidateOp(w).op
  }

  predicate OpsFor(m: Msg, t: Device) {
    m.body.OpsBatch? && m.to == Some(t)
  }

  // ---------- replicas that never skipped anything ----------

  /** The replica holds every one of `all` its frontier covers, and its frontier covers nothing else. */
  ghost predicate Whole(r: Replica, all: set<Op>) {
    && Consistent(r) && r.log <= all && FrontierIssued(all, r.frontier)
    && forall o <- all | Seen(r.frontier, o.hlc) :: o in r.log
  }

  /** Whatever of `all` the batch would make a frontier cover is held already or in the batch. */
  ghost predicate Closed(all: set<Op>, held: set<Op>, batch: set<Op>) {
    forall o <- all | Reaches(batch, o.hlc) :: o in held + batch
  }

  /** Applying the queue in order, `t` never skips an operation. */
  ghost predicate Complete(all: set<Op>, t: Device, held: set<Op>, q: seq<Msg>)
    decreases |q|
  {
    q == [] ||
    if OpsFor(q[0], t) then
      var batch := Carried(q[0].body.ops);
      batch <= all && Closed(all, held, batch) && Complete(all, t, held + batch, q[1..])
    else
      Complete(all, t, held, q[1..])
  }

  lemma {:induction false} CompleteMore(all: set<Op>, t: Device, held: set<Op>, more: set<Op>, q: seq<Msg>)
    requires Complete(all, t, held, q) && held <= more
    ensures Complete(all, t, more, q)
    decreases |q|
  {
    hide Carried;
    if q != [] {
      if OpsFor(q[0], t) {
        CompleteMore(all, t, held + Carried(q[0].body.ops), more + Carried(q[0].body.ops), q[1..]);
      } else {
        CompleteMore(all, t, held, more, q[1..]);
      }
    }
  }

  lemma {:induction false} CompleteAppend(all: set<Op>, t: Device, held: set<Op>, q: seq<Msg>, out: seq<Msg>)
    requires Complete(all, t, held, q) && Complete(all, t, held, out)
    ensures Complete(all, t, held, q + out)
    decreases |q|
  {
    hide Carried, Closed;
    if q == [] {
      assert q + out == out;
    } else {
      assert (q + out)[1..] == q[1..] + out;
      if OpsFor(q[0], t) {
        var next := held + Carried(q[0].body.ops);
        CompleteMore(all, t, held, next, out);
        CompleteAppend(all, t, next, q[1..], out);
      } else {
        CompleteAppend(all, t, held, q[1..], out);
      }
    }
  }

  lemma {:induction false} NoOpsForT(all: set<Op>, t: Device, held: set<Op>, q: seq<Msg>)
    requires forall m <- q :: !OpsFor(m, t)
    ensures Complete(all, t, held, q)
    decreases |q|
  {
    if q != [] { NoOpsForT(all, t, held, q[1..]); }
  }

  // ---------- an answer skips nothing ----------

  lemma ChunkCarries(ops: seq<Op>)
    requires forall o <- ops :: Admissible(o)
    ensures Carried(WireOf(ops)) == OpSet(ops)
  {
    hide Admissible, ValidateOp;
    forall i | 0 <= i < |ops| ensures ValidateOp(WireOf(ops)[i]) == Validated.Valid(ops[i]) {
      assert ops[i] in ops;
      ValidateExactly(ToWire(ops[i]));
    }
    forall o <- OpSet(ops) ensures o in Carried(WireOf(ops)) {
      var i :| 0 <= i < |ops| && ops[i] == o;
      assert WireOf(ops)[i] in WireOf(ops);
    }
    forall o <- Carried(WireOf(ops)) ensures o in OpSet(ops) {
      var w :| w in WireOf(ops) && ValidateOp(w).Valid? && ValidateOp(w).op == o;
      var i :| 0 <= i < |ops| && WireOf(ops)[i] == w;
    }
  }

  /** Up to any point, an ascending answer to a question holds all of the writer's earlier operations. */
  lemma SliceClosed(all: set<Op>, r: Replica, have: Frontier, held: set<Op>, missing: seq<Op>, i: nat, j: nat)
    requires Whole(r, all) && forall o <- all | Seen(have, o.hlc) :: o in held
    requires missing == OpsSince(r.log, have) && i <= j <= |missing|
    ensures OpSet(missing[i..j]) <= all
    ensures Closed(all, held + OpSet(missing[..i]), OpSet(missing[i..j]))
    ensures OpSet(missing[..i]) + OpSet(missing[i..j]) == OpSet(missing[..j])
  {
    hide FrontierIssued, OpsSince;
    OpsSinceContents(r.log, have);
    assert missing[..j] == missing[..i] + missing[i..j];
    forall o <- OpSet(missing[i..j]) ensures o in r.log {
      assert o in OpSet(missing);
    }
    forall o <- all | Reaches(OpSet(missing[i..j]), o.hlc)
      ensures o in held + OpSet(missing[..i]) + OpSet(missing[i..j])
    {
      var p :| p in OpSet(missing[i..j]) && p.hlc.device == o.hlc.device && Leq(o.hlc, p.hlc);
      SeenByLower(r, p, o);
      if !Seen(have, o.hlc) {
        BeforeInAnswer(r.log, have, missing, j, p, o);
      }
    }
  }

  lemma SeenByLower(r: Replica, p: Op, o: Op)
    requires Consistent(r) && p in r.log && p.hlc.device == o.hlc.device && Leq(o.hlc, p.hlc)
    ensures Seen(r.frontier, o.hlc)
  {
    assert Seen(r.frontier, p.hlc);
  }

  lemma BeforeInAnswer(log: set<Op>, have: Frontier, missing: seq<Op>, j: nat, p: Op, o: Op)
    requires Ascending(missing) && OpSet(missing) == Diff(log, have) && j <= |missing|
    requires p in missing[..j] && o in log && !Seen(have, o.hlc) && Leq(o.hlc, p.hlc)
    ensures o in OpSet(missing[..j])
  {
    assert o in OpSet(missing);
    var m :| 0 <= m < |missing| && missing[m] == o;
    var n :| 0 <= n < j && missing[..j][n] == p;
    assert m <= n;
    assert missing[..j][m] == o;
  }

  function End(n: nat, k: nat): nat {
    if n <= k * OPS_PER_MESSAGE then n else k * OPS_PER_MESSAGE
  }

  lemma ChunkIsSlice(ops: seq<Op>, k: nat)
    requires k < ChunkCount(|ops|, OPS_PER_MESSAGE)
    ensures End(|ops|, k) <= End(|ops|, k + 1)
    ensures Chunk(ops, OPS_PER_MESSAGE, k) == ops[End(|ops|, k)..End(|ops|, k + 1)]
  {
  }

  lemma {:induction false} ChunksComplete(
    all: set<Op>, n: Node, have: Frontier, held: set<Op>, to: Device, missing: seq<Op>, k: nat)
    requires Whole(n.replica, all) && forall o <- all | Seen(have, o.hlc) :: o in held
    requires missing == OpsSince(n.replica.log, have) && forall o <- missing :: Admissible(o)
    requires k <= ChunkCount(|missing|, OPS_PER_MESSAGE)
    ensures Complete(all, to, held + OpSet(missing[..End(|missing|, k)]), ChunkMsgs(n, Some(to), missing)[k..])
    decreases ChunkCount(|missing|, OPS_PER_MESSAGE) - k
  {
    hide Whole, Admissible, OpsSince, Carried, Closed, Seen;
    var msgs := ChunkMsgs(n, Some(to), missing);
    if k < |msgs| {
      var i, j := End(|missing|, k), End(|missing|, k + 1);
      ChunkIsSlice(missing, k);
      assert forall o <- missing[i..j] :: o in missing;
      ChunkCarries(missing[i..j]);
      SliceClosed(all, n.replica, have, held, missing, i, j);
      ChunksComplete(all, n, have, held, to, missing, k + 1);
      assert held + OpSet(missing[..i]) + OpSet(missing[i..j]) == held + OpSet(missing[..j]);
      assert msgs[k..][0] == msgs[k] && msgs[k..][1..] == msgs[k + 1..];
    }
  }

  /** What one node sends another in answer skips nothing for the one who asked. */
  lemma AnswerComplete(all: set<Op>, n: Node, m: Msg, held: set<Op>, t: Device)
    requires Whole(n.replica, all) && m.body.Since?
    requires t == m.from ==> forall o <- all | Seen(m.body.have, o.hlc) :: o in held
    requires forall o <- n.replica.log :: Admissible(o)
    ensures Complete(all, t, held, OnSince(n, m).1)
  {
    hide Whole, Admissible, OpsSince, Carried, Closed, Seen;
    var q := Recorded(n, m, m.body.have);
    var missing := OpsSince(q.replica.log, m.body.have);
    var msgs := ChunkMsgs(q, Some(m.from), missing);
    var out := OnSince(n, m).1;
    if t == m.from {
      DiffIsLogged(n.replica.log, m.body.have);
      assert forall o <- missing :: o in OpSet(missing);
      RecordedWhole(n, m, all);
      ChunksComplete(all, q, m.body.have, held, t, missing, 0);
      assert missing[..End(|missing|, 0)] == [] && held + OpSet([]) == held && msgs[0..] == msgs;
      assert missing != [] ==> out[1..] == msgs;
      assert missing == [] ==> out == [] + msgs == msgs;
    } else {
      NoOpsForT(all, t, held, out);
    }
  }

  lemma RecordedWhole(n: Node, m: Msg, all: set<Op>)
    requires Whole(n.replica, all) && m.body.Since?
    ensures Whole(Recorded(n, m, m.body.have).replica, all)
  {
  }

  // ---------- receiving keeps replicas whole ----------

  lemma AdmittedCarried(crypto: Crypto, keys: map<Device, Key>, wire: seq<WireOp>)
    requires Admitted(crypto, keys, wire).Some?
    ensures OpSet(Admitted(crypto, keys, wire).value) == Carried(wire)
  {
    hide ValidateOp, Authentic;
    var ops := Admitted(crypto, keys, wire).value;
    forall o <- OpSet(ops) ensures o in Carried(wire) {
      var i :| 0 <= i < |ops| && ops[i] == o;
      assert wire[i] in wire && Trusted(crypto, keys, wire[i]);
    }
    forall o <- Carried(wire) ensures o in OpSet(ops) {
      var w :| w in wire && ValidateOp(w).Valid? && ValidateOp(w).op == o;
      var i :| 0 <= i < |wire| && wire[i] == w;
      assert ops[i] == o;
    }
  }

  lemma MergeIssued(r: Replica, ops: seq<Op>, pt: int, all: set<Op>)
    requires UniqueIds(all) && r.log <= all && OpSet(ops) <= all && FrontierIssued(all, r.frontier)
    ensures FrontierIssued(all, Merge(r, ops, pt).0.frontier)
  {
    hide ReceiveBatch, FrontierIssued, UniqueIds;
    FreshUnion(r.log, ops, all);
    IssuedAfter(all, r.frontier, FreshOps(r.log, ops));
  }

  lemma MergeWhole(r: Replica, ops: seq<Op>, pt: int, all: set<Op>)
    requires UniqueIds(all) && Whole(r, all) && OpSet(ops) <= all && Closed(all, r.log, OpSet(ops))
    requires Merge(r, ops, pt).1.Applied?
    ensures Whole(Merge(r, ops, pt).0, all)
    ensures Merge(r, ops, pt).0.log == r.log + OpSet(ops)
  {
    hide Merge, FrontierIssued, Consistent;
    assert r.log + OpSet(ops) <= all;
    MergeJoins(r, ops, pt);
    MergeIssued(r, ops, pt, all);
  }

  lemma ObserveWhole(r: Replica, h: Hlc, pt: int, all: set<Op>)
    requires Whole(r, all)
    ensures Whole(ObserveClock(r, h, pt).0, all) && ObserveClock(r, h, pt).0.log == r.log
    ensures ObserveClock(r, h, pt).0.frontier == r.frontier
  {
  }

  // ---------- what is on its way ----------

  ghost predicate HelloWaits(q: seq<Msg>) {
    exists m <- q :: m.body.Hello?
  }

  /** A question to `a` is on its way. */
  ghost predicate AskWaits(q: seq<Msg>, a: Device) {
    exists m <- q :: m.body.Since? && m.to == Some(a)
  }

  ghost predicate InFlight(q: seq<Msg>, t: Device, o: Op) {
    exists m <- q :: OpsFor(m, t) && o in Carried(m.body.ops)
  }

  /** Who asks holds whatever the question says was seen. */
  ghost predicate Asked(all: set<Op>, q: seq<Msg>, log: set<Op>) {
    forall m, o | m in q && m.body.Since? && o in all && Seen(m.body.have, o.hlc) :: o in log
  }

  /** What `a` started with is about to be asked for, asked for, on its way or with `b`. */
  ghost predicate Progress(start: set<Op>, toB: seq<Msg>, toA: seq<Msg>, a: Device, b: Device, logB: set<Op>) {
    || HelloWaits(toB)
    || AskWaits(toA, a)
    || forall o <- start :: o in logB || InFlight(toB, b, o)
  }

  // ---------- one message ----------

  /** Broadcast hellos, all else addressed. */
  ghost predicate Shaped(q: seq<Msg>) {
    forall m <- q :: m.body.Hello? <==> m.to.None?
  }

  /** What a node makes of one message, as far as the session is concerned. */
  ghost predicate Effect(
    all: set<Op>, n: Node, q: Node, out: seq<Msg>, m: Msg, start: set<Op>, logs: map<Device, set<Op>>)
  {
    && Whole(q.replica, all)
    && q.replica.log == (if OpsFor(m, n.id) then n.replica.log + Carried(m.body.ops) else n.replica.log)
    && (forall t <- logs | t != n.id :: Complete(all, t, logs[t], out))
    && Shaped(out) && Asked(all, out, q.replica.log)
    && (m.body.Hello? ==> AskWaits(out, m.from))
    && (m.body.Since? && m.to == Some(n.id) && m.from in logs ==>
          forall o <- start :: o in logs[m.from] || InFlight(out, m.from, o))
  }

  /** No clock refuses the message. */
  ghost predicate Accepted(n: Node, crypto: Crypto, m: Msg, pt: int) {
    match m.body
    case Hello(clock, _) => Decode(clock).Timestamp? && ObserveClock(n.replica, Decode(clock).hlc, pt).1.Applied?
    case OpsBatch(wire) =>
      OpsFor(m, n.id) && Admitted(crypto, n.keys, wire).Some? ==>
        Merge(n.replica, Admitted(crypto, n.keys, wire).value, pt).1.Applied?
    case _ => true
  }

  lemma QuietOut(all: set<Op>, logs: map<Device, set<Op>>, out: seq<Msg>)
    requires forall m <- out :: !m.body.OpsBatch?
    ensures forall t <- logs :: Complete(all, t, logs[t], out)
  {
    forall t <- logs ensures Complete(all, t, logs[t], out) {
      NoOpsForT(all, t, logs[t], out);
    }
  }

  lemma SinceAsked(all: set<Op>, q: Node, to: Device)
    requires Whole(q.replica, all)
    ensures Asked(all, [SinceMsg(q, to)], q.replica.log)
    ensures Asked(all, [KeysMsg(q, to), SinceMsg(q, to)], q.replica.log)
    ensures Asked(all, [HelloMsg(q), KeysMsg(q, to), SinceMsg(q, to)], q.replica.log)
  {
  }

  lemma HelloEffect(all: set<Op>, n: Node, crypto: Crypto, m: Msg, pt: int, start: set<Op>, logs: map<Device, set<Op>>)
    requires Whole(n.replica, all) && m.body.Hello? && Accepted(n, crypto, m, pt)
    ensures var (q, out) := OnHello(n, crypto, m, pt); Effect(all, n, q, out, m, start, logs)
  {
    hide Whole, ObserveClock, Decode, Complete, Asked, LatestClock;
    var (q, out) := OnHello(n, crypto, m, pt);
    ObserveWhole(n.replica, Decode(m.body.clock).hlc, pt, all);
    QuietOut(all, logs, out);
    SinceAsked(all, q, m.from);
    assert SinceMsg(q, m.from) in out;
  }

  lemma ChunkIn(n: Node, to: Device, ops: seq<Op>, i: nat)
    requires i < |ops| && forall o <- ops :: Admissible(o)
    ensures InFlight(ChunkMsgs(n, Some(to), ops), to, ops[i])
  {
    hide Admissible, Carried;
    var msgs, k := ChunkMsgs(n, Some(to), ops), i / OPS_PER_MESSAGE;
    var chunk := Chunk(ops, OPS_PER_MESSAGE, k);
    assert forall o <- chunk :: o in ops;
    ChunkCarries(chunk);
    assert chunk[i - k * OPS_PER_MESSAGE] == ops[i];
    assert msgs[k] in msgs && OpsFor(msgs[k], to) && ops[i] in Carried(msgs[k].body.ops);
  }

  lemma AnswerHolds(n: Node, m: Msg, o: Op)
    requires m.body.Since? && o in n.replica.log && !Seen(m.body.have, o.hlc)
    requires forall p <- n.replica.log :: Admissible(p)
    ensures InFlight(OnSince(n, m).1, m.from, o)
  {
    hide Admissible, OpsSince, Carried, ChunkMsgs;
    var q := Recorded(n, m, m.body.have);
    var missing := OpsSince(q.replica.log, m.body.have);
    OpsSinceContents(q.replica.log, m.body.have);
    assert o in OpSet(missing);
    assert forall p <- missing :: p in OpSet(missing);
    var i :| 0 <= i < |missing| && missing[i] == o;
    ChunkIn(q, m.from, missing, i);
  }

  lemma SinceEffect(all: set<Op>, n: Node, m: Msg, start: set<Op>, logs: map<Device, set<Op>>)
    requires Whole(n.replica, all) && m.body.Since? && start <= n.replica.log <= all
    requires m.from in logs && Asked(all, [m], logs[m.from])
    requires forall o <- n.replica.log :: Admissible(o)
    ensures Effect(all, n, OnSince(n, m).0, OnSince(n, m).1, m, start, logs)
  {
    hide Whole, Admissible, Complete, OpsSince, Carried, Seen;
    var out := OnSince(n, m).1;
    assert m in [m];
    RecordedWhole(n, m, all);
    forall t <- logs ensures Complete(all, t, logs[t], out) {
      AnswerComplete(all, n, m, logs[t], t);
    }
    forall o <- start ensures o in logs[m.from] || InFlight(out, m.from, o) {
      if !Seen(m.body.have, o.hlc) { AnswerHolds(n, m, o); }
    }
  }

  lemma OpsEffect(all: set<Op>, n: Node, crypto: Crypto, m: Msg, pt: int, start: set<Op>, logs: map<Device, set<Op>>)
    requires Whole(n.replica, all) && UniqueIds(all) && OpsFor(m, n.id) && Accepted(n, crypto, m, pt)
    requires Admitted(crypto, n.keys, m.body.ops).Some?
    requires Carried(m.body.ops) <= all && Closed(all, n.replica.log, Carried(m.body.ops))
    ensures var (q, out) := OnOps(n, crypto, m, pt); Effect(all, n, q, out, m, start, logs)
  {
    hide Whole, Merge, Admitted, Closed, Complete;
    var (q, out) := OnOps(n, crypto, m, pt);
    QuietOut(all, logs, out);
    AdmittedCarried(crypto, n.keys, m.body.ops);
    if m.body.ops == [] {
      assert Carried(m.body.ops) == {};
    } else {
      MergeWhole(n.replica, Admitted(crypto, n.keys, m.body.ops).value, pt, all);
    }
  }

  /** What the head of a queue from a peer does to a node. */
  lemma ReceivedEffect(
    all: set<Op>, n: Node, crypto: Crypto, m: Msg, pt: int, start: set<Op>, logs: map<Device, set<Op>>)
    requires Whole(n.replica, all) && UniqueIds(all) && start <= n.replica.log
    requires m.from in logs && Asked(all, [m], logs[m.from]) && forall o <- n.replica.log :: Admissible(o)
    requires n.started && m.space == n.space && m.version == WIRE_VERSION && m.from != n.id
    requires m.body.Hello? ==> m.to.None?
    requires m.body.OpsBatch? ==> m.to.Some?
    requires Accepted(n, crypto, m, pt)
    requires OpsFor(m, n.id) ==>
               && Admitted(crypto, n.keys, m.body.ops).Some?
               && Carried(m.body.ops) <= all && Closed(all, n.replica.log, Carried(m.body.ops))
    ensures var (q, out) := Received(n, crypto, m, pt); Effect(all, n, q, out, m, start, logs)
  {
    hide OnHello, OnSince, OnOps, Admissible, Accepted, Carried, Closed, Complete, Genuine, Admitted;
    QuietOut(all, logs, []);
    if !Ignored(n, m) {
      match m.body
      case Hello(_, _) => HelloEffect(all, n, crypto, m, pt, start, logs);
      case Since(_) => SinceEffect(all, n, m, start, logs);
      case OpsBatch(_) => OpsEffect(all, n, crypto, m, pt, start, logs);
      case Keys(_) =>
      case Ack(_) =>
    }
  }

  // ---------- one link ----------

  function LogsOf(net: Net): map<Device, set<Op>> {
    map d | d in net.nodes :: net.nodes[d].replica.log
  }

  ghost predicate PairOk(
    all: set<Op>, a: Device, b: Device, toB: seq<Msg>, toA: seq<Msg>, logA: set<Op>, logB: set<Op>,
    start: set<Op>, greeted: bool)
  {
    && Shaped(toB)
    && Complete(all, b, logB, toB)
    && Asked(all, toB, logA)
    && (greeted ==> Progress(start, toB, toA, a, b, logB))
  }

  lemma ProgressGrows(
    start: set<Op>, toB: seq<Msg>, toA: seq<Msg>, a: Device, b: Device, logB: set<Op>,
    moreB: seq<Msg>, moreA: seq<Msg>, after: set<Op>)
    requires Progress(start, toB, toA, a, b, logB) && logB <= after
    ensures Progress(start, toB + moreB, toA + moreA, a, b, after)
  {
    hide Carried;
    if HelloWaits(toB) {
      var m :| m in toB && m.body.Hello?;
      assert m in toB + moreB;
    } else if AskWaits(toA, a) {
      var m :| m in toA && m.body.Since? && m.to == Some(a);
      assert m in toA + moreA;
    } else {
      forall o <- start ensures o in after || InFlight(toB + moreB, b, o) {
        if o !in logB {
          var m :| m in toB && OpsFor(m, b) && o in Carried(m.body.ops);
          assert m in toB + moreB;
        }
      }
    }
  }

  /** A link neither end of which is concerned, but for what the sender adds and the receiver gained. */
  lemma OtherPair(
    all: set<Op>, a: Device, b: Device, toB: seq<Msg>, toA: seq<Msg>, logA: set<Op>, logB: set<Op>,
    start: set<Op>, greeted: bool, moreB: seq<Msg>, moreA: seq<Msg>, afterA: set<Op>, afterB: set<Op>)
    requires PairOk(all, a, b, toB, toA, logA, logB, start, greeted)
    requires logA <= afterA && logB <= afterB
    requires Shaped(moreB) && Complete(all, b, afterB, moreB) && Asked(all, moreB, afterA)
    ensures PairOk(all, a, b, toB + moreB, toA + moreA, afterA, afterB, start, greeted)
  {
    hide Progress, Complete, Seen;
    CompleteMore(all, b, logB, afterB, toB);
    CompleteAppend(all, b, afterB, toB, moreB);
    if greeted { ProgressGrows(start, toB, toA, a, b, logB, moreB, moreA, afterB); }
  }

  lemma HeadTail(toB: seq<Msg>)
    requires toB != []
    ensures forall m <- toB :: m == toB[0] || m in toB[1..]
    ensures forall m <- toB[1..] :: m in toB
  {
    assert toB == [toB[0]] + toB[1..];
  }

  /** The link whose head was delivered. */
  lemma ReadPair(
    all: set<Op>, a: Device, b: Device, toB: seq<Msg>, toA: seq<Msg>, logA: set<Op>, logB: set<Op>,
    start: set<Op>, greeted: bool, n: Node, q: Node, out: seq<Msg>, startB: set<Op>, logs: map<Device, set<Op>>)
    requires PairOk(all, a, b, toB, toA, logA, logB, start, greeted) && toB != []
    requires n.id == b && n.replica.log == logB && toB[0].from == a
    requires Effect(all, n, q, out, toB[0], startB, logs)
    ensures PairOk(all, a, b, toB[1..], toA + out, logA, q.replica.log, start, greeted)
  {
    hide Whole, Seen, Carried, Closed;
    HeadTail(toB);
    assert Complete(all, b, q.replica.log, toB[1..]);
    if greeted {
      if HelloWaits(toB) {
        if toB[0].body.Hello? {
          AskAppended(toA, out, a);
        } else {
          var m :| m in toB && m.body.Hello?;
          assert m in toB[1..];
        }
      } else if AskWaits(toA, a) {
        var m :| m in toA && m.body.Since? && m.to == Some(a);
        assert m in toA + out;
      } else {
        forall o <- start ensures o in q.replica.log || InFlight(toB[1..], b, o) {
          if o !in logB {
            var m :| m in toB && OpsFor(m, b) && o in Carried(m.body.ops);
            assert m == toB[0] || m in toB[1..];
          }
        }
      }
    }
  }

  lemma AskAppended(toA: seq<Msg>, out: seq<Msg>, a: Device)
    requires AskWaits(out, a)
    ensures AskWaits(toA + out, a)
  {
    var m :| m in out && m.body.Since? && m.to == Some(a);
    assert m in toA + out;
  }

  /** The link back, on which the answer goes out. */
  lemma AnsweredPair(
    all: set<Op>, a: Device, b: Device, toB: seq<Msg>, toA: seq<Msg>, logB: set<Op>,
    start: set<Op>, greeted: bool, n: Node, q: Node, out: seq<Msg>, logs: map<Device, set<Op>>)
    requires PairOk(all, a, b, toB, toA, n.replica.log, logB, start, greeted) && toA != []
    requires n.id == a && a != b && toA[0].from == b && b in logs && logs[b] == logB
    requires Effect(all, n, q, out, toA[0], start, logs)
    ensures PairOk(all, a, b, toB + out, toA[1..], q.replica.log, logB, start, greeted)
  {
    hide Whole, Seen, Carried, Complete;
    HeadTail(toA);
    CompleteAppend(all, b, logB, toB, out);
    assert Asked(all, toB + out, q.replica.log);
    if greeted {
      if AskWaits(toA, a) && !HelloWaits(toB) && toA[0].body.Since? && toA[0].to == Some(a) {
        forall o <- start ensures o in logB || InFlight(toB + out, b, o) {
          if o !in logB { FlightAppended(toB, out, b, o); }
        }
      } else if HelloWaits(toB) {
        var m :| m in toB && m.body.Hello?;
        assert m in toB + out;
      } else if AskWaits(toA, a) {
        var m :| m in toA && m.body.Since? && m.to == Some(a);
        assert m in toA[1..];
      } else {
        forall o <- start ensures o in logB || InFlight(toB + out, b, o) {
          if o !in logB {
            var m :| m in toB && OpsFor(m, b) && o in Carried(m.body.ops);
            assert m in toB + out;
          }
        }
      }
    }
  }

  lemma FlightAppended(toB: seq<Msg>, out: seq<Msg>, b: Device, o: Op)
    requires InFlight(out, b, o)
    ensures InFlight(toB + out, b, o)
  {
    var m :| m in out && OpsFor(m, b) && o in Carried(m.body.ops);
    assert m in toB + out;
  }

  // ---------- the session ----------

  /** The clocks let every message of the step through, and nobody hears itself. */
  ghost predicate Smooth(net: Net, crypto: Crypto, step: Step)
    requires Enabled(net, step)
  {
    match step
    case Deliver(a, b, pt) => a != b && a in net.nodes && Accepted(net.nodes[b], crypto, Queue(net, a, b)[0], pt)
    case SayHello(_) => true
    case _ => false
  }

  ghost predicate LinkIs(
    net: Net, all: set<Op>, start: map<Device, set<Op>>, greeted: set<Device>, a: Device, b: Device)
    requires a in net.nodes && b in net.nodes && a in start
  {
    PairOk(all, a, b, Queue(net, a, b), Queue(net, b, a), net.nodes[a].replica.log, net.nodes[b].replica.log,
           start[a], a in greeted)
  }

  ghost predicate HoldsStart(net: Net, all: set<Op>, start: map<Device, set<Op>>, d: Device)
    requires d in net.nodes && d in start
  {
    Whole(net.nodes[d].replica, all) && start[d] <= net.nodes[d].replica.log
  }

  ghost predicate Meeting(net: Net, all: set<Op>, start: map<Device, set<Op>>, greeted: set<Device>) {
    && UniqueIds(all) && start.Keys == net.nodes.Keys
    && (forall d <- net.nodes :: HoldsStart(net, all, start, d))
    && forall a, b | a in net.nodes && b in net.nodes && a != b :: LinkIs(net, all, start, greeted, a, b)
  }

  lemma HeadIsReady(net: Net, crypto: Crypto, known: set<Key>, space: Text, all: set<Op>, start: map<Device, set<Op>>,
                    greeted: set<Device>, x: Device, y: Device)
    requires Meeting(net, all, start, greeted) && Inv(net, crypto, known, space) && CollisionFree(crypto, known)
    requires x in net.nodes && y in net.nodes && x != y && Queue(net, x, y) != []
    ensures var n, m := net.nodes[y], Queue(net, x, y)[0];
      && n.id == y && n.started && m.space == n.space && m.version == WIRE_VERSION && m.from == x
      && (m.body.Hello? <==> m.to.None?)
      && (forall o <- n.replica.log :: Admissible(o))
      && Asked(all, [m], LogsOf(net)[x])
      && (OpsFor(m, y) ==>
            && Admitted(crypto, n.keys, m.body.ops).Some?
            && Carried(m.body.ops) <= all && Closed(all, n.replica.log, Carried(m.body.ops)))
  {
    hide Whole, Progress, Admissible, Authentic, Admitted, Carried, Closed, KeyPair, Answers, CollisionFree, Seen;
    var queue := Queue(net, x, y);
    assert LinkIs(net, all, start, greeted, x, y);
    assert LinkOk(net, crypto, known, space, x, y) && SaneAt(net, crypto, known, space, y);
    assert queue[0] in queue;
    if OpsFor(queue[0], y) {
      AnswerIsAdmitted(crypto, known, net.nodes[y].keys, queue[0].body.ops);
    }
  }

  function After(net: Net, x: Device, y: Device, q: Node, out: seq<Msg>): Net
    requires Queue(net, x, y) != []
  {
    Update(Popped(net, x, y), y, (q, out))
  }

  lemma QueueAfter(net: Net, x: Device, y: Device, q: Node, out: seq<Msg>, a: Device, b: Device)
    requires Queue(net, x, y) != [] && b in net.nodes && a != b && x != y
    ensures Queue(After(net, x, y, q, out), a, b) ==
              if a == x && b == y then Queue(net, a, b)[1..]
              else if a == y then Queue(net, a, b) + out
              else Queue(net, a, b)
  {
    QueuePopped(net, x, y, a, b);
    QueueUpdated(Popped(net, x, y), y, (q, out), a, b);
  }

  lemma UnreadPair(net: Net, all: set<Op>, start: map<Device, set<Op>>, greeted: set<Device>,
                   x: Device, y: Device, q: Node, out: seq<Msg>, a: Device, b: Device)
    requires x in net.nodes && y in net.nodes && x != y && Queue(net, x, y) != [] && start.Keys == net.nodes.Keys
    requires a in net.nodes && b in net.nodes && a != b && LinkIs(net, all, start, greeted, a, b)
    requires (a, b) != (x, y) && (a, b) != (y, x)
    requires net.nodes[y].id == y && Effect(all, net.nodes[y], q, out, Queue(net, x, y)[0], start[y], LogsOf(net))
    ensures LinkIs(After(net, x, y, q, out), all, start, greeted, a, b)
  {
    hide Whole, PairOk, Carried, Queue, Popped, Update, Seen;
    var moreB, moreA := if a == y then out else [], if b == y then out else [];
    QueueAfter(net, x, y, q, out, a, b);
    QueueAfter(net, x, y, q, out, b, a);
    var logA := if a == y then q.replica.log else net.nodes[a].replica.log;
    var logB := if b == y then q.replica.log else net.nodes[b].replica.log;
    NoOpsForT(all, b, logB, []);
    assert b in LogsOf(net) && (a == y ==> LogsOf(net)[b] == logB);
    assert Asked(all, moreB, logA);
    assert Queue(net, a, b) + [] == Queue(net, a, b) && Queue(net, b, a) + [] == Queue(net, b, a);
    OtherPair(all, a, b, Queue(net, a, b), Queue(net, b, a), net.nodes[a].replica.log, net.nodes[b].replica.log,
              start[a], a in greeted, moreB, moreA, logA, logB);
    AfterNodes(net, x, y, q, out);
  }

  lemma AfterNodes(net: Net, x: Device, y: Device, q: Node, out: seq<Msg>)
    requires Queue(net, x, y) != []
    ensures After(net, x, y, q, out).nodes == net.nodes[y := q]
  {
  }

  lemma PairAfter(net: Net, all: set<Op>, start: map<Device, set<Op>>, greeted: set<Device>,
                  x: Device, y: Device, q: Node, out: seq<Msg>, a: Device, b: Device)
    requires x in net.nodes && y in net.nodes && x != y && Queue(net, x, y) != [] && start.Keys == net.nodes.Keys
    requires a in net.nodes && b in net.nodes && a != b && LinkIs(net, all, start, greeted, a, b)
    requires net.nodes[y].id == y && Queue(net, x, y)[0].from == x
    requires Effect(all, net.nodes[y], q, out, Queue(net, x, y)[0], start[y], LogsOf(net))
    ensures LinkIs(After(net, x, y, q, out), all, start, greeted, a, b)
  {
    hide PairOk, Effect, Queue, Popped, Update, Carried;
    var n := net.nodes[y];
    AfterNodes(net, x, y, q, out);
    QueueAfter(net, x, y, q, out, a, b);
    QueueAfter(net, x, y, q, out, b, a);
    if a == x && b == y {
      ReadPair(all, x, y, Queue(net, x, y), Queue(net, y, x), net.nodes[x].replica.log, n.replica.log,
               start[x], x in greeted, n, q, out, start[y], LogsOf(net));
    } else if a == y && b == x {
      AnsweredPair(all, y, x, Queue(net, y, x), Queue(net, x, y), net.nodes[x].replica.log,
                   start[y], y in greeted, n, q, out, LogsOf(net));
    } else {
      UnreadPair(net, all, start, greeted, x, y, q, out, a, b);
    }
  }

  lemma EffectGrows(all: set<Op>, n: Node, q: Node, out: seq<Msg>, m: Msg, start: set<Op>, logs: map<Device, set<Op>>)
    requires Effect(all, n, q, out, m, start, logs)
    ensures Whole(q.replica, all) && n.replica.log <= q.replica.log
  {
  }

  lemma DeliverKeepsMeeting(
    net: Net, crypto: Crypto, known: set<Key>, space: Text, all: set<Op>, start: map<Device, set<Op>>,
    greeted: set<Device>, x: Device, y: Device, pt: int)
    requires Meeting(net, all, start, greeted) && Inv(net, crypto, known, space) && CollisionFree(crypto, known)
    requires Enabled(net, Deliver(x, y, pt)) && Smooth(net, crypto, Deliver(x, y, pt))
    ensures Meeting(Next(net, crypto, Deliver(x, y, pt)), all, start, greeted)
  {
    hide Received, Inv, CollisionFree, Whole, PairOk, Accepted, Admissible, Admitted, Closed, Carried, Update;
    hide Effect, Asked, Popped;
    var n, m := net.nodes[y], Queue(net, x, y)[0];
    var (q, out) := Received(n, crypto, m, pt);
    var logs := LogsOf(net);
    assert HoldsStart(net, all, start, y);
    HeadIsReady(net, crypto, known, space, all, start, greeted, x, y);
    ReceivedEffect(all, n, crypto, m, pt, start[y], logs);
    EffectGrows(all, n, q, out, m, start[y], logs);
    AfterNodes(net, x, y, q, out);
    var v := After(net, x, y, q, out);
    forall d <- v.nodes ensures HoldsStart(v, all, start, d) {
      assert HoldsStart(net, all, start, d);
    }
    forall a, b | a in v.nodes && b in v.nodes && a != b ensures LinkIs(v, all, start, greeted, a, b) {
      assert LinkIs(net, all, start, greeted, a, b);
      PairAfter(net, all, start, greeted, x, y, q, out, a, b);
    }
  }

  lemma HelloPair(
    all: set<Op>, a: Device, b: Device, toB: seq<Msg>, toA: seq<Msg>, logA: set<Op>, logB: set<Op>,
    start: set<Op>, greeted: bool, hello: Msg)
    requires PairOk(all, a, b, toB, toA, logA, logB, start, greeted) && hello.body.Hello? && hello.to.None?
    ensures PairOk(all, a, b, toB + [hello], toA, logA, logB, start, true)
  {
    hide Seen;
    NoOpsForT(all, b, logB, [hello]);
    CompleteAppend(all, b, logB, toB, [hello]);
    assert hello in toB + [hello];
  }

  lemma GreetKeepsMeeting(net: Net, crypto: Crypto, all: set<Op>, start: map<Device, set<Op>>,
                          greeted: set<Device>, d: Device)
    requires Meeting(net, all, start, greeted) && d in net.nodes
    ensures Meeting(Next(net, crypto, SayHello(d)), all, start, greeted + {d})
  {
    hide PairOk, Whole, LatestClock;
    var hello := HelloMsg(net.nodes[d]);
    var v := Next(net, crypto, SayHello(d));
    assert v.nodes == net.nodes;
    forall e <- v.nodes ensures HoldsStart(v, all, start, e) {
      assert HoldsStart(net, all, start, e);
    }
    forall a, b | a in v.nodes && b in v.nodes && a != b ensures LinkIs(v, all, start, greeted + {d}, a, b) {
      assert LinkIs(net, all, start, greeted, a, b);
      QueueUpdated(net, d, (net.nodes[d], [hello]), a, b);
      QueueUpdated(net, d, (net.nodes[d], [hello]), b, a);
      var toB, toA := Queue(net, a, b), Queue(net, b, a);
      var logA, logB := net.nodes[a].replica.log, net.nodes[b].replica.log;
      if a == d {
        HelloPair(all, a, b, toB, toA, logA, logB, start[a], a in greeted, hello);
      } else {
        BackPair(all, a, b, toB, toA, logA, logB, start[a], a in greeted, if b == d then [hello] else []);
        assert toA + [] == toA;
      }
    }
  }

  lemma BackPair(
    all: set<Op>, a: Device, b: Device, toB: seq<Msg>, toA: seq<Msg>, logA: set<Op>, logB: set<Op>,
    start: set<Op>, greeted: bool, moreA: seq<Msg>)
    requires PairOk(all, a, b, toB, toA, logA, logB, start, greeted)
    ensures PairOk(all, a, b, toB, toA + moreA, logA, logB, start, greeted)
  {
    assert toB + [] == toB;
    NoOpsForT(all, b, logB, []);
    OtherPair(all, a, b, toB, toA, logA, logB, start, greeted, [], moreA, logA, logB);
  }

  /** Who has said hello. */
  function Greeters(steps: seq<Step>): set<Device> {
    set i | 0 <= i < |steps| && steps[i].SayHello? :: steps[i].device
  }

  ghost predicate Union(start: map<Device, set<Op>>, all: set<Op>) {
    (forall d <- start :: start[d] <= all) && forall o <- all :: exists d <- start :: o in start[d]
  }

  /** A session: every replica holds what it has seen, all of them together hold `all`; then messages. */
  ghost predicate IsSession(
    nets: seq<Net>, crypto: Crypto, known: set<Key>, space: Text, steps: seq<Step>, all: set<Op>)
  {
    && IsRun(nets, crypto, known, space, steps) && CollisionFree(crypto, known)
    && (forall i {:trigger steps[i]} | 0 <= i < |steps| :: Smooth(nets[i], crypto, steps[i]))
    && UniqueIds(all) && (forall d <- nets[0].nodes :: Whole(nets[0].nodes[d].replica, all))
    && Union(LogsOf(nets[0]), all)
  }

  lemma GreetersNext(steps: seq<Step>, i: nat)
    requires i < |steps|
    ensures Greeters(steps[..i + 1]) == Greeters(steps[..i]) + if steps[i].SayHello? then {steps[i].device} else {}
  {
    assert steps[..i + 1] == steps[..i] + [steps[i]];
    forall d | d in Greeters(steps[..i]) ensures d in Greeters(steps[..i + 1]) {
      var k :| 0 <= k < i && steps[..i][k].SayHello? && steps[..i][k].device == d;
      assert steps[..i + 1][k] == steps[..i][k];
    }
    assert steps[..i + 1][i] == steps[i];
  }

  lemma SessionStarts(net: Net, crypto: Crypto, known: set<Key>, space: Text, all: set<Op>)
    requires Initial(net, crypto, known, space) && UniqueIds(all)
    requires forall d <- net.nodes :: Whole(net.nodes[d].replica, all)
    ensures Meeting(net, all, LogsOf(net), {})
  {
    hide Whole, Sane;
    forall d <- net.nodes ensures HoldsStart(net, all, LogsOf(net), d) {}
    forall a, b | a in net.nodes && b in net.nodes && a != b ensures LinkIs(net, all, LogsOf(net), {}, a, b) {
      NoOpsForT(all, b, net.nodes[b].replica.log, []);
    }
  }

  lemma {:induction false} SessionKeeps(
    nets: seq<Net>, crypto: Crypto, known: set<Key>, space: Text, steps: seq<Step>, all: set<Op>, i: nat)
    requires IsSession(nets, crypto, known, space, steps, all) && i < |nets|
    ensures Meeting(nets[i], all, LogsOf(nets[0]), Greeters(steps[..i]))
  {
    hide Meeting, Whole, Inv, CollisionFree, Next, Initial, Union, LogsOf, Greeters, Grounded, UniqueIds;
    if i == 0 {
      SessionStarts(nets[0], crypto, known, space, all);
      NobodyGreeted(steps);
    } else {
      var start, step := LogsOf(nets[0]), steps[i - 1];
      SessionKeeps(nets, crypto, known, space, steps, all, i - 1);
      RunInv(nets, crypto, known, space, steps, i - 1);
      GreetersNext(steps, i - 1);
      var greeted := Greeters(steps[..i - 1]);
      match step
      case Deliver(x, y, pt) =>
        DeliverKeepsMeeting(nets[i - 1], crypto, known, space, all, start, greeted, x, y, pt);
        assert greeted + {} == greeted;
      case SayHello(d) =>
        GreetKeepsMeeting(nets[i - 1], crypto, all, start, greeted, d);
    }
  }

  lemma NobodyGreeted(steps: seq<Step>)
    ensures Greeters(steps[..0]) == {}
  {
  }

  lemma SilentPair(net: Net, all: set<Op>, start: map<Device, set<Op>>, greeted: set<Device>, a: Device, b: Device)
    requires Meeting(net, all, start, greeted) && a in net.nodes && b in net.nodes && a in greeted
    requires a != b ==> Queue(net, a, b) == [] && Queue(net, b, a) == []
    ensures start[a] <= net.nodes[b].replica.log
  {
    hide Whole, Complete, Asked, Carried;
    assert HoldsStart(net, all, start, a);
    if a != b { assert LinkIs(net, all, start, greeted, a, b); }
  }

  lemma WholeDetermined(r: Replica, q: Replica, all: set<Op>)
    requires Whole(r, all) && Whole(q, all) && r.log == all == q.log
    ensures r.cells == q.cells && r.frontier == q.frontier
  {
    CellsDetermined(all, r.cells, q.cells);
    forall h ensures Seen(r.frontier, h) <==> Seen(q.frontier, h) {
      SeenIsReached(r, all, h);
      SeenIsReached(q, all, h);
    }
    FrontierDetermined(r.frontier, q.frontier);
  }

  lemma SeenIsReached(r: Replica, all: set<Op>, h: Hlc)
    requires Whole(r, all) && r.log == all
    ensures Seen(r.frontier, h) <==> Reaches(all, h)
  {
    if Seen(r.frontier, h) {
      assert HasEntry(r.frontier, h.device);
      var o :| o in all && o.hlc == r.frontier[h.device];
    }
    if Reaches(all, h) {
      var o :| o in all && o.hlc.device == h.device && Leq(h, o.hlc);
      assert Seen(r.frontier, o.hlc);
    }
  }

  /** Once everyone has said hello and the links are empty, every replica holds everything, and all are equal. */
  lemma SilentSessionsAgree(
    nets: seq<Net>, crypto: Crypto, known: set<Key>, space: Text, steps: seq<Step>, all: set<Op>)
    requires IsSession(nets, crypto, known, space, steps, all)
    requires forall d <- nets[|steps|].nodes :: d in Greeters(steps)
    requires forall a, b | a in nets[|steps|].nodes && b in nets[|steps|].nodes && a != b ::
               Queue(nets[|steps|], a, b) == []
    ensures forall d <- nets[|steps|].nodes :: nets[|steps|].nodes[d].replica.log == all
    ensures forall a, b | a in nets[|steps|].nodes && b in nets[|steps|].nodes ::
              var r, q := nets[|steps|].nodes[a].replica, nets[|steps|].nodes[b].replica;
              r.cells == q.cells && r.frontier == q.frontier
  {
    hide Whole, Initial, Next, Enabled, Smooth, LinkIs, Greeters, CollisionFree, Queue;
    var last, start := nets[|steps|], LogsOf(nets[0]);
    SessionKeeps(nets, crypto, known, space, steps, all, |steps|);
    assert steps[..|steps|] == steps;
    forall d <- last.nodes ensures last.nodes[d].replica.log == all && Whole(last.nodes[d].replica, all) {
      assert HoldsStart(last, all, start, d);
      WholeWithin(last.nodes[d].replica, all);
      forall o <- all ensures o in last.nodes[d].replica.log {
        var a :| a in start && o in start[a];
        SilentPair(last, all, start, Greeters(steps), a, d);
      }
    }
    forall a, b | a in last.nodes && b in last.nodes
      ensures last.nodes[a].replica.cells == last.nodes[b].replica.cells
           && last.nodes[a].replica.frontier == last.nodes[b].replica.frontier
    {
      WholeDetermined(last.nodes[a].replica, last.nodes[b].replica, all);
    }
  }

  lemma WholeWithin(r: Replica, all: set<Op>)
    requires Whole(r, all)
    ensures r.log <= all
  {
  }
}
