/** The live tail: what a started replica writes goes out to everyone, whole and in order, and whoever holds the
    writer's key has it once the link is read. */
module LiveTail {
  import opened Texts
  import opened Hlcs
  import opened Ops
  import opened Replicas
  import Compaction
  import opened Histories
  import opened OpOrder
  import opened Catchup
  import opened Storage
  import opened Engine
  import opened Sessions
  import opened Replication
  import opened Links
  import Acks
  import Reunion
  import Records

  // ---------- what is sent ----------

  /** All the operations of a series of batches. */
  function Spelled(msgs: seq<Msg>): seq<WireOp> {
    if msgs == [] then []
    else Spelled(msgs[..|msgs| - 1]) + if msgs[|msgs| - 1].body.OpsBatch? then msgs[|msgs| - 1].body.ops else []
  }

  lemma SpelledNext(msgs: seq<Msg>, k: nat)
    requires k < |msgs| && msgs[k].body.OpsBatch?
    ensures Spelled(msgs[..k + 1]) == Spelled(msgs[..k]) + msgs[k].body.ops
  {
    assert msgs[..k + 1][..k] == msgs[..k] && msgs[..k + 1][k] == msgs[k];
  }

  lemma WireNext(ops: seq<Op>, i: nat, j: nat)
    requires i <= j <= |ops|
    ensures WireOf(ops[..i]) + WireOf(ops[i..j]) == WireOf(ops[..j])
  {
  }

  lemma ChunkMsgAt(n: Node, to: Option<Device>, ops: seq<Op>, k: nat)
    requires k < ChunkCount(|ops|, OPS_PER_MESSAGE)
    ensures ChunkMsgs(n, to, ops)[k]
         == Envelope(n, to, OpsBatch(WireOf(ops[Reunion.End(|ops|, k)..Reunion.End(|ops|, k + 1)])))
  {
    Reunion.ChunkIsSlice(ops, k);
  }

  lemma {:induction false} ChunksSpellUpTo(n: Node, to: Option<Device>, ops: seq<Op>, k: nat)
    requires k <= ChunkCount(|ops|, OPS_PER_MESSAGE)
    ensures Spelled(ChunkMsgs(n, to, ops)[..k]) == WireOf(ops[..Reunion.End(|ops|, k)])
  {
    hide WireOf;
    if k > 0 {
      ChunksSpellUpTo(n, to, ops, k - 1);
      hide Spelled;
      ChunkMsgAt(n, to, ops, k - 1);
      SpelledNext(ChunkMsgs(n, to, ops), k - 1);
      WireNext(ops, Reunion.End(|ops|, k - 1), Reunion.End(|ops|, k));
    } else {
      WireNone(ops);
    }
  }

  lemma WireNone(ops: seq<Op>)
    ensures WireOf(ops[..0]) == []
  {
  }

  /** Operations go out as batches of at least one and at most 500, to whom they are meant for, none left out, none
      twice, in order. */
  lemma ChunksSpellAll(n: Node, to: Option<Device>, ops: seq<Op>)
    ensures Spelled(ChunkMsgs(n, to, ops)) == WireOf(ops)
    ensures forall m <- ChunkMsgs(n, to, ops) ::
              && m.body.OpsBatch? && 1 <= |m.body.ops| <= 500
              && m.to == to && m.from == n.id && m.space == n.space && m.version == 2
  {
    var msgs := ChunkMsgs(n, to, ops);
    ChunksSpellUpTo(n, to, ops, |msgs|);
    assert msgs[..|msgs|] == msgs;
    AllChunked(|ops|);
    assert ops[..|ops|] == ops;
    forall m <- msgs
      ensures m.body.OpsBatch? && 1 <= |m.body.ops| <= 500
    {
      var k :| 0 <= k < |msgs| && msgs[k] == m;
      ChunkStart(|ops|, OPS_PER_MESSAGE, k);
    }
  }

  lemma AllChunked(n: nat)
    ensures Reunion.End(n, ChunkCount(n, OPS_PER_MESSAGE)) == n
  {
  }

  /** What `d` issues when it writes. */
  function IssuedBy(n: Node, crypto: Crypto, drafts: seq<Draft>): seq<Op> {
    Issued(n.replica, n.id, drafts, AuthorOf(crypto, n.cipher, n.deviceKey.privateKey))
  }

  lemma WrittenIsSent(n: Node, crypto: Crypto, drafts: seq<Draft>)
    requires n.started
    ensures Written(n, crypto, drafts).1 == ChunkMsgs(n, None, IssuedBy(n, crypto, drafts))
  {
    hide MakeLocalOps, Replicas.Commit;
    assert ChunkMsgs(n, None, []) == [];
  }

  /** After a write of a started node every outgoing link ends in batches that spell out what was issued. */
  lemma WriteGoesOut(net: Net, crypto: Crypto, d: Device, drafts: seq<Draft>, b: Device)
    requires d in net.nodes && b in net.nodes && net.nodes[d].started
    ensures var tail := ChunkMsgs(net.nodes[d], None, IssuedBy(net.nodes[d], crypto, drafts));
      && Queue(Next(net, crypto, LocalWrite(d, drafts)), d, b) == Queue(net, d, b) + tail
      && Spelled(tail) == WireOf(IssuedBy(net.nodes[d], crypto, drafts))
      && forall m <- tail :: m.to == None
  {
    hide Written, ChunkMsgs, Spelled, IssuedBy, WireOf;
    var n := net.nodes[d];
    WrittenIsSent(n, crypto, drafts);
    ChunksSpellAll(n, None, IssuedBy(n, crypto, drafts));
    QueueUpdated(net, d, Written(n, crypto, drafts), d, b);
  }

  /** Each operation is in one of the batches. */
  lemma IssuedIsInBatch(n: Node, ops: seq<Op>, o: Op)
    returns (batch: seq<Op>)
    requires o in ops
    ensures o in batch && batch != [] && |batch| <= 500 && (forall p <- batch :: p in ops)
    ensures Envelope(n, None, OpsBatch(WireOf(batch))) in ChunkMsgs(n, None, ops)
  {
    var i :| 0 <= i < |ops| && ops[i] == o;
    var k := i / OPS_PER_MESSAGE;
    batch := Chunk(ops, OPS_PER_MESSAGE, k);
    assert batch[i - k * OPS_PER_MESSAGE] == o;
    assert ChunkMsgs(n, None, ops)[k] in ChunkMsgs(n, None, ops);
  }

  // ---------- what arrives ----------

  /** A batch to everyone, of operations that `d` signed. */
  ghost predicate IsTail(crypto: Crypto, known: set<Key>, space: Text, d: Device, ops: seq<Op>, m: Msg) {
    && m == Msg(WIRE_VERSION, space, d, None, OpsBatch(WireOf(ops))) && ops != [] && |ops| <= MAX_BATCH_OPS
    && forall o <- ops :: Sessions.Honest(crypto, known, o) && o.hlc.device == d
  }

  /** Who holds the writer's key takes the batch, if the clock does not refuse it. */
  lemma TailTaken(n: Node, b: Device, space: Text, crypto: Crypto, known: set<Key>, d: Device, ops: seq<Op>, m: Msg,
                  pt: int, all: set<Op>)
    requires Sane(n, b, space, crypto, known) && CollisionFree(crypto, known) && b != d && d in n.keys
    requires IsTail(crypto, known, space, d, ops, m) && Merge(n.replica, ops, pt).1.Applied?
    requires UniqueIds(all) && n.replica.log <= all && OpSet(ops) <= all
    ensures OpSet(ops) <= Received(n, crypto, m, pt).0.replica.log
  {
    hide Admissible, OwnerSigned, Verifiable, KeyPair, ReceiveBatch, FrontierAfter, CellsAfter, WireOf, Admitted;
    hide CollisionFree, Directory, Drawn;
    AdmittedExactly(crypto, known, n.keys, ops);
    WireSize(ops);
    FreshUnion(n.replica.log, ops, all);
  }

  lemma WireSize(ops: seq<Op>)
    ensures |WireOf(ops)| == |ops|
  {
  }

  /** Logs only shrink by compaction. */
  lemma ReceivedGrows(n: Node, crypto: Crypto, m: Msg, pt: int)
    ensures n.replica.log <= Received(n, crypto, m, pt).0.replica.log
  {
    hide Decode, OpsSince, ChunkMsgs, Admitted, FreshOps, Genuine, LatestClock, CellsAfter, FrontierAfter;
    hide ReceiveBatch;
  }

  lemma StepGrows(net: Net, crypto: Crypto, step: Step, b: Device)
    requires Enabled(net, step) && b in net.nodes && !(step.CompactLog? && step.device == b)
    ensures b in Next(net, crypto, step).nodes
    ensures net.nodes[b].replica.log <= Next(net, crypto, step).nodes[b].replica.log
  {
    hide Received, MakeLocalOps, ChunkMsgs, Compaction.Compact, LatestClock, FrontierAfter, CellsAfter;
    match step
    case Deliver(x, y, pt) => ReceivedGrows(net.nodes[y], crypto, Queue(net, x, y)[0], pt);
    case _ =>
  }

  /** No key is forgotten. */
  lemma StepKeepsKeys(net: Net, crypto: Crypto, step: Step, b: Device, d: Device)
    requires Enabled(net, step) && b in net.nodes && d in net.nodes[b].keys
    ensures b in Next(net, crypto, step).nodes && d in Next(net, crypto, step).nodes[b].keys
  {
    hide Received, MakeLocalOps, ChunkMsgs, Compaction.Compact, LatestClock, Replicas.Commit;
    match step
    case Deliver(x, y, pt) => if y == b { ReceivedKeepsKeys(net.nodes[y], crypto, Queue(net, x, y)[0], pt, d); }
    case _ =>
  }

  lemma ReceivedKeepsKeys(n: Node, crypto: Crypto, m: Msg, pt: int, d: Device)
    requires d in n.keys
    ensures d in Received(n, crypto, m, pt).0.keys
  {
    hide Decode, ObserveClock, OpsSince, ChunkMsgs, RemoteApplied, LatestClock;
  }

  /** On the way, or there. */
  ghost predicate Arriving(net: Net, d: Device, b: Device, m: Msg, ops: seq<Op>)
    requires b in net.nodes
  {
    d in net.nodes[b].keys && (m in Queue(net, d, b) || OpSet(ops) <= net.nodes[b].replica.log)
  }

  /** The clock of `b` does not refuse the batch when it is read. */
  ghost predicate ClockTakes(net: Net, step: Step, d: Device, b: Device, m: Msg, ops: seq<Op>)
    requires Enabled(net, step)
  {
    step.Deliver? && step.from == d && step.to == b && Queue(net, d, b)[0] == m ==>
      Merge(net.nodes[b].replica, ops, step.pt).1.Applied?
  }

  lemma StaysQueued(net: Net, crypto: Crypto, step: Step, d: Device, b: Device, m: Msg)
    requires Enabled(net, step) && d in net.nodes && b in net.nodes && m in Queue(net, d, b)
    ensures || m in Queue(Next(net, crypto, step), d, b)
            || (step.Deliver? && step.from == d && step.to == b && Queue(net, d, b)[0] == m)
  {
    hide Received, Written, Compaction.Compact, HelloMsg, Queue, Update, Popped;
    match step
    case Deliver(x, y, pt) =>
      var out := Received(net.nodes[y], crypto, Queue(net, x, y)[0], pt);
      QueuePopped(net, x, y, d, b);
      Acks.PoppedNodes(net, x, y);
      QueueUpdated(Popped(net, x, y), y, out, d, b);
      if x == d && y == b { Reunion.HeadTail(Queue(net, d, b)); }
    case LocalWrite(e, drafts) => QueueUpdated(net, e, Written(net.nodes[e], crypto, drafts), d, b);
    case CompactLog(e, gc) => CompactedLinks(net, crypto, e, gc, d, b);
    case SayHello(e) => QueueUpdated(net, e, (net.nodes[e], [HelloMsg(net.nodes[e])]), d, b);
  }

  lemma CompactedLinks(net: Net, crypto: Crypto, e: Device, gc: bool, a: Device, b: Device)
    requires e in net.nodes
    ensures Queue(Next(net, crypto, CompactLog(e, gc)), a, b) == Queue(net, a, b)
  {
    hide Compaction.Compact;
  }

  lemma StepArrives(net: Net, crypto: Crypto, known: set<Key>, space: Text, step: Step, d: Device, b: Device,
                    m: Msg, ops: seq<Op>, all: set<Op>)
    requires Inv(net, crypto, known, space) && CollisionFree(crypto, known) && Enabled(net, step)
    requires d in net.nodes && b in net.nodes && d != b && IsTail(crypto, known, space, d, ops, m)
    requires Arriving(net, d, b, m, ops) && ClockTakes(net, step, d, b, m, ops)
    requires !(step.CompactLog? && step.device == b)
    requires UniqueIds(all) && net.nodes[b].replica.log <= all && OpSet(ops) <= all
    ensures b in Next(net, crypto, step).nodes && Arriving(Next(net, crypto, step), d, b, m, ops)
  {
    hide Next, IsTail, CollisionFree, UniqueIds, Queue, Sane, LinkOk, Merge, Received;
    assert SaneAt(net, crypto, known, space, b);
    StepGrows(net, crypto, step, b);
    StepKeepsKeys(net, crypto, step, b, d);
    if m in Queue(net, d, b) {
      StaysQueued(net, crypto, step, d, b, m);
      if step.Deliver? && step.from == d && step.to == b && Queue(net, d, b)[0] == m {
        Records.NodesAfter(net, crypto, step);
        TailTaken(net.nodes[b], b, space, crypto, known, d, ops, m, step.pt, all);
      }
    }
  }

  lemma {:induction false} RunArrives(
    nets: seq<Net>, crypto: Crypto, known: set<Key>, space: Text, steps: seq<Step>, k: nat, i: nat,
    d: Device, b: Device, m: Msg, ops: seq<Op>, all: set<Op>)
    requires IsRun(nets, crypto, known, space, steps) && CollisionFree(crypto, known) && k <= i < |nets|
    requires d in nets[k].nodes && b in nets[k].nodes && d != b && IsTail(crypto, known, space, d, ops, m)
    requires Arriving(nets[k], d, b, m, ops)
    requires forall l {:trigger steps[l]} | k <= l < i ::
               ClockTakes(nets[l], steps[l], d, b, m, ops) && !(steps[l].CompactLog? && steps[l].device == b)
    requires UniqueIds(all) && OpSet(ops) <= all
    requires forall l | k <= l < i && b in nets[l].nodes :: nets[l].nodes[b].replica.log <= all
    ensures d in nets[i].nodes && b in nets[i].nodes && Arriving(nets[i], d, b, m, ops)
    decreases i
  {
    hide Next, IsTail, CollisionFree, UniqueIds, Queue, Initial, Enabled, ClockTakes, Arriving, Inv, Grounded;
    if k < i {
      RunArrives(nets, crypto, known, space, steps, k, i - 1, d, b, m, ops, all);
      RunInv(nets, crypto, known, space, steps, i - 1);
      assert Enabled(nets[i - 1], steps[i - 1]) && ClockTakes(nets[i - 1], steps[i - 1], d, b, m, ops);
      StepArrives(nets[i - 1], crypto, known, space, steps[i - 1], d, b, m, ops, all);
      Records.NodesAfter(nets[i - 1], crypto, steps[i - 1]);
    }
  }

  /** What a write issued is honest. */
  lemma IssuedHonest(n: Node, d: Device, space: Text, crypto: Crypto, known: set<Key>, drafts: seq<Draft>)
    requires Sane(n, d, space, crypto, known)
    ensures forall o <- IssuedBy(n, crypto, drafts) :: Sessions.Honest(crypto, known, o) && o.hlc.device == d
  {
    hide Admissible, Signed, MakeLocalOps, Verifiable, KeyPair;
    forall o <- IssuedBy(n, crypto, drafts) ensures Sessions.Honest(crypto, known, o) && o.hlc.device == d {
      OwnOpsVerify(n.replica.clock, d, drafts, crypto, n.cipher, n.deviceKey, o);
      assert n.keys[d] in known && crypto.idOf(n.keys[d]) == d;
    }
  }

  lemma WriteIsTail(net: Net, crypto: Crypto, known: set<Key>, space: Text, d: Device, drafts: seq<Draft>, b: Device,
                    o: Op)
    returns (m: Msg, batch: seq<Op>)
    requires Inv(net, crypto, known, space) && d in net.nodes && b in net.nodes
    requires o in IssuedBy(net.nodes[d], crypto, drafts)
    ensures IsTail(crypto, known, space, d, batch, m) && o in batch
    ensures forall p <- batch :: p in IssuedBy(net.nodes[d], crypto, drafts)
    ensures m in Queue(Next(net, crypto, LocalWrite(d, drafts)), d, b)
  {
    hide Next, LinkOk, IssuedBy, Sessions.Honest, Queue, Spelled, WireOf;
    var n := net.nodes[d];
    assert SaneAt(net, crypto, known, space, d);
    batch := IssuedIsInBatch(n, IssuedBy(n, crypto, drafts), o);
    m := Envelope(n, None, OpsBatch(WireOf(batch)));
    IssuedHonest(n, d, space, crypto, known, drafts);
    WriteGoesOut(net, crypto, d, drafts, b);
  }

  /** What was written is with every peer that held the writer's key, once it has read the link: no answer, no
      question, no acknowledgement is needed for it. Only a clock can refuse it, or a compaction have removed it. */
  lemma LiveTailArrives(
    nets: seq<Net>, crypto: Crypto, known: set<Key>, space: Text, steps: seq<Step>, k: nat, i: nat,
    d: Device, b: Device, drafts: seq<Draft>, all: set<Op>)
    requires IsRun(nets, crypto, known, space, steps) && CollisionFree(crypto, known) && k < i < |nets|
    requires steps[k] == LocalWrite(d, drafts) && d in nets[k].nodes
    requires b in nets[k].nodes && d != b && d in nets[k].nodes[b].keys
    requires var issued := IssuedBy(nets[k].nodes[d], crypto, drafts);
      && UniqueIds(all) && OpSet(issued) <= all
      && forall l, m, ops | k < l < i && IsTail(crypto, known, space, d, ops, m) && OpSet(ops) <= OpSet(issued) ::
           ClockTakes(nets[l], steps[l], d, b, m, ops)
    requires forall l | k <= l < i && b in nets[l].nodes :: nets[l].nodes[b].replica.log <= all
    requires forall l | k < l < i :: !(steps[l].CompactLog? && steps[l].device == b)
    requires b in nets[i].nodes && Queue(nets[i], d, b) == []
    ensures OpSet(IssuedBy(nets[k].nodes[d], crypto, drafts)) <= nets[i].nodes[b].replica.log
  {
    hide Next, CollisionFree, UniqueIds, Initial, Enabled, Inv, Grounded, IssuedBy, IsTail, ClockTakes, Queue;
    var issued := IssuedBy(nets[k].nodes[d], crypto, drafts);
    RunInv(nets, crypto, known, space, steps, k);
    assert Enabled(nets[k], steps[k]) && nets[k + 1] == Next(nets[k], crypto, steps[k]);
    Records.NodesAfter(nets[k], crypto, steps[k]);
    StepKeepsKeys(nets[k], crypto, steps[k], b, d);
    forall o <- OpSet(issued) ensures o in nets[i].nodes[b].replica.log {
      var m, batch := WriteIsTail(nets[k], crypto, known, space, d, drafts, b, o);
      assert OpSet(batch) <= OpSet(issued);
      assert Arriving(nets[k + 1], d, b, m, batch);
      RunArrives(nets, crypto, known, space, steps, k + 1, i, d, b, m, batch, all);
      assert o in OpSet(batch);
    }
  }
}
