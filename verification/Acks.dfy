/** What replicators record of each other: never more than a peer really has, whatever is sent in between. */
module Acks {
  import opened Hlcs
  import opened Clocks
  import opened Ops
  import opened Replicas
  import Compaction
  import opened Histories
  import opened OpOrder
  import opened Storage
  import opened Engine
  import opened Sessions
  import opened Replication
  import opened Links

  /** A question or an acknowledgement claims no more than the frontier. */
  ghost predicate Claims(m: Msg, f: Frontier) {
    && (m.body.Since? ==> Within(m.body.have, f))
    && (m.body.Ack? ==> Within(m.body.frontier, f))
  }

  ghost predicate Honest(q: seq<Msg>, a: Device, f: Frontier) {
    forall m <- q :: m.from == a && Claims(m, f)
  }

  ghost predicate RecordOk(nodes: map<Device, Node>, d: Device, p: Device)
    requires d in nodes
  {
    p in nodes[d].replica.peers && p in nodes ==>
      Within(nodes[d].replica.peers[p], nodes[p].replica.frontier)
  }

  ghost predicate Truthful(net: Net) {
    && (forall d <- net.nodes :: net.nodes[d].id == d && WellKeyed(net.nodes[d].replica.frontier))
    && (forall d, p | d in net.nodes :: RecordOk(net.nodes, d, p))
    && forall a, b | a in net.nodes && b in net.nodes :: Honest(Queue(net, a, b), a, net.nodes[a].replica.frontier)
  }

  // ---------- frontiers only grow ----------

  /** The node moved on: its frontier grew, and it claims no more than it has. */
  ghost predicate Moved(n: Node, q: Node, out: seq<Msg>) {
    && q.id == n.id && WellKeyed(q.replica.frontier)
    && Within(n.replica.frontier, q.replica.frontier)
    && Honest(out, q.id, q.replica.frontier)
  }

  lemma FrontierGrows(f: Frontier, ops: seq<Op>)
    requires WellKeyed(f)
    ensures WellKeyed(FrontierAfter(f, ops)) && Within(f, FrontierAfter(f, ops))
  {
    FrontierUnion(f, ops);
  }

  lemma MergeMoves(r: Replica, ops: seq<Op>, pt: int)
    requires WellKeyed(r.frontier)
    ensures WellKeyed(Merge(r, ops, pt).0.frontier) && Within(r.frontier, Merge(r, ops, pt).0.frontier)
    ensures Merge(r, ops, pt).0.peers == r.peers
  {
    hide FrontierAfter, ReceiveBatch, FreshOps;
    FrontierGrows(r.frontier, FreshOps(r.log, ops));
  }

  lemma WriteMoves(r: Replica, d: Device, drafts: seq<Draft>, author: Author)
    requires WellKeyed(r.frontier)
    ensures WellKeyed(Write(r, d, drafts, author).0.frontier)
    ensures Within(r.frontier, Write(r, d, drafts, author).0.frontier)
    ensures Write(r, d, drafts, author).0.peers == r.peers
  {
    hide FrontierAfter, MakeLocalOps;
    var made := MakeLocalOps(r.clock, d, drafts, author);
    if made.Made? { FrontierGrows(r.frontier, made.ops); }
  }

  lemma ChunksClaimNothing(n: Node, to: Option<Device>, ops: seq<Op>, f: Frontier)
    ensures Honest(ChunkMsgs(n, to, ops), n.id, f)
  {
  }

  lemma HelloMoves(n: Node, crypto: Crypto, m: Msg, pt: int)
    requires WellKeyed(n.replica.frontier) && m.body.Hello?
    ensures var (q, out) := OnHello(n, crypto, m, pt); Moved(n, q, out) && q.replica.peers == n.replica.peers
  {
    hide WellKeyed, Receive, Decode, LatestClock, Seen;
  }

  lemma SinceMoves(n: Node, m: Msg)
    requires WellKeyed(n.replica.frontier) && m.body.Since?
    ensures Moved(n, OnSince(n, m).0, OnSince(n, m).1)
  {
    hide WellKeyed, OpsSince, ChunkMsgs, Seen;
    var q := Recorded(n, m, m.body.have);
    ChunksClaimNothing(q, Some(m.from), OpsSince(q.replica.log, m.body.have), q.replica.frontier);
  }

  lemma OpsMove(n: Node, crypto: Crypto, m: Msg, pt: int)
    requires WellKeyed(n.replica.frontier) && m.body.OpsBatch?
    ensures var (q, out) := OnOps(n, crypto, m, pt); Moved(n, q, out) && q.replica.peers == n.replica.peers
  {
    hide WellKeyed, Merge, Admitted, Seen;
    if Admitted(crypto, n.keys, m.body.ops).Some? {
      MergeMoves(n.replica, Admitted(crypto, n.keys, m.body.ops).value, pt);
    }
  }

  /** What a node records comes from the message, and from nowhere else. */
  lemma ReceivedMoves(n: Node, crypto: Crypto, m: Msg, pt: int)
    requires WellKeyed(n.replica.frontier)
    ensures var (q, out) := Received(n, crypto, m, pt);
      && Moved(n, q, out)
      && forall p <- q.replica.peers ::
           || (p in n.replica.peers && q.replica.peers[p] == n.replica.peers[p])
           || (p == m.from && m.body.Since? && q.replica.peers[p] == m.body.have)
           || (p == m.from && m.body.Ack? && q.replica.peers[p] == m.body.frontier)
  {
    hide WellKeyed, OnHello, OnOps, Genuine, OpsSince, ChunkMsgs, KeysMsg, Seen;
    if !Ignored(n, m) {
      match m.body
      case Hello(_, _) => HelloMoves(n, crypto, m, pt);
      case Keys(_) =>
      case Since(_) => SinceMoves(n, m);
      case OpsBatch(_) => OpsMove(n, crypto, m, pt);
      case Ack(_) =>
    }
  }

  lemma WrittenMoves(n: Node, crypto: Crypto, drafts: seq<Draft>)
    requires WellKeyed(n.replica.frontier)
    ensures var (q, out) := Written(n, crypto, drafts); Moved(n, q, out) && q.replica.peers == n.replica.peers
  {
    hide WellKeyed, Write, MakeLocalOps, ChunkMsgs, Seen;
    var author := AuthorOf(crypto, n.cipher, n.deviceKey.privateKey);
    WriteMoves(n.replica, n.id, drafts, author);
    var made := MakeLocalOps(n.replica.clock, n.id, drafts, author);
    var (q, out) := Written(n, crypto, drafts);
    if out != [] {
      ChunksClaimNothing(n, None, if made.Made? then made.ops else [], q.replica.frontier);
      WrittenTail(n, crypto, drafts);
    }
  }

  lemma WrittenTail(n: Node, crypto: Crypto, drafts: seq<Draft>)
    ensures Written(n, crypto, drafts).1 != [] ==>
      MakeLocalOps(n.replica.clock, n.id, drafts, AuthorOf(crypto, n.cipher, n.deviceKey.privateKey)).Made?
  {
    hide MakeLocalOps, ChunkMsgs, Replicas.Commit;
  }

  // ---------- the network ----------

  lemma HonestGrows(q: seq<Msg>, a: Device, f: Frontier, g: Frontier)
    requires Honest(q, a, f) && Within(f, g)
    ensures Honest(q, a, g)
  {
    hide Seen;
  }

  lemma HonestAppend(q: seq<Msg>, out: seq<Msg>, a: Device, f: Frontier)
    requires Honest(q, a, f) && Honest(out, a, f)
    ensures Honest(q + out, a, f)
  {
    hide Claims;
  }

  /** One node moved on and sent something, with its records still in order. */
  lemma UpdateTruthful(net: Net, d: Device, out: (Node, seq<Msg>))
    requires Truthful(net) && d in net.nodes && Moved(net.nodes[d], out.0, out.1)
    requires forall p <- out.0.replica.peers | p in net.nodes && p != d ::
               Within(out.0.replica.peers[p], net.nodes[p].replica.frontier)
    requires d in out.0.replica.peers ==> Within(out.0.replica.peers[d], out.0.replica.frontier)
    ensures Truthful(Update(net, d, out))
  {
    hide WellKeyed, Claims, Seen, Honest;
    var v := Update(net, d, out);
    forall e, p | e in v.nodes ensures RecordOk(v.nodes, e, p) {
      assert RecordOk(net.nodes, e, p);
    }
    forall a, b | a in v.nodes && b in v.nodes ensures Honest(Queue(v, a, b), a, v.nodes[a].replica.frontier) {
      QueueUpdated(net, d, out, a, b);
      if a == d {
        HonestGrows(Queue(net, a, b), a, net.nodes[d].replica.frontier, out.0.replica.frontier);
        HonestAppend(Queue(net, a, b), out.1, a, out.0.replica.frontier);
      }
    }
  }

  lemma HonestTail(q: seq<Msg>, a: Device, f: Frontier)
    requires q != [] && Honest(q, a, f)
    ensures Honest(q[1..], a, f)
  {
  }

  lemma PopTruthful(net: Net, x: Device, y: Device)
    requires Truthful(net) && x in net.nodes && y in net.nodes && Queue(net, x, y) != []
    ensures Truthful(Popped(net, x, y))
    ensures Queue(net, x, y)[0].from == x && Claims(Queue(net, x, y)[0], net.nodes[x].replica.frontier)
  {
    hide WellKeyed, Claims, Seen, Within;
    var v := Popped(net, x, y);
    assert Queue(net, x, y)[0] in Queue(net, x, y);
    forall e, p | e in v.nodes ensures RecordOk(v.nodes, e, p) {
      assert RecordOk(net.nodes, e, p);
    }
    forall a, b | a in v.nodes && b in v.nodes ensures Honest(Queue(v, a, b), a, v.nodes[a].replica.frontier) {
      QueuePopped(net, x, y, a, b);
      assert Honest(Queue(net, a, b), a, net.nodes[a].replica.frontier);
      if a == x && b == y { HonestTail(Queue(net, x, y), x, net.nodes[x].replica.frontier); }
    }
  }

  lemma SameRecords(net: Net, d: Device, q: Node)
    requires Truthful(net) && d in net.nodes && q.replica.peers == net.nodes[d].replica.peers
    requires Within(net.nodes[d].replica.frontier, q.replica.frontier)
    ensures forall p <- q.replica.peers | p in net.nodes && p != d ::
              Within(q.replica.peers[p], net.nodes[p].replica.frontier)
    ensures d in q.replica.peers ==> Within(q.replica.peers[d], q.replica.frontier)
  {
    hide WellKeyed, Honest, Seen;
    forall p <- q.replica.peers | p in net.nodes ensures Within(q.replica.peers[p], net.nodes[p].replica.frontier) {
      assert RecordOk(net.nodes, d, p);
    }
  }

  lemma DeliverTruthful(net: Net, crypto: Crypto, x: Device, y: Device, pt: int)
    requires Truthful(net) && x in net.nodes && Enabled(net, Deliver(x, y, pt))
    ensures Truthful(Next(net, crypto, Deliver(x, y, pt)))
  {
    hide WellKeyed, Honest, Received, Update, Popped, Seen;
    var n, m := net.nodes[y], Queue(net, x, y)[0];
    var (q, out) := Received(n, crypto, m, pt);
    var popped := Popped(net, x, y);
    PopTruthful(net, x, y);
    PoppedNodes(net, x, y);
    ReceivedMoves(n, crypto, m, pt);
    if x == y { ToSelfIgnored(n, crypto, m, pt); }
    forall p <- q.replica.peers | p in net.nodes
      ensures Within(q.replica.peers[p], if p == y then q.replica.frontier else net.nodes[p].replica.frontier)
    {
      assert RecordOk(net.nodes, y, p);
    }
    UpdateTruthful(popped, y, (q, out));
  }

  lemma PoppedNodes(net: Net, x: Device, y: Device)
    requires Queue(net, x, y) != []
    ensures Popped(net, x, y).nodes == net.nodes
  {
  }

  lemma ToSelfIgnored(n: Node, crypto: Crypto, m: Msg, pt: int)
    requires m.from == n.id
    ensures Received(n, crypto, m, pt) == (n, [])
  {
  }

  /** Links come from nodes, so every message has a sender. */
  lemma StepTruthful(net: Net, crypto: Crypto, step: Step)
    requires Truthful(net) && Grounded(net) && Enabled(net, step)
    ensures Truthful(Next(net, crypto, step)) && Grounded(Next(net, crypto, step))
  {
    hide WellKeyed, Honest, Received, Written, Seen, LatestClock, Compaction.Compact;
    match step
    case Deliver(x, y, pt) => DeliverTruthful(net, crypto, x, y, pt);
    case LocalWrite(d, drafts) =>
      WrittenMoves(net.nodes[d], crypto, drafts);
      SameRecords(net, d, Written(net.nodes[d], crypto, drafts).0);
      UpdateTruthful(net, d, Written(net.nodes[d], crypto, drafts));
    case CompactLog(d, gc) =>
      CompactTruthful(net, crypto, d, gc);
    case SayHello(d) =>
      GreetTruthful(net, d);
  }

  lemma GreetTruthful(net: Net, d: Device)
    requires Truthful(net) && d in net.nodes
    ensures Truthful(Update(net, d, (net.nodes[d], [HelloMsg(net.nodes[d])])))
  {
    hide WellKeyed, LatestClock, Seen, Update;
    assert Moved(net.nodes[d], net.nodes[d], [HelloMsg(net.nodes[d])]);
    SameRecords(net, d, net.nodes[d]);
    UpdateTruthful(net, d, (net.nodes[d], [HelloMsg(net.nodes[d])]));
  }

  lemma CompactTruthful(net: Net, crypto: Crypto, d: Device, gc: bool)
    requires Truthful(net) && d in net.nodes
    ensures Truthful(Next(net, crypto, CompactLog(d, gc)))
  {
    hide WellKeyed, Honest, Seen, Compaction.Compact, Within;
    var v := Next(net, crypto, CompactLog(d, gc));
    Compaction.CompactKeeps(net.nodes[d].replica, gc);
    forall e, p | e in v.nodes ensures RecordOk(v.nodes, e, p) {
      assert RecordOk(net.nodes, e, p);
    }
    forall a, b | a in v.nodes && b in v.nodes ensures Honest(Queue(v, a, b), a, v.nodes[a].replica.frontier) {
      assert Honest(Queue(net, a, b), a, net.nodes[a].replica.frontier);
    }
  }

  ghost predicate Follows(nets: seq<Net>, crypto: Crypto, steps: seq<Step>) {
    && |nets| == |steps| + 1
    && Truthful(nets[0]) && Grounded(nets[0])
    && forall i {:trigger steps[i]} | 0 <= i < |steps| ::
         Enabled(nets[i], steps[i]) && nets[i + 1] == Next(nets[i], crypto, steps[i])
  }

  /** No recorded peer frontier ever exceeds that peer's own, through writes, messages and compactions. */
  lemma {:induction false} RecordsNeverAhead(nets: seq<Net>, crypto: Crypto, steps: seq<Step>, i: nat)
    requires Follows(nets, crypto, steps) && i < |nets|
    ensures Truthful(nets[i]) && Grounded(nets[i])
  {
    hide Truthful, Grounded, Next;
    if i > 0 {
      RecordsNeverAhead(nets, crypto, steps, i - 1);
      StepTruthful(nets[i - 1], crypto, steps[i - 1]);
    }
  }

  /** Hence whatever a compaction drops, tombstoned rows included, every recorded peer has really seen. */
  lemma DroppedWasSeen(
    nets: seq<Net>, crypto: Crypto, steps: seq<Step>, i: nat, d: Device, peer: Device, gc: bool, o: Op)
    requires Follows(nets, crypto, steps) && i < |nets|
    requires d in nets[i].nodes && peer in nets[i].nodes && peer in nets[i].nodes[d].replica.peers
    requires o in nets[i].nodes[d].replica.log && o !in Compaction.Compact(nets[i].nodes[d].replica, gc).log
    ensures Seen(nets[i].nodes[peer].replica.frontier, o.hlc)
  {
    RecordsNeverAhead(nets, crypto, steps, i);
    assert RecordOk(nets[i].nodes, d, peer);
    DroppedIsAbsorbed(nets[i].nodes[d].replica, gc, o);
  }

  lemma DroppedIsAbsorbed(r: Replica, gc: bool, o: Op)
    requires o in r.log && o !in Compaction.Compact(r, gc).log
    ensures forall p <- r.peers :: Seen(r.peers[p], o.hlc)
  {
    assert o in Compaction.Absorbed(r);
  }
}
