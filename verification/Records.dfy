/** What replicators record of each other: every question and every acknowledgement is recorded and stays recorded,
    so compaction waits for whoever ever asked; and when a session has fallen silent the records are exact. */
module Records {
  import opened Hlcs
  import opened Ops
  import opened Replicas
  import Compaction
  import opened Histories
  import opened OpOrder
  import opened Storage
  import opened Engine
  import opened Sessions
  import opened Replication
  import opened Links
  import opened Reunion
  import opened Acks

  /** The frontier a question or an acknowledgement tells of its sender. */
  function Told(m: Msg): Option<Frontier> {
    match m.body
    case Since(have) => Some(have)
    case Ack(f) => Some(f)
    case _ => None
  }

  // ---------- one message ----------

  ghost predicate OnRecord(n: Node, p: Device, f: Frontier) {
    p in n.replica.peers && n.replica.peers[p] == f && p in n.peers && n.peers[p] == Some(f)
  }

  /** What a peer tells is recorded, in the session and in the store. */
  lemma ToldIsRecorded(n: Node, crypto: Crypto, m: Msg, pt: int)
    requires !Ignored(n, m) && Told(m).Some?
    ensures OnRecord(Received(n, crypto, m, pt).0, m.from, Told(m).value)
  {
    hide OpsSince, ChunkMsgs, KeysMsg;
  }

  /** Nothing else is recorded, and nothing is forgotten. */
  lemma OnlyToldIsRecorded(n: Node, crypto: Crypto, m: Msg, pt: int)
    ensures Received(n, crypto, m, pt).0.replica.peers ==
              if !Ignored(n, m) && Told(m).Some? then n.replica.peers[m.from := Told(m).value] else n.replica.peers
  {
    hide OpsSince, ChunkMsgs, KeysMsg, Decode, Admitted, FreshOps, FrontierAfter, CellsAfter, Genuine;
    hide ReceiveBatch;
  }

  // ---------- runs ----------

  lemma NodesAfter(net: Net, crypto: Crypto, step: Step)
    requires Enabled(net, step)
    ensures Next(net, crypto, step).nodes.Keys == net.nodes.Keys
    ensures step.Deliver? ==>
      Next(net, crypto, step).nodes ==
        net.nodes[step.to := Received(net.nodes[step.to], crypto, Queue(net, step.from, step.to)[0], step.pt).0]
  {
    hide Received, Written, Compaction.Compact, LatestClock;
  }

  lemma StepKeepsRecords(net: Net, crypto: Crypto, step: Step, d: Device, p: Device)
    requires Enabled(net, step) && Truthful(net) && d in net.nodes && p in net.nodes[d].replica.peers
    ensures d in Next(net, crypto, step).nodes && p in Next(net, crypto, step).nodes[d].replica.peers
  {
    hide Received, Written, Compaction.Compact, LatestClock, WellKeyed, Acks.Honest, RecordOk, Seen;
    NodesAfter(net, crypto, step);
    match step
    case Deliver(x, y, pt) => OnlyToldIsRecorded(net.nodes[y], crypto, Queue(net, x, y)[0], pt);
    case LocalWrite(e, drafts) => WrittenMoves(net.nodes[e], crypto, drafts);
    case CompactLog(e, gc) => Compaction.CompactKeeps(net.nodes[e].replica, gc);
    case SayHello(_) =>
  }

  /** Whom a replica has recorded it never forgets. */
  lemma {:induction false} RecordsStay(
    nets: seq<Net>, crypto: Crypto, steps: seq<Step>, i: nat, j: nat, d: Device, p: Device)
    requires Follows(nets, crypto, steps) && i <= j < |nets|
    requires d in nets[i].nodes && p in nets[i].nodes[d].replica.peers
    ensures d in nets[j].nodes && p in nets[j].nodes[d].replica.peers
    decreases j
  {
    hide Truthful, Grounded, Next, Enabled;
    if i < j {
      RecordsStay(nets, crypto, steps, i, j - 1, d, p);
      RecordsNeverAhead(nets, crypto, steps, j - 1);
      StepKeepsRecords(nets[j - 1], crypto, steps[j - 1], d, p);
    }
  }

  /** Step `i` delivers to `d` a question or an acknowledgement of `x` that `d` does not ignore. */
  ghost predicate Tells(nets: seq<Net>, steps: seq<Step>, i: nat, x: Device, d: Device) {
    && i < |steps| < |nets| && steps[i].Deliver? && steps[i].from == x && steps[i].to == d
    && d in nets[i].nodes && Queue(nets[i], x, d) != []
    && !Ignored(nets[i].nodes[d], Queue(nets[i], x, d)[0]) && Told(Queue(nets[i], x, d)[0]).Some?
  }

  /** What a peer tells is on record from then on, and is what the record says until it tells more. */
  lemma TellersAreRecorded(
    nets: seq<Net>, crypto: Crypto, steps: seq<Step>, i: nat, j: nat, x: Device, d: Device)
    requires Follows(nets, crypto, steps) && Tells(nets, steps, i, x, d) && i < j < |nets|
    ensures x != d && OnRecord(nets[i + 1].nodes[d], x, Told(Queue(nets[i], x, d)[0]).value)
    ensures d in nets[j].nodes && x in nets[j].nodes[d].replica.peers
  {
    hide Received, Next, WellKeyed, RecordOk, Claims;
    RecordsNeverAhead(nets, crypto, steps, i);
    var m := Queue(nets[i], x, d)[0];
    assert Enabled(nets[i], steps[i]) && nets[i + 1] == Next(nets[i], crypto, steps[i]);
    QueueIsFrom(nets[i], x, d);
    ToldIsRecorded(nets[i].nodes[d], crypto, m, steps[i].pt);
    NodesAfter(nets[i], crypto, steps[i]);
    RecordsStay(nets, crypto, steps, i + 1, j, d, x);
  }

  lemma QueueIsFrom(net: Net, x: Device, d: Device)
    requires Truthful(net) && Grounded(net) && d in net.nodes && Queue(net, x, d) != []
    ensures x in net.nodes && Queue(net, x, d)[0].from == x && net.nodes[d].id == d
  {
    hide WellKeyed, RecordOk, Claims;
    assert Acks.Honest(Queue(net, x, d), x, net.nodes[x].replica.frontier);
    assert Queue(net, x, d)[0] in Queue(net, x, d);
  }

  /** So whatever a later compaction drops, everyone who ever asked or acknowledged has seen. */
  lemma DroppedWasSeenByTellers(
    nets: seq<Net>, crypto: Crypto, steps: seq<Step>, i: nat, j: nat, x: Device, d: Device, gc: bool, o: Op)
    requires Follows(nets, crypto, steps) && Tells(nets, steps, i, x, d) && i < j < |nets|
    requires d in nets[j].nodes && x in nets[j].nodes
    requires o in nets[j].nodes[d].replica.log && o !in Compaction.Compact(nets[j].nodes[d].replica, gc).log
    ensures Seen(nets[j].nodes[x].replica.frontier, o.hlc)
  {
    hide Tells, Follows, Compaction.Compact, Seen;
    TellersAreRecorded(nets, crypto, steps, i, j, x, d);
    DroppedWasSeen(nets, crypto, steps, j, d, x, gc, o);
  }
}
