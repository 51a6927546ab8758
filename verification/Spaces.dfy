/** Spaces never mix: whatever else is on the same links, a replica holds operations of its own space only. */
module Spaces {
  import opened Texts
  import opened Hlcs
  import opened Ops
  import opened Replicas
  import Compaction
  import opened Histories
  import opened OpOrder
  import opened Storage
  import opened Engine
  import opened Sessions
  import opened Replication
  import opened Links
  import Quiet = QuietNetwork
  import Acks
  import LiveTail

  /** Replicas of the space hold, and messages of the space carry, nothing but `pool`. */
  ghost predicate Apart(net: Net, space: Text, pool: set<Op>) {
    && (forall d <- net.nodes | net.nodes[d].space == space :: net.nodes[d].replica.log <= pool)
    && forall a, b | a in net.nodes && b in net.nodes :: Pure(Queue(net, a, b), space, pool)
  }

  ghost predicate Pure(q: seq<Msg>, space: Text, pool: set<Op>) {
    forall m <- q | m.space == space :: Quiet.Carries(m, pool)
  }

  /** A node keeps its space, and sends to it only. */
  lemma StaysInSpace(n: Node, crypto: Crypto, m: Msg, pt: int)
    ensures Received(n, crypto, m, pt).0.space == n.space
    ensures forall s <- Received(n, crypto, m, pt).1 :: s.space == n.space
  {
    hide Decode, ObserveClock, RemoteApplied, OpsSince, LatestClock, Genuine, WireOf;
  }

  /** Messages of another space, of another version, of the node itself, or meant for someone else are not for it. */
  lemma NotForMe(n: Node, crypto: Crypto, m: Msg, pt: int)
    requires m.space != n.space || m.version != 2 || m.from == n.id || (m.to.Some? && m.to != Some(n.id))
    ensures Received(n, crypto, m, pt) == (n, [])
  {
  }

  lemma PureMore(q: seq<Msg>, out: seq<Msg>, space: Text, pool: set<Op>, more: set<Op>)
    requires Pure(q, space, pool) && Pure(out, space, more) && pool <= more
    ensures Pure(q + out, space, more)
  {
  }

  lemma PureTail(q: seq<Msg>, space: Text, pool: set<Op>)
    requires q != [] && Pure(q, space, pool)
    ensures Pure(q[1..], space, pool) && (q[0].space == space ==> Quiet.Carries(q[0], pool))
  {
    assert q[0] in q;
  }

  /** A node moved on and sent something. */
  lemma UpdateApart(net: Net, space: Text, pool: set<Op>, more: set<Op>, d: Device, out: (Node, seq<Msg>))
    requires Apart(net, space, pool) && d in net.nodes && pool <= more
    requires out.0.space == space ==> out.0.replica.log <= more
    requires Pure(out.1, space, more)
    ensures Apart(Update(net, d, out), space, more)
  {
    hide Pure;
    var v := Update(net, d, out);
    NothingPure(space, more);
    forall a, b | a in v.nodes && b in v.nodes ensures Pure(Queue(v, a, b), space, more) {
      QueueUpdated(net, d, out, a, b);
      PureMore(Queue(net, a, b), if a == d then out.1 else [], space, pool, more);
      assert Queue(net, a, b) + [] == Queue(net, a, b);
    }
  }

  lemma NothingPure(space: Text, pool: set<Op>)
    ensures Pure([], space, pool)
  {
  }

  lemma DeliverApart(net: Net, crypto: Crypto, space: Text, pool: set<Op>, x: Device, y: Device, pt: int)
    requires Apart(net, space, pool) && x in net.nodes && Enabled(net, Deliver(x, y, pt))
    ensures Apart(Next(net, crypto, Deliver(x, y, pt)), space, pool)
  {
    hide Received, Pure, Quiet.Carries, Update, Popped, Queue;
    var n, queue := net.nodes[y], Queue(net, x, y);
    var (q, out) := Received(n, crypto, queue[0], pt);
    var popped := Popped(net, x, y);
    Acks.PoppedNodes(net, x, y);
    PureTail(queue, space, pool);
    forall a, b | a in popped.nodes && b in popped.nodes ensures Pure(Queue(popped, a, b), space, pool) {
      QueuePopped(net, x, y, a, b);
      assert Pure(Queue(net, a, b), space, pool);
    }
    StaysInSpace(n, crypto, queue[0], pt);
    if n.space == space {
      if queue[0].space == space {
        Quiet.ReceivedWithin(n, crypto, queue[0], pt, pool);
      } else {
        NotForMe(n, crypto, queue[0], pt);
      }
    }
    PureOut(out, n.space, space, pool);
    UpdateApart(popped, space, pool, pool, y, (q, out));
  }

  lemma PureOut(out: seq<Msg>, own: Text, space: Text, pool: set<Op>)
    requires forall s <- out :: s.space == own
    requires own == space ==> forall s <- out :: Quiet.Carries(s, pool)
    ensures Pure(out, space, pool)
  {
  }

  /** What is issued in the space by this step. */
  function IssuedIn(net: Net, crypto: Crypto, space: Text, step: Step): set<Op>
    requires Enabled(net, step)
  {
    if step.LocalWrite? && net.nodes[step.device].space == space
    then OpSet(LiveTail.IssuedBy(net.nodes[step.device], crypto, step.drafts)) else {}
  }

  lemma WrittenWithin(n: Node, crypto: Crypto, drafts: seq<Draft>, pool: set<Op>)
    requires n.replica.log <= pool
    ensures var (q, out) := Written(n, crypto, drafts); var more := pool + OpSet(LiveTail.IssuedBy(n, crypto, drafts));
      q.replica.log <= more && q.space == n.space && forall m <- out :: m.space == n.space && Quiet.Carries(m, more)
  {
    hide MakeLocalOps, ChunkMsgs, Quiet.Carries, CellsAfter, FrontierAfter;
    var issued := LiveTail.IssuedBy(n, crypto, drafts);
    if n.started {
      LiveTail.WrittenIsSent(n, crypto, drafts);
      Quiet.WireCarries(n, None, issued, pool + OpSet(issued));
      LiveTail.ChunksSpellAll(n, None, issued);
    }
  }

  lemma WrittenSpace(n: Node, crypto: Crypto, drafts: seq<Draft>)
    ensures Written(n, crypto, drafts).0.space == n.space
    ensures forall m <- Written(n, crypto, drafts).1 :: m.space == n.space
  {
    hide MakeLocalOps, Write, WireOf;
  }

  lemma WriteApart(net: Net, crypto: Crypto, space: Text, pool: set<Op>, d: Device, drafts: seq<Draft>)
    requires Apart(net, space, pool) && d in net.nodes
    ensures Apart(Next(net, crypto, LocalWrite(d, drafts)), space,
                  pool + IssuedIn(net, crypto, space, LocalWrite(d, drafts)))
  {
    hide Written, Pure, Quiet.Carries, Update, LiveTail.IssuedBy, Queue;
    var n, step := net.nodes[d], LocalWrite(d, drafts);
    var out := Written(n, crypto, drafts);
    var more := pool + IssuedIn(net, crypto, space, step);
    WrittenSpace(n, crypto, drafts);
    if n.space == space { WrittenWithin(n, crypto, drafts, pool); }
    PureOut(out.1, n.space, space, more);
    UpdateApart(net, space, pool, more, d, out);
  }

  lemma StepApart(net: Net, crypto: Crypto, space: Text, pool: set<Op>, step: Step)
    requires Apart(net, space, pool) && Grounded(net) && Enabled(net, step)
    ensures Apart(Next(net, crypto, step), space, pool + IssuedIn(net, crypto, space, step))
    ensures Grounded(Next(net, crypto, step))
  {
    hide Received, Written, Pure, LatestClock, Compaction.Compact, Apart, LiveTail.IssuedBy;
    assert pool + {} == pool;
    match step
    case Deliver(x, y, pt) => DeliverApart(net, crypto, space, pool, x, y, pt);
    case LocalWrite(d, drafts) => WriteApart(net, crypto, space, pool, d, drafts);
    case CompactLog(d, gc) => CompactApart(net, crypto, space, pool, d, gc);
    case SayHello(d) => GreetApart(net, crypto, space, pool, d);
  }

  lemma CompactApart(net: Net, crypto: Crypto, space: Text, pool: set<Op>, d: Device, gc: bool)
    requires Apart(net, space, pool) && d in net.nodes
    ensures Apart(Next(net, crypto, CompactLog(d, gc)), space, pool)
  {
    hide Pure, Compaction.Compact;
    Compaction.CompactKeeps(net.nodes[d].replica, gc);
    var v := Next(net, crypto, CompactLog(d, gc));
    forall a, b | a in v.nodes && b in v.nodes ensures Pure(Queue(v, a, b), space, pool) {
      assert Pure(Queue(net, a, b), space, pool);
    }
  }

  lemma GreetApart(net: Net, crypto: Crypto, space: Text, pool: set<Op>, d: Device)
    requires Apart(net, space, pool) && d in net.nodes
    ensures Apart(Next(net, crypto, SayHello(d)), space, pool)
  {
    hide LatestClock, Update;
    UpdateApart(net, space, pool, pool, d, (net.nodes[d], [HelloMsg(net.nodes[d])]));
  }

  // ---------- runs ----------

  ghost predicate Moves(nets: seq<Net>, crypto: Crypto, steps: seq<Step>) {
    && |nets| == |steps| + 1 && Grounded(nets[0])
    && forall i {:trigger steps[i]} | 0 <= i < |steps| ::
         Enabled(nets[i], steps[i]) && nets[i + 1] == Next(nets[i], crypto, steps[i])
  }

  /** All that was around in the space, or issued there in the first `i` steps. */
  ghost function Pool(nets: seq<Net>, crypto: Crypto, steps: seq<Step>, space: Text, first: set<Op>, i: nat): set<Op>
    requires Moves(nets, crypto, steps) && i <= |steps|
  {
    if i == 0 then first
    else Pool(nets, crypto, steps, space, first, i - 1) + IssuedIn(nets[i - 1], crypto, space, steps[i - 1])
  }

  /** However replicas of different spaces share links, a replica of a space never holds an operation that was not in
      that space at the start or issued there. */
  lemma {:induction false} SpacesNeverMix(
    nets: seq<Net>, crypto: Crypto, steps: seq<Step>, space: Text, first: set<Op>, i: nat)
    requires Moves(nets, crypto, steps) && Apart(nets[0], space, first) && i < |nets|
    ensures Apart(nets[i], space, Pool(nets, crypto, steps, space, first, i)) && Grounded(nets[i])
  {
    hide Apart, Next, Grounded, IssuedIn, Enabled;
    if i > 0 {
      SpacesNeverMix(nets, crypto, steps, space, first, i - 1);
      assert Enabled(nets[i - 1], steps[i - 1]) && nets[i] == Next(nets[i - 1], crypto, steps[i - 1]);
      StepApart(nets[i - 1], crypto, space, Pool(nets, crypto, steps, space, first, i - 1), steps[i - 1]);
    }
  }
}
