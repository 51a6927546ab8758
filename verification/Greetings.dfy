/** What a greeting carries and what it does: the latest timestamp its sender retains, above which everyone writes
    who accepted it, and the key that its sender's operations verify under. */
module Greetings {
  import opened Texts
  import opened Hlcs
  import opened Clocks
  import opened Ops
  import opened Replicas
  import Compaction
  import opened Histories
  import opened OpOrder
  import opened Storage
  import opened Engine
  import opened Sessions
  import opened Replication
  import opened Links
  import opened Acks
  import Quiet = QuietNetwork
  import ClockRange
  import Records

  // ---------- the greeting's clock ----------

  /** Not below any operation, and one of them if there are any. */
  ghost predicate IsLatest(h: Hlc, log: set<Op>, d: Device) {
    && (forall o <- log :: Leq(o.hlc, h))
    && (if log == {} then h == Hlc(0, 0, d) else exists o <- log :: o.hlc == h)
  }

  lemma {:induction false} LastIsLatest(s: set<Op>)
    requires s != {}
    ensures forall o <- s :: Leq(o.hlc, SortOps(s)[|s| - 1].hlc)
    decreases |s|
  {
    var o := First(s);
    var rest := s - {o};
    if rest == {} {
      assert s == {o};
    } else {
      LastIsLatest(rest);
      assert SortOps(s)[|s| - 1] == SortOps(rest)[|rest| - 1];
      SortOpsContents(rest);
      assert SortOps(rest)[|rest| - 1] in OpSet(SortOps(rest));
      assert IsFirst(o, s);
    }
  }

  /** A greeting carries the latest retained timestamp, and no other fits. */
  lemma HelloIsLatest(n: Node)
    ensures var t := Decode(HelloMsg(n).body.clock);
      && t.Timestamp? && IsLatest(t.hlc, n.replica.log, n.id)
      && forall h | IsLatest(h, n.replica.log, n.id) :: h == t.hlc
  {
    hide SortOps, Encode, Decode;
    var ops := OpsSince(n.replica.log, map[]);
    OpsSinceContents(n.replica.log, map[]);
    assert Diff(n.replica.log, map[]) == n.replica.log;
    if ops == [] {
      DecodeEncode(Hlc(0, 0, n.id));
    } else {
      LastIsLatest(n.replica.log);
      assert ops[|ops| - 1] in OpSet(ops);
      DecodeEncode(ops[|ops| - 1].hlc);
    }
  }

  // ---------- taking a greeting ----------

  /** A genuine key is learned even when the clock is refused. */
  lemma HelloTeachesKey(n: Node, crypto: Crypto, m: Msg, pt: int)
    requires m.body.Hello? && !Ignored(n, m)
    ensures var keys := Received(n, crypto, m, pt).0.keys;
      && (crypto.idOf(m.body.key) == m.from ==> m.from in keys && keys[m.from] == m.body.key)
      && forall d | d in n.keys && d != m.from :: d in keys && keys[d] == n.keys[d]
  {
    hide ObserveClock, Decode, LatestClock;
  }

  /** The key a node greets with hashes to its id and verifies what it writes: who has taken the greeting can verify
      the writer. */
  lemma HelloCarriesKey(n: Node, d: Device, space: Text, crypto: Crypto, known: set<Key>, drafts: seq<Draft>)
    requires Sane(n, d, space, crypto, known)
    ensures var key := HelloMsg(n).body.key;
      && crypto.idOf(key) == d && HelloMsg(n).from == d && HelloMsg(n).to == None
      && forall o <- Issued(n.replica, n.id, drafts, AuthorOf(crypto, n.cipher, n.deviceKey.privateKey)) ::
           Signed(crypto, key, o)
  {
    hide Admissible, Signed, MakeLocalOps, Verifiable, LatestClock, KeyPair;
    forall o <- Issued(n.replica, n.id, drafts, AuthorOf(crypto, n.cipher, n.deviceKey.privateKey))
      ensures Signed(crypto, HelloMsg(n).body.key, o)
    {
      OwnOpsVerify(n.replica.clock, n.id, drafts, crypto, n.cipher, n.deviceKey, o);
    }
  }

  /** A greeting whose clock is refused is not answered, and its sender not met. */
  lemma RefusedHelloIsSilent(n: Node, crypto: Crypto, m: Msg, pt: int)
    requires m.body.Hello? && !Ignored(n, m)
    requires Decode(m.body.clock).Malformed? || ObserveClock(n.replica, Decode(m.body.clock).hlc, pt).1.Failed?
    ensures var (q, out) := Received(n, crypto, m, pt);
      && out == [] && q.peers == n.peers && q.replica == n.replica.(clock := q.replica.clock)
  {
    hide Decode, LatestClock;
  }

  // ---------- clocks never fall ----------

  ghost predicate Risen(n: Node, q: Node) {
    Packed(n.replica.clock) <= Packed(q.replica.clock)
  }

  lemma ReceivedRises(n: Node, crypto: Crypto, m: Msg, pt: int)
    ensures Risen(n, Received(n, crypto, m, pt).0)
  {
    hide Decode, Receive, OpsSince, ChunkMsgs, Admitted, FreshOps, Genuine, LatestClock, CellsAfter, FrontierAfter;
    match m.body
    case Hello(clock, _) =>
      if Decode(clock).Timestamp? { ReceiveGrows(n.replica.clock, Decode(clock).hlc, pt); }
    case OpsBatch(wire) =>
      if Admitted(crypto, n.keys, wire).Some? && Admitted(crypto, n.keys, wire).value != [] {
        ReceiveGrows(n.replica.clock, MaxHlc(Admitted(crypto, n.keys, wire).value), pt);
      }
    case _ =>
  }

  lemma StepRises(net: Net, crypto: Crypto, step: Step, d: Device)
    requires Enabled(net, step) && d in net.nodes
    ensures d in Next(net, crypto, step).nodes && Risen(net.nodes[d], Next(net, crypto, step).nodes[d])
  {
    hide Received, MakeLocalOps, ChunkMsgs, Compaction.Compact, LatestClock, FrontierAfter, CellsAfter;
    match step
    case Deliver(x, y, pt) => ReceivedRises(net.nodes[y], crypto, Queue(net, x, y)[0], pt);
    case LocalWrite(e, drafts) =>
      var n := net.nodes[e];
      ClockRange.MadeRange(n.replica.clock, n.id, drafts, AuthorOf(crypto, n.cipher, n.deviceKey.privateKey));
    case CompactLog(e, gc) => Compaction.CompactKeeps(net.nodes[e].replica, gc);
    case SayHello(_) =>
  }

  lemma {:induction false} RunRises(
    nets: seq<Net>, crypto: Crypto, steps: seq<Step>, i: nat, j: nat, d: Device)
    requires Follows(nets, crypto, steps) && i <= j < |nets| && d in nets[i].nodes
    ensures d in nets[j].nodes && Risen(nets[i].nodes[d], nets[j].nodes[d])
    decreases j
  {
    hide Next, Enabled, Truthful, Grounded;
    if i < j {
      RunRises(nets, crypto, steps, i, j - 1, d);
      StepRises(nets[j - 1], crypto, steps[j - 1], d);
    }
  }

  // ---------- where greetings come from ----------

  lemma OnlyHelloIsSaid(n: Node, crypto: Crypto, m: Msg, pt: int)
    ensures forall s <- Received(n, crypto, m, pt).1 | s.body.Hello? :: s == HelloMsg(Received(n, crypto, m, pt).0)
  {
    hide OnHello, OpsSince, Merge, Admitted, HelloMsg, Genuine, WireOf;
    if m.body.Hello? { Quiet.HelloOutcome(n, crypto, m, pt); }
  }

  ghost predicate SaidBy(nets: seq<Net>, n: nat, a: Device, m: Msg) {
    exists k {:trigger nets[k]} :: 0 <= k <= n < |nets| && a in nets[k].nodes && m == HelloMsg(nets[k].nodes[a])
  }

  ghost predicate AllSaid(nets: seq<Net>, n: nat)
    requires n < |nets|
  {
    forall a, b, m | a in nets[n].nodes && b in nets[n].nodes && m in Queue(nets[n], a, b) && m.body.Hello? ::
      SaidBy(nets, n, a, m)
  }

  lemma SaidNow(nets: seq<Net>, n: nat, a: Device)
    requires n < |nets| && a in nets[n].nodes
    ensures SaidBy(nets, n, a, HelloMsg(nets[n].nodes[a]))
  {
  }

  lemma SaidLater(nets: seq<Net>, n: nat, a: Device, m: Msg)
    requires n + 1 < |nets| && SaidBy(nets, n, a, m)
    ensures SaidBy(nets, n + 1, a, m)
  {
  }

  /** What is on a link after a step was there or was just sent; a hello just sent is the sender's own. */
  lemma StepSays(net: Net, crypto: Crypto, step: Step, a: Device, b: Device, m: Msg)
    requires Enabled(net, step) && a in net.nodes && b in net.nodes
    requires m in Queue(Next(net, crypto, step), a, b) && m.body.Hello?
    ensures a in Next(net, crypto, step).nodes
    ensures m in Queue(net, a, b) || m == HelloMsg(Next(net, crypto, step).nodes[a])
  {
    hide Received, Written, Compaction.Compact, HelloMsg, Queue, Update, Popped;
    match step
    case Deliver(x, y, pt) =>
      var queue := Queue(net, x, y);
      var out := Received(net.nodes[y], crypto, queue[0], pt);
      QueuePopped(net, x, y, a, b);
      PoppedNodes(net, x, y);
      QueueUpdated(Popped(net, x, y), y, out, a, b);
      UpdatedNodes(Popped(net, x, y), y, out);
      OnlyHelloIsSaid(net.nodes[y], crypto, queue[0], pt);
      if a == x && b == y && m in queue[1..] { assert m in queue; }
    case LocalWrite(d, drafts) =>
      var out := Written(net.nodes[d], crypto, drafts);
      QueueUpdated(net, d, out, a, b);
      UpdatedNodes(net, d, out);
      NoHelloWritten(net.nodes[d], crypto, drafts);
    case CompactLog(d, gc) => CompactedQueue(net, crypto, d, gc, a, b);
    case SayHello(d) =>
      QueueUpdated(net, d, (net.nodes[d], [HelloMsg(net.nodes[d])]), a, b);
      UpdatedNodes(net, d, (net.nodes[d], [HelloMsg(net.nodes[d])]));
  }

  lemma UpdatedNodes(net: Net, d: Device, out: (Node, seq<Msg>))
    ensures Update(net, d, out).nodes == net.nodes[d := out.0]
  {
  }

  lemma NoHelloWritten(n: Node, crypto: Crypto, drafts: seq<Draft>)
    ensures forall m <- Written(n, crypto, drafts).1 :: m.body.OpsBatch?
  {
    hide MakeLocalOps, Write, WireOf;
  }

  lemma CompactedQueue(net: Net, crypto: Crypto, d: Device, gc: bool, a: Device, b: Device)
    requires d in net.nodes && a in net.nodes
    ensures Queue(Next(net, crypto, CompactLog(d, gc)), a, b) == Queue(net, a, b)
    ensures a in Next(net, crypto, CompactLog(d, gc)).nodes
  {
    hide Compaction.Compact;
  }

  lemma {:induction false} HellosAreSaid(nets: seq<Net>, crypto: Crypto, steps: seq<Step>, n: nat)
    requires Follows(nets, crypto, steps) && nets[0].links == map[] && n < |nets|
    ensures AllSaid(nets, n)
  {
    hide Next, Enabled, Truthful, Grounded, HelloMsg, SaidBy;
    if n > 0 {
      HellosAreSaid(nets, crypto, steps, n - 1);
      assert Enabled(nets[n - 1], steps[n - 1]) && nets[n] == Next(nets[n - 1], crypto, steps[n - 1]);
      Records.NodesAfter(nets[n - 1], crypto, steps[n - 1]);
      forall a, b, m | a in nets[n].nodes && b in nets[n].nodes && m in Queue(nets[n], a, b) && m.body.Hello?
        ensures SaidBy(nets, n, a, m)
      {
        StepSays(nets[n - 1], crypto, steps[n - 1], a, b, m);
        if m in Queue(nets[n - 1], a, b) { SaidLater(nets, n - 1, a, m); } else { SaidNow(nets, n, a); }
      }
    }
  }

  // ---------- what a greeting is for ----------

  /** Step `i` delivers to `b` a hello of `a` that `b` accepts. */
  ghost predicate Accepts(nets: seq<Net>, steps: seq<Step>, i: nat, a: Device, b: Device) {
    && i < |steps| < |nets| && steps[i].Deliver? && steps[i].from == a && steps[i].to == b
    && a in nets[i].nodes && b in nets[i].nodes && Queue(nets[i], a, b) != []
    && var n, m := nets[i].nodes[b], Queue(nets[i], a, b)[0];
      && !Ignored(n, m) && m.body.Hello? && Decode(m.body.clock).Timestamp?
      && ObserveClock(n.replica, Decode(m.body.clock).hlc, steps[i].pt).1.Applied?
  }

  lemma AcceptedRises(n: Node, crypto: Crypto, m: Msg, pt: int)
    requires !Ignored(n, m) && m.body.Hello? && Decode(m.body.clock).Timestamp?
    requires ObserveClock(n.replica, Decode(m.body.clock).hlc, pt).1.Applied?
    ensures PackedHlc(Decode(m.body.clock).hlc) < Packed(Received(n, crypto, m, pt).0.replica.clock)
  {
    hide Decode, LatestClock;
    ReceiveIsLamport(n.replica.clock, Decode(m.body.clock).hlc, pt);
  }

  /** Once `b` has accepted a hello of `a`, everything `b` writes is above everything `a` retained when it said it. */
  lemma GreetedStaysBelow(
    nets: seq<Net>, crypto: Crypto, steps: seq<Step>, i: nat, j: nat, a: Device, b: Device,
    drafts: seq<Draft>, o: Op)
    requires Follows(nets, crypto, steps) && nets[0].links == map[] && Accepts(nets, steps, i, a, b)
    requires i < j < |steps| && steps[j] == LocalWrite(b, drafts) && b in nets[j].nodes
    requires var n := nets[j].nodes[b];
      o in Issued(n.replica, n.id, drafts, AuthorOf(crypto, n.cipher, n.deviceKey.privateKey))
    ensures exists k {:trigger nets[k]} ::
              && 0 <= k <= i && a in nets[k].nodes && Queue(nets[i], a, b)[0] == HelloMsg(nets[k].nodes[a])
              && forall p <- nets[k].nodes[a].replica.log :: Lt(p.hlc, o.hlc)
  {
    hide Next, Truthful, Grounded, HelloMsg, Received, Decode, ObserveClock, MakeLocalOps, Queue, Ignored, AllSaid;
    var m := Queue(nets[i], a, b)[0];
    HellosAreSaid(nets, crypto, steps, i);
    HeadIsSaid(nets, i, a, b);
    var k :| 0 <= k <= i && a in nets[k].nodes && m == HelloMsg(nets[k].nodes[a]);
    HelloIsLatest(nets[k].nodes[a]);
    AcceptedRises(nets[i].nodes[b], crypto, m, steps[i].pt);
    Records.NodesAfter(nets[i], crypto, steps[i]);
    RunRises(nets, crypto, steps, i + 1, j, b);
    var n := nets[j].nodes[b];
    LocalOpsRise(n.replica.clock, n.id, drafts, AuthorOf(crypto, n.cipher, n.deviceKey.privateKey));
    forall p <- nets[k].nodes[a].replica.log ensures Lt(p.hlc, o.hlc) {
      PackedOrder(Decode(m.body.clock).hlc, o.hlc);
    }
  }

  lemma HeadIsSaid(nets: seq<Net>, i: nat, a: Device, b: Device)
    requires i < |nets| && AllSaid(nets, i) && a in nets[i].nodes && b in nets[i].nodes
    requires Queue(nets[i], a, b) != [] && Queue(nets[i], a, b)[0].body.Hello?
    ensures SaidBy(nets, i, a, Queue(nets[i], a, b)[0])
  {
    hide SaidBy, Queue;
    assert Queue(nets[i], a, b)[0] in Queue(nets[i], a, b);
  }
}
