/** A network without new writes falls silent: replicators that deliver, lose and reorder messages as they may
    send only finitely many more. */
module QuietNetwork {
  import opened Hlcs
  import opened Ops
  import opened Replicas
  import Compaction
  import opened OpOrder
  import opened Catchup
  import opened Storage
  import opened Engine
  import opened Sessions
  import opened Replication

  /** One copy of a message on its way to one node. */
  datatype Copy = Copy(to: Device, msg: Msg)

  /** Every message goes out to every member, whomever it is addressed to. */
  datatype Net = Net(members: seq<Device>, nodes: map<Device, Node>, flight: seq<Copy>)

  datatype Step = Deliver(index: nat, pt: int) | Lose(index: nat) | CompactLog(device: Device, gc: bool)

  function Fan(members: seq<Device>, m: Msg): seq<Copy> {
    if members == [] then [] else Fan(members[..|members| - 1], m) + [Copy(members[|members| - 1], m)]
  }

  function FanAll(members: seq<Device>, msgs: seq<Msg>): seq<Copy> {
    if msgs == [] then [] else FanAll(members, msgs[..|msgs| - 1]) + Fan(members, msgs[|msgs| - 1])
  }

  function Without(flight: seq<Copy>, i: nat): seq<Copy>
    requires i < |flight|
  {
    flight[..i] + flight[i + 1..]
  }

  predicate Enabled(net: Net, step: Step) {
    match step
    case Deliver(i, _) => i < |net.flight| && net.flight[i].to in net.nodes
    case Lose(i) => i < |net.flight|
    case CompactLog(d, _) => d in net.nodes
  }

  /** Any message may be next: order is not kept. */
  ghost function Next(net: Net, crypto: Crypto, step: Step): Net
    requires Enabled(net, step)
  {
    match step
    case Deliver(i, pt) =>
      var c := net.flight[i];
      var (q, out) := Received(net.nodes[c.to], crypto, c.msg, pt);
      net.(nodes := net.nodes[c.to := q], flight := Without(net.flight, i) + FanAll(net.members, out))
    case Lose(i) => net.(flight := Without(net.flight, i))
    case CompactLog(d, gc) =>
      net.(nodes := net.nodes[d := net.nodes[d].(replica := Compaction.Compact(net.nodes[d].replica, gc))])
  }

  ghost predicate IsRun(nets: seq<Net>, crypto: Crypto, steps: seq<Step>) {
    && |nets| == |steps| + 1
    && forall i {:trigger steps[i]} | 0 <= i < |steps| ::
         Enabled(nets[i], steps[i]) && nets[i + 1] == Next(nets[i], crypto, steps[i])
  }

  // ---------- what is in circulation ----------

  /** The operations a message carries are among `all`. */
  ghost predicate Carries(m: Msg, all: set<Op>) {
    m.body.OpsBatch? ==> forall w <- m.body.ops | ValidateOp(w).Valid? :: ValidateOp(w).op in all
  }

  ghost predicate Settled(members: seq<Device>, m: Msg, all: set<Op>) {
    m.from in members && Carries(m, all)
  }

  /** `all` holds every operation around, and messages come from members. */
  ghost predicate Quiet(net: Net, all: set<Op>) {
    && (forall i, j | 0 <= i < j < |net.members| :: net.members[i] != net.members[j])
    && (forall d :: d in net.nodes <==> d in net.members)
    && (forall d <- net.nodes :: net.nodes[d].id == d && net.nodes[d].replica.log <= all)
    && (forall c <- net.flight :: c.to in net.members && Settled(net.members, c.msg, all))
  }

  lemma WireCarries(n: Node, to: Option<Device>, ops: seq<Op>, all: set<Op>)
    requires OpSet(ops) <= all
    ensures forall m <- ChunkMsgs(n, to, ops) :: Carries(m, all) && m.from == n.id
  {
    hide Admissible, ValidateOp;
    forall m <- ChunkMsgs(n, to, ops) ensures Carries(m, all) && m.from == n.id {
      var k :| 0 <= k < ChunkCount(|ops|, OPS_PER_MESSAGE) && m == ChunkMsgs(n, to, ops)[k];
      var chunk := Chunk(ops, OPS_PER_MESSAGE, k);
      forall w <- WireOf(chunk) | ValidateOp(w).Valid? ensures ValidateOp(w).op in all {
        var i :| 0 <= i < |chunk| && w == ToWire(chunk[i]);
        ChunkElement(ops, k, i);
        WireIsOp(chunk[i]);
      }
    }
  }

  lemma ChunkElement(ops: seq<Op>, k: nat, i: nat)
    requires k < ChunkCount(|ops|, OPS_PER_MESSAGE) && i < |Chunk(ops, OPS_PER_MESSAGE, k)|
    ensures Chunk(ops, OPS_PER_MESSAGE, k)[i] in OpSet(ops)
  {
  }

  lemma WireIsOp(o: Op)
    requires ValidateOp(ToWire(o)).Valid?
    ensures ValidateOp(ToWire(o)).op == o
  {
    WireDetermines(o);
    ValidateExactly(ToWire(o));
  }

  lemma AdmittedFrom(crypto: Crypto, keys: map<Device, Key>, wire: seq<WireOp>, all: set<Op>)
    requires forall w <- wire | ValidateOp(w).Valid? :: ValidateOp(w).op in all
    requires Admitted(crypto, keys, wire).Some?
    ensures OpSet(Admitted(crypto, keys, wire).value) <= all
  {
    hide ValidateOp, Authentic;
    var ops := Admitted(crypto, keys, wire).value;
    forall o <- OpSet(ops) ensures o in all {
      var i :| 0 <= i < |ops| && ops[i] == o;
      assert wire[i] in wire;
    }
  }

  lemma MergeWithin(r: Replica, ops: seq<Op>, pt: int, all: set<Op>)
    requires r.log <= all && OpSet(ops) <= all
    ensures Merge(r, ops, pt).0.log <= all
  {
    hide ReceiveBatch;
    FreshFrom(r.log, ops);
  }

  /** A message brings nothing into circulation that was not there. */
  lemma ReceivedWithin(n: Node, crypto: Crypto, m: Msg, pt: int, all: set<Op>)
    requires n.replica.log <= all && Carries(m, all)
    ensures var (q, out) := Received(n, crypto, m, pt);
      && q.id == n.id && q.replica.log <= all
      && forall s <- out :: s.from == n.id && Carries(s, all)
  {
    hide OnHello, OnSince, OnOps, Carries, Genuine;
    match m.body
    case Hello(_, _) =>
      HelloWithin(n, crypto, m, pt, all);
    case Since(_) =>
      SinceWithin(n, m, all);
    case OpsBatch(wire) =>
      OpsWithin(n, crypto, m, pt, all);
    case Keys(_) =>
    case Ack(_) =>
  }

  lemma KeysCarry(n: Node, to: Device, all: set<Op>)
    ensures Carries(KeysMsg(n, to), all) && Carries(SinceMsg(n, to), all) && Carries(AckMsg(n, to), all)
    ensures Carries(HelloMsg(n), all)
  {
  }

  lemma SinceWithin(n: Node, m: Msg, all: set<Op>)
    requires n.replica.log <= all && m.body.Since?
    ensures var (q, out) := OnSince(n, m);
      && q.id == n.id && q.replica.log <= all
      && forall s <- out :: s.from == n.id && Carries(s, all)
  {
    hide ChunkMsgs, Carries, OpsSince;
    OpsSinceContents(n.replica.log, m.body.have);
    var q := Recorded(n, m, m.body.have);
    WireCarries(q, Some(m.from), OpsSince(q.replica.log, m.body.have), all);
    KeysCarry(q, m.from, all);
  }

  lemma HelloWithin(n: Node, crypto: Crypto, m: Msg, pt: int, all: set<Op>)
    requires n.replica.log <= all && m.body.Hello?
    ensures var (q, out) := OnHello(n, crypto, m, pt);
      && q.id == n.id && q.replica.log <= all
      && forall s <- out :: s.from == n.id && Carries(s, all)
  {
    hide ObserveClock, Decode, LatestClock;
    KeysCarry(OnHello(n, crypto, m, pt).0, m.from, all);
    match Decode(m.body.clock)
    case Malformed =>
    case Timestamp(h) => ObserveKeepsLog(n.replica, h, pt);
  }

  lemma OpsWithin(n: Node, crypto: Crypto, m: Msg, pt: int, all: set<Op>)
    requires n.replica.log <= all && m.body.OpsBatch? && Carries(m, all)
    ensures var (q, out) := OnOps(n, crypto, m, pt);
      && q.id == n.id && q.replica.log <= all
      && forall s <- out :: s.from == n.id && Carries(s, all)
  {
    hide Merge, Admitted;
    match Admitted(crypto, n.keys, m.body.ops)
    case None =>
    case Some(ops) =>
      AdmittedFrom(crypto, n.keys, m.body.ops, all);
      MergeWithin(n.replica, ops, pt, all);
  }

  // ---------- weights ----------

  /** `n` members, at most `total` operations. */
  datatype Scale = Scale(n: nat, total: nat)

  function OpsWeight(s: Scale): nat { 1 + s.n }

  function SinceWeight(s: Scale): nat { 1 + s.n + s.n * (s.total * OpsWeight(s)) }

  function HelloWeight(s: Scale): nat { 1 + s.n + s.n * SinceWeight(s) }

  /** What meeting a new peer may cost. */
  function GreetWeight(s: Scale): nat { s.n * HelloWeight(s) }

  function Weight(s: Scale, m: Msg): nat {
    match m.body
    case Hello(_, _) => HelloWeight(s)
    case Keys(_) => 1
    case Since(_) => SinceWeight(s)
    case OpsBatch(_) => OpsWeight(s)
    case Ack(_) => 1
  }

  function MsgsWeight(s: Scale, msgs: seq<Msg>): nat {
    if msgs == [] then 0 else MsgsWeight(s, msgs[..|msgs| - 1]) + Weight(s, msgs[|msgs| - 1])
  }

  function FlightWeight(s: Scale, flight: seq<Copy>): nat {
    if flight == [] then 0
    else FlightWeight(s, flight[..|flight| - 1]) + Weight(s, flight[|flight| - 1].msg)
  }

  function MembersOf(members: seq<Device>): set<Device> {
    set d | d in members
  }

  /** The members a node has not met. */
  function Strangers(members: seq<Device>, n: Node): nat {
    |MembersOf(members) - n.peers.Keys|
  }

  function AllStrangers(members: seq<Device>, some: seq<Device>, nodes: map<Device, Node>): nat
    requires forall d <- some :: d in nodes
  {
    if some == [] then 0
    else AllStrangers(members, some[..|some| - 1], nodes) + Strangers(members, nodes[some[|some| - 1]])
  }

  /** What may still happen. */
  function Measure(net: Net, total: nat): nat
    requires forall d <- net.members :: d in net.nodes
  {
    var s := Scale(|net.members|, total);
    FlightWeight(s, net.flight) + GreetWeight(s) * AllStrangers(net.members, net.members, net.nodes)
  }

  lemma {:induction false} FlightAppend(s: Scale, a: seq<Copy>, b: seq<Copy>)
    ensures FlightWeight(s, a + b) == FlightWeight(s, a) + FlightWeight(s, b)
  {
    if b == [] {
      assert a + b == a;
    } else {
      assert (a + b)[..|a + b| - 1] == a + b[..|b| - 1];
      FlightAppend(s, a, b[..|b| - 1]);
    }
  }

  lemma FlightWithout(s: Scale, flight: seq<Copy>, i: nat)
    requires i < |flight|
    ensures FlightWeight(s, flight) == FlightWeight(s, Without(flight, i)) + Weight(s, flight[i].msg)
  {
    assert flight == flight[..i + 1] + flight[i + 1..];
    FlightAppend(s, flight[..i + 1], flight[i + 1..]);
    FlightAppend(s, flight[..i], flight[i + 1..]);
    assert flight[..i + 1][..i] == flight[..i];
  }

  lemma {:induction false} FanWeight(s: Scale, members: seq<Device>, m: Msg)
    ensures FlightWeight(s, Fan(members, m)) == |members| * Weight(s, m)
  {
    hide Weight;
    if members != [] {
      var init := members[..|members| - 1];
      FanWeight(s, init, m);
      FlightAppend(s, Fan(init, m), [Copy(members[|members| - 1], m)]);
      assert FlightWeight(s, [Copy(members[|members| - 1], m)]) == Weight(s, m);
      TimesNext(|init|, Weight(s, m));
    }
  }

  lemma TimesNext(n: int, x: int)
    ensures (n + 1) * x == n * x + x
  {
  }

  lemma TimesSum(n: int, x: int, y: int)
    ensures n * (x + y) == n * x + n * y
  {
  }

  lemma TimesLess(n: nat, x: int, y: int)
    requires x <= y
    ensures n * x <= n * y
  {
  }

  lemma NoFlight(s: Scale)
    ensures FlightWeight(s, []) == 0
  {
  }

  lemma {:induction false} FanAllWeight(s: Scale, members: seq<Device>, msgs: seq<Msg>)
    ensures FlightWeight(s, FanAll(members, msgs)) == |members| * MsgsWeight(s, msgs)
  {
    hide Weight, FlightWeight, Fan;
    if msgs == [] {
      NoFlight(s);
    } else {
      var init, last := msgs[..|msgs| - 1], msgs[|msgs| - 1];
      FanAllWeight(s, members, init);
      FanWeight(s, members, last);
      FlightAppend(s, FanAll(members, init), Fan(members, last));
      TimesSum(|members|, MsgsWeight(s, init), Weight(s, last));
    }
  }

  lemma {:induction false} MsgsAppend(s: Scale, a: seq<Msg>, b: seq<Msg>)
    ensures MsgsWeight(s, a + b) == MsgsWeight(s, a) + MsgsWeight(s, b)
  {
    hide Weight;
    if b == [] {
      assert a + b == a;
    } else {
      assert (a + b)[..|a + b| - 1] == a + b[..|b| - 1];
      MsgsAppend(s, a, b[..|b| - 1]);
    }
  }

  lemma {:induction false} BatchesWeight(s: Scale, msgs: seq<Msg>)
    requires forall m <- msgs :: m.body.OpsBatch?
    ensures MsgsWeight(s, msgs) == |msgs| * OpsWeight(s)
  {
    hide OpsWeight;
    if msgs != [] {
      BatchesWeight(s, msgs[..|msgs| - 1]);
      TimesNext(|msgs| - 1, OpsWeight(s));
    }
  }

  // ---------- a delivery costs less than it saves ----------

  lemma AnswerSize(log: set<Op>, have: Frontier, all: set<Op>)
    requires log <= all
    ensures ChunkCount(|OpsSince(log, have)|, OPS_PER_MESSAGE) <= |OpsSince(log, have)| <= |all|
  {
    SubsetSize(Diff(log, have), all);
  }

  lemma MetMember(members: seq<Device>, n: Node, d: Device, f: Option<Frontier>)
    ensures Strangers(members, n.(peers := n.peers[d := f])) <= Strangers(members, n)
    ensures d in members && d !in n.peers ==>
              Strangers(members, n.(peers := n.peers[d := f])) == Strangers(members, n) - 1
  {
    var before, after := MembersOf(members) - n.peers.Keys, MembersOf(members) - n.peers[d := f].Keys;
    SubsetSize(after, before);
    if d in members && d !in n.peers {
      assert after == before - {d};
    }
  }

  /** What a node owes: the messages it would still send if it met everyone. */
  function Debt(s: Scale, members: seq<Device>, n: Node): nat {
    GreetWeight(s) * Strangers(members, n)
  }

  lemma SamePeers(s: Scale, members: seq<Device>, n: Node, q: Node)
    requires q.peers == n.peers
    ensures Debt(s, members, q) == Debt(s, members, n)
  {
  }

  /** Meeting someone new pays for greeting back. */
  lemma NewPeer(s: Scale, members: seq<Device>, n: Node, q: Node, d: Device)
    requires d in members && d !in n.peers && q.peers == n.peers[d := None]
    ensures Debt(s, members, q) + GreetWeight(s) == Debt(s, members, n)
  {
    hide GreetWeight, Strangers;
    MetMember(members, n, d, None);
    SameStrangers(members, n.(peers := n.peers[d := None]), q);
    TimesNext(Strangers(members, q), GreetWeight(s));
  }

  lemma MoreMet(s: Scale, members: seq<Device>, n: Node, q: Node, d: Device, f: Option<Frontier>)
    requires q.peers == n.peers[d := f]
    ensures Debt(s, members, q) <= Debt(s, members, n)
  {
    hide GreetWeight, Strangers;
    MetMember(members, n, d, f);
    SameStrangers(members, n.(peers := n.peers[d := f]), q);
    TimesLess(GreetWeight(s), Strangers(members, q), Strangers(members, n));
  }

  lemma HelloOutcome(n: Node, crypto: Crypto, m: Msg, pt: int)
    requires m.body.Hello?
    ensures var (q, out) := OnHello(n, crypto, m, pt);
      || (q.peers == n.peers && out == [])
      || (q.peers == n.peers && out == [KeysMsg(q, m.from), SinceMsg(q, m.from)])
      || (m.from !in n.peers && q.peers == n.peers[m.from := None]
            && out == [HelloMsg(q), KeysMsg(q, m.from), SinceMsg(q, m.from)])
  {
    hide ObserveClock, Decode, HelloMsg, KeysMsg, SinceMsg;
  }

  lemma RepliesWeight(s: Scale, q: Node, d: Device)
    ensures MsgsWeight(s, []) == 0
    ensures MsgsWeight(s, [KeysMsg(q, d), SinceMsg(q, d)]) == 1 + SinceWeight(s)
    ensures MsgsWeight(s, [HelloMsg(q), KeysMsg(q, d), SinceMsg(q, d)]) == HelloWeight(s) + 1 + SinceWeight(s)
  {
    hide SinceWeight, HelloWeight;
    var two, three := [KeysMsg(q, d), SinceMsg(q, d)], [HelloMsg(q), KeysMsg(q, d), SinceMsg(q, d)];
    assert two[..1] == [KeysMsg(q, d)] && three[..2] == [HelloMsg(q), KeysMsg(q, d)];
    assert three[..2][..1] == [HelloMsg(q)] && two[..1][..0] == [] && three[..2][..1][..0] == [];
    assert MsgsWeight(s, [HelloMsg(q)]) == HelloWeight(s);
    assert MsgsWeight(s, [KeysMsg(q, d)]) == 1;
    assert MsgsWeight(s, three[..2]) == HelloWeight(s) + 1;
  }

  /** The books balance: a hello pays for keys and a question, a stranger for a greeting. */
  lemma HelloBill(s: Scale)
    ensures s.n * 0 == 0
    ensures s.n * (1 + SinceWeight(s)) == HelloWeight(s) - 1
    ensures s.n * (HelloWeight(s) + 1 + SinceWeight(s)) == GreetWeight(s) + HelloWeight(s) - 1
  {
    hide SinceWeight;
    var since, hello := SinceWeight(s), HelloWeight(s);
    TimesSum(s.n, 1, since);
    TimesSum(s.n, hello, 1 + since);
    assert hello + (1 + since) == hello + 1 + since;
  }

  lemma HelloPays(s: Scale, members: seq<Device>, n: Node, crypto: Crypto, m: Msg, pt: int)
    requires m.body.Hello? && s.n == |members| && m.from in members
    ensures var (q, out) := OnHello(n, crypto, m, pt);
      s.n * MsgsWeight(s, out) + Debt(s, members, q) < HelloWeight(s) + Debt(s, members, n)
  {
    hide OnHello, HelloMsg, KeysMsg, SinceMsg, SinceWeight, HelloWeight, GreetWeight, Debt, MsgsWeight;
    var (q, out) := OnHello(n, crypto, m, pt);
    HelloOutcome(n, crypto, m, pt);
    HelloBill(s);
    RepliesWeight(s, q, m.from);
    HelloPositive(s);
    if q.peers == n.peers {
      SamePeers(s, members, n, q);
    } else {
      NewPeer(s, members, n, q, m.from);
    }
  }

  lemma HelloPositive(s: Scale)
    ensures HelloWeight(s) > 0
  {
  }

  /** A question pays for its answer, chunk by chunk. */
  lemma AnswerBill(s: Scale, chunks: nat, keys: nat)
    requires chunks <= s.total && keys <= 1
    ensures s.n * (keys + chunks * OpsWeight(s)) < SinceWeight(s)
  {
    hide OpsWeight;
    TimesLess(OpsWeight(s), chunks, s.total);
    var all := s.total * OpsWeight(s);
    TimesLess(s.n, keys + chunks * OpsWeight(s), 1 + all);
    TimesSum(s.n, 1, all);
  }

  lemma AnswerWeight(s: Scale, q: Node, d: Device, missing: seq<Op>)
    ensures var msgs := ChunkMsgs(q, Some(d), missing);
      && MsgsWeight(s, [] + msgs) == |msgs| * OpsWeight(s)
      && MsgsWeight(s, [KeysMsg(q, d)] + msgs) == 1 + |msgs| * OpsWeight(s)
  {
    hide OpsWeight;
    var msgs := ChunkMsgs(q, Some(d), missing);
    BatchesWeight(s, msgs);
    assert [] + msgs == msgs;
    MsgsAppend(s, [KeysMsg(q, d)], msgs);
    assert MsgsWeight(s, [KeysMsg(q, d)]) == 1;
  }

  lemma SincePays(s: Scale, members: seq<Device>, n: Node, m: Msg, all: set<Op>)
    requires m.body.Since? && n.replica.log <= all && s == Scale(|members|, |all|)
    ensures var (q, out) := OnSince(n, m);
      s.n * MsgsWeight(s, out) + Debt(s, members, q) < SinceWeight(s) + Debt(s, members, n)
  {
    hide OpsWeight, SinceWeight, GreetWeight, Debt, MsgsWeight, OpsSince, KeysMsg;
    var (q, out) := OnSince(n, m);
    var missing := OpsSince(q.replica.log, m.body.have);
    AnswerSize(n.replica.log, m.body.have, all);
    AnswerWeight(s, q, m.from, missing);
    var msgs := ChunkMsgs(q, Some(m.from), missing);
    AnswerBill(s, |msgs|, if missing == [] then 0 else 1);
    MoreMet(s, members, n, q, m.from, Some(m.body.have));
  }

  lemma OpsPay(s: Scale, members: seq<Device>, n: Node, crypto: Crypto, m: Msg, pt: int)
    requires m.body.OpsBatch? && s.n == |members|
    ensures var (q, out) := OnOps(n, crypto, m, pt);
      s.n * MsgsWeight(s, out) + Debt(s, members, q) < OpsWeight(s) + Debt(s, members, n)
  {
    hide Merge, Admitted, Debt;
    var (q, out) := OnOps(n, crypto, m, pt);
    SamePeers(s, members, n, q);
    if out != [] {
      assert out[..0] == [];
      assert MsgsWeight(s, out) == 1;
    }
  }

  /** Whatever a message makes a node send weighs less than the message and the strangers it met. */
  lemma ReceivedPays(s: Scale, members: seq<Device>, n: Node, crypto: Crypto, m: Msg, pt: int, all: set<Op>)
    requires n.replica.log <= all && s == Scale(|members|, |all|) && m.from in members
    ensures var (q, out) := Received(n, crypto, m, pt);
      s.n * MsgsWeight(s, out) + Debt(s, members, q) < Weight(s, m) + Debt(s, members, n)
  {
    hide OnHello, OnSince, OnOps, SinceWeight, HelloWeight, GreetWeight, Debt, OpsWeight, Genuine;
    assert MsgsWeight(s, []) == 0;
    WeightPositive(s, m);
    var (q, out) := Received(n, crypto, m, pt);
    if Ignored(n, m) {
    } else {
      match m.body
      case Hello(_, _) => HelloPays(s, members, n, crypto, m, pt);
      case Keys(_) => SamePeers(s, members, n, q);
      case Since(_) => SincePays(s, members, n, m, all);
      case OpsBatch(_) => OpsPay(s, members, n, crypto, m, pt);
      case Ack(f) => MoreMet(s, members, n, q, m.from, Some(f));
    }
  }

  lemma WeightPositive(s: Scale, m: Msg)
    ensures Weight(s, m) > 0
  {
  }

  // ---------- the network ----------

  lemma {:induction false} StrangersOf(
    members: seq<Device>, some: seq<Device>, nodes: map<Device, Node>, d: Device, q: Node)
    requires forall e <- some :: e in nodes
    requires forall i, j | 0 <= i < j < |some| :: some[i] != some[j]
    ensures d !in some ==> AllStrangers(members, some, nodes[d := q]) == AllStrangers(members, some, nodes)
    ensures d in some ==>
      (AllStrangers(members, some, nodes[d := q]) + Strangers(members, nodes[d])
       == AllStrangers(members, some, nodes) + Strangers(members, q))
  {
    hide Strangers;
    if some != [] {
      var init := some[..|some| - 1];
      assert some == init + [some[|some| - 1]];
      StrangersOf(members, init, nodes, d, q);
    }
  }

  lemma DebtMoves(s: Scale, members: seq<Device>, nodes: map<Device, Node>, d: Device, q: Node)
    requires forall e <- members :: e in nodes
    requires forall i, j | 0 <= i < j < |members| :: members[i] != members[j]
    requires d in members
    ensures GreetWeight(s) * AllStrangers(members, members, nodes[d := q]) - Debt(s, members, q)
         == GreetWeight(s) * AllStrangers(members, members, nodes) - Debt(s, members, nodes[d])
  {
    hide GreetWeight, Strangers;
    StrangersOf(members, members, nodes, d, q);
    var g: int, was: int := GreetWeight(s), AllStrangers(members, members, nodes);
    var x: int, y: int := Strangers(members, nodes[d]), Strangers(members, q);
    TimesSum(g, was - x, y);
    TimesSum(g, was, -x);
    TimesSum(g, x, -x);
  }

  lemma {:induction false} FanSettled(members: seq<Device>, some: seq<Device>, m: Msg, all: set<Op>)
    requires Settled(members, m, all) && forall d <- some :: d in members
    ensures forall c <- Fan(some, m) :: c.to in members && Settled(members, c.msg, all)
  {
    if some != [] { FanSettled(members, some[..|some| - 1], m, all); }
  }

  lemma {:induction false} FanAllSettled(members: seq<Device>, msgs: seq<Msg>, all: set<Op>)
    requires forall m <- msgs :: Settled(members, m, all)
    ensures forall c <- FanAll(members, msgs) :: c.to in members && Settled(members, c.msg, all)
  {
    hide Settled;
    if msgs != [] {
      FanAllSettled(members, msgs[..|msgs| - 1], all);
      FanSettled(members, members, msgs[|msgs| - 1], all);
    }
  }

  lemma WithoutElements(flight: seq<Copy>, i: nat)
    requires i < |flight|
    ensures forall c <- Without(flight, i) :: c in flight
  {
  }

  /** Quiet stays quiet. */
  lemma StepQuiet(net: Net, crypto: Crypto, step: Step, all: set<Op>)
    requires Quiet(net, all) && Enabled(net, step)
    ensures Quiet(Next(net, crypto, step), all)
  {
    hide Received, Carries, Compaction.Compact;
    match step
    case Deliver(i, pt) =>
      var c := net.flight[i];
      ReceivedWithin(net.nodes[c.to], crypto, c.msg, pt, all);
      FanAllSettled(net.members, Received(net.nodes[c.to], crypto, c.msg, pt).1, all);
      WithoutElements(net.flight, i);
    case Lose(i) => WithoutElements(net.flight, i);
    case CompactLog(d, gc) => Compaction.CompactKeeps(net.nodes[d].replica, gc);
  }

  lemma DeliverShrinks(net: Net, crypto: Crypto, i: nat, pt: int, all: set<Op>)
    requires Quiet(net, all) && Enabled(net, Deliver(i, pt))
    requires Quiet(Next(net, crypto, Deliver(i, pt)), all)
    ensures Measure(Next(net, crypto, Deliver(i, pt)), |all|) < Measure(net, |all|)
  {
    hide Received, Carries, GreetWeight, Debt, FlightWeight, AllStrangers, MsgsWeight, Weight, Without, FanAll;
    var s, c := Scale(|net.members|, |all|), net.flight[i];
    var (q, out) := Received(net.nodes[c.to], crypto, c.msg, pt);
    ReceivedPays(s, net.members, net.nodes[c.to], crypto, c.msg, pt, all);
    FlightWithout(s, net.flight, i);
    FlightAppend(s, Without(net.flight, i), FanAll(net.members, out));
    FanAllWeight(s, net.members, out);
    DebtMoves(s, net.members, net.nodes, c.to, q);
  }

  lemma LoseShrinks(net: Net, crypto: Crypto, i: nat, all: set<Op>)
    requires Quiet(net, all) && Enabled(net, Lose(i))
    ensures Measure(Next(net, crypto, Lose(i)), |all|) < Measure(net, |all|)
  {
    hide Carries, GreetWeight, FlightWeight, AllStrangers, Weight, Without;
    FlightWithout(Scale(|net.members|, |all|), net.flight, i);
    WeightPositive(Scale(|net.members|, |all|), net.flight[i].msg);
  }

  lemma CompactKeepsMeasure(net: Net, crypto: Crypto, d: Device, gc: bool, all: set<Op>)
    requires Quiet(net, all) && Enabled(net, CompactLog(d, gc))
    ensures Measure(Next(net, crypto, CompactLog(d, gc)), |all|) == Measure(net, |all|)
  {
    hide Carries, GreetWeight, FlightWeight, Strangers, AllStrangers, Compaction.Compact;
    var n := net.nodes[d];
    var q := n.(replica := Compaction.Compact(n.replica, gc));
    SameStrangers(net.members, n, q);
    StrangersOf(net.members, net.members, net.nodes, d, q);
  }

  lemma SameStrangers(members: seq<Device>, n: Node, q: Node)
    requires q.peers == n.peers
    ensures Strangers(members, q) == Strangers(members, n)
  {
  }

  /** How many messages were delivered or lost. */
  function Moves(steps: seq<Step>): nat {
    if steps == [] then 0
    else Moves(steps[..|steps| - 1]) + if steps[|steps| - 1].CompactLog? then 0 else 1
  }

  lemma StepMoves(net: Net, crypto: Crypto, step: Step, all: set<Op>)
    requires Quiet(net, all) && Enabled(net, step)
    ensures Quiet(Next(net, crypto, step), all)
    ensures Measure(Next(net, crypto, step), |all|) + (if step.CompactLog? then 0 else 1) <= Measure(net, |all|)
  {
    hide Measure, Next, Carries;
    StepQuiet(net, crypto, step, all);
    match step
    case Deliver(i, pt) => DeliverShrinks(net, crypto, i, pt, all);
    case Lose(i) => LoseShrinks(net, crypto, i, all);
    case CompactLog(d, gc) => CompactKeepsMeasure(net, crypto, d, gc, all);
  }

  /** However messages are delivered, reordered and lost, and whoever compacts in between: a network that was
      not written to handles no more messages than its measure says. */
  lemma {:induction false} QuietNetworksFallSilent(nets: seq<Net>, crypto: Crypto, steps: seq<Step>, all: set<Op>)
    requires IsRun(nets, crypto, steps) && Quiet(nets[0], all)
    ensures Quiet(nets[|steps|], all)
    ensures Moves(steps) + Measure(nets[|steps|], |all|) <= Measure(nets[0], |all|)
  {
    hide Measure, Next, Carries, Enabled;
    if steps != [] {
      var n := |steps| - 1;
      assert IsRun(nets[..n + 1], crypto, steps[..n]) by {
        forall i | 0 <= i < n
          ensures Enabled(nets[..n + 1][i], steps[..n][i])
               && nets[..n + 1][i + 1] == Next(nets[..n + 1][i], crypto, steps[..n][i])
        {
          assert Enabled(nets[i], steps[i]) && nets[i + 1] == Next(nets[i], crypto, steps[i]);
        }
      }
      QuietNetworksFallSilent(nets[..n + 1], crypto, steps[..n], all);
      StepMoves(nets[n], crypto, steps[n], all);
    }
  }
}
