/** Every session can be played to its end: whatever replicas start from, they can greet and deliver until the
    links are empty, and then everyone holds everything. */
module Completion {
  import opened Texts
  import opened Hlcs
  import opened Clocks
  import opened Json
  import opened Ops
  import opened Replicas
  import opened OpOrder
  import opened Storage
  import opened Engine
  import opened Sessions
  import opened Replication
  import opened Links
  import opened Reunion
  import Quiet = QuietNetwork
  import Sizes
  import Utf8

  /** Packed clocks below this are in range. */
  const ROOM := (MAX_MILLIS + 1) * 65536

  // ---------- how much there is to deliver ----------

  function Sum(f: Device -> nat, some: seq<Device>): nat {
    if some == [] then 0 else Sum(f, some[..|some| - 1]) + f(some[|some| - 1])
  }

  predicate Distinct(some: seq<Device>) {
    forall i, j | 0 <= i < j < |some| :: some[i] != some[j]
  }

  lemma {:induction false} SumGains(f: Device -> nat, g: Device -> nat, some: seq<Device>, more: nat)
    requires forall b <- some :: g(b) <= f(b) + more
    ensures Sum(g, some) <= Sum(f, some) + |some| * more
  {
    if some != [] {
      SumGains(f, g, some[..|some| - 1], more);
      Quiet.TimesNext(|some| - 1, more);
    }
  }

  /** One summand falls, one rises, none of the others rises. */
  lemma {:induction false} SumMoves(
    f: Device -> nat, g: Device -> nat, some: seq<Device>, x: Device, less: nat, y: Device, more: nat)
    requires Distinct(some) && x != y
    requires forall b <- some | b != x && b != y :: g(b) <= f(b)
    requires g(x) + less <= f(x) && g(y) <= f(y) + more
    ensures Sum(g, some) + (if x in some then less else 0) <= Sum(f, some) + more
    ensures y !in some ==> Sum(g, some) + (if x in some then less else 0) <= Sum(f, some)
  {
    if some != [] {
      var init := some[..|some| - 1];
      assert some == init + [some[|some| - 1]];
      SumMoves(f, g, init, x, less, y, more);
    }
  }

  /** What a node may hear of itself does not count. */
  function LinkWeight(s: Quiet.Scale, net: Net, a: Device, b: Device): nat {
    if a == b then 0 else Quiet.MsgsWeight(s, Queue(net, a, b))
  }

  function RowWeight(s: Quiet.Scale, net: Net, members: seq<Device>, a: Device): nat {
    Sum(b => LinkWeight(s, net, a, b), members)
  }

  function NetWeight(s: Quiet.Scale, net: Net, members: seq<Device>): nat {
    Sum(a => RowWeight(s, net, members, a), members)
  }

  ghost predicate Lists(members: seq<Device>, net: Net) {
    Distinct(members) && forall d :: d in net.nodes <==> d in members
  }

  ghost function Unmet(net: Net, members: seq<Device>): nat
    requires Lists(members, net)
  {
    Quiet.AllStrangers(members, members, net.nodes)
  }

  /** What may still happen: what is on the links, what strangers will still say, who has not said hello. */
  ghost function Budget(net: Net, members: seq<Device>, total: nat, greeted: set<Device>): nat
    requires Lists(members, net)
  {
    var s := Quiet.Scale(|members|, total);
    NetWeight(s, net, members) + Owed(Quiet.GreetWeight(s), Unmet(net, members), |net.nodes.Keys - greeted|)
  }

  function Owed(greeting: nat, strangers: nat, silent: nat): nat {
    greeting * strangers + (greeting + 1) * silent
  }

  lemma PoppedWeight(s: Quiet.Scale, q: seq<Msg>)
    requires q != []
    ensures Quiet.MsgsWeight(s, q[1..]) + Quiet.Weight(s, q[0]) == Quiet.MsgsWeight(s, q)
  {
    assert q == [q[0]] + q[1..];
    Quiet.MsgsAppend(s, [q[0]], q[1..]);
    assert Quiet.MsgsWeight(s, [q[0]]) == Quiet.Weight(s, q[0]);
  }

  /** A delivery takes one message off and puts the answer on the links of the receiver. */
  lemma DeliverLinks(s: Quiet.Scale, net: Net, x: Device, y: Device, q: Node, out: seq<Msg>, a: Device, b: Device)
    requires x != y && a != b && b in net.nodes && Queue(net, x, y) != []
    ensures LinkWeight(s, Reunion.After(net, x, y, q, out), a, b) ==
              if a == x && b == y then LinkWeight(s, net, a, b) - Quiet.Weight(s, Queue(net, x, y)[0])
              else if a == y then LinkWeight(s, net, a, b) + Quiet.MsgsWeight(s, out)
              else LinkWeight(s, net, a, b)
  {
    hide Quiet.MsgsWeight, Quiet.Weight, Reunion.After, Queue;
    QueueAfter(net, x, y, q, out, a, b);
    PoppedWeight(s, Queue(net, x, y));
    if a == y { Quiet.MsgsAppend(s, Queue(net, a, b), out); }
  }

  lemma DeliverRow(
    s: Quiet.Scale, net: Net, members: seq<Device>, x: Device, y: Device, q: Node, out: seq<Msg>, a: Device)
    requires Lists(members, net) && x in net.nodes && y in net.nodes && x != y && Queue(net, x, y) != []
    requires a in members
    ensures RowWeight(s, Reunion.After(net, x, y, q, out), members, a)
              + (if a == x then Quiet.Weight(s, Queue(net, x, y)[0]) else 0)
         <= RowWeight(s, net, members, a) + if a == y then |members| * Quiet.MsgsWeight(s, out) else 0
  {
    hide Quiet.MsgsWeight, Quiet.Weight, Reunion.After, Queue, Sum;
    var v, w, g := Reunion.After(net, x, y, q, out), Quiet.Weight(s, Queue(net, x, y)[0]), Quiet.MsgsWeight(s, out);
    forall b | b in members && a != b { DeliverLinks(s, net, x, y, q, out, a, b); }
    if a == x {
      SumMoves(b => LinkWeight(s, net, a, b), b => LinkWeight(s, v, a, b), members, y, w, x, 0);
    } else {
      SumGains(b => LinkWeight(s, net, a, b), b => LinkWeight(s, v, a, b), members, if a == y then g else 0);
    }
  }

  lemma DeliverWeight(s: Quiet.Scale, net: Net, members: seq<Device>, x: Device, y: Device, q: Node, out: seq<Msg>)
    requires Lists(members, net) && x in net.nodes && y in net.nodes && x != y && Queue(net, x, y) != []
    ensures NetWeight(s, Reunion.After(net, x, y, q, out), members) + Quiet.Weight(s, Queue(net, x, y)[0])
         <= NetWeight(s, net, members) + |members| * Quiet.MsgsWeight(s, out)
  {
    hide Quiet.MsgsWeight, Quiet.Weight, Reunion.After, Queue, Sum, RowWeight;
    var v := Reunion.After(net, x, y, q, out);
    DeliverRow(s, net, members, x, y, q, out, x);
    DeliverRow(s, net, members, x, y, q, out, y);
    forall a | a in members && a != x && a != y
      ensures RowWeight(s, v, members, a) <= RowWeight(s, net, members, a)
    {
      DeliverRow(s, net, members, x, y, q, out, a);
    }
    SumMoves(a => RowWeight(s, net, members, a), a => RowWeight(s, v, members, a), members,
             x, Quiet.Weight(s, Queue(net, x, y)[0]), y, |members| * Quiet.MsgsWeight(s, out));
  }

  /** A hello goes out on the links of one node. */
  lemma GreetCosts(s: Quiet.Scale, net: Net, members: seq<Device>, d: Device, hello: Msg)
    requires Lists(members, net) && d in net.nodes && hello.body.Hello? && s.n == |members|
    ensures NetWeight(s, Update(net, d, (net.nodes[d], [hello])), members)
         <= NetWeight(s, net, members) + Quiet.GreetWeight(s)
  {
    hide Queue, Update, Sum, RowWeight, Quiet.GreetWeight, Quiet.MsgsWeight, Quiet.HelloWeight;
    var v, g := Update(net, d, (net.nodes[d], [hello])), Quiet.HelloWeight(s);
    forall a | a in members
      ensures RowWeight(s, v, members, a) <= RowWeight(s, net, members, a) + if a == d then |members| * g else 0
    {
      GreetRow(s, net, members, d, hello, a);
    }
    Greeting(s);
    OneRises(s, net, v, members, d, |members| * g);
  }

  lemma Greeting(s: Quiet.Scale)
    ensures Quiet.GreetWeight(s) == s.n * Quiet.HelloWeight(s)
  {
  }

  lemma HelloAlone(s: Quiet.Scale, hello: Msg)
    requires hello.body.Hello?
    ensures Quiet.MsgsWeight(s, [hello]) == Quiet.HelloWeight(s)
  {
    hide Quiet.HelloWeight;
    assert [hello][..0] == [];
  }

  lemma GreetRow(s: Quiet.Scale, net: Net, members: seq<Device>, d: Device, hello: Msg, a: Device)
    requires Lists(members, net) && d in net.nodes && hello.body.Hello? && a in members
    ensures RowWeight(s, Update(net, d, (net.nodes[d], [hello])), members, a)
         <= RowWeight(s, net, members, a) + if a == d then |members| * Quiet.HelloWeight(s) else 0
  {
    hide Queue, Update, Sum, Quiet.MsgsWeight, Quiet.HelloWeight;
    var v, g := Update(net, d, (net.nodes[d], [hello])), Quiet.HelloWeight(s);
    HelloAlone(s, hello);
    forall b | b in members
      ensures LinkWeight(s, v, a, b) <= LinkWeight(s, net, a, b) + if a == d then g else 0
    {
      QueueUpdated(net, d, (net.nodes[d], [hello]), a, b);
      if a == d { Quiet.MsgsAppend(s, Queue(net, a, b), [hello]); }
    }
    SumGains(b => LinkWeight(s, net, a, b), b => LinkWeight(s, v, a, b), members, if a == d then g else 0);
  }

  lemma OneRises(s: Quiet.Scale, net: Net, v: Net, members: seq<Device>, d: Device, more: nat)
    requires Distinct(members)
    requires forall a | a in members && a != d :: RowWeight(s, v, members, a) <= RowWeight(s, net, members, a)
    requires RowWeight(s, v, members, d) <= RowWeight(s, net, members, d) + more
    ensures NetWeight(s, v, members) <= NetWeight(s, net, members) + more
  {
    hide RowWeight;
    SumRises(a => RowWeight(s, net, members, a), a => RowWeight(s, v, members, a), members, d, more);
  }

  lemma {:induction false} SumRises(f: Device -> nat, g: Device -> nat, some: seq<Device>, y: Device, more: nat)
    requires Distinct(some) && g(y) <= f(y) + more && forall b <- some | b != y :: g(b) <= f(b)
    ensures Sum(g, some) <= Sum(f, some) + more
    ensures y !in some ==> Sum(g, some) <= Sum(f, some)
  {
    if some != [] {
      assert some == some[..|some| - 1] + [some[|some| - 1]];
      SumRises(f, g, some[..|some| - 1], y, more);
    }
  }

  // ---------- clocks in range ----------

  /** Greetings carry timestamps no later than `limit`. */
  ghost predicate EarlyHellos(q: seq<Msg>, limit: nat) {
    forall m <- q | m.body.Hello? :: Decode(m.body.clock).Timestamp? && PackedHlc(Decode(m.body.clock).hlc) <= limit
  }

  ghost predicate Early(all: set<Op>, limit: nat) {
    forall o <- all :: PackedHlc(o.hlc) <= limit
  }

  /** Nothing around is later than `limit`. */
  ghost predicate Timely(net: Net, all: set<Op>, limit: nat) {
    && Early(all, limit)
    && (forall d <- net.nodes :: Packed(net.nodes[d].replica.clock) <= limit)
    && forall a, b | a in net.nodes && b in net.nodes && a != b :: EarlyHellos(Queue(net, a, b), limit)
  }

  /** A wall clock that finds nothing before `limit` too far ahead. */
  function Wall(limit: nat): (pt: nat)
    ensures pt * 65536 <= limit < (pt + 1) * 65536
  {
    limit / 65536
  }

  lemma InTime(c: Clock, h: Hlc, limit: nat)
    requires Packed(c) <= limit && PackedHlc(h) <= limit && limit + 1 < ROOM
    ensures Receive(c, h, Wall(limit)).Ticked? && Packed(Receive(c, h, Wall(limit)).clock) <= limit + 1
  {
    ReceiveIsLamport(c, h, Wall(limit));
  }

  lemma MergeInTime(r: Replica, ops: seq<Op>, all: set<Op>, limit: nat)
    requires Packed(r.clock) <= limit && OpSet(ops) <= all && Early(all, limit) && limit + 1 < ROOM
    ensures Merge(r, ops, Wall(limit)).1.Applied? && Packed(Merge(r, ops, Wall(limit)).0.clock) <= limit + 1
  {
    hide Receive, Wall;
    if ops != [] {
      var h := MaxHlc(ops);
      var o :| o in ops && o.hlc == h;
      assert o in OpSet(ops);
      InTime(r.clock, o.hlc, limit);
    }
  }

  lemma ReceivedInTime(n: Node, crypto: Crypto, m: Msg, all: set<Op>, limit: nat)
    requires Packed(n.replica.clock) <= limit && Early(all, limit) && limit + 1 < ROOM && EarlyHellos([m], limit)
    requires m.body.OpsBatch? ==> m.to.Some?
    requires OpsFor(m, n.id) ==> Carried(m.body.ops) <= all
    ensures Accepted(n, crypto, m, Wall(limit))
    ensures Packed(Received(n, crypto, m, Wall(limit)).0.replica.clock) <= limit + 1
  {
    hide Merge, Admitted, Carried, Early, Receive, Wall, Decode, Genuine;
    assert m in [m];
    match m.body
    case Hello(clock, _) => InTime(n.replica.clock, Decode(clock).hlc, limit);
    case OpsBatch(wire) =>
      if OpsFor(m, n.id) && Admitted(crypto, n.keys, wire).Some? {
        AdmittedCarried(crypto, n.keys, wire);
        MergeInTime(n.replica, Admitted(crypto, n.keys, wire).value, all, limit);
      }
    case _ =>
  }

  lemma HelloEarly(q: Node, all: set<Op>, limit: nat)
    requires q.replica.log <= all && Early(all, limit)
    ensures EarlyHellos([HelloMsg(q)], limit)
  {
    hide OpsSince, Encode, Decode;
    var ops := OpsSince(q.replica.log, map[]);
    OpsSinceContents(q.replica.log, map[]);
    if ops == [] {
      DecodeEncode(Hlc(0, 0, q.id));
    } else {
      assert ops[|ops| - 1] in OpSet(ops);
      DecodeEncode(ops[|ops| - 1].hlc);
    }
  }

  lemma NoHellos(out: seq<Msg>, limit: nat)
    requires forall m <- out :: !m.body.Hello?
    ensures EarlyHellos(out, limit)
  {
  }

  lemma OutEarly(n: Node, crypto: Crypto, m: Msg, pt: int, all: set<Op>, limit: nat)
    requires Received(n, crypto, m, pt).0.replica.log <= all && Early(all, limit)
    ensures EarlyHellos(Received(n, crypto, m, pt).1, limit)
  {
    hide OnHello, OpsSince, Merge, Admitted, HelloMsg, Early, Genuine;
    var (q, out) := Received(n, crypto, m, pt);
    if m.body.Hello? && !Ignored(n, m) {
      Quiet.HelloOutcome(n, crypto, m, pt);
      HelloEarly(q, all, limit);
      if out != [] && out[0] == HelloMsg(q) { assert out[0] in [HelloMsg(q)]; }
    } else {
      NoHellos(out, limit);
    }
  }

  // ---------- one step on ----------

  lemma EarlyAppend(q: seq<Msg>, out: seq<Msg>, limit: nat)
    requires EarlyHellos(q, limit) && EarlyHellos(out, limit)
    ensures EarlyHellos(q + out, limit)
  {
  }

  lemma EarlyLater(q: seq<Msg>, limit: nat, later: nat)
    requires EarlyHellos(q, limit) && limit <= later
    ensures EarlyHellos(q, later) && (q != [] ==> EarlyHellos(q[1..], later) && EarlyHellos([q[0]], limit))
  {
  }

  lemma TimelyAfter(net: Net, x: Device, y: Device, q: Node, out: seq<Msg>, all: set<Op>, limit: nat)
    requires Timely(net, all, limit) && x in net.nodes && y in net.nodes && x != y && Queue(net, x, y) != []
    requires Packed(q.replica.clock) <= limit + 1 && EarlyHellos(out, limit)
    ensures Timely(Reunion.After(net, x, y, q, out), all, limit + 1)
  {
    hide EarlyHellos, Queue, Popped, Update;
    var v := Reunion.After(net, x, y, q, out);
    AfterNodes(net, x, y, q, out);
    EarlyLater(out, limit, limit + 1);
    forall a, b | a in v.nodes && b in v.nodes && a != b ensures EarlyHellos(Queue(v, a, b), limit + 1) {
      QueueAfter(net, x, y, q, out, a, b);
      EarlyLater(Queue(net, a, b), limit, limit + 1);
      if a == y { EarlyAppend(Queue(net, a, b), out, limit + 1); }
    }
  }

  /** Whoever is in a meeting has the head of a queue accepted at a suitable time. */
  lemma HeadInTime(net: Net, crypto: Crypto, known: set<Key>, space: Text, all: set<Op>, start: map<Device, set<Op>>,
                   greeted: set<Device>, limit: nat, x: Device, y: Device)
    requires Meeting(net, all, start, greeted) && Inv(net, crypto, known, space) && CollisionFree(crypto, known)
    requires Timely(net, all, limit) && limit + 1 < ROOM
    requires x in net.nodes && y in net.nodes && x != y && Queue(net, x, y) != []
    ensures Accepted(net.nodes[y], crypto, Queue(net, x, y)[0], Wall(limit))
    ensures Timely(Next(net, crypto, Deliver(x, y, Wall(limit))), all, limit + 1)
  {
    hide Meeting, Inv, CollisionFree, EarlyHellos, Admitted, Admissible, Closed, Carried, Accepted, Received, Wall;
    hide Asked, Effect, Queue, Update, Popped;
    var n, m := net.nodes[y], Queue(net, x, y)[0];
    var (q, out) := Received(n, crypto, m, Wall(limit));
    HeadIsReady(net, crypto, known, space, all, start, greeted, x, y);
    EarlyLater(Queue(net, x, y), limit, limit);
    ReceivedInTime(n, crypto, m, all, limit);
    DeliverKeepsMeeting(net, crypto, known, space, all, start, greeted, x, y, Wall(limit));
    AfterNodes(net, x, y, q, out);
    LogWithin(Next(net, crypto, Deliver(x, y, Wall(limit))), all, start, greeted, y);
    OutEarly(n, crypto, m, Wall(limit), all, limit);
    TimelyAfter(net, x, y, q, out, all, limit);
  }

  lemma LogWithin(net: Net, all: set<Op>, start: map<Device, set<Op>>, greeted: set<Device>, d: Device)
    requires Meeting(net, all, start, greeted) && d in net.nodes
    ensures net.nodes[d].replica.log <= all
  {
    hide LinkIs;
    assert HoldsStart(net, all, start, d);
  }

  lemma DeliverSpends(net: Net, crypto: Crypto, all: set<Op>, greeted: set<Device>, members: seq<Device>,
                      x: Device, y: Device, pt: int)
    requires Lists(members, net) && x in net.nodes && y in net.nodes && x != y && Queue(net, x, y) != []
    requires net.nodes[y].replica.log <= all && Queue(net, x, y)[0].from in members
    ensures var v := Next(net, crypto, Deliver(x, y, pt));
      Lists(members, v) && Budget(v, members, |all|, greeted) < Budget(net, members, |all|, greeted)
  {
    hide Received, Queue, NetWeight, Quiet.GreetWeight, Quiet.Debt, Quiet.AllStrangers, Quiet.MsgsWeight, Quiet.Weight;
    hide Update, Popped;
    var s, n, m := Quiet.Scale(|members|, |all|), net.nodes[y], Queue(net, x, y)[0];
    var (q, out) := Received(n, crypto, m, pt);
    AfterNodes(net, x, y, q, out);
    Quiet.ReceivedPays(s, members, n, crypto, m, pt, all);
    DeliverWeight(s, net, members, x, y, q, out);
    Quiet.DebtMoves(s, members, net.nodes, y, q);
    assert net.nodes[y := q].Keys == net.nodes.Keys;
  }

  lemma GreetSpends(net: Net, crypto: Crypto, all: set<Op>, greeted: set<Device>, members: seq<Device>, d: Device)
    requires Lists(members, net) && d in net.nodes && d !in greeted
    ensures var v := Next(net, crypto, SayHello(d));
      Lists(members, v) && Budget(v, members, |all|, greeted + {d}) < Budget(net, members, |all|, greeted)
  {
    hide Queue, NetWeight, Quiet.GreetWeight, Quiet.AllStrangers, LatestClock;
    var s := Quiet.Scale(|members|, |all|);
    var v := Next(net, crypto, SayHello(d));
    assert v.nodes == net.nodes;
    GreetCosts(s, net, members, d, HelloMsg(net.nodes[d]));
    assert net.nodes.Keys - (greeted + {d}) == (net.nodes.Keys - greeted) - {d};
    OneLess(Quiet.GreetWeight(s), Unmet(net, members), |net.nodes.Keys - greeted|);
  }

  lemma OneLess(g: nat, strangers: nat, silent: nat)
    requires silent > 0
    ensures Owed(g, strangers, silent - 1) + g < Owed(g, strangers, silent)
  {
    Quiet.TimesNext(silent - 1, g + 1);
  }

  lemma GreetInTime(net: Net, crypto: Crypto, all: set<Op>, start: map<Device, set<Op>>, greeted: set<Device>,
                    limit: nat, d: Device)
    requires Meeting(net, all, start, greeted) && Timely(net, all, limit) && d in net.nodes
    ensures Timely(Next(net, crypto, SayHello(d)), all, limit)
  {
    hide Meeting, EarlyHellos, HelloMsg, Queue;
    var v := Next(net, crypto, SayHello(d));
    assert v.nodes == net.nodes;
    LogWithin(net, all, start, greeted, d);
    HelloEarly(net.nodes[d], all, limit);
    forall a, b | a in v.nodes && b in v.nodes && a != b ensures EarlyHellos(Queue(v, a, b), limit) {
      QueueUpdated(net, d, (net.nodes[d], [HelloMsg(net.nodes[d])]), a, b);
      if a == d { EarlyAppend(Queue(net, a, b), [HelloMsg(net.nodes[d])], limit); }
    }
  }

  // ---------- playing a session to its end ----------

  lemma SessionGoesOn(
    nets: seq<Net>, crypto: Crypto, known: set<Key>, space: Text, steps: seq<Step>, all: set<Op>, step: Step)
    requires IsSession(nets, crypto, known, space, steps, all)
    requires Enabled(nets[|steps|], step) && Smooth(nets[|steps|], crypto, step)
    ensures IsSession(nets + [Next(nets[|steps|], crypto, step)], crypto, known, space, steps + [step], all)
    ensures Greeters(steps + [step]) == Greeters(steps) + if step.SayHello? then {step.device} else {}
  {
    hide Initial, CollisionFree, UniqueIds, Whole, Union, Next, Enabled, Smooth, Greeters;
    var ns, ss := nets + [Next(nets[|steps|], crypto, step)], steps + [step];
    GreetersNext(ss, |steps|);
    assert ss[..|steps|] == steps && ss[..|steps| + 1] == ss;
    forall i {:trigger ss[i]} | 0 <= i < |ss|
      ensures Enabled(ns[i], ss[i]) && ns[i + 1] == Next(ns[i], crypto, ss[i]) && Smooth(ns[i], crypto, ss[i])
    {
      if i < |steps| { assert Enabled(nets[i], steps[i]) && Smooth(nets[i], crypto, steps[i]); }
    }
  }

  /** Everyone has said hello, and the links between nodes are empty. */
  ghost predicate Over(net: Net, greeted: set<Device>) {
    && net.nodes.Keys <= greeted
    && forall a, b | a in net.nodes && b in net.nodes && a != b :: Queue(net, a, b) == []
  }

  lemma SessionLength(nets: seq<Net>, crypto: Crypto, known: set<Key>, space: Text, steps: seq<Step>, all: set<Op>)
    requires IsSession(nets, crypto, known, space, steps, all)
    ensures |nets| == |steps| + 1
  {
  }

  lemma SessionNow(nets: seq<Net>, crypto: Crypto, known: set<Key>, space: Text, steps: seq<Step>, all: set<Op>)
    requires IsSession(nets, crypto, known, space, steps, all)
    ensures Meeting(nets[|steps|], all, LogsOf(nets[0]), Greeters(steps)) && Inv(nets[|steps|], crypto, known, space)
    ensures CollisionFree(crypto, known)
  {
    hide Meeting, Inv, CollisionFree, Initial, UniqueIds, Whole, Union, Next, Enabled, Smooth, Greeters, LogsOf;
    SessionKeeps(nets, crypto, known, space, steps, all, |steps|);
    RunInv(nets, crypto, known, space, steps, |steps|);
    assert steps[..|steps|] == steps;
  }

  lemma DeliverStep(
    nets: seq<Net>, crypto: Crypto, known: set<Key>, space: Text, steps: seq<Step>, all: set<Op>,
    members: seq<Device>, limit: nat, x: Device, y: Device)
    requires IsSession(nets, crypto, known, space, steps, all)
    requires var net := nets[|steps|];
      && Lists(members, net) && Timely(net, all, limit) && limit + 1 < ROOM
      && x in net.nodes && y in net.nodes && x != y && Queue(net, x, y) != []
    ensures var step, net := Deliver(x, y, Wall(limit)), nets[|steps|];
      && Enabled(net, step) && Smooth(net, crypto, step)
      && Lists(members, Next(net, crypto, step)) && Timely(Next(net, crypto, step), all, limit + 1)
      && Budget(Next(net, crypto, step), members, |all|, Greeters(steps)) < Budget(net, members, |all|, Greeters(steps))
  {
    hide IsSession, Meeting, Inv, CollisionFree, Budget, Timely, Accepted, Next, Queue, Greeters, LogsOf, Wall;
    hide Asked, Admitted, Closed, Carried, Admissible, Lists;
    SessionLength(nets, crypto, known, space, steps, all);
    var net, start, greeted := nets[|steps|], LogsOf(nets[0]), Greeters(steps);
    SessionNow(nets, crypto, known, space, steps, all);
    HeadInTime(net, crypto, known, space, all, start, greeted, limit, x, y);
    HeadIsReady(net, crypto, known, space, all, start, greeted, x, y);
    LogWithin(net, all, start, greeted, y);
    InMembers(members, net, x);
    DeliverSpends(net, crypto, all, greeted, members, x, y, Wall(limit));
  }

  lemma InMembers(members: seq<Device>, net: Net, d: Device)
    requires Lists(members, net) && d in net.nodes
    ensures d in members
  {
  }

  lemma GreetStep(
    nets: seq<Net>, crypto: Crypto, known: set<Key>, space: Text, steps: seq<Step>, all: set<Op>,
    members: seq<Device>, limit: nat, d: Device)
    requires IsSession(nets, crypto, known, space, steps, all) && d !in Greeters(steps)
    requires var net := nets[|steps|]; Lists(members, net) && Timely(net, all, limit) && d in net.nodes
    ensures var step, net := SayHello(d), nets[|steps|];
      && Lists(members, Next(net, crypto, step)) && Timely(Next(net, crypto, step), all, limit)
      && Budget(Next(net, crypto, step), members, |all|, Greeters(steps) + {d})
       < Budget(net, members, |all|, Greeters(steps))
  {
    hide IsSession, Meeting, Inv, CollisionFree, Budget, Timely, Next, Greeters, LogsOf, Lists;
    SessionLength(nets, crypto, known, space, steps, all);
    var net, start, greeted := nets[|steps|], LogsOf(nets[0]), Greeters(steps);
    SessionNow(nets, crypto, known, space, steps, all);
    GreetInTime(net, crypto, all, start, greeted, limit, d);
    GreetSpends(net, crypto, all, greeted, members, d);
  }

  lemma {:induction false} Play(
    nets: seq<Net>, crypto: Crypto, known: set<Key>, space: Text, steps: seq<Step>, all: set<Op>,
    members: seq<Device>, limit: nat)
    returns (ns: seq<Net>, ss: seq<Step>)
    requires IsSession(nets, crypto, known, space, steps, all)
    requires Lists(members, nets[|steps|]) && Timely(nets[|steps|], all, limit)
    requires limit + Budget(nets[|steps|], members, |all|, Greeters(steps)) + 1 < ROOM
    ensures IsSession(ns, crypto, known, space, ss, all) && ns[0] == nets[0] && Over(ns[|ss|], Greeters(ss))
    decreases Budget(nets[|steps|], members, |all|, Greeters(steps))
  {
    hide IsSession, Timely, Budget, Next, Lists, Queue, Greeters, Accepted, Wall;
    SessionLength(nets, crypto, known, space, steps, all);
    var net := nets[|steps|];
    if d: Device :| d in net.nodes && d !in Greeters(steps) {
      GreetStep(nets, crypto, known, space, steps, all, members, limit, d);
      SessionGoesOn(nets, crypto, known, space, steps, all, SayHello(d));
      ns, ss := Play(nets + [Next(net, crypto, SayHello(d))], crypto, known, space, steps + [SayHello(d)], all,
                     members, limit);
    } else if x: Device, y: Device :| x in net.nodes && y in net.nodes && x != y && Queue(net, x, y) != [] {
      var step := Deliver(x, y, Wall(limit));
      DeliverStep(nets, crypto, known, space, steps, all, members, limit, x, y);
      SessionGoesOn(nets, crypto, known, space, steps, all, step);
      assert Greeters(steps) + {} == Greeters(steps);
      ns, ss := Play(nets + [Next(net, crypto, step)], crypto, known, space, steps + [step], all, members, limit + 1);
    } else {
      ns, ss := nets, steps;
    }
  }

  // ---------- from the start ----------

  lemma {:induction false} MembersSize(members: seq<Device>)
    ensures |Quiet.MembersOf(members)| <= |members|
  {
    if members != [] {
      var init, last := members[..|members| - 1], members[|members| - 1];
      MembersSize(init);
      assert members == init + [last];
      assert Quiet.MembersOf(members) == Quiet.MembersOf(init) + {last};
    }
  }

  lemma {:induction false} StrangersAtMost(members: seq<Device>, some: seq<Device>, nodes: map<Device, Node>)
    requires forall d <- some :: d in nodes
    ensures Quiet.AllStrangers(members, some, nodes) <= |some| * |members|
  {
    if some != [] {
      var n := nodes[some[|some| - 1]];
      MembersSize(members);
      SubsetSize(Quiet.MembersOf(members) - n.peers.Keys, Quiet.MembersOf(members));
      StrangersAtMost(members, some[..|some| - 1], nodes);
      Quiet.TimesNext(|some| - 1, |members|);
    }
  }

  lemma {:induction false} SumNothing(f: Device -> nat, some: seq<Device>)
    requires forall b <- some :: f(b) == 0
    ensures Sum(f, some) == 0
  {
    if some != [] { SumNothing(f, some[..|some| - 1]); }
  }

  lemma NothingWaits(s: Quiet.Scale, net: Net, members: seq<Device>)
    requires net.links == map[]
    ensures NetWeight(s, net, members) == 0
  {
    forall a | a in members ensures RowWeight(s, net, members, a) == 0 {
      SumNothing(b => LinkWeight(s, net, a, b), members);
    }
    SumNothing(a => RowWeight(s, net, members, a), members);
  }

  lemma OwedMost(g: nat, strangers: nat, most: nat, silent: nat)
    requires strangers <= most
    ensures Owed(g, strangers, silent) <= Owed(g, most, silent)
  {
    Quiet.TimesLess(g, strangers, most);
  }

  /** How far clocks may move in a session of `n` replicas with `total` operations between them. */
  function Span(n: nat, total: nat): nat {
    Owed(Quiet.GreetWeight(Quiet.Scale(n, total)), n * n, n) + 1
  }

  lemma StartBudget(net: Net, members: seq<Device>, total: nat)
    requires Lists(members, net) && net.links == map[]
    ensures Budget(net, members, total, {}) + 1 <= Span(|members|, total)
  {
    hide NetWeight, Quiet.GreetWeight, Quiet.AllStrangers, Owed;
    var s := Quiet.Scale(|members|, total);
    NothingWaits(s, net, members);
    StrangersAtMost(members, members, net.nodes);
    MembersSize(members);
    assert net.nodes.Keys - {} == Quiet.MembersOf(members);
    OwedMost(Quiet.GreetWeight(s), Unmet(net, members), |members| * |members|, |net.nodes.Keys - {}|);
    SilentMost(Quiet.GreetWeight(s), |members| * |members|, |net.nodes.Keys - {}|, |members|);
  }

  lemma SilentMost(g: nat, strangers: nat, silent: nat, most: nat)
    requires silent <= most
    ensures Owed(g, strangers, silent) <= Owed(g, strangers, most)
  {
    Quiet.TimesLess(g + 1, silent, most);
  }

  ghost predicate Reunited(net: Net, all: set<Op>) {
    forall d <- net.nodes :: net.nodes[d].replica.log == all
  }

  /** Replicas that can verify what they hold and never skipped anything, with clocks that leave room: nothing
      has to go wrong. They can greet and deliver until the links are empty, no message refused, and then all
      of them hold everything. */
  lemma EverySessionCanEnd(net: Net, crypto: Crypto, known: set<Key>, space: Text, all: set<Op>,
                           members: seq<Device>, limit: nat)
    requires Initial(net, crypto, known, space) && CollisionFree(crypto, known) && UniqueIds(all)
    requires (forall d <- net.nodes :: Whole(net.nodes[d].replica, all)) && Union(LogsOf(net), all)
    requires Lists(members, net) && Early(all, limit) && limit + Span(|members|, |all|) < ROOM
    requires forall d <- net.nodes :: Packed(net.nodes[d].replica.clock) <= limit
    ensures exists nets, steps ::
              && IsSession(nets, crypto, known, space, steps, all) && nets[0] == net
              && Over(nets[|steps|], Greeters(steps)) && Reunited(nets[|steps|], all)
  {
    hide Sane, CollisionFree, UniqueIds, Whole, Union, Early, Span, Budget, Lists, LogsOf, Greeters;
    StartBudget(net, members, |all|);
    var none: seq<Step> := [];
    NobodyGreeted(none);
    assert none[..0] == none;
    var nets, steps := Play([net], crypto, known, space, none, all, members, limit);
    OverIsReunited(nets, crypto, known, space, steps, all);
  }

  lemma OverIsReunited(
    nets: seq<Net>, crypto: Crypto, known: set<Key>, space: Text, steps: seq<Step>, all: set<Op>)
    requires IsSession(nets, crypto, known, space, steps, all) && Over(nets[|steps|], Greeters(steps))
    ensures Reunited(nets[|steps|], all)
  {
    hide IsSession, Queue, Greeters;
    SessionLength(nets, crypto, known, space, steps, all);
    SilentSessionsAgree(nets, crypto, known, space, steps, all);
  }

  // ---------- a session there is ----------

  /** Two devices; a key is its own signature. */
  const TOY := Crypto(
    (key: Key) => if |key| == 1 then key[0] else 0,
    (payload: seq<Utf8.Byte>, sig: Text, key: Key) => sig == key,
    (payload: seq<Utf8.Byte>, key: Key) => key)

  const KEY_A: Key := [1]
  const KEY_B: Key := [2]
  const NOTE := Op(Cell([0x74], ROW_ID, [0x63]), Bool(true), Hlc(1, 0, 1), KEY_A)
  const ROW_ID: Text := seq(26, _ => 0x30)

  const AUTHOR := Replica({NOTE}, map[NOTE.cell := NOTE], map[1 := NOTE.hlc], Clock(1, 0), Clock(1, 0), map[])

  function Toy(d: Device, key: Key, r: Replica): Node {
    Node(d, [], DeviceKey(key, key), None, true, r, map[d := key], map[])
  }

  const PAIR := Net(map[1 := Toy(1, KEY_A, AUTHOR), 2 := Toy(2, KEY_B, FRESH)], map[])

  lemma NoteIsAdmissible()
    ensures Admissible(NOTE)
  {
    Sizes.ShortIsAdmissible(NOTE);
  }

  lemma PairIsSane()
    ensures Initial(PAIR, TOY, {KEY_A, KEY_B}, []) && CollisionFree(TOY, {KEY_A, KEY_B})
  {
    hide Admissible, SignedPayload;
    NoteIsAdmissible();
    var known := {KEY_A, KEY_B};
    assert Sane(PAIR.nodes[1], 1, [], TOY, known);
    assert Sane(PAIR.nodes[2], 2, [], TOY, known);
  }

  lemma PairIsWhole()
    ensures Whole(AUTHOR, {NOTE}) && Whole(FRESH, {NOTE}) && UniqueIds({NOTE})
    ensures Union(LogsOf(PAIR), {NOTE})
  {
    assert NOTE in LogsOf(PAIR)[1];
  }

  /** One replica holds an operation, the other does not know its author; they meet, and both hold it. */
  lemma ASessionExists()
    ensures exists nets, steps ::
              && IsSession(nets, TOY, {KEY_A, KEY_B}, [], steps, {NOTE}) && nets[0] == PAIR
              && Over(nets[|steps|], Greeters(steps)) && Reunited(nets[|steps|], {NOTE})
  {
    hide Initial, CollisionFree, Whole, Union, UniqueIds, Over, Reunited, IsSession;
    PairIsSane();
    PairIsWhole();
    EverySessionCanEnd(PAIR, TOY, {KEY_A, KEY_B}, [], {NOTE}, [1, 2], 65536);
  }
}
