/** One hello is enough: greeted replicas greet back, so a session that anyone opened reaches everyone. */
module OneHello {
  import opened Texts
  import opened Hlcs
  import opened Ops
  import opened Replicas
  import opened OpOrder
  import opened Storage
  import opened Engine
  import opened Sessions
  import opened Replication
  import opened Links
  import opened Reunion
  import Quiet = QuietNetwork
  import Completion
  import Records
  import ExactRecords

  /** Only who has said hello has peers, sends anything or is addressed; and whoever has not is about to hear one. */
  ghost predicate Introduced(net: Net, greeted: set<Device>) {
    && (forall b <- net.nodes :: net.nodes[b].peers != map[] ==> b in greeted)
    && (forall a, b | a in net.nodes && b in net.nodes && a != b :: Spoken(Queue(net, a, b), a, greeted))
    && forall a, b | a in net.nodes && b in net.nodes && a != b && a in greeted ::
         b in greeted || HelloWaits(Queue(net, a, b))
  }

  ghost predicate Spoken(q: seq<Msg>, a: Device, greeted: set<Device>) {
    && (q != [] ==> a in greeted)
    && forall m <- q | m.to.Some? :: m.to.value in greeted
  }

  /** Who heard a hello has said hello from then on. */
  function Greeted(net: Net, step: Step, greeted: set<Device>): set<Device>
    requires Enabled(net, step)
  {
    match step
    case Deliver(x, y, _) => if Queue(net, x, y)[0].body.Hello? then greeted + {y} else greeted
    case SayHello(d) => greeted + {d}
    case _ => greeted
  }

  // ---------- one message ----------

  /** The reply goes to the sender, if it is not a hello; to a greeting of someone new it starts with one. */
  lemma RepliesTo(n: Node, crypto: Crypto, m: Msg, pt: int)
    requires Accepted(n, crypto, m, pt)
    requires Ignored(n, m) <==> m.to.Some? && m.to != Some(n.id)
    requires m.body.Hello? <==> m.to.None?
    ensures var (q, out) := Received(n, crypto, m, pt);
      && (forall s <- out | s.to.Some? :: s.to == Some(m.from))
      && (out != [] || q.peers != n.peers ==> m.body.Hello? || m.to == Some(n.id))
      && (m.body.Hello? && m.from !in n.peers ==> HelloWaits(out))
  {
    hide Decode, ObserveClock, Merge, Admitted, OpsSince, LatestClock, Genuine, WireOf;
    var (q, out) := Received(n, crypto, m, pt);
    if m.body.Hello? && m.from !in n.peers { assert out[0] in out && out[0].body.Hello?; }
  }

  // ---------- one step ----------

  lemma SpokenAppend(q: seq<Msg>, out: seq<Msg>, a: Device, greeted: set<Device>, more: set<Device>)
    requires Spoken(q, a, greeted) && Spoken(out, a, more) && greeted <= more
    ensures Spoken(q + out, a, more)
  {
  }

  lemma SpokenTail(q: seq<Msg>, a: Device, greeted: set<Device>)
    requires Spoken(q, a, greeted) && q != []
    ensures Spoken(q[1..], a, greeted)
  {
  }

  lemma DeliverIntroduces(net: Net, crypto: Crypto, known: set<Key>, space: Text, all: set<Op>,
                          start: map<Device, set<Op>>, greeted: set<Device>, x: Device, y: Device, pt: int)
    requires Meeting(net, all, start, greeted) && Inv(net, crypto, known, space) && CollisionFree(crypto, known)
    requires Enabled(net, Deliver(x, y, pt)) && Smooth(net, crypto, Deliver(x, y, pt)) && Introduced(net, greeted)
    ensures Introduced(Next(net, crypto, Deliver(x, y, pt)), Greeted(net, Deliver(x, y, pt), greeted))
    ensures var v := Next(net, crypto, Deliver(x, y, pt));
      y !in greeted && Queue(net, x, y)[0].body.Hello? ==>
        forall b | b in v.nodes && b != y :: HelloWaits(Queue(v, y, b))
  {
    hide Meeting, Inv, CollisionFree, Queue, Update, Popped, Received, Accepted, HelloWaits, Spoken;
    var n, m := net.nodes[y], Queue(net, x, y)[0];
    var (q, out) := Received(n, crypto, m, pt);
    var v, more := Reunion.After(net, x, y, q, out), Greeted(net, Deliver(x, y, pt), greeted);
    ExactRecords.HeadMatters(net, crypto, known, space, all, start, greeted, x, y);
    RepliesTo(n, crypto, m, pt);
    AfterNodes(net, x, y, q, out);
    HeadSpoken(Queue(net, x, y), x, greeted);
    OutSpoken(out, x, y, m, more);
    forall a, b | a in v.nodes && b in v.nodes && a != b ensures Spoken(Queue(v, a, b), a, more) {
      QueueAfter(net, x, y, q, out, a, b);
      SpokenAppend(Queue(net, a, b), [], a, greeted, more);
      assert Queue(net, a, b) + [] == Queue(net, a, b);
      if a == x && b == y {
        SpokenTail(Queue(net, x, y), x, greeted);
        SpokenAppend(Queue(net, x, y)[1..], [], x, greeted, more);
        assert Queue(net, x, y)[1..] + [] == Queue(net, x, y)[1..];
      } else if a == y {
        SpokenAppend(Queue(net, a, b), out, a, greeted, more);
      }
    }
    forall a, b | a in v.nodes && b in v.nodes && a != b && a in more ensures b in more || HelloWaits(Queue(v, a, b)) {
      QueueAfter(net, x, y, q, out, a, b);
      HelloMoves(Queue(net, a, b), out, m, a == x && b == y);
    }
    forall b | b in v.nodes && b != y && y !in greeted && m.body.Hello? ensures HelloWaits(Queue(v, y, b)) {
      QueueAfter(net, x, y, q, out, y, b);
      HelloMoves(Queue(net, y, b), out, m, false);
    }
  }

  lemma HeadSpoken(q: seq<Msg>, a: Device, greeted: set<Device>)
    requires q != [] && Spoken(q, a, greeted)
    ensures a in greeted && (q[0].to.Some? ==> q[0].to.value in greeted)
  {
    assert q[0] in q;
  }

  lemma OutSpoken(out: seq<Msg>, x: Device, y: Device, m: Msg, greeted: set<Device>)
    requires x in greeted && (forall s <- out | s.to.Some? :: s.to == Some(x))
    requires out != [] ==> y in greeted
    ensures Spoken(out, y, greeted) && Spoken([], y, greeted)
  {
  }

  lemma HelloMoves(q: seq<Msg>, out: seq<Msg>, m: Msg, read: bool)
    requires read ==> q != [] && q[0] == m
    ensures HelloWaits(q) || HelloWaits(out) ==> HelloWaits(q + out)
    ensures read && HelloWaits(q) ==> HelloWaits(q[1..]) || m.body.Hello?
  {
    if HelloWaits(q) {
      var h :| h in q && h.body.Hello?;
      assert h in q + out;
      if read { HeadTail(q); }
    }
    if HelloWaits(out) {
      var h :| h in out && h.body.Hello?;
      assert h in q + out;
    }
  }

  lemma GreetIntroduces(net: Net, crypto: Crypto, greeted: set<Device>, d: Device)
    requires Introduced(net, greeted) && d in net.nodes
    ensures Introduced(Next(net, crypto, SayHello(d)), greeted + {d})
  {
    hide Queue, LatestClock, HelloWaits, Spoken;
    var hello := HelloMsg(net.nodes[d]);
    var v := Next(net, crypto, SayHello(d));
    assert v.nodes == net.nodes;
    forall a, b | a in v.nodes && b in v.nodes && a != b
      ensures Spoken(Queue(v, a, b), a, greeted + {d})
      ensures a in greeted + {d} ==> b in greeted + {d} || HelloWaits(Queue(v, a, b))
    {
      QueueUpdated(net, d, (net.nodes[d], [hello]), a, b);
      HelloSpoken(hello, a, greeted + {d});
      SpokenAppend(Queue(net, a, b), [], a, greeted, greeted + {d});
      assert Queue(net, a, b) + [] == Queue(net, a, b);
      if a == d {
        SpokenAppend(Queue(net, a, b), [hello], a, greeted, greeted + {d});
        ExactRecords.HelloAppended(Queue(net, a, b), hello);
      }
    }
  }

  lemma HelloSpoken(hello: Msg, a: Device, greeted: set<Device>)
    requires hello.to.None?
    ensures Spoken([], a, greeted) && (a in greeted ==> Spoken([hello], a, greeted))
  {
  }

  /** Whoever just broadcast a hello counts as having greeted. */
  lemma GreetedGrows(net: Net, all: set<Op>, start: map<Device, set<Op>>, greeted: set<Device>, y: Device)
    requires Meeting(net, all, start, greeted) && y in net.nodes
    requires forall b | b in net.nodes && b != y :: HelloWaits(Queue(net, y, b))
    ensures Meeting(net, all, start, greeted + {y})
  {
    hide Whole, Complete, Asked, Shaped, HelloWaits, Queue;
    forall a, b | a in net.nodes && b in net.nodes && a != b ensures LinkIs(net, all, start, greeted + {y}, a, b) {
      assert LinkIs(net, all, start, greeted, a, b);
    }
  }

  lemma AlreadyGreeted(greeted: set<Device>, y: Device)
    requires y in greeted
    ensures greeted + {y} == greeted
  {
  }

  // ---------- the session ----------

  lemma Strangers(net: Net)
    requires net.links == map[] && forall b <- net.nodes :: net.nodes[b].peers == map[]
    ensures Introduced(net, {})
  {
  }

  lemma {:induction false} SessionIntroduces(
    nets: seq<Net>, crypto: Crypto, known: set<Key>, space: Text, steps: seq<Step>, all: set<Op>, i: nat)
    returns (greeted: set<Device>)
    requires IsSession(nets, crypto, known, space, steps, all) && i < |nets|
    requires forall b <- nets[0].nodes :: nets[0].nodes[b].peers == map[]
    ensures Meeting(nets[i], all, LogsOf(nets[0]), greeted) && Introduced(nets[i], greeted)
    ensures Greeters(steps[..i]) <= greeted
  {
    hide Meeting, Whole, Inv, CollisionFree, Next, Union, LogsOf, Greeters, Grounded, UniqueIds, Introduced, Accepted;
    if i == 0 {
      SessionStarts(nets[0], crypto, known, space, all);
      NobodyGreeted(steps);
      Strangers(nets[0]);
      greeted := {};
    } else {
      var before := SessionIntroduces(nets, crypto, known, space, steps, all, i - 1);
      var net, step, start := nets[i - 1], steps[i - 1], LogsOf(nets[0]);
      RunInv(nets, crypto, known, space, steps, i - 1);
      GreetersNext(steps, i - 1);
      assert Enabled(net, step) && Smooth(net, crypto, step) && nets[i] == Next(net, crypto, step);
      greeted := Greeted(net, step, before);
      match step
      case Deliver(x, y, pt) =>
        DeliverKeepsMeeting(net, crypto, known, space, all, start, before, x, y, pt);
        DeliverIntroduces(net, crypto, known, space, all, start, before, x, y, pt);
        Records.NodesAfter(net, crypto, step);
        if y in before { AlreadyGreeted(before, y); }
        if Queue(net, x, y)[0].body.Hello? && y !in before { GreetedGrows(nets[i], all, start, before, y); }
      case SayHello(d) =>
        GreetKeepsMeeting(net, crypto, all, start, before, d);
        GreetIntroduces(net, crypto, before, d);
    }
  }

  lemma AllGreeted(net: Net, greeted: set<Device>, d: Device)
    requires Introduced(net, greeted) && d in net.nodes && d in greeted && ExactRecords.Silent(net)
    ensures net.nodes.Keys <= greeted
  {
    hide Queue, Spoken;
    forall b <- net.nodes ensures b in greeted {
      if b != d { assert Queue(net, d, b) == []; }
    }
  }

  /** Among replicas that have not met, one hello and silence are enough for all of them to hold everything. */
  lemma OneHelloIsEnough(
    nets: seq<Net>, crypto: Crypto, known: set<Key>, space: Text, steps: seq<Step>, all: set<Op>, a: Device)
    requires IsSession(nets, crypto, known, space, steps, all)
    requires forall b <- nets[0].nodes :: nets[0].nodes[b].peers == map[]
    requires a in Greeters(steps) && a in nets[|steps|].nodes && ExactRecords.Silent(nets[|steps|])
    ensures Completion.Reunited(nets[|steps|], all)
  {
    hide Whole, Inv, CollisionFree, Next, Initial, Greeters, UniqueIds, Introduced, Accepted, LinkIs, Queue;
    var last := nets[|steps|];
    var greeted := SessionIntroduces(nets, crypto, known, space, steps, all, |steps|);
    assert steps[..|steps|] == steps;
    AllGreeted(last, greeted, a);
    forall d <- last.nodes ensures last.nodes[d].replica.log == all {
      assert HoldsStart(last, all, LogsOf(nets[0]), d);
      WholeWithin(last.nodes[d].replica, all);
      forall o <- all ensures o in last.nodes[d].replica.log {
        var b :| b in LogsOf(nets[0]) && o in LogsOf(nets[0])[b];
        SilentPair(last, all, LogsOf(nets[0]), greeted, b, d);
      }
    }
  }
}
