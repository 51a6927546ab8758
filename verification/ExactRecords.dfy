/** After a silent session the records are exact, so compaction can reclaim all that is superseded. */
module ExactRecords {
  import opened Texts
  import opened Hlcs
  import opened Ops
  import opened Replicas
  import Compaction
  import opened OpOrder
  import opened Storage
  import opened Engine
  import opened Sessions
  import opened Replication
  import opened Links
  import opened Reunion
  import opened Records
  import Completion

  predicate Tell(m: Msg, t: Device) {
    m.to == Some(t) && Told(m).Some?
  }

  /** The last frontier a queue tells `t`. */
  function LastTold(q: seq<Msg>, t: Device): Option<Frontier> {
    if q == [] then None
    else if Tell(q[|q| - 1], t) then Told(q[|q| - 1])
    else LastTold(q[..|q| - 1], t)
  }

  lemma {:induction false} LastToldAppend(q: seq<Msg>, out: seq<Msg>, t: Device)
    ensures LastTold(q + out, t) == if LastTold(out, t).Some? then LastTold(out, t) else LastTold(q, t)
  {
    if out == [] {
      assert q + out == q;
    } else {
      assert (q + out)[..|q + out| - 1] == q + out[..|out| - 1];
      LastToldAppend(q, out[..|out| - 1], t);
    }
  }

  lemma {:induction false} NothingTold(q: seq<Msg>, t: Device)
    requires forall m <- q :: !Tell(m, t)
    ensures LastTold(q, t) == None
  {
    if q != [] { NothingTold(q[..|q| - 1], t); }
  }

  /** Whatever it tells, it tells this. */
  lemma {:induction false} TellsOnly(q: seq<Msg>, t: Device, f: Frontier)
    requires forall m <- q | Tell(m, t) :: Told(m) == Some(f)
    ensures LastTold(q, t).Some? ==> LastTold(q, t) == Some(f)
    ensures (exists m <- q :: Tell(m, t)) ==> LastTold(q, t) == Some(f)
  {
    if q != [] {
      var init, last := q[..|q| - 1], q[|q| - 1];
      assert q == init + [last];
      TellsOnly(init, t, f);
    }
  }

  lemma HeadTold(q: seq<Msg>, t: Device)
    requires q != []
    ensures LastTold(q, t) == if LastTold(q[1..], t).Some? then LastTold(q[1..], t)
                              else if Tell(q[0], t) then Told(q[0]) else None
  {
    assert q == [q[0]] + q[1..];
    LastToldAppend([q[0]], q[1..], t);
    assert [q[0]][..0] == [];
  }

  /** What `d` will have on record of `p` once the link from `p` is read. */
  function Due(net: Net, d: Device, p: Device): Option<Frontier>
    requires d in net.nodes
  {
    if LastTold(Queue(net, p, d), d).Some? then LastTold(Queue(net, p, d), d)
    else if p in net.nodes[d].replica.peers then Some(net.nodes[d].replica.peers[p])
    else None
  }

  ghost predicate Current(net: Net, d: Device, p: Device)
    requires d in net.nodes && p in net.nodes
  {
    Due(net, d, p) == Some(net.nodes[p].replica.frontier)
  }

  /** Who has said hello to `p` will know how far `p` is. */
  ghost predicate Informed(net: Net, greeted: set<Device>) {
    forall d, p | d in net.nodes && p in net.nodes && d != p && d in greeted ::
      HelloWaits(Queue(net, d, p)) || Current(net, d, p)
  }

  // ---------- one message ----------

  /** What a node tells is where it is; it tells whoever greets it, and whoever moves it on. */
  lemma AnswersTell(n: Node, crypto: Crypto, m: Msg, pt: int)
    requires !Ignored(n, m) && Accepted(n, crypto, m, pt)
    requires m.body.OpsBatch? ==> m.to == Some(n.id)
    ensures var (q, out) := Received(n, crypto, m, pt);
      && (forall s <- out | Told(s).Some? :: Told(s) == Some(q.replica.frontier))
      && (m.body.Hello? ==> exists s <- out :: Tell(s, m.from))
      && (q.replica.frontier != n.replica.frontier ==> exists s <- out :: Tell(s, m.from))
  {
    hide Decode, ObserveClock, Merge, Admitted, OpsSince, LatestClock, Genuine, WireOf;
    var (q, out) := Received(n, crypto, m, pt);
    match m.body
    case Hello(_, _) =>
      assert SinceMsg(q, m.from) in out;
      ObserveFrontier(n.replica, Decode(m.body.clock).hlc, pt);
    case OpsBatch(wire) =>
      if wire != [] && Admitted(crypto, n.keys, wire).Some? {
        NothingNew(n.replica, Admitted(crypto, n.keys, wire).value, pt);
        if out != [] { assert out[0] == AckMsg(q, m.from) && out[0] in out; }
      }
    case _ =>
  }

  lemma ObserveFrontier(r: Replica, h: Hlc, pt: int)
    ensures ObserveClock(r, h, pt).0.frontier == r.frontier
  {
  }

  /** A batch without anything new leaves the frontier where it is. */
  lemma NothingNew(r: Replica, ops: seq<Op>, pt: int)
    ensures Merge(r, ops, pt).1 == Applied(0) || Merge(r, ops, pt).1.Failed? ==>
              Merge(r, ops, pt).0.frontier == r.frontier
  {
    hide ReceiveBatch;
  }

  // ---------- one delivery ----------

  lemma DueAfter(net: Net, crypto: Crypto, x: Device, y: Device, q: Node, out: seq<Msg>, d: Device, p: Device)
    requires x in net.nodes && y in net.nodes && x != y && Queue(net, x, y) != []
    requires d in net.nodes && p in net.nodes && d != p && Queue(net, x, y)[0].from == x
    requires q.replica.peers == if Tell(Queue(net, x, y)[0], y)
                                then net.nodes[y].replica.peers[x := Told(Queue(net, x, y)[0]).value]
                                else net.nodes[y].replica.peers
    ensures d in Reunion.After(net, x, y, q, out).nodes
    ensures Due(Reunion.After(net, x, y, q, out), d, p) ==
              if p == y && LastTold(out, d).Some? then LastTold(out, d) else Due(net, d, p)
  {
    hide Queue, Update, Popped, LastTold;
    AfterNodes(net, x, y, q, out);
    QueueAfter(net, x, y, q, out, p, d);
    if p == x && d == y {
      HeadTold(Queue(net, x, y), y);
    } else if p == y {
      LastToldAppend(Queue(net, y, d), out, d);
    }
  }

  lemma HeadMatters(net: Net, crypto: Crypto, known: set<Key>, space: Text, all: set<Op>, start: map<Device, set<Op>>,
                    greeted: set<Device>, x: Device, y: Device)
    requires Meeting(net, all, start, greeted) && Inv(net, crypto, known, space) && CollisionFree(crypto, known)
    requires x in net.nodes && y in net.nodes && x != y && Queue(net, x, y) != []
    ensures var n, m := net.nodes[y], Queue(net, x, y)[0];
      && n.id == y && m.from == x && (m.body.Hello? <==> m.to.None?)
      && (Ignored(n, m) <==> m.to.Some? && m.to != Some(y))
  {
    hide Meeting, Inv, CollisionFree, Queue, Asked, Closed, Carried, Admitted, Admissible;
    HeadIsReady(net, crypto, known, space, all, start, greeted, x, y);
  }

  /** How a delivery moves what is due: the receiver's records, and what it tells. */
  lemma DeliverDue(net: Net, crypto: Crypto, known: set<Key>, space: Text, all: set<Op>, start: map<Device, set<Op>>,
                   greeted: set<Device>, x: Device, y: Device, pt: int, d: Device, p: Device)
    requires Meeting(net, all, start, greeted) && Inv(net, crypto, known, space) && CollisionFree(crypto, known)
    requires Enabled(net, Deliver(x, y, pt)) && Smooth(net, crypto, Deliver(x, y, pt))
    requires d in net.nodes && p in net.nodes && d != p
    requires d in greeted ==> HelloWaits(Queue(net, d, p)) || Current(net, d, p)
    requires p == y && d != x ==>
      Received(net.nodes[y], crypto, Queue(net, x, y)[0], pt).0.replica.frontier == net.nodes[y].replica.frontier
    ensures var v := Next(net, crypto, Deliver(x, y, pt));
      && v.nodes.Keys == net.nodes.Keys
      && (d in greeted ==> HelloWaits(Queue(v, d, p)) || Current(v, d, p))
  {
    hide Meeting, Inv, CollisionFree, Queue, Update, Popped, Received, Accepted, LastTold, HelloWaits;
    var n, m := net.nodes[y], Queue(net, x, y)[0];
    var (q, out) := Received(n, crypto, m, pt);
    HeadMatters(net, crypto, known, space, all, start, greeted, x, y);
    AfterNodes(net, x, y, q, out);
    OnlyToldIsRecorded(n, crypto, m, pt);
    ToldOrIgnored(n, m, y);
    DueAfter(net, crypto, x, y, q, out, d, p);
    QueueAfter(net, x, y, q, out, d, p);
    if p == y {
      Answered(n, crypto, m, pt, d);
      if d in greeted && HelloWaits(Queue(net, d, p)) { HelloRead(Queue(net, d, p), d == x, out, m); }
    } else if d in greeted && HelloWaits(Queue(net, d, p)) {
      HelloKept(Queue(net, d, p), if d == y then out else []);
      assert Queue(net, d, p) + [] == Queue(net, d, p);
    }
  }

  lemma ToldOrIgnored(n: Node, m: Msg, y: Device)
    requires n.id == y && (Ignored(n, m) <==> m.to.Some? && m.to != Some(y))
    requires Told(m).Some? ==> m.to.Some?
    ensures Tell(m, y) <==> !Ignored(n, m) && Told(m).Some?
  {
  }

  lemma HelloKept(q: seq<Msg>, out: seq<Msg>)
    requires HelloWaits(q)
    ensures HelloWaits(q + out)
  {
    var m :| m in q && m.body.Hello?;
    assert m in q + out;
  }

  lemma HelloRead(q: seq<Msg>, read: bool, out: seq<Msg>, m: Msg)
    requires HelloWaits(q)
    requires read ==> q != [] && q[0] == m
    ensures read ==> HelloWaits(q[1..]) || m.body.Hello?
  {
    if read { HeadTail(q); }
  }

  /** What the receiver tells `d`. */
  lemma Answered(n: Node, crypto: Crypto, m: Msg, pt: int, d: Device)
    requires Accepted(n, crypto, m, pt) && (m.body.OpsBatch? ==> m.to.Some?)
    requires Ignored(n, m) <==> m.to.Some? && m.to != Some(n.id)
    requires m.body.Hello? ==> m.to.None?
    ensures var (q, out) := Received(n, crypto, m, pt);
      && (LastTold(out, d).Some? ==> LastTold(out, d) == Some(q.replica.frontier))
      && (d == m.from && m.body.Hello? ==> LastTold(out, d).Some?)
      && (d == m.from && q.replica.frontier != n.replica.frontier ==> LastTold(out, d).Some?)
  {
    hide Received, Accepted, LastTold;
    var (q, out) := Received(n, crypto, m, pt);
    if Ignored(n, m) {
      IgnoredSilent(n, crypto, m, pt);
      NothingTold([], d);
    } else {
      AnswersTell(n, crypto, m, pt);
      TellsOnly(out, d, q.replica.frontier);
    }
  }

  lemma IgnoredSilent(n: Node, crypto: Crypto, m: Msg, pt: int)
    requires Ignored(n, m)
    ensures Received(n, crypto, m, pt) == (n, [])
  {
  }

  // ---------- the session ----------

  /** Who receives tells whoever it might leave behind: the sender is all there is, or there is nothing new. */
  ghost predicate NobodyBehind(net: Net, crypto: Crypto, step: Step)
    requires Enabled(net, step)
  {
    step.Deliver? ==>
      || (forall d <- net.nodes :: d == step.from || d == step.to)
      || Next(net, crypto, step).nodes[step.to].replica.frontier == net.nodes[step.to].replica.frontier
  }

  lemma DeliverInforms(net: Net, crypto: Crypto, known: set<Key>, space: Text, all: set<Op>,
                       start: map<Device, set<Op>>, greeted: set<Device>, x: Device, y: Device, pt: int)
    requires Meeting(net, all, start, greeted) && Inv(net, crypto, known, space) && CollisionFree(crypto, known)
    requires Enabled(net, Deliver(x, y, pt)) && Smooth(net, crypto, Deliver(x, y, pt))
    requires NobodyBehind(net, crypto, Deliver(x, y, pt)) && Informed(net, greeted)
    ensures Informed(Next(net, crypto, Deliver(x, y, pt)), greeted)
  {
    hide Meeting, Inv, CollisionFree, Queue, Current, Received, HelloWaits, Accepted, Next;
    var v := Next(net, crypto, Deliver(x, y, pt));
    NodesAfter(net, crypto, Deliver(x, y, pt));
    forall d, p | d in v.nodes && p in v.nodes && d != p && d in greeted
      ensures HelloWaits(Queue(v, d, p)) || Current(v, d, p)
    {
      DeliverDue(net, crypto, known, space, all, start, greeted, x, y, pt, d, p);
    }
  }

  lemma GreetInforms(net: Net, crypto: Crypto, greeted: set<Device>, e: Device)
    requires Informed(net, greeted) && e in net.nodes
    ensures Informed(Next(net, crypto, SayHello(e)), greeted + {e})
  {
    hide Queue, LatestClock, LastTold, HelloWaits;
    var hello := HelloMsg(net.nodes[e]);
    var v := Next(net, crypto, SayHello(e));
    assert v.nodes == net.nodes;
    forall d, p | d in v.nodes && p in v.nodes && d != p && d in greeted + {e}
      ensures HelloWaits(Queue(v, d, p)) || Current(v, d, p)
    {
      QueueUpdated(net, e, (net.nodes[e], [hello]), d, p);
      QueueUpdated(net, e, (net.nodes[e], [hello]), p, d);
      LastToldAppend(Queue(net, p, d), [hello], d);
      NothingTold([hello], d);
      if d == e {
        HelloAppended(Queue(net, d, p), hello);
      } else if HelloWaits(Queue(net, d, p)) {
        HelloKept(Queue(net, d, p), []);
        assert Queue(net, d, p) + [] == Queue(net, d, p);
      }
    }
  }

  lemma HelloAppended(q: seq<Msg>, hello: Msg)
    requires hello.body.Hello?
    ensures HelloWaits(q + [hello])
  {
    assert hello in q + [hello];
  }

  lemma {:induction false} SessionInforms(
    nets: seq<Net>, crypto: Crypto, known: set<Key>, space: Text, steps: seq<Step>, all: set<Op>, i: nat)
    requires IsSession(nets, crypto, known, space, steps, all) && i < |nets|
    requires forall k {:trigger steps[k]} | 0 <= k < i :: NobodyBehind(nets[k], crypto, steps[k])
    ensures Informed(nets[i], Greeters(steps[..i]))
  {
    hide Meeting, Whole, Inv, CollisionFree, Next, Initial, Union, LogsOf, Greeters, Grounded, UniqueIds, Informed;
    hide NobodyBehind;
    if i == 0 {
      NobodyGreeted(steps);
      NobodyInformed(nets[0]);
    } else {
      SessionInforms(nets, crypto, known, space, steps, all, i - 1);
      SessionKeeps(nets, crypto, known, space, steps, all, i - 1);
      RunInv(nets, crypto, known, space, steps, i - 1);
      GreetersNext(steps, i - 1);
      var greeted, step := Greeters(steps[..i - 1]), steps[i - 1];
      assert NobodyBehind(nets[i - 1], crypto, step);
      match step
      case Deliver(x, y, pt) =>
        DeliverInforms(nets[i - 1], crypto, known, space, all, LogsOf(nets[0]), greeted, x, y, pt);
        assert greeted + {} == greeted;
      case SayHello(e) => GreetInforms(nets[i - 1], crypto, greeted, e);
    }
  }

  lemma NobodyInformed(net: Net)
    ensures Informed(net, {})
  {
  }

  /** On silent links what is due is on record. */
  lemma SilentDue(net: Net, greeted: set<Device>, d: Device, p: Device)
    requires Informed(net, greeted) && d in net.nodes && p in net.nodes && d != p && d in greeted
    requires Queue(net, d, p) == [] && Queue(net, p, d) == []
    ensures p in net.nodes[d].replica.peers && net.nodes[d].replica.peers[p] == net.nodes[p].replica.frontier
  {
  }

  ghost predicate Silent(net: Net) {
    forall a, b | a in net.nodes && b in net.nodes && a != b :: Queue(net, a, b) == []
  }

  /** Everyone has on record exactly how far everyone else is. */
  ghost predicate ExactRecords(net: Net) {
    forall d, p | d in net.nodes && p in net.nodes && d != p ::
      p in net.nodes[d].replica.peers && net.nodes[d].replica.peers[p] == net.nodes[p].replica.frontier
  }

  lemma SilentIsExact(
    nets: seq<Net>, crypto: Crypto, known: set<Key>, space: Text, steps: seq<Step>, all: set<Op>)
    requires IsSession(nets, crypto, known, space, steps, all)
    requires forall k {:trigger steps[k]} | 0 <= k < |steps| :: NobodyBehind(nets[k], crypto, steps[k])
    requires nets[|steps|].nodes.Keys <= Greeters(steps) && Silent(nets[|steps|])
    ensures ExactRecords(nets[|steps|])
  {
    hide IsSession, Queue, Informed, Greeters, NobodyBehind;
    Completion.SessionLength(nets, crypto, known, space, steps, all);
    var last := nets[|steps|];
    SessionInforms(nets, crypto, known, space, steps, all, |steps|);
    assert steps[..|steps|] == steps;
    forall d, p | d in last.nodes && p in last.nodes && d != p
      ensures p in last.nodes[d].replica.peers && last.nodes[d].replica.peers[p] == last.nodes[p].replica.frontier
    {
      SilentDue(last, Greeters(steps), d, p);
    }
  }

  lemma {:induction false} SameNodes(
    nets: seq<Net>, crypto: Crypto, known: set<Key>, space: Text, steps: seq<Step>, i: nat)
    requires IsRun(nets, crypto, known, space, steps) && i < |nets|
    ensures nets[i].nodes.Keys == nets[0].nodes.Keys
  {
    hide Next, Initial, Enabled;
    if i > 0 {
      SameNodes(nets, crypto, known, space, steps, i - 1);
      assert Enabled(nets[i - 1], steps[i - 1]) && nets[i] == Next(nets[i - 1], crypto, steps[i - 1]);
      NodesAfter(nets[i - 1], crypto, steps[i - 1]);
    }
  }

  /** Two replicas that met and fell silent have each other's frontiers on record, to the last acknowledgement. */
  lemma TwoAreExact(nets: seq<Net>, crypto: Crypto, known: set<Key>, space: Text, steps: seq<Step>, all: set<Op>,
                    a: Device, b: Device)
    requires IsSession(nets, crypto, known, space, steps, all) && nets[0].nodes.Keys == {a, b}
    requires nets[|steps|].nodes.Keys <= Greeters(steps) && Silent(nets[|steps|])
    ensures ExactRecords(nets[|steps|])
  {
    hide Initial, CollisionFree, UniqueIds, Whole, Union, Next, Silent, ExactRecords, Greeters, Accepted;
    forall k {:trigger steps[k]} | 0 <= k < |steps| ensures NobodyBehind(nets[k], crypto, steps[k]) {
      SameNodes(nets, crypto, known, space, steps, k);
      assert Enabled(nets[k], steps[k]) && Smooth(nets[k], crypto, steps[k]);
    }
    SilentIsExact(nets, crypto, known, space, steps, all);
  }

  /** However many they are: when replicas that all hold the same meet once more, the records are exact after it. */
  lemma AgreedAreExact(nets: seq<Net>, crypto: Crypto, known: set<Key>, space: Text, steps: seq<Step>, all: set<Op>)
    requires IsSession(nets, crypto, known, space, steps, all) && Completion.Reunited(nets[0], all)
    requires nets[|steps|].nodes.Keys <= Greeters(steps) && Silent(nets[|steps|])
    ensures ExactRecords(nets[|steps|])
  {
    hide Initial, CollisionFree, UniqueIds, Whole, Union, Next, Silent, ExactRecords, Greeters, Accepted, NobodyBehind;
    hide Completion.Reunited, Received, Enabled, Smooth, Queue;
    forall k {:trigger steps[k]} | 0 <= k < |steps| ensures NobodyBehind(nets[k], crypto, steps[k]) {
      assert Enabled(nets[k], steps[k]) && nets[k + 1] == Next(nets[k], crypto, steps[k]);
      SameNodes(nets, crypto, known, space, steps, k);
      NodesAfter(nets[k], crypto, steps[k]);
      if steps[k].Deliver? {
        StaysWhole(nets, crypto, known, space, steps, all, k, steps[k].to);
        StaysWhole(nets, crypto, known, space, steps, all, k + 1, steps[k].to);
        WholeDetermined(nets[k].nodes[steps[k].to].replica, nets[k + 1].nodes[steps[k].to].replica, all);
        NoNewsIsFine(nets[k], crypto, steps[k]);
      } else {
        GreetingIsFine(nets[k], crypto, steps[k]);
      }
    }
    SilentIsExact(nets, crypto, known, space, steps, all);
  }

  lemma NoNewsIsFine(net: Net, crypto: Crypto, step: Step)
    requires Enabled(net, step) && step.Deliver? && step.to in Next(net, crypto, step).nodes
    requires Next(net, crypto, step).nodes[step.to].replica.frontier == net.nodes[step.to].replica.frontier
    ensures NobodyBehind(net, crypto, step)
  {
  }

  lemma GreetingIsFine(net: Net, crypto: Crypto, step: Step)
    requires Enabled(net, step) && !step.Deliver?
    ensures NobodyBehind(net, crypto, step)
  {
  }

  /** Who holds everything at the start holds everything all along. */
  lemma StaysWhole(nets: seq<Net>, crypto: Crypto, known: set<Key>, space: Text, steps: seq<Step>, all: set<Op>,
                   k: nat, d: Device)
    requires IsSession(nets, crypto, known, space, steps, all) && k < |nets| && Completion.Reunited(nets[0], all)
    requires d in nets[0].nodes && d in nets[k].nodes
    ensures Whole(nets[k].nodes[d].replica, all) && nets[k].nodes[d].replica.log == all
  {
    hide Initial, CollisionFree, UniqueIds, Whole, Union, Next, Greeters, LinkIs, IsSession;
    Completion.SessionLength(nets, crypto, known, space, steps, all);
    SessionKeeps(nets, crypto, known, space, steps, all, k);
    assert HoldsStart(nets[k], all, LogsOf(nets[0]), d);
    WholeWithin(nets[k].nodes[d].replica, all);
  }

  // ---------- what compaction can then reclaim ----------

  /** Only members of the net are on record. */
  ghost predicate Acquainted(net: Net) {
    forall d <- net.nodes :: net.nodes[d].replica.peers.Keys <= net.nodes.Keys
  }

  lemma {:induction false} RunAcquainted(
    nets: seq<Net>, crypto: Crypto, known: set<Key>, space: Text, steps: seq<Step>, all: set<Op>, i: nat)
    requires IsSession(nets, crypto, known, space, steps, all) && i < |nets| && Acquainted(nets[0])
    ensures Acquainted(nets[i])
  {
    hide Initial, CollisionFree, UniqueIds, Whole, Union, Next, Greeters, Inv, Received, LatestClock, Meeting, Accepted;
    if i > 0 {
      var net, step := nets[i - 1], steps[i - 1];
      RunAcquainted(nets, crypto, known, space, steps, all, i - 1);
      assert Enabled(net, step) && Smooth(net, crypto, step) && nets[i] == Next(net, crypto, step);
      SessionKeeps(nets, crypto, known, space, steps, all, i - 1);
      RunInv(nets, crypto, known, space, steps, i - 1);
      NodesAfter(net, crypto, step);
      match step
      case Deliver(x, y, pt) =>
        HeadMatters(net, crypto, known, space, all, LogsOf(nets[0]), Greeters(steps[..i - 1]), x, y);
        OnlyToldIsRecorded(net.nodes[y], crypto, Queue(net, x, y)[0], pt);
      case SayHello(d) => GreetKeepsNodes(net, crypto, d);
    }
  }

  lemma GreetKeepsNodes(net: Net, crypto: Crypto, d: Device)
    requires d in net.nodes
    ensures Next(net, crypto, SayHello(d)).nodes == net.nodes
  {
    hide LatestClock;
  }

  /** When everyone holds the same and has it on record, one operation per cell is all a compaction leaves. */
  lemma ExactIsMinimal(net: Net, all: set<Op>, d: Device, gc: bool)
    requires ExactRecords(net) && Acquainted(net) && d in net.nodes
    requires forall e <- net.nodes :: Whole(net.nodes[e].replica, all) && net.nodes[e].replica.log == all
    requires d !in net.nodes[d].replica.peers
    ensures |Compaction.Compact(net.nodes[d].replica, gc).log| == |Compaction.Compact(net.nodes[d].replica, gc).cells|
  {
    hide Compaction.Compact, Consistent;
    var r := net.nodes[d].replica;
    forall p <- r.peers ensures !Compaction.Lags(r.peers[p], r.frontier) {
      WholeDetermined(r, net.nodes[p].replica, all);
    }
    Compaction.CompactMinimal(r, gc);
  }

  /** Two replicas that met, with nobody else on record, compact to one operation per cell. */
  lemma TwoCompact(nets: seq<Net>, crypto: Crypto, known: set<Key>, space: Text, steps: seq<Step>, all: set<Op>,
                   a: Device, b: Device, d: Device, gc: bool)
    requires IsSession(nets, crypto, known, space, steps, all) && nets[0].nodes.Keys == {a, b} && d in {a, b}
    requires forall e <- nets[0].nodes :: nets[0].nodes[e].replica.peers == map[]
    requires nets[|steps|].nodes.Keys <= Greeters(steps) && Silent(nets[|steps|])
    ensures d in nets[|steps|].nodes
    ensures var r := Compaction.Compact(nets[|steps|].nodes[d].replica, gc); |r.log| == |r.cells|
  {
    hide Whole, Next, Enabled, Accepted, Compaction.Compact, LinkIs, Inv, Initial;
    var last := nets[|steps|];
    TwoAreExact(nets, crypto, known, space, steps, all, a, b);
    SameNodes(nets, crypto, known, space, steps, |steps|);
    RunAcquainted(nets, crypto, known, space, steps, all, |steps|);
    SilentSessionsAgree(nets, crypto, known, space, steps, all);
    SessionKeeps(nets, crypto, known, space, steps, all, |steps|);
    forall e <- last.nodes ensures Whole(last.nodes[e].replica, all) && last.nodes[e].replica.log == all {
      assert HoldsStart(last, all, LogsOf(nets[0]), e);
    }
    NotOwn(nets, crypto, known, space, steps, all, |steps|, d);
    ExactIsMinimal(last, all, d, gc);
  }

  lemma {:induction false} NotOwn(
    nets: seq<Net>, crypto: Crypto, known: set<Key>, space: Text, steps: seq<Step>, all: set<Op>, i: nat, d: Device)
    requires IsSession(nets, crypto, known, space, steps, all) && i < |nets|
    requires d in nets[0].nodes && d !in nets[0].nodes[d].replica.peers
    ensures d in nets[i].nodes && d !in nets[i].nodes[d].replica.peers
  {
    hide Initial, CollisionFree, UniqueIds, Whole, Union, Next, Greeters, Inv, Received, LatestClock, Meeting, Accepted;
    if i > 0 {
      var net, step := nets[i - 1], steps[i - 1];
      NotOwn(nets, crypto, known, space, steps, all, i - 1, d);
      assert Enabled(net, step) && Smooth(net, crypto, step) && nets[i] == Next(net, crypto, step);
      SessionKeeps(nets, crypto, known, space, steps, all, i - 1);
      RunInv(nets, crypto, known, space, steps, i - 1);
      NodesAfter(net, crypto, step);
      match step
      case Deliver(x, y, pt) =>
        HeadMatters(net, crypto, known, space, all, LogsOf(nets[0]), Greeters(steps[..i - 1]), x, y);
        OnlyToldIsRecorded(net.nodes[y], crypto, Queue(net, x, y)[0], pt);
      case SayHello(e) => GreetKeepsNodes(net, crypto, e);
    }
  }
}
