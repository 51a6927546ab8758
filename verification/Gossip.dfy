/** Replicas that send each other parts of their logs. */
module Gossip {
  // Replicas write, send whatever part of their log they like, merge, compact (tombstone reclamation off)
  // and restart, in any order. Packets may be lost, repeated, delayed and delivered to anyone. One condition
  // is put on a delivery: see `GapFree`.

  import opened Hlcs
  import opened Ops
  import opened Replicas
  import opened Compaction
  import opened Histories

  /** A packet remembers the replica it was sent from, as it was then. */
  datatype Packet =
    | OpsPacket(view: Replica, ops: seq<Op>)
    | FrontierPacket(from: Device, have: Frontier)

  /** `issued` is a history variable: every operation ever issued. */
  datatype Net = Net(issued: set<Op>, reps: map<Device, Replica>, packets: set<Packet>)

  datatype Step =
    | LocalWrite(device: Device, drafts: seq<Draft>, author: Author)
    | SendOps(device: Device, ops: seq<Op>)
    | SendFrontier(device: Device)
    | DeliverOps(device: Device, packet: Packet, pt: int)
    | DeliverFrontier(device: Device, packet: Packet)
    | Observe(device: Device, hlc: Hlc, pt: int)
    | CompactLog(device: Device)
    | Reopen(device: Device)

  /** The delivery hypothesis. Per writer, the batch holds everything the sender held between the
      receiver's frontier and the batch's top operation. */
  ghost predicate GapFree(ops: set<Op>, log: set<Op>, f: Frontier) {
    forall o <- log :: !Seen(f, o.hlc) && Reaches(ops, o.hlc) ==> o in ops
  }

  function Put(s: Net, d: Device, r: Replica): Net {
    s.(reps := s.reps[d := r])
  }

  /** The effect of a step; what the step needs is `Enabled`. */
  ghost function After(s: Net, step: Step): Net
    requires step.device in s.reps
    requires step.DeliverOps? ==> step.packet.OpsPacket?
    requires step.DeliverFrontier? ==> step.packet.FrontierPacket?
  {
    var d := step.device;
    var r := s.reps[d];
    match step
    case LocalWrite(_, drafts, author) =>
      Put(s, d, Write(r, d, drafts, author).0).(issued := s.issued + OpSet(Issued(r, d, drafts, author)))
    case SendOps(_, ops) => s.(packets := s.packets + {OpsPacket(r, ops)})
    case SendFrontier(_) => s.(packets := s.packets + {FrontierPacket(d, r.frontier)})
    case DeliverOps(_, packet, pt) => Put(s, d, Merge(r, packet.ops, pt).0)
    case DeliverFrontier(_, packet) => Put(s, d, RecordPeer(r, d, packet.from, packet.have))
    case Observe(_, hlc, pt) => Put(s, d, ObserveClock(r, hlc, pt).0)
    case CompactLog(_) => Put(s, d, Compact(r, false))
    case Reopen(_) => Put(s, d, Restart(r))
  }

  ghost predicate Enabled(s: Net, step: Step) {
    && step.device in s.reps
    && match step
       case SendOps(d, ops) => OpSet(ops) <= s.reps[d].log
       case DeliverOps(d, packet, _) =>
         packet in s.packets && packet.OpsPacket?
         && GapFree(OpSet(packet.ops), packet.view.log, s.reps[d].frontier)
       case DeliverFrontier(_, packet) => packet in s.packets && packet.FrontierPacket?
       case _ => true
  }

  ghost predicate Initial(s: Net) {
    s.issued == {} && s.packets == {} && forall d <- s.reps :: s.reps[d] == FRESH
  }

  ghost predicate IsRun(ss: seq<Net>, steps: seq<Step>) {
    && |ss| == |steps| + 1
    && Initial(ss[0])
    && forall i {:trigger steps[i]} | 0 <= i < |steps| ::
         Enabled(ss[i], steps[i]) && ss[i + 1] == After(ss[i], steps[i])
  }

  // ---------- the invariant ----------

  /** An issued operation on the same cell beats `o` and is still above the frontier. */
  ghost predicate BeatenAbove(issued: set<Op>, f: Frontier, o: Op) {
    exists p <- issued :: p.cell == o.cell && Lt(o.hlc, p.hlc) && !Seen(f, p.hlc)
  }

  /** What a frontier promises about the cells beside it: every issued operation it covers is at or
      below its cell's winner, or is beaten by one the frontier does not cover yet. */
  ghost predicate WeaklyCovered(issued: set<Op>, f: Frontier, cells: map<Cell, Op>) {
    forall o <- issued :: Seen(f, o.hlc) ==> Covers(cells, o) || BeatenAbove(issued, f, o)
  }

  ghost predicate ViewInv(issued: set<Op>, r: Replica) {
    && Consistent(r)
    && r.log <= issued
    && FrontierIssued(issued, r.frontier)
    && WeaklyCovered(issued, r.frontier, r.cells)
  }

  ghost predicate RepInv(s: Net, d: Device)
    requires d in s.reps
  {
    SoundRep(s.issued, s.reps, d) && WeaklyCovered(s.issued, s.reps[d].frontier, s.reps[d].cells)
  }

  ghost predicate PacketInv(s: Net, packet: Packet) {
    match packet
    case OpsPacket(view, ops) => ViewInv(s.issued, view) && OpSet(ops) <= view.log
    case FrontierPacket(from, have) => Known(s.reps, from, have)
  }

  ghost predicate Inv(s: Net) {
    && AllSound(s.issued, s.reps)
    && (forall d <- s.reps :: RepInv(s, d))
    && (forall packet <- s.packets :: PacketInv(s, packet))
  }

  // ---------- coverage survives a gap-free delivery ----------

  /** Issued operations on the cell above `o`: the measure of the argument. */
  ghost function Above(issued: set<Op>, o: Op): set<Op> {
    set p | p in issued && p.cell == o.cell && Lt(o.hlc, p.hlc)
  }

  lemma AboveShrinks(issued: set<Op>, o: Op, p: Op)
    requires p in issued && p.cell == o.cell && Lt(o.hlc, p.hlc)
    ensures Above(issued, p) < Above(issued, o)
  {
    assert p in Above(issued, o) && p !in Above(issued, p);
  }

  ghost predicate Good(issued: set<Op>, f: Frontier, cells: map<Cell, Op>, o: Op) {
    Covers(cells, o) || BeatenAbove(issued, f, o)
  }

  /** A good higher operation on the same cell makes `o` good. */
  lemma GoodBelow(issued: set<Op>, f: Frontier, cells: map<Cell, Op>, o: Op, p: Op)
    requires p in issued && p.cell == o.cell && Lt(o.hlc, p.hlc)
    requires Seen(f, p.hlc) ==> Good(issued, f, cells, p)
    ensures Good(issued, f, cells, o)
  {
    if Seen(f, p.hlc) && !Covers(cells, p) {
      var q :| q in issued && q.cell == p.cell && Lt(p.hlc, q.hlc) && !Seen(f, q.hlc);
      assert Lt(o.hlc, q.hlc);
    }
  }

  /** `q` is receiver `r` after a gap-free batch from `view`. */
  ghost predicate Delivery(issued: set<Op>, view: Replica, ops: set<Op>, r: Replica, q: Replica) {
    && UniqueIds(issued)
    && ViewInv(issued, view) && ops <= view.log
    && ViewInv(issued, r)
    && GapFree(ops, view.log, r.frontier)
    && Joined(r, ops, q)
  }

  /** The higher operation that settles an operation newly covered by the frontier. */
  lemma NewlySeen(issued: set<Op>, view: Replica, ops: set<Op>, r: Replica, q: Replica, o: Op)
    returns (p: Op)
    requires Delivery(issued, view, ops, r, q)
    requires o in issued && !Seen(r.frontier, o.hlc) && Seen(q.frontier, o.hlc) && !Covers(q.cells, o)
    ensures p in issued && p.cell == o.cell && Lt(o.hlc, p.hlc)
  {
    SenderSaw(issued, view, ops, r, q, o);
    if Covers(view.cells, o) {
      p := view.cells[o.cell];
      if p.hlc == o.hlc {
        assert SameId(p, o);
        assert Outranks(ops, o);
      }
    } else {
      p :| p in issued && p.cell == o.cell && Lt(o.hlc, p.hlc) && !Seen(view.frontier, p.hlc);
    }
  }

  lemma SenderSaw(issued: set<Op>, view: Replica, ops: set<Op>, r: Replica, q: Replica, o: Op)
    requires Delivery(issued, view, ops, r, q)
    requires o in issued && !Seen(r.frontier, o.hlc) && Seen(q.frontier, o.hlc)
    ensures Seen(view.frontier, o.hlc)
    ensures o in view.log ==> o in ops
    ensures Covers(view.cells, o) ==> view.cells[o.cell] in view.log && view.cells[o.cell].cell == o.cell
  {
    assert Reaches(ops, o.hlc);
    SenderReaches(view, ops, o.hlc);
  }

  lemma SenderReaches(view: Replica, ops: set<Op>, h: Hlc)
    requires Consistent(view) && ops <= view.log && Reaches(ops, h)
    ensures Seen(view.frontier, h)
  {
    var t :| t in ops && t.hlc.device == h.device && Leq(h, t.hlc);
    assert Seen(view.frontier, t.hlc);
  }

  lemma {:induction false} DeliveryGood(issued: set<Op>, view: Replica, ops: set<Op>, r: Replica, q: Replica, o: Op)
    requires Delivery(issued, view, ops, r, q)
    requires o in issued && Seen(q.frontier, o.hlc)
    ensures Good(issued, q.frontier, q.cells, o)
    decreases Above(issued, o)
  {
    if !Covers(q.cells, o) {
      var p: Op;
      if Seen(r.frontier, o.hlc) {
        assert BeatenAbove(issued, r.frontier, o);
        p :| p in issued && p.cell == o.cell && Lt(o.hlc, p.hlc) && !Seen(r.frontier, p.hlc);
      } else {
        p := NewlySeen(issued, view, ops, r, q, o);
      }
      AboveShrinks(issued, o, p);
      if Seen(q.frontier, p.hlc) {
        DeliveryGood(issued, view, ops, r, q, p);
      }
      GoodBelow(issued, q.frontier, q.cells, o, p);
    }
  }

  lemma DeliveryCovers(issued: set<Op>, view: Replica, ops: seq<Op>, r: Replica, pt: int)
    requires UniqueIds(issued)
    requires ViewInv(issued, view) && OpSet(ops) <= view.log && ViewInv(issued, r)
    requires GapFree(OpSet(ops), view.log, r.frontier)
    ensures var q := Merge(r, ops, pt).0; WeaklyCovered(issued, q.frontier, q.cells)
  {
    var q := Merge(r, ops, pt).0;
    if Merge(r, ops, pt).1.Applied? {
      assert r.log + OpSet(ops) <= issued;
      MergeJoins(r, ops, pt);
      forall o <- issued | Seen(q.frontier, o.hlc) ensures Good(issued, q.frontier, q.cells, o) {
        DeliveryGood(issued, view, OpSet(ops), r, q, o);
      }
    }
  }

  // ---------- issuing ----------

  /** New timestamps are above every frontier, so views keep their promise when operations are issued. */
  lemma IssueKeepsViews(issued: set<Op>, more: set<Op>, r: Replica)
    requires UniqueIds(issued + more) && ViewInv(issued, r)
    requires forall o <- more :: !Seen(r.frontier, o.hlc)
    ensures ViewInv(issued + more, r)
  {
    var all := issued + more;
    forall o <- all | Seen(r.frontier, o.hlc) ensures Good(all, r.frontier, r.cells, o) {
      assert o in issued;
      if !Covers(r.cells, o) {
        var p :| p in issued && p.cell == o.cell && Lt(o.hlc, p.hlc) && !Seen(r.frontier, p.hlc);
        assert p in all;
      }
    }
  }

  /** The writer itself: its new operations win or are beaten by its own newer ones. */
  lemma WriterCovered(s: Net, d: Device, drafts: seq<Draft>, author: Author)
    requires Inv(s) && d in s.reps
    ensures var q := Write(s.reps[d], d, drafts, author).0;
      WeaklyCovered(s.issued + OpSet(Issued(s.reps[d], d, drafts, author)), q.frontier, q.cells)
  {
    var r := s.reps[d];
    var more := OpSet(Issued(r, d, drafts, author));
    var all := s.issued + more;
    var q := Write(r, d, drafts, author).0;
    WriteJoins(s.issued, d, r, drafts, author);
    WriteKeepsIds(s.issued, d, r, drafts, author);
    assert RepInv(s, d);
    assert ViewInv(all, r) by {
      MoreUnseen(s.issued, d, r, drafts, author, r.frontier);
      IssueKeepsViews(s.issued, more, r);
    }
    forall o <- all | Seen(q.frontier, o.hlc) ensures Good(all, q.frontier, q.cells, o) {
      WriterGood(s, d, drafts, author, o);
    }
  }

  lemma {:induction false} WriterGood(s: Net, d: Device, drafts: seq<Draft>, author: Author, o: Op)
    requires Inv(s) && d in s.reps
    requires var r := s.reps[d];
      var more := OpSet(Issued(r, d, drafts, author));
      var q := Write(r, d, drafts, author).0;
      && ViewInv(s.issued + more, r) && Joined(r, more, q)
      && o in s.issued + more && Seen(q.frontier, o.hlc)
    ensures var r := s.reps[d]; var more := OpSet(Issued(r, d, drafts, author)); var q := Write(r, d, drafts, author).0;
      Good(s.issued + more, q.frontier, q.cells, o)
    decreases Above(s.issued + OpSet(Issued(s.reps[d], d, drafts, author)), o)
  {
    var r := s.reps[d];
    var more := OpSet(Issued(r, d, drafts, author));
    var all := s.issued + more;
    var q := Write(r, d, drafts, author).0;
    if o in more {
      assert Outranks(more, o);
    } else if !Covers(q.cells, o) {
      if !Seen(r.frontier, o.hlc) {
        var t :| t in more && t.hlc.device == o.hlc.device && Leq(o.hlc, t.hlc);
        IssuedIsNew(s.issued, d, r, drafts, author, t);
      }
      var p :| p in all && p.cell == o.cell && Lt(o.hlc, p.hlc) && !Seen(r.frontier, p.hlc);
      AboveShrinks(all, o, p);
      if Seen(q.frontier, p.hlc) {
        WriterGood(s, d, drafts, author, p);
      }
      GoodBelow(all, q.frontier, q.cells, o, p);
    }
  }

  // ---------- every step keeps the invariant ----------

  /** One replica changes and nothing is issued. */
  lemma PutKeepsInv(s: Net, d: Device, q: Replica)
    requires Inv(s) && d in s.reps
    requires Sound(s.issued, d, q) && WeaklyCovered(s.issued, q.frontier, q.cells)
    requires Within(s.reps[d].frontier, q.frontier)
    requires forall p <- q.peers :: Known(s.reps, p, q.peers[p])
    ensures Inv(Put(s, d, q))
  {
    var t := Put(s, d, q);
    PutSound(s.issued, s.reps, d, q);
    forall e <- t.reps ensures RepInv(t, e) {
      assert SoundRep(t.issued, t.reps, e);
      if e != d { assert RepInv(s, e); }
    }
    forall packet <- t.packets ensures PacketInv(t, packet) {
      assert PacketInv(s, packet);
      if packet.FrontierPacket? {
        KnownGrows(s.reps, d, q, packet.from, packet.have);
      }
    }
  }

  lemma WriteKeepsInv(s: Net, d: Device, drafts: seq<Draft>, author: Author)
    requires Inv(s) && d in s.reps
    ensures Inv(After(s, LocalWrite(d, drafts, author)))
  {
    var r := s.reps[d];
    var more := OpSet(Issued(r, d, drafts, author));
    var t := After(s, LocalWrite(d, drafts, author));
    assert RepInv(s, d);
    WriteAllSound(s.issued, s.reps, d, drafts, author);
    WriteJoins(s.issued, d, r, drafts, author);
    forall e <- t.reps ensures RepInv(t, e) {
      assert RepInv(s, e) && SoundRep(t.issued, t.reps, e);
      if e == d {
        WriterCovered(s, d, drafts, author);
      } else {
        MoreUnseen(s.issued, d, r, drafts, author, s.reps[e].frontier);
        IssueKeepsViews(s.issued, more, s.reps[e]);
      }
    }
    forall packet <- t.packets ensures PacketInv(t, packet) {
      assert PacketInv(s, packet);
      match packet
      case OpsPacket(view, ops) =>
        MoreUnseen(s.issued, d, r, drafts, author, view.frontier);
        IssueKeepsViews(s.issued, more, view);
      case FrontierPacket(from, have) =>
        KnownGrows(s.reps, d, t.reps[d], from, have);
    }
  }

  lemma MergedReplica(issued: set<Op>, d: Device, view: Replica, ops: seq<Op>, r: Replica, pt: int)
    requires UniqueIds(issued) && Sound(issued, d, r) && WeaklyCovered(issued, r.frontier, r.cells)
    requires ViewInv(issued, view) && OpSet(ops) <= view.log && GapFree(OpSet(ops), view.log, r.frontier)
    ensures var q := Merge(r, ops, pt).0;
      && Sound(issued, d, q) && WeaklyCovered(issued, q.frontier, q.cells)
      && Within(r.frontier, q.frontier) && q.peers == r.peers
  {
    MergeSound(issued, d, r, ops, pt);
    DeliveryCovers(issued, view, ops, r, pt);
    MergeGrows(issued, r, ops, pt);
  }

  lemma MergeKeepsInv(s: Net, d: Device, packet: Packet, pt: int)
    requires Inv(s) && Enabled(s, DeliverOps(d, packet, pt))
    ensures Inv(After(s, DeliverOps(d, packet, pt)))
  {
    assert RepInv(s, d) && PacketInv(s, packet);
    MergedReplica(s.issued, d, packet.view, packet.ops, s.reps[d], pt);
    PutKeepsInv(s, d, Merge(s.reps[d], packet.ops, pt).0);
  }

  lemma CompactKeepsInv(s: Net, d: Device)
    requires Inv(s) && d in s.reps
    ensures Inv(Put(s, d, Compact(s.reps[d], false)))
  {
    var q := Compact(s.reps[d], false);
    assert RepInv(s, d);
    CompactSound(s.issued, d, s.reps[d], false);
    assert q.cells == s.reps[d].cells;
    PutKeepsInv(s, d, q);
  }

  lemma ObserveKeepsInv(s: Net, d: Device, h: Hlc, pt: int)
    requires Inv(s) && d in s.reps
    ensures Inv(Put(s, d, ObserveClock(s.reps[d], h, pt).0))
  {
    var r := s.reps[d];
    var q := ObserveClock(r, h, pt).0;
    assert RepInv(s, d);
    ObserveSound(s.issued, d, r, h, pt);
    assert q.frontier == r.frontier && q.cells == r.cells && q.peers == r.peers;
    PutKeepsInv(s, d, q);
  }

  lemma ReopenKeepsInv(s: Net, d: Device)
    requires Inv(s) && d in s.reps
    ensures Inv(Put(s, d, Restart(s.reps[d])))
  {
    assert RepInv(s, d);
    RestartSound(s.issued, d, s.reps[d]);
    PutKeepsInv(s, d, Restart(s.reps[d]));
  }

  lemma RecordKeepsInv(s: Net, d: Device, from: Device, have: Frontier)
    requires Inv(s) && d in s.reps && Known(s.reps, from, have)
    ensures Inv(Put(s, d, RecordPeer(s.reps[d], d, from, have)))
  {
    assert RepInv(s, d);
    PutKeepsInv(s, d, RecordPeer(s.reps[d], d, from, have));
  }

  lemma StepKeepsInv(s: Net, step: Step)
    requires Inv(s) && Enabled(s, step)
    ensures Inv(After(s, step))
  {
    var d := step.device;
    match step
    case LocalWrite(_, drafts, author) => WriteKeepsInv(s, d, drafts, author);
    case SendOps(_, ops) => SendKeepsInv(s, d, OpsPacket(s.reps[d], ops));
    case SendFrontier(_) => SendKeepsInv(s, d, FrontierPacket(d, s.reps[d].frontier));
    case DeliverOps(_, packet, pt) => MergeKeepsInv(s, d, packet, pt);
    case DeliverFrontier(_, packet) =>
      assert PacketInv(s, packet);
      RecordKeepsInv(s, d, packet.from, packet.have);
    case Observe(_, hlc, pt) => ObserveKeepsInv(s, d, hlc, pt);
    case CompactLog(_) => CompactKeepsInv(s, d);
    case Reopen(_) => ReopenKeepsInv(s, d);
  }

  /** A packet shows its sender as it is now. */
  lemma SendKeepsInv(s: Net, from: Device, packet: Packet)
    requires Inv(s) && from in s.reps
    requires match packet
             case OpsPacket(view, ops) => view == s.reps[from] && OpSet(ops) <= view.log
             case FrontierPacket(sender, have) => sender == from && have == s.reps[from].frontier
    ensures Inv(s.(packets := s.packets + {packet}))
  {
    var t := s.(packets := s.packets + {packet});
    assert RepInv(s, from);
    forall d <- t.reps ensures RepInv(t, d) {
      assert RepInv(s, d);
    }
    forall other <- t.packets ensures PacketInv(t, other) {
      if other != packet { assert PacketInv(s, other); }
    }
  }

  lemma InitialInv(s: Net)
    requires Initial(s)
    ensures Inv(s)
  {
    FreshAllSound(s.reps);
    forall d <- s.reps ensures RepInv(s, d) {
      assert SoundRep(s.issued, s.reps, d);
    }
  }

  /** The invariant holds at every point of every run. */
  lemma {:induction false} RunInv(ss: seq<Net>, steps: seq<Step>, i: nat)
    requires IsRun(ss, steps) && i < |ss|
    ensures Inv(ss[i])
  {
    if i == 0 {
      InitialInv(ss[0]);
    } else {
      RunInv(ss, steps, i - 1);
      StepKeepsInv(ss[i - 1], steps[i - 1]);
    }
  }

  // ---------- what the runs deliver ----------

  /** No replica holds an operation that another one lacks. */
  ghost predicate Quiescent(s: Net) {
    forall a, b | a in s.reps && b in s.reps :: Diff(s.reps[a].log, s.reps[b].frontier) == {}
  }

  /** `o` is the last writer of its cell in the whole history. */
  ghost predicate LastWriter(issued: set<Op>, o: Op) {
    o in issued && forall p <- issued :: p.cell == o.cell ==> Leq(p.hlc, o.hlc)
  }

  lemma QuiescentHolds(s: Net, d: Device, o: Op)
    requires Inv(s) && Quiescent(s) && d in s.reps && LastWriter(s.issued, o)
    ensures o.cell in s.reps[d].cells && s.reps[d].cells[o.cell] == o
  {
    var w := o.hlc.device;
    assert Homed(o, s.reps);
    assert RepInv(s, w) && RepInv(s, d);
    LastIsCovered(s.issued, s.reps[w], o);
    assert Diff(s.reps[w].log, s.reps[d].frontier) == {};
    assert o !in Diff(s.reps[w].log, s.reps[d].frontier);
    LastIsCovered(s.issued, s.reps[d], o);
  }

  /** A replica whose frontier covers the last writer of a cell holds it. */
  lemma LastIsCovered(issued: set<Op>, r: Replica, o: Op)
    requires UniqueIds(issued) && ViewInv(issued, r) && LastWriter(issued, o) && Seen(r.frontier, o.hlc)
    ensures o.cell in r.cells && r.cells[o.cell] == o && o in r.log
  {
    assert forall p <- issued | p.cell == o.cell :: !Lt(o.hlc, p.hlc);
    assert Covers(r.cells, o);
    var w := r.cells[o.cell];
    assert Leq(w.hlc, o.hlc);
    assert SameId(w, o);
  }

  /** At any point of any run at which all pairwise diffs are empty, every replica's cells are exactly
      the last writers of everything ever issued: nothing is lost, nothing is made up. */
  lemma QuiescentRunsConverge(ss: seq<Net>, steps: seq<Step>, i: nat, d: Device)
    requires IsRun(ss, steps) && i < |ss| && Quiescent(ss[i]) && d in ss[i].reps
    ensures forall o | LastWriter(ss[i].issued, o) :: o.cell in ss[i].reps[d].cells && ss[i].reps[d].cells[o.cell] == o
    ensures forall c <- ss[i].reps[d].cells :: LastWriter(ss[i].issued, ss[i].reps[d].cells[c])
  {
    RunInv(ss, steps, i);
    QuiescentExact(ss[i], d);
  }

  lemma QuiescentExact(s: Net, d: Device)
    requires Inv(s) && Quiescent(s) && d in s.reps
    ensures forall o | LastWriter(s.issued, o) :: o.cell in s.reps[d].cells && s.reps[d].cells[o.cell] == o
    ensures forall c <- s.reps[d].cells :: LastWriter(s.issued, s.reps[d].cells[c])
  {
    forall o | LastWriter(s.issued, o) ensures o.cell in s.reps[d].cells && s.reps[d].cells[o.cell] == o {
      QuiescentHolds(s, d, o);
    }
    forall c <- s.reps[d].cells ensures LastWriter(s.issued, s.reps[d].cells[c]) {
      CellIsLast(s, d, c);
    }
  }

  lemma CellsWithin(s: Net, a: Device, b: Device)
    requires Inv(s) && Quiescent(s) && a in s.reps && b in s.reps
    ensures MapWithin(s.reps[a].cells, s.reps[b].cells)
  {
    forall c <- s.reps[a].cells ensures c in s.reps[b].cells && s.reps[b].cells[c] == s.reps[a].cells[c] {
      SameCell(s, a, b, c);
    }
  }

  ghost predicate MapWithin(x: map<Cell, Op>, y: map<Cell, Op>) {
    forall c <- x :: c in y && y[c] == x[c]
  }

  lemma MapsEqual(x: map<Cell, Op>, y: map<Cell, Op>)
    requires MapWithin(x, y) && MapWithin(y, x)
    ensures x == y
  {
  }

  lemma QuiescentAgree(s: Net, a: Device, b: Device)
    requires Inv(s) && Quiescent(s) && a in s.reps && b in s.reps
    ensures s.reps[a].cells == s.reps[b].cells
  {
    CellsWithin(s, a, b);
    CellsWithin(s, b, a);
    MapsEqual(s.reps[a].cells, s.reps[b].cells);
  }

  /** Hence all replicas then hold and show the same. */
  lemma QuiescentRunsAgree(ss: seq<Net>, steps: seq<Step>, i: nat, a: Device, b: Device, open: Opener)
    requires IsRun(ss, steps) && i < |ss| && Quiescent(ss[i]) && a in ss[i].reps && b in ss[i].reps
    ensures ss[i].reps[a].cells == ss[i].reps[b].cells
    ensures Dump(ss[i].reps[a].cells, open) == Dump(ss[i].reps[b].cells, open)
  {
    RunInv(ss, steps, i);
    QuiescentAgree(ss[i], a, b);
  }

  lemma SameCell(s: Net, a: Device, b: Device, c: Cell)
    requires Inv(s) && Quiescent(s) && a in s.reps && b in s.reps && c in s.reps[a].cells
    ensures c in s.reps[b].cells && s.reps[b].cells[c] == s.reps[a].cells[c]
  {
    CellIsLast(s, a, c);
    assert RepInv(s, a);
    QuiescentHolds(s, b, s.reps[a].cells[c]);
  }

  lemma {:induction false} LastWriterAbove(issued: set<Op>, o: Op) returns (last: Op)
    requires o in issued
    ensures LastWriter(issued, last) && last.cell == o.cell && Leq(o.hlc, last.hlc)
    decreases Above(issued, o)
  {
    if Above(issued, o) == {} {
      last := o;
      forall p <- issued | p.cell == o.cell ensures Leq(p.hlc, o.hlc) {
        assert p !in Above(issued, o);
      }
    } else {
      var p :| p in Above(issued, o);
      AboveShrinks(issued, o, p);
      last := LastWriterAbove(issued, p);
    }
  }

  lemma CellIsLast(s: Net, d: Device, c: Cell)
    requires Inv(s) && Quiescent(s) && d in s.reps && c in s.reps[d].cells
    ensures LastWriter(s.issued, s.reps[d].cells[c])
  {
    assert RepInv(s, d);
    var last := LastWriterAbove(s.issued, s.reps[d].cells[c]);
    QuiescentHolds(s, d, last);
  }

  // ---------- what compaction may drop ----------

  /** Whatever a compaction removes has reached every recorded peer: the peer's present cells cover it, or
      an operation the peer has yet to see beats it. */
  lemma CompactionDropsAbsorbed(ss: seq<Net>, steps: seq<Step>, i: nat, d: Device, peer: Device, o: Op)
    requires IsRun(ss, steps) && i < |ss| && d in ss[i].reps && peer in ss[i].reps[d].peers
    requires o in ss[i].reps[d].log && o !in Compact(ss[i].reps[d], false).log
    ensures peer in ss[i].reps
    ensures Seen(ss[i].reps[peer].frontier, o.hlc)
    ensures Covers(ss[i].reps[peer].cells, o) || BeatenAbove(ss[i].issued, ss[i].reps[peer].frontier, o)
  {
    RunInv(ss, steps, i);
    assert RepInv(ss[i], d);
    assert Known(ss[i].reps, peer, ss[i].reps[d].peers[peer]);
    assert RepInv(ss[i], peer);
  }

  /** No two operations of a run share an id. */
  lemma RunsHaveUniqueIds(ss: seq<Net>, steps: seq<Step>, i: nat, o: Op, p: Op)
    requires IsRun(ss, steps) && i < |ss| && o in ss[i].issued && p in ss[i].issued && o.hlc == p.hlc
    ensures o == p
  {
    RunInv(ss, steps, i);
    assert SameId(o, p);
  }
}
