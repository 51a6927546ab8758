/** Reclaiming tombstoned rows: when a deleted row can never come back. */
module TombstoneGc {
  import opened Hlcs
  import opened Json
  import opened Ops
  import opened Replicas
  import opened Compaction
  import opened Histories
  import opened SyncRuns
  import opened Coverage

  // ---------- the discipline of the users ----------

  predicate IsTomb(o: Op) {
    o.cell.column == TOMBSTONE
  }

  /** The device has received a tombstone of the row. */
  ghost predicate SawDeleted(issued: set<Op>, f: Frontier, row: Row) {
    exists t <- issued :: t.cell == TombstoneOf(row) && Seen(f, t.hlc)
  }

  /** Tombstones are written as `true`, and nobody writes to a row it has seen deleted. */
  ghost predicate Disciplined(issued: set<Op>, f: Frontier, drafts: seq<Draft>) {
    forall i | 0 <= i < |drafts| ::
      if drafts[i].cell.column == TOMBSTONE then drafts[i].value == Bool(true)
      else !SawDeleted(issued, f, RowOf(drafts[i].cell))
  }

  /** The replica has recorded a frontier of every other one. */
  ghost predicate KnowsAll(reps: map<Device, Replica>, d: Device)
    requires d in reps
  {
    forall e <- reps :: e != d ==> e in reps[d].peers
  }

  /** A run in which writers are disciplined and every replica that compacts has recorded all others. */
  ghost predicate IsGcRun(ws: seq<World>, steps: seq<Step>) {
    && IsRun(ws, steps)
    && forall i | 0 <= i < |steps| ::
         && (steps[i].LocalWrite? ==>
               Disciplined(ws[i].issued, ws[i].reps[steps[i].device].frontier, steps[i].drafts))
         && (steps[i].CompactLog? ==> KnowsAll(ws[i].reps, steps[i].device))
  }

  // ---------- the invariant ----------

  /** Everyone's frontier covers the timestamp. */
  ghost predicate Old(reps: map<Device, Replica>, h: Hlc) {
    forall d <- reps :: Seen(reps[d].frontier, h)
  }

  /** What the frontier covers is still logged, unless everyone's frontier covers it. */
  ghost predicate Held(issued: set<Op>, reps: map<Device, Replica>, r: Replica) {
    forall o <- issued :: Seen(r.frontier, o.hlc) ==> o in r.log || Old(reps, o.hlc)
  }

  predicate TombFor(t: Op, x: Op) {
    IsTomb(t) && !IsTomb(x) && RowOf(x.cell) == RowOf(t.cell)
  }

  /** A frontier of device `p` that covers a tombstone covers everything `p` wrote to that row. */
  ghost predicate Ordered(issued: set<Op>, p: Device, f: Frontier) {
    forall t, x {:trigger TombFor(t, x)} |
      t in issued && x in issued && TombFor(t, x) && x.hlc.device == p && Seen(f, t.hlc) :: Seen(f, x.hlc)
  }

  ghost predicate PeersOrdered(issued: set<Op>, r: Replica) {
    forall p <- r.peers :: Within(r.peers[p], r.frontier) && Ordered(issued, p, r.peers[p])
  }

  ghost predicate LiveCovered(issued: set<Op>, reclaimed: set<Row>, r: Replica) {
    forall o <- issued :: RowOf(o.cell) !in reclaimed && Seen(r.frontier, o.hlc) ==> Covers(r.cells, o)
  }

  ghost predicate HiddenRow(cells: map<Cell, Op>, row: Row) {
    forall c <- cells :: RowOf(c) == row ==> TombstoneOf(row) in cells
  }

  ghost predicate AllHidden(reclaimed: set<Row>, cells: map<Cell, Op>) {
    forall row <- reclaimed :: HiddenRow(cells, row)
  }

  ghost predicate RepGc(issued: set<Op>, reps: map<Device, Replica>, reclaimed: set<Row>, r: Replica) {
    && Held(issued, reps, r)
    && PeersOrdered(issued, r)
    && LiveCovered(issued, reclaimed, r)
    && AllHidden(reclaimed, r.cells)
  }

  ghost predicate EachGc(issued: set<Op>, reps: map<Device, Replica>, reclaimed: set<Row>) {
    forall d <- reps :: RepGc(issued, reps, reclaimed, reps[d])
  }

  ghost predicate TombValues(issued: set<Op>) {
    forall o <- issued :: IsTomb(o) ==> o.value == Bool(true)
  }

  /** Of a reclaimed row everyone has seen a tombstone and every other operation. */
  ghost predicate DeadOld(issued: set<Op>, reps: map<Device, Replica>, reclaimed: set<Row>) {
    && (forall x <- issued :: RowOf(x.cell) in reclaimed && !IsTomb(x) ==> Old(reps, x.hlc))
    && (forall row <- reclaimed :: exists t <- issued :: t.cell == TombstoneOf(row) && Old(reps, t.hlc))
  }

  ghost predicate GcInv(issued: set<Op>, reps: map<Device, Replica>, reclaimed: set<Row>) {
    && AllSound(issued, reps)
    && TombValues(issued)
    && DeadOld(issued, reps, reclaimed)
    && EachGc(issued, reps, reclaimed)
  }

  // ---------- one replica grows ----------

  lemma OldGrows(reps: map<Device, Replica>, d: Device, q: Replica)
    requires d in reps && Within(reps[d].frontier, q.frontier)
    ensures forall h :: Old(reps, h) ==> Old(reps[d := q], h)
  {
  }

  lemma DeadOldGrows(issued: set<Op>, reps: map<Device, Replica>, reclaimed: set<Row>, d: Device, q: Replica)
    requires d in reps && Within(reps[d].frontier, q.frontier) && DeadOld(issued, reps, reclaimed)
    ensures DeadOld(issued, reps[d := q], reclaimed)
  {
    OldGrows(reps, d, q);
  }

  lemma RepGcGrows(
    issued: set<Op>, reps: map<Device, Replica>, reclaimed: set<Row>, r: Replica, d: Device, q: Replica)
    requires d in reps && Within(reps[d].frontier, q.frontier) && RepGc(issued, reps, reclaimed, r)
    ensures RepGc(issued, reps[d := q], reclaimed, r)
  {
    OldGrows(reps, d, q);
  }

  lemma PutGc(issued: set<Op>, reps: map<Device, Replica>, reclaimed: set<Row>, d: Device, q: Replica)
    requires GcInv(issued, reps, reclaimed) && d in reps
    requires Within(reps[d].frontier, q.frontier) && RepGc(issued, reps, reclaimed, q)
    requires AllSound(issued, reps[d := q])
    ensures GcInv(issued, reps[d := q], reclaimed)
  {
    var after := reps[d := q];
    DeadOldGrows(issued, reps, reclaimed, d, q);
    forall e <- after ensures RepGc(issued, after, reclaimed, after[e]) {
      if e != d { assert RepGc(issued, reps, reclaimed, reps[e]); }
      RepGcGrows(issued, reps, reclaimed, after[e], d, q);
    }
  }

  // ---------- a sync ----------

  /** `r` receives from a replica that holds all it has seen. */
  ghost predicate Receives(
    issued: set<Op>, reps: map<Device, Replica>, reclaimed: set<Row>, d: Device, view: Replica, q: Replica)
  {
    && d in reps && UniqueIds(issued) && Consistent(reps[d]) && reps[d].log <= issued
    && Consistent(view) && view.log <= issued && Held(issued, reps, view)
    && DeadOld(issued, reps, reclaimed) && RepGc(issued, reps, reclaimed, reps[d])
    && q.peers == reps[d].peers && Within(reps[d].frontier, q.frontier)
    && Joined(reps[d], Diff(view.log, reps[d].frontier), q)
  }

  /** What the frontier newly covers was in the diff. */
  lemma NewlySeenIsSent(
    issued: set<Op>, reps: map<Device, Replica>, reclaimed: set<Row>, d: Device, view: Replica, q: Replica, o: Op)
    requires Receives(issued, reps, reclaimed, d, view, q)
    requires o in issued && Seen(q.frontier, o.hlc) && !Seen(reps[d].frontier, o.hlc)
    ensures o in Diff(view.log, reps[d].frontier)
  {
    DiffWasSeen(view, Diff(view.log, reps[d].frontier), o.hlc);
    InDiffOrSeen(view.log, reps[d].frontier, o) by {
      assert !Old(reps, o.hlc);
    }
  }

  lemma ReceiverHeld(
    issued: set<Op>, reps: map<Device, Replica>, reclaimed: set<Row>, d: Device, view: Replica, q: Replica)
    requires Receives(issued, reps, reclaimed, d, view, q)
    ensures Held(issued, reps, q)
  {
    forall o <- issued | Seen(q.frontier, o.hlc) ensures o in q.log || Old(reps, o.hlc) {
      if !Seen(reps[d].frontier, o.hlc) {
        NewlySeenIsSent(issued, reps, reclaimed, d, view, q, o);
      }
    }
  }

  lemma ReceiverCovered(
    issued: set<Op>, reps: map<Device, Replica>, reclaimed: set<Row>, d: Device, view: Replica, q: Replica)
    requires Receives(issued, reps, reclaimed, d, view, q)
    ensures LiveCovered(issued, reclaimed, q)
  {
    forall o <- issued | RowOf(o.cell) !in reclaimed && Seen(q.frontier, o.hlc) ensures Covers(q.cells, o) {
      if !Seen(reps[d].frontier, o.hlc) {
        NewlySeenIsSent(issued, reps, reclaimed, d, view, q, o);
        assert Outranks(Diff(view.log, reps[d].frontier), o);
      }
    }
  }

  /** Nothing but tombstones of a reclaimed row is ever sent again. */
  lemma OnlyTombsArrive(
    issued: set<Op>, reps: map<Device, Replica>, reclaimed: set<Row>, d: Device, view: Replica, q: Replica, o: Op)
    requires Receives(issued, reps, reclaimed, d, view, q)
    requires o in Diff(view.log, reps[d].frontier) && RowOf(o.cell) in reclaimed
    ensures IsTomb(o)
  {
    AboveIsUnseen(o, reps[d].frontier);
    assert !Old(reps, o.hlc);
  }

  /** A cell a replica has can be told by what it covers. */
  lemma CellByCover(r: Replica, c: Cell)
    requires Consistent(r) && c in r.cells
    ensures r.cells[c].cell == c && Covers(r.cells, r.cells[c])
  {
  }

  lemma CellComesFrom(r: Replica, ops: set<Op>, q: Replica, c: Cell)
    requires Consistent(q) && Joined(r, ops, q) && c in q.cells
    ensures c in r.cells || exists p <- ops :: p.cell == c
  {
    CellByCover(q, c);
    var w := q.cells[c];
    assert Covers(r.cells, w) || Outranks(ops, w);
  }

  lemma ReceiverHidden(
    issued: set<Op>, reps: map<Device, Replica>, reclaimed: set<Row>, d: Device, view: Replica, q: Replica)
    requires Receives(issued, reps, reclaimed, d, view, q) && Consistent(q)
    ensures AllHidden(reclaimed, q.cells)
  {
    var r, ops := reps[d], Diff(view.log, reps[d].frontier);
    forall row, c | row in reclaimed && c in q.cells && RowOf(c) == row ensures TombstoneOf(row) in q.cells {
      CellComesFrom(r, ops, q, c);
      if c in r.cells {
        assert HiddenRow(r.cells, row);
        CellByCover(r, TombstoneOf(row));
        assert Covers(q.cells, r.cells[TombstoneOf(row)]);
      } else {
        var p :| p in ops && p.cell == c;
        OnlyTombsArrive(issued, reps, reclaimed, d, view, q, p);
      }
    }
  }

  lemma OrderedPeersGrow(issued: set<Op>, r: Replica, q: Replica)
    requires PeersOrdered(issued, r) && q.peers == r.peers && Within(r.frontier, q.frontier)
    ensures PeersOrdered(issued, q)
  {
  }

  lemma ReceiverGc(
    issued: set<Op>, reps: map<Device, Replica>, reclaimed: set<Row>, d: Device, view: Replica, q: Replica)
    requires Receives(issued, reps, reclaimed, d, view, q) && Consistent(q)
    ensures RepGc(issued, reps, reclaimed, q)
  {
    ReceiverHeld(issued, reps, reclaimed, d, view, q);
    ReceiverCovered(issued, reps, reclaimed, d, view, q);
    ReceiverHidden(issued, reps, reclaimed, d, view, q);
    OrderedPeersGrow(issued, reps[d], q);
  }

  /** One direction of a sync, taken or refused. */
  lemma HalfGc(issued: set<Op>, reps: map<Device, Replica>, reclaimed: set<Row>, d: Device, view: Replica, q: Replica)
    requires GcInv(issued, reps, reclaimed) && d in reps
    requires Consistent(view) && view.log <= issued && Held(issued, reps, view)
    requires Grown(issued, d, reps[d], q) && Half(view.log, reps[d], q)
    ensures GcInv(issued, reps[d := q], reclaimed)
  {
    assert SoundRep(issued, reps, d) && RepGc(issued, reps, reclaimed, reps[d]);
    if Joined(reps[d], Diff(view.log, reps[d].frontier), q) {
      ReceiverGc(issued, reps, reclaimed, d, view, q);
    } else {
      OrderedPeersGrow(issued, reps[d], q);
    }
    PutGrown(issued, reps, d, q);
    PutGc(issued, reps, reclaimed, d, q);
  }

  /** After both directions, whatever one frontier covers the other covers. */
  lemma FrontiersMeet(
    issued: set<Op>, reps: map<Device, Replica>, d: Device, a: Replica, b: Replica, qa: Replica, qb: Replica)
    requires d in reps && reps[d].frontier == a.frontier
    requires FrontierIssued(issued, b.frontier) && Held(issued, reps, b) && Consistent(a)
    requires Joined(a, Diff(b.log, a.frontier), qa) && Joined(b, Diff(a.log, b.frontier), qb)
    ensures Within(qb.frontier, qa.frontier)
  {
    forall h | Seen(qb.frontier, h) ensures Seen(qa.frontier, h) {
      if Seen(b.frontier, h) {
        assert HasEntry(b.frontier, h.device);
        var o :| o in issued && o.hlc == b.frontier[h.device];
        assert Seen(b.frontier, o.hlc);
        assert o.hlc.device == h.device;
        if !Seen(a.frontier, o.hlc) {
          assert !Old(reps, o.hlc);
          InDiffOrSeen(b.log, a.frontier, o);
          assert Reaches(Diff(b.log, a.frontier), o.hlc);
        }
        SeenBelow(qa.frontier, h, o.hlc);
      } else {
        DiffWasSeen(a, Diff(a.log, b.frontier), h);
      }
    }
  }

  lemma OwnIsOrdered(issued: set<Op>, p: Device, f: Frontier)
    requires OwnSeen(issued, p, f)
    ensures Ordered(issued, p, f)
  {
  }

  /** Recording the other side's frontier at the end of a complete sync. */
  lemma RecordGc(issued: set<Op>, reps: map<Device, Replica>, reclaimed: set<Row>, d: Device, e: Device)
    requires GcInv(issued, reps, reclaimed) && d in reps && e in reps
    requires Within(reps[e].frontier, reps[d].frontier)
    ensures GcInv(issued, reps[d := RecordPeer(reps[d], d, e, reps[e].frontier)], reclaimed)
  {
    var r := reps[d];
    var q := RecordPeer(r, d, e, reps[e].frontier);
    assert SoundRep(issued, reps, e) && RepGc(issued, reps, reclaimed, r);
    OwnIsOrdered(issued, e, reps[e].frontier);
    PutRecorded(issued, reps, d, e);
    assert RepGc(issued, reps, reclaimed, q);
    PutGc(issued, reps, reclaimed, d, q);
  }

  lemma HeldGrows(issued: set<Op>, reps: map<Device, Replica>, d: Device, q: Replica, view: Replica)
    requires d in reps && Within(reps[d].frontier, q.frontier) && Held(issued, reps, view)
    ensures Held(issued, reps[d := q], view)
  {
    OldGrows(reps, d, q);
  }

  /** The two halves, in order. */
  lemma HalvesGc(
    issued: set<Op>, reps: map<Device, Replica>, reclaimed: set<Row>, d: Device, qa: Replica, e: Device, qb: Replica)
    requires GcInv(issued, reps, reclaimed) && d in reps && e in reps && d != e
    requires Grown(issued, d, reps[d], qa) && Half(reps[e].log, reps[d], qa)
    requires Grown(issued, e, reps[e], qb) && Half(reps[d].log, reps[e], qb)
    ensures GcInv(issued, reps[e := qb][d := qa], reclaimed)
  {
    var a, b := reps[d], reps[e];
    assert SoundRep(issued, reps, d) && SoundRep(issued, reps, e);
    assert RepGc(issued, reps, reclaimed, a) && RepGc(issued, reps, reclaimed, b);
    HalfGc(issued, reps, reclaimed, e, a, qb);
    HeldGrows(issued, reps, e, qb, b);
    HalfGc(issued, reps[e := qb], reclaimed, d, b, qa);
  }

  lemma BothRecordedGc(
    issued: set<Op>, reps: map<Device, Replica>, reclaimed: set<Row>, d: Device, qa: Replica, e: Device, qb: Replica)
    requires GcInv(issued, reps, reclaimed) && d in reps && e in reps && d != e
    requires reps[d] == qa && reps[e] == qb
    requires Within(qa.frontier, qb.frontier) && Within(qb.frontier, qa.frontier)
    ensures GcInv(issued, reps[e := RecordPeer(qb, e, d, qa.frontier)][d := RecordPeer(qa, d, e, qb.frontier)],
                  reclaimed)
  {
    RecordGc(issued, reps, reclaimed, e, d);
    RecordGc(issued, reps[e := RecordPeer(qb, e, d, qa.frontier)], reclaimed, d, e);
  }

  lemma CompleteGc(
    issued: set<Op>, reps: map<Device, Replica>, reclaimed: set<Row>, d: Device, qa: Replica, e: Device, qb: Replica)
    requires GcInv(issued, reps, reclaimed) && d in reps && e in reps && d != e
    requires Grown(issued, d, reps[d], qa) && Joined(reps[d], Diff(reps[e].log, reps[d].frontier), qa)
    requires Grown(issued, e, reps[e], qb) && Joined(reps[e], Diff(reps[d].log, reps[e].frontier), qb)
    ensures GcInv(issued, reps[e := RecordPeer(qb, e, d, qa.frontier)][d := RecordPeer(qa, d, e, qb.frontier)],
                  reclaimed)
  {
    hide GcInv, Grown, Within, RecordPeer, Diff;
    JoinedIsHalf(reps[d], reps[e].log, qa);
    JoinedIsHalf(reps[e], reps[d].log, qb);
    HalvesGc(issued, reps, reclaimed, d, qa, e, qb);
    CompleteMeets(issued, reps, reclaimed, d, qa, e, qb);
    BothRecordedGc(issued, reps[e := qb][d := qa], reclaimed, d, qa, e, qb);
    SwapPuts(reps, d, qa, RecordPeer(qa, d, e, qb.frontier), e, qb, RecordPeer(qb, e, d, qa.frontier));
  }

  lemma JoinedIsHalf(r: Replica, log: set<Op>, q: Replica)
    requires Joined(r, Diff(log, r.frontier), q)
    ensures Half(log, r, q)
  {
  }

  lemma CompleteMeets(
    issued: set<Op>, reps: map<Device, Replica>, reclaimed: set<Row>, d: Device, qa: Replica, e: Device, qb: Replica)
    requires GcInv(issued, reps, reclaimed) && d in reps && e in reps && d != e
    requires Grown(issued, d, reps[d], qa) && Joined(reps[d], Diff(reps[e].log, reps[d].frontier), qa)
    requires Grown(issued, e, reps[e], qb) && Joined(reps[e], Diff(reps[d].log, reps[e].frontier), qb)
    ensures Within(qa.frontier, qb.frontier) && Within(qb.frontier, qa.frontier)
  {
    hide Within, Joined, Grown, Diff;
    var a, b := reps[d], reps[e];
    assert SoundRep(issued, reps, d) && SoundRep(issued, reps, e);
    assert RepGc(issued, reps, reclaimed, a) && RepGc(issued, reps, reclaimed, b);
    FrontiersMeet(issued, reps, d, a, b, qa, qb);
    FrontiersMeet(issued, reps, e, b, a, qb, qa);
  }

  /** The replicas after a sync of two of them. */
  ghost function SyncReps(
    reps: map<Device, Replica>, d: Device, e: Device, known: set<Device>, ptA: int, ptB: int): map<Device, Replica>
    requires d in reps && e in reps
  {
    var t := SyncPair(reps[d], d, reps[e], e, known, ptA, ptB);
    reps[e := t.b][d := t.a]
  }

  lemma SyncGc(
    issued: set<Op>, reps: map<Device, Replica>, reclaimed: set<Row>, d: Device, e: Device, known: set<Device>,
    ptA: int, ptB: int)
    requires GcInv(issued, reps, reclaimed) && d in reps && e in reps && d != e
    ensures GcInv(issued, SyncReps(reps, d, e, known, ptA, ptB), reclaimed)
  {
    assert SoundRep(issued, reps, d) && SoundRep(issued, reps, e);
    var qa, qb := SyncShape(issued, d, reps[d], e, reps[e], known, ptA, ptB);
    if SyncPair(reps[d], d, reps[e], e, known, ptA, ptB).complete {
      CompleteGc(issued, reps, reclaimed, d, qa, e, qb);
    } else {
      HalvesGc(issued, reps, reclaimed, d, qa, e, qb);
    }
  }

  // ---------- a compaction ----------

  /** Whatever a replica that knows everyone may drop, everyone has seen. */
  lemma AbsorbedIsOld(issued: set<Op>, reps: map<Device, Replica>, d: Device, o: Op)
    requires AllSound(issued, reps) && d in reps && KnowsAll(reps, d) && o in Absorbed(reps[d])
    ensures Old(reps, o.hlc)
  {
    assert SoundRep(issued, reps, d);
    forall e <- reps ensures Seen(reps[e].frontier, o.hlc) {
      if e != d {
        assert Known(reps, e, reps[d].peers[e]);
        assert Seen(reps[d].peers[e], o.hlc);
      }
    }
  }

  lemma WriterSawAll(issued: set<Op>, r: Replica, d: Device, t: Op, x: Op)
    requires OwnSeen(issued, d, r.frontier) && PeersOrdered(issued, r)
    requires t in issued && x in issued && TombFor(t, x)
    requires x.hlc.device != d ==> x.hlc.device in r.peers && Seen(r.peers[x.hlc.device], t.hlc)
    ensures Seen(r.frontier, x.hlc)
  {
    if x.hlc.device != d {
      assert Ordered(issued, x.hlc.device, r.peers[x.hlc.device]);
    }
  }

  /** Everything ever written to a row about to be reclaimed has been seen by everyone. */
  lemma DoomedIsOld(
    issued: set<Op>, reps: map<Device, Replica>, reclaimed: set<Row>, d: Device, row: Row, x: Op)
    requires GcInv(issued, reps, reclaimed) && d in reps && KnowsAll(reps, d)
    requires Doomed(reps[d].log, reps[d].cells, Absorbed(reps[d]), row)
    requires x in issued && RowOf(x.cell) == row && !IsTomb(x)
    ensures Old(reps, x.hlc)
  {
    var r := reps[d];
    assert SoundRep(issued, reps, d) && RepGc(issued, reps, reclaimed, r);
    var t := r.cells[TombstoneOf(row)];
    assert t.cell == TombstoneOf(row) && TombFor(t, x);
    assert Homed(x, reps);
    assert Below(r.frontier, r.peers, t.hlc);
    WriterSawAll(issued, r, d, t, x);
    if x in r.log {
      AbsorbedIsOld(issued, reps, d, x);
    }
  }

  lemma CompactedHeld(issued: set<Op>, reps: map<Device, Replica>, reclaimed: set<Row>, d: Device, gc: bool)
    requires GcInv(issued, reps, reclaimed) && d in reps && KnowsAll(reps, d)
    ensures Held(issued, reps, Compact(reps[d], gc))
  {
    var r, q := reps[d], Compact(reps[d], gc);
    assert RepGc(issued, reps, reclaimed, r);
    forall o <- issued | Seen(q.frontier, o.hlc) ensures o in q.log || Old(reps, o.hlc) {
      if o in r.log && o !in q.log {
        AbsorbedIsOld(issued, reps, d, o);
      }
    }
  }

  lemma DoomedRowsAre(r: Replica, gc: bool, row: Row)
    requires row in DoomedBy(r, gc)
    ensures gc && Doomed(r.log, r.cells, Absorbed(r), row)
  {
  }

  lemma NotDoomedKeepsCells(r: Replica, gc: bool, c: Cell)
    requires c in r.cells && RowOf(c) !in DoomedBy(r, gc)
    ensures c in Compact(r, gc).cells && Compact(r, gc).cells[c] == r.cells[c]
  {
    assert c !in Forgotten(r.log, r.cells, Absorbed(r), gc);
  }

  /** Every replica has seen a tombstone of a row one of them may reclaim. */
  lemma DoomedIsHidden(
    issued: set<Op>, reps: map<Device, Replica>, reclaimed: set<Row>, d: Device, row: Row, e: Device)
    requires GcInv(issued, reps, reclaimed) && d in reps && KnowsAll(reps, d) && e in reps
    requires Doomed(reps[d].log, reps[d].cells, Absorbed(reps[d]), row)
    ensures HiddenRow(reps[e].cells, row)
  {
    assert SoundRep(issued, reps, d);
    assert RepGc(issued, reps, reclaimed, reps[e]);
    var t := reps[d].cells[TombstoneOf(row)];
    AbsorbedIsOld(issued, reps, d, t);
    assert t in issued && t.cell == TombstoneOf(row) && RowOf(t.cell) == row;
    assert Seen(reps[e].frontier, t.hlc);
    if row !in reclaimed { assert Covers(reps[e].cells, t); }
  }

  lemma MoreReclaimed(
    issued: set<Op>, reps: map<Device, Replica>, reclaimed: set<Row>, more: set<Row>, r: Replica)
    requires RepGc(issued, reps, reclaimed, r) && AllHidden(more, r.cells)
    ensures RepGc(issued, reps, reclaimed + more, r)
  {
  }

  lemma CompactedHidden(r: Replica, gc: bool, reclaimed: set<Row>)
    requires Consistent(r) && AllHidden(reclaimed, r.cells)
    ensures AllHidden(reclaimed + DoomedBy(r, gc), Compact(r, gc).cells)
  {
    var q := Compact(r, gc);
    forall row, c | row in reclaimed + DoomedBy(r, gc) && c in q.cells && RowOf(c) == row
      ensures TombstoneOf(row) in q.cells
    {
      assert c in r.cells && c !in Forgotten(r.log, r.cells, Absorbed(r), gc);
      if row in DoomedBy(r, gc) {
        DoomedRowsAre(r, gc, row);
      } else {
        assert HiddenRow(r.cells, row);
        assert RowOf(TombstoneOf(row)) == row;
        NotDoomedKeepsCells(r, gc, TombstoneOf(row));
      }
    }
  }

  lemma CompactedCovered(issued: set<Op>, reclaimed: set<Row>, r: Replica, gc: bool)
    requires LiveCovered(issued, reclaimed, r)
    ensures LiveCovered(issued, reclaimed + DoomedBy(r, gc), Compact(r, gc))
  {
    var q := Compact(r, gc);
    forall o <- issued | RowOf(o.cell) !in reclaimed + DoomedBy(r, gc) && Seen(q.frontier, o.hlc)
      ensures Covers(q.cells, o)
    {
      assert Covers(r.cells, o);
      NotDoomedKeepsCells(r, gc, o.cell);
    }
  }

  lemma CompactGc(issued: set<Op>, reps: map<Device, Replica>, reclaimed: set<Row>, d: Device, gc: bool)
    requires GcInv(issued, reps, reclaimed) && d in reps && KnowsAll(reps, d)
    ensures GcInv(issued, reps[d := Compact(reps[d], gc)], reclaimed + DoomedBy(reps[d], gc))
  {
    var r, q, more := reps[d], Compact(reps[d], gc), DoomedBy(reps[d], gc);
    assert SoundRep(issued, reps, d) && RepGc(issued, reps, reclaimed, r);
    CompactGrown(issued, d, r, gc);
    PutGrown(issued, reps, d, q);
    ReclaimMore(issued, reps, reclaimed, d, gc);
    CompactedHeld(issued, reps, reclaimed, d, gc);
    CompactedCovered(issued, reclaimed, r, gc);
    CompactedHidden(r, gc, reclaimed);
    assert RepGc(issued, reps, reclaimed + more, q);
    PutGc(issued, reps, reclaimed + more, d, q);
  }

  /** The rows may be counted as reclaimed already before the replica drops them. */
  lemma ReclaimMore(issued: set<Op>, reps: map<Device, Replica>, reclaimed: set<Row>, d: Device, gc: bool)
    requires GcInv(issued, reps, reclaimed) && d in reps && KnowsAll(reps, d)
    ensures GcInv(issued, reps, reclaimed + DoomedBy(reps[d], gc))
  {
    var r, more := reps[d], DoomedBy(reps[d], gc);
    forall e <- reps ensures RepGc(issued, reps, reclaimed + more, reps[e]) {
      assert RepGc(issued, reps, reclaimed, reps[e]);
      forall row <- more ensures HiddenRow(reps[e].cells, row) {
        DoomedRowsAre(r, gc, row);
        DoomedIsHidden(issued, reps, reclaimed, d, row, e);
      }
      MoreReclaimed(issued, reps, reclaimed, more, reps[e]);
    }
    MoreDead(issued, reps, reclaimed, d, gc);
  }

  lemma MoreDead(issued: set<Op>, reps: map<Device, Replica>, reclaimed: set<Row>, d: Device, gc: bool)
    requires GcInv(issued, reps, reclaimed) && d in reps && KnowsAll(reps, d)
    ensures DeadOld(issued, reps, reclaimed + DoomedBy(reps[d], gc))
  {
    var r, more := reps[d], DoomedBy(reps[d], gc);
    forall x <- issued | RowOf(x.cell) in reclaimed + more && !IsTomb(x) ensures Old(reps, x.hlc) {
      if RowOf(x.cell) !in reclaimed {
        DoomedRowsAre(r, gc, RowOf(x.cell));
        DoomedIsOld(issued, reps, reclaimed, d, RowOf(x.cell), x);
      }
    }
    forall row <- reclaimed + more ensures exists t <- issued :: t.cell == TombstoneOf(row) && Old(reps, t.hlc) {
      if row !in reclaimed {
        DoomedRowsAre(r, gc, row);
        assert SoundRep(issued, reps, d);
        AbsorbedIsOld(issued, reps, d, r.cells[TombstoneOf(row)]);
      }
    }
  }

  // ---------- a write ----------

  lemma DisciplinedOps(issued: set<Op>, r: Replica, d: Device, drafts: seq<Draft>, author: Author, x: Op)
    requires Disciplined(issued, r.frontier, drafts) && x in Issued(r, d, drafts, author)
    ensures IsTomb(x) ==> x.value == Bool(true)
    ensures !IsTomb(x) ==> !SawDeleted(issued, r.frontier, RowOf(x.cell))
  {
    LocalOpsCarryDrafts(r.clock, d, drafts, author);
    var ops := Issued(r, d, drafts, author);
    var i :| 0 <= i < |ops| && ops[i] == x;
    assert x.cell == drafts[i].cell && x.value == StoredValue(author, drafts[i], x.hlc);
  }

  /** A recorded frontier stays ordered: a new operation is on no row its writer has seen deleted, and a
      new tombstone is above every frontier. */
  lemma OrderedStays(issued: set<Op>, more: set<Op>, p: Device, own: Frontier, f: Frontier)
    requires Ordered(issued, p, f) && Within(f, own)
    requires forall o <- more :: !Seen(f, o.hlc)
    requires forall x <- more | x.hlc.device == p && !IsTomb(x) :: !SawDeleted(issued, own, RowOf(x.cell))
    ensures Ordered(issued + more, p, f)
  {
    forall t, x | t in issued + more && x in issued + more && TombFor(t, x) && x.hlc.device == p && Seen(f, t.hlc)
      ensures Seen(f, x.hlc)
    {
      assert t in issued && Seen(own, t.hlc) && t.cell == TombstoneOf(RowOf(x.cell));
      assert SawDeleted(issued, own, RowOf(x.cell));
    }
  }

  lemma WriteOrdered(
    issued: set<Op>, reps: map<Device, Replica>, reclaimed: set<Row>,
    d: Device, drafts: seq<Draft>, author: Author, e: Device)
    requires GcInv(issued, reps, reclaimed) && d in reps && e in reps
    requires Disciplined(issued, reps[d].frontier, drafts)
    ensures PeersOrdered(issued + OpSet(Issued(reps[d], d, drafts, author)), reps[e])
  {
    var more := OpSet(Issued(reps[d], d, drafts, author));
    assert SoundRep(issued, reps, d) && SoundRep(issued, reps, e) && RepGc(issued, reps, reclaimed, reps[e]);
    forall p <- reps[e].peers ensures Ordered(issued + more, p, reps[e].peers[p]) {
      var f := reps[e].peers[p];
      assert Known(reps, p, f);
      assert SoundRep(issued, reps, p);
      MoreUnseen(issued, d, reps[d], drafts, author, reps[p].frontier);
      forall x <- more | x.hlc.device == p && !IsTomb(x) ensures !SawDeleted(issued, reps[p].frontier, RowOf(x.cell)) {
        IssuedIsNew(issued, d, reps[d], drafts, author, x);
        DisciplinedOps(issued, reps[d], d, drafts, author, x);
      }
      OrderedStays(issued, more, p, reps[p].frontier, f);
    }
  }

  /** A replica that does not write: nothing new is below its frontier. */
  lemma IssueGc(
    issued: set<Op>, more: set<Op>, reps: map<Device, Replica>, reclaimed: set<Row>, r: Replica)
    requires RepGc(issued, reps, reclaimed, r) && PeersOrdered(issued + more, r)
    requires forall o <- more :: !Seen(r.frontier, o.hlc)
    ensures RepGc(issued + more, reps, reclaimed, r)
  {
  }

  /** No new operation but a tombstone is on a reclaimed row. */
  lemma NewOnReclaimed(
    issued: set<Op>, reps: map<Device, Replica>, reclaimed: set<Row>,
    d: Device, drafts: seq<Draft>, author: Author, x: Op)
    requires GcInv(issued, reps, reclaimed) && d in reps && Disciplined(issued, reps[d].frontier, drafts)
    requires x in Issued(reps[d], d, drafts, author) && RowOf(x.cell) in reclaimed
    ensures IsTomb(x)
  {
    DisciplinedOps(issued, reps[d], d, drafts, author, x);
    var t :| t in issued && t.cell == TombstoneOf(RowOf(x.cell)) && Old(reps, t.hlc);
    assert Seen(reps[d].frontier, t.hlc);
  }

  lemma WriteDead(
    issued: set<Op>, reps: map<Device, Replica>, reclaimed: set<Row>, d: Device, drafts: seq<Draft>, author: Author)
    requires GcInv(issued, reps, reclaimed) && d in reps && Disciplined(issued, reps[d].frontier, drafts)
    ensures var more := OpSet(Issued(reps[d], d, drafts, author));
      DeadOld(issued + more, reps, reclaimed) && TombValues(issued + more)
  {
    var more := OpSet(Issued(reps[d], d, drafts, author));
    forall x <- more ensures (IsTomb(x) ==> x.value == Bool(true)) && (RowOf(x.cell) in reclaimed ==> IsTomb(x)) {
      DisciplinedOps(issued, reps[d], d, drafts, author, x);
      if RowOf(x.cell) in reclaimed { NewOnReclaimed(issued, reps, reclaimed, d, drafts, author, x); }
    }
  }

  lemma WriterHidden(
    issued: set<Op>, reps: map<Device, Replica>, reclaimed: set<Row>, d: Device, drafts: seq<Draft>, author: Author)
    requires GcInv(issued, reps, reclaimed) && d in reps && Disciplined(issued, reps[d].frontier, drafts)
    ensures AllHidden(reclaimed, Write(reps[d], d, drafts, author).0.cells)
  {
    var r := reps[d];
    var ops := OpSet(Issued(r, d, drafts, author));
    var q := Write(r, d, drafts, author).0;
    assert SoundRep(issued, reps, d) && RepGc(issued, reps, reclaimed, r);
    WriteJoins(issued, d, r, drafts, author);
    forall row, c | row in reclaimed && c in q.cells && RowOf(c) == row ensures TombstoneOf(row) in q.cells {
      CellComesFrom(r, ops, q, c);
      if c in r.cells {
        assert HiddenRow(r.cells, row);
        CellByCover(r, TombstoneOf(row));
        assert Covers(q.cells, r.cells[TombstoneOf(row)]);
      } else {
        var p :| p in ops && p.cell == c;
        NewOnReclaimed(issued, reps, reclaimed, d, drafts, author, p);
      }
    }
  }

  lemma WriterCoveredHeld(
    issued: set<Op>, reps: map<Device, Replica>, reclaimed: set<Row>, d: Device, drafts: seq<Draft>, author: Author)
    requires GcInv(issued, reps, reclaimed) && d in reps
    ensures var q := Write(reps[d], d, drafts, author).0; var all := issued + OpSet(Issued(reps[d], d, drafts, author));
      Held(all, reps, q) && LiveCovered(all, reclaimed, q)
  {
    var r := reps[d];
    var more := OpSet(Issued(r, d, drafts, author));
    var q := Write(r, d, drafts, author).0;
    assert SoundRep(issued, reps, d) && RepGc(issued, reps, reclaimed, r);
    WriteJoins(issued, d, r, drafts, author);
    forall o <- issued + more | Seen(q.frontier, o.hlc)
      ensures o in q.log || Old(reps, o.hlc)
      ensures RowOf(o.cell) !in reclaimed ==> Covers(q.cells, o)
    {
      if o in more {
        assert Outranks(more, o);
      } else if !Seen(r.frontier, o.hlc) {
        var t :| t in more && t.hlc.device == o.hlc.device && Leq(o.hlc, t.hlc);
        IssuedIsNew(issued, d, r, drafts, author, t);
      }
    }
  }

  lemma WriteGc(
    issued: set<Op>, reps: map<Device, Replica>, reclaimed: set<Row>, d: Device, drafts: seq<Draft>, author: Author)
    requires GcInv(issued, reps, reclaimed) && d in reps && Disciplined(issued, reps[d].frontier, drafts)
    ensures GcInv(issued + OpSet(Issued(reps[d], d, drafts, author)), reps[d := Write(reps[d], d, drafts, author).0],
                  reclaimed)
  {
    var r := reps[d];
    var more := OpSet(Issued(r, d, drafts, author));
    var q := Write(r, d, drafts, author).0;
    var after := reps[d := q];
    assert SoundRep(issued, reps, d);
    WriteAllSound(issued, reps, d, drafts, author);
    WriteJoins(issued, d, r, drafts, author);
    WriteDead(issued, reps, reclaimed, d, drafts, author);
    DeadOldGrows(issued + more, reps, reclaimed, d, q);
    forall e <- after ensures RepGc(issued + more, after, reclaimed, after[e]) {
      WriteOrdered(issued, reps, reclaimed, d, drafts, author, e);
      if e == d {
        WriterCoveredHeld(issued, reps, reclaimed, d, drafts, author);
        WriterHidden(issued, reps, reclaimed, d, drafts, author);
        OrderedPeersGrow(issued + more, r, q);
      } else {
        assert SoundRep(issued, reps, e) && RepGc(issued, reps, reclaimed, reps[e]);
        MoreUnseen(issued, d, r, drafts, author, reps[e].frontier);
        IssueGc(issued, more, reps, reclaimed, reps[e]);
      }
      RepGcGrows(issued + more, reps, reclaimed, after[e], d, q);
    }
  }

  // ---------- runs ----------

  lemma SameGc(issued: set<Op>, reps: map<Device, Replica>, reclaimed: set<Row>, r: Replica, q: Replica)
    requires RepGc(issued, reps, reclaimed, r)
    requires q.log == r.log && q.cells == r.cells && q.frontier == r.frontier && q.peers == r.peers
    ensures RepGc(issued, reps, reclaimed, q)
  {
  }

  lemma QuietGcShape(w: World, step: Step) returns (q: Replica)
    requires Enabled(w, step) && (step.Observe? || step.Reopen?)
    ensures Next(w, step) == w.(reps := w.reps[step.device := q])
    ensures var r := w.reps[step.device];
      q.log == r.log && q.cells == r.cells && q.frontier == r.frontier && q.peers == r.peers
  {
    q := Next(w, step).reps[step.device];
  }

  lemma PutSameGc(issued: set<Op>, reps: map<Device, Replica>, reclaimed: set<Row>, d: Device, q: Replica)
    requires GcInv(issued, reps, reclaimed) && d in reps && AllSound(issued, reps[d := q])
    requires q.log == reps[d].log && q.cells == reps[d].cells
    requires q.frontier == reps[d].frontier && q.peers == reps[d].peers
    ensures GcInv(issued, reps[d := q], reclaimed)
  {
    SameGc(issued, reps, reclaimed, reps[d], q);
    PutGc(issued, reps, reclaimed, d, q);
  }

  lemma StepGc(w: World, step: Step)
    requires GcInv(w.issued, w.reps, w.reclaimed) && Enabled(w, step)
    requires step.LocalWrite? ==> Disciplined(w.issued, w.reps[step.device].frontier, step.drafts)
    requires step.CompactLog? ==> KnowsAll(w.reps, step.device)
    ensures GcInv(Next(w, step).issued, Next(w, step).reps, Next(w, step).reclaimed)
  {
    if step.LocalWrite? {
      WriteGc(w.issued, w.reps, w.reclaimed, step.device, step.drafts, step.author);
    } else if step.SyncOnce? {
      SyncGc(w.issued, w.reps, w.reclaimed, step.device, step.other, step.known, step.ptA, step.ptB);
    } else if step.CompactLog? {
      CompactGc(w.issued, w.reps, w.reclaimed, step.device, step.gc);
    } else {
      StepSound(w, step);
      var q := QuietGcShape(w, step);
      PutSameGc(w.issued, w.reps, w.reclaimed, step.device, q);
    }
  }

  lemma InitialGc(w: World)
    requires Initial(w)
    ensures GcInv(w.issued, w.reps, w.reclaimed)
  {
    FreshAllSound(w.reps);
    forall d <- w.reps ensures RepGc({}, w.reps, {}, w.reps[d]) {
      assert w.reps[d] == FRESH;
    }
  }

  lemma {:induction false} RunGc(ws: seq<World>, steps: seq<Step>, i: nat)
    requires IsGcRun(ws, steps) && i < |ws|
    ensures GcInv(ws[i].issued, ws[i].reps, ws[i].reclaimed)
  {
    if i == 0 {
      InitialGc(ws[0]);
    } else {
      RunGc(ws, steps, i - 1);
      StepGc(ws[i - 1], steps[i - 1]);
    }
  }

  lemma {:induction false} ReclaimedStays(ws: seq<World>, steps: seq<Step>, i: nat, j: nat, row: Row)
    requires IsRun(ws, steps) && i <= j < |ws| && row in ws[i].reclaimed
    ensures row in ws[j].reclaimed
  {
    if i < j { ReclaimedStays(ws, steps, i, j - 1, row); }
  }

  lemma TombstoneWins(issued: set<Op>, r: Replica, row: Row)
    requires Consistent(r) && r.log <= issued && TombValues(issued) && HiddenRow(r.cells, row)
    ensures !Visible(r.cells, row)
  {
    if TombstoneOf(row) in r.cells {
      var t := r.cells[TombstoneOf(row)];
      assert t in r.log && IsTomb(t);
    }
  }

  /** A row that any replica has reclaimed never becomes visible again, on any replica. */
  lemma NoResurrection(ws: seq<World>, steps: seq<Step>, i: nat, j: nat, d: Device, row: Row)
    requires IsGcRun(ws, steps) && i <= j < |ws| && row in ws[i].reclaimed && d in ws[j].reps
    ensures !Visible(ws[j].reps[d].cells, row)
  {
    RunGc(ws, steps, j);
    ReclaimedStays(ws, steps, i, j, row);
    var w := ws[j];
    assert SoundRep(w.issued, w.reps, d) && RepGc(w.issued, w.reps, w.reclaimed, w.reps[d]);
    TombstoneWins(w.issued, w.reps[d], row);
  }

  lemma LiveCarried(issued: set<Op>, reclaimed: set<Row>, a: Replica, b: Replica, c: Cell)
    requires Consistent(a) && a.log <= issued && LiveCovered(issued, reclaimed, b)
    requires Diff(a.log, b.frontier) == {} && c in a.cells && RowOf(c) !in reclaimed
    ensures a.cells[c].cell == c && a.cells[c] in issued && Covers(b.cells, a.cells[c])
  {
    EmptyDiffSeen(a.log, b.frontier);
    CellByCover(a, c);
  }

  lemma SameWinner(issued: set<Op>, x: map<Cell, Op>, y: map<Cell, Op>, c: Cell)
    requires UniqueIds(issued) && c in x && c in y && x[c] in issued && y[c] in issued
    requires x[c].cell == c == y[c].cell && Covers(y, x[c]) && Covers(x, y[c])
    ensures x[c] == y[c]
  {
    assert SameId(x[c], y[c]);
  }

  lemma LiveCellAgrees(w: World, d: Device, e: Device, c: Cell)
    requires d in w.reps && e in w.reps && GcInv(w.issued, w.reps, w.reclaimed)
    requires Diff(w.reps[d].log, w.reps[e].frontier) == {} && Diff(w.reps[e].log, w.reps[d].frontier) == {}
    requires c in w.reps[d].cells && RowOf(c) !in w.reclaimed
    ensures c in w.reps[e].cells && w.reps[e].cells[c] == w.reps[d].cells[c]
  {
    assert SoundRep(w.issued, w.reps, d) && SoundRep(w.issued, w.reps, e);
    assert RepGc(w.issued, w.reps, w.reclaimed, w.reps[d]) && RepGc(w.issued, w.reps, w.reclaimed, w.reps[e]);
    LiveCarried(w.issued, w.reclaimed, w.reps[d], w.reps[e], c);
    LiveCarried(w.issued, w.reclaimed, w.reps[e], w.reps[d], c);
    SameWinner(w.issued, w.reps[d].cells, w.reps[e].cells, c);
  }

  lemma ReclaimedInvisible(w: World, d: Device)
    requires GcInv(w.issued, w.reps, w.reclaimed) && d in w.reps
    ensures forall row | Visible(w.reps[d].cells, row) :: row !in w.reclaimed
  {
    forall row | Visible(w.reps[d].cells, row) ensures row !in w.reclaimed {
      if row in w.reclaimed {
        assert SoundRep(w.issued, w.reps, d) && RepGc(w.issued, w.reps, w.reclaimed, w.reps[d]);
        TombstoneWins(w.issued, w.reps[d], row);
      }
    }
  }

  ghost predicate LiveAgree(reclaimed: set<Row>, x: map<Cell, Op>, y: map<Cell, Op>) {
    forall c <- x :: RowOf(c) !in reclaimed ==> c in y && y[c] == x[c]
  }

  lemma LiveVisible(reclaimed: set<Row>, x: map<Cell, Op>, y: map<Cell, Op>, row: Row)
    requires LiveAgree(reclaimed, x, y) && LiveAgree(reclaimed, y, x) && row !in reclaimed
    requires Visible(x, row)
    ensures Visible(y, row)
  {
    var c :| c in x && RowOf(c) == row;
    assert RowOf(TombstoneOf(row)) == row;
  }

  lemma LiveDump(reclaimed: set<Row>, x: map<Cell, Op>, y: map<Cell, Op>, open: Opener)
    requires LiveAgree(reclaimed, x, y) && LiveAgree(reclaimed, y, x)
    requires forall row | Visible(x, row) :: row !in reclaimed
    requires forall row | Visible(y, row) :: row !in reclaimed
    ensures Dump(x, open) == Dump(y, open)
  {
    forall row ensures Visible(x, row) <==> Visible(y, row) {
      if Visible(x, row) { LiveVisible(reclaimed, x, y, row); }
      if Visible(y, row) { LiveVisible(reclaimed, y, x, row); }
    }
    DumpAlike(x, y, open);
  }

  /** With reclamation too, two replicas with nothing to send each other show the same. */
  lemma GcRunsConverge(ws: seq<World>, steps: seq<Step>, i: nat, d: Device, e: Device, open: Opener)
    requires IsGcRun(ws, steps) && i < |ws| && d in ws[i].reps && e in ws[i].reps
    requires Diff(ws[i].reps[d].log, ws[i].reps[e].frontier) == {}
    requires Diff(ws[i].reps[e].log, ws[i].reps[d].frontier) == {}
    ensures Dump(ws[i].reps[d].cells, open) == Dump(ws[i].reps[e].cells, open)
  {
    RunGc(ws, steps, i);
    AgreeingDumps(ws[i], d, e, open);
  }

  lemma AgreeingDumps(w: World, d: Device, e: Device, open: Opener)
    requires GcInv(w.issued, w.reps, w.reclaimed) && d in w.reps && e in w.reps
    requires Diff(w.reps[d].log, w.reps[e].frontier) == {} && Diff(w.reps[e].log, w.reps[d].frontier) == {}
    ensures Dump(w.reps[d].cells, open) == Dump(w.reps[e].cells, open)
  {
    ReclaimedInvisible(w, d);
    ReclaimedInvisible(w, e);
    forall c <- w.reps[d].cells | RowOf(c) !in w.reclaimed
      ensures c in w.reps[e].cells && w.reps[e].cells[c] == w.reps[d].cells[c]
    {
      LiveCellAgrees(w, d, e, c);
    }
    forall c <- w.reps[e].cells | RowOf(c) !in w.reclaimed
      ensures c in w.reps[d].cells && w.reps[d].cells[c] == w.reps[e].cells[c]
    {
      LiveCellAgrees(w, e, d, c);
    }
    LiveDump(w.reclaimed, w.reps[d].cells, w.reps[e].cells, open);
  }
}
