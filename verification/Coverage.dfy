/** What a frontier promises in runs of full-diff syncs without tombstone reclamation. */
module Coverage {
  import opened Hlcs
  import Clocks
  import opened Ops
  import opened Replicas
  import Compaction
  import opened Histories
  import opened OpOrder
  import opened SyncRuns

  /** Every issued operation the frontier covers is at or below its cell's winner, even if the operation
      itself was compacted away. */
  ghost predicate Covered(issued: set<Op>, r: Replica) {
    forall o <- issued :: Seen(r.frontier, o.hlc) ==> Covers(r.cells, o)
  }

  ghost predicate EachCovered(issued: set<Op>, reps: map<Device, Replica>) {
    forall d <- reps :: Covered(issued, reps[d])
  }

  ghost predicate AllCovered(w: World) {
    AllSound(w.issued, w.reps) && EachCovered(w.issued, w.reps)
  }

  /** A run in which tombstoned rows are not reclaimed. */
  ghost predicate NoReclaim(steps: seq<Step>) {
    forall i | 0 <= i < |steps| :: steps[i].CompactLog? ==> !steps[i].gc
  }

  // ---------- one direction of a sync ----------

  /** Whatever its log still holds, the sender's cells reach the receiver. */
  lemma DiffCarriesCells(issued: set<Op>, a: Replica, b: Replica, o: Op)
    requires Consistent(a) && a.log <= issued && Covered(issued, b)
    requires Covers(a.cells, o)
    ensures Covers(b.cells, o) || Outranks(Diff(a.log, b.frontier), o)
  {
    var w := a.cells[o.cell];
    assert w in a.log && w.cell == o.cell;
    AboveIsUnseen(w, b.frontier);
    if Seen(b.frontier, w.hlc) {
      assert Covers(b.cells, w);
    } else {
      assert w in Diff(a.log, b.frontier);
    }
  }

  lemma DiffIsCovered(a: Replica, b: Replica, o: Op)
    requires Consistent(a) && Outranks(Diff(a.log, b.frontier), o)
    ensures Covers(a.cells, o)
  {
    var p :| p in Diff(a.log, b.frontier) && p.cell == o.cell && Leq(o.hlc, p.hlc);
    assert Covers(a.cells, p);
  }

  /** The receiver of a full diff ends with the higher of both winners in every cell. */
  lemma JoinIsMaximum(issued: set<Op>, a: Replica, b: Replica, q: Replica)
    requires Consistent(a) && a.log <= issued && Covered(issued, b)
    requires Joined(b, Diff(a.log, b.frontier), q)
    ensures forall o :: Covers(q.cells, o) <==> Covers(a.cells, o) || Covers(b.cells, o)
  {
    forall o ensures Covers(q.cells, o) <==> Covers(a.cells, o) || Covers(b.cells, o) {
      if Covers(a.cells, o) { DiffCarriesCells(issued, a, b, o); }
      if Outranks(Diff(a.log, b.frontier), o) { DiffIsCovered(a, b, o); }
    }
  }

  lemma JoinCovered(issued: set<Op>, a: Replica, b: Replica, q: Replica)
    requires Consistent(a) && a.log <= issued && Covered(issued, a) && Covered(issued, b)
    requires Joined(b, Diff(a.log, b.frontier), q)
    ensures Covered(issued, q)
  {
    JoinIsMaximum(issued, a, b, q);
    forall o <- issued | Seen(q.frontier, o.hlc) ensures Covers(q.cells, o) {
      if !Seen(b.frontier, o.hlc) {
        DiffWasSeen(a, Diff(a.log, b.frontier), o.hlc);
      }
    }
  }

  lemma DiffWasSeen(a: Replica, ops: set<Op>, h: Hlc)
    requires Consistent(a) && ops <= a.log && Reaches(ops, h)
    ensures Seen(a.frontier, h)
  {
    var t :| t in ops && t.hlc.device == h.device && Leq(h, t.hlc);
    assert Seen(a.frontier, t.hlc);
  }

  lemma HalfCovered(issued: set<Op>, a: Replica, b: Replica, q: Replica)
    requires Consistent(a) && a.log <= issued && Covered(issued, a) && Covered(issued, b)
    requires Half(a.log, b, q)
    ensures Covered(issued, q)
  {
    if Joined(b, Diff(a.log, b.frontier), q) { JoinCovered(issued, a, b, q); }
  }

  // ---------- every step keeps coverage ----------

  lemma SyncCovered(w: World, d: Device, e: Device, known: set<Device>, ptA: int, ptB: int)
    requires d in w.reps && e in w.reps && d != e && AllCovered(w)
    ensures Covered(w.issued, SyncPair(w.reps[d], d, w.reps[e], e, known, ptA, ptB).a)
    ensures Covered(w.issued, SyncPair(w.reps[d], d, w.reps[e], e, known, ptA, ptB).b)
  {
    assert SoundRep(w.issued, w.reps, d) && SoundRep(w.issued, w.reps, e);
    var qa, qb := SyncShape(w.issued, d, w.reps[d], e, w.reps[e], known, ptA, ptB);
    HalfCovered(w.issued, w.reps[e], w.reps[d], qa);
    HalfCovered(w.issued, w.reps[d], w.reps[e], qb);
  }

  lemma WriteCovered(issued: set<Op>, d: Device, r: Replica, drafts: seq<Draft>, author: Author)
    requires UniqueIds(issued) && Sound(issued, d, r) && Covered(issued, r)
    ensures Covered(issued + OpSet(Issued(r, d, drafts, author)), Write(r, d, drafts, author).0)
  {
    var more := OpSet(Issued(r, d, drafts, author));
    var q := Write(r, d, drafts, author).0;
    WriteJoins(issued, d, r, drafts, author);
    forall o <- issued + more | Seen(q.frontier, o.hlc) ensures Covers(q.cells, o) {
      if o in more {
        assert Outranks(more, o);
      } else if !Seen(r.frontier, o.hlc) {
        var t :| t in more && t.hlc.device == o.hlc.device && Leq(o.hlc, t.hlc);
        IssuedIsNew(issued, d, r, drafts, author, t);
      }
    }
  }

  lemma OthersCovered(issued: set<Op>, more: set<Op>, r: Replica)
    requires Covered(issued, r) && forall o <- more :: !Seen(r.frontier, o.hlc)
    ensures Covered(issued + more, r)
  {
  }

  lemma PutCovered(issued: set<Op>, reps: map<Device, Replica>, d: Device, q: Replica)
    requires EachCovered(issued, reps) && Covered(issued, q)
    ensures EachCovered(issued, reps[d := q])
  {
  }

  lemma WriteAllCovered(issued: set<Op>, reps: map<Device, Replica>, e: Device, drafts: seq<Draft>, author: Author)
    requires AllSound(issued, reps) && EachCovered(issued, reps) && e in reps
    ensures EachCovered(issued + OpSet(Issued(reps[e], e, drafts, author)),
                        reps[e := Write(reps[e], e, drafts, author).0])
  {
    var more := OpSet(Issued(reps[e], e, drafts, author));
    assert SoundRep(issued, reps, e);
    forall d <- reps | d != e ensures Covered(issued + more, reps[d]) {
      assert SoundRep(issued, reps, d) && Covered(issued, reps[d]);
      MoreUnseen(issued, e, reps[e], drafts, author, reps[d].frontier);
      OthersCovered(issued, more, reps[d]);
    }
    WriteCovered(issued, e, reps[e], drafts, author);
  }

  lemma PutTwoCovered(
    issued: set<Op>, reps: map<Device, Replica>, d: Device, qa: Replica, e: Device, qb: Replica)
    requires EachCovered(issued, reps) && Covered(issued, qa) && Covered(issued, qb)
    ensures EachCovered(issued, reps[e := qb][d := qa])
  {
    PutCovered(issued, reps, e, qb);
    PutCovered(issued, reps[e := qb], d, qa);
  }

  /** The steps that leave frontier and cells alone. */
  lemma QuietShape(w: World, step: Step) returns (q: Replica)
    requires Enabled(w, step) && (step.CompactLog? ==> !step.gc)
    requires !step.LocalWrite? && !step.SyncOnce?
    ensures Next(w, step).issued == w.issued && Next(w, step).reps == w.reps[step.device := q]
    ensures q.frontier == w.reps[step.device].frontier && q.cells == w.reps[step.device].cells
  {
    q := Next(w, step).reps[step.device];
    assert w.reps[step.device].cells - {} == w.reps[step.device].cells;
  }

  lemma SameCovered(issued: set<Op>, r: Replica, q: Replica)
    requires Covered(issued, r) && q.frontier == r.frontier && q.cells == r.cells
    ensures Covered(issued, q)
  {
  }

  lemma StepCovered(w: World, step: Step)
    requires AllCovered(w) && Enabled(w, step) && (step.CompactLog? ==> !step.gc)
    ensures AllCovered(Next(w, step))
  {
    StepSound(w, step);
    if step.LocalWrite? {
      WriteAllCovered(w.issued, w.reps, step.device, step.drafts, step.author);
    } else if step.SyncOnce? {
      var t := SyncPair(w.reps[step.device], step.device, w.reps[step.other], step.other, step.known,
                        step.ptA, step.ptB);
      SyncCovered(w, step.device, step.other, step.known, step.ptA, step.ptB);
      PutTwoCovered(w.issued, w.reps, step.device, t.a, step.other, t.b);
    } else {
      var q := QuietShape(w, step);
      SameCovered(w.issued, w.reps[step.device], q);
      PutCovered(w.issued, w.reps, step.device, q);
    }
  }

  /** At every point of every run without tombstone reclamation, every frontier keeps its promise. */
  lemma {:induction false} RunCovered(ws: seq<World>, steps: seq<Step>, i: nat)
    requires IsRun(ws, steps) && NoReclaim(steps) && i < |ws|
    ensures AllCovered(ws[i])
  {
    if i == 0 {
      FreshAllSound(ws[0].reps);
    } else {
      RunCovered(ws, steps, i - 1);
      StepCovered(ws[i - 1], steps[i - 1]);
    }
  }

  // ---------- convergence ----------

  /** A higher frontier means higher winners. */
  lemma FrontierOrdersCells(issued: set<Op>, a: Replica, b: Replica, o: Op)
    requires Consistent(a) && a.log <= issued && Covered(issued, b)
    requires forall x <- a.log :: Seen(b.frontier, x.hlc)
    requires Covers(a.cells, o)
    ensures Covers(b.cells, o)
  {
    var w := a.cells[o.cell];
    assert w in a.log && w.cell == o.cell;
    assert Covers(b.cells, w);
  }

  lemma SameReachSameCells(a: Replica, b: Replica, issued: set<Op>)
    requires UniqueIds(issued) && Consistent(a) && Consistent(b) && a.log <= issued && b.log <= issued
    requires forall o :: Covers(a.cells, o) <==> Covers(b.cells, o)
    ensures a.cells == b.cells
  {
    forall c | c in a.cells || c in b.cells ensures c in a.cells && c in b.cells && a.cells[c] == b.cells[c] {
      if c in a.cells { assert Covers(a.cells, a.cells[c]); }
      if c in b.cells { assert Covers(b.cells, b.cells[c]); }
      assert SameId(a.cells[c], b.cells[c]);
    }
  }

  lemma MutuallySeen(issued: set<Op>, a: Replica, b: Replica)
    requires UniqueIds(issued) && Consistent(a) && Consistent(b) && a.log <= issued && b.log <= issued
    requires Covered(issued, a) && Covered(issued, b)
    requires forall x <- a.log :: Seen(b.frontier, x.hlc)
    requires forall x <- b.log :: Seen(a.frontier, x.hlc)
    ensures a.cells == b.cells
  {
    forall o ensures Covers(a.cells, o) <==> Covers(b.cells, o) {
      if Covers(a.cells, o) { FrontierOrdersCells(issued, a, b, o); }
      if Covers(b.cells, o) { FrontierOrdersCells(issued, b, a, o); }
    }
    SameReachSameCells(a, b, issued);
  }

  /** In every reachable state, a frontier below another means winners at or below the other's. */
  lemma RunsOrdered(ws: seq<World>, steps: seq<Step>, i: nat, d: Device, e: Device)
    requires IsRun(ws, steps) && NoReclaim(steps) && i < |ws| && d in ws[i].reps && e in ws[i].reps
    requires Within(ws[i].reps[d].frontier, ws[i].reps[e].frontier)
    ensures forall c <- ws[i].reps[d].cells ::
              c in ws[i].reps[e].cells && Leq(ws[i].reps[d].cells[c].hlc, ws[i].reps[e].cells[c].hlc)
  {
    RunCovered(ws, steps, i);
    var a, b := ws[i].reps[d], ws[i].reps[e];
    assert SoundRep(ws[i].issued, ws[i].reps, d);
    forall c <- a.cells ensures c in b.cells && Leq(a.cells[c].hlc, b.cells[c].hlc) {
      assert Covers(a.cells, a.cells[c]);
      FrontierOrdersCells(ws[i].issued, a, b, a.cells[c]);
    }
  }

  /** In every reachable state, two replicas with nothing to send each other hold and show the same. */
  lemma RunsConverge(ws: seq<World>, steps: seq<Step>, i: nat, d: Device, e: Device, open: Opener)
    requires IsRun(ws, steps) && NoReclaim(steps) && i < |ws| && d in ws[i].reps && e in ws[i].reps
    requires Diff(ws[i].reps[d].log, ws[i].reps[e].frontier) == {}
    requires Diff(ws[i].reps[e].log, ws[i].reps[d].frontier) == {}
    ensures ws[i].reps[d].cells == ws[i].reps[e].cells
    ensures Dump(ws[i].reps[d].cells, open) == Dump(ws[i].reps[e].cells, open)
  {
    RunCovered(ws, steps, i);
    assert SoundRep(ws[i].issued, ws[i].reps, d) && SoundRep(ws[i].issued, ws[i].reps, e);
    EmptyDiffSeen(ws[i].reps[d].log, ws[i].reps[e].frontier);
    EmptyDiffSeen(ws[i].reps[e].log, ws[i].reps[d].frontier);
    MutuallySeen(ws[i].issued, ws[i].reps[d], ws[i].reps[e]);
  }

  lemma EmptyDiffSeen(log: set<Op>, f: Frontier)
    requires Diff(log, f) == {}
    ensures forall o <- log :: Seen(f, o.hlc)
  {
    forall o <- log ensures Seen(f, o.hlc) {
      AboveIsUnseen(o, f);
      assert o !in Diff(log, f);
    }
  }

  /** Equal frontiers are a special case. */
  lemma EqualFrontiersConverge(ws: seq<World>, steps: seq<Step>, i: nat, d: Device, e: Device, open: Opener)
    requires IsRun(ws, steps) && NoReclaim(steps) && i < |ws| && d in ws[i].reps && e in ws[i].reps
    requires ws[i].reps[d].frontier == ws[i].reps[e].frontier
    ensures ws[i].reps[d].cells == ws[i].reps[e].cells
    ensures Dump(ws[i].reps[d].cells, open) == Dump(ws[i].reps[e].cells, open)
  {
    RunCovered(ws, steps, i);
    assert SoundRep(ws[i].issued, ws[i].reps, d) && SoundRep(ws[i].issued, ws[i].reps, e);
    MutuallySeen(ws[i].issued, ws[i].reps[d], ws[i].reps[e]);
  }

  // ---------- one successful sync ----------

  /** A successful sync leaves both replicas with the higher winner of the two in every cell, whatever
      either had compacted away before. */
  lemma SyncIsMaximum(
    ws: seq<World>, steps: seq<Step>, i: nat, d: Device, e: Device, known: set<Device>, ptA: int, ptB: int)
    requires IsRun(ws, steps) && NoReclaim(steps) && i < |ws| && Enabled(ws[i], SyncOnce(d, e, known, ptA, ptB))
    requires SyncPair(ws[i].reps[d], d, ws[i].reps[e], e, known, ptA, ptB).complete
    ensures var t := SyncPair(ws[i].reps[d], d, ws[i].reps[e], e, known, ptA, ptB);
      && t.a.cells == t.b.cells
      && forall o :: Covers(t.a.cells, o) <==> Covers(ws[i].reps[d].cells, o) || Covers(ws[i].reps[e].cells, o)
  {
    RunCovered(ws, steps, i);
    SyncJoinsBoth(ws[i].issued, d, ws[i].reps[d], e, ws[i].reps[e], known, ptA, ptB) by {
      assert SoundRep(ws[i].issued, ws[i].reps, d) && SoundRep(ws[i].issued, ws[i].reps, e);
    }
  }

  lemma SyncJoinsBoth(
    issued: set<Op>, d: Device, a: Replica, e: Device, b: Replica, known: set<Device>, ptA: int, ptB: int)
    requires UniqueIds(issued) && Sound(issued, d, a) && Sound(issued, e, b)
    requires Covered(issued, a) && Covered(issued, b)
    requires SyncPair(a, d, b, e, known, ptA, ptB).complete
    ensures var t := SyncPair(a, d, b, e, known, ptA, ptB);
      && t.a.cells == t.b.cells
      && forall o :: Covers(t.a.cells, o) <==> Covers(a.cells, o) || Covers(b.cells, o)
  {
    var qa, qb := SyncShape(issued, d, a, e, b, known, ptA, ptB);
    JoinIsMaximum(issued, a, b, qb);
    JoinIsMaximum(issued, b, a, qa);
    SameReachSameCells(qa, qb, issued);
  }

  // ---------- what compaction may drop ----------

  /** Whatever a compaction removes, tombstone reclamation off, the present cells of every recorded peer cover. */
  lemma DroppedIsCovered(ws: seq<World>, steps: seq<Step>, i: nat, d: Device, peer: Device, o: Op)
    requires IsRun(ws, steps) && NoReclaim(steps) && i < |ws|
    requires d in ws[i].reps && peer in ws[i].reps[d].peers
    requires o in ws[i].reps[d].log && o !in Compaction.Compact(ws[i].reps[d], false).log
    ensures peer in ws[i].reps && Covers(ws[i].reps[peer].cells, o)
  {
    RunCovered(ws, steps, i);
    assert SoundRep(ws[i].issued, ws[i].reps, d);
    assert o in Compaction.Absorbed(ws[i].reps[d]);
    assert Known(ws[i].reps, peer, ws[i].reps[d].peers[peer]);
  }

  // ---------- runs without any compaction ----------

  /** Every entry of the frontier is the timestamp of a logged operation. */
  ghost predicate FrontierLogged(r: Replica) {
    EntriesFrom(r.log, r.frontier)
  }

  lemma CommitLogged(r: Replica, ops: seq<Op>, c: Clocks.Clock)
    requires FrontierLogged(r)
    ensures FrontierLogged(Commit(r, ops, c))
  {
    var q := Commit(r, ops, c);
    forall d | HasEntry(q.frontier, d) ensures exists o <- q.log :: o.hlc == q.frontier[d] {
      FrontierEntries(r.frontier, ops, d);
      if d in r.frontier { assert HasEntry(r.frontier, d); }
    }
  }

  lemma MergeLogged(r: Replica, ops: seq<Op>, pt: int)
    requires FrontierLogged(r)
    ensures FrontierLogged(Merge(r, ops, pt).0)
  {
    var t := ReceiveBatch(r.clock, ops, pt);
    if t.Ticked? { CommitLogged(r, FreshOps(r.log, ops), t.clock); }
  }

  lemma AcceptLogged(r: Replica, ops: seq<Op>, known: set<Device>, pt: int)
    requires FrontierLogged(r)
    ensures FrontierLogged(Accept(r, ops, known, pt).0)
  {
    MergeLogged(r, ops, pt);
  }

  lemma SyncLogged(a: Replica, d: Device, b: Replica, e: Device, known: set<Device>, ptA: int, ptB: int)
    requires FrontierLogged(a) && FrontierLogged(b)
    ensures FrontierLogged(SyncPair(a, d, b, e, known, ptA, ptB).a)
    ensures FrontierLogged(SyncPair(a, d, b, e, known, ptA, ptB).b)
  {
    AcceptLogged(b, OpsSince(a.log, b.frontier), known, ptB);
    AcceptLogged(a, OpsSince(b.log, a.frontier), known, ptA);
  }

  lemma WriteLogged(r: Replica, d: Device, drafts: seq<Draft>, author: Author)
    requires FrontierLogged(r)
    ensures FrontierLogged(Write(r, d, drafts, author).0)
  {
    var m := MakeLocalOps(r.clock, d, drafts, author);
    if m.Made? { CommitLogged(r, m.ops, m.clock); }
  }

  ghost predicate EachLogged(reps: map<Device, Replica>) {
    forall d <- reps :: FrontierLogged(reps[d])
  }

  lemma PutLogged(reps: map<Device, Replica>, d: Device, q: Replica)
    requires EachLogged(reps) && FrontierLogged(q)
    ensures EachLogged(reps[d := q])
  {
  }

  lemma StepLogged(w: World, step: Step)
    requires Enabled(w, step) && !step.CompactLog? && EachLogged(w.reps)
    ensures EachLogged(Next(w, step).reps)
  {
    var d := step.device;
    var r := w.reps[d];
    if step.LocalWrite? {
      WriteLogged(r, d, step.drafts, step.author);
      PutLogged(w.reps, d, Write(r, d, step.drafts, step.author).0);
    } else if step.SyncOnce? {
      var t := SyncPair(r, d, w.reps[step.other], step.other, step.known, step.ptA, step.ptB);
      SyncLogged(r, d, w.reps[step.other], step.other, step.known, step.ptA, step.ptB);
      PutLogged(w.reps, step.other, t.b);
      PutLogged(w.reps[step.other := t.b], d, t.a);
    } else {
      var q := Next(w, step).reps[d];
      assert q.log == r.log && q.frontier == r.frontier;
      PutLogged(w.reps, d, q);
    }
  }

  lemma {:induction false} RunLogged(ws: seq<World>, steps: seq<Step>, i: nat)
    requires IsRun(ws, steps) && i < |ws|
    requires forall k | 0 <= k < |steps| :: !steps[k].CompactLog?
    ensures EachLogged(ws[i].reps)
  {
    if i > 0 {
      RunLogged(ws, steps, i - 1);
      StepLogged(ws[i - 1], steps[i - 1]);
    }
  }

  lemma LoggedEntry(r: Replica, h: Hlc) returns (o: Op)
    requires FrontierLogged(r) && WellKeyed(r.frontier) && Seen(r.frontier, h)
    ensures o in r.log && o.hlc.device == h.device && Leq(h, o.hlc)
  {
    assert HasEntry(r.frontier, h.device);
    o :| o in r.log && o.hlc == r.frontier[h.device];
  }

  lemma LoggedCarriesFrontier(a: Replica, b: Frontier, h: Hlc)
    requires FrontierLogged(a) && WellKeyed(a.frontier) && Seen(a.frontier, h)
    ensures Seen(b, h) || Reaches(Diff(a.log, b), h)
  {
    var o := LoggedEntry(a, h);
    InDiffOrSeen(a.log, b, o);
    if Seen(b, o.hlc) {
      SeenBelow(b, h, o.hlc);
    }
  }

  lemma InDiffOrSeen(log: set<Op>, f: Frontier, o: Op)
    requires o in log
    ensures o in Diff(log, f) <==> !Seen(f, o.hlc)
  {
    AboveIsUnseen(o, f);
  }

  lemma SeenBelow(f: Frontier, h: Hlc, k: Hlc)
    requires Seen(f, k) && h.device == k.device && Leq(h, k)
    ensures Seen(f, h)
  {
  }

  /** Without compaction, a successful sync also leaves both frontiers equal to the pointwise maximum. */
  lemma SyncFrontiers(
    ws: seq<World>, steps: seq<Step>, i: nat, d: Device, e: Device, known: set<Device>, ptA: int, ptB: int)
    requires IsRun(ws, steps) && i < |ws| && Enabled(ws[i], SyncOnce(d, e, known, ptA, ptB))
    requires forall k | 0 <= k < |steps| :: !steps[k].CompactLog?
    requires SyncPair(ws[i].reps[d], d, ws[i].reps[e], e, known, ptA, ptB).complete
    ensures var t := SyncPair(ws[i].reps[d], d, ws[i].reps[e], e, known, ptA, ptB);
      && t.a.frontier == t.b.frontier
      && forall h :: Seen(t.a.frontier, h) <==> Seen(ws[i].reps[d].frontier, h) || Seen(ws[i].reps[e].frontier, h)
  {
    RunSound(ws, steps, i);
    RunLogged(ws, steps, i);
    assert SoundRep(ws[i].issued, ws[i].reps, d) && SoundRep(ws[i].issued, ws[i].reps, e);
    var a, b := ws[i].reps[d], ws[i].reps[e];
    var qa, qb := SyncShape(ws[i].issued, d, a, e, b, known, ptA, ptB);
    JoinedFrontiers(a, b, qa, qb);
  }

  lemma JoinedFrontiers(a: Replica, b: Replica, qa: Replica, qb: Replica)
    requires Consistent(a) && FrontierLogged(a) && Consistent(b) && FrontierLogged(b)
    requires Joined(a, Diff(b.log, a.frontier), qa) && Joined(b, Diff(a.log, b.frontier), qb)
    requires WellKeyed(qa.frontier) && WellKeyed(qb.frontier)
    ensures qa.frontier == qb.frontier
    ensures forall h :: Seen(qa.frontier, h) <==> Seen(a.frontier, h) || Seen(b.frontier, h)
  {
    forall h
      ensures Seen(qa.frontier, h) <==> Seen(a.frontier, h) || Seen(b.frontier, h)
      ensures Seen(qb.frontier, h) <==> Seen(a.frontier, h) || Seen(b.frontier, h)
    {
      JoinedFrontier(a, b, qb, h);
      JoinedFrontier(b, a, qa, h);
    }
    FrontierDetermined(qa.frontier, qb.frontier);
  }

  lemma JoinedFrontier(a: Replica, b: Replica, q: Replica, h: Hlc)
    requires Consistent(a) && FrontierLogged(a) && Joined(b, Diff(a.log, b.frontier), q)
    ensures Seen(q.frontier, h) <==> Seen(a.frontier, h) || Seen(b.frontier, h)
  {
    assert Seen(q.frontier, h) <==> Seen(b.frontier, h) || Reaches(Diff(a.log, b.frontier), h);
    FrontierCarried(a, b.frontier, h);
  }

  lemma FrontierCarried(a: Replica, b: Frontier, h: Hlc)
    requires Consistent(a) && FrontierLogged(a)
    ensures Seen(b, h) || Reaches(Diff(a.log, b), h) <==> Seen(a.frontier, h) || Seen(b, h)
  {
    if Seen(a.frontier, h) {
      LoggedCarriesFrontier(a, b, h);
    } else if Reaches(Diff(a.log, b), h) {
      DiffWasSeen(a, Diff(a.log, b), h);
    }
  }

  lemma NobodyLags(a: Replica, d: Device, e: Device, f: Frontier)
    requires d != e && a.peers.Keys <= {e} && a.frontier == f && WellKeyed(f)
    ensures forall p <- RecordPeer(a, d, e, f).peers :: !Compaction.Lags(RecordPeer(a, d, e, f).peers[p], a.frontier)
  {
  }

  /** Two replicas that know only each other compact to one operation per cell right after a complete sync:
      the frontiers it records hold nothing back. */
  lemma SyncedPairCompacts(
    ws: seq<World>, steps: seq<Step>, i: nat, d: Device, e: Device, known: set<Device>, ptA: int, ptB: int, gc: bool)
    requires IsRun(ws, steps) && i < |ws| && Enabled(ws[i], SyncOnce(d, e, known, ptA, ptB))
    requires forall k | 0 <= k < |steps| :: !steps[k].CompactLog?
    requires SyncPair(ws[i].reps[d], d, ws[i].reps[e], e, known, ptA, ptB).complete
    requires ws[i].reps[d].peers.Keys <= {e}
    ensures var q := Compaction.Compact(SyncPair(ws[i].reps[d], d, ws[i].reps[e], e, known, ptA, ptB).a, gc);
      |q.log| == |q.cells|
  {
    hide SyncPair, Compaction.Compact, Compaction.Lags, Joined;
    SyncFrontiers(ws, steps, i, d, e, known, ptA, ptB);
    RunSound(ws, steps, i);
    assert SoundRep(ws[i].issued, ws[i].reps, d) && SoundRep(ws[i].issued, ws[i].reps, e);
    var a, b := ws[i].reps[d], ws[i].reps[e];
    var qa, qb := SyncShape(ws[i].issued, d, a, e, b, known, ptA, ptB);
    NobodyLags(qa, d, e, qb.frontier);
    Compaction.CompactMinimal(SyncPair(a, d, b, e, known, ptA, ptB).a, gc);
  }
}
