/** Runs of replicas that write, synchronise pairwise with `syncOnce`, compact and restart. */
module SyncRuns {
  import opened Hlcs
  import opened Ops
  import opened Replicas
  import opened Compaction
  import opened Histories
  import opened OpOrder

  /** Applying a batch of honest, signed operations; `known` are the devices whose keys are held. An empty
      batch is not sent. */
  ghost function Accept(r: Replica, ops: seq<Op>, known: set<Device>, pt: int): (Replica, Outcome) {
    if ops == [] then (r, Applied(0))
    else if |ops| > MAX_BATCH_OPS || exists o <- ops :: o.hlc.device !in known then (r, Failed(RejectedOp))
    else Merge(r, ops, pt)
  }

  datatype Synced = Synced(a: Replica, b: Replica, complete: bool)

  /** `syncOnce` once the key directories have met: both diffs are taken first; a rejection leaves the rest
      undone. */
  ghost function SyncPair(
    a: Replica, idA: Device, b: Replica, idB: Device, known: set<Device>, ptA: int, ptB: int): Synced
  {
    var toB := Accept(b, OpsSince(a.log, b.frontier), known, ptB);
    if toB.1.Failed? then Synced(a, toB.0, false)
    else
      var toA := Accept(a, OpsSince(b.log, a.frontier), known, ptA);
      if toA.1.Failed? then Synced(toA.0, toB.0, false)
      else
        Synced(RecordPeer(toA.0, idA, idB, toB.0.frontier), RecordPeer(toB.0, idB, idA, toA.0.frontier), true)
  }

  /** `issued` and `reclaimed` are history variables: every operation ever issued, and every row ever
      reclaimed by any replica. */
  datatype World = World(issued: set<Op>, reps: map<Device, Replica>, reclaimed: set<Row>)

  datatype Step =
    | LocalWrite(device: Device, drafts: seq<Draft>, author: Author)
    | SyncOnce(device: Device, other: Device, known: set<Device>, ptA: int, ptB: int)
    | Observe(device: Device, hlc: Hlc, pt: int)
    | CompactLog(device: Device, gc: bool)
    | Reopen(device: Device)

  function DoomedBy(r: Replica, gc: bool): set<Row> {
    set c | c in Forgotten(r.log, r.cells, Absorbed(r), gc) :: RowOf(c)
  }

  function Put(w: World, d: Device, r: Replica): World {
    w.(reps := w.reps[d := r])
  }

  ghost predicate Enabled(w: World, step: Step) {
    step.device in w.reps && (step.SyncOnce? ==> step.other in w.reps && step.other != step.device)
  }

  ghost function Next(w: World, step: Step): World
    requires Enabled(w, step)
  {
    var d := step.device;
    var r := w.reps[d];
    match step
    case LocalWrite(_, drafts, author) =>
      Put(w, d, Write(r, d, drafts, author).0).(issued := w.issued + OpSet(Issued(r, d, drafts, author)))
    case SyncOnce(_, e, known, ptA, ptB) =>
      var t := SyncPair(r, d, w.reps[e], e, known, ptA, ptB);
      Put(Put(w, e, t.b), d, t.a)
    case Observe(_, hlc, pt) => Put(w, d, ObserveClock(r, hlc, pt).0)
    case CompactLog(_, gc) => Put(w, d, Compact(r, gc)).(reclaimed := w.reclaimed + DoomedBy(r, gc))
    case Reopen(_) => Put(w, d, Restart(r))
  }

  ghost predicate Initial(w: World) {
    w.issued == {} && w.reclaimed == {} && forall d <- w.reps :: w.reps[d] == FRESH
  }

  ghost predicate IsRun(ws: seq<World>, steps: seq<Step>) {
    && |ws| == |steps| + 1
    && Initial(ws[0])
    && forall i | 0 <= i < |steps| :: Enabled(ws[i], steps[i]) && ws[i + 1] == Next(ws[i], steps[i])
  }

  // ---------- one direction of a sync ----------

  /** `q` is `r` after it was sent everything in `log` above its frontier: it took all or nothing. */
  ghost predicate Half(log: set<Op>, r: Replica, q: Replica) {
    || Joined(r, Diff(log, r.frontier), q)
    || (q.log == r.log && q.cells == r.cells && q.frontier == r.frontier)
  }

  ghost predicate Grown(issued: set<Op>, d: Device, r: Replica, q: Replica) {
    Sound(issued, d, q) && Within(r.frontier, q.frontier) && q.peers == r.peers
  }

  lemma MergeHalf(issued: set<Op>, log: set<Op>, r: Replica, ops: seq<Op>, pt: int)
    requires UniqueIds(issued) && Consistent(r) && r.log <= issued && log <= issued
    requires OpSet(ops) == Diff(log, r.frontier)
    ensures Half(log, r, Merge(r, ops, pt).0)
    ensures Merge(r, ops, pt).1.Applied? ==> Joined(r, Diff(log, r.frontier), Merge(r, ops, pt).0)
  {
    if Merge(r, ops, pt).1.Applied? {
      assert r.log + OpSet(ops) <= issued;
      MergeJoins(r, ops, pt);
    }
  }

  lemma NothingJoins(r: Replica)
    ensures Joined(r, {}, r)
  {
    assert r.log + {} == r.log;
  }

  /** What the receiver becomes. */
  lemma AcceptEffect(issued: set<Op>, d: Device, log: set<Op>, r: Replica, known: set<Device>, pt: int)
    requires UniqueIds(issued) && Sound(issued, d, r) && log <= issued
    ensures var (q, o) := Accept(r, OpsSince(log, r.frontier), known, pt);
      && Grown(issued, d, r, q) && Half(log, r, q)
      && (o.Applied? ==> Joined(r, Diff(log, r.frontier), q))
  {
    OpsSinceContents(log, r.frontier);
    AcceptBatch(issued, d, log, r, OpsSince(log, r.frontier), known, pt);
  }

  lemma AcceptBatch(issued: set<Op>, d: Device, log: set<Op>, r: Replica, ops: seq<Op>, known: set<Device>, pt: int)
    requires UniqueIds(issued) && Sound(issued, d, r) && log <= issued
    requires OpSet(ops) == Diff(log, r.frontier)
    ensures Grown(issued, d, r, Accept(r, ops, known, pt).0) && Half(log, r, Accept(r, ops, known, pt).0)
    ensures Accept(r, ops, known, pt).1.Applied? ==> Joined(r, Diff(log, r.frontier), Accept(r, ops, known, pt).0)
  {
    if ops == [] {
      NothingJoins(r);
    } else if |ops| <= MAX_BATCH_OPS && forall o <- ops :: o.hlc.device in known {
      MergeSound(issued, d, r, ops, pt);
      MergeGrows(issued, r, ops, pt);
      MergeHalf(issued, log, r, ops, pt);
    }
  }

  /** The replicas after both directions of a sync, before anything is recorded, and how the result comes
      from them. */
  lemma SyncShape(issued: set<Op>, d: Device, a: Replica, e: Device, b: Replica, known: set<Device>, ptA: int, ptB: int)
    returns (qa: Replica, qb: Replica)
    requires UniqueIds(issued) && Sound(issued, d, a) && Sound(issued, e, b)
    ensures Grown(issued, d, a, qa) && Half(b.log, a, qa)
    ensures Grown(issued, e, b, qb) && Half(a.log, b, qb)
    ensures var t := SyncPair(a, d, b, e, known, ptA, ptB);
      if t.complete then
        && t.a == RecordPeer(qa, d, e, qb.frontier) && t.b == RecordPeer(qb, e, d, qa.frontier)
        && Joined(a, Diff(b.log, a.frontier), qa) && Joined(b, Diff(a.log, b.frontier), qb)
      else t.a == qa && t.b == qb
  {
    AcceptEffect(issued, e, a.log, b, known, ptB);
    AcceptEffect(issued, d, b.log, a, known, ptA);
    qb := Accept(b, OpsSince(a.log, b.frontier), known, ptB).0;
    if Accept(b, OpsSince(a.log, b.frontier), known, ptB).1.Failed? {
      qa := a;
    } else {
      qa := Accept(a, OpsSince(b.log, a.frontier), known, ptA).0;
    }
  }

  // ---------- soundness of every run ----------

  lemma PutGrown(issued: set<Op>, reps: map<Device, Replica>, d: Device, q: Replica)
    requires AllSound(issued, reps) && d in reps && Grown(issued, d, reps[d], q)
    ensures AllSound(issued, reps[d := q])
  {
    assert SoundRep(issued, reps, d);
    PutSound(issued, reps, d, q);
  }

  lemma PutRecorded(issued: set<Op>, reps: map<Device, Replica>, d: Device, e: Device)
    requires AllSound(issued, reps) && d in reps && e in reps
    ensures AllSound(issued, reps[d := RecordPeer(reps[d], d, e, reps[e].frontier)])
  {
    assert SoundRep(issued, reps, d);
    PutSound(issued, reps, d, RecordPeer(reps[d], d, e, reps[e].frontier));
  }

  lemma PutBoth(issued: set<Op>, reps: map<Device, Replica>, d: Device, qa: Replica, e: Device, qb: Replica)
    requires AllSound(issued, reps) && d in reps && e in reps && d != e
    requires Grown(issued, d, reps[d], qa) && Grown(issued, e, reps[e], qb)
    ensures AllSound(issued, reps[e := qb][d := qa])
    ensures AllSound(issued, reps[e := RecordPeer(qb, e, d, qa.frontier)][d := RecordPeer(qa, d, e, qb.frontier)])
  {
    PutGrown(issued, reps, e, qb);
    PutGrown(issued, reps[e := qb], d, qa);
    var two := reps[e := qb][d := qa];
    PutRecorded(issued, two, e, d);
    var rb := RecordPeer(qb, e, d, qa.frontier);
    PutRecorded(issued, two[e := rb], d, e);
    SwapPuts(reps, d, qa, RecordPeer(qa, d, e, qb.frontier), e, qb, rb);
  }

  lemma SwapPuts(reps: map<Device, Replica>, d: Device, qa: Replica, ra: Replica, e: Device, qb: Replica, rb: Replica)
    requires d != e
    ensures reps[e := qb][d := qa][e := rb][d := ra] == reps[e := rb][d := ra]
  {
  }

  lemma SyncSound(w: World, d: Device, e: Device, known: set<Device>, ptA: int, ptB: int)
    requires AllSound(w.issued, w.reps) && Enabled(w, SyncOnce(d, e, known, ptA, ptB))
    ensures AllSound(w.issued, Next(w, SyncOnce(d, e, known, ptA, ptB)).reps)
  {
    assert SoundRep(w.issued, w.reps, d) && SoundRep(w.issued, w.reps, e);
    var qa, qb := SyncShape(w.issued, d, w.reps[d], e, w.reps[e], known, ptA, ptB);
    PutBoth(w.issued, w.reps, d, qa, e, qb);
  }

  lemma ObserveGrown(issued: set<Op>, d: Device, r: Replica, h: Hlc, pt: int)
    requires Sound(issued, d, r)
    ensures Grown(issued, d, r, ObserveClock(r, h, pt).0)
  {
    ObserveSound(issued, d, r, h, pt);
  }

  lemma CompactGrown(issued: set<Op>, d: Device, r: Replica, gc: bool)
    requires Sound(issued, d, r)
    ensures Grown(issued, d, r, Compact(r, gc))
  {
    CompactSound(issued, d, r, gc);
  }

  lemma ReopenGrown(issued: set<Op>, d: Device, r: Replica)
    requires Sound(issued, d, r)
    ensures Grown(issued, d, r, Restart(r))
  {
    RestartSound(issued, d, r);
  }

  lemma StepSound(w: World, step: Step)
    requires AllSound(w.issued, w.reps) && Enabled(w, step)
    ensures AllSound(Next(w, step).issued, Next(w, step).reps)
  {
    var d := step.device;
    var r := w.reps[d];
    assert SoundRep(w.issued, w.reps, d);
    if step.LocalWrite? {
      WriteAllSound(w.issued, w.reps, d, step.drafts, step.author);
    } else if step.SyncOnce? {
      SyncSound(w, d, step.other, step.known, step.ptA, step.ptB);
    } else {
      if step.Observe? { ObserveGrown(w.issued, d, r, step.hlc, step.pt); }
      if step.CompactLog? { CompactGrown(w.issued, d, r, step.gc); }
      if step.Reopen? { ReopenGrown(w.issued, d, r); }
      PutGrown(w.issued, w.reps, d, Next(w, step).reps[d]);
    }
  }

  /** At every point of every run: ids are unique, cells are exact, frontiers cover logs, clocks are
      above frontiers, and no recorded peer frontier exceeds that peer's own. */
  lemma {:induction false} RunSound(ws: seq<World>, steps: seq<Step>, i: nat)
    requires IsRun(ws, steps) && i < |ws|
    ensures AllSound(ws[i].issued, ws[i].reps)
  {
    if i == 0 {
      FreshAllSound(ws[0].reps);
    } else {
      RunSound(ws, steps, i - 1);
      StepSound(ws[i - 1], steps[i - 1]);
    }
  }
}
