/** A clock once observed stays observed: in runs of replicas that write, synchronise, compact and are opened again,
    nobody ever writes at or below a timestamp it accepted. */
module Observed {
  import opened Hlcs
  import opened Clocks
  import opened Ops
  import opened Replicas
  import Compaction
  import opened Histories
  import opened OpOrder
  import opened SyncRuns
  import opened ClockRange
  import Remembered

  /** The persisted clock has not fallen. */
  ghost predicate Kept(r: Replica, q: Replica) {
    Packed(r.saved) <= Packed(q.saved)
  }

  lemma AcceptKept(r: Replica, ops: seq<Op>, known: set<Device>, pt: int)
    requires Ahead(r)
    ensures Kept(r, Accept(r, ops, known, pt).0)
  {
    hide Receive, FreshOps;
    if ops != [] { ReceivedRange(r.clock, MaxHlc(ops), pt); }
  }

  lemma SyncKept(a: Replica, d: Device, b: Replica, e: Device, known: set<Device>, ptA: int, ptB: int)
    requires Ahead(a) && Ahead(b)
    ensures var t := SyncPair(a, d, b, e, known, ptA, ptB); Kept(a, t.a) && Kept(b, t.b)
  {
    hide Accept, OpsSince;
    AcceptKept(b, OpsSince(a.log, b.frontier), known, ptB);
    AcceptKept(a, OpsSince(b.log, a.frontier), known, ptA);
  }

  lemma OwnStepKept(r: Replica, d: Device, author: Author, call: Call)
    requires Ahead(r)
    ensures Kept(r, Do(r, d, author, call).0)
  {
    Remembered.SavedRises(r, d, author, call);
  }

  lemma StepKept(w: World, step: SyncRuns.Step, d: Device)
    requires AllSound(w.issued, w.reps) && Enabled(w, step) && d in w.reps
    ensures d in Next(w, step).reps && Kept(w.reps[d], Next(w, step).reps[d])
  {
    hide SyncPair, Write, ObserveClock, Compaction.Compact, Kept;
    var e := step.device;
    var r := w.reps[e];
    assert SoundRep(w.issued, w.reps, e);
    Same(w.reps[d]);
    match step
    case LocalWrite(_, drafts, author) => OwnStepKept(r, e, author, Update(drafts));
    case SyncOnce(_, f, known, ptA, ptB) =>
      assert SoundRep(w.issued, w.reps, f);
      SyncKept(r, e, w.reps[f], f, known, ptA, ptB);
    case Observe(_, hlc, pt) => OwnStepKept(r, e, NOBODY, ClockRange.Observe(hlc, pt));
    case CompactLog(_, gc) => OwnStepKept(r, e, NOBODY, ClockRange.Compact(gc));
    case Reopen(_) => OwnStepKept(r, e, NOBODY, ClockRange.Reopen);
  }

  const NOBODY := Author((value, h) => value, (cell, value, h) => [])

  lemma Same(r: Replica)
    ensures Kept(r, r)
  {
  }

  lemma {:induction false} RunKept(ws: seq<World>, steps: seq<SyncRuns.Step>, i: nat, j: nat, d: Device)
    requires SyncRuns.IsRun(ws, steps) && i <= j < |ws| && d in ws[i].reps
    ensures d in ws[j].reps && Kept(ws[i].reps[d], ws[j].reps[d])
    decreases j
  {
    hide Next, Enabled;
    if i < j {
      RunKept(ws, steps, i, j - 1, d);
      RunSound(ws, steps, j - 1);
      StepKept(ws[j - 1], steps[j - 1], d);
    }
  }

  /** After an accepted greeting every later write of the device is above the greeting's clock, whatever it
      synchronised, compacted or was opened again in between. */
  lemma ObservedStaysBelow(
    ws: seq<World>, steps: seq<SyncRuns.Step>, i: nat, j: nat, d: Device, h: Hlc, pt: int, o: Op)
    requires SyncRuns.IsRun(ws, steps) && i < j < |steps|
    requires steps[i] == SyncRuns.Observe(d, h, pt) && ObserveClock(ws[i].reps[d], h, pt).1.Applied?
    requires steps[j].LocalWrite? && steps[j].device == d
    requires o in Issued(ws[j].reps[d], d, steps[j].drafts, steps[j].author)
    ensures Lt(h, o.hlc) && PackedHlc(h) < PackedHlc(o.hlc)
  {
    hide MakeLocalOps;
    Remembered.ObservePersists(ws[i].reps[d], h, pt);
    RunKept(ws, steps, i + 1, j, d);
    RunSound(ws, steps, j);
    assert SoundRep(ws[j].issued, ws[j].reps, d);
    LocalOpsRise(ws[j].reps[d].clock, d, steps[j].drafts, steps[j].author);
    PackedOrder(h, o.hlc);
  }
}
