/** Chunked catch-up: when the delivery hypothesis of `Gossip` holds, and what is lost when it does not. */
module Catchup {
  import opened Hlcs
  import opened Ops
  import opened Replicas
  import opened Histories
  import opened OpOrder
  import opened Gossip

  const OPS_PER_MESSAGE := 500

  function ChunkCount(n: nat, size: nat): nat
    requires size > 0
  {
    (n + size - 1) / size
  }

  function Chunk<T>(items: seq<T>, size: nat, k: nat): seq<T>
    requires size > 0 && k < ChunkCount(|items|, size)
  {
    ChunkStart(|items|, size, k);
    if |items| - k * size <= size then items[k * size..] else items[k * size..k * size + size]
  }

  lemma WholeChunks(a: nat, b: nat, size: nat)
    requires a < b
    ensures a * size + size <= b * size
  {
    assert (b - a - 1) * size >= 0;
    assert b * size == a * size + size + (b - a - 1) * size;
  }

  lemma ChunkStart(n: nat, size: nat, k: nat)
    requires size > 0 && k < ChunkCount(n, size)
    ensures k * size < n
  {
    var c := ChunkCount(n, size);
    assert c * size <= n + size - 1;
    WholeChunks(k, c, size);
  }

  /** A slice of an answer is gap-free for a receiver that has seen everything before it. */
  lemma SliceGapFree(log: set<Op>, have: Frontier, missing: seq<Op>, i: nat, j: nat, f: Frontier)
    requires Ascending(missing) && OpSet(missing) == Diff(log, have) && i <= j <= |missing|
    requires Within(have, f) && forall k | 0 <= k < i :: Seen(f, missing[k].hlc)
    ensures GapFree(OpSet(missing[i..j]), log, f)
  {
    forall o <- log | !Seen(f, o.hlc) && Reaches(OpSet(missing[i..j]), o.hlc)
      ensures o in OpSet(missing[i..j])
    {
      assert o in OpSet(missing);
      var m :| 0 <= m < |missing| && missing[m] == o;
      ReachedInSlice(missing, i, j, m);
    }
  }

  lemma ReachedInSlice(missing: seq<Op>, i: nat, j: nat, m: nat)
    requires Ascending(missing) && i <= j <= |missing| && i <= m < |missing|
    requires Reaches(OpSet(missing[i..j]), missing[m].hlc)
    ensures missing[m] in OpSet(missing[i..j])
  {
    var t :| t in OpSet(missing[i..j]) && t.hlc.device == missing[m].hlc.device && Leq(missing[m].hlc, t.hlc);
    var n :| 0 <= n < j - i && missing[i..j][n] == t;
    assert missing[i + n] == t;
    assert m <= i + n;
    assert missing[i..j][m - i] == missing[m];
  }

  /** A full diff is gap-free. */
  lemma FullDiffGapFree(log: set<Op>, f: Frontier)
    ensures GapFree(Diff(log, f), log, f)
  {
  }

  // ---------- in-order answers, over runs ----------

  lemma {:induction false} FrontiersGrow(ss: seq<Net>, steps: seq<Step>, i: nat, j: nat, d: Device)
    requires IsRun(ss, steps) && i <= j < |ss| && d in ss[i].reps
    ensures d in ss[j].reps && Within(ss[i].reps[d].frontier, ss[j].reps[d].frontier)
    decreases j
  {
    if i < j {
      FrontiersGrow(ss, steps, i, j - 1, d);
      RunInv(ss, steps, j - 1);
      StepGrows(ss[j - 1], steps[j - 1], d);
    }
  }

  lemma StepGrows(s: Net, step: Step, d: Device)
    requires Inv(s) && Enabled(s, step) && d in s.reps
    ensures d in After(s, step).reps && Within(s.reps[d].frontier, After(s, step).reps[d].frontier)
  {
    var e := step.device;
    assert RepInv(s, e);
    if step.LocalWrite? {
      WriteJoins(s.issued, e, s.reps[e], step.drafts, step.author);
    } else if step.DeliverOps? {
      assert PacketInv(s, step.packet);
      MergeGrows(s.issued, s.reps[e], step.packet.ops, step.pt);
    } else {
      QuietStep(s, step);
    }
  }

  lemma QuietStep(s: Net, step: Step)
    requires Enabled(s, step) && !step.LocalWrite? && !step.DeliverOps?
    ensures After(s, step).reps[step.device].frontier == s.reps[step.device].frontier
  {
  }

  /** Step `i` of the run delivers this packet to `d`, which accepts it. */
  ghost predicate AcceptsAt(ss: seq<Net>, steps: seq<Step>, i: nat, d: Device, packet: Packet)
    requires IsRun(ss, steps) && i < |steps| && packet.OpsPacket?
  {
    && steps[i].DeliverOps? && steps[i].device == d && steps[i].packet == packet
    && Merge(ss[i].reps[d], packet.ops, steps[i].pt).1.Applied?
  }

  lemma DeliveredIsSeen(s: Net, step: Step, o: Op)
    requires Inv(s) && Enabled(s, step) && step.DeliverOps? && o in step.packet.ops
    requires Merge(s.reps[step.device], step.packet.ops, step.pt).1.Applied?
    ensures step.device in After(s, step).reps && Seen(After(s, step).reps[step.device].frontier, o.hlc)
  {
    hide Merge, GapFree;
    var d, ops := step.device, step.packet.ops;
    assert RepInv(s, d) && PacketInv(s, step.packet);
    assert s.reps[d].log + OpSet(ops) <= s.issued;
    MergeJoins(s.reps[d], ops, step.pt);
    assert o in OpSet(ops) && Reaches(OpSet(ops), o.hlc);
  }

  lemma AcceptedIsSeen(ss: seq<Net>, steps: seq<Step>, i: nat, j: nat, d: Device, packet: Packet, o: Op)
    requires IsRun(ss, steps) && i < j < |ss| && packet.OpsPacket?
    requires d in ss[i].reps && AcceptsAt(ss, steps, i, d, packet) && o in packet.ops
    ensures d in ss[j].reps && Seen(ss[j].reps[d].frontier, o.hlc)
  {
    hide Inv, After, Merge;
    RunInv(ss, steps, i);
    DeliveredIsSeen(ss[i], steps[i], o);
    FrontiersGrow(ss, steps, i + 1, j, d);
  }

  /** The packets of an answer: the sorted diff against `have`, cut into chunks. */
  ghost function Answer(view: Replica, have: Frontier, k: nat): Packet
    requires k < ChunkCount(|OpsSince(view.log, have)|, OPS_PER_MESSAGE)
  {
    OpsPacket(view, Chunk(OpsSince(view.log, have), OPS_PER_MESSAGE, k))
  }

  /** The receiver has accepted chunk `m` of the answer between points `h` and `i`. */
  ghost predicate ChunkAccepted(
    ss: seq<Net>, steps: seq<Step>, h: nat, i: nat, d: Device, view: Replica, have: Frontier, m: nat)
    requires IsRun(ss, steps) && i < |ss|
    requires m < ChunkCount(|OpsSince(view.log, have)|, OPS_PER_MESSAGE)
  {
    exists j: nat | h <= j < i :: AcceptsAt(ss, steps, j, d, Answer(view, have, m))
  }

  lemma ChunkHolds(ops: seq<Op>, k: nat, n: nat)
    requires k < ChunkCount(|ops|, OPS_PER_MESSAGE) && n < k * OPS_PER_MESSAGE
    ensures n < |ops| && n / OPS_PER_MESSAGE < k
    ensures ops[n] in Chunk(ops, OPS_PER_MESSAGE, n / OPS_PER_MESSAGE)
  {
    ChunkStart(|ops|, OPS_PER_MESSAGE, k);
    var m := n / OPS_PER_MESSAGE;
    var c := Chunk(ops, OPS_PER_MESSAGE, m);
    assert c[n - m * OPS_PER_MESSAGE] == ops[n];
  }

  /** On an in-order link catch-up may be interrupted anywhere, and the two replicas may write, compact,
      restart and merge with others in between: chunk `k` of the answer to a frontier the receiver had at
      point `h` satisfies the delivery hypothesis as soon as the chunks before it have been accepted. */
  lemma InOrderChunkIsGapFree(ss: seq<Net>, steps: seq<Step>, h: nat, i: nat, d: Device, view: Replica, k: nat)
    requires IsRun(ss, steps) && h <= i < |ss| && d in ss[h].reps && UniqueIds(view.log)
    requires k < ChunkCount(|OpsSince(view.log, ss[h].reps[d].frontier)|, OPS_PER_MESSAGE)
    requires forall m: nat | m < k :: ChunkAccepted(ss, steps, h, i, d, view, ss[h].reps[d].frontier, m)
    ensures d in ss[i].reps
    ensures GapFree(OpSet(Answer(view, ss[h].reps[d].frontier, k).ops), view.log, ss[i].reps[d].frontier)
  {
    hide GapFree, ChunkAccepted, Seen, Within, OpsSince;
    var have := ss[h].reps[d].frontier;
    var missing := OpsSince(view.log, have);
    FrontiersGrow(ss, steps, h, i, d);
    OpsSinceContents(view.log, have);
    ChunkStart(|missing|, OPS_PER_MESSAGE, k);
    var from := k * OPS_PER_MESSAGE;
    var to := from + |Chunk(missing, OPS_PER_MESSAGE, k)|;
    forall n | 0 <= n < from ensures Seen(ss[i].reps[d].frontier, missing[n].hlc) {
      EarlierIsSeen(ss, steps, h, i, d, view, k, n);
    }
    SliceGapFree(view.log, have, missing, from, to, ss[i].reps[d].frontier);
    assert missing[from..to] == Chunk(missing, OPS_PER_MESSAGE, k);
  }

  lemma EarlierIsSeen(ss: seq<Net>, steps: seq<Step>, h: nat, i: nat, d: Device, view: Replica, k: nat, n: nat)
    requires IsRun(ss, steps) && h <= i < |ss| && d in ss[h].reps
    requires k < ChunkCount(|OpsSince(view.log, ss[h].reps[d].frontier)|, OPS_PER_MESSAGE)
    requires forall m: nat | m < k :: ChunkAccepted(ss, steps, h, i, d, view, ss[h].reps[d].frontier, m)
    requires n < k * OPS_PER_MESSAGE
    ensures d in ss[i].reps && n < |OpsSince(view.log, ss[h].reps[d].frontier)|
    ensures Seen(ss[i].reps[d].frontier, OpsSince(view.log, ss[h].reps[d].frontier)[n].hlc)
  {
    var have := ss[h].reps[d].frontier;
    ChunkHolds(OpsSince(view.log, have), k, n);
    var m := n / OPS_PER_MESSAGE;
    assert ChunkAccepted(ss, steps, h, i, d, view, have, m);
    var j: nat :| h <= j < i && AcceptsAt(ss, steps, j, d, Answer(view, have, m));
    FrontiersGrow(ss, steps, h, j, d);
    AcceptedIsSeen(ss, steps, j, i, d, Answer(view, have, m), OpsSince(view.log, have)[n]);
  }

  // ---------- what happens without the hypothesis ----------

  /** Of what the sender holds and the receiver lacks, everything is in the batch or still asked for
      afterwards. */
  ghost predicate NothingSkipped(ops: set<Op>, log: set<Op>, f: Frontier, after: Frontier) {
    forall o <- Diff(log, f) :: o in ops || o in Diff(log, after)
  }

  /** The hypothesis is exactly the condition under which an accepted batch skips nothing. */
  lemma GapFreeExactly(r: Replica, log: set<Op>, ops: seq<Op>, pt: int)
    requires Consistent(r) && UniqueIds(r.log + OpSet(ops)) && Merge(r, ops, pt).1.Applied?
    ensures NothingSkipped(OpSet(ops), log, r.frontier, Merge(r, ops, pt).0.frontier)
       <==> GapFree(OpSet(ops), log, r.frontier)
  {
    var q := Merge(r, ops, pt).0;
    MergeJoins(r, ops, pt);
    SkippedExactly(OpSet(ops), log, r.frontier, q.frontier);
  }

  lemma SkippedExactly(ops: set<Op>, log: set<Op>, f: Frontier, after: Frontier)
    requires forall h :: Seen(after, h) <==> Seen(f, h) || Reaches(ops, h)
    ensures NothingSkipped(ops, log, f, after) <==> GapFree(ops, log, f)
  {
    forall o <- log ensures o in Diff(log, after) <==> !Seen(f, o.hlc) && !Reaches(ops, o.hlc) {
      AboveIsUnseen(o, after);
    }
    forall o <- log ensures o in Diff(log, f) <==> !Seen(f, o.hlc) {
      AboveIsUnseen(o, f);
    }
  }

  /** Two operations of one device, of which only the later one arrives (the message of the first was
      lost, or the second came by live tail before catch-up): the receiver's frontier then covers the
      first, which its cells do not, and no later diff contains it, whatever else the receiver learns. */
  lemma LostForGood(x: Op, y: Op, pt: int)
    requires x.hlc.device == y.hlc.device && Lt(x.hlc, y.hlc) && x.cell != y.cell
    requires Merge(FRESH, [y], pt).1.Applied?
    ensures var q := Merge(FRESH, [y], pt).0;
      && !GapFree({y}, {x, y}, FRESH.frontier)
      && Seen(q.frontier, x.hlc) && !Covers(q.cells, x) && !BeatenAbove({x, y}, q.frontier, x)
      && forall f | Within(q.frontier, f) :: x !in Diff({x, y}, f)
  {
    var q := Merge(FRESH, [y], pt).0;
    assert OpSet([y]) == {y} && FRESH.log + {y} == {y};
    assert UniqueIds({y});
    MergeJoins(FRESH, [y], pt);
    assert Reaches({y}, x.hlc);
    assert !Covers(FRESH.cells, x) && !Outranks({y}, x);
  }
}
