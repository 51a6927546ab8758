/** Why every replica that compacts, and not only those that reclaim tombstones, has to know all others:
    a run of three replicas in which a plain compaction elsewhere brings a reclaimed row back. */
module Resurrection {
  import opened Hlcs
  import opened Clocks
  import opened Json
  import opened Ops
  import opened Replicas
  import opened Compaction
  import opened OpOrder
  import opened SyncRuns
  import opened Histories
  import opened TombstoneGc
  import Sizes

  const P: Device := 1
  const U: Device := 2
  const R: Device := 3
  const CAST: set<Device> := {P, U, R}
  const PT := 10
  const LIMIT := 10 * 65536

  /** `x` by P and the later `y` by U on one cell; `t` is R's tombstone of the row. */
  ghost predicate Cast(x: Op, y: Op, t: Op) {
    && x.hlc.device == P && y.hlc.device == U && t.hlc.device == R
    && x.cell == y.cell && x.cell.column != TOMBSTONE && Lt(x.hlc, y.hlc)
    && t.cell == TombstoneOf(RowOf(x.cell)) && t.value == Bool(true)
    && PackedHlc(x.hlc) <= LIMIT && PackedHlc(y.hlc) <= LIMIT && PackedHlc(t.hlc) <= LIMIT
  }

  /** What is tracked of a replica: its log, which of the operations its frontier covers, and that its
      clock is far from its range. */
  ghost predicate Tracked(r: Replica, all: set<Op>, log: set<Op>, seen: set<Op>, n: nat) {
    && Consistent(r) && r.log == log && log <= all && seen <= all
    && (forall o <- all :: Seen(r.frontier, o.hlc) <==> o in seen)
    && Packed(r.clock) <= LIMIT + n && n < 100
  }

  /** Few early operations, one per device. */
  ghost predicate Troupe(all: set<Op>) {
    && (forall o, p | o in all && p in all :: o.hlc.device == p.hlc.device ==> o == p)
    && (forall o <- all :: PackedHlc(o.hlc) <= LIMIT && o.hlc.device in CAST)
    && |all| <= 3
  }

  lemma CastIsTroupe(x: Op, y: Op, t: Op)
    requires Cast(x, y, t)
    ensures Troupe({x, y, t})
  {
    assert |{x, y, t}| == 3;
  }

  lemma TroupeIds(all: set<Op>)
    requires Troupe(all)
    ensures UniqueIds(all)
  {
  }

  lemma ReachesItself(all: set<Op>, ops: set<Op>, o: Op)
    requires Troupe(all) && ops <= all && o in all
    ensures Reaches(ops, o.hlc) <==> o in ops
  {
  }

  // ---------- accepted syncs ----------

  lemma CalmMerge(r: Replica, ops: seq<Op>, n: nat)
    requires Packed(r.clock) <= LIMIT + n && n < 100
    requires forall o <- ops :: PackedHlc(o.hlc) <= LIMIT
    ensures Merge(r, ops, PT).1.Applied? && Merge(r, ops, PT).0.peers == r.peers
    ensures Packed(Merge(r, ops, PT).0.clock) <= LIMIT + n + 1
  {
    if ops != [] {
      ReceiveIsLamport(r.clock, MaxHlc(ops), PT);
      assert exists o <- ops :: o.hlc == MaxHlc(ops) by {
        var h := MaxHlc(ops);
      }
    }
  }

  /** The batch of a sync is small and early, so it is accepted. */
  lemma CalmAccept(r: Replica, log: set<Op>, all: set<Op>, n: nat)
    requires Troupe(all) && log <= all && Packed(r.clock) <= LIMIT + n && n < 100
    ensures var (q, o) := Accept(r, OpsSince(log, r.frontier), CAST, PT);
      o.Applied? && Packed(q.clock) <= LIMIT + n + 1 && q.peers == r.peers
  {
    var ops := OpsSince(log, r.frontier);
    OpsSinceContents(log, r.frontier);
    SubsetSize(Diff(log, r.frontier), all);
    forall o <- ops ensures PackedHlc(o.hlc) <= LIMIT && o.hlc.device in CAST {
      assert o in OpSet(ops);
    }
    CalmMerge(r, ops, n);
  }

  lemma BatchJoins(r: Replica, ops: seq<Op>, all: set<Op>)
    requires UniqueIds(all) && Consistent(r) && r.log <= all && OpSet(ops) <= all
    requires Accept(r, ops, CAST, PT).1.Applied?
    ensures Consistent(Accept(r, ops, CAST, PT).0) && Joined(r, OpSet(ops), Accept(r, ops, CAST, PT).0)
  {
    if ops == [] {
      NothingJoins(r);
    } else {
      assert r.log + OpSet(ops) <= all;
      MergeJoins(r, ops, PT);
    }
  }

  lemma AcceptJoins(r: Replica, log: set<Op>, all: set<Op>)
    requires UniqueIds(all) && Consistent(r) && r.log <= all && log <= all
    requires Accept(r, OpsSince(log, r.frontier), CAST, PT).1.Applied?
    ensures var q := Accept(r, OpsSince(log, r.frontier), CAST, PT).0;
      Consistent(q) && Joined(r, Diff(log, r.frontier), q)
  {
    OpsSinceContents(log, r.frontier);
    BatchJoins(r, OpsSince(log, r.frontier), all);
  }

  lemma TrackedDiff(log: set<Op>, r: Replica, all: set<Op>, seen: set<Op>)
    requires log <= all && seen <= all && forall o <- all :: Seen(r.frontier, o.hlc) <==> o in seen
    ensures Diff(log, r.frontier) == log - seen
  {
    forall o <- log ensures o in Diff(log, r.frontier) <==> o in log - seen {
      AboveIsUnseen(o, r.frontier);
    }
  }

  lemma TrackedJoin(r: Replica, all: set<Op>, log: set<Op>, seen: set<Op>, ops: set<Op>, q: Replica)
    requires Troupe(all) && r.log == log && log <= all && ops <= all
    requires forall o <- all :: Seen(r.frontier, o.hlc) <==> o in seen
    requires Joined(r, ops, q)
    ensures q.log == log + ops
    ensures forall o <- all :: Seen(q.frontier, o.hlc) <==> o in seen + ops
  {
    forall o <- all ensures Seen(q.frontier, o.hlc) <==> o in seen + ops {
      ReachesItself(all, ops, o);
    }
  }

  /** One side of a sync of two tracked replicas. */
  lemma TrackedHalf(a: Replica, all: set<Op>, logA: set<Op>, seenA: set<Op>, logB: set<Op>, n: nat)
    requires Troupe(all) && Tracked(a, all, logA, seenA, n) && logB <= all && n < 99
    ensures var (q, o) := Accept(a, OpsSince(logB, a.frontier), CAST, PT);
      && o.Applied? && q.peers == a.peers
      && Tracked(q, all, logA + (logB - seenA), seenA + (logB - seenA), n + 1)
  {
    TroupeIds(all);
    CalmAccept(a, logB, all, n);
    TrackedDiff(logB, a, all, seenA);
    TrackedJoins(a, all, logA, seenA, logB);
  }

  lemma TrackedJoins(a: Replica, all: set<Op>, logA: set<Op>, seenA: set<Op>, logB: set<Op>)
    requires Troupe(all) && UniqueIds(all) && Consistent(a) && a.log == logA <= all && logB <= all && seenA <= all
    requires forall o <- all :: Seen(a.frontier, o.hlc) <==> o in seenA
    requires Accept(a, OpsSince(logB, a.frontier), CAST, PT).1.Applied?
    requires Diff(logB, a.frontier) == logB - seenA
    ensures var q := Accept(a, OpsSince(logB, a.frontier), CAST, PT).0;
      && Consistent(q) && q.log == logA + (logB - seenA)
      && forall o <- all :: Seen(q.frontier, o.hlc) <==> o in seenA + (logB - seenA)
  {
    var q := Accept(a, OpsSince(logB, a.frontier), CAST, PT).0;
    AcceptJoins(a, logB, all);
    TrackedJoin(a, all, logA, seenA, logB - seenA, q);
  }

  ghost predicate SyncedAs(
    t: Synced, a: Replica, d: Device, b: Replica, e: Device, all: set<Op>,
    logA: set<Op>, seenA: set<Op>, logB: set<Op>, seenB: set<Op>, n: nat)
  {
    && Tracked(t.a, all, logA, seenA, n) && Tracked(t.b, all, logB, seenB, n)
    && t.a.peers == a.peers[e := t.b.frontier] && t.b.peers == b.peers[d := t.a.frontier]
  }

  lemma TrackedRecord(q: Replica, d: Device, e: Device, f: Frontier, all: set<Op>, log: set<Op>, seen: set<Op>, n: nat)
    requires Tracked(q, all, log, seen, n)
    ensures Tracked(RecordPeer(q, d, e, f), all, log, seen, n)
  {
  }

  /** A sync of two tracked replicas. */
  lemma TrackedPair(
    a: Replica, d: Device, b: Replica, e: Device, all: set<Op>,
    logA: set<Op>, seenA: set<Op>, logB: set<Op>, seenB: set<Op>, n: nat)
    requires Troupe(all) && d != e
    requires Tracked(a, all, logA, seenA, n) && Tracked(b, all, logB, seenB, n) && n < 99
    ensures SyncedAs(SyncPair(a, d, b, e, CAST, PT, PT), a, d, b, e, all,
                     logA + (logB - seenA), seenA + (logB - seenA),
                     logB + (logA - seenB), seenB + (logA - seenB), n + 1)
  {
    TrackedHalf(a, all, logA, seenA, logB, n);
    TrackedHalf(b, all, logB, seenB, logA, n);
    var qa := Accept(a, OpsSince(b.log, a.frontier), CAST, PT).0;
    var qb := Accept(b, OpsSince(a.log, b.frontier), CAST, PT).0;
    TrackedRecord(qa, d, e, qb.frontier, all, logA + (logB - seenA), seenA + (logB - seenA), n + 1);
    TrackedRecord(qb, e, d, qa.frontier, all, logB + (logA - seenB), seenB + (logA - seenB), n + 1);
  }

  // ---------- the two compactions ----------

  /** P drops the superseded `x`: the only peer it knows has seen it. */
  lemma PlainCompaction(r: Replica, x: Op, y: Op, t: Op)
    requires Cast(x, y, t) && Consistent(r) && r.log == {x, y, t}
    requires r.peers.Keys == {U} && Seen(r.peers[U], x.hlc)
    ensures Compact(r, false).log == {y, t}
    ensures Compact(r, false).frontier == r.frontier && Compact(r, false).peers == r.peers
    ensures Compact(r, false).clock == r.clock && DoomedBy(r, false) == {}
  {
    assert x in r.log && y in r.log && t in r.log;
    assert Covers(r.cells, y) && Covers(r.cells, t);
    assert r.cells[x.cell] in {x, y, t} && r.cells[t.cell] in {x, y, t};
    assert r.cells[x.cell] == y && r.cells[t.cell] == t;
    assert x in Absorbed(r);
    assert Removed(r.log, r.cells, Absorbed(r), false) == {x};
  }

  /** R reclaims the row: both peers it knows, which are all there are, have seen all it holds of the row. */
  lemma Reclamation(r: Replica, x: Op, y: Op, t: Op)
    requires Cast(x, y, t) && Consistent(r) && r.log == {y, t}
    requires r.peers.Keys == {U, P}
    requires forall p <- r.peers :: Seen(r.peers[p], y.hlc) && Seen(r.peers[p], t.hlc)
    ensures Compact(r, true).log == {} && RowOf(x.cell) in DoomedBy(r, true)
    ensures Compact(r, true).frontier == r.frontier && Compact(r, true).peers == r.peers
    ensures Compact(r, true).clock == r.clock
  {
    assert Covers(r.cells, t) && Covers(r.cells, y);
    assert r.cells[t.cell] in {y, t} && r.cells[t.cell] == t;
    assert y in Absorbed(r) && t in Absorbed(r);
    assert Doomed(r.log, r.cells, Absorbed(r), RowOf(x.cell));
    assert t.cell in Forgotten(r.log, r.cells, Absorbed(r), true);
    assert Removed(r.log, r.cells, Absorbed(r), true) == r.log;
  }

  /** With only `x` left of the row, the row shows. */
  lemma OnlyXShows(r: Replica, x: Op, y: Op, t: Op, all: set<Op>)
    requires Cast(x, y, t) && Tracked(r, all, {x}, all, 4)
    ensures Visible(r.cells, RowOf(x.cell))
  {
    assert x in r.log && Covers(r.cells, x);
  }

  // ---------- the run ----------

  ghost predicate SeesRecorded(r: Replica, p: Device, ops: set<Op>) {
    p in r.peers && forall o <- ops :: Seen(r.peers[p], o.hlc)
  }

  lemma Distinct3(x: Op, y: Op, t: Op)
    requires Cast(x, y, t)
    ensures {y} - {t} == {y} && {t} - {y} == {t} && {y, t} - {x} == {y, t} && {x} - {y, t} == {x}
    ensures {x, y, t} - {y, t} == {x} && {y, t} - {y, t} == {} && {y, t} - {x, y, t} == {}
    ensures {t} + {y} == {y, t} == {y} + {t} && {y, t} + {x} == {x, y, t} == {x} + {y, t}
    ensures {y, t} + {} == {y, t} && {x, y, t} + {} == {x, y, t} && {} + {x} == {x}
  {
    assert x != y && y != t && x != t;
  }

  /** P forgets `x`, which R has not seen. */
  lemma Stage3(p: Replica, x: Op, y: Op, t: Op)
    requires Cast(x, y, t) && Tracked(p, {x, y, t}, {x, y, t}, {x, y, t}, 2)
    requires p.peers.Keys == {U} && SeesRecorded(p, U, {x, y, t})
    ensures Tracked(Compact(p, false), {x, y, t}, {y, t}, {x, y, t}, 2)
    ensures DoomedBy(p, false) == {}
  {
    assert Seen(p.peers[U], x.hlc);
    PlainCompaction(p, x, y, t);
    CompactConsistent(p, false);
  }

  /** R, which has recorded everyone, reclaims the row. */
  lemma Stage5(r: Replica, x: Op, y: Op, t: Op)
    requires Cast(x, y, t) && Tracked(r, {x, y, t}, {y, t}, {y, t}, 3)
    requires r.peers.Keys == {U, P} && SeesRecorded(r, U, {y, t}) && SeesRecorded(r, P, {y, t})
    ensures Tracked(Compact(r, true), {x, y, t}, {}, {y, t}, 3)
    ensures RowOf(x.cell) in DoomedBy(r, true)
  {
    Reclamation(r, x, y, t);
    CompactConsistent(r, true);
  }

  lemma Later(r: Replica, all: set<Op>, log: set<Op>, seen: set<Op>, n: nat)
    requires Tracked(r, all, log, seen, n) && n < 99
    ensures Tracked(r, all, log, seen, n + 1)
  {
  }

  // ---------- the run ----------

  const STEPS := [
    SyncOnce(R, U, CAST, PT, PT), SyncOnce(U, P, CAST, PT, PT), CompactLog(P, false),
    SyncOnce(R, P, CAST, PT, PT), CompactLog(R, true), SyncOnce(R, U, CAST, PT, PT)]

  ghost predicate Walks(ws: seq<World>) {
    && |ws| == 7
    && (forall i {:trigger STEPS[i]} | 0 <= i < 6 :: Enabled(ws[i], STEPS[i]) && ws[i + 1] == Next(ws[i], STEPS[i]))
    && forall i | 0 <= i < 7 :: ws[i].reps.Keys == {P, U, R}
  }

  /** What a sync of `d` and `e` makes of a world's replicas. */
  ghost predicate Met(w: map<Device, Replica>, v: map<Device, Replica>, d: Device, e: Device)
    requires w.Keys == v.Keys && d in w && e in w
  {
    && v[d].peers == w[d].peers[e := v[e].frontier]
    && v[e].peers == w[e].peers[d := v[d].frontier]
    && forall q <- w | q != d && q != e :: v[q] == w[q]
  }

  /** A sync of two tracked replicas, the sets it leads to named. */
  lemma Meeting(w: World, d: Device, e: Device, all: set<Op>,
                logA: set<Op>, seenA: set<Op>, logB: set<Op>, seenB: set<Op>, n: nat,
                toLogA: set<Op>, toSeenA: set<Op>, toLogB: set<Op>, toSeenB: set<Op>)
    requires d in w.reps && e in w.reps && d != e && Troupe(all) && n < 99
    requires Tracked(w.reps[d], all, logA, seenA, n) && Tracked(w.reps[e], all, logB, seenB, n)
    requires toLogA == logA + (logB - seenA) && toSeenA == seenA + (logB - seenA)
    requires toLogB == logB + (logA - seenB) && toSeenB == seenB + (logA - seenB)
    ensures var v := Next(w, SyncOnce(d, e, CAST, PT, PT));
      && v.reps.Keys == w.reps.Keys && Met(w.reps, v.reps, d, e)
      && Tracked(v.reps[d], all, toLogA, toSeenA, n + 1) && Tracked(v.reps[e], all, toLogB, toSeenB, n + 1)
  {
    hide Tracked, Troupe, SyncPair;
    TrackedPair(w.reps[d], d, w.reps[e], e, all, logA, seenA, logB, seenB, n);
  }

  lemma Walk1(ws: seq<World>, x: Op, y: Op, t: Op, all: set<Op>, yt: set<Op>)
    requires Cast(x, y, t) && all == {x, y, t} && yt == {y, t} && Walks(ws)
    requires Tracked(ws[0].reps[R], all, {t}, {t}, 0) && Tracked(ws[0].reps[U], all, {y}, {y}, 0)
    ensures Tracked(ws[1].reps[R], all, yt, yt, 1) && Tracked(ws[1].reps[U], all, yt, yt, 1)
    ensures Met(ws[0].reps, ws[1].reps, R, U)
  {
    hide Tracked, Next, Met;
    assert ws[1] == Next(ws[0], STEPS[0]);
    Distinct3(x, y, t);
    CastIsTroupe(x, y, t);
    Meeting(ws[0], R, U, all, {t}, {t}, {y}, {y}, 0, yt, yt, yt, yt);
  }

  lemma Walk2(ws: seq<World>, x: Op, y: Op, t: Op, all: set<Op>, yt: set<Op>)
    requires Cast(x, y, t) && all == {x, y, t} && yt == {y, t} && Walks(ws)
    requires Tracked(ws[1].reps[U], all, yt, yt, 1) && Tracked(ws[1].reps[P], all, {x}, {x}, 1)
    ensures Tracked(ws[2].reps[U], all, all, all, 2) && Tracked(ws[2].reps[P], all, all, all, 2)
    ensures Met(ws[1].reps, ws[2].reps, U, P)
  {
    hide Tracked, Next, Met;
    assert ws[2] == Next(ws[1], STEPS[1]);
    Distinct3(x, y, t);
    CastIsTroupe(x, y, t);
    Meeting(ws[1], U, P, all, yt, yt, {x}, {x}, 1, all, all, all, all);
  }

  lemma Walk3(ws: seq<World>, x: Op, y: Op, t: Op)
    requires Cast(x, y, t) && Walks(ws)
    requires Tracked(ws[2].reps[P], {x, y, t}, {x, y, t}, {x, y, t}, 2)
    requires ws[2].reps[P].peers.Keys == {U} && SeesRecorded(ws[2].reps[P], U, {x, y, t})
    ensures Tracked(ws[3].reps[P], {x, y, t}, {y, t}, {x, y, t}, 2)
    ensures ws[3].reps[R] == ws[2].reps[R] && ws[3].reps[U] == ws[2].reps[U]
  {
    assert ws[3] == Next(ws[2], STEPS[2]);
    Stage3(ws[2].reps[P], x, y, t);
  }

  lemma Walk4(ws: seq<World>, x: Op, y: Op, t: Op, all: set<Op>, yt: set<Op>)
    requires Cast(x, y, t) && all == {x, y, t} && yt == {y, t} && Walks(ws)
    requires Tracked(ws[3].reps[R], all, yt, yt, 2) && Tracked(ws[3].reps[P], all, yt, all, 2)
    ensures Tracked(ws[4].reps[R], all, yt, yt, 3) && Tracked(ws[4].reps[P], all, yt, all, 3)
    ensures Met(ws[3].reps, ws[4].reps, R, P)
  {
    hide Tracked, Next, Met;
    assert ws[4] == Next(ws[3], STEPS[3]);
    Distinct3(x, y, t);
    CastIsTroupe(x, y, t);
    Meeting(ws[3], R, P, all, yt, yt, yt, all, 2, yt, yt, yt, all);
  }

  lemma Walk5(ws: seq<World>, x: Op, y: Op, t: Op)
    requires Cast(x, y, t) && Walks(ws)
    requires Tracked(ws[4].reps[R], {x, y, t}, {y, t}, {y, t}, 3) && ws[4].reps[R].peers.Keys == {U, P}
    requires SeesRecorded(ws[4].reps[R], U, {y, t}) && SeesRecorded(ws[4].reps[R], P, {y, t})
    ensures Tracked(ws[5].reps[R], {x, y, t}, {}, {y, t}, 3)
    ensures ws[5].reps[U] == ws[4].reps[U] && RowOf(x.cell) in ws[5].reclaimed
  {
    assert ws[5] == Next(ws[4], STEPS[4]);
    Stage5(ws[4].reps[R], x, y, t);
  }

  lemma Walk6(ws: seq<World>, x: Op, y: Op, t: Op, all: set<Op>, yt: set<Op>)
    requires Cast(x, y, t) && all == {x, y, t} && yt == {y, t} && Walks(ws)
    requires Tracked(ws[5].reps[R], all, {}, yt, 3) && Tracked(ws[5].reps[U], all, all, all, 3)
    ensures Visible(ws[6].reps[R].cells, RowOf(x.cell))
  {
    hide Tracked, Next, Met;
    assert ws[6] == Next(ws[5], STEPS[5]);
    Distinct3(x, y, t);
    CastIsTroupe(x, y, t);
    Meeting(ws[5], R, U, all, {}, yt, all, all, 3, {x}, all, all, all);
    OnlyXShows(ws[6].reps[R], x, y, t, all);
  }

  lemma Recorded(w: map<Device, Replica>, v: map<Device, Replica>, d: Device, e: Device,
                 all: set<Op>, logD: set<Op>, seenD: set<Op>, logE: set<Op>, seenE: set<Op>, n: nat)
    requires w.Keys == v.Keys && d in w && e in w && d != e && Met(w, v, d, e)
    requires Tracked(v[d], all, logD, seenD, n) && Tracked(v[e], all, logE, seenE, n)
    ensures SeesRecorded(v[d], e, seenE) && SeesRecorded(v[e], d, seenD)
    ensures v[d].peers.Keys == w[d].peers.Keys + {e} && v[e].peers.Keys == w[e].peers.Keys + {d}
    ensures forall p, ops | SeesRecorded(w[d], p, ops) && p != e :: SeesRecorded(v[d], p, ops)
  {
  }

  /** Each of the three has written once; P and R know no one yet. */
  ghost predicate Start(reps: map<Device, Replica>, x: Op, y: Op, t: Op) {
    && Cast(x, y, t) && reps.Keys == {P, U, R}
    && Tracked(reps[P], {x, y, t}, {x}, {x}, 0) && reps[P].peers == map[]
    && Tracked(reps[U], {x, y, t}, {y}, {y}, 0)
    && Tracked(reps[R], {x, y, t}, {t}, {t}, 0) && reps[R].peers == map[]
  }

  lemma FirstHalf(ws: seq<World>, x: Op, y: Op, t: Op)
    requires Walks(ws) && Start(ws[0].reps, x, y, t)
    ensures Tracked(ws[2].reps[R], {x, y, t}, {y, t}, {y, t}, 2)
    ensures Tracked(ws[2].reps[P], {x, y, t}, {x, y, t}, {x, y, t}, 2)
    ensures Tracked(ws[2].reps[U], {x, y, t}, {x, y, t}, {x, y, t}, 3)
    ensures ws[2].reps[R].peers.Keys == {U} && SeesRecorded(ws[2].reps[R], U, {y, t})
    ensures ws[2].reps[P].peers.Keys == {U} && SeesRecorded(ws[2].reps[P], U, {x, y, t})
  {
    hide Tracked;
    var all, yt := {x, y, t}, {y, t};
    Walk1(ws, x, y, t, all, yt);
    Recorded(ws[0].reps, ws[1].reps, R, U, all, yt, yt, yt, yt, 1);
    Later(ws[1].reps[P], all, {x}, {x}, 0);
    Later(ws[1].reps[R], all, yt, yt, 1);
    Walk2(ws, x, y, t, all, yt);
    Recorded(ws[1].reps, ws[2].reps, U, P, all, all, all, all, all, 2);
    Later(ws[2].reps[U], all, all, all, 2);
  }

  /** Only R reclaims tombstones, and it has recorded every other replica when it does; still the row it
      reclaimed is visible on it again one sync later. */
  lemma RowComesBack(ws: seq<World>, x: Op, y: Op, t: Op)
    requires Walks(ws) && Start(ws[0].reps, x, y, t)
    ensures KnowsAll(ws[4].reps, R)
    ensures RowOf(x.cell) in ws[5].reclaimed
    ensures Visible(ws[6].reps[R].cells, RowOf(x.cell))
  {
    hide Tracked;
    var all, yt := {x, y, t}, {y, t};
    FirstHalf(ws, x, y, t);
    Walk3(ws, x, y, t);
    Walk4(ws, x, y, t, all, yt);
    Recorded(ws[3].reps, ws[4].reps, R, P, all, yt, yt, yt, all, 3);
    Walk5(ws, x, y, t);
    Walk6(ws, x, y, t, all, yt);
  }

  // ---------- from the initial state ----------

  const CELL := Cell([0x74], seq(26, _ => 0x30), [0x63])
  const PLAIN := Author((value: Json, h: Hlc) => value, (cell: Cell, value: Json, h: Hlc) => [])

  function First(d: Device, cell: Cell, value: Json): Op {
    Op(cell, value, Hlc(PT, 0, d), [])
  }

  const X := First(P, CELL, Null)
  const Y := First(U, CELL, Null)
  const T := First(R, TombstoneOf(RowOf(CELL)), Bool(true))

  const EMPTY := World({}, map[P := FRESH, U := FRESH, R := FRESH], {})

  /** One write each, and then the run above. */
  const WRITES := [
    LocalWrite(P, [Draft(CELL, Null, PT)], PLAIN),
    LocalWrite(U, [Draft(CELL, Null, PT)], PLAIN),
    LocalWrite(R, [Draft(TombstoneOf(RowOf(CELL)), Bool(true), PT)], PLAIN)]

  const STORY := WRITES + STEPS

  /** The worlds a series of steps passes through. */
  ghost function Worlds(w: World, steps: seq<Step>): (ws: seq<World>)
    ensures |ws| == |steps| + 1
  {
    if steps == [] then [w]
    else
      var before := Worlds(w, steps[..|steps| - 1]);
      var last, step := before[|before| - 1], steps[|steps| - 1];
      before + [if Enabled(last, step) then Next(last, step) else last]
  }

  lemma {:induction false} WorldsStep(w: World, steps: seq<Step>, i: nat)
    requires i < |steps|
    ensures var ws := Worlds(w, steps);
      ws[0] == w && ws[i + 1] == if Enabled(ws[i], steps[i]) then Next(ws[i], steps[i]) else ws[i]
    decreases |steps|
  {
    hide Next, Enabled;
    var init := steps[..|steps| - 1];
    if i < |init| {
      WorldsStep(w, init, i);
    } else if i > 0 {
      WorldsStep(w, init, 0);
    }
  }

  predicate InCast(step: Step) {
    step.device in CAST && (step.SyncOnce? ==> step.other in CAST && step.other != step.device)
  }

  lemma NextKeys(w: World, step: Step)
    requires w.reps.Keys == CAST && InCast(step)
    ensures Enabled(w, step) && Next(w, step).reps.Keys == CAST
  {
    hide SyncPair, Write, ObserveClock, Compact, Restart;
  }

  /** Nobody comes or goes, so every step can be taken. */
  lemma {:induction false} WorldsRun(w: World, steps: seq<Step>, i: nat)
    requires w.reps.Keys == CAST && (forall s <- steps :: InCast(s)) && i <= |steps|
    ensures Worlds(w, steps)[i].reps.Keys == CAST
    ensures i < |steps| ==> Enabled(Worlds(w, steps)[i], steps[i])
    ensures i < |steps| ==> Worlds(w, steps)[i + 1] == Next(Worlds(w, steps)[i], steps[i])
  {
    hide Next, Enabled, InCast;
    if i > 0 {
      WorldsRun(w, steps, i - 1);
      NextKeys(Worlds(w, steps)[i - 1], steps[i - 1]);
    } else if steps != [] {
      WorldsStep(w, steps, 0);
    }
    if i < |steps| {
      assert steps[i] in steps;
      NextKeys(Worlds(w, steps)[i], steps[i]);
      WorldsStep(w, steps, i);
    }
  }

  lemma Known(d: Device, cell: Cell, value: Json)
    requires WellNamed(cell) && value in {Null, Bool(true)}
    ensures Admissible(First(d, cell, value))
  {
    Sizes.ShortIsAdmissible(First(d, cell, value));
  }

  lemma FirstWrite(d: Device, cell: Cell, value: Json)
    requires WellNamed(cell) && value in {Null, Bool(true)}
    ensures var o, draft := First(d, cell, value), Draft(cell, value, PT);
      && Write(FRESH, d, [draft], PLAIN).0 == Commit(FRESH, [o], Clock(PT, 0))
      && Issued(FRESH, d, [draft], PLAIN) == [o]
  {
    hide Admissible;
    Known(d, cell, value);
    var draft := Draft(cell, value, PT);
    assert [draft][..0] == [];
    assert MakeLocalOps(ZERO_CLOCK, d, [], PLAIN) == Made([], ZERO_CLOCK);
  }

  lemma FirstTracked(all: set<Op>, o: Op)
    requires Troupe(all) && o in all && o.hlc.counter == 0 && o.hlc.millis == PT
    ensures var r := Commit(FRESH, [o], Clock(PT, 0));
      Tracked(r, all, {o}, {o}, 0) && r.peers == map[]
  {
    hide Consistent;
    CommitConsistent(FRESH, [o], Clock(PT, 0));
    FrontierUnion(map[], [o]);
    assert OpSet([o]) == {o} && {} + {o} == {o};
    forall p <- all ensures Seen(Commit(FRESH, [o], Clock(PT, 0)).frontier, p.hlc) <==> p in {o} {
      ReachesItself(all, {o}, p);
    }
  }

  lemma AfterWrite(w: World, d: Device, cell: Cell, value: Json)
    requires d in w.reps && w.reps[d] == FRESH && WellNamed(cell) && value in {Null, Bool(true)}
    ensures Next(w, LocalWrite(d, [Draft(cell, value, PT)], PLAIN)).reps
         == w.reps[d := Commit(FRESH, [First(d, cell, value)], Clock(PT, 0))]
  {
    hide Write, Commit, WellNamed;
    FirstWrite(d, cell, value);
  }

  lemma StoryInCast()
    ensures |STORY| == 9 && forall s <- STORY :: InCast(s)
  {
    assert |WRITES| == 3 && |STEPS| == 6;
    assert forall s <- WRITES :: InCast(s);
    assert forall s <- STEPS :: InCast(s);
  }

  lemma TheCast()
    ensures Cast(X, Y, T) && WellNamed(CELL) && WellNamed(TombstoneOf(RowOf(CELL)))
  {
  }

  lemma StoryIsRun()
    ensures IsRun(Worlds(EMPTY, STORY), STORY)
    ensures forall i | 0 <= i < 10 :: Worlds(EMPTY, STORY)[i].reps.Keys == CAST
  {
    hide Enabled, Next, InCast, Worlds;
    StoryInCast();
    CastRuns(EMPTY, STORY);
  }

  lemma CastRuns(w: World, steps: seq<Step>)
    requires Initial(w) && w.reps.Keys == CAST && forall s <- steps :: InCast(s)
    ensures IsRun(Worlds(w, steps), steps)
    ensures forall i | 0 <= i <= |steps| :: Worlds(w, steps)[i].reps.Keys == CAST
  {
    hide Enabled, Next, InCast, Worlds;
    var ws := Worlds(w, steps);
    forall i | 0 <= i <= |steps| ensures ws[i].reps.Keys == CAST {
      WorldsRun(w, steps, i);
    }
    forall i | 0 <= i < |steps| ensures Enabled(ws[i], steps[i]) && ws[i + 1] == Next(ws[i], steps[i]) {
      WorldsRun(w, steps, i);
    }
    if steps != [] { WorldsStep(w, steps, 0); } else { WorldsNone(w); }
  }

  lemma WorldsNone(w: World)
    ensures Worlds(w, []) == [w]
  {
  }

  /** Each of the three writes once, with the replica as it was created. */
  lemma StoryStarts(ws: seq<World>)
    requires IsRun(ws, STORY) && ws[0] == EMPTY
    ensures Start(ws[3].reps, X, Y, T)
    ensures forall i | 0 <= i < 3 :: ws[i].reps.Keys == CAST && ws[i].reps[STORY[i].device] == FRESH
  {
    hide Next, Commit, Tracked, WellNamed, Troupe;
    var all := {X, Y, T};
    TheCast();
    CastIsTroupe(X, Y, T);
    assert STORY[0] == WRITES[0] && STORY[1] == WRITES[1] && STORY[2] == WRITES[2];
    AfterWrite(ws[0], P, CELL, Null);
    AfterWrite(ws[1], U, CELL, Null);
    AfterWrite(ws[2], R, TombstoneOf(RowOf(CELL)), Bool(true));
    FirstTracked(all, X);
    FirstTracked(all, Y);
    FirstTracked(all, T);
  }

  lemma TailWalks(ws: seq<World>)
    requires IsRun(ws, STORY) && forall i | 0 <= i < 10 :: ws[i].reps.Keys == CAST
    ensures Walks(ws[3..])
  {
    hide Next, Enabled;
    forall i {:trigger STEPS[i]} | 0 <= i < 6
      ensures Enabled(ws[3..][i], STEPS[i]) && ws[3..][i + 1] == Next(ws[3..][i], STEPS[i])
    {
      assert STORY[3 + i] == STEPS[i];
    }
  }

  /** A run in which writers are disciplined, and whoever reclaims tombstones has recorded all others. */
  ghost predicate IsReclaimRun(ws: seq<World>, steps: seq<Step>) {
    && IsRun(ws, steps)
    && forall i | 0 <= i < |steps| ::
         && (steps[i].LocalWrite? ==>
               Disciplined(ws[i].issued, ws[i].reps[steps[i].device].frontier, steps[i].drafts))
         && (steps[i].CompactLog? && steps[i].gc ==> KnowsAll(ws[i].reps, steps[i].device))
  }

  lemma FreshIsDisciplined(issued: set<Op>, f: Frontier, drafts: seq<Draft>)
    requires f == map[]
    requires forall i | 0 <= i < |drafts| :: drafts[i].cell.column == TOMBSTONE ==> drafts[i].value == Bool(true)
    ensures Disciplined(issued, f, drafts)
  {
  }

  /** So it is not enough that the replica which reclaims knows all others: from the initial state, with
      disciplined writers, a row is reclaimed and then visible again on the replica that reclaimed it. */
  lemma ReclaimedRowReturns()
    ensures exists ws: seq<World>, steps: seq<Step> ::
              && IsReclaimRun(ws, steps) && |steps| == 9
              && RowOf(CELL) in ws[8].reclaimed && R in ws[9].reps && Visible(ws[9].reps[R].cells, RowOf(CELL))
  {
    hide Next, Enabled, Walks, Start, Visible, Worlds, Disciplined;
    var ws := Worlds(EMPTY, STORY);
    StoryIsRun();
    StoryInCast();
    WorldsStep(EMPTY, STORY, 0);
    StoryStarts(ws);
    TailWalks(ws);
    RowComesBack(ws[3..], X, Y, T);
    forall i | 0 <= i < 3
      ensures Disciplined(ws[i].issued, ws[i].reps[STORY[i].device].frontier, STORY[i].drafts)
    {
      FreshIsDisciplined(ws[i].issued, ws[i].reps[STORY[i].device].frontier, STORY[i].drafts);
    }
    assert STORY[7] == CompactLog(R, true) && ws[3..][4] == ws[7];
    assert IsReclaimRun(ws, STORY);
    assert ws[3..][5] == ws[8] && ws[3..][6] == ws[9];
  }
}
