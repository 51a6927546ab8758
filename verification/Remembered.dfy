/** What a replica remembers of what it was told, over any calls and openings: the timestamps it accepted, which
    stay below whatever it writes later, and the frontiers it recorded of its peers. */
module Remembered {
  import opened Hlcs
  import opened Clocks
  import opened Ops
  import opened Replicas
  import Compaction
  import opened Histories
  import opened ClockRange

  // ---------- one call ----------

  /** An accepted timestamp is persisted: it is below the clock, also of the store. */
  lemma ObservePersists(r: Replica, h: Hlc, pt: int)
    requires ObserveClock(r, h, pt).1.Applied?
    ensures var q := ObserveClock(r, h, pt).0;
      && q == r.(clock := q.clock, saved := q.clock)
      && PackedHlc(h) < Packed(q.saved) && Packed(r.clock) < Packed(q.saved)
  {
    ReceiveIsLamport(r.clock, h, pt);
  }

  /** So is every operation of an accepted batch, whether it was new or not. */
  lemma MergePersists(r: Replica, ops: seq<Op>, pt: int)
    requires Merge(r, ops, pt).1.Applied? && ops != []
    ensures var q := Merge(r, ops, pt).0;
      && q.saved == q.clock && Packed(r.clock) < Packed(q.saved)
      && forall o <- ops :: PackedHlc(o.hlc) < Packed(q.saved)
  {
    hide Receive, FreshOps;
    ReceiveIsLamport(r.clock, MaxHlc(ops), pt);
    forall o <- ops ensures PackedHlc(o.hlc) <= PackedHlc(MaxHlc(ops)) {
      PackedOrder(o.hlc, MaxHlc(ops));
    }
  }

  /** A replica that has accepted a timestamp and is opened again still writes above it. */
  lemma WritesAboveObserved(r: Replica, h: Hlc, pt: int, d: Device, drafts: seq<Draft>, author: Author, o: Op)
    requires ObserveClock(r, h, pt).1.Applied?
    requires o in Issued(Restart(ObserveClock(r, h, pt).0), d, drafts, author)
    ensures Lt(h, o.hlc) && Packed(r.clock) < PackedHlc(o.hlc)
  {
    hide ObserveClock;
    var q := Restart(ObserveClock(r, h, pt).0);
    ObservePersists(r, h, pt);
    LocalOpsRise(q.clock, d, drafts, author);
    PackedOrder(h, o.hlc);
  }

  // ---------- many calls ----------

  /** The call took notice of the timestamp, and succeeded. */
  predicate Notices(call: Call, o: Outcome, h: Hlc) {
    && o.Applied?
    && match call
       case Observe(g, _) => g == h
       case ApplyRemote(ops, _) => exists p <- ops :: p.hlc == h
       case _ => false
  }

  lemma NoticedIsSaved(r: Replica, self: Device, author: Author, call: Call, h: Hlc)
    requires Notices(call, Do(r, self, author, call).1, h)
    ensures PackedHlc(h) < Packed(Do(r, self, author, call).0.saved)
  {
    hide ObserveClock, Merge;
    match call
    case Observe(g, pt) => ObservePersists(r, g, pt);
    case ApplyRemote(ops, pt) => MergePersists(r, ops, pt);
    case _ =>
  }

  /** The persisted clock never falls. */
  lemma SavedRises(r: Replica, self: Device, author: Author, call: Call)
    requires Ahead(r)
    ensures Packed(r.saved) <= Packed(Do(r, self, author, call).0.saved)
  {
    hide MakeLocalOps, Receive, Compaction.Compact;
    match call
    case Update(drafts) => MadeRange(r.clock, self, drafts, author);
    case ApplyRemote(ops, pt) => if ops != [] { ReceivedRange(r.clock, MaxHlc(ops), pt); }
    case Observe(h, pt) => ReceivedRange(r.clock, h, pt);
    case Compact(gc) => Compaction.CompactKeeps(r, gc);
    case _ =>
  }

  lemma {:induction false} SavedLater(r: Replica, self: Device, author: Author, calls: seq<Call>, i: nat, n: nat)
    requires Ahead(r) && i <= n <= |calls|
    ensures var before := ClockRange.Run(r, self, author, calls[..i]);
      Packed(before.saved) <= Packed(ClockRange.Run(r, self, author, calls[..n]).saved)
    decreases n
  {
    hide ClockRange.Run, Do, Ahead;
    if i < n {
      SavedLater(r, self, author, calls, i, n - 1);
      RunAhead(r, self, author, calls[..n - 1]);
      SavedRises(ClockRange.Run(r, self, author, calls[..n - 1]), self, author, calls[n - 1]);
      RunNext(r, self, author, calls, n - 1);
    }
  }

  /** Whatever a replica took notice of, by a greeting or in a batch, new or known, stays below everything it
      writes from then on, however often it is opened in between. */
  lemma NoticedStaysBelow(
    r: Replica, self: Device, author: Author, calls: seq<Call>, i: nat, j: nat, h: Hlc, drafts: seq<Draft>, o: Op)
    requires Ahead(r) && i < j < |calls| && calls[j] == Update(drafts)
    requires Notices(calls[i], Do(ClockRange.Run(r, self, author, calls[..i]), self, author, calls[i]).1, h)
    requires o in Issued(ClockRange.Run(r, self, author, calls[..j]), self, drafts, author)
    ensures PackedHlc(h) < PackedHlc(o.hlc) && Lt(h, o.hlc)
  {
    hide ClockRange.Run, Do, Notices, MakeLocalOps;
    var q := ClockRange.Run(r, self, author, calls[..j]);
    NoticedIsSaved(ClockRange.Run(r, self, author, calls[..i]), self, author, calls[i], h);
    RunNext(r, self, author, calls, i);
    SavedLater(r, self, author, calls, i + 1, j);
    RunAhead(r, self, author, calls[..j]);
    LocalOpsRise(q.clock, self, drafts, author);
    PackedOrder(h, o.hlc);
  }

  // ---------- records ----------

  lemma CallRecords(r: Replica, self: Device, author: Author, call: Call)
    ensures Do(r, self, author, call).0.peers ==
              if call.Record? && call.peer != self then r.peers[call.peer := call.have] else r.peers
  {
    hide MakeLocalOps, Receive, FreshOps, Compaction.Compact;
    match call
    case Compact(gc) => Compaction.CompactKeeps(r, gc);
    case _ =>
  }

  /** The last frontier recorded of a peer is the one that counts, until another is recorded. */
  lemma {:induction false} LastRecordCounts(
    r: Replica, self: Device, author: Author, calls: seq<Call>, i: nat, n: nat, peer: Device, have: Frontier)
    requires i < n <= |calls| && calls[i] == Record(peer, have) && peer != self
    requires forall k | i < k < n :: calls[k].Record? ==> calls[k].peer != peer
    ensures var q := ClockRange.Run(r, self, author, calls[..n]); peer in q.peers && q.peers[peer] == have
    decreases n
  {
    hide ClockRange.Run, Do;
    RunNext(r, self, author, calls, n - 1);
    CallRecords(ClockRange.Run(r, self, author, calls[..n - 1]), self, author, calls[n - 1]);
    if i < n - 1 { LastRecordCounts(r, self, author, calls, i, n - 1, peer, have); }
  }

  /** Nobody is recorded but by its own call, and a replica never records itself. */
  lemma {:induction false} RecordsComeFromCalls(
    r: Replica, self: Device, author: Author, calls: seq<Call>, n: nat, peer: Device)
    requires n <= |calls| && peer in ClockRange.Run(r, self, author, calls[..n]).peers
    ensures || peer in r.peers
            || (peer != self && exists i :: 0 <= i < n && calls[i].Record? && calls[i].peer == peer)
  {
    hide ClockRange.Run, Do;
    if n > 0 {
      RunNext(r, self, author, calls, n - 1);
      CallRecords(ClockRange.Run(r, self, author, calls[..n - 1]), self, author, calls[n - 1]);
      if peer in ClockRange.Run(r, self, author, calls[..n - 1]).peers {
        RecordsComeFromCalls(r, self, author, calls, n - 1, peer);
      }
    } else {
      NothingPends(r, self, author, calls);
    }
  }
}
