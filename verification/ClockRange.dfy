/** When a store can no longer be opened: exactly when, with no opening in between, a range error was followed by
    an empty call. */
module ClockRange {
  import opened Hlcs
  import opened Clocks
  import opened Json
  import opened Ops
  import opened Replicas
  import Compaction
  import opened Storage
  import opened Engine

  /** What a caller may ask of one replica. Opening restores the persisted state. */
  datatype Call =
    | Update(drafts: seq<Draft>)
    | ApplyRemote(ops: seq<Op>, pt: int)
    | Observe(hlc: Hlc, pt: int)
    | Record(peer: Device, have: Frontier)
    | Compact(gc: bool)
    | Reopen

  function Do(r: Replica, self: Device, author: Author, call: Call): (Replica, Outcome) {
    match call
    case Update(drafts) => Write(r, self, drafts, author)
    case ApplyRemote(ops, pt) => Merge(r, ops, pt)
    case Observe(h, pt) => ObserveClock(r, h, pt)
    case Record(peer, have) => (RecordPeer(r, self, peer, have), Applied(0))
    case Compact(gc) => (Compaction.Compact(r, gc), Applied(0))
    case Reopen => (Restart(r), Applied(0))
  }

  function Run(r: Replica, self: Device, author: Author, calls: seq<Call>): Replica {
    if calls == [] then r
    else Do(Run(r, self, author, calls[..|calls| - 1]), self, author, calls[|calls| - 1]).0
  }

  predicate Out(c: Clock) {
    c.millis > MAX_MILLIS
  }

  /** An update of no column, or a batch of no operation. */
  predicate Empty(call: Call) {
    (call.Update? && call.drafts == []) || (call.ApplyRemote? && call.ops == [])
  }

  /** The live clock is not behind the persisted one. */
  predicate Ahead(r: Replica) {
    Packed(r.saved) <= Packed(r.clock)
  }

  // ---------- one call ----------

  lemma {:induction false} MadeInRange(c: Clock, d: Device, drafts: seq<Draft>, author: Author)
    requires drafts != []
    ensures var made := MakeLocalOps(c, d, drafts, author);
      && Packed(c) <= Packed(made.clock)
      && (Out(made.clock) <==> made.NotMade? && made.error == ClockRange)
      && (Out(c) ==> Out(made.clock))
  {
    hide Admissible;
    var init, last := drafts[..|drafts| - 1], drafts[|drafts| - 1];
    if init != [] { MadeInRange(c, d, init, author); }
    match MakeLocalOps(c, d, init, author)
    case Made(_, before) => NowIsLamport(before, last.pt);
    case NotMade(_, _) =>
  }

  lemma ReceivedRange(c: Clock, h: Hlc, pt: int)
    ensures Packed(c) <= Packed(After(c, Receive(c, h, pt)))
    ensures Out(After(c, Receive(c, h, pt))) <==> Out(c) || Receive(c, h, pt).OutOfRange?
    ensures Receive(c, h, pt).Ticked? ==> !Out(c)
  {
    ReceiveIsLamport(c, h, pt);
  }

  /** A range error, and nothing else, takes the live clock out of its range; only opening takes it back. */
  lemma CallMovesLive(r: Replica, self: Device, author: Author, call: Call)
    requires Ahead(r)
    ensures var (q, o) := Do(r, self, author, call);
      && Ahead(q)
      && (!call.Reopen? ==> (Out(q.clock) <==> Out(r.clock) || o == Failed(ClockRange)))
      && (call.Reopen? ==> q.clock == r.saved)
  {
    hide MakeLocalOps, Receive, Compaction.Compact;
    match call
    case Update(drafts) => MadeRange(r.clock, self, drafts, author);
    case ApplyRemote(ops, pt) => if ops != [] { ReceivedRange(r.clock, MaxHlc(ops), pt); }
    case Observe(h, pt) => ReceivedRange(r.clock, h, pt);
    case Compact(gc) => Compaction.CompactKeeps(r, gc);
    case _ =>
  }

  lemma MadeRange(c: Clock, d: Device, drafts: seq<Draft>, author: Author)
    ensures var made := MakeLocalOps(c, d, drafts, author);
      if drafts == [] then made == Made([], c)
      else
        && Packed(c) <= Packed(made.clock)
        && (Out(made.clock) <==> made.NotMade? && made.error == ClockRange)
        && (Out(c) ==> Out(made.clock))
  {
    if drafts != [] { MadeInRange(c, d, drafts, author); }
  }

  lemma AheadIsOut(r: Replica)
    requires Ahead(r)
    ensures Out(r.saved) ==> Out(r.clock)
  {
  }

  /** The persisted clock leaves its range exactly with an empty call while the live clock is out. */
  lemma CallSaves(r: Replica, self: Device, author: Author, call: Call)
    requires Ahead(r)
    ensures Out(Do(r, self, author, call).0.saved) <==> Out(r.saved) || (Empty(call) && Out(r.clock))
  {
    hide MakeLocalOps, Receive, Compaction.Compact;
    AheadIsOut(r);
    match call
    case Update(drafts) => MadeRange(r.clock, self, drafts, author);
    case ApplyRemote(ops, pt) => if ops != [] { ReceivedRange(r.clock, MaxHlc(ops), pt); }
    case Observe(h, pt) => ReceivedRange(r.clock, h, pt);
    case Compact(gc) => Compaction.CompactKeeps(r, gc);
    case _ =>
  }

  // ---------- many calls ----------

  lemma RunNext(r: Replica, self: Device, author: Author, calls: seq<Call>, i: nat)
    requires i < |calls|
    ensures Run(r, self, author, calls[..i + 1]) == Do(Run(r, self, author, calls[..i]), self, author, calls[i]).0
  {
    assert calls[..i + 1][..i] == calls[..i];
  }

  lemma {:induction false} RunAhead(r: Replica, self: Device, author: Author, calls: seq<Call>)
    requires Ahead(r)
    ensures Ahead(Run(r, self, author, calls))
    ensures Out(r.saved) ==> Out(Run(r, self, author, calls).saved)
  {
    hide Ahead, Out, Do;
    if calls != [] {
      var n := |calls| - 1;
      RunAhead(r, self, author, calls[..n]);
      CallMovesLive(Run(r, self, author, calls[..n]), self, author, calls[n]);
      CallSaves(Run(r, self, author, calls[..n]), self, author, calls[n]);
    }
  }

  /** Call `i` failed with a range error. */
  predicate RangeError(r: Replica, self: Device, author: Author, calls: seq<Call>, i: nat)
    requires i < |calls|
  {
    Do(Run(r, self, author, calls[..i]), self, author, calls[i]).1 == Failed(ClockRange)
  }

  /** Some call before `n` failed with a range error, and nobody opened the store since. */
  predicate Pending(r: Replica, self: Device, author: Author, calls: seq<Call>, n: nat)
    requires n <= |calls|
  {
    exists i :: 0 <= i < n && RangeError(r, self, author, calls, i) && forall k | i < k < n :: !calls[k].Reopen?
  }

  lemma PendingNext(r: Replica, self: Device, author: Author, calls: seq<Call>, n: nat)
    requires n < |calls|
    ensures Pending(r, self, author, calls, n + 1) <==>
              RangeError(r, self, author, calls, n)
              || (!calls[n].Reopen? && Pending(r, self, author, calls, n))
  {
    hide RangeError;
    if Pending(r, self, author, calls, n + 1) && !RangeError(r, self, author, calls, n) {
      var i :| 0 <= i < n + 1 && RangeError(r, self, author, calls, i) && forall k | i < k < n + 1 :: !calls[k].Reopen?;
      assert Pending(r, self, author, calls, n);
    }
    if !calls[n].Reopen? && Pending(r, self, author, calls, n) {
      var i :| 0 <= i < n && RangeError(r, self, author, calls, i) && forall k | i < k < n :: !calls[k].Reopen?;
      assert forall k | i < k < n + 1 :: !calls[k].Reopen?;
    }
  }

  /** While the store can be opened, the live clock is out of its range exactly after a range error. */
  lemma {:induction false} LiveExactly(r: Replica, self: Device, author: Author, calls: seq<Call>, n: nat)
    requires Ahead(r) && !Out(r.clock) && n <= |calls| && !Out(Run(r, self, author, calls[..n]).saved)
    ensures Out(Run(r, self, author, calls[..n]).clock) <==> Pending(r, self, author, calls, n)
  {
    hide Ahead, Out, Do, Run, Pending;
    if n > 0 {
      var before := Run(r, self, author, calls[..n - 1]);
      RunNext(r, self, author, calls, n - 1);
      RunAhead(r, self, author, calls[..n - 1]);
      CallSaves(before, self, author, calls[n - 1]);
      CallMovesLive(before, self, author, calls[n - 1]);
      LiveExactly(r, self, author, calls, n - 1);
      PendingNext(r, self, author, calls, n - 1);
      OpeningIsFine(before, self, author);
    } else {
      NothingPends(r, self, author, calls);
    }
  }

  lemma OpeningIsFine(r: Replica, self: Device, author: Author)
    ensures Do(r, self, author, Reopen).1 == Applied(0)
  {
  }

  lemma NothingPends(r: Replica, self: Device, author: Author, calls: seq<Call>)
    ensures !Pending(r, self, author, calls, 0) && Run(r, self, author, calls[..0]) == r
  {
  }

  /** The store of a replica that was fine is refused exactly when some call of the run was empty and came after
      a range error, the store not having been opened in between. */
  lemma {:induction false} RefusedExactly(r: Replica, self: Device, author: Author, calls: seq<Call>, n: nat)
    requires Ahead(r) && !Out(r.clock) && n <= |calls|
    ensures Out(Run(r, self, author, calls[..n]).saved) <==>
              exists j :: 0 <= j < n && Empty(calls[j]) && Pending(r, self, author, calls, j)
  {
    hide Ahead, Out, Do, Run, Pending, Empty;
    if n > 0 {
      var before := Run(r, self, author, calls[..n - 1]);
      RefusedExactly(r, self, author, calls, n - 1);
      RunNext(r, self, author, calls, n - 1);
      RunAhead(r, self, author, calls[..n - 1]);
      CallSaves(before, self, author, calls[n - 1]);
      if !Out(before.saved) { LiveExactly(r, self, author, calls, n - 1); }
    } else {
      NothingPends(r, self, author, calls);
      SavedBehind(r);
    }
  }

  lemma SavedBehind(r: Replica)
    requires Ahead(r) && !Out(r.clock)
    ensures !Out(r.saved)
  {
    AheadIsOut(r);
  }

  // ---------- a store that is refused ----------

  /** 2^48 milliseconds after the epoch. */
  const DOOMSDAY := MAX_MILLIS + 1

  /** On a new replica an update at a wall clock past the range fails. */
  lemma TooLate(self: Device, author: Author, draft: Draft)
    requires draft.pt == DOOMSDAY
    ensures Write(FRESH, self, [draft], author) == (FRESH.(clock := Clock(DOOMSDAY, 0)), Failed(ClockRange))
  {
    assert [draft][..0] == [];
    assert MakeLocalOps(ZERO_CLOCK, self, [], author) == Made([], ZERO_CLOCK);
  }

  /** An empty call then succeeds, and persists the clock. */
  lemma EmptyCalls(r: Replica, self: Device, author: Author, pt: int)
    ensures Write(r, self, [], author) == Merge(r, [], pt) == (r.(saved := r.clock), Applied(0))
  {
    assert r.log + OpSet([]) == r.log;
  }

  lemma LockoutRun(self: Device, author: Author, draft: Draft, call: Call)
    requires draft.pt == DOOMSDAY && Empty(call)
    ensures var calls := [Update([draft]), call];
      Pending(FRESH, self, author, calls, 1) && Out(Run(FRESH, self, author, calls).saved)
  {
    hide Write, Merge;
    var calls := [Update([draft]), call];
    TooLate(self, author, draft);
    RunNext(FRESH, self, author, calls, 0);
    RunNext(FRESH, self, author, calls, 1);
    assert calls[..0] == [] && calls[..2] == calls;
    assert RangeError(FRESH, self, author, calls, 0);
    EmptyCalls(Run(FRESH, self, author, calls[..1]), self, author, if call.ApplyRemote? then call.pt else 0);
  }

  /** A new store; an update at a wall clock past the range fails; an update without columns, or an empty batch,
      succeeds; and the store cannot be opened again. */
  method Lockout(key: DeviceKey, crypto: Crypto, row: Row, entry: Entry, viaUpdate: bool)
    returns (first: Outcome, second: Outcome, reopened: Option<SyncEngine>)
    requires entry.pt == DOOMSDAY
    ensures first == Failed(ClockRange) && second == Applied(0) && reopened.None?
  {
    hide Ready, Keyed, Trimmed, Contents, Flat, Directory, Write, Merge;
    var storage := new MemoryAdapter();
    NewIsReady();
    var found := SyncEngine.Open(storage, key, crypto, None);
    var engine := found.value;
    assert engine.View() == FRESH;
    var draft := DraftsOf(row, [entry])[0];
    assert DraftsOf(row, [entry]) == [draft];
    TooLate(engine.deviceId, engine.Writer(), draft);
    first := engine.Update(row, [entry]);
    EmptyCalls(engine.View(), engine.deviceId, engine.Writer(), entry.pt);
    assert DraftsOf(row, []) == [];
    if viaUpdate {
      second := engine.Update(row, []);
    } else {
      NoneAdmitted(crypto, engine.keys);
      second := engine.ApplyRemoteOps([], entry.pt);
    }
    ReadyAgain(engine);
    reopened := SyncEngine.Open(storage, key, crypto, None);
  }

  lemma NewIsReady()
    ensures Ready(FRESH)
  {
  }

  lemma NoneAdmitted(crypto: Crypto, keys: map<Device, Key>)
    ensures Admitted(crypto, keys, []) == Some([])
  {
    assert Admitted(crypto, keys, []).value == [];
  }

  lemma ReadyAgain(e: SyncEngine)
    requires e.Valid()
    ensures Ready(Stored(e.storage))
  {
  }
}
