/** Replicas against the set of all operations ever issued: what a replica keeps over any history, what its
    next writes are in view of that history, and what each step does to a map of replicas. The set itself
    is a history variable: no replica has it, and the run modules extend
    it whenever a replica writes. */
module Histories {
  import opened Hlcs
  import opened Clocks
  import opened Ops
  import opened Replicas
  import opened Compaction

  lemma PackedOrder(a: Hlc, b: Hlc)
    ensures PackedHlc(a) < PackedHlc(b) ==> Lt(a, b)
    ensures Leq(a, b) ==> PackedHlc(a) <= PackedHlc(b)
  {
  }

  predicate HasEntry(f: Frontier, d: Device) {
    d in f
  }

  /** Every entry of the frontier is the timestamp of one of the operations. */
  ghost predicate EntriesFrom(ops: set<Op>, f: Frontier) {
    forall d {:trigger HasEntry(f, d)} | HasEntry(f, d) :: exists o <- ops :: o.hlc == f[d]
  }

  ghost predicate FrontierIssued(issued: set<Op>, f: Frontier) {
    WellKeyed(f) && EntriesFrom(issued, f)
  }

  predicate Homed(o: Op, reps: map<Device, Replica>) {
    o.hlc.device in reps
  }

  /** No entry of the frontier is above the clock. */
  ghost predicate FrontierTimed(f: Frontier, c: Clock) {
    forall d <- f :: PackedHlc(f[d]) <= Packed(c)
  }

  /** The frontier covers everything its own device issued. */
  ghost predicate OwnSeen(issued: set<Op>, d: Device, f: Frontier) {
    forall o <- issued :: o.hlc.device == d ==> Seen(f, o.hlc)
  }

  /** What device `d`'s replica keeps, over any history. */
  ghost predicate Sound(issued: set<Op>, d: Device, r: Replica) {
    && Consistent(r)
    && r.log <= issued
    && FrontierIssued(issued, r.frontier)
    && FrontierTimed(r.frontier, r.saved)
    && Packed(r.saved) <= Packed(r.clock)
    && OwnSeen(issued, d, r.frontier)
  }

  // ---------- local writes ----------

  /** The operations a write issues; none when it fails. */
  function Issued(r: Replica, d: Device, drafts: seq<Draft>, author: Author): seq<Op> {
    match MakeLocalOps(r.clock, d, drafts, author)
    case Made(ops, _) => ops
    case NotMade(_, _) => []
  }

  ghost predicate Rising(ops: seq<Op>) {
    forall i, j | 0 <= i < j < |ops| :: PackedHlc(ops[i].hlc) < PackedHlc(ops[j].hlc)
  }

  ghost predicate Between(ops: seq<Op>, d: Device, c: Clock, after: Clock) {
    forall i | 0 <= i < |ops| ::
      ops[i].hlc.device == d && Packed(c) < PackedHlc(ops[i].hlc) <= Packed(after)
  }

  lemma LocalOpsStep(c: Clock, d: Device, drafts: seq<Draft>, author: Author)
    requires drafts != []
    ensures var n := |drafts| - 1;
      var before, m := MakeLocalOps(c, d, drafts[..n], author), MakeLocalOps(c, d, drafts, author);
      && Packed(before.clock) <= Packed(m.clock)
      && (m.Made? ==> before.Made? && |m.ops| == |before.ops| + 1 && m.ops[..|before.ops|] == before.ops)
      && (m.Made? ==> var o := m.ops[|before.ops|];
            && o.hlc.device == d && o.cell == drafts[n].cell && o.value == StoredValue(author, drafts[n], o.hlc)
            && Packed(before.clock) < PackedHlc(o.hlc) == Packed(m.clock))
  {
    var before := MakeLocalOps(c, d, drafts[..|drafts| - 1], author);
    NowIsLamport(before.clock, drafts[|drafts| - 1].pt);
  }

  /** Local operations get rising timestamps, all above the clock before. */
  lemma {:induction false} LocalOpsRise(c: Clock, d: Device, drafts: seq<Draft>, author: Author)
    ensures var m := MakeLocalOps(c, d, drafts, author);
      && Packed(c) <= Packed(m.clock)
      && (m.Made? ==> Rising(m.ops) && Between(m.ops, d, c, m.clock))
  {
    if drafts != [] {
      var n := |drafts| - 1;
      LocalOpsRise(c, d, drafts[..n], author);
      LocalOpsStep(c, d, drafts, author);
      var before, m := MakeLocalOps(c, d, drafts[..n], author), MakeLocalOps(c, d, drafts, author);
      if m.Made? {
        RisingAppend(before.ops, m.ops, d, c, before.clock, m.clock);
      }
    }
  }

  ghost predicate Carries(ops: seq<Op>, drafts: seq<Draft>, author: Author) {
    && |ops| == |drafts|
    && forall i | 0 <= i < |drafts| ::
         ops[i].cell == drafts[i].cell && ops[i].value == StoredValue(author, drafts[i], ops[i].hlc)
  }

  /** One operation per draft, in order. */
  lemma {:induction false} LocalOpsCarryDrafts(c: Clock, d: Device, drafts: seq<Draft>, author: Author)
    ensures MakeLocalOps(c, d, drafts, author).Made? ==> Carries(MakeLocalOps(c, d, drafts, author).ops, drafts, author)
  {
    if drafts != [] {
      var n := |drafts| - 1;
      LocalOpsCarryDrafts(c, d, drafts[..n], author);
      LocalOpsStep(c, d, drafts, author);
      if MakeLocalOps(c, d, drafts, author).Made? {
        var init, ops := MakeLocalOps(c, d, drafts[..n], author).ops, MakeLocalOps(c, d, drafts, author).ops;
        CarriesAppend(init, ops, drafts, author);
      }
    }
  }

  lemma CarriesAppend(init: seq<Op>, ops: seq<Op>, drafts: seq<Draft>, author: Author)
    requires |ops| == |init| + 1 == |drafts| && ops[..|init|] == init && Carries(init, drafts[..|init|], author)
    requires ops[|init|].cell == drafts[|init|].cell
    requires ops[|init|].value == StoredValue(author, drafts[|init|], ops[|init|].hlc)
    ensures Carries(ops, drafts, author)
  {
    forall i | 0 <= i < |drafts|
      ensures ops[i].cell == drafts[i].cell && ops[i].value == StoredValue(author, drafts[i], ops[i].hlc)
    {
      if i < |init| { assert ops[i] == init[i] && drafts[i] == drafts[..|init|][i]; }
    }
  }

  lemma RisingAppend(init: seq<Op>, ops: seq<Op>, d: Device, c: Clock, before: Clock, after: Clock)
    requires Rising(init) && Between(init, d, c, before) && Packed(c) <= Packed(before) <= Packed(after)
    requires |ops| == |init| + 1 && ops[..|init|] == init
    requires ops[|init|].hlc.device == d && Packed(before) < PackedHlc(ops[|init|].hlc) <= Packed(after)
    ensures Rising(ops) && Between(ops, d, c, after)
  {
    assert forall i | 0 <= i < |init| :: ops[i] == init[i];
  }

  /** A timestamp a device is about to issue is above every frontier anywhere. */
  lemma NewIsUnseen(issued: set<Op>, d: Device, r: Replica, f: Frontier, h: Hlc)
    requires Sound(issued, d, r) && FrontierIssued(issued, f)
    requires h.device == d && Packed(r.clock) < PackedHlc(h)
    ensures !Seen(f, h)
  {
    if HasEntry(f, d) {
      var p :| p in issued && p.hlc == f[d];
      assert Seen(r.frontier, p.hlc);
      PackedOrder(p.hlc, r.frontier[d]);
      PackedOrder(h, f[d]);
    }
  }

  lemma IssuedIsNew(issued: set<Op>, d: Device, r: Replica, drafts: seq<Draft>, author: Author, o: Op)
    requires Sound(issued, d, r) && o in Issued(r, d, drafts, author)
    ensures o.hlc.device == d && Packed(r.clock) < PackedHlc(o.hlc)
    ensures forall p <- issued :: !SameId(o, p)
  {
    LocalOpsRise(r.clock, d, drafts, author);
    forall p <- issued ensures !SameId(o, p) {
      if p.hlc.device == d {
        assert Seen(r.frontier, p.hlc);
        PackedOrder(p.hlc, r.frontier[d]);
      }
    }
  }

  lemma RisingIsUnique(ops: seq<Op>)
    requires Rising(ops)
    ensures UniqueIds(OpSet(ops))
  {
    forall o, p | o in OpSet(ops) && p in OpSet(ops) && SameId(o, p) ensures o == p {
      var i :| 0 <= i < |ops| && ops[i] == o;
      var j :| 0 <= j < |ops| && ops[j] == p;
    }
  }

  lemma UniqueUnion(some: set<Op>, more: set<Op>)
    requires UniqueIds(some) && UniqueIds(more)
    requires forall o, p | o in more && p in some :: !SameId(o, p)
    ensures UniqueIds(some + more)
  {
    forall o, p | o in some + more && p in some + more && SameId(o, p) ensures o == p {
      assert SameId(p, o);
    }
  }

  /** No two operations of a history share an id, whichever devices issued them. */
  lemma WriteKeepsIds(issued: set<Op>, d: Device, r: Replica, drafts: seq<Draft>, author: Author)
    requires UniqueIds(issued) && Sound(issued, d, r)
    ensures UniqueIds(issued + OpSet(Issued(r, d, drafts, author)))
  {
    var ops := Issued(r, d, drafts, author);
    LocalOpsRise(r.clock, d, drafts, author);
    RisingIsUnique(ops);
    forall o, p | o in OpSet(ops) && p in issued ensures !SameId(o, p) {
      IssuedIsNew(issued, d, r, drafts, author, o);
    }
    UniqueUnion(issued, OpSet(ops));
  }

  /** What a write adds, exactly. */
  lemma WriteJoins(issued: set<Op>, d: Device, r: Replica, drafts: seq<Draft>, author: Author)
    requires UniqueIds(issued) && Sound(issued, d, r)
    ensures var q := Write(r, d, drafts, author).0; var ops := OpSet(Issued(r, d, drafts, author));
      && Consistent(q) && Joined(r, ops, q) && ops !! issued
      && Packed(r.clock) <= Packed(q.clock)
  {
    var ops := Issued(r, d, drafts, author);
    LocalOpsRise(r.clock, d, drafts, author);
    WriteKeepsIds(issued, d, r, drafts, author);
    forall o <- OpSet(ops) ensures o !in issued {
      IssuedIsNew(issued, d, r, drafts, author, o);
      assert SameId(o, o);
    }
    assert r.log + OpSet(ops) <= issued + OpSet(ops);
    match MakeLocalOps(r.clock, d, drafts, author)
    case Made(made, c) => CommitJoins(r, made, OpSet(ops), c);
    case NotMade(_, _) =>
  }

  lemma TimedAfter(f: Frontier, ops: seq<Op>, c: Clock, after: Clock)
    requires FrontierTimed(f, c) && Packed(c) <= Packed(after)
    requires forall o <- OpSet(ops) :: PackedHlc(o.hlc) <= Packed(after)
    ensures FrontierTimed(FrontierAfter(f, ops), after)
  {
    forall d <- FrontierAfter(f, ops) ensures PackedHlc(FrontierAfter(f, ops)[d]) <= Packed(after) {
      FrontierEntries(f, ops, d);
    }
  }

  lemma IssuedAfter(issued: set<Op>, f: Frontier, ops: seq<Op>)
    requires FrontierIssued(issued, f) && OpSet(ops) <= issued
    ensures FrontierIssued(issued, FrontierAfter(f, ops))
  {
    FrontierUnion(f, ops);
    forall d | HasEntry(FrontierAfter(f, ops), d) ensures exists o <- issued :: o.hlc == FrontierAfter(f, ops)[d] {
      FrontierEntries(f, ops, d);
      if d in f { assert HasEntry(f, d); }
    }
  }

  lemma CommitSound(issued: set<Op>, d: Device, r: Replica, news: seq<Op>, ops: set<Op>, c: Clock)
    requires Sound(issued - ops, d, r) || Sound(issued, d, r)
    requires UniqueIds(issued) && ops <= issued && r.log <= issued && OpSet(news) == ops - r.log
    requires Packed(r.clock) <= Packed(c) && forall o <- ops :: PackedHlc(o.hlc) <= Packed(c)
    ensures Sound(issued, d, Commit(r, news, c))
  {
    assert UniqueIds(r.log + ops);
    CommitJoins(r, news, ops, c);
    IssuedAfter(issued, r.frontier, news);
    TimedAfter(r.frontier, news, r.saved, c);
    var f := FrontierAfter(r.frontier, news);
    forall o <- issued | o.hlc.device == d ensures Seen(f, o.hlc) {
      SeenAfterNews(r, news, ops, o.hlc);
    }
  }

  lemma WriteSound(issued: set<Op>, d: Device, r: Replica, drafts: seq<Draft>, author: Author)
    requires UniqueIds(issued) && Sound(issued, d, r)
    ensures Sound(issued + OpSet(Issued(r, d, drafts, author)), d, Write(r, d, drafts, author).0)
  {
    var ops := OpSet(Issued(r, d, drafts, author));
    WriteKeepsIds(issued, d, r, drafts, author);
    WriteJoins(issued, d, r, drafts, author);
    LocalOpsRise(r.clock, d, drafts, author);
    match MakeLocalOps(r.clock, d, drafts, author)
    case Made(made, c) =>
      assert issued + ops - ops == issued;
      assert OpSet(made) == ops - r.log;
      CommitSound(issued + ops, d, r, made, ops, c);
    case NotMade(_, _) =>
      assert issued + ops == issued;
  }

  /** Other replicas do not notice a write. */
  lemma OthersStaySound(issued: set<Op>, more: set<Op>, d: Device, r: Replica)
    requires Sound(issued, d, r) && forall o <- more :: o.hlc.device != d
    ensures Sound(issued + more, d, r)
  {
  }

  // ---------- the other steps ----------

  lemma BatchTimed(r: Replica, ops: seq<Op>, pt: int)
    requires ReceiveBatch(r.clock, ops, pt).Ticked?
    ensures var c := ReceiveBatch(r.clock, ops, pt).clock;
      Packed(r.clock) <= Packed(c) && forall o <- OpSet(ops) :: PackedHlc(o.hlc) <= Packed(c)
  {
    if ops != [] {
      ReceiveIsLamport(r.clock, MaxHlc(ops), pt);
      forall o <- OpSet(ops) ensures PackedHlc(o.hlc) <= Packed(ReceiveBatch(r.clock, ops, pt).clock) {
        PackedOrder(o.hlc, MaxHlc(ops));
      }
    }
  }

  lemma MergeSound(issued: set<Op>, d: Device, r: Replica, ops: seq<Op>, pt: int)
    requires UniqueIds(issued) && Sound(issued, d, r) && OpSet(ops) <= issued
    ensures Sound(issued, d, Merge(r, ops, pt).0)
  {
    if ops != [] { ReceiveIsLamport(r.clock, MaxHlc(ops), pt); }
    var t := ReceiveBatch(r.clock, ops, pt);
    if t.Ticked? {
      BatchTimed(r, ops, pt);
      assert r.log + OpSet(ops) <= issued;
      FreshUnion(r.log, ops, issued);
      CommitSound(issued, d, r, FreshOps(r.log, ops), OpSet(ops), t.clock);
    }
  }

  lemma ObserveSound(issued: set<Op>, d: Device, r: Replica, h: Hlc, pt: int)
    requires Sound(issued, d, r)
    ensures Sound(issued, d, ObserveClock(r, h, pt).0)
  {
    ReceiveIsLamport(r.clock, h, pt);
  }

  lemma CompactSound(issued: set<Op>, d: Device, r: Replica, gc: bool)
    requires Sound(issued, d, r)
    ensures Sound(issued, d, Compact(r, gc))
  {
    CompactConsistent(r, gc);
  }

  lemma RestartSound(issued: set<Op>, d: Device, r: Replica)
    requires Sound(issued, d, r)
    ensures Sound(issued, d, Restart(r))
  {
  }

  // ---------- all replicas together ----------

  /** Everything the first frontier covers, the second covers. */
  ghost predicate Within(f: Frontier, g: Frontier) {
    forall h :: Seen(f, h) ==> Seen(g, h)
  }

  /** A frontier known of a device is no higher than the device's own. */
  ghost predicate Known(reps: map<Device, Replica>, d: Device, f: Frontier) {
    d in reps && Within(f, reps[d].frontier)
  }

  /** A sound replica whose record of its peers is no higher than they are. */
  ghost predicate SoundRep(issued: set<Op>, reps: map<Device, Replica>, d: Device)
    requires d in reps
  {
    Sound(issued, d, reps[d]) && forall p <- reps[d].peers :: Known(reps, p, reps[d].peers[p])
  }

  ghost predicate AllSound(issued: set<Op>, reps: map<Device, Replica>) {
    && UniqueIds(issued)
    && (forall o {:trigger Homed(o, reps)} | o in issued :: Homed(o, reps))
    && (forall d <- reps :: SoundRep(issued, reps, d))
  }

  lemma FreshSound(d: Device)
    ensures Sound({}, d, FRESH)
  {
    assert UniqueIds({});
  }

  lemma FreshAllSound(reps: map<Device, Replica>)
    requires forall d <- reps :: reps[d] == FRESH
    ensures AllSound({}, reps)
  {
    assert UniqueIds({});
    forall d <- reps ensures SoundRep({}, reps, d) {
      FreshSound(d);
    }
  }

  lemma KnownGrows(reps: map<Device, Replica>, d: Device, q: Replica, p: Device, f: Frontier)
    requires d in reps && Within(reps[d].frontier, q.frontier) && Known(reps, p, f)
    ensures Known(reps[d := q], p, f)
  {
  }

  /** One replica changes and nothing is issued. */
  lemma PutSound(issued: set<Op>, reps: map<Device, Replica>, d: Device, q: Replica)
    requires AllSound(issued, reps) && d in reps
    requires Sound(issued, d, q) && Within(reps[d].frontier, q.frontier)
    requires forall p <- q.peers :: Known(reps, p, q.peers[p])
    ensures AllSound(issued, reps[d := q])
  {
    var after := reps[d := q];
    forall o <- issued ensures Homed(o, after) {
      assert Homed(o, reps);
    }
    forall e <- after ensures SoundRep(issued, after, e) {
      assert SoundRep(issued, reps, e);
      forall p <- after[e].peers ensures Known(after, p, after[e].peers[p]) {
        KnownGrows(reps, d, q, p, after[e].peers[p]);
      }
    }
  }

  lemma MergeGrows(issued: set<Op>, r: Replica, ops: seq<Op>, pt: int)
    requires UniqueIds(issued) && Consistent(r) && r.log <= issued && OpSet(ops) <= issued
    ensures Within(r.frontier, Merge(r, ops, pt).0.frontier) && Merge(r, ops, pt).0.peers == r.peers
  {
    if Merge(r, ops, pt).1.Applied? {
      assert r.log + OpSet(ops) <= issued;
      MergeJoins(r, ops, pt);
    }
  }

  lemma WriteAllSound(issued: set<Op>, reps: map<Device, Replica>, d: Device, drafts: seq<Draft>, author: Author)
    requires AllSound(issued, reps) && d in reps
    ensures AllSound(issued + OpSet(Issued(reps[d], d, drafts, author)), reps[d := Write(reps[d], d, drafts, author).0])
  {
    var r := reps[d];
    var more := OpSet(Issued(r, d, drafts, author));
    var q := Write(r, d, drafts, author).0;
    var after := reps[d := q];
    assert SoundRep(issued, reps, d);
    WriteKeepsIds(issued, d, r, drafts, author);
    WriteJoins(issued, d, r, drafts, author);
    forall o <- more ensures o.hlc.device == d {
      IssuedIsNew(issued, d, r, drafts, author, o);
    }
    forall o <- issued + more ensures Homed(o, after) {
      if o in issued { assert Homed(o, reps); }
    }
    forall e <- after ensures SoundRep(issued + more, after, e) {
      assert SoundRep(issued, reps, e);
      if e == d {
        WriteSound(issued, d, r, drafts, author);
      } else {
        OthersStaySound(issued, more, e, reps[e]);
      }
      forall p <- after[e].peers ensures Known(after, p, after[e].peers[p]) {
        KnownGrows(reps, d, q, p, after[e].peers[p]);
      }
    }
  }

  /** New timestamps are above every frontier of issued timestamps. */
  lemma MoreUnseen(issued: set<Op>, d: Device, r: Replica, drafts: seq<Draft>, author: Author, f: Frontier)
    requires Sound(issued, d, r) && FrontierIssued(issued, f)
    ensures forall o <- OpSet(Issued(r, d, drafts, author)) :: !Seen(f, o.hlc)
  {
    forall o <- OpSet(Issued(r, d, drafts, author)) ensures !Seen(f, o.hlc) {
      IssuedIsNew(issued, d, r, drafts, author, o);
      NewIsUnseen(issued, d, r, f, o.hlc);
    }
  }

  // ---------- causality ----------

  /** A new local operation is above everything its replica ever applied, restarts included, and wins its cell. */
  lemma WritesAreCausal(issued: set<Op>, d: Device, r: Replica, drafts: seq<Draft>, author: Author, o: Op)
    requires UniqueIds(issued) && Sound(issued, d, r)
    requires o in Issued(r, d, drafts, author)
    ensures forall h | Seen(r.frontier, h) :: Lt(h, o.hlc)
    ensures forall p <- r.log :: Lt(p.hlc, o.hlc)
    ensures var cells := Write(r, d, drafts, author).0.cells;
      o.cell in cells && cells[o.cell] in Issued(r, d, drafts, author) && Leq(o.hlc, cells[o.cell].hlc)
    ensures (forall p | p in Issued(r, d, drafts, author) && p.cell == o.cell :: p == o)
            ==> Write(r, d, drafts, author).0.cells[o.cell] == o
  {
    IssuedIsNew(issued, d, r, drafts, author, o);
    forall h | Seen(r.frontier, h) ensures Lt(h, o.hlc) {
      PackedOrder(h, r.frontier[h.device]);
      PackedOrder(h, o.hlc);
    }
    forall p <- r.log ensures Lt(p.hlc, o.hlc) {
      assert Seen(r.frontier, p.hlc);
    }
    var ops := Issued(r, d, drafts, author);
    CellsUnion(r.cells, ops);
    var cells := CellsAfter(r.cells, ops);
    assert Outranks(OpSet(ops), o) by { assert o in OpSet(ops); }
    assert Covers(cells, o);
  }
}
