/** One replica as a value, and what each operation of the engine makes of it. */
module Replicas {
  import opened Texts
  import opened Hlcs
  import opened Clocks
  import opened Json
  import opened Ops

  datatype Replica = Replica(
    log: set<Op>,                     // operations retained
    cells: map<Cell, Op>,             // winning operation per cell
    frontier: Frontier,
    clock: Clock,                     // in memory
    saved: Clock,                     // persisted
    peers: map<Device, Frontier>)     // recorded peer frontiers

  const FRESH := Replica({}, map[], map[], ZERO_CLOCK, ZERO_CLOCK, map[])

  datatype Error = RejectedOp | ClockDrift | ClockRange | MalformedClock

  datatype Outcome = Applied(count: nat) | Failed(error: Error)

  /** The winner of the operation's cell is at least as high as the operation. */
  predicate Covers(cells: map<Cell, Op>, o: Op) {
    o.cell in cells && Leq(o.hlc, cells[o.cell].hlc)
  }

  // ---------- the mutation path ----------

  function CellsAfter(cells: map<Cell, Op>, ops: seq<Op>): map<Cell, Op> {
    if ops == [] then cells
    else
      var before := CellsAfter(cells, ops[..|ops| - 1]);
      var o := ops[|ops| - 1];
      if Covers(before, o) then before else before[o.cell := o]
  }

  function FrontierAfter(f: Frontier, ops: seq<Op>): Frontier {
    if ops == [] then f
    else AdvanceFrontier(FrontierAfter(f, ops[..|ops| - 1]), ops[|ops| - 1])
  }

  function OpSet(ops: seq<Op>): set<Op> {
    set o | o in ops
  }

  function Commit(r: Replica, ops: seq<Op>, clock: Clock): Replica {
    r.(log := r.log + OpSet(ops), cells := CellsAfter(r.cells, ops), frontier := FrontierAfter(r.frontier, ops),
       clock := clock, saved := clock)
  }

  // ---------- remote operations ----------

  predicate HasOp(log: set<Op>, h: Hlc) {
    exists o <- log :: o.hlc == h
  }

  /** The operations not in the log yet, first occurrences only. */
  function FreshOps(log: set<Op>, ops: seq<Op>): seq<Op> {
    if ops == [] then []
    else
      var before := FreshOps(log, ops[..|ops| - 1]);
      var o := ops[|ops| - 1];
      if HasOp(log, o.hlc) || HasOp(OpSet(before), o.hlc) then before else before + [o]
  }

  function MaxHlc(ops: seq<Op>): (h: Hlc)
    requires ops != []
    ensures forall o <- ops :: Leq(o.hlc, h)
    ensures exists o <- ops :: o.hlc == h
  {
    if |ops| == 1 then ops[0].hlc
    else
      var m := MaxHlc(ops[..|ops| - 1]);
      var o := ops[|ops| - 1];
      assert ops == ops[..|ops| - 1] + [o];
      assert o in ops;
      assert forall p <- ops[..|ops| - 1] :: p in ops;
      if Lt(m, o.hlc) then o.hlc else m
  }

  /** Observing the highest timestamp of the batch; an empty batch leaves the clock alone. */
  function ReceiveBatch(c: Clock, ops: seq<Op>, pt: int): Tick {
    if ops == [] then Ticked(c) else Receive(c, MaxHlc(ops), pt)
  }

  /** The drift check on the highest operation stands for the whole batch. */
  lemma BatchDrift(c: Clock, ops: seq<Op>, pt: int)
    ensures ReceiveBatch(c, ops, pt).Drift? <==> exists o <- ops :: o.hlc.millis > pt + MAX_DRIFT_MS
  {
    if ops != [] {
      var h := MaxHlc(ops);
      assert exists m <- ops :: m.hlc == h;
    }
  }

  /** Merge a batch that passed validation. */
  function Merge(r: Replica, ops: seq<Op>, pt: int): (Replica, Outcome) {
    var t := ReceiveBatch(r.clock, ops, pt);
    match t
    case Drift => (r, Failed(ClockDrift))
    case OutOfRange(c) => (r.(clock := c), Failed(ClockRange))
    case Ticked(c) =>
      var news := FreshOps(r.log, ops);
      (Commit(r, news, c), Applied(|news|))
  }

  function ObserveClock(r: Replica, h: Hlc, pt: int): (Replica, Outcome) {
    var t := Receive(r.clock, h, pt);
    match t
    case Drift => (r, Failed(ClockDrift))
    case OutOfRange(c) => (r.(clock := c), Failed(ClockRange))
    case Ticked(c) => (r.(clock := c, saved := c), Applied(0))
  }

  // ---------- local writes ----------

  /** One cell of a local write; `pt` is the wall clock when its operation is made. */
  datatype Draft = Draft(cell: Cell, value: Json, pt: int)

  /** How a device turns a draft into an operation: the cipher (the identity without one) and the signature. */
  datatype Author = Author(seal: (Json, Hlc) -> Json, sign: (Cell, Json, Hlc) -> Text)

  /** Tombstones stay plain, so that a peer without the key can merge them. */
  function StoredValue(author: Author, d: Draft, h: Hlc): Json {
    if d.cell.column == TOMBSTONE then d.value else author.seal(d.value, h)
  }

  datatype Made = Made(ops: seq<Op>, clock: Clock) | NotMade(clock: Clock, error: Error)

  function MakeLocalOps(c: Clock, device: Device, drafts: seq<Draft>, author: Author): Made {
    if drafts == [] then Made([], c)
    else
      var d := drafts[|drafts| - 1];
      match MakeLocalOps(c, device, drafts[..|drafts| - 1], author)
      case NotMade(e, error) => NotMade(e, error)
      case Made(ops, before) =>
        var t := Now(before, d.pt);
        if t.Ticked? then
          var h := Hlc(t.clock.millis, t.clock.counter, device);
          var v := StoredValue(author, d, h);
          var o := Op(d.cell, v, h, author.sign(d.cell, v, h));
          if Admissible(o) then Made(ops + [o], t.clock) else NotMade(t.clock, RejectedOp)
        else NotMade(After(before, t), ClockRange)
  }

  function Write(r: Replica, device: Device, drafts: seq<Draft>, author: Author): (Replica, Outcome) {
    match MakeLocalOps(r.clock, device, drafts, author)
    case Made(ops, c) => (Commit(r, ops, c), Applied(|ops|))
    case NotMade(c, error) => (r.(clock := c), Failed(error))
  }

  // ---------- the other steps ----------

  function RecordPeer(r: Replica, self: Device, peer: Device, f: Frontier): Replica {
    if peer == self then r else r.(peers := r.peers[peer := f])
  }

  /** Opening the stored replica again: only what was persisted is left. */
  function Restart(r: Replica): Replica {
    r.(clock := r.saved)
  }

  /** Every retained operation a peer with this frontier lacks. */
  function Diff(log: set<Op>, have: Frontier): set<Op> {
    set o | o in log && AboveFrontier(o, have)
  }

  // ---------- what is visible ----------

  predicate Tombstoned(cells: map<Cell, Op>, row: Row) {
    TombstoneOf(row) in cells && cells[TombstoneOf(row)].value == Bool(true)
  }

  /** Some cell of the row is present and the row is not tombstoned. */
  predicate Visible(cells: map<Cell, Op>, row: Row) {
    (exists c <- cells :: RowOf(c) == row) && !Tombstoned(cells, row)
  }

  /** What a reader makes of a stored value: the decryption, or the value itself. */
  type Opener = (Json, Hlc) -> Json

  datatype Dumped = Dumped(rows: set<Row>, values: map<Cell, Json>)

  /** The materialized state: visible rows, and their cells that are not cleared. */
  function Dump(cells: map<Cell, Op>, open: Opener): Dumped {
    Dumped(
      set c | c in cells && Visible(cells, RowOf(c)) :: RowOf(c),
      map c | c in cells && Visible(cells, RowOf(c)) && c.column != TOMBSTONE
              && open(cells[c].value, cells[c].hlc) != Null
        :: open(cells[c].value, cells[c].hlc))
  }

  // ---------- frontiers and cells as unions ----------

  predicate SameId(o: Op, p: Op) {
    o.hlc == p.hlc
  }

  /** No two operations share an id. */
  ghost predicate UniqueIds(ops: set<Op>) {
    forall o, p {:trigger SameId(o, p)} | o in ops && p in ops && SameId(o, p) :: o == p
  }

  ghost predicate WellKeyed(f: Frontier) {
    forall d <- f :: f[d].device == d
  }

  lemma AppendLast(ops: seq<Op>)
    requires ops != []
    ensures ops == ops[..|ops| - 1] + [ops[|ops| - 1]]
    ensures forall o :: o in ops <==> o in ops[..|ops| - 1] || o == ops[|ops| - 1]
  {
    var init, last := ops[..|ops| - 1], ops[|ops| - 1];
    assert ops == init + [last];
  }

  /** Some operation of the set is from the timestamp's device and at least as high. */
  ghost predicate Reaches(ops: set<Op>, h: Hlc) {
    exists o <- ops :: o.hlc.device == h.device && Leq(h, o.hlc)
  }

  /** Some operation of the set is on the same cell and at least as high. */
  ghost predicate Outranks(ops: set<Op>, o: Op) {
    exists p <- ops :: p.cell == o.cell && Leq(o.hlc, p.hlc)
  }

  lemma AdvanceUnion(f: Frontier, o: Op)
    requires WellKeyed(f)
    ensures WellKeyed(AdvanceFrontier(f, o))
    ensures forall h :: Seen(AdvanceFrontier(f, o), h) <==> Seen(f, h) || (o.hlc.device == h.device && Leq(h, o.hlc))
  {
  }

  lemma ReachesLast(ops: seq<Op>, h: Hlc)
    requires ops != []
    ensures var o := ops[|ops| - 1];
      Reaches(OpSet(ops), h) <==> Reaches(OpSet(ops[..|ops| - 1]), h) || (o.hlc.device == h.device && Leq(h, o.hlc))
  {
    AppendLast(ops);
  }

  /** A frontier covers what it covered, and everything up to the batch's operations. */
  lemma {:induction false} FrontierUnion(f: Frontier, ops: seq<Op>)
    requires WellKeyed(f)
    ensures WellKeyed(FrontierAfter(f, ops))
    ensures forall h :: Seen(FrontierAfter(f, ops), h) <==> Seen(f, h) || Reaches(OpSet(ops), h)
  {
    if ops != [] {
      var init := ops[..|ops| - 1];
      FrontierUnion(f, init);
      AdvanceUnion(FrontierAfter(f, init), ops[|ops| - 1]);
      forall h ensures Seen(FrontierAfter(f, ops), h) <==> Seen(f, h) || Reaches(OpSet(ops), h) {
        ReachesLast(ops, h);
      }
    }
  }

  /** Entries of a frontier are the old ones or timestamps of the batch. */
  lemma {:induction false} FrontierEntries(f: Frontier, ops: seq<Op>, d: Device)
    requires d in FrontierAfter(f, ops)
    ensures (d in f && FrontierAfter(f, ops)[d] == f[d]) || exists o <- OpSet(ops) :: o.hlc == FrontierAfter(f, ops)[d]
  {
    if ops != [] {
      var init, last := ops[..|ops| - 1], ops[|ops| - 1];
      AppendLast(ops);
      if FrontierAfter(f, ops)[d] == last.hlc {
        assert last in OpSet(ops);
      } else {
        FrontierEntries(f, init, d);
      }
    }
  }

  lemma InsertUnion(cells: map<Cell, Op>, o: Op, p: Op)
    ensures var after := if Covers(cells, o) then cells else cells[o.cell := o];
      Covers(after, p) <==> Covers(cells, p) || (o.cell == p.cell && Leq(p.hlc, o.hlc))
  {
  }

  lemma OutranksLast(ops: seq<Op>, p: Op)
    requires ops != []
    ensures var o := ops[|ops| - 1];
      Outranks(OpSet(ops), p) <==> Outranks(OpSet(ops[..|ops| - 1]), p) || (o.cell == p.cell && Leq(p.hlc, o.hlc))
  {
    AppendLast(ops);
  }

  /** A replica's cells cover what they covered, and everything up to the batch's operations. */
  lemma {:induction false} CellsUnion(cells: map<Cell, Op>, ops: seq<Op>)
    ensures forall o :: Covers(CellsAfter(cells, ops), o) <==> Covers(cells, o) || Outranks(OpSet(ops), o)
    ensures forall c <- CellsAfter(cells, ops) ::
              (c in cells && CellsAfter(cells, ops)[c] == cells[c])
              || (CellsAfter(cells, ops)[c] in OpSet(ops) && CellsAfter(cells, ops)[c].cell == c)
  {
    if ops != [] {
      var init := ops[..|ops| - 1];
      AppendLast(ops);
      CellsUnion(cells, init);
      forall o ensures Covers(CellsAfter(cells, ops), o) <==> Covers(cells, o) || Outranks(OpSet(ops), o) {
        InsertUnion(CellsAfter(cells, init), ops[|ops| - 1], o);
        OutranksLast(ops, o);
      }
    }
  }

  lemma HasOpIsMember(log: set<Op>, o: Op, all: set<Op>)
    requires UniqueIds(all) && log <= all && o in all
    ensures HasOp(log, o.hlc) <==> o in log
  {
    if HasOp(log, o.hlc) {
      var p :| p in log && p.hlc == o.hlc;
      assert SameId(o, p);
    }
  }

  lemma FreshLast(log: set<Op>, ops: seq<Op>, all: set<Op>)
    requires ops != [] && UniqueIds(all) && log <= all && OpSet(ops) <= all
    requires OpSet(FreshOps(log, ops[..|ops| - 1])) <= all
    ensures var before, o := FreshOps(log, ops[..|ops| - 1]), ops[|ops| - 1];
      FreshOps(log, ops) == if o in log || o in OpSet(before) then before else before + [o]
  {
    var before, o := FreshOps(log, ops[..|ops| - 1]), ops[|ops| - 1];
    assert o in OpSet(ops);
    HasOpIsMember(log, o, all);
    HasOpIsMember(OpSet(before), o, all);
  }

  lemma OpSetAppend(ops: seq<Op>, o: Op)
    ensures OpSet(ops + [o]) == OpSet(ops) + {o}
  {
  }

  /** What is not new is logged already. */
  lemma {:induction false} FreshUnion(log: set<Op>, ops: seq<Op>, all: set<Op>)
    requires UniqueIds(all) && log <= all && OpSet(ops) <= all
    ensures OpSet(FreshOps(log, ops)) == OpSet(ops) - log
  {
    if ops != [] {
      var init, last := ops[..|ops| - 1], ops[|ops| - 1];
      AppendLast(ops);
      OpSetAppend(init, last);
      FreshUnion(log, init, all);
      FreshLast(log, ops, all);
      OpSetAppend(FreshOps(log, init), last);
    }
  }

  /** Nothing is counted twice. */
  lemma {:induction false} FreshCount(log: set<Op>, ops: seq<Op>)
    ensures |FreshOps(log, ops)| == |OpSet(FreshOps(log, ops))|
  {
    if ops != [] {
      var init, last := ops[..|ops| - 1], ops[|ops| - 1];
      FreshCount(log, init);
      OpSetAppend(FreshOps(log, init), last);
    }
  }

  // ---------- the replica invariant ----------

  /** `cells` holds exactly the highest logged operation of each cell. */
  ghost predicate ExactCells(log: set<Op>, cells: map<Cell, Op>) {
    && (forall o <- log :: Covers(cells, o))
    && (forall c <- cells :: cells[c] in log && cells[c].cell == c)
  }

  /** What every replica keeps, whatever happens to it. */
  ghost predicate Consistent(r: Replica) {
    && UniqueIds(r.log)
    && ExactCells(r.log, r.cells)
    && WellKeyed(r.frontier)
    && (forall o <- r.log :: Seen(r.frontier, o.hlc))
  }

  lemma CommitConsistent(r: Replica, ops: seq<Op>, c: Clock)
    requires Consistent(r) && UniqueIds(r.log + OpSet(ops))
    ensures Consistent(Commit(r, ops, c))
  {
    FrontierUnion(r.frontier, ops);
    CellsUnion(r.cells, ops);
  }

  lemma MergeConsistent(r: Replica, ops: seq<Op>, pt: int)
    requires Consistent(r) && UniqueIds(r.log + OpSet(ops))
    ensures Consistent(Merge(r, ops, pt).0)
  {
    FreshUnion(r.log, ops, r.log + OpSet(ops));
    var news := FreshOps(r.log, ops);
    assert r.log + OpSet(news) <= r.log + OpSet(ops);
    if ReceiveBatch(r.clock, ops, pt).Ticked? {
      CommitConsistent(r, news, ReceiveBatch(r.clock, ops, pt).clock);
    }
  }

  /** Cells with the same winners' reach are the same cells. */
  lemma CellsDetermined(log: set<Op>, cells: map<Cell, Op>, others: map<Cell, Op>)
    requires UniqueIds(log) && ExactCells(log, cells) && ExactCells(log, others)
    ensures cells == others
  {
    forall c | c in cells || c in others ensures c in cells && c in others && cells[c] == others[c] {
      if c in cells { assert Covers(others, cells[c]); }
      if c in others { assert Covers(cells, others[c]); }
      assert SameId(cells[c], others[c]);
    }
  }

  lemma FrontierDetermined(f: Frontier, g: Frontier)
    requires WellKeyed(f) && WellKeyed(g)
    requires forall h :: Seen(f, h) <==> Seen(g, h)
    ensures f == g
  {
    forall d | d in f || d in g ensures d in f && d in g && f[d] == g[d] {
      if d in f { assert Seen(g, f[d]); }
      if d in g { assert Seen(f, g[d]); }
    }
  }

  lemma ReachesUnion(ops: set<Op>, more: set<Op>, h: Hlc)
    ensures Reaches(ops + more, h) <==> Reaches(ops, h) || Reaches(more, h)
  {
  }

  lemma LoggedReaches(r: Replica, ops: set<Op>, h: Hlc)
    requires Consistent(r) && Reaches(r.log * ops, h)
    ensures Seen(r.frontier, h)
  {
    var o :| o in r.log * ops && o.hlc.device == h.device && Leq(h, o.hlc);
    assert Seen(r.frontier, o.hlc);
  }

  lemma LoggedOutranks(r: Replica, ops: set<Op>, p: Op)
    requires Consistent(r) && Outranks(r.log * ops, p)
    ensures Covers(r.cells, p)
  {
    var o :| o in r.log * ops && o.cell == p.cell && Leq(p.hlc, o.hlc);
    assert Covers(r.cells, o);
  }

  lemma OutranksUnion(ops: set<Op>, more: set<Op>, p: Op)
    ensures Outranks(ops + more, p) <==> Outranks(ops, p) || Outranks(more, p)
  {
  }

  lemma SeenAfterNews(r: Replica, news: seq<Op>, ops: set<Op>, h: Hlc)
    requires Consistent(r) && OpSet(news) == ops - r.log
    ensures Seen(FrontierAfter(r.frontier, news), h) <==> Seen(r.frontier, h) || Reaches(ops, h)
  {
    FrontierUnion(r.frontier, news);
    assert ops == OpSet(news) + r.log * ops;
    ReachesUnion(OpSet(news), r.log * ops, h);
    if Reaches(r.log * ops, h) { LoggedReaches(r, ops, h); }
  }

  lemma CoveredAfterNews(r: Replica, news: seq<Op>, ops: set<Op>, o: Op)
    requires Consistent(r) && OpSet(news) == ops - r.log
    ensures Covers(CellsAfter(r.cells, news), o) <==> Covers(r.cells, o) || Outranks(ops, o)
  {
    CellsUnion(r.cells, news);
    assert ops == OpSet(news) + r.log * ops;
    OutranksUnion(OpSet(news), r.log * ops, o);
    if Outranks(r.log * ops, o) { LoggedOutranks(r, ops, o); }
  }

  /** `q` is `r` with a set of operations added to log, frontier and cells alike. */
  ghost predicate Joined(r: Replica, ops: set<Op>, q: Replica) {
    && q.log == r.log + ops
    && (forall h :: Seen(q.frontier, h) <==> Seen(r.frontier, h) || Reaches(ops, h))
    && (forall o :: Covers(q.cells, o) <==> Covers(r.cells, o) || Outranks(ops, o))
  }

  lemma CommitJoins(r: Replica, news: seq<Op>, ops: set<Op>, c: Clock)
    requires Consistent(r) && UniqueIds(r.log + ops) && OpSet(news) == ops - r.log
    ensures Consistent(Commit(r, news, c))
    ensures Joined(r, ops, Commit(r, news, c))
  {
    var q := Commit(r, news, c);
    assert r.log + OpSet(news) == r.log + ops;
    CommitConsistent(r, news, c);
    forall h ensures Seen(q.frontier, h) <==> Seen(r.frontier, h) || Reaches(ops, h) {
      SeenAfterNews(r, news, ops, h);
    }
    forall o ensures Covers(q.cells, o) <==> Covers(r.cells, o) || Outranks(ops, o) {
      CoveredAfterNews(r, news, ops, o);
    }
  }

  /** An accepted merge adds exactly the batch, to log, frontier and cells alike. */
  lemma MergeJoins(r: Replica, ops: seq<Op>, pt: int)
    requires Consistent(r) && UniqueIds(r.log + OpSet(ops))
    requires Merge(r, ops, pt).1.Applied?
    ensures Consistent(Merge(r, ops, pt).0)
    ensures Joined(r, OpSet(ops), Merge(r, ops, pt).0)
    ensures Merge(r, ops, pt).1.count == |OpSet(ops) - r.log|
  {
    FreshUnion(r.log, ops, r.log + OpSet(ops));
    FreshCount(r.log, ops);
    CommitJoins(r, FreshOps(r.log, ops), OpSet(ops), ReceiveBatch(r.clock, ops, pt).clock);
  }

  // ---------- any order, any batching, any duplication ----------

  /** One delivery of a batch. */
  datatype Delivery = Delivery(ops: seq<Op>, pt: int)

  function DeliverAll(r: Replica, batches: seq<Delivery>): Replica {
    if batches == [] then r
    else
      var last := batches[|batches| - 1];
      Merge(DeliverAll(r, batches[..|batches| - 1]), last.ops, last.pt).0
  }

  /** Every batch was accepted. */
  ghost predicate AllAccepted(r: Replica, batches: seq<Delivery>) {
    forall i | 0 <= i < |batches| ::
      Merge(DeliverAll(r, batches[..i]), batches[i].ops, batches[i].pt).1.Applied?
  }

  function Delivered(batches: seq<Delivery>): set<Op> {
    set b, o | b in batches && o in b.ops :: o
  }

  lemma AllAcceptedInit(r: Replica, batches: seq<Delivery>)
    requires batches != [] && AllAccepted(r, batches)
    ensures var n := |batches| - 1;
      && AllAccepted(r, batches[..n])
      && Merge(DeliverAll(r, batches[..n]), batches[n].ops, batches[n].pt).1.Applied?
  {
    var init := batches[..|batches| - 1];
    forall i | 0 <= i < |init| ensures Merge(DeliverAll(r, init[..i]), init[i].ops, init[i].pt).1.Applied? {
      assert init[..i] == batches[..i] && init[i] == batches[i];
    }
  }

  lemma DeliveredLast(batches: seq<Delivery>)
    requires batches != []
    ensures Delivered(batches) == Delivered(batches[..|batches| - 1]) + OpSet(batches[|batches| - 1].ops)
  {
    var init, last := batches[..|batches| - 1], batches[|batches| - 1];
    assert batches == init + [last];
    assert forall b :: b in batches <==> b in init || b == last;
  }

  lemma JoinedTwice(r: Replica, ops: set<Op>, q: Replica, more: set<Op>, s: Replica)
    requires Joined(r, ops, q) && Joined(q, more, s)
    ensures Joined(r, ops + more, s)
  {
    forall h ensures Reaches(ops + more, h) <==> Reaches(ops, h) || Reaches(more, h) {
      ReachesUnion(ops, more, h);
    }
    forall o ensures Outranks(ops + more, o) <==> Outranks(ops, o) || Outranks(more, o) {
      OutranksUnion(ops, more, o);
    }
  }

  lemma MergeAfter(r: Replica, ops: set<Op>, q: Replica, last: Delivery)
    requires Consistent(q) && UniqueIds(q.log + OpSet(last.ops)) && Joined(r, ops, q)
    requires Merge(q, last.ops, last.pt).1.Applied?
    ensures Consistent(Merge(q, last.ops, last.pt).0)
    ensures Joined(r, ops + OpSet(last.ops), Merge(q, last.ops, last.pt).0)
  {
    MergeJoins(q, last.ops, last.pt);
    JoinedTwice(r, ops, q, OpSet(last.ops), Merge(q, last.ops, last.pt).0);
  }

  lemma {:induction false} DeliverAllJoins(r: Replica, batches: seq<Delivery>)
    requires Consistent(r) && UniqueIds(r.log + Delivered(batches))
    requires AllAccepted(r, batches)
    ensures Consistent(DeliverAll(r, batches))
    ensures Joined(r, Delivered(batches), DeliverAll(r, batches))
  {
    hide Merge, Consistent;
    if batches != [] {
      var init, last := batches[..|batches| - 1], batches[|batches| - 1];
      DeliveredLast(batches);
      AllAcceptedInit(r, batches);
      assert r.log + Delivered(init) <= r.log + Delivered(batches);
      DeliverAllJoins(r, init);
      var q := DeliverAll(r, init);
      assert q.log + OpSet(last.ops) == r.log + Delivered(batches);
      assert DeliverAll(r, batches) == Merge(q, last.ops, last.pt).0;
      MergeAfter(r, Delivered(init), q, last);
    }
  }

  /** The same operations, in any order, batching and number of copies, give the same log, cells
      and frontier. */
  lemma DeliveryOrderIrrelevant(r: Replica, batches: seq<Delivery>, others: seq<Delivery>)
    requires Consistent(r) && UniqueIds(r.log + Delivered(batches))
    requires AllAccepted(r, batches) && AllAccepted(r, others)
    requires Delivered(batches) == Delivered(others)
    ensures var q, s := DeliverAll(r, batches), DeliverAll(r, others);
      q.log == s.log && q.cells == s.cells && q.frontier == s.frontier
  {
    DeliverAllJoins(r, batches);
    DeliverAllJoins(r, others);
    var q, s := DeliverAll(r, batches), DeliverAll(r, others);
    CellsDetermined(q.log, q.cells, s.cells);
    FrontierDetermined(q.frontier, s.frontier);
  }

  /** A rejected batch changes nothing but, when the clock left its range, the in-memory clock. */
  lemma RejectionChangesNothing(r: Replica, ops: seq<Op>, pt: int)
    requires Merge(r, ops, pt).1.Failed?
    ensures Merge(r, ops, pt).0 == r.(clock := Merge(r, ops, pt).0.clock)
    ensures Merge(r, ops, pt).1.error == ClockDrift ==> Merge(r, ops, pt).0 == r
    ensures Restart(Merge(r, ops, pt).0) == Restart(r)
  {
  }
}
