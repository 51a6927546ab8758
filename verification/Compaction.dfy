/** Which operations and cells may be reclaimed, and why nobody notices. */
module Compaction {
  import opened Hlcs
  import opened Json
  import opened Ops
  import opened Replicas

  // ---------- the rule ----------

  /** The timestamp has reached this replica and every recorded peer. */
  predicate Below(own: Frontier, peers: map<Device, Frontier>, h: Hlc) {
    Seen(own, h) && SeenByAll(peers, peers.Keys, h)
  }

  predicate SeenByAll(peers: map<Device, Frontier>, some: set<Device>, h: Hlc)
    requires some <= peers.Keys
  {
    forall p <- some :: Seen(peers[p], h)
  }

  /** The logged operations at or below the horizon. */
  function Absorbed(r: Replica): set<Op> {
    set o | o in r.log && Below(r.frontier, r.peers, o.hlc)
  }

  predicate IsWinner(cells: map<Cell, Op>, o: Op) {
    o.cell in cells && cells[o.cell] == o
  }

  /** A tombstoned row all of whose operations are below the horizon. */
  predicate Doomed(log: set<Op>, cells: map<Cell, Op>, absorbed: set<Op>, row: Row) {
    && Tombstoned(cells, row)
    && cells[TombstoneOf(row)] in absorbed
    && forall o <- log :: RowOf(o.cell) == row ==> o in absorbed
  }

  function Removed(log: set<Op>, cells: map<Cell, Op>, absorbed: set<Op>, gc: bool): set<Op> {
    set o | o in log &&
      ((gc && Doomed(log, cells, absorbed, RowOf(o.cell))) || (o in absorbed && !IsWinner(cells, o)))
  }

  function Forgotten(log: set<Op>, cells: map<Cell, Op>, absorbed: set<Op>, gc: bool): set<Cell> {
    set c | c in cells && gc && Doomed(log, cells, absorbed, RowOf(c))
  }

  /** Compaction of a replica; `gc` also reclaims tombstoned rows. */
  function Compact(r: Replica, gc: bool): Replica {
    var absorbed := Absorbed(r);
    r.(log := r.log - Removed(r.log, r.cells, absorbed, gc),
       cells := r.cells - Forgotten(r.log, r.cells, absorbed, gc))
  }

  // ---------- what compaction keeps ----------

  lemma CompactKeeps(r: Replica, gc: bool)
    ensures var q := Compact(r, gc);
      q.log <= r.log && q.frontier == r.frontier && q.clock == r.clock && q.saved == r.saved && q.peers == r.peers
  {
  }

  /** Winners stay unless their whole row goes, so the cells stay exact. */
  lemma CompactConsistent(r: Replica, gc: bool)
    requires Consistent(r)
    ensures Consistent(Compact(r, gc))
  {
    var q := Compact(r, gc);
    assert UniqueIds(q.log);
    forall o <- q.log ensures Covers(q.cells, o) {
      assert Covers(r.cells, o);
    }
    forall c <- q.cells ensures q.cells[c] in q.log && q.cells[c].cell == c {
      assert r.cells[c] in r.log && r.cells[c].cell == c;
    }
  }

  lemma VisibleAfter(r: Replica, gc: bool, row: Row)
    ensures Visible(Compact(r, gc).cells, row) <==> Visible(r.cells, row)
  {
    var q := Compact(r, gc);
    assert RowOf(TombstoneOf(row)) == row;
    if Visible(r.cells, row) {
      var c :| c in r.cells && RowOf(c) == row;
      assert c in q.cells;
    }
    if Visible(q.cells, row) {
      var c :| c in q.cells && RowOf(c) == row;
      assert c in r.cells && !(gc && Doomed(r.log, r.cells, Absorbed(r), row));
    }
  }

  /** Cells that differ only on invisible rows dump alike. */
  lemma DumpAlike(cells: map<Cell, Op>, others: map<Cell, Op>, open: Opener)
    requires forall row :: Visible(cells, row) <==> Visible(others, row)
    requires forall c | Visible(cells, RowOf(c)) ::
               (c in cells <==> c in others) && (c in cells ==> cells[c] == others[c])
    ensures Dump(cells, open) == Dump(others, open)
  {
    assert Dump(cells, open).rows == Dump(others, open).rows;
    assert Dump(cells, open).values == Dump(others, open).values;
  }

  /** The materialized state is the same after compaction. */
  lemma CompactInvisible(r: Replica, gc: bool, open: Opener)
    ensures forall row :: Visible(Compact(r, gc).cells, row) <==> Visible(r.cells, row)
    ensures Dump(Compact(r, gc).cells, open) == Dump(r.cells, open)
  {
    forall row ensures Visible(Compact(r, gc).cells, row) <==> Visible(r.cells, row) {
      VisibleAfter(r, gc, row);
    }
    DumpAlike(Compact(r, gc).cells, r.cells, open);
  }

  /** Right after a compaction there is nothing left to reclaim. */
  lemma CompactIdempotent(r: Replica, gc: bool)
    requires Consistent(r)
    ensures var q := Compact(r, gc);
      && Removed(q.log, q.cells, Absorbed(q), gc) == {}
      && Forgotten(q.log, q.cells, Absorbed(q), gc) == {}
      && Compact(q, gc) == q
  {
    var q := Compact(r, gc);
    CompactConsistent(r, gc);
    assert Absorbed(q) == Absorbed(r) * q.log;
    forall row ensures gc ==> !Doomed(q.log, q.cells, Absorbed(q), row) {
      if gc { NoneDoomedLeft(r, row); }
    }
    assert Removed(q.log, q.cells, Absorbed(q), gc) == {};
    assert Forgotten(q.log, q.cells, Absorbed(q), gc) == {};
    assert q.cells - {} == q.cells;
  }

  /** Every row that could be reclaimed was. */
  lemma NoneDoomedLeft(r: Replica, row: Row)
    requires Consistent(r)
    ensures var q := Compact(r, true); !Doomed(q.log, q.cells, Absorbed(q), row)
  {
    var q := Compact(r, true);
    if Doomed(q.log, q.cells, Absorbed(q), row) {
      forall o <- r.log | RowOf(o.cell) == row ensures o in Absorbed(r) {
        assert o in q.log || o in Absorbed(r);
      }
    }
  }

  /** The peer's frontier is behind in some entry. */
  predicate Lags(f: Frontier, own: Frontier) {
    exists d <- own :: d !in f || Lt(f[d], own[d])
  }

  lemma NotLagging(f: Frontier, own: Frontier, h: Hlc)
    requires !Lags(f, own) && Seen(own, h)
    ensures Seen(f, h)
  {
  }

  lemma AllAbsorbed(r: Replica)
    requires Consistent(r)
    requires forall p <- r.peers :: !Lags(r.peers[p], r.frontier)
    ensures Absorbed(r) == r.log
  {
    forall o <- r.log ensures Below(r.frontier, r.peers, o.hlc) {
      forall p <- r.peers ensures Seen(r.peers[p], o.hlc) {
        NotLagging(r.peers[p], r.frontier, o.hlc);
      }
    }
  }

  lemma OneOpPerCell(log: set<Op>, cells: map<Cell, Op>)
    requires ExactCells(log, cells) && forall o <- log :: IsWinner(cells, o)
    ensures |log| == |cells|
  {
    assert log == set c | c in cells.Keys :: cells[c];
    CellsInjective(cells, cells.Keys);
  }

  /** When no peer lags and tombstones may be reclaimed, no deleted row is left. */
  lemma CompactReclaims(r: Replica, row: Row)
    requires Consistent(r)
    requires forall p <- r.peers :: !Lags(r.peers[p], r.frontier)
    ensures !Tombstoned(Compact(r, true).cells, row)
    ensures Tombstoned(r.cells, row) ==> forall c <- Compact(r, true).cells :: RowOf(c) != row
  {
    AllAbsorbed(r);
    if Tombstoned(r.cells, row) {
      assert Doomed(r.log, r.cells, Absorbed(r), row);
    }
  }

  /** When no peer lags, exactly one operation per remaining cell is left. */
  lemma CompactMinimal(r: Replica, gc: bool)
    requires Consistent(r)
    requires forall p <- r.peers :: !Lags(r.peers[p], r.frontier)
    ensures forall o <- Compact(r, gc).log :: IsWinner(Compact(r, gc).cells, o)
    ensures |Compact(r, gc).log| == |Compact(r, gc).cells|
  {
    var q := Compact(r, gc);
    CompactConsistent(r, gc);
    AllAbsorbed(r);
    forall o <- q.log ensures IsWinner(q.cells, o) {
      assert IsWinner(r.cells, o);
    }
    OneOpPerCell(q.log, q.cells);
  }

  lemma {:induction false} CellsInjective(cells: map<Cell, Op>, keys: set<Cell>)
    requires keys <= cells.Keys && forall c <- cells :: cells[c].cell == c
    ensures |set c | c in keys :: cells[c]| == |keys|
    decreases |keys|
  {
    var all := set c | c in keys :: cells[c];
    if keys == {} {
      assert all == {};
    } else {
      var k :| k in keys;
      CellsInjective(cells, keys - {k});
      var rest := set c | c in keys - {k} :: cells[c];
      assert all == rest + {cells[k]};
      assert cells[k] !in rest;
    }
  }

  // ---------- the horizon, computed ----------

  /** A horizon entry: the empty text is below every timestamp. */
  datatype Mark = Zero | At(hlc: Hlc)

  predicate BelowMark(horizon: map<Device, Mark>, h: Hlc) {
    h.device in horizon && horizon[h.device].At? && Leq(h, horizon[h.device].hlc)
  }

  function MarkOf(f: Frontier, d: Device): Mark {
    if d in f then At(f[d]) else Zero
  }

  predicate MarkLess(m: Mark, n: Mark) {
    n.At? && (m.At? ==> Lt(m.hlc, n.hlc))
  }

  function MinMark(m: Mark, n: Mark): Mark {
    if MarkLess(n, m) then n else m
  }

  method LowerBy(horizon: map<Device, Mark>, f: Frontier) returns (lowered: map<Device, Mark>)
    ensures lowered.Keys == horizon.Keys
    ensures forall d <- horizon :: lowered[d] == MinMark(horizon[d], MarkOf(f, d))
  {
    lowered := horizon;
    var todo := horizon.Keys;
    while todo != {}
      invariant todo <= horizon.Keys == lowered.Keys
      invariant forall d <- horizon ::
                  lowered[d] == if d in todo then horizon[d] else MinMark(horizon[d], MarkOf(f, d))
      decreases |todo|
    {
      var device :| device in todo;
      var seen := MarkOf(f, device);
      if MarkLess(seen, lowered[device]) {
        lowered := lowered[device := seen];
      }
      todo := todo - {device};
    }
  }

  lemma LoweredMeaning(horizon: map<Device, Mark>, f: Frontier, lowered: map<Device, Mark>)
    requires lowered.Keys == horizon.Keys
    requires forall d <- horizon :: lowered[d] == MinMark(horizon[d], MarkOf(f, d))
    ensures forall h :: BelowMark(lowered, h) <==> BelowMark(horizon, h) && Seen(f, h)
  {
  }

  lemma SeenByOneMore(peers: map<Device, Frontier>, todo: set<Device>, peer: Device, h: Hlc)
    requires todo <= peers.Keys && peer in todo
    ensures SeenByAll(peers, peers.Keys - (todo - {peer}), h) <==>
            SeenByAll(peers, peers.Keys - todo, h) && Seen(peers[peer], h)
  {
    assert peers.Keys - (todo - {peer}) == (peers.Keys - todo) + {peer};
  }

  /** The minimum of all frontiers: what is below it has reached everyone. */
  method CompactionHorizon(own: Frontier, peers: map<Device, Frontier>) returns (horizon: map<Device, Mark>)
    ensures horizon.Keys == own.Keys
    ensures forall h :: BelowMark(horizon, h) <==> Below(own, peers, h)
  {
    horizon := map d | d in own :: At(own[d]);
    var todo := peers.Keys;
    while todo != {}
      invariant todo <= peers.Keys && horizon.Keys == own.Keys
      invariant forall h :: BelowMark(horizon, h) <==> Seen(own, h) && SeenByAll(peers, peers.Keys - todo, h)
      decreases |todo|
    {
      var peer :| peer in todo;
      ghost var before := horizon;
      horizon := LowerBy(horizon, peers[peer]);
      LoweredMeaning(before, peers[peer], horizon);
      forall h { SeenByOneMore(peers, todo, peer, h); }
      todo := todo - {peer};
    }
    assert peers.Keys - todo == peers.Keys;
  }

  ghost predicate AscendingDevices(ds: seq<Device>) {
    forall i, j | 0 <= i < j < |ds| :: ds[i] < ds[j]
  }

  /** The peers that hold the horizon back, sorted. */
  method BlockingPeers(own: Frontier, peers: map<Device, Frontier>) returns (blockers: seq<Device>)
    ensures AscendingDevices(blockers) && forall p :: p in blockers <==> p in peers && Lags(peers[p], own)
    ensures WellKeyed(own) ==> (blockers == [] <==> forall h | Seen(own, h) :: Below(own, peers, h))
  {
    hide Lags, Below;
    var lagging := LaggingPeers(own, peers);
    blockers := [];
    var todo := lagging;
    while todo != {}
      invariant todo <= lagging && AscendingDevices(blockers)
      invariant forall p :: p in blockers <==> p in lagging - todo
      decreases |todo|
    {
      var peer :| peer in todo;
      blockers := InsertDevice(blockers, peer);
      todo := todo - {peer};
    }
    assert lagging - todo == lagging;
    SameEmptiness(blockers, lagging);
  }

  lemma SameEmptiness(ds: seq<Device>, some: set<Device>)
    requires forall d :: d in ds <==> d in some
    ensures ds == [] <==> some == {}
  {
    if ds != [] { assert ds[0] in ds; }
  }

  method InsertDevice(ds: seq<Device>, d: Device) returns (more: seq<Device>)
    requires AscendingDevices(ds) && d !in ds
    ensures AscendingDevices(more) && forall e :: e in more <==> e in ds || e == d
  {
    var k := 0;
    while k < |ds| && ds[k] < d
      invariant k <= |ds| && forall i | 0 <= i < k :: ds[i] < d
    {
      k := k + 1;
    }
    more := ds[..k] + [d] + ds[k..];
    assert ds == ds[..k] + ds[k..];
    assert k < |ds| ==> ds[k] in ds;
  }

  method LaggingPeers(own: Frontier, peers: map<Device, Frontier>) returns (blockers: set<Device>)
    ensures forall p :: p in blockers <==> p in peers && Lags(peers[p], own)
    ensures WellKeyed(own) ==> (blockers == {} <==> forall h | Seen(own, h) :: Below(own, peers, h))
  {
    blockers := {};
    var todo := peers.Keys;
    while todo != {}
      invariant todo <= peers.Keys
      invariant forall p :: p in blockers <==> p in peers.Keys - todo && Lags(peers[p], own)
      decreases |todo|
    {
      var peer :| peer in todo;
      var lagging := false;
      var devices := own.Keys;
      while devices != {}
        invariant devices <= own.Keys
        invariant lagging <==> exists d <- own.Keys - devices :: d !in peers[peer] || Lt(peers[peer][d], own[d])
        decreases |devices|
      {
        var device :| device in devices;
        lagging := lagging || MarkLess(MarkOf(peers[peer], device), At(own[device]));
        devices := devices - {device};
      }
      assert own.Keys - devices == own.Keys;
      if lagging { blockers := blockers + {peer}; }
      todo := todo - {peer};
    }
    UnblockedMeaning(own, peers, blockers);
  }

  lemma UnblockedMeaning(own: Frontier, peers: map<Device, Frontier>, blockers: set<Device>)
    requires forall p :: p in blockers <==> p in peers && Lags(peers[p], own)
    ensures WellKeyed(own) ==> (blockers == {} <==> forall h | Seen(own, h) :: Below(own, peers, h))
  {
    if blockers == {} {
      forall h | Seen(own, h) ensures Below(own, peers, h) {
        forall p <- peers ensures Seen(peers[p], h) {
          assert p !in blockers;
          NotLagging(peers[p], own, h);
        }
      }
    } else {
      var p :| p in blockers;
      var d :| d in own && (d !in peers[p] || Lt(peers[p][d], own[d]));
      assert WellKeyed(own) ==> Seen(own, own[d]) && !Seen(peers[p], own[d]);
    }
  }

  // ---------- the plan, computed ----------

  datatype Stats = Stats(
    scanned: nat, removed: nat, rowsReclaimed: nat, retainedWinners: nat, retainedAboveHorizon: nat)

  /** The operations of a snapshot at or below a computed horizon. */
  function AbsorbedBy(horizon: map<Device, Mark>, log: set<Op>): set<Op> {
    set o | o in log && BelowMark(horizon, o.hlc)
  }

  method WinnerIds(winners: map<Cell, Op>) returns (ids: set<Hlc>)
    ensures forall h :: h in ids <==> exists c <- winners :: winners[c].hlc == h
  {
    ids := {};
    var todo := winners.Keys;
    while todo != {}
      invariant todo <= winners.Keys
      invariant forall h :: h in ids <==> exists c <- winners.Keys - todo :: winners[c].hlc == h
      decreases |todo|
    {
      var cell :| cell in todo;
      ids := ids + {winners[cell].hlc};
      todo := todo - {cell};
    }
    assert winners.Keys - todo == winners.Keys;
  }

  method DoomedRows(ops: seq<Op>, winners: map<Cell, Op>, horizon: map<Device, Mark>) returns (doomed: set<Row>)
    requires ExactCells(OpSet(ops), winners)
    ensures forall row :: row in doomed <==> Doomed(OpSet(ops), winners, AbsorbedBy(horizon, OpSet(ops)), row)
  {
    var candidates: set<Row> := {};
    var todo := winners.Keys;
    while todo != {}
      invariant todo <= winners.Keys
      invariant forall row :: row in candidates <==>
                  TombstoneOf(row) in winners.Keys - todo && Tombstoned(winners, row)
                  && BelowMark(horizon, winners[TombstoneOf(row)].hlc)
      decreases |todo|
    {
      var cell :| cell in todo;
      var winner := winners[cell];
      if winner.cell.column == TOMBSTONE && winner.value == Bool(true) && BelowMark(horizon, winner.hlc) {
        candidates := candidates + {RowOf(cell)};
        assert TombstoneOf(RowOf(cell)) == cell;
      }
      todo := todo - {cell};
    }
    var blocked: set<Row> := {};
    for i := 0 to |ops|
      invariant forall row :: row in blocked <==>
                  exists k | 0 <= k < i :: RowOf(ops[k].cell) == row && !BelowMark(horizon, ops[k].hlc)
    {
      if !BelowMark(horizon, ops[i].hlc) {
        blocked := blocked + {RowOf(ops[i].cell)};
      }
    }
    doomed := candidates - blocked;
    DoomedMeaning(ops, winners, horizon, candidates, blocked);
  }

  lemma DoomedMeaning(
    ops: seq<Op>, winners: map<Cell, Op>, horizon: map<Device, Mark>, candidates: set<Row>, blocked: set<Row>)
    requires ExactCells(OpSet(ops), winners)
    requires forall row :: row in candidates <==>
               Tombstoned(winners, row) && BelowMark(horizon, winners[TombstoneOf(row)].hlc)
    requires forall row :: row in blocked <==>
               exists k | 0 <= k < |ops| :: RowOf(ops[k].cell) == row && !BelowMark(horizon, ops[k].hlc)
    ensures forall row :: row in candidates - blocked <==>
              Doomed(OpSet(ops), winners, AbsorbedBy(horizon, OpSet(ops)), row)
  {
    var log := OpSet(ops);
    forall row ensures row in blocked <==> exists o <- log :: RowOf(o.cell) == row && o !in AbsorbedBy(horizon, log) {
      if row in blocked {
        var k :| 0 <= k < |ops| && RowOf(ops[k].cell) == row && !BelowMark(horizon, ops[k].hlc);
        assert ops[k] in log;
      }
    }
  }

  /** Distinct operations. */
  ghost predicate Distinct(ops: seq<Op>) {
    forall i, j | 0 <= i < j < |ops| :: ops[i] != ops[j]
  }

  lemma PrefixSets(ops: seq<Op>, i: nat)
    requires i < |ops| && Distinct(ops)
    ensures OpSet(ops[..i + 1]) == OpSet(ops[..i]) + {ops[i]} && ops[i] !in OpSet(ops[..i])
    ensures ops[i] in OpSet(ops)
  {
    assert ops[..i + 1] == ops[..i] + [ops[i]];
    OpSetAppend(ops[..i], ops[i]);
  }

  /** What becomes of an operation. */
  datatype Fate = Gone | Kept | Waiting

  function FateOf(log: set<Op>, cells: map<Cell, Op>, absorbed: set<Op>, gc: bool, o: Op): Fate {
    if gc && Doomed(log, cells, absorbed, RowOf(o.cell)) then Gone
    else if o !in absorbed then Waiting
    else if IsWinner(cells, o) then Kept
    else Gone
  }

  function Fates(log: set<Op>, cells: map<Cell, Op>, absorbed: set<Op>, gc: bool): map<Op, Fate> {
    map o | o in log :: FateOf(log, cells, absorbed, gc, o)
  }

  function WithFate(fates: map<Op, Fate>, some: set<Op>, f: Fate): set<Op> {
    set o | o in some && o in fates && fates[o] == f
  }

  function Ids(ops: set<Op>): set<Hlc> {
    set o | o in ops :: o.hlc
  }

  function IdSet(ids: seq<Hlc>): set<Hlc> {
    set h | h in ids
  }

  lemma WinnerById(log: set<Op>, winners: map<Cell, Op>, ids: set<Hlc>, o: Op)
    requires UniqueIds(log) && ExactCells(log, winners) && o in log
    requires forall h :: h in ids <==> exists c <- winners :: winners[c].hlc == h
    ensures o.hlc in ids <==> IsWinner(winners, o)
  {
    if o.hlc in ids {
      var c :| c in winners && winners[c].hlc == o.hlc;
      assert SameId(winners[c], o);
    }
  }

  /** What the counters say about the operations passed so far. */
  ghost predicate Tally(opIds: seq<Hlc>, winners: nat, waiting: nat, fates: map<Op, Fate>, passed: set<Op>) {
    && IdSet(opIds) == Ids(WithFate(fates, passed, Gone))
    && |opIds| == |WithFate(fates, passed, Gone)|
    && winners == |WithFate(fates, passed, Kept)|
    && waiting == |WithFate(fates, passed, Waiting)|
    && |opIds| + winners + waiting == |passed|
  }

  lemma CountStep(fates: map<Op, Fate>, f: Fate, before: set<Op>, op: Op, after: set<Op>)
    requires after == before + {op} && op !in before && op in fates
    ensures |WithFate(fates, after, f)| == |WithFate(fates, before, f)| + if fates[op] == f then 1 else 0
    ensures WithFate(fates, after, f)
         == if fates[op] == f then WithFate(fates, before, f) + {op} else WithFate(fates, before, f)
  {
    var was := WithFate(fates, before, f);
    assert WithFate(fates, after, f) == if fates[op] == f then was + {op} else was;
  }

  lemma TallyStep(
    opIds: seq<Hlc>, winners: nat, waiting: nat, fates: map<Op, Fate>, passed: set<Op>, op: Op, after: set<Op>)
    requires Tally(opIds, winners, waiting, fates, passed)
    requires after == passed + {op} && op !in passed && op in fates
    ensures Tally(
              if fates[op] == Gone then opIds + [op.hlc] else opIds,
              if fates[op] == Kept then winners + 1 else winners,
              if fates[op] == Waiting then waiting + 1 else waiting,
              fates, after)
  {
    CountStep(fates, Gone, passed, op, after);
    CountStep(fates, Kept, passed, op, after);
    CountStep(fates, Waiting, passed, op, after);
    IdsAppend(opIds, WithFate(fates, passed, Gone), op);
  }

  lemma IdsAppend(opIds: seq<Hlc>, was: set<Op>, op: Op)
    requires IdSet(opIds) == Ids(was)
    ensures IdSet(opIds + [op.hlc]) == Ids(was + {op})
  {
    assert Ids(was + {op}) == Ids(was) + {op.hlc};
    assert IdSet(opIds + [op.hlc]) == IdSet(opIds) + {op.hlc};
  }

  method PlanRemovals(
    ops: seq<Op>, winnerIds: set<Hlc>, doomed: set<Row>, horizon: map<Device, Mark>,
    ghost fates: map<Op, Fate>, ghost sweep: set<Cell>)
    returns (opIds: seq<Hlc>, cellKeys: set<Cell>, retainedWinners: nat, retainedAbove: nat)
    requires Distinct(ops) && fates.Keys == OpSet(ops)
    requires forall o <- fates :: fates[o] ==
               if RowOf(o.cell) in doomed then Gone
               else if !BelowMark(horizon, o.hlc) then Waiting
               else if o.hlc in winnerIds then Kept
               else Gone
    requires forall o <- fates :: RowOf(o.cell) in doomed ==> o.cell in sweep
    ensures Tally(opIds, retainedWinners, retainedAbove, fates, OpSet(ops))
    ensures cellKeys <= sweep
  {
    opIds, cellKeys, retainedWinners, retainedAbove := [], {}, 0, 0;
    for i := 0 to |ops|
      invariant Tally(opIds, retainedWinners, retainedAbove, fates, OpSet(ops[..i]))
      invariant cellKeys <= sweep
    {
      var op := ops[i];
      PrefixSets(ops, i);
      TallyStep(opIds, retainedWinners, retainedAbove, fates, OpSet(ops[..i]), op, OpSet(ops[..i + 1]));
      if RowOf(op.cell) in doomed {
        assert fates[op] == Gone;
        opIds := opIds + [op.hlc];
        cellKeys := cellKeys + {op.cell};
      } else if !BelowMark(horizon, op.hlc) {
        assert fates[op] == Waiting;
        retainedAbove := retainedAbove + 1;
      } else if op.hlc !in winnerIds {
        assert fates[op] == Gone;
        opIds := opIds + [op.hlc];
      } else {
        assert fates[op] == Kept;
        retainedWinners := retainedWinners + 1;
      }
    }
    assert ops[..|ops|] == ops;
  }

  /** Every cell of a doomed row. */
  method SweepCells(winners: map<Cell, Op>, doomed: set<Row>, found: set<Cell>) returns (cellKeys: set<Cell>)
    requires forall c :: c in found ==> c in winners && RowOf(c) in doomed
    ensures forall c :: c in cellKeys <==> c in winners && RowOf(c) in doomed
  {
    cellKeys := found;
    var todo := winners.Keys;
    while todo != {}
      invariant todo <= winners.Keys
      invariant forall c :: c in cellKeys ==> c in winners && RowOf(c) in doomed
      invariant forall c | c in winners.Keys - todo && RowOf(c) in doomed :: c in cellKeys
      decreases |todo|
    {
      var cell :| cell in todo;
      if RowOf(cell) in doomed { cellKeys := cellKeys + {cell}; }
      todo := todo - {cell};
    }
  }

  lemma FatesByTests(
    log: set<Op>, winners: map<Cell, Op>, horizon: map<Device, Mark>, gc: bool, winnerIds: set<Hlc>, doomed: set<Row>)
    requires UniqueIds(log) && ExactCells(log, winners)
    requires forall h :: h in winnerIds <==> exists c <- winners :: winners[c].hlc == h
    requires forall row :: row in doomed <==> gc && Doomed(log, winners, AbsorbedBy(horizon, log), row)
    ensures forall o <- log :: FateOf(log, winners, AbsorbedBy(horizon, log), gc, o) ==
              if RowOf(o.cell) in doomed then Gone
              else if !BelowMark(horizon, o.hlc) then Waiting
              else if o.hlc in winnerIds then Kept
              else Gone
    ensures forall o <- log :: o.cell in winners
  {
    forall o <- log ensures (o.hlc in winnerIds <==> IsWinner(winners, o)) && o.cell in winners {
      assert Covers(winners, o);
      WinnerById(log, winners, winnerIds, o);
    }
  }

  lemma RemovedByFate(log: set<Op>, cells: map<Cell, Op>, absorbed: set<Op>, gc: bool)
    ensures WithFate(Fates(log, cells, absorbed, gc), log, Gone) == Removed(log, cells, absorbed, gc)
  {
  }

  /** A plan says which ids to delete, which cells to forget, and counts everything once: removed,
      retained as a winner, or retained above the horizon. */
  ghost predicate IsPlan(
    log: set<Op>, cells: map<Cell, Op>, absorbed: set<Op>, gc: bool,
    opIds: seq<Hlc>, cellKeys: set<Cell>, stats: Stats)
  {
    && IdSet(opIds) == Ids(Removed(log, cells, absorbed, gc))
    && cellKeys == Forgotten(log, cells, absorbed, gc)
    && stats.rowsReclaimed == |set c | c in Forgotten(log, cells, absorbed, gc) :: RowOf(c)|
    && stats.removed == |opIds| == |Removed(log, cells, absorbed, gc)|
    && stats.retainedWinners == |WithFate(Fates(log, cells, absorbed, gc), log, Kept)|
    && stats.retainedAboveHorizon == |WithFate(Fates(log, cells, absorbed, gc), log, Waiting)|
    && stats.scanned == stats.removed + stats.retainedWinners + stats.retainedAboveHorizon == |log|
  }

  /** What a compaction reports of itself. */
  ghost function PlanStats(r: Replica, gc: bool): Stats {
    var absorbed := Absorbed(r);
    var fates := Fates(r.log, r.cells, absorbed, gc);
    Stats(|r.log|, |Removed(r.log, r.cells, absorbed, gc)|,
          |set c | c in Forgotten(r.log, r.cells, absorbed, gc) :: RowOf(c)|,
          |WithFate(fates, r.log, Kept)|, |WithFate(fates, r.log, Waiting)|)
  }

  lemma TallyIsPlan(
    ops: seq<Op>, cells: map<Cell, Op>, absorbed: set<Op>, gc: bool, doomed: set<Row>,
    opIds: seq<Hlc>, cellKeys: set<Cell>, winners: nat, waiting: nat)
    requires Distinct(ops)
    requires Tally(opIds, winners, waiting, Fates(OpSet(ops), cells, absorbed, gc), OpSet(ops))
    requires cellKeys == Forgotten(OpSet(ops), cells, absorbed, gc)
    requires forall row :: row in doomed <==> gc && Doomed(OpSet(ops), cells, absorbed, row)
    ensures IsPlan(OpSet(ops), cells, absorbed, gc, opIds, cellKeys,
                   Stats(|ops|, |opIds|, |doomed|, winners, waiting))
  {
    RemovedByFate(OpSet(ops), cells, absorbed, gc);
    DistinctCount(ops);
    assert forall row :: RowOf(TombstoneOf(row)) == row;
    assert doomed == set c | c in cellKeys :: RowOf(c);
  }

  /** The plan for a snapshot. */
  method PlanCompaction(ops: seq<Op>, winners: map<Cell, Op>, horizon: map<Device, Mark>, includeTombstones: bool)
    returns (opIds: seq<Hlc>, cellKeys: set<Cell>, stats: Stats)
    requires Distinct(ops) && UniqueIds(OpSet(ops)) && ExactCells(OpSet(ops), winners)
    ensures IsPlan(OpSet(ops), winners, AbsorbedBy(horizon, OpSet(ops)), includeTombstones, opIds, cellKeys, stats)
  {
    hide Doomed, FateOf, Tally, IsPlan;
    var winnerIds := WinnerIds(winners);
    var doomed: set<Row> := {};
    if includeTombstones {
      doomed := DoomedRows(ops, winners, horizon);
    }
    ghost var log := OpSet(ops);
    ghost var absorbed := AbsorbedBy(horizon, log);
    FatesByTests(log, winners, horizon, includeTombstones, winnerIds, doomed);
    var found, retainedWinners, retainedAbove;
    opIds, found, retainedWinners, retainedAbove :=
      PlanRemovals(ops, winnerIds, doomed, horizon, Fates(log, winners, absorbed, includeTombstones),
                   set c | c in winners && RowOf(c) in doomed);
    cellKeys := SweepCells(winners, doomed, found);
    assert cellKeys == Forgotten(log, winners, absorbed, includeTombstones);
    TallyIsPlan(ops, winners, absorbed, includeTombstones, doomed, opIds, cellKeys, retainedWinners, retainedAbove);
    stats := Stats(|ops|, |opIds|, |doomed|, retainedWinners, retainedAbove);
  }

  lemma {:induction false} DistinctCount(ops: seq<Op>)
    requires Distinct(ops)
    ensures |OpSet(ops)| == |ops|
  {
    if ops != [] {
      var n := |ops| - 1;
      DistinctCount(ops[..n]);
      PrefixSets(ops, n);
      assert ops[..n + 1] == ops;
    }
  }
}
