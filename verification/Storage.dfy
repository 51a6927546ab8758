/** The in-memory storage adapter: nested maps behind one flat view. */
module Storage {
  import opened Texts
  import opened Hlcs
  import opened Clocks
  import opened Ops
  import opened Replicas
  import opened OpOrder

  datatype Option<T> = None | Some(value: T)

  /** table, then row, then column, to the winning operation. */
  type Columns = map<Text, Op>
  type Rows = map<Text, Columns>
  type Tables = map<Text, Rows>

  datatype DeviceKey = DeviceKey(publicKey: Key, privateKey: Key)

  // ---------- the flat view of nested maps ----------

  predicate Holds(tables: Tables, c: Cell) {
    c.table in tables && c.row in tables[c.table] && c.column in tables[c.table][c.row]
  }

  function Winner(tables: Tables, c: Cell): Op
    requires Holds(tables, c)
  {
    tables[c.table][c.row][c.column]
  }

  function Held(tables: Tables): set<Cell> {
    set t, r, k | t in tables && r in tables[t] && k in tables[t][r] :: Cell(t, r, k)
  }

  /** The winner of every cell. */
  function Flat(tables: Tables): (cells: map<Cell, Op>)
    ensures forall c :: c in cells <==> Holds(tables, c)
    ensures forall c <- cells :: cells[c] == Winner(tables, c)
  {
    map c | c in Held(tables) :: Winner(tables, c)
  }

  function RowsOf(tables: Tables, table: Text): Rows {
    if table in tables then tables[table] else map[]
  }

  function ColumnsOf(tables: Tables, row: Row): Columns {
    var rows := RowsOf(tables, row.table);
    if row.row in rows then rows[row.row] else map[]
  }

  /** No table and no row is kept without a cell. */
  ghost predicate Trimmed(tables: Tables) {
    && (forall t <- tables :: tables[t] != map[])
    && (forall t, r | t in tables && r in tables[t] :: tables[t][r] != map[])
  }

  function WithCell(tables: Tables, c: Cell, op: Op): Tables {
    tables[c.table := RowsOf(tables, c.table)[c.row := ColumnsOf(tables, RowOf(c))[c.column := op]]]
  }

  function WithoutCell(tables: Tables, c: Cell): Tables {
    var cells := ColumnsOf(tables, RowOf(c)) - {c.column};
    var rows := RowsOf(tables, c.table);
    var left := if cells == map[] then rows - {c.row} else rows[c.row := cells];
    if left == map[] then tables - {c.table} else tables[c.table := left]
  }

  lemma WithCellAt(tables: Tables, c: Cell, op: Op, x: Cell)
    ensures Holds(WithCell(tables, c, op), x) <==> x == c || Holds(tables, x)
    ensures Holds(WithCell(tables, c, op), x) ==>
              Winner(WithCell(tables, c, op), x) == if x == c then op else Winner(tables, x)
  {
    if x.table == c.table && x.row == c.row { assert x.column == c.column <==> x == c; }
  }

  lemma WithoutCellAt(tables: Tables, c: Cell, x: Cell)
    ensures Holds(WithoutCell(tables, c), x) <==> x != c && Holds(tables, x)
    ensures Holds(WithoutCell(tables, c), x) ==> Winner(WithoutCell(tables, c), x) == Winner(tables, x)
  {
    var cells, rows := ColumnsOf(tables, RowOf(c)) - {c.column}, RowsOf(tables, c.table);
    if x.table == c.table && Holds(tables, x) {
      if x.row == c.row {
        assert x != c ==> x.column in cells;
      } else {
        assert x.row in rows - {c.row} && x.row in rows[c.row := cells];
      }
    }
  }

  lemma WithCellTrimmed(tables: Tables, c: Cell, op: Op)
    requires Trimmed(tables)
    ensures Trimmed(WithCell(tables, c, op))
  {
    assert c.column in ColumnsOf(tables, RowOf(c))[c.column := op];
    assert c.row in WithCell(tables, c, op)[c.table];
  }

  lemma WithoutCellTrimmed(tables: Tables, c: Cell)
    requires Trimmed(tables)
    ensures Trimmed(WithoutCell(tables, c))
  {
  }

  lemma WithCellFlat(tables: Tables, c: Cell, op: Op)
    ensures Flat(WithCell(tables, c, op)) == Flat(tables)[c := op]
  {
    hide WithCell, Holds, Held;
    forall x { WithCellAt(tables, c, op, x); }
  }

  lemma WithoutCellFlat(tables: Tables, c: Cell)
    ensures Flat(WithoutCell(tables, c)) == Flat(tables) - {c}
  {
    hide WithoutCell, Holds, Held;
    forall x { WithoutCellAt(tables, c, x); }
  }

  lemma RowIsListed(tables: Tables, table: Text, row: Text)
    requires Trimmed(tables)
    ensures row in RowsOf(tables, table) <==> exists c <- Flat(tables) :: RowOf(c) == Row(table, row)
    ensures table in tables <==> exists c <- Flat(tables) :: c.table == table
  {
    if table in tables {
      var r :| r in tables[table];
      var k :| k in tables[table][r];
      assert Holds(tables, Cell(table, r, k));
    }
    if row in RowsOf(tables, table) {
      var k :| k in tables[table][row];
      assert Holds(tables, Cell(table, row, k));
      assert RowOf(Cell(table, row, k)) == Row(table, row);
    }
  }

  // ---------- the log ----------

  ghost predicate Keyed(log: map<Hlc, Op>) {
    forall id <- log :: log[id].hlc == id
  }

  function Contents(log: map<Hlc, Op>): set<Op> {
    set id | id in log :: log[id]
  }

  function PutOps(log: map<Hlc, Op>, ops: seq<Op>): map<Hlc, Op> {
    if ops == [] then log
    else PutOps(log, ops[..|ops| - 1])[ops[|ops| - 1].hlc := ops[|ops| - 1]]
  }

  lemma KeyedIsUnique(log: map<Hlc, Op>)
    requires Keyed(log)
    ensures UniqueIds(Contents(log))
    ensures forall h :: h in log <==> HasOp(Contents(log), h)
  {
    forall h | h in log ensures HasOp(Contents(log), h) {
      assert log[h] in Contents(log);
    }
  }

  lemma PutOne(log: map<Hlc, Op>, o: Op)
    requires Keyed(log) && UniqueIds(Contents(log) + {o})
    ensures Keyed(log[o.hlc := o]) && Contents(log[o.hlc := o]) == Contents(log) + {o}
  {
    if o.hlc in log {
      assert log[o.hlc] in Contents(log) && SameId(log[o.hlc], o);
      assert log[o.hlc := o] == log;
    } else {
      var after := log[o.hlc := o];
      forall p | p in Contents(log) + {o} ensures p in Contents(after) {
        assert p.hlc in after && after[p.hlc] == p;
      }
    }
  }

  /** Appending operations with distinct ids to the log. */
  lemma {:induction false} PutOpsContents(log: map<Hlc, Op>, ops: seq<Op>)
    requires Keyed(log) && UniqueIds(Contents(log) + OpSet(ops))
    ensures Keyed(PutOps(log, ops)) && Contents(PutOps(log, ops)) == Contents(log) + OpSet(ops)
  {
    if ops != [] {
      var init, last := ops[..|ops| - 1], ops[|ops| - 1];
      AppendLast(ops);
      OpSetAppend(init, last);
      assert Contents(log) + OpSet(ops) == Contents(log) + OpSet(init) + {last};
      PutOpsContents(log, init);
      PutOne(PutOps(log, init), last);
    }
  }

  lemma ContentsCount(log: map<Hlc, Op>)
    requires Keyed(log)
    ensures |Contents(log)| == |log|
  {
    KeyedCount(log, log.Keys);
  }

  lemma {:induction false} KeyedCount(log: map<Hlc, Op>, ids: set<Hlc>)
    requires Keyed(log) && ids <= log.Keys
    ensures |set id | id in ids :: log[id]| == |ids|
    decreases |ids|
  {
    var all := set id | id in ids :: log[id];
    if ids == {} {
      assert all == {};
    } else {
      var k :| k in ids;
      KeyedCount(log, ids - {k});
      var rest := set id | id in ids - {k} :: log[id];
      assert all == rest + {log[k]} && log[k] !in rest;
    }
  }

  // ---------- listing a set ----------

  /** Every member once. */
  ghost predicate Lists<T(!new)>(s: seq<T>, members: set<T>) {
    && (forall x :: x in s <==> x in members)
    && forall i, j | 0 <= i < j < |s| :: s[i] != s[j]
  }

  method Listed<T(!new)>(members: set<T>) returns (s: seq<T>)
    ensures Lists(s, members)
  {
    s := [];
    var todo := members;
    while todo != {}
      invariant todo <= members && Lists(s, members - todo)
      decreases |todo|
    {
      var x :| x in todo;
      s := s + [x];
      todo := todo - {x};
    }
  }

  // ---------- the adapter ----------

  class MemoryAdapter {
    var opsById: map<Hlc, Op>
    var tables: Tables
    var frontier: Frontier
    var clock: Option<Clock>
    var deviceKey: Option<DeviceKey>
    var peerFrontiers: map<Device, Frontier>

    ghost predicate Valid()
      reads this
    {
      Keyed(opsById) && Trimmed(tables)
    }

    function Log(): set<Op>
      reads this
    {
      Contents(opsById)
    }

    function Cells(): map<Cell, Op>
      reads this
    {
      Flat(tables)
    }

    constructor ()
      ensures Valid() && Log() == {} && Cells() == map[] && frontier == map[] && clock == None
      ensures deviceKey == None && peerFrontiers == map[]
    {
      opsById, tables, frontier, clock := map[], map[], map[], None;
      deviceKey, peerFrontiers := None, map[];
    }

    /** The winners of a row by column, if it has any cell. */
    method GetRow(row: Row) returns (columns: Option<Columns>)
      requires Valid()
      ensures columns.None? <==> forall c <- Cells() :: RowOf(c) != row
      ensures columns.Some? ==>
        && (forall k :: k in columns.value <==> Cell(row.table, row.row, k) in Cells())
        && (forall k <- columns.value :: columns.value[k] == Cells()[Cell(row.table, row.row, k)])
    {
      RowIsListed(tables, row.table, row.row);
      if row.table in tables && row.row in tables[row.table] {
        columns := Some(tables[row.table][row.row]);
      } else {
        columns := None;
      }
    }

    method ListRows(table: Text) returns (rows: seq<Text>)
      requires Valid()
      ensures Lists(rows, set c | c in Cells() && c.table == table :: c.row)
    {
      forall row ensures row in RowsOf(tables, table) <==> row in set c | c in Cells() && c.table == table :: c.row {
        RowIsListed(tables, table, row);
      }
      rows := Listed(RowsOf(tables, table).Keys);
    }

    method ListTables() returns (names: seq<Text>)
      requires Valid()
      ensures Lists(names, set c | c in Cells() :: c.table)
    {
      forall t ensures t in tables <==> t in set c | c in Cells() :: c.table {
        RowIsListed(tables, t, []);
      }
      names := Listed(tables.Keys);
    }

    method HasOp(id: Hlc) returns (found: bool)
      requires Valid()
      ensures found <==> Replicas.HasOp(Log(), id)
    {
      KeyedIsUnique(opsById);
      found := id in opsById;
    }

    method GetWinner(c: Cell) returns (winner: Option<Op>)
      ensures winner == if c in Cells() then Some(Cells()[c]) else None
    {
      if c.table in tables && c.row in tables[c.table] && c.column in tables[c.table][c.row] {
        winner := Some(tables[c.table][c.row][c.column]);
      } else {
        winner := None;
      }
    }

    /** The retained operations above a frontier, in order. */
    method OpsSince(have: Frontier) returns (out: seq<Op>)
      requires Valid()
      ensures out == OpOrder.OpsSince(Log(), have)
    {
      out := [];
      var todo := opsById.Keys;
      while todo != {}
        invariant todo <= opsById.Keys
        invariant forall o <- out :: o.hlc in opsById && o.hlc !in todo && opsById[o.hlc] == o && AboveFrontier(o, have)
        invariant forall id | id in opsById && id !in todo && AboveFrontier(opsById[id], have) :: opsById[id] in out
        invariant forall i, j | 0 <= i < j < |out| :: out[i].hlc != out[j].hlc
        decreases |todo|
      {
        var id :| id in todo;
        var op := opsById[id];
        if op.hlc.device !in have || Lt(have[op.hlc.device], op.hlc) { out := out + [op]; }
        todo := todo - {id};
      }
      KeyedIsUnique(opsById);
      assert OpSet(out) == Diff(Log(), have);
      assert UniqueIds(Diff(Log(), have));
      out := Sort(out);
      SortedIs(out, Diff(Log(), have));
    }

    method AllOps() returns (out: seq<Op>)
      requires Valid()
      ensures out == SortOps(Log())
    {
      assert Diff(Log(), map[]) == Log();
      out := OpsSince(map[]);
    }

    method OpCount() returns (n: nat)
      requires Valid()
      ensures n == |Log()|
    {
      ContentsCount(opsById);
      n := |opsById|;
    }

    method SetDeviceKey(key: DeviceKey)
      modifies this`deviceKey
      ensures deviceKey == Some(key)
    {
      deviceKey := Some(key);
    }

    method SetPeerFrontier(peer: Device, f: Frontier)
      modifies this`peerFrontiers
      ensures peerFrontiers == old(peerFrontiers)[peer := f]
    {
      peerFrontiers := peerFrontiers[peer := f];
    }

    /** Everything is built first and swapped in at once. */
    method ApplyBatch(ops: seq<Op>, winners: map<Cell, Op>, frontier: Frontier, clock: Clock)
      requires Valid() && UniqueIds(Log() + OpSet(ops))
      modifies this`opsById, this`tables, this`frontier, this`clock
      ensures Valid()
      ensures Log() == old(Log()) + OpSet(ops) && Cells() == old(Cells()) + winners
      ensures this.frontier == frontier && this.clock == Some(clock)
    {
      var newOps := opsById;
      for i := 0 to |ops|
        invariant newOps == PutOps(opsById, ops[..i])
      {
        assert ops[..i + 1] == ops[..i] + [ops[i]];
        newOps := newOps[ops[i].hlc := ops[i]];
      }
      assert ops[..|ops|] == ops;
      PutOpsContents(opsById, ops);
      var newTables := WriteCells(tables, winners);
      this.opsById, this.tables, this.frontier, this.clock := newOps, newTables, frontier, Some(clock);
    }

    /** Deletes operations and forgets cells. */
    method Compact(opIds: seq<Hlc>, cellKeys: seq<Cell>)
      requires Valid()
      modifies this`opsById, this`tables
      ensures Valid()
      ensures Log() == set o | o in old(Log()) && o.hlc !in opIds
      ensures Cells() == old(Cells()) - set c | c in cellKeys
    {
      var newOps := opsById;
      for i := 0 to |opIds|
        invariant Keyed(newOps) && newOps.Keys <= opsById.Keys
        invariant forall h <- opsById :: h in newOps <==> h !in opIds[..i]
        invariant forall h <- newOps :: newOps[h] == opsById[h]
      {
        assert opIds[..i + 1] == opIds[..i] + [opIds[i]];
        newOps := newOps - {opIds[i]};
      }
      assert opIds[..|opIds|] == opIds;
      var newTables := DropCells(tables, cellKeys);
      assert Contents(newOps) == set o | o in Contents(opsById) && o.hlc !in opIds;
      opsById, tables := newOps, newTables;
    }
  }

  lemma WriteStep(base: map<Cell, Op>, winners: map<Cell, Op>, todo: set<Cell>, c: Cell)
    requires c in todo && todo <= winners.Keys
    ensures base + (winners - (todo - {c})) == (base + (winners - todo))[c := winners[c]]
  {
  }

  method WriteCells(tables: Tables, winners: map<Cell, Op>) returns (after: Tables)
    ensures Flat(after) == Flat(tables) + winners
    ensures Trimmed(tables) ==> Trimmed(after)
  {
    hide Flat, WithCell, Trimmed;
    after := tables;
    var todo := winners.Keys;
    while todo != {}
      invariant todo <= winners.Keys
      invariant Flat(after) == Flat(tables) + (winners - todo)
      invariant Trimmed(tables) ==> Trimmed(after)
      decreases |todo|
    {
      var c :| c in todo;
      WithCellFlat(after, c, winners[c]);
      WriteStep(Flat(tables), winners, todo, c);
      if Trimmed(tables) { WithCellTrimmed(after, c, winners[c]); }
      after := WithCell(after, c, winners[c]);
      todo := todo - {c};
    }
    assert winners - todo == winners;
  }

  method DropCells(tables: Tables, keys: seq<Cell>) returns (after: Tables)
    ensures Flat(after) == Flat(tables) - set c | c in keys
    ensures Trimmed(tables) ==> Trimmed(after)
  {
    hide Flat, WithoutCell, Trimmed;
    after := tables;
    for i := 0 to |keys|
      invariant Flat(after) == Flat(tables) - set c | c in keys[..i]
      invariant Trimmed(tables) ==> Trimmed(after)
    {
      var c := keys[i];
      assert keys[..i + 1] == keys[..i] + [c];
      WithoutCellFlat(after, c);
      if Trimmed(tables) { WithoutCellTrimmed(after, c); }
      after := WithoutCell(after, c);
    }
    assert keys[..|keys|] == keys;
  }
}
