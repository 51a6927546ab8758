/** The browser adapter's cell store: composite text keys, and prefix ranges over them. */
module IndexedDb {
  import opened Texts
  import opened Ops
  import opened Storage

  const SEP: CodeUnit := 0
  const HIGH: CodeUnit := 0xffff

  /** table, separator, row, separator, column. */
  function CellKey(c: Cell): Text {
    c.table + [SEP] + c.row + [SEP] + c.column
  }

  /** The column of a row's key and the row of a table's key start after these. */
  function RowPrefix(table: Text, row: Text): Text {
    table + [SEP] + row + [SEP]
  }

  function TablePrefix(table: Text): Text {
    table + [SEP]
  }

  /** The key range from the prefix to the prefix and the highest code unit, both included. */
  predicate InRange(prefix: Text, key: Text) {
    AtMost(prefix, key) && AtMost(key, prefix + [HIGH])
  }

  /** The position of the first separator, or -1. */
  function FirstSep(s: Text): (i: int)
    ensures -1 <= i < |s|
    ensures i >= 0 ==> s[i] == SEP && SEP !in s[..i]
    ensures i == -1 <==> SEP !in s
  {
    if s == [] then -1
    else if s[0] == SEP then 0
    else
      var rest := FirstSep(s[1..]);
      assert s == [s[0]] + s[1..];
      if rest == -1 then -1
      else
        assert s[..rest + 1] == [s[0]] + s[1..][..rest];
        rest + 1
  }

  // ---------- ranges are prefixes ----------

  /** Below the highest code unit, a range holds exactly the texts with the prefix. */
  lemma {:induction false} RangeIsPrefix(prefix: Text, key: Text)
    requires HIGH !in key
    ensures InRange(prefix, key) <==> prefix <= key
  {
    if prefix == [] {
      assert prefix + [HIGH] == [HIGH];
    } else if key != [] {
      assert (prefix + [HIGH])[1..] == prefix[1..] + [HIGH];
      if prefix[0] == key[0] {
        RangeIsPrefix(prefix[1..], key[1..]);
        assert prefix == [prefix[0]] + prefix[1..] && key == [key[0]] + key[1..];
        assert prefix <= key <==> prefix[1..] <= key[1..];
        assert prefix + [HIGH] == [prefix[0]] + (prefix[1..] + [HIGH]);
      }
    }
  }

  /** Names and row ids hold no separator and nothing as high as the range's end. */
  lemma PlainNames(c: Cell)
    requires WellNamed(c)
    ensures SEP !in c.table && SEP !in c.row && SEP !in c.column
    ensures HIGH !in CellKey(c)
  {
  }

  // ---------- where a key can be split ----------

  lemma {:induction false} FirstSepAt(a: Text, x: Text)
    requires SEP !in a
    ensures FirstSep(a + [SEP] + x) == |a|
  {
    var s := a + [SEP] + x;
    if a == [] {
      assert s[0] == SEP;
    } else {
      assert s[0] == a[0] && s[1..] == a[1..] + [SEP] + x;
      FirstSepAt(a[1..], x);
    }
  }

  /** The first separator splits a text in one way only. */
  lemma SplitAtSep(a: Text, x: Text, b: Text, y: Text)
    requires SEP !in a && SEP !in b && a + [SEP] + x == b + [SEP] + y
    ensures a == b && x == y
  {
    FirstSepAt(a, x);
    FirstSepAt(b, y);
    var s, t := a + [SEP] + x, b + [SEP] + y;
    assert s[..|a|] == a && t[..|b|] == b;
    assert s[|a| + 1..] == x && t[|b| + 1..] == y;
  }

  function Seps(s: Text): nat {
    if s == [] then 0 else Seps(s[1..]) + if s[0] == SEP then 1 else 0
  }

  lemma {:induction false} SepsAppend(a: Text, b: Text)
    ensures Seps(a + b) == Seps(a) + Seps(b)
  {
    if a == [] {
      assert a + b == b;
    } else {
      assert (a + b)[1..] == a[1..] + b;
      SepsAppend(a[1..], b);
    }
  }

  lemma {:induction false} NoSeps(s: Text)
    ensures Seps(s) == 0 <==> SEP !in s
  {
    if s != [] {
      assert s == [s[0]] + s[1..];
      NoSeps(s[1..]);
    }
  }

  lemma SepsOfPair(a: Text, b: Text)
    ensures Seps(a + [SEP] + b) == Seps(a) + 1 + Seps(b)
  {
    SepsAppend(a + [SEP], b);
    SepsAppend(a, [SEP]);
    assert [SEP][1..] == [];
  }

  lemma PrefixRest(p: Text, s: Text)
    requires p <= s
    ensures s == p + s[|p|..]
  {
  }

  /** A text up to its first separator, and the rest. */
  lemma HeadAndRest(t: Text)
    requires SEP in t
    ensures var i := FirstSep(t); t == t[..i] + [SEP] + t[i + 1..] && SEP !in t[..i]
  {
  }

  /** A text and a separator start `a`, separator, `rest` when it is `a`, or when it goes past `a` and starts
      the rest. */
  lemma StartsKey(t: Text, a: Text, rest: Text)
    requires SEP !in a
    ensures t + [SEP] <= a + [SEP] + rest <==>
              t == a || exists u :: t == a + [SEP] + u && u + [SEP] <= rest
  {
    var key := a + [SEP] + rest;
    if t == a {
      assert key[..|t| + 1] == t + [SEP];
    }
    if t + [SEP] <= key && t != a {
      PrefixRest(t + [SEP], key);
      var x := key[|t| + 1..];
      if SEP !in t {
        SplitAtSep(t, x, a, rest);
      } else {
        HeadAndRest(t);
        var i := FirstSep(t);
        var u := t[i + 1..];
        assert key == t[..i] + [SEP] + (u + [SEP] + x);
        SplitAtSep(t[..i], u + [SEP] + x, a, rest);
        assert t == a + [SEP] + u && u + [SEP] <= rest;
      }
    }
    if u :| t == a + [SEP] + u && u + [SEP] <= rest {
      PrefixRest(u + [SEP], rest);
      assert key == t + [SEP] + rest[|u| + 1..];
    }
  }

  lemma KeyParts(c: Cell)
    ensures CellKey(c) == c.table + [SEP] + (c.row + [SEP] + c.column)
  {
  }

  lemma SepInside(u: Text, s: Text)
    ensures u + [SEP] <= s ==> SEP in s
  {
    if u + [SEP] <= s {
      assert s[|u|] == SEP;
    }
  }

  /** The range of a table holds the cells of the table and, when the name asked for is itself a table, a
      separator and a row, that row's. */
  lemma TableRange(c: Cell, t: Text)
    requires WellNamed(c)
    ensures InRange(TablePrefix(t), CellKey(c)) <==> t == c.table || t == c.table + [SEP] + c.row
  {
    PlainNames(c);
    KeyParts(c);
    RangeIsPrefix(TablePrefix(t), CellKey(c));
    StartsKey(t, c.table, c.row + [SEP] + c.column);
    forall u ensures u + [SEP] <= c.row + [SEP] + c.column <==> u == c.row {
      StartsKey(u, c.row, c.column);
      forall v { SepInside(v, c.column); }
    }
  }

  /** The range of a row holds the row's cells and no others, whatever is asked for. */
  lemma RowRange(c: Cell, table: Text, row: Text)
    requires WellNamed(c)
    ensures InRange(RowPrefix(table, row), CellKey(c)) <==> RowOf(c) == Row(table, row)
  {
    PlainNames(c);
    RangeIsPrefix(RowPrefix(table, row), CellKey(c));
    var t := table + [SEP] + row;
    assert RowPrefix(table, row) == TablePrefix(t);
    TableRange(c, t);
    assert t[|table|] == SEP;
    if t == c.table + [SEP] + c.row {
      SepsOfPair(table, row);
      SepsOfPair(c.table, c.row);
      NoSeps(c.table);
      NoSeps(c.row);
      NoSeps(table);
      SplitAtSep(table, row, c.table, c.row);
    }
  }

  /** Distinct cells have distinct keys. */
  lemma CellKeyInjective(c: Cell, d: Cell)
    requires WellNamed(c) && WellNamed(d) && CellKey(c) == CellKey(d)
    ensures c == d
  {
    PlainNames(c);
    PlainNames(d);
    KeyParts(c);
    KeyParts(d);
    SplitAtSep(c.table, c.row + [SEP] + c.column, d.table, d.row + [SEP] + d.column);
    SplitAtSep(c.row, c.column, d.row, d.column);
  }

  /** The parts of a key, as the scans cut them out. */
  lemma CutKey(c: Cell)
    requires WellNamed(c)
    ensures var key := CellKey(c);
      && key[..FirstSep(key)] == c.table
      && FirstSep(key) >= 0
      && (RowPrefix(c.table, c.row) <= key ==> key[|RowPrefix(c.table, c.row)|..] == c.column)
      && (TablePrefix(c.table) <= key ==>
            var rest := key[|TablePrefix(c.table)|..]; FirstSep(rest) >= 0 && rest[..FirstSep(rest)] == c.row)
  {
    PlainNames(c);
    KeyParts(c);
    var key := CellKey(c);
    var rest := c.row + [SEP] + c.column;
    assert key[|TablePrefix(c.table)|..] == rest;
    assert key[|c.table|] == SEP && rest[|c.row|] == SEP;
    HeadAndRest(key);
    SplitAtSep(key[..FirstSep(key)], key[FirstSep(key) + 1..], c.table, rest);
    HeadAndRest(rest);
    SplitAtSep(rest[..FirstSep(rest)], rest[FirstSep(rest) + 1..], c.row, c.column);
  }

  // ---------- what a table scan makes of a key ----------

  /** `s.slice(0, -1)`. */
  function Chop(s: Text): Text {
    if s == [] then [] else s[..|s| - 1]
  }

  /** `rest.slice(0, rest.indexOf(SEP))`: without a separator the index is -1. */
  function Cut(rest: Text): Text {
    if FirstSep(rest) >= 0 then rest[..FirstSep(rest)] else Chop(rest)
  }

  predicate Meets(c: Cell, table: Text) {
    table == c.table || table == c.table + [SEP] + c.row
  }

  function ListedAs(c: Cell, table: Text): Text {
    if table == c.table then c.row else Chop(c.column)
  }

  function RowNames(cells: map<Cell, Op>, table: Text): set<Text> {
    set c | c in cells && c.table == table :: c.row
  }

  function Strays(cells: map<Cell, Op>, table: Text): set<Text> {
    set c | c in cells && table == c.table + [SEP] + c.row :: Chop(c.column)
  }

  lemma CutRest(c: Cell, table: Text)
    requires WellNamed(c) && Meets(c, table)
    ensures TablePrefix(table) <= CellKey(c)
    ensures Cut(CellKey(c)[|TablePrefix(table)|..]) == ListedAs(c, table)
  {
    hide WellNamed;
    PlainNames(c);
    KeyParts(c);
    var key, rest := CellKey(c), c.row + [SEP] + c.column;
    if table == c.table {
      assert key == TablePrefix(table) + rest;
      assert key[|TablePrefix(table)|..] == rest && rest[|c.row|] == SEP;
      FirstSepAt(c.row, c.column);
      assert rest[..|c.row|] == c.row;
    } else {
      assert key == TablePrefix(table) + c.column;
      assert key[|TablePrefix(table)|..] == c.column;
    }
  }

  // ---------- the store ----------

  datatype CellRecord = CellRecord(key: Text, op: Op)

  /** The object store: every record is keyed by its operation's cell, and no cell is kept twice. */
  ghost predicate Stored(records: seq<CellRecord>) {
    && (forall r <- records :: WellNamed(r.op.cell) && r.key == CellKey(r.op.cell))
    && forall i, j | 0 <= i < j < |records| :: records[i].op.cell != records[j].op.cell
  }

  /** The cells a store holds. */
  ghost function CellsOf(records: seq<CellRecord>): map<Cell, Op>
    requires Stored(records)
  {
    map r | r in records :: r.op.cell := r.op
  }

  class IdbAdapter {
    var records: seq<CellRecord>

    ghost predicate Valid()
      reads this
    {
      Stored(records)
    }

    constructor ()
      ensures Valid() && CellsOf(records) == map[]
    {
      records := [];
    }

    /** The records of a key range; no bound when there is no prefix. */
    method RangeScan(prefix: Text) returns (out: seq<CellRecord>)
      ensures forall r :: r in out <==> r in records && (prefix == [] || InRange(prefix, r.key))
    {
      out := [];
      for i := 0 to |records|
        invariant forall r :: r in out <==> r in records[..i] && (prefix == [] || InRange(prefix, r.key))
      {
        assert records[..i + 1] == records[..i] + [records[i]];
        if prefix == [] || (AtMost(prefix, records[i].key) && AtMost(records[i].key, prefix + [HIGH])) {
          out := out + [records[i]];
        }
      }
      assert records[..|records|] == records;
    }

    /** The winners of a row by column, if it has any cell. */
    method GetRow(row: Row) returns (columns: Option<Columns>)
      requires Valid()
      ensures columns.None? <==> forall c <- CellsOf(records) :: RowOf(c) != row
      ensures columns.Some? ==>
        && (forall k :: k in columns.value <==> Cell(row.table, row.row, k) in CellsOf(records))
        && (forall k <- columns.value :: columns.value[k] == CellsOf(records)[Cell(row.table, row.row, k)])
    {
      hide InRange, WellNamed, CellKey;
      var prefix := RowPrefix(row.table, row.row);
      var entries := RangeScan(prefix);
      RowEntries(records, row, entries);
      if entries == [] {
        forall c <- CellsOf(records) ensures RowOf(c) != row {
          var r :| r in records && r.op.cell == c;
          assert r !in entries;
        }
        return None;
      }
      var found: Columns := map[];
      for i := 0 to |entries|
        invariant forall k :: k in found <==> exists j | 0 <= j < i :: entries[j].op.cell.column == k
        invariant forall k <- found :: exists j | 0 <= j < i ::
                    entries[j].op.cell.column == k && entries[j].op == found[k]
      {
        assert entries[i] in entries;
        found := found[entries[i].key[|prefix|..] := entries[i].op];
      }
      columns := Some(found);
      assert entries[0] in entries && entries[0].op.cell in CellsOf(records);
      RowFound(records, row, entries, found);
    }

    /** The rows of a table; for a text that is a table, a separator and a row, also what the cut makes of that
        row's columns, which is no row. */
    method ListRows(table: Text) returns (rows: set<Text>)
      requires Valid()
      ensures rows == RowNames(CellsOf(records), table) + Strays(CellsOf(records), table)
      ensures SEP !in table ==> rows == set c | c in CellsOf(records) && c.table == table :: c.row
    {
      hide InRange, WellNamed, CellKey, FirstSep;
      var prefix := TablePrefix(table);
      var entries := RangeScan(prefix);
      TableEntries(records, table, entries);
      rows := {};
      for i := 0 to |entries|
        invariant rows == set j | 0 <= j < i :: ListedAs(entries[j].op.cell, table)
      {
        assert entries[i] in entries;
        rows := rows + {Cut(entries[i].key[|prefix|..])};
      }
      RowsListed(records, table, entries);
      NoStrays(CellsOf(records), table);
    }

    method ListTables() returns (names: set<Text>)
      requires Valid()
      ensures names == set c | c in CellsOf(records) :: c.table
    {
      hide InRange, WellNamed, CellKey, CellsOf, FirstSep, Stored;
      var entries := RangeScan([]);
      KeysCut(records, entries);
      names := {};
      for i := 0 to |entries|
        invariant names == set j | 0 <= j < i :: entries[j].op.cell.table
      {
        assert entries[i] in entries;
        names := names + {entries[i].key[..FirstSep(entries[i].key)]};
      }
      TablesListed(records, entries);
    }

    /** Stores a winner under its cell's key. */
    method Put(op: Op)
      requires Valid() && WellNamed(op.cell)
      modifies this
      ensures Valid()
      ensures CellsOf(records) == old(CellsOf(records))[op.cell := op]
    {
      hide WellNamed, CellKey, CellsOf;
      var key := CellKey(op.cell);
      var kept: seq<CellRecord> := [];
      for i := 0 to |records|
        modifies {}
        invariant Stored(kept)
        invariant forall r :: r in kept <==> r in records[..i] && r.op.cell != op.cell
      {
        assert records[i] in records;
        assert records[..i + 1] == records[..i] + [records[i]];
        KeysDiffer(records[i].op.cell, op.cell);
        if records[i].key != key { kept := kept + [records[i]]; }
      }
      assert records[..|records|] == records;
      PutRecord(records, kept, op);
      records := kept + [CellRecord(key, op)];
    }
  }

  lemma RowsListed(records: seq<CellRecord>, table: Text, entries: seq<CellRecord>)
    requires Stored(records) && forall r :: r in entries <==> r in records && Meets(r.op.cell, table)
    ensures (set j | 0 <= j < |entries| :: ListedAs(entries[j].op.cell, table))
         == RowNames(CellsOf(records), table) + Strays(CellsOf(records), table)
  {
    hide WellNamed, CellKey;
    forall j | 0 <= j < |entries|
      ensures entries[j].op.cell in CellsOf(records) && Meets(entries[j].op.cell, table)
    {
      assert entries[j] in entries;
    }
    forall c | c in CellsOf(records) && Meets(c, table)
      ensures exists j | 0 <= j < |entries| :: entries[j].op.cell == c
      ensures c.table != c.table + [SEP] + c.row
    {
      var r :| r in records && r.op.cell == c;
      assert r in entries;
      assert |c.table + [SEP] + c.row| > |c.table|;
    }
  }

  lemma NoStrays(cells: map<Cell, Op>, table: Text)
    ensures SEP !in table ==> Strays(cells, table) == {}
  {
    forall c | c in cells && table == c.table + [SEP] + c.row ensures SEP in table {
      assert table[|c.table|] == SEP;
    }
  }

  lemma KeysCut(records: seq<CellRecord>, entries: seq<CellRecord>)
    requires Stored(records) && forall r <- entries :: r in records
    ensures forall r <- entries :: FirstSep(r.key) >= 0 && r.key[..FirstSep(r.key)] == r.op.cell.table
  {
    hide FirstSep, WellNamed;
    forall r <- entries ensures FirstSep(r.key) >= 0 && r.key[..FirstSep(r.key)] == r.op.cell.table {
      CutKey(r.op.cell);
    }
  }

  lemma TablesListed(records: seq<CellRecord>, entries: seq<CellRecord>)
    requires Stored(records) && forall r :: r in entries <==> r in records
    ensures (set j | 0 <= j < |entries| :: entries[j].op.cell.table) == set c | c in CellsOf(records) :: c.table
  {
    hide WellNamed, CellKey;
    forall j | 0 <= j < |entries| ensures entries[j].op.cell in CellsOf(records) {
      assert entries[j] in entries;
    }
    forall c | c in CellsOf(records) ensures exists j | 0 <= j < |entries| :: entries[j].op.cell == c {
      var r :| r in records && r.op.cell == c;
      assert r in entries;
    }
  }

  lemma PutRecord(records: seq<CellRecord>, kept: seq<CellRecord>, op: Op)
    requires Stored(records) && Stored(kept) && WellNamed(op.cell)
    requires forall r :: r in kept <==> r in records && r.op.cell != op.cell
    ensures var after := kept + [CellRecord(CellKey(op.cell), op)];
      Stored(after) && CellsOf(after) == CellsOf(records)[op.cell := op]
  {
    hide WellNamed, CellKey;
    var after := kept + [CellRecord(CellKey(op.cell), op)];
    forall i | 0 <= i < |kept| ensures kept[i].op.cell != op.cell {
      assert kept[i] in kept;
    }
    assert forall r :: r in after <==> r in kept || r == CellRecord(CellKey(op.cell), op);
    forall c | c in CellsOf(after) || c in CellsOf(records)[op.cell := op]
      ensures c in CellsOf(after) && c in CellsOf(records)[op.cell := op]
      ensures CellsOf(after)[c] == CellsOf(records)[op.cell := op][c]
    {
      if c != op.cell && c in CellsOf(records) {
        var r :| r in records && r.op.cell == c;
        assert r in kept && r in after;
      } else if c == op.cell {
        assert CellRecord(CellKey(op.cell), op) in after;
      }
    }
  }

  lemma KeysDiffer(c: Cell, d: Cell)
    requires WellNamed(c) && WellNamed(d)
    ensures CellKey(c) == CellKey(d) <==> c == d
  {
    if CellKey(c) == CellKey(d) { CellKeyInjective(c, d); }
  }

  lemma RowEntries(records: seq<CellRecord>, row: Row, entries: seq<CellRecord>)
    requires Stored(records)
    requires forall r :: r in entries <==> r in records && InRange(RowPrefix(row.table, row.row), r.key)
    ensures forall r :: r in entries <==> r in records && RowOf(r.op.cell) == row
    ensures forall r <- entries :: RowPrefix(row.table, row.row) <= r.key
    ensures forall r <- entries :: r.key[|RowPrefix(row.table, row.row)|..] == r.op.cell.column
  {
    hide InRange, WellNamed, FirstSep;
    forall r <- records
      ensures InRange(RowPrefix(row.table, row.row), r.key) <==> RowOf(r.op.cell) == row
      ensures RowOf(r.op.cell) == row ==> RowPrefix(row.table, row.row) <= r.key
      ensures RowOf(r.op.cell) == row ==> r.key[|RowPrefix(row.table, row.row)|..] == r.op.cell.column
    {
      RowRange(r.op.cell, row.table, row.row);
      CutKey(r.op.cell);
    }
  }

  lemma RowFound(records: seq<CellRecord>, row: Row, entries: seq<CellRecord>, found: Columns)
    requires Stored(records) && forall r :: r in entries <==> r in records && RowOf(r.op.cell) == row
    requires forall k :: k in found <==> exists j | 0 <= j < |entries| :: entries[j].op.cell.column == k
    requires forall k <- found :: exists j | 0 <= j < |entries| ::
               entries[j].op.cell.column == k && entries[j].op == found[k]
    ensures forall k :: k in found <==> Cell(row.table, row.row, k) in CellsOf(records)
    ensures forall k <- found :: found[k] == CellsOf(records)[Cell(row.table, row.row, k)]
  {
    hide WellNamed, CellKey;
    forall k | k in found
      ensures Cell(row.table, row.row, k) in CellsOf(records)
           && found[k] == CellsOf(records)[Cell(row.table, row.row, k)]
    {
      var j :| 0 <= j < |entries| && entries[j].op.cell.column == k && entries[j].op == found[k];
      assert entries[j] in entries && entries[j].op.cell == Cell(row.table, row.row, k);
    }
    forall k | Cell(row.table, row.row, k) in CellsOf(records) ensures k in found {
      var r :| r in records && r.op.cell == Cell(row.table, row.row, k);
      var j :| 0 <= j < |entries| && entries[j] == r;
    }
  }

  lemma TableEntries(records: seq<CellRecord>, table: Text, entries: seq<CellRecord>)
    requires Stored(records)
    requires forall r :: r in entries <==> r in records && InRange(TablePrefix(table), r.key)
    ensures forall r :: r in entries <==> r in records && Meets(r.op.cell, table)
    ensures forall r <- entries :: TablePrefix(table) <= r.key
    ensures forall r <- entries :: Cut(r.key[|TablePrefix(table)|..]) == ListedAs(r.op.cell, table)
  {
    hide InRange, WellNamed, FirstSep, Cut, ListedAs;
    forall r <- records
      ensures InRange(TablePrefix(table), r.key) <==> Meets(r.op.cell, table)
      ensures Meets(r.op.cell, table) ==>
                TablePrefix(table) <= r.key && Cut(r.key[|TablePrefix(table)|..]) == ListedAs(r.op.cell, table)
    {
      TableRange(r.op.cell, table);
      if Meets(r.op.cell, table) { CutRest(r.op.cell, table); }
    }
  }
}
