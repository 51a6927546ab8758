/** A replica reads back what it wrote, encrypted or not. */
module ReadBack {
  import opened Texts
  import opened Hlcs
  import opened Json
  import opened Ops
  import opened Replicas
  import opened Histories
  import opened Storage
  import opened Engine

  /** What was encrypted under an operation's id carries the mark and decrypts under that id to what it was. */
  ghost predicate Faithful(cipher: Cipher) {
    forall v: Json, h: Hlc :: ENVELOPE <= cipher.encrypt(v, h) && cipher.decrypt(cipher.encrypt(v, h), h) == v
  }

  /** Reading undoes writing, mark or no mark in the value itself. */
  lemma SealOpens(crypto: Crypto, cipher: Option<Cipher>, key: Key, v: Json, h: Hlc)
    requires cipher.Some? ==> Faithful(cipher.value)
    ensures OpenerOf(cipher)(AuthorOf(crypto, cipher, key).seal(v, h), h) == v
  {
    if cipher.Some? {
      assert ENVELOPE <= cipher.value.encrypt(v, h);
    }
  }

  predicate DistinctCells(drafts: seq<Draft>) {
    forall i, j | 0 <= i < j < |drafts| :: drafts[i].cell != drafts[j].cell
  }

  lemma OneOpPerCell(ops: seq<Op>, drafts: seq<Draft>, author: Author, i: nat)
    requires Histories.Carries(ops, drafts, author) && DistinctCells(drafts) && i < |ops|
    ensures forall p | p in ops && p.cell == ops[i].cell :: p == ops[i]
  {
    forall p | p in ops && p.cell == ops[i].cell ensures p == ops[i] {
      var j :| 0 <= j < |ops| && ops[j] == p;
      assert drafts[i].cell == drafts[j].cell;
    }
  }

  /** After a write a reader finds, in every column written and in a row that shows, the very value given. */
  lemma ReadYourWrites(
    issued: set<Op>, d: Device, r: Replica, drafts: seq<Draft>, crypto: Crypto, cipher: Option<Cipher>, key: Key,
    i: nat)
    requires UniqueIds(issued) && Sound(issued, d, r) && DistinctCells(drafts) && i < |drafts|
    requires cipher.Some? ==> Faithful(cipher.value)
    requires drafts[i].cell.column != TOMBSTONE
    requires Write(r, d, drafts, AuthorOf(crypto, cipher, key)).1.Applied?
    ensures var cells, cell := Write(r, d, drafts, AuthorOf(crypto, cipher, key)).0.cells, drafts[i].cell;
      && cell in cells && OpenerOf(cipher)(cells[cell].value, cells[cell].hlc) == drafts[i].value
      && var shown := Dump(cells, OpenerOf(cipher));
        Visible(cells, RowOf(cell)) ==>
          && RowOf(cell) in shown.rows
          && (cell in shown.values <==> drafts[i].value != Null)
          && (drafts[i].value != Null ==> shown.values[cell] == drafts[i].value)
  {
    hide MakeLocalOps, Sound, OpenerOf, AuthorOf, UniqueIds;
    var author := AuthorOf(crypto, cipher, key);
    var ops := Issued(r, d, drafts, author);
    LocalOpsCarryDrafts(r.clock, d, drafts, author);
    OneOpPerCell(ops, drafts, author, i);
    WritesAreCausal(issued, d, r, drafts, author, ops[i]);
    SealOpens(crypto, cipher, key, drafts[i].value, ops[i].hlc);
  }

  /** What was written without a cipher reads as it is under one, unless it happens to begin with the mark. */
  lemma PlainReadsAsItself(crypto: Crypto, cipher: Cipher, key: Key, v: Json, h: Hlc)
    requires !(v.Str? && |v.text| >= 3 && v.text[0] == 0x65 && v.text[1] == 0x31 && v.text[2] == 0x3a)
    ensures OpenerOf(Some(cipher))(AuthorOf(crypto, None, key).seal(v, h), h) == v
  {
    assert AuthorOf(crypto, None, key).seal(v, h) == v;
    assert !IsEncrypted(v);
  }

  /** A text with the mark is taken for a ciphertext, whoever wrote it. */
  lemma MarkedIsDecrypted(cipher: Cipher, text: Text, h: Hlc)
    requires |text| >= 3 && text[0] == 0x65 && text[1] == 0x31 && text[2] == 0x3a
    ensures OpenerOf(Some(cipher))(Str(text), h) == cipher.decrypt(text, h)
  {
    assert ENVELOPE <= text;
  }

  // ---------- deleted and restored rows ----------

  ghost predicate Touches(drafts: seq<Draft>, row: Row) {
    exists i :: 0 <= i < |drafts| && RowOf(drafts[i].cell) == row
  }

  lemma WrittenCell(
    issued: set<Op>, d: Device, r: Replica, drafts: seq<Draft>, author: Author, i: nat)
    requires UniqueIds(issued) && Sound(issued, d, r) && DistinctCells(drafts) && i < |drafts|
    requires Write(r, d, drafts, author).1.Applied?
    ensures var cells := Write(r, d, drafts, author).0.cells;
      && drafts[i].cell in cells
      && cells[drafts[i].cell].value == StoredValue(author, drafts[i], cells[drafts[i].cell].hlc)
  {
    hide MakeLocalOps, Sound, UniqueIds, StoredValue;
    var ops := Issued(r, d, drafts, author);
    LocalOpsCarryDrafts(r.clock, d, drafts, author);
    OneOpPerCell(ops, drafts, author, i);
    WritesAreCausal(issued, d, r, drafts, author, ops[i]);
  }

  /** Cells nobody wrote to stay as they are. */
  lemma OtherCells(r: Replica, d: Device, drafts: seq<Draft>, author: Author, c: Cell)
    requires forall i | 0 <= i < |drafts| :: drafts[i].cell != c
    requires Consistent(r)
    ensures var cells := Write(r, d, drafts, author).0.cells;
      (c in cells <==> c in r.cells) && (c in cells ==> cells[c] == r.cells[c])
  {
    hide MakeLocalOps, CellsAfter, FrontierAfter;
    var made := MakeLocalOps(r.clock, d, drafts, author);
    if made.Made? {
      LocalOpsCarryDrafts(r.clock, d, drafts, author);
      CellsUnion(r.cells, made.ops);
      forall o <- OpSet(made.ops) ensures o.cell != c {
        var i :| 0 <= i < |made.ops| && made.ops[i] == o;
        assert drafts[i].cell != c;
      }
      if c in r.cells {
        assert r.cells[c].cell == c;
        assert Covers(CellsAfter(r.cells, made.ops), r.cells[c]);
      }
    }
  }

  /** A row written to shows unless its tombstone is set: by this write if it is among what is written, else by what
      was there. Deleting hides a row, with a cipher or without; a false tombstone brings it back. */
  lemma RowShows(
    issued: set<Op>, d: Device, r: Replica, drafts: seq<Draft>, author: Author, row: Row)
    requires UniqueIds(issued) && Sound(issued, d, r) && DistinctCells(drafts) && Touches(drafts, row)
    requires Write(r, d, drafts, author).1.Applied?
    ensures forall i | 0 <= i < |drafts| && drafts[i].cell == TombstoneOf(row) ::
              Visible(Write(r, d, drafts, author).0.cells, row) <==> drafts[i].value != Bool(true)
    ensures (forall i | 0 <= i < |drafts| :: drafts[i].cell != TombstoneOf(row)) ==>
              (Visible(Write(r, d, drafts, author).0.cells, row) <==> !Tombstoned(r.cells, row))
  {
    hide MakeLocalOps, CellsAfter, FrontierAfter, Write;
    var cells := Write(r, d, drafts, author).0.cells;
    var k :| 0 <= k < |drafts| && RowOf(drafts[k].cell) == row;
    WrittenCell(issued, d, r, drafts, author, k);
    forall i | 0 <= i < |drafts| && drafts[i].cell == TombstoneOf(row)
      ensures Visible(cells, row) <==> drafts[i].value != Bool(true)
    {
      WrittenCell(issued, d, r, drafts, author, i);
    }
    if forall i | 0 <= i < |drafts| :: drafts[i].cell != TombstoneOf(row) {
      OtherCells(r, d, drafts, author, TombstoneOf(row));
    }
  }

  /** Rows not written to stay as they are. */
  lemma OtherRows(r: Replica, d: Device, drafts: seq<Draft>, author: Author, row: Row)
    requires Consistent(r) && !Touches(drafts, row)
    ensures var cells := Write(r, d, drafts, author).0.cells;
      && (Visible(cells, row) <==> Visible(r.cells, row))
      && forall c | RowOf(c) == row :: (c in cells <==> c in r.cells) && (c in cells ==> cells[c] == r.cells[c])
  {
    hide Write, Consistent;
    var cells := Write(r, d, drafts, author).0.cells;
    forall c | RowOf(c) == row
      ensures (c in cells <==> c in r.cells) && (c in cells ==> cells[c] == r.cells[c])
    {
      OtherCells(r, d, drafts, author, c);
    }
    assert RowOf(TombstoneOf(row)) == row;
  }

  // ---------- whole updates ----------

  predicate DistinctColumns(values: seq<Entry>) {
    forall i, j | 0 <= i < j < |values| :: values[i].column != values[j].column
  }

  /** After an update of a row that is not deleted a reader sees the row with the values given in the columns given,
      and every other column of it, and every other row, as they were. */
  lemma UpdateReads(
    issued: set<Op>, d: Device, r: Replica, row: Row, values: seq<Entry>,
    crypto: Crypto, cipher: Option<Cipher>, key: Key, c: Cell)
    requires UniqueIds(issued) && Sound(issued, d, r) && DistinctColumns(values) && values != []
    requires cipher.Some? ==> Faithful(cipher.value)
    requires !Tombstoned(r.cells, row) && forall i | 0 <= i < |values| :: values[i].column != TOMBSTONE
    requires Write(r, d, DraftsOf(row, values), AuthorOf(crypto, cipher, key)).1.Applied?
    ensures var cells := Write(r, d, DraftsOf(row, values), AuthorOf(crypto, cipher, key)).0.cells;
      && Visible(cells, row)
      && (forall i | 0 <= i < |values| && c == Cell(row.table, row.row, values[i].column) ::
            c in cells && OpenerOf(cipher)(cells[c].value, cells[c].hlc) == values[i].value)
      && ((forall i | 0 <= i < |values| :: c != Cell(row.table, row.row, values[i].column)) ==>
            (c in cells <==> c in r.cells) && (c in cells ==> cells[c] == r.cells[c]))
      && (RowOf(c) != row ==> (Visible(cells, RowOf(c)) <==> Visible(r.cells, RowOf(c))))
  {
    hide Write, OpenerOf, AuthorOf, UniqueIds, Sound, Visible, Tombstoned;
    var drafts, author := DraftsOf(row, values), AuthorOf(crypto, cipher, key);
    SoundConsistent(issued, d, r);
    DraftsAre(row, values);
    RowShows(issued, d, r, drafts, author, row);
    forall i | 0 <= i < |values| && c == Cell(row.table, row.row, values[i].column) {
      ReadYourWrites(issued, d, r, drafts, crypto, cipher, key, i);
    }
    if forall i | 0 <= i < |values| :: c != Cell(row.table, row.row, values[i].column) {
      OtherCells(r, d, drafts, author, c);
    }
    if RowOf(c) != row { OtherRows(r, d, drafts, author, RowOf(c)); }
  }

  lemma SoundConsistent(issued: set<Op>, d: Device, r: Replica)
    requires Sound(issued, d, r)
    ensures Consistent(r)
  {
  }

  lemma DraftsAre(row: Row, values: seq<Entry>)
    requires DistinctColumns(values) && forall i | 0 <= i < |values| :: values[i].column != TOMBSTONE
    ensures var drafts := DraftsOf(row, values);
      && |drafts| == |values| && DistinctCells(drafts) && (values != [] ==> Touches(drafts, row))
      && (forall i | 0 <= i < |values| ::
            drafts[i].cell == Cell(row.table, row.row, values[i].column) && drafts[i].value == values[i].value
            && drafts[i].cell != TombstoneOf(row))
      && forall other | other != row :: !Touches(drafts, other)
  {
    var drafts := DraftsOf(row, values);
    if values != [] { assert RowOf(drafts[0].cell) == row; }
  }

  /** A deleted row is gone, whatever the cipher, and no other row with it. */
  lemma DeleteHides(
    issued: set<Op>, d: Device, r: Replica, row: Row, pt: int, author: Author, other: Row)
    requires UniqueIds(issued) && Sound(issued, d, r)
    requires Write(r, d, [Draft(TombstoneOf(row), Bool(true), pt)], author).1.Applied?
    ensures var cells := Write(r, d, [Draft(TombstoneOf(row), Bool(true), pt)], author).0.cells;
      Visible(cells, other) <==> other != row && Visible(r.cells, other)
  {
    hide Write, UniqueIds, Sound, Visible;
    var drafts := [Draft(TombstoneOf(row), Bool(true), pt)];
    SoundConsistent(issued, d, r);
    assert RowOf(drafts[0].cell) == row;
    RowShows(issued, d, r, drafts, author, row);
    if other != row { OtherRows(r, d, drafts, author, other); }
  }
}
