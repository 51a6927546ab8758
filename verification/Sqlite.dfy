/** The SQL adapter's log: text columns, an index per device, and the frontier diff over them. */
module Sqlite {
  import opened Texts
  import opened Hlcs
  import opened Json
  import opened Ops
  import opened Replicas
  import opened OpOrder

  /** A row of the operations table. */
  datatype OpRow = OpRow(id: Text, cell: Cell, value: Json, hlc: Text, device: Text, sig: Text)

  predicate Good(r: OpRow) {
    && Decode(r.hlc).Timestamp?
    && r.id == r.hlc
    && r.device == DeviceText(Decode(r.hlc).hlc.device)
  }

  function RowOfOp(o: Op): OpRow {
    OpRow(Encode(o.hlc), o.cell, o.value, Encode(o.hlc), DeviceText(o.hlc.device), o.sig)
  }

  function ToOp(r: OpRow): Op
    requires Good(r)
  {
    Op(r.cell, r.value, Decode(r.hlc).hlc, r.sig)
  }

  lemma RowRoundTrip(o: Op)
    ensures Good(RowOfOp(o)) && ToOp(RowOfOp(o)) == o
  {
    DecodeEncode(o.hlc);
  }

  lemma OpRoundTrip(r: OpRow)
    requires Good(r)
    ensures RowOfOp(ToOp(r)) == r
  {
    EncodeDecode(r.hlc);
  }

  lemma DeviceTextInjective(a: Device, b: Device)
    requires DeviceText(a) == DeviceText(b)
    ensures a == b
  {
    Powers();
    PaddedIsFixed(a, 32);
    PaddedIsFixed(b, 32);
    FixedOrder(a, b, 32);
  }

  // ---------- the table, clustered on its primary key ----------

  ghost predicate Clustered(rows: seq<OpRow>) {
    && (forall r <- rows :: Good(r))
    && forall i, j | 0 <= i < j < |rows| :: Less(rows[i].id, rows[j].id)
  }

  ghost function LogOf(rows: seq<OpRow>): set<Op>
    requires forall r <- rows :: Good(r)
  {
    set r | r in rows :: ToOp(r)
  }

  function OpsOf(rows: seq<OpRow>): seq<Op>
    requires forall r <- rows :: Good(r)
  {
    seq(|rows|, i requires 0 <= i < |rows| => ToOp(rows[i]))
  }

  /** The order of the primary key is the order of timestamps. */
  lemma ClusteredAscending(rows: seq<OpRow>)
    requires Clustered(rows)
    ensures Ascending(OpsOf(rows)) && OpSet(OpsOf(rows)) == LogOf(rows) && UniqueIds(LogOf(rows))
  {
    hide Good, Decode, Encode, Less;
    var ops := OpsOf(rows);
    forall i, j | 0 <= i < j < |ops| ensures Lt(ops[i].hlc, ops[j].hlc) {
      RowsOrder(rows[i], rows[j]);
    }
    forall o <- LogOf(rows) ensures o in OpSet(ops) {
      var r :| r in rows && ToOp(r) == o;
      var i :| 0 <= i < |rows| && rows[i] == r;
      assert ops[i] == o;
    }
    forall o, p | o in LogOf(rows) && p in LogOf(rows) && SameId(o, p) ensures o == p {
      var i :| 0 <= i < |ops| && ops[i] == o;
      var j :| 0 <= j < |ops| && ops[j] == p;
    }
  }

  lemma RowsOrder(r: OpRow, s: OpRow)
    requires Good(r) && Good(s)
    ensures Less(r.id, s.id) <==> Lt(ToOp(r).hlc, ToOp(s).hlc)
    ensures r.id == s.id <==> ToOp(r).hlc == ToOp(s).hlc
  {
    OpRoundTrip(r);
    OpRoundTrip(s);
    EncodeOrder(ToOp(r).hlc, ToOp(s).hlc);
  }

  // ---------- the diff ----------

  /** The plain filter on an operation, for whatever texts a frontier consists of. */
  predicate WantedText(o: Op, texts: map<Text, Text>) {
    DeviceText(o.hlc.device) !in texts || Less(texts[DeviceText(o.hlc.device)], Encode(o.hlc))
  }

  function DiffByText(log: set<Op>, texts: map<Text, Text>): set<Op> {
    set o | o in log && WantedText(o, texts)
  }

  /** The texts are those of a frontier: device text to timestamp text. */
  ghost predicate Spells(texts: map<Text, Text>, f: Frontier) {
    && (forall d <- f :: DeviceText(d) in texts && texts[DeviceText(d)] == Encode(f[d]))
    && forall t <- texts :: exists d <- f :: DeviceText(d) == t
  }

  /** What the row query for one device selects. */
  predicate AboveFor(r: OpRow, device: Text, hlc: Text) {
    r.device == device && Less(hlc, r.hlc)
  }

  /** The plain filter, on a row. */
  predicate Wanted(r: OpRow, texts: map<Text, Text>) {
    r.device !in texts || Less(texts[r.device], r.hlc)
  }

  /** The filter on a stored row is the filter on its operation. */
  lemma RowIsWanted(r: OpRow, texts: map<Text, Text>)
    requires Good(r)
    ensures Wanted(r, texts) <==> WantedText(ToOp(r), texts)
  {
    hide DeviceText, Less;
    OpRoundTrip(r);
  }

  /** On the texts of a frontier, comparing texts is comparing timestamps. */
  lemma WantedIsAbove(o: Op, texts: map<Text, Text>, f: Frontier)
    requires Spells(texts, f)
    ensures WantedText(o, texts) <==> AboveFrontier(o, f)
  {
    hide DeviceText, Less, Encode;
    var d := o.hlc.device;
    if DeviceText(d) in texts {
      var e :| e in f && DeviceText(e) == DeviceText(d);
      DeviceTextInjective(d, e);
      EncodeOrder(f[d], o.hlc);
    } else {
      assert d !in f;
    }
  }

  lemma SpelledDiff(log: set<Op>, texts: map<Text, Text>)
    ensures forall f | Spells(texts, f) :: SortOps(DiffByText(log, texts)) == OpOrder.OpsSince(log, f)
  {
    hide WantedText, Spells, AboveFrontier;
    forall f | Spells(texts, f) ensures SortOps(DiffByText(log, texts)) == OpOrder.OpsSince(log, f) {
      forall o { WantedIsAbove(o, texts, f); }
      assert DiffByText(log, texts) == Diff(log, f);
    }
  }

  /** Rows without repetition. */
  ghost predicate Distinct(rows: seq<OpRow>) {
    forall i, j | 0 <= i < j < |rows| :: rows[i] != rows[j]
  }

  /** `out` holds the rows of the listed devices that are above the frontier, none twice. */
  ghost predicate Gathered(out: seq<OpRow>, rows: seq<OpRow>, texts: map<Text, Text>, devices: set<Text>) {
    && Distinct(out)
    && forall r :: r in out <==> r in rows && r.device in devices && r.device in texts && Wanted(r, texts)
  }

  lemma GatheredNext(
    out: seq<OpRow>, rows: seq<OpRow>, texts: map<Text, Text>, devices: set<Text>, device: Text, found: seq<OpRow>)
    requires Gathered(out, rows, texts, devices) && device in texts && device !in devices
    requires Distinct(found) && forall r :: r in found <==> r in rows && AboveFor(r, device, texts[device])
    ensures Gathered(out + found, rows, texts, devices + {device})
  {
    hide Less;
    var all := out + found;
    forall i, j | 0 <= i < j < |all| ensures all[i] != all[j] {
      if i < |out| <= j {
        assert out[i] in out && found[j - |out|] in found;
      }
    }
  }

  class SqliteAdapter {
    var rows: seq<OpRow>

    ghost predicate Valid()
      reads this
    {
      Clustered(rows)
    }

    ghost function Log(): set<Op>
      reads this
      requires Valid()
    {
      LogOf(rows)
    }

    constructor ()
      ensures Valid() && Log() == {}
    {
      rows := [];
    }

    /** `INSERT OR IGNORE`. */
    method InsertOp(op: Op)
      requires Valid()
      modifies this
      ensures Valid()
      ensures Log() == if HasOp(old(Log()), op.hlc) then old(Log()) else old(Log()) + {op}
    {
      hide Good, Less, Encode, Decode;
      RowRoundTrip(op);
      var row := RowOfOp(op);
      var k := 0;
      while k < |rows| && Less(rows[k].id, row.id)
        invariant k <= |rows| && forall i | 0 <= i < k :: Less(rows[i].id, row.id)
      {
        k := k + 1;
      }
      HasRow(rows, row);
      if k < |rows| && rows[k].id == row.id { return; }
      InsertedClustered(rows, row, k);
      rows := rows[..k] + [row] + rows[k..];
    }

    /** The rows of one device above a timestamp, off the index. */
    method OpsAboveFor(device: Text, hlc: Text) returns (found: seq<OpRow>)
      requires Valid()
      ensures Distinct(found) && forall r :: r in found <==> r in rows && AboveFor(r, device, hlc)
    {
      hide Good;
      found := [];
      for i := 0 to |rows|
        invariant Distinct(found)
        invariant forall r :: r in found <==> r in rows[..i] && AboveFor(r, device, hlc)
      {
        FreshRow(rows, i);
        assert rows[..i + 1] == rows[..i] + [rows[i]];
        if rows[i].device == device && Less(hlc, rows[i].hlc) { found := found + [rows[i]]; }
      }
      assert rows[..|rows|] == rows;
    }

    /** A query per listed device, a scan for the others, one sort: the plain filter-and-sort, whatever texts
        the frontier is made of. */
    method OpsSince(texts: map<Text, Text>) returns (out: seq<Op>)
      requires Valid()
      ensures out == SortOps(DiffByText(Log(), texts)) && Ascending(out)
      ensures forall f | Spells(texts, f) :: out == OpOrder.OpsSince(Log(), f)
    {
      hide Wanted, Spells;
      ClusteredAscending(rows);
      SpelledDiff(Log(), texts);
      if texts == map[] {
        out := OpsOf(rows);
        assert DiffByText(Log(), texts) == Log();
        SortedIs(out, Log());
        return;
      }
      var seen: set<Text> := {};
      var found: seq<OpRow> := [];
      seen, found := ListedDevices(texts);
      found := UnlistedDevices(texts, seen, found);
      FoundIsDiff(rows, texts, found);
      out := Sort(OpsOf(found));
      SortedIs(out, DiffByText(Log(), texts));
    }

    method ListedDevices(texts: map<Text, Text>) returns (seen: set<Text>, found: seq<OpRow>)
      requires Valid()
      ensures Gathered(found, rows, texts, texts.Keys)
      ensures forall t :: t in seen <==> exists r <- found :: r.id == t
    {
      hide Good, Less, Wanted;
      seen, found := {}, [];
      var todo := texts.Keys;
      while todo != {}
        invariant todo <= texts.Keys
        invariant Gathered(found, rows, texts, texts.Keys - todo)
        invariant forall t :: t in seen <==> exists r <- found :: r.id == t
        decreases |todo|
      {
        var device :| device in todo;
        var above := OpsAboveFor(device, texts[device]);
        GatheredNext(found, rows, texts, texts.Keys - todo, device, above);
        assert (texts.Keys - todo) + {device} == texts.Keys - (todo - {device});
        seen := seen + set r | r in above :: r.id;
        found := found + above;
        todo := todo - {device};
      }
      assert texts.Keys - todo == texts.Keys;
    }

    /** Everything from devices the caller never heard of. */
    method UnlistedDevices(texts: map<Text, Text>, seen: set<Text>, listed: seq<OpRow>) returns (found: seq<OpRow>)
      requires Valid() && Gathered(listed, rows, texts, texts.Keys)
      requires forall t :: t in seen <==> exists r <- listed :: r.id == t
      ensures Distinct(found) && forall r :: r in found <==> r in rows && Wanted(r, texts)
    {
      hide Good, Less;
      found := listed;
      for i := 0 to |rows|
        invariant Distinct(found)
        invariant forall r :: r in found <==> r in listed || (r in rows[..i] && r.device !in texts)
      {
        FreshRow(rows, i);
        assert rows[..i + 1] == rows[..i] + [rows[i]];
        if rows[i].device !in texts && rows[i].id !in seen { found := found + [rows[i]]; }
        UnlistedUnseen(rows, texts, listed, rows[i]);
      }
      assert rows[..|rows|] == rows;
    }
  }

  lemma FreshRow(rows: seq<OpRow>, i: nat)
    requires Clustered(rows) && i < |rows|
    ensures rows[i] !in rows[..i]
  {
    hide Good;
    if rows[i] in rows[..i] {
      var k :| 0 <= k < i && rows[k] == rows[i];
      Trichotomy(rows[k].id, rows[i].id);
    }
  }

  /** Rows of unlisted devices were not selected before. */
  lemma UnlistedUnseen(rows: seq<OpRow>, texts: map<Text, Text>, listed: seq<OpRow>, row: OpRow)
    requires Clustered(rows) && Gathered(listed, rows, texts, texts.Keys) && row in rows
    ensures row.device !in texts ==> forall r <- listed :: r.id != row.id
  {
    hide Less;
    if row.device !in texts {
      forall r <- listed ensures r.id != row.id {
        assert r.device in texts;
      }
    }
  }

  lemma HasRow(rows: seq<OpRow>, row: OpRow)
    requires Clustered(rows) && Good(row)
    ensures HasOp(LogOf(rows), ToOp(row).hlc) <==> exists r <- rows :: r.id == row.id
  {
    hide Good, Less;
    forall r <- rows ensures r.id == row.id <==> ToOp(r).hlc == ToOp(row).hlc {
      RowsOrder(r, row);
    }
  }

  lemma InsertedClustered(rows: seq<OpRow>, row: OpRow, k: nat)
    requires Clustered(rows) && Good(row) && k <= |rows|
    requires forall i | 0 <= i < k :: Less(rows[i].id, row.id)
    requires k < |rows| ==> !Less(rows[k].id, row.id) && rows[k].id != row.id
    ensures var after := rows[..k] + [row] + rows[k..];
      Clustered(after) && LogOf(after) == LogOf(rows) + {ToOp(row)}
    ensures forall r <- rows :: r.id != row.id
  {
    hide Good, Less;
    var after := rows[..k] + [row] + rows[k..];
    forall j | k <= j < |rows| ensures Less(row.id, rows[j].id) {
      Trichotomy(rows[k].id, row.id);
      if j > k { LessTransitive(row.id, rows[k].id, rows[j].id); }
    }
    forall r <- rows ensures r.id != row.id {
      var i :| 0 <= i < |rows| && rows[i] == r;
      Trichotomy(r.id, row.id);
    }
    assert rows == rows[..k] + rows[k..];
    assert forall r :: r in after <==> r in rows || r == row;
  }

  lemma FoundIsDiff(rows: seq<OpRow>, texts: map<Text, Text>, found: seq<OpRow>)
    requires Clustered(rows)
    requires Distinct(found) && forall r :: r in found <==> r in rows && Wanted(r, texts)
    ensures OpSet(OpsOf(found)) == DiffByText(LogOf(rows), texts)
    ensures forall i, j | 0 <= i < j < |found| :: ToOp(found[i]).hlc != ToOp(found[j]).hlc
    ensures UniqueIds(DiffByText(LogOf(rows), texts))
  {
    hide Good, Less, Wanted, WantedText;
    ClusteredAscending(rows);
    var ops := OpsOf(found);
    forall o ensures o in OpSet(ops) <==> o in DiffByText(LogOf(rows), texts) {
      if o in OpSet(ops) {
        var i :| 0 <= i < |ops| && ops[i] == o;
        assert found[i] in found;
        RowIsWanted(found[i], texts);
      }
      if o in DiffByText(LogOf(rows), texts) {
        var r :| r in rows && ToOp(r) == o;
        RowIsWanted(r, texts);
        var i :| 0 <= i < |found| && found[i] == r;
        assert ops[i] == o;
      }
    }
    forall i, j | 0 <= i < j < |found| ensures ToOp(found[i]).hlc != ToOp(found[j]).hlc {
      assert found[i] in found && found[j] in found;
      SameRow(rows, found[i], found[j]);
    }
  }

  lemma SameRow(rows: seq<OpRow>, r: OpRow, s: OpRow)
    requires Clustered(rows) && r in rows && s in rows && r != s
    ensures ToOp(r).hlc != ToOp(s).hlc
  {
    hide Good, Less;
    var i :| 0 <= i < |rows| && rows[i] == r;
    var j :| 0 <= j < |rows| && rows[j] == s;
    RowsOrder(r, s);
    Trichotomy(r.id, s.id);
  }
}
