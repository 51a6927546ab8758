/** Operations, their wire form and their signatures; version-vector frontiers. */
module Ops {
  import opened Texts
  import opened Hlcs
  import opened Json
  import Utf8

  /** The column that holds row tombstones. */
  const TOMBSTONE: Text := [0x2d]
  const MAX_OP_BYTES := 64 * 1024
  const MAX_BATCH_OPS := 1000

  datatype Cell = Cell(table: Text, row: Text, column: Text)

  datatype Row = Row(table: Text, row: Text)

  function RowOf(c: Cell): Row {
    Row(c.table, c.row)
  }

  function TombstoneOf(row: Row): Cell {
    Cell(row.table, row.row, TOMBSTONE)
  }

  /** A validated operation. Its id is its timestamp, its device the timestamp's device. */
  datatype Op = Op(cell: Cell, value: Json, hlc: Hlc, sig: Text) {
    function Device(): Device {
      hlc.device
    }
  }

  // ---------- frontiers ----------

  /** Per device, the highest timestamp seen from it. */
  type Frontier = map<Device, Hlc>

  /** The frontier covers the timestamp. */
  predicate Seen(f: Frontier, h: Hlc) {
    h.device in f && Leq(h, f[h.device])
  }

  predicate AboveFrontier(op: Op, f: Frontier) {
    op.hlc.device !in f || Lt(f[op.hlc.device], op.hlc)
  }

  lemma AboveIsUnseen(op: Op, f: Frontier)
    ensures AboveFrontier(op, f) <==> !Seen(f, op.hlc)
  {
  }

  function AdvanceFrontier(f: Frontier, op: Op): Frontier {
    var d := op.hlc.device;
    if d in f && Leq(op.hlc, f[d]) then f else f[d := op.hlc]
  }

  // ---------- wire form and validation ----------

  datatype WireOp = WireOp(
    id: Text, table: Text, row: Text, column: Text, value: Json, hlc: Text, sig: Text, device: Text)

  datatype Validated = Valid(op: Op) | BadOp

  predicate Letter(c: CodeUnit) { 0x41 <= c <= 0x5a || 0x61 <= c <= 0x7a }
  predicate DecimalDigit(c: CodeUnit) { 0x30 <= c <= 0x39 }

  predicate IsName(s: Text) {
    && 1 <= |s| <= 64
    && (Letter(s[0]) || s[0] == 0x5f)
    && forall c <- s :: Letter(c) || DecimalDigit(c) || c == 0x5f
  }

  /** Crockford base32, either case: no I, L, O, U. */
  predicate UlidUnit(c: CodeUnit) {
    DecimalDigit(c) || (Letter(c) && c !in {0x49, 0x4c, 0x4f, 0x55, 0x69, 0x6c, 0x6f, 0x75})
  }

  predicate IsUlid(s: Text) {
    |s| == 26 && forall c <- s :: UlidUnit(c)
  }

  predicate WellNamed(c: Cell) {
    IsName(c.table) && IsUlid(c.row) && (c.column == TOMBSTONE || IsName(c.column))
  }

  const ID: Text := [0x69, 0x64]
  const TABLE: Text := [0x74, 0x61, 0x62, 0x6c, 0x65]
  const ROW: Text := [0x72, 0x6f, 0x77]
  const COLUMN: Text := [0x63, 0x6f, 0x6c, 0x75, 0x6d, 0x6e]
  const VALUE: Text := [0x76, 0x61, 0x6c, 0x75, 0x65]
  const HLC: Text := [0x68, 0x6c, 0x63]
  const SIG: Text := [0x73, 0x69, 0x67]
  const DEVICE: Text := [0x64, 0x65, 0x76, 0x69, 0x63, 0x65]

  /** The fields a signature covers: all but `sig`. */
  function Unsigned(w: WireOp): Json {
    Obj(map[ID := Str(w.id), TABLE := Str(w.table), ROW := Str(w.row), COLUMN := Str(w.column),
            VALUE := w.value, HLC := Str(w.hlc), DEVICE := Str(w.device)])
  }

  function WireJson(w: WireOp): Json {
    Obj(Unsigned(w).fields[SIG := Str(w.sig)])
  }

  function DeviceText(d: Device): Text {
    PadStart(ToHex(d), 32)
  }

  function ToWire(op: Op): WireOp {
    WireOp(Encode(op.hlc), op.cell.table, op.cell.row, op.cell.column, op.value, Encode(op.hlc), op.sig,
           DeviceText(op.hlc.device))
  }

  /** A text has the same length whatever order its fields are printed in. */
  predicate FitsLimit(w: WireOp) {
    |Canonical(WireJson(w))| <= MAX_OP_BYTES
  }

  function ValidateOp(w: WireOp): Validated {
    var decoded := Decode(w.hlc);
    if decoded.Malformed? then BadOp
    else if w.id != w.hlc then BadOp
    else if w.device != DeviceText(decoded.hlc.device) then BadOp
    else if !IsName(w.table) then BadOp
    else if w.column != TOMBSTONE && !IsName(w.column) then BadOp
    else if !IsUlid(w.row) then BadOp
    else if !FitsLimit(w) then BadOp
    else Valid(Op(Cell(w.table, w.row, w.column), w.value, decoded.hlc, w.sig))
  }

  predicate Admissible(op: Op) {
    WellNamed(op.cell) && FitsLimit(ToWire(op))
  }

  /** Validation accepts exactly the wire forms of admissible operations, and loses nothing. */
  lemma ValidateExactly(w: WireOp)
    ensures ValidateOp(w).Valid? <==> exists op :: Admissible(op) && ToWire(op) == w
    ensures forall op :: ValidateOp(w) == Valid(op) <==> Admissible(op) && ToWire(op) == w
  {
    EncodeDecode(w.hlc);
    if ValidateOp(w).Valid? {
      var op := ValidateOp(w).op;
      assert ToWire(op) == w;
      assert Admissible(op);
    }
    forall op | Admissible(op) && ToWire(op) == w ensures ValidateOp(w) == Valid(op) {
      DecodeEncode(op.hlc);
    }
  }

  // ---------- signatures ----------

  /** "tangentfeed/v2/op" */
  const SIGNING_DOMAIN: Text :=
    [0x74, 0x61, 0x6e, 0x67, 0x65, 0x6e, 0x74, 0x66, 0x65, 0x65, 0x64, 0x2f, 0x76, 0x32, 0x2f, 0x6f, 0x70]

  function SignedPayload(w: WireOp): seq<Utf8.Byte> {
    Utf8.Encode(SIGNING_DOMAIN + Canonical(Unsigned(w)))
  }

  lemma UnsignedInjective(v: WireOp, w: WireOp)
    requires Unsigned(v) == Unsigned(w)
    ensures v.(sig := w.sig) == w
  {
    var f, g := Unsigned(v).fields, Unsigned(w).fields;
    assert ID != ROW && ID != SIG && ROW != HLC && HLC != ID;
    assert f[ID] == g[ID] && f[TABLE] == g[TABLE] && f[ROW] == g[ROW] && f[COLUMN] == g[COLUMN];
    assert f[VALUE] == g[VALUE] && f[HLC] == g[HLC] && f[DEVICE] == g[DEVICE];
  }

  lemma PayloadText(x: Json)
    ensures Utf8.WellPaired(SIGNING_DOMAIN + Canonical(x))
  {
    Utf8.CanonicalWellPaired(x);
    Utf8.PlainIsWellPaired(SIGNING_DOMAIN);
    Utf8.WellPairedAppend(SIGNING_DOMAIN, Canonical(x));
  }

  lemma PayloadInjective(x: Json, y: Json)
    requires Utf8.Encode(SIGNING_DOMAIN + Canonical(x)) == Utf8.Encode(SIGNING_DOMAIN + Canonical(y))
    ensures x == y
  {
    PayloadText(x);
    PayloadText(y);
    Utf8.EncodeInjective(SIGNING_DOMAIN + Canonical(x), SIGNING_DOMAIN + Canonical(y));
    Cancel(SIGNING_DOMAIN, Canonical(x), Canonical(y));
    CanonicalInjective(x, y);
  }

  /** The same signed bytes mean the same seven fields. */
  lemma SignedPayloadInjective(v: WireOp, w: WireOp)
    requires SignedPayload(v) == SignedPayload(w)
    ensures v.(sig := w.sig) == w
  {
    PayloadInjective(Unsigned(v), Unsigned(w));
    UnsignedInjective(v, w);
  }

  /** Hence a signature binds a whole operation: no two operations share a payload. */
  lemma PayloadBindsOp(o: Op, p: Op)
    requires SignedPayload(ToWire(o)) == SignedPayload(ToWire(p))
    ensures o.(sig := p.sig) == p
  {
    SignedPayloadInjective(ToWire(o), ToWire(p));
    DecodeEncode(o.hlc);
    DecodeEncode(p.hlc);
  }

  /** What is signed for an operation is never the text of a value, so a signature cannot be taken for one over
      data. */
  lemma DomainSeparated(w: WireOp, v: Json)
    ensures SignedPayload(w) != Utf8.Encode(Canonical(v))
  {
    hide Canonical, Utf8.Encode;
    var payload := SIGNING_DOMAIN + Canonical(Unsigned(w));
    PayloadText(Unsigned(w));
    Utf8.CanonicalWellPaired(v);
    if SignedPayload(w) == Utf8.Encode(Canonical(v)) {
      Utf8.EncodeInjective(payload, Canonical(v));
      FirstUnit(v, []);
      assert payload[0] == 0x74 && |payload| >= 17;
      StartsLikeTrue(v);
      assert false;
    }
  }

  lemma StartsLikeTrue(v: Json)
    requires Mark(v) == 0x74
    ensures |Canonical(v)| == 4
  {
  }

  type Key = seq<Utf8.Byte>

  /** The cryptographic library: key hashing, verification and signing. */
  datatype Crypto = Crypto(
    idOf: Key -> Device,
    verify: (seq<Utf8.Byte>, Text, Key) -> bool,
    sign: (seq<Utf8.Byte>, Key) -> Text)
}
