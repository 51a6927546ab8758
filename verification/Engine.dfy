/** The engine of one replica: every locked section is one step of the replica as a value. The class holds the
    store, the clock and the key directory; its methods loop and assign as the program does, and their
    contracts say which step of `Replicas` or `Compaction` the whole object has made. */
module Engine {
  import opened Texts
  import opened Hlcs
  import opened Clocks
  import opened Json
  import opened Ops
  import opened Replicas
  import opened Compaction
  import opened Histories
  import opened OpOrder
  import opened Storage
  import Printer

  /** What a replica's stored and live state keeps: exact cells, a frontier that covers the log, and
      clocks that dominate the frontier. */
  ghost predicate Ready(r: Replica) {
    Consistent(r) && FrontierTimed(r.frontier, r.saved) && Packed(r.saved) <= Packed(r.clock)
  }

  // ---------- authenticity ----------

  /** A key directory whose every key hashes to its id. */
  ghost predicate Directory(crypto: Crypto, keys: map<Device, Key>) {
    forall d <- keys :: crypto.idOf(keys[d]) == d
  }

  predicate Signed(crypto: Crypto, key: Key, o: Op) {
    crypto.verify(SignedPayload(ToWire(o)), o.sig, key)
  }

  predicate Authentic(crypto: Crypto, keys: map<Device, Key>, o: Op) {
    o.hlc.device in keys && Signed(crypto, keys[o.hlc.device], o)
  }

  /** The wire operation is well formed and its device's key verifies it. */
  predicate Trusted(crypto: Crypto, keys: map<Device, Key>, w: WireOp) {
    ValidateOp(w).Valid? && Authentic(crypto, keys, ValidateOp(w).op)
  }

  /** The operations of an incoming batch, if the batch is admitted. */
  function Admitted(crypto: Crypto, keys: map<Device, Key>, wire: seq<WireOp>): Option<seq<Op>> {
    if |wire| > MAX_BATCH_OPS || exists w <- wire :: !Trusted(crypto, keys, w) then None
    else Some(seq(|wire|, i requires 0 <= i < |wire| => assert wire[i] in wire; ValidateOp(wire[i]).op))
  }

  /** What an incoming batch makes of a replica that holds `keys`. */
  function RemoteApplied(r: Replica, crypto: Crypto, keys: map<Device, Key>, wire: seq<WireOp>, pt: int)
    : (Replica, Outcome)
  {
    match Admitted(crypto, keys, wire)
    case None => (r, Failed(RejectedOp))
    case Some(ops) => Merge(r, ops, pt)
  }

  /** A batch is taken as a whole or not at all: refused for its size, for the shape or signature of any of its
      operations, or by the clock, it leaves nothing behind but, after a range error, the clock in memory. */
  lemma RefusalChangesNothing(r: Replica, crypto: Crypto, keys: map<Device, Key>, wire: seq<WireOp>, pt: int)
    ensures var (q, o) := RemoteApplied(r, crypto, keys, wire, pt);
      && (o.Failed? ==> q == r.(clock := q.clock))
      && (o.Failed? && o.error != ClockRange ==> q == r)
      && (|wire| > MAX_BATCH_OPS || (exists w <- wire :: !Trusted(crypto, keys, w)) <==> o == Failed(RejectedOp))
      && (o == Failed(ClockDrift) <==>
            && |wire| <= MAX_BATCH_OPS && (forall w <- wire :: Trusted(crypto, keys, w))
            && exists w <- wire :: ValidateOp(w).op.hlc.millis > pt + MAX_DRIFT_MS)
  {
    hide ValidateOp, Signed;
    if Admitted(crypto, keys, wire).Some? {
      var ops := Admitted(crypto, keys, wire).value;
      BatchDrift(r.clock, ops, pt);
      if o: Op :| o in ops && o.hlc.millis > pt + MAX_DRIFT_MS {
        var i :| 0 <= i < |ops| && ops[i] == o;
        assert wire[i] in wire;
      }
      if w: WireOp :| w in wire && ValidateOp(w).op.hlc.millis > pt + MAX_DRIFT_MS {
        var i :| 0 <= i < |wire| && wire[i] == w;
        assert ops[i] in ops;
      }
    }
  }

  /** The cipher of an encrypted space; the id of the operation is bound into the ciphertext. */
  datatype Cipher = Cipher(encrypt: (Json, Hlc) -> Text, decrypt: (Text, Hlc) -> Json)

  /** "e1:" marks an encrypted value. */
  const ENVELOPE: Text := [0x65, 0x31, 0x3a]

  predicate IsEncrypted(v: Json) {
    v.Str? && ENVELOPE <= v.text
  }

  /** Encrypts before signing, so that a peer without the key can verify what it forwards. */
  function AuthorOf(crypto: Crypto, cipher: Option<Cipher>, privateKey: Key): Author {
    Author(
      (value, hlc) => if cipher.Some? then Str(cipher.value.encrypt(value, hlc)) else value,
      (cell, value, hlc) => crypto.sign(SignedPayload(ToWire(Op(cell, value, hlc, []))), privateKey))
  }

  /** What a reader makes of a stored value: plain values, and all values without a cipher, are read as they are. */
  function OpenerOf(cipher: Option<Cipher>): Opener {
    (value, hlc) => if cipher.Some? && IsEncrypted(value) then cipher.value.decrypt(value.text, hlc) else value
  }

  /** The wire form is admissible exactly when the operation is. */
  lemma WireDetermines(op: Op)
    ensures ValidateOp(ToWire(op)).Valid? <==> Admissible(op)
  {
    ValidateExactly(ToWire(op));
    if ValidateOp(ToWire(op)).Valid? {
      var p := ValidateOp(ToWire(op)).op;
      DecodeEncode(op.hlc);
      DecodeEncode(p.hlc);
    }
  }

  /** What the private key signs, the public key verifies. */
  ghost predicate KeyPair(crypto: Crypto, key: DeviceKey) {
    forall payload :: crypto.verify(payload, crypto.sign(payload, key.privateKey), key.publicKey)
  }

  // ---------- every step keeps a replica ready ----------

  lemma NewIds(r: Replica, news: set<Op>)
    requires Consistent(r) && UniqueIds(news)
    requires forall o, p | o in news && p in r.log :: !SameId(o, p)
    ensures UniqueIds(r.log + news)
  {
    UniqueUnion(r.log, news);
  }

  lemma LocalIds(r: Replica, d: Device, drafts: seq<Draft>, author: Author)
    requires Ready(r)
    ensures UniqueIds(r.log + OpSet(Issued(r, d, drafts, author)))
  {
    var ops := Issued(r, d, drafts, author);
    LocalOpsRise(r.clock, d, drafts, author);
    RisingIsUnique(ops);
    forall o, p | o in OpSet(ops) && p in r.log ensures !SameId(o, p) {
      assert Seen(r.frontier, p.hlc);
      PackedOrder(p.hlc, r.frontier[p.hlc.device]);
    }
    NewIds(r, OpSet(ops));
  }

  /** The operations taken from a batch have new, distinct ids, whatever the batch. */
  lemma {:induction false} FreshIds(log: set<Op>, ops: seq<Op>)
    requires UniqueIds(log)
    ensures UniqueIds(log + OpSet(FreshOps(log, ops)))
  {
    if ops != [] {
      var before, last := FreshOps(log, ops[..|ops| - 1]), ops[|ops| - 1];
      FreshIds(log, ops[..|ops| - 1]);
      AppendLast(ops);
      OpSetAppend(before, last);
      if !HasOp(log, last.hlc) && !HasOp(OpSet(before), last.hlc) {
        var all := log + OpSet(before);
        assert forall p <- all :: !SameId(last, p);
        UniqueUnion(all, {last});
        assert all + {last} == log + OpSet(FreshOps(log, ops));
      }
    }
  }

  lemma {:induction false} FreshFrom(log: set<Op>, ops: seq<Op>)
    ensures forall o <- OpSet(FreshOps(log, ops)) :: o in ops
  {
    if ops != [] {
      FreshFrom(log, ops[..|ops| - 1]);
      AppendLast(ops);
      OpSetAppend(FreshOps(log, ops[..|ops| - 1]), ops[|ops| - 1]);
    }
  }

  lemma CommitReady(r: Replica, ops: seq<Op>, c: Clock)
    requires Ready(r) && UniqueIds(r.log + OpSet(ops)) && Packed(r.saved) <= Packed(c)
    requires forall o <- OpSet(ops) :: PackedHlc(o.hlc) <= Packed(c)
    ensures Ready(Replicas.Commit(r, ops, c))
  {
    CommitConsistent(r, ops, c);
    TimedAfter(r.frontier, ops, r.saved, c);
  }

  lemma WriteReady(r: Replica, d: Device, drafts: seq<Draft>, author: Author)
    requires Ready(r)
    ensures Ready(Write(r, d, drafts, author).0)
  {
    LocalIds(r, d, drafts, author);
    LocalOpsRise(r.clock, d, drafts, author);
    match MakeLocalOps(r.clock, d, drafts, author)
    case Made(ops, c) => CommitReady(r, ops, c);
    case NotMade(_, _) =>
  }

  lemma ReceiveGrows(c: Clock, h: Hlc, pt: int)
    ensures Packed(c) <= Packed(After(c, Receive(c, h, pt)))
    ensures !Receive(c, h, pt).Drift? ==> PackedHlc(h) <= Packed(After(c, Receive(c, h, pt)))
  {
    ReceiveIsLamport(c, h, pt);
  }

  lemma MergeReady(r: Replica, ops: seq<Op>, pt: int)
    requires Ready(r)
    ensures Ready(Merge(r, ops, pt).0)
  {
    FreshIds(r.log, ops);
    FreshFrom(r.log, ops);
    if ops != [] {
      ReceiveGrows(r.clock, MaxHlc(ops), pt);
      forall o <- ops ensures PackedHlc(o.hlc) <= PackedHlc(MaxHlc(ops)) {
        PackedOrder(o.hlc, MaxHlc(ops));
      }
    }
    if ReceiveBatch(r.clock, ops, pt).Ticked? {
      CommitReady(r, FreshOps(r.log, ops), ReceiveBatch(r.clock, ops, pt).clock);
    }
  }

  lemma ObserveKeepsLog(r: Replica, h: Hlc, pt: int)
    ensures ObserveClock(r, h, pt).0.log == r.log
  {
  }

  lemma ObserveReady(r: Replica, h: Hlc, pt: int)
    requires Ready(r)
    ensures Ready(ObserveClock(r, h, pt).0)
  {
    ReceiveGrows(r.clock, h, pt);
  }

  lemma CompactReady(r: Replica, gc: bool)
    requires Ready(r)
    ensures Ready(Compaction.Compact(r, gc))
  {
    CompactConsistent(r, gc);
  }

  /** A failed write stays failed, whatever columns would have followed. */
  lemma {:induction false} NotMadeStays(c: Clock, d: Device, drafts: seq<Draft>, i: nat, author: Author)
    requires i <= |drafts| && MakeLocalOps(c, d, drafts[..i], author).NotMade?
    ensures MakeLocalOps(c, d, drafts, author) == MakeLocalOps(c, d, drafts[..i], author)
    decreases |drafts|
  {
    if i < |drafts| {
      var init := drafts[..|drafts| - 1];
      assert init[..i] == drafts[..i];
      NotMadeStays(c, d, init, i, author);
    } else {
      assert drafts[..i] == drafts;
    }
  }

  // ---------- the engine ----------

  function SavedClock(saved: Option<Clock>): Clock {
    if saved.Some? then saved.value else ZERO_CLOCK
  }

  /** What a store amounts to when it is opened. */
  function Stored(storage: MemoryAdapter): Replica
    reads storage
  {
    var saved := SavedClock(storage.clock);
    Replica(storage.Log(), storage.Cells(), storage.frontier, saved, saved, storage.peerFrontiers)
  }

  /** What a ready replica writes is above what it holds, so a tombstone it writes hides its row. */
  lemma DeletedRow(r: Replica, d: Device, row: Row, pt: int, author: Author)
    requires Ready(r)
    ensures var (q, o) := Write(r, d, [Draft(TombstoneOf(row), Bool(true), pt)], author);
      o.Applied? ==> !Visible(q.cells, row)
  {
    hide Admissible;
    var drafts := [Draft(TombstoneOf(row), Bool(true), pt)];
    MakeNone(r.clock, d, drafts, author);
    LocalOpsRise(r.clock, d, drafts, author);
    LocalOpsCarryDrafts(r.clock, d, drafts, author);
    var made := MakeLocalOps(r.clock, d, drafts, author);
    if made.Made? {
      var op := made.ops[0];
      assert made.ops[..0] == [] && made.ops == [op];
      if op.cell in r.cells {
        assert Seen(r.frontier, r.cells[op.cell].hlc);
        PackedOrder(op.hlc, r.cells[op.cell].hlc);
        PackedOrder(r.cells[op.cell].hlc, r.frontier[r.cells[op.cell].hlc.device]);
      }
      assert CellsAfter(r.cells, made.ops) == r.cells[op.cell := op];
    }
  }

  datatype MadeOne = One(op: Op) | NotOne(error: Error)

  /** One local operation at a tick of the clock. */
  function LocalOp(draft: Draft, before: Clock, d: Device, author: Author): MadeOne {
    var t := Now(before, draft.pt);
    if !t.Ticked? then NotOne(ClockRange)
    else
      var h := Hlc(t.clock.millis, t.clock.counter, d);
      var v := StoredValue(author, draft, h);
      var o := Op(draft.cell, v, h, author.sign(draft.cell, v, h));
      if Admissible(o) then One(o) else NotOne(RejectedOp)
  }

  lemma MakeNext(c: Clock, d: Device, drafts: seq<Draft>, i: nat, author: Author, ops: seq<Op>, before: Clock)
    requires i < |drafts| && MakeLocalOps(c, d, drafts[..i], author) == Made(ops, before)
    ensures var t := Now(before, drafts[i].pt);
      match LocalOp(drafts[i], before, d, author)
      case One(op) => MakeLocalOps(c, d, drafts[..i + 1], author) == Made(ops + [op], After(before, t))
      case NotOne(error) => MakeLocalOps(c, d, drafts[..i + 1], author) == NotMade(After(before, t), error)
  {
    hide Admissible, Now;
    var init := drafts[..i + 1];
    assert init[..|init| - 1] == drafts[..i] && init[|init| - 1] == drafts[i];
  }

  lemma MakeNone(c: Clock, d: Device, drafts: seq<Draft>, author: Author)
    ensures MakeLocalOps(c, d, drafts[..0], author) == Made([], c)
  {
  }

  lemma ReadyIds(r: Replica)
    requires Ready(r)
    ensures Consistent(r) && UniqueIds(r.log) && ExactCells(r.log, r.cells)
    ensures r.log + OpSet([]) == r.log && r.cells + map[] == r.cells
  {
  }

  lemma EmptyBatch(c: Clock, pt: int)
    ensures ReceiveBatch(c, [], pt) == Ticked(c)
  {
  }

  lemma CommitClock(r: Replica, before: Clock, ops: seq<Op>, c: Clock)
    ensures Replicas.Commit(r.(clock := before), ops, c) == Replicas.Commit(r, ops, c)
  {
  }

  lemma MergeByTick(r: Replica, ops: seq<Op>, pt: int)
    ensures Merge(r, ops, pt) ==
              match ReceiveBatch(r.clock, ops, pt)
              case Drift => (r, Failed(ClockDrift))
              case OutOfRange(c) => (r.(clock := c), Failed(ClockRange))
              case Ticked(c) => (Replicas.Commit(r, FreshOps(r.log, ops), c), Applied(|FreshOps(r.log, ops)|))
  {
  }

  lemma CommitNothing(r: Replica, c: Clock)
    ensures Replicas.Commit(r, [], c) == r.(clock := c, saved := c)
  {
    assert r.log + OpSet([]) == r.log;
  }

  lemma CommitNext(cells: map<Cell, Op>, f: Frontier, ops: seq<Op>, i: nat)
    requires i < |ops|
    ensures var before := CellsAfter(cells, ops[..i]);
      CellsAfter(cells, ops[..i + 1]) == if Covers(before, ops[i]) then before else before[ops[i].cell := ops[i]]
    ensures FrontierAfter(f, ops[..i + 1]) == AdvanceFrontier(FrontierAfter(f, ops[..i]), ops[i])
  {
    var init := ops[..i + 1];
    assert init[..|init| - 1] == ops[..i];
  }

  lemma CommitNone(cells: map<Cell, Op>, f: Frontier, ops: seq<Op>)
    ensures cells + map[] == CellsAfter(cells, ops[..0]) && f == FrontierAfter(f, ops[..0])
  {
  }

  /** The pending winner of a cell, or else the stored one, decides. */
  lemma WinnerStep(cells: map<Cell, Op>, winners: map<Cell, Op>, op: Op, current: Option<Op>, more: map<Cell, Op>)
    requires current == if op.cell in winners then Some(winners[op.cell])
                        else if op.cell in cells then Some(cells[op.cell]) else None
    requires more == if current.None? || Lt(current.value.hlc, op.hlc) then winners[op.cell := op]
                     else winners[op.cell := current.value]
    ensures cells + more
         == if Covers(cells + winners, op) then cells + winners else (cells + winners)[op.cell := op]
  {
  }

  /** One column of an update, with the wall clock at its turn. */
  datatype Entry = Entry(column: Text, value: Json, pt: int)

  function DraftsOf(row: Row, values: seq<Entry>): seq<Draft> {
    seq(|values|, i requires 0 <= i < |values| =>
      Draft(Cell(row.table, row.row, values[i].column), values[i].value, values[i].pt))
  }

  class SyncEngine {
    const deviceId: Device
    const storage: MemoryAdapter
    const clock: HybridLogicalClock
    const deviceKey: DeviceKey
    const crypto: Crypto
    const cipher: Option<Cipher>
    var keys: map<Device, Key>

    ghost predicate Valid()
      reads this, storage, clock
    {
      && storage.Valid()
      && clock.device == deviceId
      && crypto.idOf(deviceKey.publicKey) == deviceId
      && Directory(crypto, keys) && deviceId in keys
      && Ready(View())
    }

    /** The replica this engine is. */
    function View(): Replica
      reads this, storage, clock
    {
      Replica(storage.Log(), storage.Cells(), storage.frontier, clock.State(), SavedClock(storage.clock),
              storage.peerFrontiers)
    }

    function Writer(): Author {
      AuthorOf(crypto, cipher, deviceKey.privateKey)
    }

    constructor (
      storage: MemoryAdapter, clock: HybridLogicalClock, key: DeviceKey, crypto: Crypto, cipher: Option<Cipher>)
      ensures this.storage == storage && this.clock == clock && this.crypto == crypto && deviceKey == key
      ensures this.cipher == cipher
      ensures deviceId == clock.device && keys == map[clock.device := key.publicKey]
    {
      this.deviceId, this.storage, this.clock := clock.device, storage, clock;
      this.deviceKey, this.crypto, this.cipher := key, crypto, cipher;
      this.keys := map[clock.device := key.publicKey];
    }

    /** Opens a store: the identity is the stored key's, or else the one just generated, and only what was
        persisted is left of the replica. A persisted clock out of its range is refused. */
    static method Open(storage: MemoryAdapter, generated: DeviceKey, crypto: Crypto, cipher: Option<Cipher>)
      returns (result: Option<SyncEngine>)
      requires storage.Valid() && Ready(Stored(storage))
      modifies storage`deviceKey
      ensures result.None? <==> Stored(storage).saved.millis > MAX_MILLIS
      ensures storage.deviceKey == if old(storage.deviceKey).Some? then old(storage.deviceKey) else Some(generated)
      ensures result.Some? ==>
        var e := result.value;
        && fresh(e) && fresh(e.clock) && e.storage == storage && e.crypto == crypto && e.cipher == cipher
        && Some(e.deviceKey) == storage.deviceKey
        && e.Valid() && e.View() == Stored(storage)
        && e.keys == map[e.deviceId := e.deviceKey.publicKey]
    {
      hide Ready, Keyed, Trimmed, Contents, Flat;
      var key := generated;
      if storage.deviceKey.Some? {
        key := storage.deviceKey.value;
      } else {
        storage.SetDeviceKey(generated);
      }
      var persisted := SavedClock(storage.clock);
      if persisted.millis > MAX_MILLIS { return None; }
      var clock := new HybridLogicalClock(crypto.idOf(key.publicKey), persisted);
      var engine := new SyncEngine(storage, clock, key, crypto, cipher);
      result := Some(engine);
    }

    /** Learns a peer's key if it hashes to the claimed id. */
    method LearnKey(d: Device, key: Key) returns (learned: bool)
      modifies this`keys
      ensures learned <==> crypto.idOf(key) == d
      ensures keys == if learned then old(keys)[d := key] else old(keys)
      ensures Directory(crypto, old(keys)) ==> Directory(crypto, keys)
    {
      if crypto.idOf(key) != d { return false; }
      keys := keys[d := key];
      learned := true;
    }

    // ---------- local writes ----------

    /** Write one operation per column. */
    method Update(row: Row, values: seq<Entry>) returns (o: Outcome)
      requires Valid()
      modifies storage, clock
      ensures Valid()
      ensures (View(), o) == Write(old(View()), deviceId, DraftsOf(row, values), Writer())
    {
      o := WriteAll(DraftsOf(row, values));
    }

    method Delete(row: Row, pt: int) returns (o: Outcome)
      requires Valid()
      modifies storage, clock
      ensures Valid()
      ensures (View(), o) == Write(old(View()), deviceId, [Draft(TombstoneOf(row), Bool(true), pt)], Writer())
      ensures o.Applied? ==> !Visible(View().cells, row)
    {
      hide Ready, Keyed, Trimmed, Contents, Flat, Write, Visible;
      DeletedRow(View(), deviceId, row, pt, Writer());
      o := WriteAll([Draft(TombstoneOf(row), Bool(true), pt)]);
    }

    method WriteAll(drafts: seq<Draft>) returns (o: Outcome)
      requires Valid()
      modifies storage, clock
      ensures Valid()
      ensures (View(), o) == Write(old(View()), deviceId, drafts, Writer())
    {
      hide Ready, Keyed, Trimmed, Contents, Flat, MakeLocalOps, Replicas.Commit, LocalOp, Now, After;
      ghost var was := View();
      WriteReady(was, deviceId, drafts, Writer());
      MakeNone(was.clock, deviceId, drafts, Writer());
      var ops: seq<Op> := [];
      for i := 0 to |drafts|
        modifies clock
        invariant MakeLocalOps(was.clock, deviceId, drafts[..i], Writer()) == Made(ops, clock.State())
        invariant View() == was.(clock := clock.State()) && storage.Valid()
      {
        MakeNext(was.clock, deviceId, drafts, i, Writer(), ops, clock.State());
        var made := MakeLocalOp(drafts[i]);
        if made.NotOne? {
          NotMadeStays(was.clock, deviceId, drafts, i + 1, Writer());
          return Failed(made.error);
        }
        ops := ops + [made.op];
      }
      assert drafts[..|drafts|] == drafts;
      LocalIds(was, deviceId, drafts, Writer());
      CommitClock(was, clock.State(), ops, clock.State());
      Commit(ops);
      o := Applied(|ops|);
    }

    method MakeLocalOp(draft: Draft) returns (made: MadeOne)
      requires clock.device == deviceId
      modifies clock
      ensures clock.State() == After(old(clock.State()), Now(old(clock.State()), draft.pt))
      ensures made == LocalOp(draft, old(clock.State()), deviceId, Writer())
    {
      var t := clock.Issue(draft.pt);
      if !t.Ticked? { return NotOne(ClockRange); }
      var hlc := Hlc(t.clock.millis, t.clock.counter, deviceId);
      var stored := draft.value;
      if cipher.Some? && draft.cell.column != TOMBSTONE {
        stored := Str(cipher.value.encrypt(draft.value, hlc));
      }
      var unsigned := Op(draft.cell, stored, hlc, []);
      var op := unsigned.(sig := crypto.sign(SignedPayload(ToWire(unsigned)), deviceKey.privateKey));
      WireDetermines(op);
      if ValidateOp(ToWire(op)).BadOp? { return NotOne(RejectedOp); }
      made := One(op);
    }

    // ---------- the mutation path ----------

    /** Winners of the affected cells and the new frontier, persisted together with the log and the clock. */
    method Commit(ops: seq<Op>)
      requires storage.Valid() && UniqueIds(storage.Log() + OpSet(ops))
      modifies storage
      ensures storage.Valid() && storage.deviceKey == old(storage.deviceKey)
      ensures View() == Replicas.Commit(old(View()), ops, clock.State())
    {
      hide Keyed, Trimmed, Contents, Flat;
      hide CellsAfter, FrontierAfter, AdvanceFrontier;
      var winners: map<Cell, Op> := map[];
      var frontier := storage.frontier;
      CommitNone(storage.Cells(), frontier, ops);
      for i := 0 to |ops|
        modifies {}
        invariant storage.Cells() + winners == CellsAfter(storage.Cells(), ops[..i])
        invariant frontier == FrontierAfter(storage.frontier, ops[..i])
      {
        var op := ops[i];
        var current;
        if op.cell in winners {
          current := Some(winners[op.cell]);
        } else {
          current := storage.GetWinner(op.cell);
        }
        ghost var before := winners;
        if current.None? || Lt(current.value.hlc, op.hlc) {
          winners := winners[op.cell := op];
        } else if op.cell !in winners {
          winners := winners[op.cell := current.value];
        }
        frontier := AdvanceFrontier(frontier, op);
        WinnerStep(storage.Cells(), before, op, current, winners);
        CommitNext(storage.Cells(), storage.frontier, ops, i);
      }
      assert ops[..|ops|] == ops;
      storage.ApplyBatch(ops, winners, frontier, clock.State());
    }

    // ---------- remote operations ----------

    /** Size, shape and signature first, then the clock, then the merge; a rejected batch leaves the replica as
        it was. */
    method ApplyRemoteOps(wire: seq<WireOp>, pt: int) returns (o: Outcome)
      requires Valid()
      modifies storage, clock
      ensures Valid()
      ensures (View(), o) == RemoteApplied(old(View()), crypto, keys, wire, pt)
    {
      hide Ready, Keyed, Trimmed, Contents, Flat, Merge, ValidateOp, Signed;
      if |wire| > MAX_BATCH_OPS { return Failed(RejectedOp); }
      var ops: seq<Op> := [];
      for i := 0 to |wire|
        modifies {}
        invariant |ops| == i && forall k | 0 <= k < i :: ValidateOp(wire[k]) == Validated.Valid(ops[k])
      {
        var v := ValidateOp(wire[i]);
        if v.BadOp? {
          assert !Trusted(crypto, keys, wire[i]);
          return Failed(RejectedOp);
        }
        ops := ops + [v.op];
      }
      for i := 0 to |ops|
        modifies {}
        invariant forall k | 0 <= k < i :: Trusted(crypto, keys, wire[k])
      {
        if ops[i].hlc.device !in keys || !Signed(crypto, keys[ops[i].hlc.device], ops[i]) {
          assert !Trusted(crypto, keys, wire[i]);
          return Failed(RejectedOp);
        }
      }
      assert Admitted(crypto, keys, wire).value == ops;
      o := MergeLocked(ops, pt);
    }

    /** The section under the lock. */
    method MergeLocked(ops: seq<Op>, pt: int) returns (o: Outcome)
      requires Valid()
      modifies storage, clock
      ensures Valid()
      ensures (View(), o) == Merge(old(View()), ops, pt)
    {
      hide Ready, Keyed, Trimmed, Contents, Flat, FreshOps, Receive;
      ghost var was := View();
      MergeReady(was, ops, pt);
      hide ReceiveBatch, Replicas.Commit, Merge;
      ReadyIds(was);
      var t := Ticked(clock.State());
      EmptyBatch(was.clock, pt);
      if ops != [] { t := ReceiveHighest(ops, pt); }
      MergeByTick(was, ops, pt);
      if t.Drift? { return Failed(ClockDrift); }
      if t.OutOfRange? { return Failed(ClockRange); }
      var news := Unknown(ops);
      FreshIds(storage.Log(), ops);
      if news == [] {
        storage.ApplyBatch([], map[], storage.frontier, clock.State());
        CommitNothing(was, clock.State());
        return Applied(0);
      }
      CommitClock(was, clock.State(), news, clock.State());
      Commit(news);
      o := Applied(|news|);
    }

    /** Observes the highest timestamp of the batch. */
    method ReceiveHighest(ops: seq<Op>, pt: int) returns (t: Tick)
      requires ops != []
      modifies clock
      ensures t == ReceiveBatch(old(clock.State()), ops, pt)
      ensures clock.State() == After(old(clock.State()), t)
    {
      var highest := ops[0].hlc;
      for i := 1 to |ops|
        modifies {}
        invariant highest == MaxHlc(ops[..i])
      {
        assert ops[..i + 1][..i] == ops[..i];
        if Lt(highest, ops[i].hlc) { highest := ops[i].hlc; }
      }
      assert ops[..|ops|] == ops;
      t := clock.Witness(highest, pt);
    }

    /** The operations not in the log, first occurrences only. */
    method Unknown(ops: seq<Op>) returns (news: seq<Op>)
      requires storage.Valid()
      ensures news == FreshOps(storage.Log(), ops)
    {
      news := [];
      for i := 0 to |ops|
        invariant news == FreshOps(storage.Log(), ops[..i])
      {
        assert ops[..i + 1][..i] == ops[..i];
        var stored := storage.HasOp(ops[i].hlc);
        if !stored && !exists f <- news :: f.hlc == ops[i].hlc {
          news := news + [ops[i]];
        }
      }
      assert ops[..|ops|] == ops;
    }

    /** Observes a peer's clock, as it stands in a hello. */
    method ObserveRemoteClock(hlc: Text, pt: int) returns (o: Outcome)
      requires Valid()
      modifies storage, clock
      ensures Valid()
      ensures (View(), o) == match Decode(hlc)
                             case Malformed => (old(View()), Failed(MalformedClock))
                             case Timestamp(h) => ObserveClock(old(View()), h, pt)
    {
      hide Ready, Keyed, Trimmed, Contents, Flat, Receive;
      var decoded := Decode(hlc);
      if decoded.Malformed? { return Failed(MalformedClock); }
      ObserveReady(View(), decoded.hlc, pt);
      ghost var was := View();
      ReadyIds(was);
      var t := clock.Witness(decoded.hlc, pt);
      if t.Drift? { return Failed(ClockDrift); }
      if t.OutOfRange? { return Failed(ClockRange); }
      storage.ApplyBatch([], map[], storage.frontier, clock.State());
      o := Applied(0);
    }

    // ---------- compaction ----------

    /** Records how far a peer has got; compaction waits for it. */
    method RecordPeerFrontier(peer: Device, f: Frontier)
      requires Valid()
      modifies storage
      ensures Valid()
      ensures View() == RecordPeer(old(View()), deviceId, peer, f)
    {
      if peer == deviceId { return; }
      storage.SetPeerFrontier(peer, f);
    }

    /** The plan for the replica as it stands. */
    method Plan(own: Frontier, peers: map<Device, Frontier>, includeTombstones: bool)
      returns (opIds: seq<Hlc>, cellKeys: set<Cell>, stats: Stats)
      requires Valid() && own == View().frontier && peers == View().peers
      ensures var r := View();
        && IsPlan(r.log, r.cells, Absorbed(r), includeTombstones, opIds, cellKeys, stats)
    {
      hide Consistent, ExactCells, BelowMark, Below, Absorbed, AbsorbedBy, IsPlan, Keyed, Trimmed, Contents, Flat;
      ReadyIds(View());
      var horizon := CompactionHorizon(own, peers);
      var winners := WinningCells();
      var ops := storage.AllOps();
      SnapshotIsLog(View(), ops, horizon);
      opIds, cellKeys, stats := PlanCompaction(ops, winners, horizon, includeTombstones);
    }

    /** Reclaims what the plan says, unless it is a dry run. */
    method Compact(dryRun: bool, includeTombstones: bool) returns (stats: Stats, blockedBy: seq<Device>)
      requires Valid()
      modifies storage
      ensures Valid()
      ensures View() == if dryRun then old(View()) else Compaction.Compact(old(View()), includeTombstones)
      ensures AscendingDevices(blockedBy)
      ensures forall p :: p in blockedBy <==> p in View().peers && Lags(View().peers[p], View().frontier)
      ensures stats == PlanStats(old(View()), includeTombstones)
    {
      hide Ready, Consistent, Compaction.Compact, Removed, Forgotten, Absorbed, Lags;
      hide Fates, IsPlan, PlanStats, Keyed, Trimmed, Contents, Flat;
      ghost var r := View();
      CompactReady(r, includeTombstones);
      ReadyIds(r);
      var own, peers := storage.frontier, storage.peerFrontiers;
      var opIds, cellKeys;
      opIds, cellKeys, stats := Plan(own, peers, includeTombstones);
      PlannedStats(r, includeTombstones, opIds, cellKeys, stats);
      PlannedLog(r, includeTombstones, opIds, cellKeys);
      if !dryRun && (opIds != [] || cellKeys != {}) {
        Reclaim(opIds, cellKeys);
      }
      blockedBy := BlockingPeers(own, peers);
    }

    method Reclaim(opIds: seq<Hlc>, cellKeys: set<Cell>)
      requires storage.Valid()
      modifies storage
      ensures storage.Valid()
      ensures View() == old(View()).(log := (set o | o in old(View()).log && o.hlc !in opIds),
                                     cells := old(View()).cells - cellKeys)
    {
      hide Keyed, Trimmed, Contents, Flat;
      var keyList := Listed(cellKeys);
      storage.Compact(opIds, keyList);
      assert (set c | c in keyList) == cellKeys;
    }

    /** A snapshot of the materialized state, gathered table by table and row by row. */
    method WinningCells() returns (winners: map<Cell, Op>)
      requires storage.Valid()
      ensures winners == storage.Cells()
    {
      hide Ready, Keyed, Trimmed, Contents, Flat;
      hide OfTables;
      winners := map[];
      var names := storage.ListTables();
      TablesEnds(storage.Cells(), names);
      for i := 0 to |names|
        invariant winners == OfTables(storage.Cells(), names[..i])
      {
        AnotherTable(storage.Cells(), names, i);
        winners := AddTable(winners, names[i]);
      }
      assert names[..|names|] == names;
    }

    method AddTable(winners: map<Cell, Op>, table: Text) returns (more: map<Cell, Op>)
      requires storage.Valid()
      ensures more == winners + OfTables(storage.Cells(), [table])
    {
      hide Ready, Keyed, Trimmed, Contents, Flat;
      hide OfRows, OfTables, CellsOfRow;
      more := winners;
      NoRows(storage.Cells(), winners, table);
      var rows := storage.ListRows(table);
      for j := 0 to |rows|
        invariant more == winners + OfRows(storage.Cells(), table, rows[..j])
      {
        assert rows[..j + 1] == rows[..j] + [rows[j]];
        var columns := storage.GetRow(Row(table, rows[j]));
        ReadRow(storage.Cells(), Row(table, rows[j]), columns);
        if columns.Some? { more := AddRow(more, Row(table, rows[j]), columns.value); }
        AnotherRow(storage.Cells(), winners, table, rows[..j], rows[j]);
      }
      assert rows[..|rows|] == rows;
      AllRows(storage.Cells(), table, rows);
    }

    // ---------- reads ----------

    /** The visible row: its columns, decrypted, that are not cleared. */
    method Get(row: Row) returns (shown: Option<map<Text, Json>>)
      requires Valid()
      ensures shown.Some? <==> Visible(View().cells, row)
      ensures shown.Some? ==> ShowsRow(shown.value, View().cells, OpenerOf(cipher), row)
    {
      hide Ready, Keyed, Trimmed, Contents, Flat, Visible, ShowsRow, Materialize, IsTombstoned;
      var columns := storage.GetRow(row);
      RowIsShown(View().cells, row, columns, OpenerOf(cipher));
      if columns.None? || IsTombstoned(columns.value) {
        return None;
      }
      var shownColumns := Materialize(columns.value, OpenerOf(cipher));
      shown := Some(shownColumns);
    }

    /** The whole materialized state, tables and rows in ascending order. */
    method DumpState() returns (state: map<Row, map<Text, Json>>, order: seq<Row>)
      requires Valid()
      ensures ShowsDump(state, Dump(View().cells, OpenerOf(cipher)))
      ensures AscendingRows(order) && forall row :: row in order <==> row in state
    {
      hide Ready, Keyed, Trimmed, Contents, Flat, Dump, Shows, AscendingRows, RowBefore, ShowsDump, AscendingTexts;
      state, order := map[], [];
      ghost var done: set<Row> := {};
      NothingShown(View().cells, OpenerOf(cipher));
      var names := SortedTables();
      for i := 0 to |names|
        invariant Shows(state, View().cells, OpenerOf(cipher), done)
        invariant forall c <- View().cells | c.table in names[..i] :: RowOf(c) in done
        invariant AscendingRows(order) && forall row :: row in order <==> row in state
        invariant forall row <- order :: row.table in names[..i]
      {
        assert names[..i + 1] == names[..i] + [names[i]];
        TablesBefore(names, i, order);
        state, order, done := DumpTable(state, order, names[i], done);
      }
      assert names[..|names|] == names;
      ShowsAll(state, View().cells, OpenerOf(cipher), done);
    }

    method SortedTables() returns (names: seq<Text>)
      requires storage.Valid()
      ensures AscendingTexts(names) && forall t :: t in names <==> exists c <- View().cells :: c.table == t
    {
      hide Keyed, Trimmed, Contents, Flat, AscendingTexts;
      var listed := storage.ListTables();
      names := Printer.SortKeys(set t | t in listed);
    }

    method SortedRows(table: Text) returns (rows: seq<Text>)
      requires storage.Valid()
      ensures AscendingTexts(rows)
      ensures forall r :: r in rows <==> exists c <- View().cells :: c.table == table && c.row == r
    {
      hide Keyed, Trimmed, Contents, Flat, AscendingTexts;
      var listed := storage.ListRows(table);
      rows := Printer.SortKeys(set r | r in listed);
    }

    /** The rows of one table, after those of the tables before it. */
    method DumpTable(was: map<Row, map<Text, Json>>, before: seq<Row>, table: Text, ghost shownBefore: set<Row>)
      returns (state: map<Row, map<Text, Json>>, order: seq<Row>, ghost done: set<Row>)
      requires Valid() && Shows(was, View().cells, OpenerOf(cipher), shownBefore)
      requires AscendingRows(before) && forall row :: row in before <==> row in was
      requires forall row <- before :: RowBefore(row, table)
      ensures Shows(state, View().cells, OpenerOf(cipher), done) && shownBefore <= done
      ensures forall c <- View().cells | c.table == table :: RowOf(c) in done
      ensures AscendingRows(order) && forall row :: row in order <==> row in state
      ensures forall row <- order :: row in before || row.table == table
    {
      hide Ready, Keyed, Trimmed, Contents, Flat, Dump, Shows, Visible, AscendingRows, RowBefore, ShowsRow;
      hide AscendingTexts;
      state, order, done := was, before, shownBefore;
      var rows := SortedRows(table);
      for j := 0 to |rows|
        invariant Shows(state, View().cells, OpenerOf(cipher), done) && shownBefore <= done
        invariant forall c <- View().cells | c.table == table && c.row in rows[..j] :: RowOf(c) in done
        invariant AscendingRows(order) && forall row :: row in order <==> row in state
        invariant forall row <- order :: row in before || (row.table == table && row.row in rows[..j])
      {
        assert rows[..j + 1] == rows[..j] + [rows[j]];
        var row := Row(table, rows[j]);
        var shown := Get(row);
        ShowsNext(state, View().cells, OpenerOf(cipher), done, row, shown);
        if shown.Some? {
          AnotherRowLast(order, rows, j, row);
          state, order := state[row := shown.value], order + [row];
        }
        done := done + {row};
      }
      assert rows[..|rows|] == rows;
    }
  }

  predicate IsTombstoned(columns: Columns) {
    TOMBSTONE in columns && columns[TOMBSTONE].value == Bool(true)
  }

  /** A stored row shows unless it is tombstoned, as what can be read of its columns. */
  lemma RowIsShown(cells: map<Cell, Op>, row: Row, columns: Option<Columns>, open: Opener)
    requires columns.None? <==> forall c <- cells :: RowOf(c) != row
    requires columns.Some? ==>
      && (forall k :: k in columns.value <==> Cell(row.table, row.row, k) in cells)
      && (forall k <- columns.value :: columns.value[k] == cells[Cell(row.table, row.row, k)])
    ensures Visible(cells, row) <==> columns.Some? && !IsTombstoned(columns.value)
    ensures Visible(cells, row) ==> ShowsRow(Materialize(columns.value, open), cells, open, row)
  {
    if Visible(cells, row) {
      RowIsMaterialized(cells, row, columns.value, open);
    }
  }

  lemma RowIsMaterialized(cells: map<Cell, Op>, row: Row, columns: Columns, open: Opener)
    requires forall k :: k in columns <==> Cell(row.table, row.row, k) in cells
    requires forall k <- columns :: columns[k] == cells[Cell(row.table, row.row, k)]
    requires Visible(cells, row)
    ensures ShowsRow(Materialize(columns, open), cells, open, row)
  {
    hide Visible;
    forall k
      ensures var c := Cell(row.table, row.row, k);
        && (k in Materialize(columns, open) <==> c in Dump(cells, open).values)
        && (k in Materialize(columns, open) ==> Materialize(columns, open)[k] == Dump(cells, open).values[c])
    {
      assert RowOf(Cell(row.table, row.row, k)) == row;
    }
  }

  function Materialize(columns: Columns, open: Opener): map<Text, Json> {
    map k | k in columns && k != TOMBSTONE && open(columns[k].value, columns[k].hlc) != Null
      :: open(columns[k].value, columns[k].hlc)
  }

  // ---------- the order of a dump ----------

  predicate RowLess(a: Row, b: Row) {
    Less(a.table, b.table) || (a.table == b.table && Less(a.row, b.row))
  }

  predicate RowBefore(a: Row, table: Text) {
    Less(a.table, table)
  }

  ghost predicate AscendingRows(rows: seq<Row>) {
    forall i, j | 0 <= i < j < |rows| :: RowLess(rows[i], rows[j])
  }

  lemma TablesBefore(names: seq<Text>, i: nat, order: seq<Row>)
    requires AscendingTexts(names) && i < |names| && forall row <- order :: row.table in names[..i]
    ensures forall row <- order :: RowBefore(row, names[i])
  {
    hide Less;
    forall row <- order ensures RowBefore(row, names[i]) {
      var k :| 0 <= k < i && names[..i][k] == row.table;
      assert names[k] == row.table;
    }
  }

  lemma AnotherRowLast(order: seq<Row>, rows: seq<Text>, j: nat, row: Row)
    requires AscendingTexts(rows) && j < |rows| && row.row == rows[j] && AscendingRows(order)
    requires forall r <- order :: RowBefore(r, row.table) || (r.table == row.table && r.row in rows[..j])
    ensures AscendingRows(order + [row])
  {
    hide Less;
    forall i | 0 <= i < |order| ensures RowLess(order[i], row) {
      assert order[i] in order;
      if !RowBefore(order[i], row.table) {
        var k :| 0 <= k < j && rows[..j][k] == order[i].row;
        assert rows[k] == order[i].row;
      }
    }
  }

  // ---------- snapshots ----------

  function OfTables(cells: map<Cell, Op>, names: seq<Text>): map<Cell, Op> {
    map c | c in cells && c.table in names :: cells[c]
  }

  lemma AnotherTable(cells: map<Cell, Op>, names: seq<Text>, i: nat)
    requires i < |names|
    ensures OfTables(cells, names[..i + 1]) == OfTables(cells, names[..i]) + OfTables(cells, [names[i]])
  {
    assert names[..i + 1] == names[..i] + [names[i]];
  }

  lemma TablesEnds(cells: map<Cell, Op>, names: seq<Text>)
    requires forall c <- cells :: c.table in names
    ensures OfTables(cells, names[..0]) == map[] && OfTables(cells, names) == cells
  {
  }

  function OfRows(cells: map<Cell, Op>, table: Text, rows: seq<Text>): map<Cell, Op> {
    map c | c in cells && c.table == table && c.row in rows :: cells[c]
  }

  function CellsOfRow(row: Row, columns: Columns): map<Cell, Op> {
    map k | k in columns :: Cell(row.table, row.row, k) := columns[k]
  }

  function PartOfRow(winners: map<Cell, Op>, row: Row, columns: Columns, todo: set<Text>): map<Cell, Op> {
    winners + CellsOfRow(row, columns - todo)
  }

  lemma RowStep(winners: map<Cell, Op>, row: Row, columns: Columns, todo: set<Text>, k: Text)
    requires k in todo && todo <= columns.Keys
    ensures PartOfRow(winners, row, columns, todo - {k})
         == PartOfRow(winners, row, columns, todo)[Cell(row.table, row.row, k) := columns[k]]
  {
  }

  lemma RowEnds(winners: map<Cell, Op>, row: Row, columns: Columns)
    ensures PartOfRow(winners, row, columns, columns.Keys) == winners
    ensures PartOfRow(winners, row, columns, {}) == winners + CellsOfRow(row, columns)
  {
    assert columns - {} == columns;
  }

  method AddRow(winners: map<Cell, Op>, row: Row, columns: Columns) returns (more: map<Cell, Op>)
    ensures more == winners + CellsOfRow(row, columns)
  {
    hide PartOfRow, CellsOfRow;
    RowEnds(winners, row, columns);
    more := winners;
    var todo := columns.Keys;
    while todo != {}
      invariant todo <= columns.Keys
      invariant more == PartOfRow(winners, row, columns, todo)
      decreases |todo|
    {
      var k :| k in todo;
      RowStep(winners, row, columns, todo, k);
      more := more[Cell(row.table, row.row, k) := columns[k]];
      todo := todo - {k};
    }
  }

  lemma ReadRow(cells: map<Cell, Op>, row: Row, columns: Option<Columns>)
    requires columns.None? <==> forall c <- cells :: RowOf(c) != row
    requires columns.Some? ==>
      && (forall k :: k in columns.value <==> Cell(row.table, row.row, k) in cells)
      && (forall k <- columns.value :: columns.value[k] == cells[Cell(row.table, row.row, k)])
    ensures OfRows(cells, row.table, [row.row]) == if columns.None? then map[] else CellsOfRow(row, columns.value)
  {
    forall c | c in OfRows(cells, row.table, [row.row]) ensures columns.Some? && c in CellsOfRow(row, columns.value) {
      assert RowOf(c) == row && c == Cell(row.table, row.row, c.column);
    }
  }

  lemma NoRows(cells: map<Cell, Op>, winners: map<Cell, Op>, table: Text)
    ensures winners + OfRows(cells, table, [][..0]) == winners
  {
  }

  lemma AnotherRow(cells: map<Cell, Op>, winners: map<Cell, Op>, table: Text, rows: seq<Text>, row: Text)
    ensures winners + OfRows(cells, table, rows + [row])
         == winners + OfRows(cells, table, rows) + OfRows(cells, table, [row])
  {
  }

  lemma AllRows(cells: map<Cell, Op>, table: Text, rows: seq<Text>)
    requires forall r :: r in rows <==> r in set c | c in cells && c.table == table :: c.row
    ensures OfRows(cells, table, rows) == OfTables(cells, [table])
  {
  }

  lemma SnapshotIsLog(r: Replica, ops: seq<Op>, horizon: map<Device, Mark>)
    requires Consistent(r) && ops == SortOps(r.log)
    requires forall h :: BelowMark(horizon, h) <==> Below(r.frontier, r.peers, h)
    ensures Distinct(ops) && OpSet(ops) == r.log && AbsorbedBy(horizon, r.log) == Absorbed(r)
  {
    SortOpsContents(r.log);
    SortOpsAscending(r.log);
    assert AbsorbedBy(horizon, r.log) == Absorbed(r);
  }

  lemma PlannedStats(r: Replica, gc: bool, opIds: seq<Hlc>, cellKeys: set<Cell>, stats: Stats)
    requires IsPlan(r.log, r.cells, Absorbed(r), gc, opIds, cellKeys, stats)
    ensures stats == PlanStats(r, gc)
    ensures IdSet(opIds) == Ids(Removed(r.log, r.cells, Absorbed(r), gc))
    ensures cellKeys == Forgotten(r.log, r.cells, Absorbed(r), gc)
  {
  }

  lemma PlannedLog(r: Replica, gc: bool, opIds: seq<Hlc>, cellKeys: set<Cell>)
    requires Consistent(r)
    requires IdSet(opIds) == Ids(Removed(r.log, r.cells, Absorbed(r), gc))
    requires cellKeys == Forgotten(r.log, r.cells, Absorbed(r), gc)
    ensures Compaction.Compact(r, gc) ==
              r.(log := (set o | o in r.log && o.hlc !in opIds), cells := r.cells - cellKeys)
    ensures opIds == [] && cellKeys == {} ==> Compaction.Compact(r, gc) == r
  {
    var removed := Removed(r.log, r.cells, Absorbed(r), gc);
    forall o <- r.log ensures o.hlc in opIds <==> o in removed {
      assert o.hlc in opIds <==> o.hlc in IdSet(opIds);
      if o.hlc in Ids(removed) {
        var p :| p in removed && p.hlc == o.hlc;
        assert SameId(o, p);
      }
    }
    if opIds == [] && cellKeys == {} {
      assert r.log - removed == r.log;
      assert r.cells - {} == r.cells;
    }
  }

  /** The state shows exactly the visible rows among `rows`, with what shows of them. */
  ghost predicate Shows(state: map<Row, map<Text, Json>>, cells: map<Cell, Op>, open: Opener, rows: set<Row>) {
    && (forall row :: row in state <==> row in rows && Visible(cells, row))
    && forall row <- state :: ShowsRow(state[row], cells, open, row)
  }

  ghost predicate ShowsRow(shown: map<Text, Json>, cells: map<Cell, Op>, open: Opener, row: Row) {
    forall k :: var c := Cell(row.table, row.row, k);
      && (k in shown <==> c in Dump(cells, open).values)
      && (k in shown ==> shown[k] == Dump(cells, open).values[c])
  }

  /** The nested state and the dump hold the same rows and values. */
  ghost predicate ShowsDump(state: map<Row, map<Text, Json>>, dump: Dumped) {
    && state.Keys == dump.rows
    && (forall c :: (RowOf(c) in state && c.column in state[RowOf(c)]) <==> c in dump.values)
    && forall c <- dump.values ::
         RowOf(c) in state && c.column in state[RowOf(c)] && state[RowOf(c)][c.column] == dump.values[c]
  }

  lemma NothingShown(cells: map<Cell, Op>, open: Opener)
    ensures Shows(map[], cells, open, {}) && AscendingRows([])
  {
  }

  lemma ShowsNext(
    state: map<Row, map<Text, Json>>, cells: map<Cell, Op>, open: Opener, done: set<Row>, row: Row,
    shown: Option<map<Text, Json>>)
    requires Shows(state, cells, open, done)
    requires shown.Some? <==> Visible(cells, row)
    requires shown.Some? ==> ShowsRow(shown.value, cells, open, row)
    ensures Shows(if shown.Some? then state[row := shown.value] else state, cells, open, done + {row})
  {
  }

  lemma ShowsAll(state: map<Row, map<Text, Json>>, cells: map<Cell, Op>, open: Opener, done: set<Row>)
    requires Shows(state, cells, open, done) && forall c <- cells :: RowOf(c) in done
    ensures ShowsDump(state, Dump(cells, open))
  {
    forall c ensures (RowOf(c) in state && c.column in state[RowOf(c)]) <==> c in Dump(cells, open).values {
      if RowOf(c) in state { assert ShowsRow(state[RowOf(c)], cells, open, RowOf(c)); }
    }
  }

  /** What a store is opened as is the replica that filled it, with the clock in memory lost. */
  lemma ReopenIsRestart(e: SyncEngine)
    ensures Stored(e.storage) == Restart(e.View())
  {
  }
}
