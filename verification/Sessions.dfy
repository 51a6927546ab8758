/** Two engines synchronising, and why what one sends the other can always be verified. */
module Sessions {
  import opened Texts
  import opened Hlcs
  import opened Clocks
  import opened Ops
  import opened Replicas
  import opened OpOrder
  import opened SyncRuns
  import opened Storage
  import opened Engine

  /** No two of the keys in play hash to the same device id. There are more keys than ids, so this can only be
      asked of a finite set. */
  ghost predicate CollisionFree(crypto: Crypto, known: set<Key>) {
    forall k, l | k in known && l in known && crypto.idOf(k) == crypto.idOf(l) :: k == l
  }

  /** The directory holds keys in play only. */
  ghost predicate Drawn(keys: map<Device, Key>, known: set<Key>) {
    forall d <- keys :: keys[d] in known
  }

  /** Every retained operation is well formed and verifies under the keys held. */
  ghost predicate Verifiable(crypto: Crypto, keys: map<Device, Key>, log: set<Op>) {
    forall o <- log :: Admissible(o) && Authentic(crypto, keys, o)
  }

  /** The operation is well formed and signed with the one key in play that hashes to its device. */
  ghost predicate Honest(crypto: Crypto, known: set<Key>, o: Op) {
    Admissible(o) && OwnerSigned(crypto, known, o)
  }

  ghost predicate OwnerSigned(crypto: Crypto, known: set<Key>, o: Op) {
    exists key <- known :: crypto.idOf(key) == o.hlc.device && Signed(crypto, key, o)
  }

  function WireOf(ops: seq<Op>): seq<WireOp> {
    seq(|ops|, i requires 0 <= i < |ops| => ToWire(ops[i]))
  }

  // ---------- what keeps a log verifiable ----------

  lemma SameKey(crypto: Crypto, known: set<Key>, keys: map<Device, Key>, others: map<Device, Key>, d: Device)
    requires CollisionFree(crypto, known) && Drawn(keys, known) && Drawn(others, known)
    requires Directory(crypto, keys) && Directory(crypto, others) && d in keys && d in others
    ensures keys[d] == others[d]
  {
  }

  /** More keys never hurt: an id has one key in play. */
  lemma MoreKeys(crypto: Crypto, known: set<Key>, keys: map<Device, Key>, more: map<Device, Key>, log: set<Op>)
    requires CollisionFree(crypto, known) && Drawn(keys, known) && Drawn(more, known)
    requires Directory(crypto, keys) && Directory(crypto, more)
    requires keys.Keys <= more.Keys && Verifiable(crypto, keys, log)
    ensures Verifiable(crypto, more, log)
  {
    hide Admissible, Signed;
    forall o <- log ensures Authentic(crypto, more, o) {
      SameKey(crypto, known, keys, more, o.hlc.device);
    }
  }

  /** An honest operation verifies exactly where its device's key is held. */
  lemma HonestIsAuthentic(crypto: Crypto, known: set<Key>, keys: map<Device, Key>, o: Op)
    requires CollisionFree(crypto, known) && Drawn(keys, known) && Directory(crypto, keys)
    requires OwnerSigned(crypto, known, o)
    ensures Authentic(crypto, keys, o) <==> o.hlc.device in keys
  {
    hide Signed;
    if o.hlc.device in keys {
      var key :| key in known && crypto.idOf(key) == o.hlc.device && Signed(crypto, key, o);
      assert keys[o.hlc.device] == key;
    }
  }

  lemma VerifiableIsHonest(crypto: Crypto, known: set<Key>, keys: map<Device, Key>, log: set<Op>)
    requires Drawn(keys, known) && Directory(crypto, keys) && Verifiable(crypto, keys, log)
    ensures forall o <- log :: Honest(crypto, known, o) && o.hlc.device in keys
  {
    hide Admissible, Signed;
    forall o <- log ensures OwnerSigned(crypto, known, o) && o.hlc.device in keys {
      assert keys[o.hlc.device] in known;
    }
  }

  lemma SignatureNotSigned(o: Op, sig: Text)
    ensures SignedPayload(ToWire(o.(sig := sig))) == SignedPayload(ToWire(o))
  {
    assert Unsigned(ToWire(o.(sig := sig))) == Unsigned(ToWire(o));
  }

  lemma {:induction false} OwnOpsVerify(
    c: Clock, d: Device, drafts: seq<Draft>, crypto: Crypto, cipher: Option<Cipher>, key: DeviceKey, o: Op)
    requires KeyPair(crypto, key) && MakeLocalOps(c, d, drafts, AuthorOf(crypto, cipher, key.privateKey)).Made?
    requires o in MakeLocalOps(c, d, drafts, AuthorOf(crypto, cipher, key.privateKey)).ops
    ensures Admissible(o) && Signed(crypto, key.publicKey, o) && o.hlc.device == d
  {
    var author := AuthorOf(crypto, cipher, key.privateKey);
    var before := MakeLocalOps(c, d, drafts[..|drafts| - 1], author);
    if o in before.ops {
      OwnOpsVerify(c, d, drafts[..|drafts| - 1], crypto, cipher, key, o);
    } else {
      SignatureNotSigned(Op(o.cell, o.value, o.hlc, []), o.sig);
    }
  }

  /** What a replica writes verifies under its own key. */
  lemma WriteVerifiable(
    r: Replica, d: Device, drafts: seq<Draft>, crypto: Crypto, cipher: Option<Cipher>, key: DeviceKey,
    keys: map<Device, Key>)
    requires KeyPair(crypto, key) && d in keys && keys[d] == key.publicKey && Verifiable(crypto, keys, r.log)
    ensures Verifiable(crypto, keys, Write(r, d, drafts, AuthorOf(crypto, cipher, key.privateKey)).0.log)
  {
    var made := MakeLocalOps(r.clock, d, drafts, AuthorOf(crypto, cipher, key.privateKey));
    if made.Made? {
      forall o <- OpSet(made.ops) ensures Admissible(o) && Authentic(crypto, keys, o) {
        OwnOpsVerify(r.clock, d, drafts, crypto, cipher, key, o);
      }
    }
  }

  /** What a replica takes in verifies, whoever sent it. */
  lemma MergeVerifiable(r: Replica, wire: seq<WireOp>, pt: int, crypto: Crypto, keys: map<Device, Key>)
    requires Verifiable(crypto, keys, r.log) && Admitted(crypto, keys, wire).Some?
    ensures Verifiable(crypto, keys, Merge(r, Admitted(crypto, keys, wire).value, pt).0.log)
  {
    hide Admissible, ValidateOp, Signed, ReceiveBatch;
    var ops := Admitted(crypto, keys, wire).value;
    FreshFrom(r.log, ops);
    forall o <- OpSet(FreshOps(r.log, ops)) ensures Admissible(o) && Authentic(crypto, keys, o) {
      var i :| 0 <= i < |ops| && ops[i] == o;
      assert wire[i] in wire;
      AdmittedIsAdmissible(wire[i]);
    }
  }

  lemma AdmittedIsAdmissible(w: WireOp)
    requires ValidateOp(w).Valid?
    ensures Admissible(ValidateOp(w).op)
  {
    ValidateExactly(w);
  }

  lemma WireDecodes(o: Op)
    requires Admissible(o)
    ensures ValidateOp(ToWire(o)) == Validated.Valid(o)
  {
    ValidateExactly(ToWire(o));
  }

  /** A batch of honest operations is admitted exactly when it is not too large and the key of every writer is
      held: nothing else can be wrong with it. */
  lemma AdmittedExactly(crypto: Crypto, known: set<Key>, keys: map<Device, Key>, ops: seq<Op>)
    requires CollisionFree(crypto, known) && Drawn(keys, known) && Directory(crypto, keys)
    requires forall o <- ops :: Honest(crypto, known, o)
    ensures Admitted(crypto, keys, WireOf(ops)) ==
              if |ops| <= MAX_BATCH_OPS && (forall o <- ops :: o.hlc.device in keys) then Some(ops) else None
  {
    hide Admissible, ValidateOp, Authentic, OwnerSigned;
    var wire := WireOf(ops);
    forall i | 0 <= i < |ops|
      ensures ValidateOp(wire[i]) == Validated.Valid(ops[i])
      ensures Trusted(crypto, keys, wire[i]) <==> ops[i].hlc.device in keys
    {
      assert ops[i] in ops;
      WireDecodes(ops[i]);
      HonestIsAuthentic(crypto, known, keys, ops[i]);
    }
    if forall o <- ops :: o.hlc.device in keys {
      forall w <- wire ensures Trusted(crypto, keys, w) {
        var i :| 0 <= i < |ops| && wire[i] == w;
        assert ops[i] in ops;
      }
      assert |ops| <= MAX_BATCH_OPS ==> Admitted(crypto, keys, wire).value == ops;
    } else {
      var o :| o in ops && o.hlc.device !in keys;
      var i :| 0 <= i < |ops| && ops[i] == o;
      assert wire[i] in wire;
    }
  }

  /** In particular a batch of a verifiable log is admitted by everyone who holds the sender's keys: no unknown
      device, no bad signature, no malformed operation. */
  lemma AnswerAdmitted(
    crypto: Crypto, known: set<Key>, keys: map<Device, Key>, log: set<Op>, others: map<Device, Key>, ops: seq<Op>)
    requires CollisionFree(crypto, known) && Drawn(keys, known) && Drawn(others, known)
    requires Directory(crypto, keys) && Directory(crypto, others)
    requires Verifiable(crypto, keys, log) && OpSet(ops) <= log && |ops| <= MAX_BATCH_OPS
    requires keys.Keys <= others.Keys
    ensures Admitted(crypto, others, WireOf(ops)) == Some(ops)
  {
    hide Verifiable, Honest, CollisionFree, Directory, Drawn, Admitted;
    VerifiableIsHonest(crypto, known, keys, log);
    assert forall o <- ops :: o in OpSet(ops);
    AdmittedExactly(crypto, known, others, ops);
  }

  // ---------- syncOnce ----------

  /** The entries that hash to their ids. */
  function Genuine(crypto: Crypto, keys: map<Device, Key>): map<Device, Key> {
    map d | d in keys && crypto.idOf(keys[d]) == d :: keys[d]
  }

  /** A directory after it took over another but for some entries. */
  function Learned(crypto: Crypto, own: map<Device, Key>, keys: map<Device, Key>, todo: set<Device>): map<Device, Key> {
    own + Genuine(crypto, keys - todo)
  }

  lemma LearnStep(crypto: Crypto, own: map<Device, Key>, keys: map<Device, Key>, todo: set<Device>, d: Device)
    requires d in todo && todo <= keys.Keys
    ensures Learned(crypto, own, keys, todo - {d}) ==
              if crypto.idOf(keys[d]) == d then Learned(crypto, own, keys, todo)[d := keys[d]]
              else Learned(crypto, own, keys, todo)
  {
    var more, less := Genuine(crypto, keys - (todo - {d})), Genuine(crypto, keys - todo);
    assert more == if crypto.idOf(keys[d]) == d then less[d := keys[d]] else less;
  }

  lemma LearnEnds(crypto: Crypto, own: map<Device, Key>, keys: map<Device, Key>)
    ensures Learned(crypto, own, keys, keys.Keys) == own
    ensures Learned(crypto, own, keys, {}) == own + Genuine(crypto, keys)
  {
    assert keys - {} == keys;
  }

  /** Takes over a directory; what does not hash to its id is ignored. */
  method LearnAll(e: SyncEngine, keys: map<Device, Key>)
    requires Directory(e.crypto, e.keys)
    modifies e`keys
    ensures Directory(e.crypto, e.keys)
    ensures e.keys == old(e.keys) + Genuine(e.crypto, keys)
  {
    hide Learned, Genuine, Directory;
    LearnEnds(e.crypto, e.keys, keys);
    var todo := keys.Keys;
    while todo != {}
      invariant todo <= keys.Keys && Directory(e.crypto, e.keys)
      invariant e.keys == Learned(e.crypto, old(e.keys), keys, todo)
      decreases |todo|
    {
      var d :| d in todo;
      LearnStep(e.crypto, old(e.keys), keys, todo, d);
      var _ := e.LearnKey(d, keys[d]);
      todo := todo - {d};
    }
  }

  lemma AllGenuine(crypto: Crypto, keys: map<Device, Key>)
    requires Directory(crypto, keys)
    ensures Genuine(crypto, keys) == keys
  {
  }

  /** What a batch makes of a replica that holds `keys`; an empty one is not sent. */
  function Offer(r: Replica, crypto: Crypto, keys: map<Device, Key>, ops: seq<Op>, pt: int): (Replica, Outcome) {
    if ops == [] then (r, Applied(0)) else RemoteApplied(r, crypto, keys, WireOf(ops), pt)
  }

  /** A sync of two replicas that hold the same directory, signatures and all. */
  ghost function SyncWith(
    crypto: Crypto, keys: map<Device, Key>, a: Replica, idA: Device, b: Replica, idB: Device, ptA: int, ptB: int)
    : Synced
  {
    var toB := Offer(b, crypto, keys, OpOrder.OpsSince(a.log, b.frontier), ptB);
    if toB.1.Failed? then Synced(a, toB.0, false)
    else
      var toA := Offer(a, crypto, keys, OpOrder.OpsSince(b.log, a.frontier), ptA);
      if toA.1.Failed? then Synced(toA.0, toB.0, false)
      else
        Synced(RecordPeer(toA.0, idA, idB, toB.0.frontier), RecordPeer(toB.0, idB, idA, toA.0.frontier), true)
  }

  method Send(to: SyncEngine, ops: seq<Op>, pt: int) returns (o: Outcome)
    requires to.Valid()
    modifies to.storage, to.clock
    ensures to.Valid()
    ensures (to.View(), o) == Offer(old(to.View()), to.crypto, to.keys, ops, pt)
  {
    hide Merge, Ready, Keyed, Trimmed, Admitted;
    if ops == [] { return Applied(0); }
    o := to.ApplyRemoteOps(WireOf(ops), pt);
  }

  /** Both directories meet first. */
  method MeetKeys(a: SyncEngine, b: SyncEngine)
    requires a != b && a.crypto == b.crypto && a.Valid() && b.Valid()
    modifies a`keys, b`keys
    ensures a.Valid() && b.Valid() && a.View() == old(a.View()) && b.View() == old(b.View())
    ensures a.keys == b.keys == old(b.keys) + old(a.keys)
  {
    hide Ready, Keyed, Trimmed, Contents, Flat, Genuine;
    AllGenuine(a.crypto, a.keys);
    LearnAll(b, a.keys);
    AllGenuine(b.crypto, b.keys);
    LearnAll(a, b.keys);
    assert a.keys == b.keys;
  }

  /** One full bidirectional sync of any two engines: keys, then both diffs, then the recording of frontiers. */
  method SyncOnce(a: SyncEngine, b: SyncEngine, ptA: int, ptB: int) returns (complete: bool)
    requires a != b && a.storage != b.storage && a.clock != b.clock && a.crypto == b.crypto
    requires a.Valid() && b.Valid()
    modifies a, a.storage, a.clock, b, b.storage, b.clock
    ensures a.Valid() && b.Valid()
    ensures a.keys == b.keys == old(b.keys) + old(a.keys)
    ensures Synced(a.View(), b.View(), complete)
         == SyncWith(a.crypto, a.keys, old(a.View()), a.deviceId, old(b.View()), b.deviceId, ptA, ptB)
  {
    hide Offer, Ready, Keyed, Trimmed, Contents, Flat, OpOrder.OpsSince, Directory;
    MeetKeys(a, b);
    var fa, fb := a.storage.frontier, b.storage.frontier;
    var aToB := a.storage.OpsSince(fb);
    var bToA := b.storage.OpsSince(fa);
    var sent := Send(b, aToB, ptB);
    if sent.Failed? { return false; }
    var received := Send(a, bToA, ptA);
    if received.Failed? { return false; }
    a.RecordPeerFrontier(b.deviceId, b.storage.frontier);
    b.RecordPeerFrontier(a.deviceId, a.storage.frontier);
    complete := true;
  }

  lemma DiffIsLogged(log: set<Op>, have: Frontier)
    ensures OpSet(OpOrder.OpsSince(log, have)) <= log
  {
    OpsSinceContents(log, have);
  }

  // ---------- honest logs ----------

  lemma OfferIsAccept(r: Replica, crypto: Crypto, known: set<Key>, keys: map<Device, Key>, ops: seq<Op>, pt: int)
    requires CollisionFree(crypto, known) && Drawn(keys, known) && Directory(crypto, keys)
    requires forall o <- ops :: Honest(crypto, known, o)
    ensures Offer(r, crypto, keys, ops, pt) == Accept(r, ops, keys.Keys, pt)
  {
    hide Honest, CollisionFree, Directory, Drawn, Admitted, Merge;
    AdmittedExactly(crypto, known, keys, ops);
  }

  ghost predicate HonestLog(crypto: Crypto, known: set<Key>, log: set<Op>) {
    forall o <- log :: Honest(crypto, known, o)
  }

  /** Between honest logs a sync is the pure sync in which exactly the devices of the united directories are
      known: a diff is refused for a key precisely when one of its writers is in neither directory. */
  lemma HonestSync(
    crypto: Crypto, known: set<Key>, keys: map<Device, Key>, a: Replica, idA: Device, b: Replica, idB: Device,
    ptA: int, ptB: int)
    requires CollisionFree(crypto, known) && Drawn(keys, known) && Directory(crypto, keys)
    requires HonestLog(crypto, known, a.log) && HonestLog(crypto, known, b.log)
    ensures SyncWith(crypto, keys, a, idA, b, idB, ptA, ptB) == SyncPair(a, idA, b, idB, keys.Keys, ptA, ptB)
  {
    hide Honest, CollisionFree, Directory, Drawn, Offer, Accept, OpOrder.OpsSince;
    var toB, toA := OpOrder.OpsSince(a.log, b.frontier), OpOrder.OpsSince(b.log, a.frontier);
    DiffIsLogged(a.log, b.frontier);
    DiffIsLogged(b.log, a.frontier);
    assert forall o <- toB :: o in OpSet(toB);
    assert forall o <- toA :: o in OpSet(toA);
    OfferIsAccept(b, crypto, known, keys, toB, ptB);
    OfferIsAccept(a, crypto, known, keys, toA, ptA);
  }

  /** A foreign operation in the first diff stops the sync before anything changed. */
  lemma ForeignStopsSync(
    a: Replica, idA: Device, b: Replica, idB: Device, devices: set<Device>, ptA: int, ptB: int, o: Op)
    requires o in Diff(a.log, b.frontier) && o.hlc.device !in devices
    ensures SyncPair(a, idA, b, idB, devices, ptA, ptB) == Synced(a, b, false)
  {
    hide Merge, OpOrder.OpsSince;
    OpsSinceContents(a.log, b.frontier);
    assert o in OpSet(OpOrder.OpsSince(a.log, b.frontier));
  }

  // ---------- after a restart ----------

  /** A replica that was just opened admits an honest batch exactly when it is all its own. */
  lemma ReopenedKnowsNobody(crypto: Crypto, known: set<Key>, key: Key, ops: seq<Op>)
    requires CollisionFree(crypto, known) && key in known && forall o <- ops :: Honest(crypto, known, o)
    ensures Admitted(crypto, map[crypto.idOf(key) := key], WireOf(ops)).Some? <==>
              |ops| <= MAX_BATCH_OPS && forall o <- ops :: o.hlc.device == crypto.idOf(key)
  {
    AdmittedExactly(crypto, known, map[crypto.idOf(key) := key], ops);
  }

  lemma TwoKeys(known: set<Key>, d: Device, k: Key, e: Device, l: Key)
    requires k in known && l in known
    ensures var keys := map[e := l] + map[d := k]; Drawn(keys, known) && keys.Keys == {d, e}
  {
  }

  /** Two engines that hold their own keys only. */
  method SyncOpened(a: SyncEngine, b: SyncEngine, ptA: int, ptB: int, ghost known: set<Key>) returns (complete: bool)
    requires a != b && a.storage != b.storage && a.clock != b.clock && a.crypto == b.crypto
    requires a.Valid() && b.Valid() && CollisionFree(a.crypto, known)
    requires a.keys == map[a.deviceId := a.deviceKey.publicKey] && a.deviceKey.publicKey in known
    requires b.keys == map[b.deviceId := b.deviceKey.publicKey] && b.deviceKey.publicKey in known
    requires HonestLog(a.crypto, known, a.View().log) && HonestLog(a.crypto, known, b.View().log)
    modifies a, a.storage, a.clock, b, b.storage, b.clock
    ensures Synced(a.View(), b.View(), complete)
         == SyncPair(old(a.View()), a.deviceId, old(b.View()), b.deviceId, {a.deviceId, b.deviceId}, ptA, ptB)
  {
    hide Ready, Keyed, Trimmed, Contents, Flat, HonestLog, SyncWith, SyncPair, CollisionFree, Drawn, Directory;
    ghost var ra, rb := a.View(), b.View();
    TwoKeys(known, a.deviceId, a.deviceKey.publicKey, b.deviceId, b.deviceKey.publicKey);
    complete := SyncOnce(a, b, ptA, ptB);
    HonestSync(a.crypto, known, a.keys, ra, a.deviceId, rb, b.deviceId, ptA, ptB);
  }

  /** Two stores are opened again and synchronise, nobody else having told them anything: over honest logs this
      is the pure sync in which only the two devices themselves are known, so one foreign operation in the first
      diff is enough to refuse it (`ForeignStopsSync`). */
  method ReopenAndSync(
    storageA: MemoryAdapter, newA: DeviceKey, storageB: MemoryAdapter, newB: DeviceKey,
    crypto: Crypto, cipher: Option<Cipher>, ptA: int, ptB: int, ghost known: set<Key>)
    returns (complete: bool, a: Option<SyncEngine>, b: Option<SyncEngine>)
    requires storageA != storageB
    requires storageA.Valid() && Ready(Stored(storageA)) && storageB.Valid() && Ready(Stored(storageB))
    requires HonestLog(crypto, known, storageA.Log()) && HonestLog(crypto, known, storageB.Log())
    requires CollisionFree(crypto, known) && newA.publicKey in known && newB.publicKey in known
    requires storageA.deviceKey.Some? ==> storageA.deviceKey.value.publicKey in known
    requires storageB.deviceKey.Some? ==> storageB.deviceKey.value.publicKey in known
    modifies storageA, storageB
    ensures a.Some? && b.Some? ==>
      && Synced(a.value.View(), b.value.View(), complete)
      == SyncPair(old(Stored(storageA)), a.value.deviceId, old(Stored(storageB)), b.value.deviceId,
                  {a.value.deviceId, b.value.deviceId}, ptA, ptB)
  {
    hide Ready, Keyed, Trimmed, Contents, Flat, HonestLog, SyncPair, CollisionFree, Directory;
    complete := false;
    a := SyncEngine.Open(storageA, newA, crypto, cipher);
    b := SyncEngine.Open(storageB, newB, crypto, cipher);
    if a.None? || b.None? { return; }
    complete := SyncOpened(a.value, b.value, ptA, ptB, known);
  }

  /** Logs that their own directories verify are honest, and united the directories know every writer: such a
      sync refuses nothing for a key or a signature, and both sides can verify what they then hold. */
  lemma VerifiableSync(
    crypto: Crypto, known: set<Key>, keysA: map<Device, Key>, keysB: map<Device, Key>,
    a: Replica, idA: Device, b: Replica, idB: Device, ptA: int, ptB: int)
    requires CollisionFree(crypto, known) && Drawn(keysA, known) && Drawn(keysB, known)
    requires Directory(crypto, keysA) && Directory(crypto, keysB)
    requires Verifiable(crypto, keysA, a.log) && Verifiable(crypto, keysB, b.log)
    ensures var keys := keysB + keysA; var t := SyncWith(crypto, keys, a, idA, b, idB, ptA, ptB);
      && t == SyncPair(a, idA, b, idB, keys.Keys, ptA, ptB)
      && (forall o <- a.log + b.log :: o.hlc.device in keys)
      && Verifiable(crypto, keys, t.a.log) && Verifiable(crypto, keys, t.b.log)
  {
    hide Honest, CollisionFree, Verifiable, SyncPair, Offer, OpOrder.OpsSince;
    var keys := keysB + keysA;
    VerifiableIsHonest(crypto, known, keysA, a.log);
    VerifiableIsHonest(crypto, known, keysB, b.log);
    MoreKeys(crypto, known, keysA, keys, a.log);
    MoreKeys(crypto, known, keysB, keys, b.log);
    HonestSync(crypto, known, keys, a, idA, b, idB, ptA, ptB);
    OfferVerifiable(b, crypto, keys, OpOrder.OpsSince(a.log, b.frontier), ptB);
    OfferVerifiable(a, crypto, keys, OpOrder.OpsSince(b.log, a.frontier), ptA);
  }

  lemma OfferVerifiable(r: Replica, crypto: Crypto, keys: map<Device, Key>, ops: seq<Op>, pt: int)
    requires Verifiable(crypto, keys, r.log)
    ensures Verifiable(crypto, keys, Offer(r, crypto, keys, ops, pt).0.log)
  {
    hide Verifiable, Admitted, Merge;
    if ops != [] && Admitted(crypto, keys, WireOf(ops)).Some? {
      MergeVerifiable(r, WireOf(ops), pt, crypto, keys);
    }
  }
}
