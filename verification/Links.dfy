/** Links that keep order: every answer to a question can be verified by the one who asked. */
module Links {
  import opened Texts
  import opened Hlcs
  import opened Ops
  import opened Replicas
  import Compaction
  import opened OpOrder
  import opened Catchup
  import opened Storage
  import opened Engine
  import opened Sessions
  import opened Replication

  /** `links[a][b]` holds what `a` sent and `b` has not received, oldest first. */
  datatype Net = Net(nodes: map<Device, Node>, links: map<Device, map<Device, seq<Msg>>>)

  datatype Step =
    | Deliver(from: Device, to: Device, pt: int)
    | LocalWrite(device: Device, drafts: seq<Draft>)
    | CompactLog(device: Device, gc: bool)
    | SayHello(device: Device)

  function Queue(net: Net, a: Device, b: Device): seq<Msg> {
    if a in net.links && b in net.links[a] then net.links[a][b] else []
  }

  /** Appends to every outgoing link of a node. */
  function Sent(net: Net, a: Device, msgs: seq<Msg>): map<Device, map<Device, seq<Msg>>> {
    net.links[a := map b | b in net.nodes :: Queue(net, a, b) + msgs]
  }

  function Shortened(out: map<Device, seq<Msg>>, b: Device, q: seq<Msg>): map<Device, seq<Msg>> {
    out[b := q]
  }

  function Popped(net: Net, a: Device, b: Device): Net
    requires Queue(net, a, b) != []
  {
    net.(links := net.links[a := Shortened(net.links[a], b, Queue(net, a, b)[1..])])
  }

  predicate Enabled(net: Net, step: Step) {
    match step
    case Deliver(a, b, _) => Queue(net, a, b) != [] && b in net.nodes
    case LocalWrite(d, _) => d in net.nodes
    case CompactLog(d, _) => d in net.nodes
    case SayHello(d) => d in net.nodes
  }

  /** What a local write makes of a node: the live tail goes out to everyone. */
  function Written(n: Node, crypto: Crypto, drafts: seq<Draft>): (Node, seq<Msg>) {
    var author := AuthorOf(crypto, n.cipher, n.deviceKey.privateKey);
    var (r, o) := Write(n.replica, n.id, drafts, author);
    var out := if o.Applied? && n.started
               then ChunkMsgs(n, None, MakeLocalOps(n.replica.clock, n.id, drafts, author).ops)
               else [];
    (n.(replica := r), out)
  }

  function Update(net: Net, d: Device, out: (Node, seq<Msg>)): Net {
    net.(nodes := net.nodes[d := out.0], links := Sent(net, d, out.1))
  }

  ghost function Next(net: Net, crypto: Crypto, step: Step): Net
    requires Enabled(net, step)
  {
    match step
    case Deliver(a, b, pt) =>
      Update(Popped(net, a, b), b, Received(net.nodes[b], crypto, Queue(net, a, b)[0], pt))
    case LocalWrite(d, drafts) => Update(net, d, Written(net.nodes[d], crypto, drafts))
    case CompactLog(d, gc) =>
      net.(nodes := net.nodes[d := net.nodes[d].(replica := Compaction.Compact(net.nodes[d].replica, gc))])
    case SayHello(d) => Update(net, d, (net.nodes[d], [HelloMsg(net.nodes[d])]))
  }

  // ---------- sessions ----------

  /** A started node that can verify all it holds; its keys are in play. */
  ghost predicate Sane(n: Node, d: Device, space: Text, crypto: Crypto, known: set<Key>) {
    && n.id == d && n.started && n.space == space
    && Directory(crypto, n.keys) && Drawn(n.keys, known) && KeyPair(crypto, n.deviceKey)
    && d in n.keys && n.keys[d] == n.deviceKey.publicKey
    && Verifiable(crypto, n.keys, n.replica.log)
  }

  ghost predicate Vouched(crypto: Crypto, known: set<Key>, ids: set<Device>, w: WireOp) {
    && ValidateOp(w).Valid?
    && OwnerSigned(crypto, known, ValidateOp(w).op) && ValidateOp(w).op.hlc.device in ids
  }

  ghost predicate Answers(crypto: Crypto, known: set<Key>, ids: set<Device>, wire: seq<WireOp>) {
    |wire| <= MAX_BATCH_OPS && forall w <- wire :: Vouched(crypto, known, ids, w)
  }

  /** Reading a queue from the front, `t` knows every writer's key before it meets an operation sent to it. */
  ghost predicate Provided(crypto: Crypto, known: set<Key>, t: Device, ids: set<Device>, q: seq<Msg>)
    decreases |q|
  {
    q == [] ||
    if q[0].to == Some(t) && q[0].body.Keys? then
      Directory(crypto, q[0].body.keys) && Provided(crypto, known, t, ids + q[0].body.keys.Keys, q[1..])
    else
      && (q[0].to == Some(t) && q[0].body.OpsBatch? ==> Answers(crypto, known, ids, q[0].body.ops))
      && Provided(crypto, known, t, ids, q[1..])
  }

  /** The keys a message brings are in play. */
  ghost predicate Clean(m: Msg, known: set<Key>) {
    match m.body
    case Hello(_, key) => key in known
    case Keys(keys) => Drawn(keys, known)
    case _ => true
  }

  ghost predicate Stamped(q: seq<Msg>, a: Device, space: Text, known: set<Key>) {
    forall m <- q :: m.from == a && m.version == WIRE_VERSION && m.space == space && Clean(m, known)
  }

  ghost predicate LinkOk(net: Net, crypto: Crypto, known: set<Key>, space: Text, a: Device, b: Device)
    requires b in net.nodes
  {
    && Stamped(Queue(net, a, b), a, space, known)
    && (a != b ==> Provided(crypto, known, b, net.nodes[b].keys.Keys, Queue(net, a, b)))
  }

  ghost predicate SaneAt(net: Net, crypto: Crypto, known: set<Key>, space: Text, d: Device)
    requires d in net.nodes
  {
    Sane(net.nodes[d], d, space, crypto, known)
  }

  ghost predicate Inv(net: Net, crypto: Crypto, known: set<Key>, space: Text) {
    && (forall d <- net.nodes :: SaneAt(net, crypto, known, space, d))
    && forall a, b | a in net.nodes && b in net.nodes :: LinkOk(net, crypto, known, space, a, b)
  }

  ghost predicate Initial(net: Net, crypto: Crypto, known: set<Key>, space: Text) {
    net.links == map[] && forall d <- net.nodes :: SaneAt(net, crypto, known, space, d)
  }

  ghost predicate IsRun(nets: seq<Net>, crypto: Crypto, known: set<Key>, space: Text, steps: seq<Step>) {
    && |nets| == |steps| + 1
    && Initial(nets[0], crypto, known, space)
    && forall i {:trigger steps[i]} | 0 <= i < |steps| ::
         Enabled(nets[i], steps[i]) && nets[i + 1] == Next(nets[i], crypto, steps[i])
  }

  // ---------- queues ----------

  lemma {:induction false} ProvidedMore(
    crypto: Crypto, known: set<Key>, t: Device, ids: set<Device>, more: set<Device>, q: seq<Msg>)
    requires Provided(crypto, known, t, ids, q) && ids <= more
    ensures Provided(crypto, known, t, more, q)
    decreases |q|
  {
    hide ValidateOp, OwnerSigned, Directory;
    if q != [] {
      if q[0].to == Some(t) && q[0].body.Keys? {
        ProvidedMore(crypto, known, t, ids + q[0].body.keys.Keys, more + q[0].body.keys.Keys, q[1..]);
      } else {
        ProvidedMore(crypto, known, t, ids, more, q[1..]);
      }
    }
  }

  lemma {:induction false} ProvidedAppend(
    crypto: Crypto, known: set<Key>, t: Device, ids: set<Device>, q: seq<Msg>, out: seq<Msg>)
    requires Provided(crypto, known, t, ids, q) && Provided(crypto, known, t, {}, out)
    ensures Provided(crypto, known, t, ids, q + out)
    decreases |q|
  {
    hide Answers, Directory;
    if q == [] {
      assert q + out == out;
      ProvidedMore(crypto, known, t, {}, ids, out);
    } else {
      assert (q + out)[1..] == q[1..] + out;
      if q[0].to == Some(t) && q[0].body.Keys? {
        ProvidedAppend(crypto, known, t, ids + q[0].body.keys.Keys, q[1..], out);
      } else {
        ProvidedAppend(crypto, known, t, ids, q[1..], out);
      }
    }
  }

  lemma {:induction false} NotForT(crypto: Crypto, known: set<Key>, t: Device, ids: set<Device>, q: seq<Msg>)
    requires forall m <- q :: m.to != Some(t)
    ensures Provided(crypto, known, t, ids, q)
    decreases |q|
  {
    if q != [] { NotForT(crypto, known, t, ids, q[1..]); }
  }

  lemma {:induction false} CarriesNothing(crypto: Crypto, known: set<Key>, t: Device, ids: set<Device>, q: seq<Msg>)
    requires forall m <- q :: !m.body.Keys? && !m.body.OpsBatch?
    ensures Provided(crypto, known, t, ids, q)
    decreases |q|
  {
    if q != [] { CarriesNothing(crypto, known, t, ids, q[1..]); }
  }

  lemma {:induction false} BatchesProvided(crypto: Crypto, known: set<Key>, t: Device, ids: set<Device>, q: seq<Msg>)
    requires forall m <- q :: m.body.OpsBatch? && Answers(crypto, known, ids, m.body.ops)
    ensures Provided(crypto, known, t, ids, q)
    decreases |q|
  {
    hide Answers;
    if q != [] { BatchesProvided(crypto, known, t, ids, q[1..]); }
  }

  // ---------- what nodes send ----------

  lemma VouchedWire(n: Node, crypto: Crypto, known: set<Key>, o: Op)
    requires Directory(crypto, n.keys) && Drawn(n.keys, known) && Admissible(o) && Authentic(crypto, n.keys, o)
    ensures Vouched(crypto, known, n.keys.Keys, ToWire(o))
  {
    hide Admissible, Signed, ValidateOp;
    WireDecodes(o);
    assert n.keys[o.hlc.device] in known;
  }

  lemma ChunksAnswer(n: Node, crypto: Crypto, known: set<Key>, to: Option<Device>, ops: seq<Op>)
    requires Directory(crypto, n.keys) && Drawn(n.keys, known) && Verifiable(crypto, n.keys, n.replica.log)
    requires OpSet(ops) <= n.replica.log
    ensures forall m <- ChunkMsgs(n, to, ops) :: m.body.OpsBatch? && Answers(crypto, known, n.keys.Keys, m.body.ops)
  {
    hide Admissible, Authentic, Vouched, Directory, Drawn;
    forall m <- ChunkMsgs(n, to, ops) ensures m.body.OpsBatch? && Answers(crypto, known, n.keys.Keys, m.body.ops) {
      var k :| 0 <= k < ChunkCount(|ops|, OPS_PER_MESSAGE) && m == ChunkMsgs(n, to, ops)[k];
      var chunk := Chunk(ops, OPS_PER_MESSAGE, k);
      forall w <- WireOf(chunk) ensures Vouched(crypto, known, n.keys.Keys, w) {
        var i :| 0 <= i < |chunk| && w == ToWire(chunk[i]);
        assert chunk[i] in OpSet(ops);
        VouchedWire(n, crypto, known, chunk[i]);
      }
    }
  }

  ghost predicate Fit(n: Node, crypto: Crypto, known: set<Key>, out: seq<Msg>) {
    && Stamped(out, n.id, n.space, known)
    && forall t {:trigger Provided(crypto, known, t, {}, out)} :: Provided(crypto, known, t, {}, out)
  }

  lemma NothingFits(n: Node, crypto: Crypto, known: set<Key>)
    ensures Fit(n, crypto, known, [])
  {
  }

  lemma AnswerFits(q: Node, crypto: Crypto, known: set<Key>, to: Device, missing: seq<Op>)
    requires Directory(crypto, q.keys) && Drawn(q.keys, known) && Verifiable(crypto, q.keys, q.replica.log)
    requires OpSet(missing) <= q.replica.log && missing != []
    ensures Fit(q, crypto, known, [KeysMsg(q, to)] + ChunkMsgs(q, Some(to), missing))
  {
    hide Verifiable, Directory, Answers;
    var msgs := ChunkMsgs(q, Some(to), missing);
    var out := [KeysMsg(q, to)] + msgs;
    ChunksAnswer(q, crypto, known, Some(to), missing);
    assert out[1..] == msgs;
    forall t ensures Provided(crypto, known, t, {}, out) {
      if t == to {
        assert {} + q.keys.Keys == q.keys.Keys;
        BatchesProvided(crypto, known, t, q.keys.Keys, msgs);
      } else {
        NotForT(crypto, known, t, {}, out);
      }
    }
  }

  lemma EmptyAnswerFits(q: Node, crypto: Crypto, to: Device)
    ensures [] + ChunkMsgs(q, Some(to), []) == []
  {
  }

  lemma SinceFits(n: Node, crypto: Crypto, known: set<Key>, m: Msg)
    requires Directory(crypto, n.keys) && Drawn(n.keys, known) && Verifiable(crypto, n.keys, n.replica.log)
    requires m.body.Since?
    ensures Fit(OnSince(n, m).0, crypto, known, OnSince(n, m).1)
  {
    hide Verifiable, Directory, Fit, ChunkMsgs, OpsSince;
    var q := Recorded(n, m, m.body.have);
    var missing := OpsSince(q.replica.log, m.body.have);
    DiffIsLogged(q.replica.log, m.body.have);
    if missing == [] {
      EmptyAnswerFits(q, crypto, m.from);
      NothingFits(q, crypto, known);
    } else {
      AnswerFits(q, crypto, known, m.from, missing);
    }
  }

  lemma GreetingFits(q: Node, crypto: Crypto, known: set<Key>, to: Device)
    requires Directory(crypto, q.keys) && Drawn(q.keys, known) && q.deviceKey.publicKey in known
    ensures Fit(q, crypto, known, [HelloMsg(q)])
    ensures Fit(q, crypto, known, [KeysMsg(q, to), SinceMsg(q, to)])
    ensures Fit(q, crypto, known, [HelloMsg(q), KeysMsg(q, to), SinceMsg(q, to)])
    ensures Fit(q, crypto, known, [AckMsg(q, to)])
  {
    hide Directory, Answers, LatestClock;
    var since, two, three := [SinceMsg(q, to)], [KeysMsg(q, to), SinceMsg(q, to)],
                             [HelloMsg(q), KeysMsg(q, to), SinceMsg(q, to)];
    assert two[1..] == since && three[1..] == two;
    forall t
      ensures Provided(crypto, known, t, {}, [HelloMsg(q)]) && Provided(crypto, known, t, {}, [AckMsg(q, to)])
      ensures Provided(crypto, known, t, {}, two) && Provided(crypto, known, t, {}, three)
    {
      CarriesNothing(crypto, known, t, {}, [HelloMsg(q)]);
      CarriesNothing(crypto, known, t, {}, [AckMsg(q, to)]);
      CarriesNothing(crypto, known, t, {}, since);
      CarriesNothing(crypto, known, t, {} + q.keys.Keys, since);
      assert Provided(crypto, known, t, {}, two);
    }
  }

  lemma TailFits(n: Node, crypto: Crypto, known: set<Key>, ops: seq<Op>)
    ensures Fit(n, crypto, known, ChunkMsgs(n, None, ops))
  {
    var out := ChunkMsgs(n, None, ops);
    forall t ensures Provided(crypto, known, t, {}, out) {
      NotForT(crypto, known, t, {}, out);
    }
  }

  // ---------- nodes stay sane ----------

  lemma MoreSane(n: Node, d: Device, space: Text, crypto: Crypto, known: set<Key>, keys: map<Device, Key>)
    requires Sane(n, d, space, crypto, known) && CollisionFree(crypto, known)
    requires Directory(crypto, keys) && Drawn(keys, known) && n.keys.Keys <= keys.Keys
    ensures Sane(n.(keys := keys), d, space, crypto, known)
  {
    hide Verifiable, KeyPair;
    MoreKeys(crypto, known, n.keys, keys, n.replica.log);
    SameKey(crypto, known, n.keys, keys, d);
  }

  lemma SameLogSane(n: Node, q: Node, d: Device, space: Text, crypto: Crypto, known: set<Key>)
    requires Sane(n, d, space, crypto, known) && q.replica.log <= n.replica.log
    requires q == n.(replica := q.replica, peers := q.peers)
    ensures Sane(q, d, space, crypto, known)
  {
    hide Admissible, Authentic, KeyPair, Directory, Drawn;
  }

  lemma HelloSane(n: Node, d: Device, space: Text, crypto: Crypto, known: set<Key>, m: Msg, pt: int)
    requires Sane(n, d, space, crypto, known) && CollisionFree(crypto, known) && m.body.Hello? && m.body.key in known
    ensures var (q, out) := OnHello(n, crypto, m, pt);
      Sane(q, d, space, crypto, known) && n.keys.Keys <= q.keys.Keys && Fit(q, crypto, known, out)
  {
    hide Verifiable, KeyPair, Decode, ObserveClock, HelloMsg, KeysMsg, SinceMsg, Fit, Sane;
    var (q, out) := OnHello(n, crypto, m, pt);
    var keys := if crypto.idOf(m.body.key) == m.from then n.keys[m.from := m.body.key] else n.keys;
    var met := n.(keys := keys);
    LearnedSane(n, d, space, crypto, known, m.from, m.body.key);
    match Decode(m.body.clock)
    case Malformed => NothingFits(q, crypto, known);
    case Timestamp(h) =>
      ObserveKeepsLog(met.replica, h, pt);
      SameLogSane(met, q, d, space, crypto, known);
      SaneDirectory(q, d, space, crypto, known);
      NothingFits(q, crypto, known);
      GreetingFits(q, crypto, known, m.from);
  }

  lemma SaneDirectory(n: Node, d: Device, space: Text, crypto: Crypto, known: set<Key>)
    requires Sane(n, d, space, crypto, known)
    ensures Directory(crypto, n.keys) && Drawn(n.keys, known) && Verifiable(crypto, n.keys, n.replica.log)
    ensures n.id == d && n.space == space && n.deviceKey.publicKey in known
  {
  }

  lemma LearnedSane(n: Node, d: Device, space: Text, crypto: Crypto, known: set<Key>, from: Device, key: Key)
    requires Sane(n, d, space, crypto, known) && CollisionFree(crypto, known) && key in known
    ensures var keys := if crypto.idOf(key) == from then n.keys[from := key] else n.keys;
      Sane(n.(keys := keys), d, space, crypto, known) && n.keys.Keys <= keys.Keys
  {
    hide Verifiable, KeyPair;
    MoreSane(n, d, space, crypto, known, if crypto.idOf(key) == from then n.keys[from := key] else n.keys);
  }

  lemma KeysSane(n: Node, d: Device, space: Text, crypto: Crypto, known: set<Key>, keys: map<Device, Key>)
    requires Sane(n, d, space, crypto, known) && CollisionFree(crypto, known) && Drawn(keys, known)
    ensures Sane(n.(keys := n.keys + Genuine(crypto, keys)), d, space, crypto, known)
  {
    hide Verifiable, KeyPair;
    MoreSane(n, d, space, crypto, known, n.keys + Genuine(crypto, keys));
  }

  lemma OpsSane(n: Node, d: Device, space: Text, crypto: Crypto, known: set<Key>, m: Msg, pt: int)
    requires Sane(n, d, space, crypto, known) && m.body.OpsBatch?
    ensures var (q, out) := OnOps(n, crypto, m, pt);
      Sane(q, d, space, crypto, known) && q.keys == n.keys && Fit(q, crypto, known, out)
  {
    hide Merge, Admitted, Verifiable, KeyPair, AckMsg, Fit, Directory;
    var (q, out) := OnOps(n, crypto, m, pt);
    NothingFits(q, crypto, known);
    GreetingFits(q, crypto, known, m.from);
    if Admitted(crypto, n.keys, m.body.ops).Some? {
      MergeVerifiable(n.replica, m.body.ops, pt, crypto, n.keys);
    }
  }

  lemma WrittenSane(n: Node, d: Device, space: Text, crypto: Crypto, known: set<Key>, drafts: seq<Draft>)
    requires Sane(n, d, space, crypto, known)
    ensures var (q, out) := Written(n, crypto, drafts);
      Sane(q, d, space, crypto, known) && q.keys == n.keys && Fit(q, crypto, known, out)
  {
    hide Replicas.Commit, MakeLocalOps, ChunkMsgs, Verifiable, KeyPair, Fit, Directory;
    var (q, out) := Written(n, crypto, drafts);
    NothingFits(q, crypto, known);
    WriteVerifiable(n.replica, d, drafts, crypto, n.cipher, n.deviceKey, n.keys);
    if out != [] {
      var made := MakeLocalOps(n.replica.clock, n.id, drafts, AuthorOf(crypto, n.cipher, n.deviceKey.privateKey));
      TailFromNode(n, q, None, made.ops);
      TailFits(q, crypto, known, made.ops);
    }
  }

  lemma TailFromNode(n: Node, q: Node, to: Option<Device>, ops: seq<Op>)
    requires q.space == n.space && q.id == n.id
    ensures ChunkMsgs(n, to, ops) == ChunkMsgs(q, to, ops)
  {
  }

  /** A node that receives stays sane, forgets no key, and sends nothing unprovided. */
  lemma ReceivedSane(n: Node, d: Device, space: Text, crypto: Crypto, known: set<Key>, m: Msg, pt: int)
    requires Sane(n, d, space, crypto, known) && CollisionFree(crypto, known) && Clean(m, known)
    ensures var (q, out) := Received(n, crypto, m, pt);
      Sane(q, d, space, crypto, known) && n.keys.Keys <= q.keys.Keys && Fit(q, crypto, known, out)
  {
    hide OnHello, OnSince, OnOps, Fit, Sane, Genuine, Ignored;
    NothingFits(Received(n, crypto, m, pt).0, crypto, known);
    if !Ignored(n, m) {
      match m.body
      case Hello(_, _) => HelloSane(n, d, space, crypto, known, m, pt);
      case Keys(keys) => KeysSane(n, d, space, crypto, known, keys);
      case Since(have) => SinceSane(n, d, space, crypto, known, m);
      case OpsBatch(_) => OpsSane(n, d, space, crypto, known, m, pt);
      case Ack(f) => SameLogSane(n, Recorded(n, m, f), d, space, crypto, known);
    }
  }

  lemma SinceSane(n: Node, d: Device, space: Text, crypto: Crypto, known: set<Key>, m: Msg)
    requires Sane(n, d, space, crypto, known) && m.body.Since?
    ensures var (q, out) := OnSince(n, m);
      Sane(q, d, space, crypto, known) && q.keys == n.keys && Fit(q, crypto, known, out)
  {
    hide Sane, Fit, OpsSince, ChunkMsgs, KeysMsg;
    SaneDirectory(n, d, space, crypto, known);
    SinceFits(n, crypto, known, m);
    SameLogSane(n, Recorded(n, m, m.body.have), d, space, crypto, known);
  }

  // ---------- the network ----------

  lemma QueueUpdated(net: Net, d: Device, out: (Node, seq<Msg>), a: Device, b: Device)
    requires b in net.nodes
    ensures Queue(Update(net, d, out), a, b) == if a == d then Queue(net, a, b) + out.1 else Queue(net, a, b)
  {
  }

  lemma QueuePopped(net: Net, x: Device, y: Device, a: Device, b: Device)
    requires Queue(net, x, y) != []
    ensures Queue(Popped(net, x, y), a, b) == if a == x && b == y then Queue(net, a, b)[1..] else Queue(net, a, b)
  {
  }

  /** A node moved on and sent something: its links stay provided. */
  lemma UpdateKeepsInv(net: Net, crypto: Crypto, known: set<Key>, space: Text, d: Device, out: (Node, seq<Msg>))
    requires d in net.nodes && Sane(out.0, d, space, crypto, known) && Fit(out.0, crypto, known, out.1)
    requires forall e <- net.nodes | e != d :: SaneAt(net, crypto, known, space, e)
    requires forall a, b | a in net.nodes && b in net.nodes :: Stamped(Queue(net, a, b), a, space, known)
    requires forall a, b | a in net.nodes && b in net.nodes && a != b ::
               Provided(crypto, known, b, if b == d then out.0.keys.Keys else net.nodes[b].keys.Keys, Queue(net, a, b))
    ensures Inv(Update(net, d, out), crypto, known, space)
  {
    hide Directory, KeyPair, Verifiable, Provided;
    var v := Update(net, d, out);
    forall a, b | a in v.nodes && b in v.nodes ensures LinkOk(v, crypto, known, space, a, b) {
      QueueUpdated(net, d, out, a, b);
      if a == d && a != b {
        ProvidedAppend(crypto, known, b, net.nodes[b].keys.Keys, Queue(net, a, b), out.1);
      }
    }
  }

  /** What was read from the front of a queue is known from then on. */
  lemma HeadRead(n: Node, d: Device, space: Text, crypto: Crypto, known: set<Key>, a: Device, q: seq<Msg>, pt: int)
    requires Sane(n, d, space, crypto, known) && CollisionFree(crypto, known) && a != d
    requires q != [] && Stamped(q, a, space, known) && Provided(crypto, known, d, n.keys.Keys, q)
    ensures Provided(crypto, known, d, Received(n, crypto, q[0], pt).0.keys.Keys, q[1..])
  {
    hide OnHello, OnSince, OnOps, Verifiable, KeyPair, Answers;
    var after := Received(n, crypto, q[0], pt).0;
    ReceivedSane(n, d, space, crypto, known, q[0], pt);
    assert q[0] in q;
    if q[0].to == Some(d) && q[0].body.Keys? {
      AllGenuine(crypto, q[0].body.keys);
      assert after.keys.Keys == n.keys.Keys + q[0].body.keys.Keys;
    } else {
      ProvidedMore(crypto, known, d, n.keys.Keys, after.keys.Keys, q[1..]);
    }
  }

  lemma HeadClean(q: seq<Msg>, a: Device, space: Text, known: set<Key>)
    requires q != [] && Stamped(q, a, space, known)
    ensures Clean(q[0], known)
  {
    assert q[0] in q;
  }

  lemma TailStamped(q: seq<Msg>, a: Device, space: Text, known: set<Key>)
    requires q != [] && Stamped(q, a, space, known)
    ensures Stamped(q[1..], a, space, known)
  {
  }

  lemma DeliverKeepsInv(net: Net, crypto: Crypto, known: set<Key>, space: Text, x: Device, y: Device, pt: int)
    requires Inv(net, crypto, known, space) && CollisionFree(crypto, known) && x in net.nodes
    requires Enabled(net, Deliver(x, y, pt))
    ensures Inv(Next(net, crypto, Deliver(x, y, pt)), crypto, known, space)
  {
    hide Received, Provided, Stamped, Sane, Fit, Update;
    var queue := Queue(net, x, y);
    var out := Received(net.nodes[y], crypto, queue[0], pt);
    var popped := Popped(net, x, y);
    assert SaneAt(net, crypto, known, space, y) && LinkOk(net, crypto, known, space, x, y);
    HeadClean(queue, x, space, known);
    ReceivedSane(net.nodes[y], y, space, crypto, known, queue[0], pt);
    forall e <- popped.nodes | e != y ensures SaneAt(popped, crypto, known, space, e) {
      assert SaneAt(net, crypto, known, space, e);
    }
    forall a, b | a in popped.nodes && b in popped.nodes
      ensures Stamped(Queue(popped, a, b), a, space, known)
      ensures var ids := if b == y then out.0.keys.Keys else popped.nodes[b].keys.Keys;
        a != b ==> Provided(crypto, known, b, ids, Queue(popped, a, b))
    {
      assert LinkOk(net, crypto, known, space, a, b);
      QueuePopped(net, x, y, a, b);
      if a == x && b == y {
        TailStamped(queue, x, space, known);
        if x != y { HeadRead(net.nodes[y], y, space, crypto, known, x, queue, pt); }
      } else if b == y && a != b {
        ProvidedMore(crypto, known, b, net.nodes[y].keys.Keys, out.0.keys.Keys, Queue(net, a, b));
      }
    }
    UpdateKeepsInv(popped, crypto, known, space, y, out);
  }

  lemma SendKeepsInv(net: Net, crypto: Crypto, known: set<Key>, space: Text, d: Device, out: (Node, seq<Msg>))
    requires Inv(net, crypto, known, space) && d in net.nodes
    requires Sane(out.0, d, space, crypto, known) && out.0.keys == net.nodes[d].keys && Fit(out.0, crypto, known, out.1)
    ensures Inv(Update(net, d, out), crypto, known, space)
  {
    hide Provided, Stamped, Sane, Fit, Update;
    forall a, b | a in net.nodes && b in net.nodes
      ensures Stamped(Queue(net, a, b), a, space, known)
      ensures a != b ==>
                Provided(crypto, known, b, if b == d then out.0.keys.Keys else net.nodes[b].keys.Keys, Queue(net, a, b))
    {
      assert LinkOk(net, crypto, known, space, a, b);
    }
    UpdateKeepsInv(net, crypto, known, space, d, out);
  }

  lemma CompactKeepsInv(net: Net, crypto: Crypto, known: set<Key>, space: Text, d: Device, gc: bool)
    requires Inv(net, crypto, known, space) && d in net.nodes
    ensures Inv(Next(net, crypto, CompactLog(d, gc)), crypto, known, space)
  {
    hide Provided, Stamped, Sane, Compaction.Compact;
    var v := Next(net, crypto, CompactLog(d, gc));
    assert SaneAt(net, crypto, known, space, d);
    Compaction.CompactKeeps(net.nodes[d].replica, gc);
    SameLogSane(net.nodes[d], v.nodes[d], d, space, crypto, known);
    forall e <- v.nodes ensures SaneAt(v, crypto, known, space, e) {
      assert SaneAt(net, crypto, known, space, e);
    }
    forall a, b | a in v.nodes && b in v.nodes ensures LinkOk(v, crypto, known, space, a, b) {
      assert LinkOk(net, crypto, known, space, a, b);
    }
  }

  /** Links come from nodes. */
  ghost predicate Grounded(net: Net) {
    forall a <- net.links :: a in net.nodes
  }

  lemma StepInv(net: Net, crypto: Crypto, known: set<Key>, space: Text, step: Step)
    requires Inv(net, crypto, known, space) && CollisionFree(crypto, known) && Grounded(net) && Enabled(net, step)
    ensures Inv(Next(net, crypto, step), crypto, known, space) && Grounded(Next(net, crypto, step))
  {
    hide Received, Provided, Stamped, Sane, Fit, LinkOk, Written;
    match step
    case Deliver(x, y, pt) => DeliverKeepsInv(net, crypto, known, space, x, y, pt);
    case LocalWrite(d, drafts) =>
      assert SaneAt(net, crypto, known, space, d);
      WrittenSane(net.nodes[d], d, space, crypto, known, drafts);
      SendKeepsInv(net, crypto, known, space, d, Written(net.nodes[d], crypto, drafts));
    case CompactLog(d, gc) => CompactKeepsInv(net, crypto, known, space, d, gc);
    case SayHello(d) =>
      assert SaneAt(net, crypto, known, space, d);
      SaneDirectory(net.nodes[d], d, space, crypto, known);
      GreetingFits(net.nodes[d], crypto, known, d);
      SendKeepsInv(net, crypto, known, space, d, (net.nodes[d], [HelloMsg(net.nodes[d])]));
  }

  lemma InitialInv(net: Net, crypto: Crypto, known: set<Key>, space: Text)
    requires Initial(net, crypto, known, space)
    ensures Inv(net, crypto, known, space) && Grounded(net)
  {
    hide Sane;
  }

  /** Within a session every key held hashes to its id and every retained operation verifies, on every node. */
  lemma {:induction false} RunInv(
    nets: seq<Net>, crypto: Crypto, known: set<Key>, space: Text, steps: seq<Step>, i: nat)
    requires IsRun(nets, crypto, known, space, steps) && CollisionFree(crypto, known) && i < |nets|
    ensures Inv(nets[i], crypto, known, space) && Grounded(nets[i])
  {
    hide Inv, Grounded, Next;
    if i == 0 {
      InitialInv(nets[0], crypto, known, space);
    } else {
      RunInv(nets, crypto, known, space, steps, i - 1);
      StepInv(nets[i - 1], crypto, known, space, steps[i - 1]);
    }
  }

  lemma AnswerIsAdmitted(crypto: Crypto, known: set<Key>, keys: map<Device, Key>, wire: seq<WireOp>)
    requires CollisionFree(crypto, known) && Directory(crypto, keys) && Drawn(keys, known)
    requires Answers(crypto, known, keys.Keys, wire)
    ensures Admitted(crypto, keys, wire).Some?
  {
    hide ValidateOp, Signed;
    forall w <- wire ensures Trusted(crypto, keys, w) {
      assert Vouched(crypto, known, keys.Keys, w);
      var o := ValidateOp(w).op;
      var key :| key in known && crypto.idOf(key) == o.hlc.device && Signed(crypto, key, o);
      assert keys[o.hlc.device] == key;
    }
  }

  /** However nodes write, compact and greet in between: when links keep order and lose nothing, an answer is
      never refused for an unknown device, a bad signature or a malformed operation. */
  lemma AnswersAlwaysVerify(
    nets: seq<Net>, crypto: Crypto, known: set<Key>, space: Text, steps: seq<Step>, i: nat, a: Device, b: Device)
    requires IsRun(nets, crypto, known, space, steps) && CollisionFree(crypto, known) && i < |nets|
    requires a in nets[i].nodes && b in nets[i].nodes && a != b && Queue(nets[i], a, b) != []
    requires var m := Queue(nets[i], a, b)[0]; m.to == Some(b) && m.body.OpsBatch?
    ensures Admitted(crypto, nets[i].nodes[b].keys, Queue(nets[i], a, b)[0].body.ops).Some?
  {
    hide Answers, Admitted, KeyPair, Verifiable, CollisionFree, Next, Enabled, Initial;
    RunInv(nets, crypto, known, space, steps, i);
    assert SaneAt(nets[i], crypto, known, space, b) && LinkOk(nets[i], crypto, known, space, a, b);
    AnswerIsAdmitted(crypto, known, nets[i].nodes[b].keys, Queue(nets[i], a, b)[0].body.ops);
  }
}
