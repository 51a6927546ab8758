/** The session protocol of one replicator: what a node makes of a message, and what it sends. */
module Replication {
  import opened Texts
  import opened Hlcs
  import opened Ops
  import opened Replicas
  import opened OpOrder
  import opened Catchup
  import opened Storage
  import opened Engine
  import opened Sessions

  const WIRE_VERSION := 2

  datatype Body =
    | Hello(clock: Text, key: Key)
    | Keys(keys: map<Device, Key>)
    | Since(have: Frontier)
    | OpsBatch(ops: seq<WireOp>)
    | Ack(frontier: Frontier)

  /** `to` is absent when everyone is addressed. */
  datatype Msg = Msg(version: nat, space: Text, from: Device, to: Option<Device>, body: Body)

  /** A replicator with its engine, as a value. */
  datatype Node = Node(
    id: Device,
    space: Text,
    deviceKey: DeviceKey,
    cipher: Option<Cipher>,
    started: bool,
    replica: Replica,
    keys: map<Device, Key>,
    peers: map<Device, Option<Frontier>>)

  // ---------- outgoing messages ----------

  function Envelope(n: Node, to: Option<Device>, body: Body): Msg {
    Msg(WIRE_VERSION, n.space, n.id, to, body)
  }

  /** The latest retained timestamp, or the zero timestamp. */
  ghost function LatestClock(n: Node): Text {
    var ops := OpsSince(n.replica.log, map[]);
    Encode(if ops == [] then Hlc(0, 0, n.id) else ops[|ops| - 1].hlc)
  }

  ghost function HelloMsg(n: Node): Msg {
    Envelope(n, None, Hello(LatestClock(n), n.deviceKey.publicKey))
  }

  function KeysMsg(n: Node, to: Device): Msg {
    Envelope(n, Some(to), Keys(n.keys))
  }

  function SinceMsg(n: Node, to: Device): Msg {
    Envelope(n, Some(to), Since(n.replica.frontier))
  }

  function AckMsg(n: Node, to: Device): Msg {
    Envelope(n, Some(to), Ack(n.replica.frontier))
  }

  /** A list of operations, at most `OPS_PER_MESSAGE` to a message. */
  function ChunkMsgs(n: Node, to: Option<Device>, ops: seq<Op>): seq<Msg> {
    seq(ChunkCount(|ops|, OPS_PER_MESSAGE), k requires 0 <= k < ChunkCount(|ops|, OPS_PER_MESSAGE) =>
      Envelope(n, to, OpsBatch(WireOf(Chunk(ops, OPS_PER_MESSAGE, k)))))
  }

  // ---------- incoming messages ----------

  predicate Ignored(n: Node, m: Msg) {
    || !n.started
    || m.space != n.space || m.version != WIRE_VERSION
    || m.from == n.id
    || (m.to.Some? && m.to.value != n.id)
  }

  ghost function OnHello(n: Node, crypto: Crypto, m: Msg, pt: int): (Node, seq<Msg>)
    requires m.body.Hello?
  {
    var met := n.(keys := if crypto.idOf(m.body.key) == m.from then n.keys[m.from := m.body.key] else n.keys);
    match Decode(m.body.clock)
    case Malformed => (met, [])
    case Timestamp(h) =>
      var (r, o) := ObserveClock(met.replica, h, pt);
      var told := met.(replica := r);
      if o.Failed? then (told, [])
      else if m.from in told.peers then (told, [KeysMsg(told, m.from), SinceMsg(told, m.from)])
      else
        var greeted := told.(peers := told.peers[m.from := None]);
        (greeted, [HelloMsg(greeted), KeysMsg(greeted, m.from), SinceMsg(greeted, m.from)])
  }

  function Recorded(n: Node, m: Msg, f: Frontier): Node {
    n.(peers := n.peers[m.from := Some(f)], replica := RecordPeer(n.replica, n.id, m.from, f))
  }

  ghost function OnSince(n: Node, m: Msg): (Node, seq<Msg>)
    requires m.body.Since?
  {
    var q := Recorded(n, m, m.body.have);
    var missing := OpsSince(q.replica.log, m.body.have);
    (q, (if missing == [] then [] else [KeysMsg(q, m.from)]) + ChunkMsgs(q, Some(m.from), missing))
  }

  function OnOps(n: Node, crypto: Crypto, m: Msg, pt: int): (Node, seq<Msg>)
    requires m.body.OpsBatch?
  {
    if m.body.ops == [] then (n, [])
    else
      var (r, o) := RemoteApplied(n.replica, crypto, n.keys, m.body.ops, pt);
      var q := n.(replica := r);
      (q, if o.Applied? && o.count > 0 then [AckMsg(q, m.from)] else [])
  }

  /** What a node makes of a message, and what it sends in return. */
  ghost function Received(n: Node, crypto: Crypto, m: Msg, pt: int): (Node, seq<Msg>) {
    if Ignored(n, m) then (n, [])
    else
      match m.body
      case Hello(_, _) => OnHello(n, crypto, m, pt)
      case Keys(keys) => (n.(keys := n.keys + Genuine(crypto, keys)), [])
      case Since(_) => OnSince(n, m)
      case OpsBatch(_) => OnOps(n, crypto, m, pt)
      case Ack(f) => (Recorded(n, m, f), [])
  }

  // ---------- the replicator ----------

  class Replicator {
    const engine: SyncEngine
    const space: Text
    var peers: map<Device, Option<Frontier>>
    var started: bool
    var sent: seq<Msg>          // what was handed to the transport, in order

    /** The engine is its own object, apart from this one. */
    ghost predicate Valid()
      reads this, engine, engine.storage, engine.clock
    {
      engine.Valid()
    }

    function View(): Node
      reads this, engine, engine.storage, engine.clock
    {
      Node(engine.deviceId, space, engine.deviceKey, engine.cipher, started, engine.View(), engine.keys, peers)
    }

    constructor (engine: SyncEngine, space: Text)
      ensures this.engine == engine && this.space == space && peers == map[] && !started && sent == []
    {
      this.engine, this.space, peers, started, sent := engine, space, map[], false, [];
    }

    /** Announces this replica. */
    method Start()
      requires Valid()
      modifies this`started, this`sent
      ensures View() == old(View()).(started := true)
      ensures sent == old(sent) + if old(started) then [] else [HelloMsg(View())]
    {
      if started { return; }
      started := true;
      SendHello();
    }

    method Stop()
      modifies this`started, this`peers
      ensures !started && peers == map[]
    {
      started, peers := false, map[];
    }

    method Post(m: Msg)
      modifies this`sent
      ensures sent == old(sent) + [m]
    {
      sent := sent + [m];
    }

    method SendHello()
      requires Valid()
      modifies this`sent
      ensures sent == old(sent) + [HelloMsg(View())]
    {
      hide Ready, Keyed, Trimmed, Contents, Flat, OpOrder.OpsSince;
      var ops := engine.storage.OpsSince(map[]);
      var latest := if ops == [] then Hlc(0, 0, engine.deviceId) else ops[|ops| - 1].hlc;
      Post(Msg(WIRE_VERSION, space, engine.deviceId, None, Hello(Encode(latest), engine.deviceKey.publicKey)));
    }

    method SendKeys(to: Device)
      modifies this`sent
      ensures sent == old(sent) + [KeysMsg(View(), to)]
    {
      Post(Msg(WIRE_VERSION, space, engine.deviceId, Some(to), Keys(engine.keys)));
    }

    method SendChunks(to: Option<Device>, ops: seq<Op>)
      modifies this`sent
      ensures sent == old(sent) + ChunkMsgs(View(), to, ops)
    {
      ghost var msgs := ChunkMsgs(View(), to, ops);
      ghost var k := 0;
      var i := 0;
      while i < |ops|
        invariant 0 <= k <= |msgs| == ChunkCount(|ops|, OPS_PER_MESSAGE) && i == k * 500
        invariant k < |msgs| <==> i < |ops|
        invariant sent == old(sent) + msgs[..k]
        decreases |ops| - i
      {
        var end := if |ops| - i <= OPS_PER_MESSAGE then |ops| else i + OPS_PER_MESSAGE;
        assert ops[i..end] == Chunk(ops, OPS_PER_MESSAGE, k);
        assert msgs[..k + 1] == msgs[..k] + [msgs[k]];
        Post(Msg(WIRE_VERSION, space, engine.deviceId, to, OpsBatch(WireOf(ops[i..end]))));
        i, k := i + OPS_PER_MESSAGE, k + 1;
      }
      assert msgs[..k] == msgs;
    }

    /** Live tail: what was committed locally goes out to everyone. */
    method LiveTail(ops: seq<Op>)
      modifies this`sent
      ensures sent == old(sent) + if started then ChunkMsgs(View(), None, ops) else []
    {
      if started { SendChunks(None, ops); }
    }

    method Handle(m: Msg, pt: int)
      requires Valid()
      modifies this`peers, this`sent, engine`keys, engine.storage, engine.clock
      ensures Valid()
      ensures (View(), sent) == (Received(old(View()), engine.crypto, m, pt).0,
                                 old(sent) + Received(old(View()), engine.crypto, m, pt).1)
    {
      hide OnHello, OnSince, OnOps, Genuine, Ready, Keyed, Trimmed, Contents, Flat, Directory;
      if !started || m.space != space || m.version != WIRE_VERSION || m.from == engine.deviceId
        || (m.to.Some? && m.to.value != engine.deviceId)
      {
        assert sent == old(sent) + [];
        return;
      }
      match m.body {
        case Hello(_, _) => HandleHello(m, pt);
        case Keys(keys) => LearnAll(engine, keys);
        case Since(_) => HandleSince(m);
        case OpsBatch(_) => HandleOps(m, pt);
        case Ack(f) =>
          peers := peers[m.from := Some(f)];
          engine.RecordPeerFrontier(m.from, f);
      }
    }

    method HandleHello(m: Msg, pt: int)
      requires Valid() && m.body.Hello?
      modifies this`peers, this`sent, engine`keys, engine.storage, engine.clock
      ensures Valid()
      ensures View() == OnHello(old(View()), engine.crypto, m, pt).0
      ensures sent == old(sent) + OnHello(old(View()), engine.crypto, m, pt).1
    {
      hide ObserveClock, Decode, HelloMsg, KeysMsg, SinceMsg, Ready, Keyed, Trimmed, Contents, Flat, Directory;
      var _ := engine.LearnKey(m.from, m.body.key);
      var o := engine.ObserveRemoteClock(m.body.clock, pt);
      if o.Failed? { return; }
      if m.from !in peers {
        peers := peers[m.from := None];
        SendHello();
      }
      SendKeys(m.from);
      SendSince(m.from);
    }

    method SendSince(to: Device)
      modifies this`sent
      ensures sent == old(sent) + [SinceMsg(View(), to)]
    {
      Post(Msg(WIRE_VERSION, space, engine.deviceId, Some(to), Since(engine.storage.frontier)));
    }

    method HandleSince(m: Msg)
      requires Valid() && m.body.Since?
      modifies this`peers, this`sent, engine.storage
      ensures Valid()
      ensures View() == OnSince(old(View()), m).0 && sent == old(sent) + OnSince(old(View()), m).1
    {
      hide OpOrder.OpsSince, KeysMsg, ChunkMsgs, RecordPeer, Ready, Keyed, Trimmed, Contents, Flat, Directory;
      peers := peers[m.from := Some(m.body.have)];
      engine.RecordPeerFrontier(m.from, m.body.have);
      var missing := engine.storage.OpsSince(m.body.have);
      if missing != [] { SendKeys(m.from); }
      SendChunks(Some(m.from), missing);
    }

    method HandleOps(m: Msg, pt: int)
      requires Valid() && m.body.OpsBatch?
      modifies this`sent, engine.storage, engine.clock
      ensures Valid()
      ensures View() == OnOps(old(View()), engine.crypto, m, pt).0
      ensures sent == old(sent) + OnOps(old(View()), engine.crypto, m, pt).1
    {
      hide Merge, Admitted, AckMsg;
      if m.body.ops == [] { return; }
      var o := engine.ApplyRemoteOps(m.body.ops, pt);
      if o.Applied? && o.count > 0 {
        SendAck(m.from);
      }
    }

    method SendAck(to: Device)
      modifies this`sent
      ensures sent == old(sent) + [AckMsg(View(), to)]
    {
      Post(Msg(WIRE_VERSION, space, engine.deviceId, Some(to), Ack(engine.storage.frontier)));
    }
  }
}
