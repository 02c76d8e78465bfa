/** The Host Application engine, as functions of its state and one inbound message (src/host.rs). */
module Host {
  import opened Base
  import opened Model
  import opened Alias
  import opened Births
  import opened Encode
  import opened Decode
  import opened Topic
  import opened Names
  import opened Messages
  import opened Sequence
  import S = HostState

  // ---- State ----

  datatype DeviceState = DeviceState(online: bool, aliases: Registry)

  datatype NodeState = NodeState(
    online: bool, bdSeq: Option<i64>, expectedSeq: byte, aliases: Registry,
    devices: map<string, DeviceState>, lastRebirth: Option<nat>)
  {
    predicate DeviceOnline(device: string) { device in devices && devices[device].online }

    function OnlineDevices(): set<string> { OnlineOf(devices) }
  }

  function OnlineOf(devices: map<string, DeviceState>): set<string> { set d | d in devices && devices[d].online }

  const NEW_NODE: NodeState := NodeState(false, None, 0, EMPTY, map[], None)

  function OrNew(node: Option<NodeState>): NodeState {
    if node.Some? then node.value else NEW_NODE
  }

  predicate Live(node: Option<NodeState>) { node.Some? && node.value.online }

  datatype NodeId = NodeId(group: Id, edge: Id)

  function Key(id: NodeId): string { id.group + "/" + id.edge }

  /** What one step learns from outside: the clocks, and whether a publish would succeed. */
  datatype Tick = Tick(instant: nat, wall: i64, sendOk: bool)

  datatype HostEvent =
    | NodeBirth(group: string, edge: string, metrics: seq<Metric>)
    | NodeData(group: string, edge: string, metrics: seq<Metric>)
    | NodeDeath(group: string, edge: string, timestamp: i64, devices: seq<string>)
    | DeviceBirth(group: string, edge: string, device: string, metrics: seq<Metric>)
    | DeviceData(group: string, edge: string, device: string, metrics: seq<Metric>)
    | DeviceDeath(group: string, edge: string, device: string, timestamp: i64)
    | RebirthRequested(group: string, edge: string)
    | Ignored

  datatype Outcome = Outcome(node: Option<NodeState>, event: Result<HostEvent>, sent: seq<Outbound>)

  // ---- Payload helpers ----

  /** The first metric named `bdSeq`, when it holds an Int64 or a UInt64 that fits one. */
  function BdSeqOf(ms: seq<Metric>): Option<i64>
    decreases |ms|
  {
    if ms == [] then None
    else if ms[0].name == Some(BDSEQ) then AsBdSeq(ms[0].value)
    else BdSeqOf(ms[1..])
  }

  function AsBdSeq(v: MetricValue): Option<i64> {
    if v.Basic? && v.scalar.Int64? then Some(v.scalar.v64)
    else if v.Basic? && v.scalar.UInt64? && v.scalar.u64v < 0x8000_0000_0000_0000 then Some(v.scalar.u64v)
    else None
  }

  function Resolve(r: Registry, m: Metric): Metric {
    if m.name.None? && m.alias.Some? && r.NameForAlias(m.alias.value).Some?
    then m.(name := r.NameForAlias(m.alias.value))
    else m
  }

  function ResolveNames(r: Registry, ms: seq<Metric>): (out: seq<Metric>)
    ensures |out| == |ms| && forall i :: 0 <= i < |ms| ==> out[i] == Resolve(r, ms[i])
    decreases |ms|
  {
    if ms == [] then [] else [Resolve(r, ms[0])] + ResolveNames(r, ms[1..])
  }

  function DeathTime(timestamp: Option<u64>, wall: i64): i64 {
    if timestamp.Some? && timestamp.value < 0x8000_0000_0000_0000 then timestamp.value else wall
  }

  // ---- Rebirth requests ----

  predicate SlotFree(node: NodeState, debounce: nat, instant: nat) {
    node.lastRebirth.None? || Elapsed(node.lastRebirth.value, instant) >= debounce
  }

  function RebirthPayload(wall: i64): Payload {
    Payload(Some(if wall < 0 then 0 else wall),
            [Metric(Some(REBIRTH), None, None, Basic(Boolean(true)), None, None, None, None)], None, None, None)
  }

  function RebirthCommand(id: NodeId, wall: i64): Outbound {
    Outbound(Message(Node(id.group, id.edge, NCmd).Show(), EncodePayload(RebirthPayload(wall), false)), AtMostOnce,
             false)
  }

  /** Takes the debounce slot, sends the command, and keeps the slot taken when the send fails. */
  function Rebirth(debounce: nat, id: NodeId, node: Option<NodeState>, tick: Tick): Outcome {
    var n := OrNew(node);
    if !SlotFree(n, debounce, tick.instant) then Outcome(Some(n), Ok(Ignored), [])
    else
      var taken := Some(n.(lastRebirth := Some(tick.instant)));
      if tick.sendOk then Outcome(taken, Ok(RebirthRequested(id.group, id.edge)), [RebirthCommand(id, tick.wall)])
      else Outcome(taken, Err(Transport), [])
  }

  /** A sequence anomaly ends the session and asks for a rebirth. */
  function Invalidate(debounce: nat, id: NodeId, node: NodeState, tick: Tick): Outcome {
    Rebirth(debounce, id, Some(node.(online := false)), tick)
  }

  // ---- Handlers ----

  function FirstSeq(p: Payload): byte { if p.seqNo.Some? then p.seqNo.value else 0 }

  /** A node just born: online unless its aliases clash, without devices, its debounce slot kept. */
  function Reborn(p: Payload, lastRebirth: Option<nat>): NodeState {
    var bound := BindBirth(EMPTY, p.metrics);
    NodeState(!bound.duplicate, BdSeqOf(p.metrics), Next(FirstSeq(p)), bound.registry, map[], lastRebirth)
  }

  function OnNodeBirth(debounce: nat, id: NodeId, node: Option<NodeState>, payload: bytes, tick: Tick): Outcome {
    match DecodePayload(payload, None)
    case Err(e) => Outcome(node, Err(e), [])
    case Ok(p) =>
      var born := Reborn(p, OrNew(node).lastRebirth);
      if BindBirth(EMPTY, p.metrics).duplicate then Rebirth(debounce, id, Some(born), tick)
      else Outcome(Some(born), Ok(NodeBirth(id.group, id.edge, p.metrics)), [])
  }

  function OnNodeData(debounce: nat, id: NodeId, node: Option<NodeState>, payload: bytes, tick: Tick): Outcome {
    if !Live(node) then Rebirth(debounce, id, node, tick)
    else
      var n := node.value;
      match DecodePayload(payload, Some(n.aliases))
      case Err(_) => Invalidate(debounce, id, n, tick)
      case Ok(p) =>
        if p.seqNo != Some(n.expectedSeq) then Invalidate(debounce, id, n, tick)
        else Outcome(Some(n.(expectedSeq := Next(n.expectedSeq))),
                     Ok(NodeData(id.group, id.edge, ResolveNames(n.aliases, p.metrics))), [])
  }

  function Offline(node: NodeState): NodeState {
    node.(online := false, devices := map d | d in node.devices :: node.devices[d].(online := false))
  }

  /** Only a real, matching `bdSeq` ends the session. */
  ghost function OnNodeDeath(id: NodeId, node: Option<NodeState>, payload: bytes, tick: Tick): Outcome {
    match DecodePayload(payload, None)
    case Err(e) => Outcome(node, Err(e), [])
    case Ok(p) =>
      if Live(node) && node.value.bdSeq.Some? && node.value.bdSeq == BdSeqOf(p.metrics) then
        Outcome(Some(Offline(node.value)),
                Ok(NodeDeath(id.group, id.edge, DeathTime(p.timestamp, tick.wall),
                             Listing(node.value.OnlineDevices()))), [])
      else Outcome(node, Ok(Ignored), [])
  }

  function OnDeviceBirth(debounce: nat, id: NodeId, device: string, node: Option<NodeState>, payload: bytes,
                         tick: Tick): Outcome {
    if !Live(node) then Rebirth(debounce, id, node, tick)
    else
      var n := node.value;
      match DecodePayload(payload, None)
      case Err(e) => Outcome(node, Err(e), [])
      case Ok(p) =>
        if p.seqNo != Some(n.expectedSeq) then Invalidate(debounce, id, n, tick)
        else
          var bound := BindBirth(EMPTY, p.metrics);
          var next := Some(n.(expectedSeq := Next(n.expectedSeq),
                              devices := n.devices[device := DeviceState(true, bound.registry)]));
          if bound.duplicate then Rebirth(debounce, id, next, tick)
          else Outcome(next, Ok(DeviceBirth(id.group, id.edge, device, p.metrics)), [])
  }

  function OnDeviceData(debounce: nat, id: NodeId, device: string, node: Option<NodeState>, payload: bytes,
                        tick: Tick): Outcome {
    if !Live(node) || !node.value.DeviceOnline(device) then Rebirth(debounce, id, node, tick)
    else
      var n := node.value;
      var aliases := n.devices[device].aliases;
      match DecodePayload(payload, Some(aliases))
      case Err(_) => Invalidate(debounce, id, n, tick)
      case Ok(p) =>
        if p.seqNo != Some(n.expectedSeq) then Invalidate(debounce, id, n, tick)
        else Outcome(Some(n.(expectedSeq := Next(n.expectedSeq))),
                     Ok(DeviceData(id.group, id.edge, device, ResolveNames(aliases, p.metrics))), [])
  }

  function OnDeviceDeath(debounce: nat, id: NodeId, device: string, node: Option<NodeState>, payload: bytes,
                         tick: Tick): Outcome {
    if !Live(node) then Rebirth(debounce, id, node, tick)
    else
      var n := node.value;
      match DecodePayload(payload, None)
      case Err(e) => Outcome(node, Err(e), [])
      case Ok(p) =>
        if p.seqNo != Some(n.expectedSeq) then Invalidate(debounce, id, n, tick)
        else Outcome(Some(n.(expectedSeq := Next(n.expectedSeq), devices := WithoutDevice(n.devices, device))),
                     Ok(DeviceDeath(id.group, id.edge, device, DeathTime(p.timestamp, tick.wall))), [])
  }

  function WithoutDevice(devices: map<string, DeviceState>, device: string): map<string, DeviceState> {
    if device in devices then devices[device := devices[device].(online := false)] else devices
  }

  // ---- Dispatch ----

  /** A message as its node sees it; `device` is empty for node-level types. */
  datatype NodeMessage = NodeMessage(ty: MessageType, device: string, payload: bytes)

  ghost function NodeStep(debounce: nat, id: NodeId, node: Option<NodeState>, m: NodeMessage, tick: Tick): Outcome {
    match m.ty
    case NBirth => OnNodeBirth(debounce, id, node, m.payload, tick)
    case NData => OnNodeData(debounce, id, node, m.payload, tick)
    case NDeath => OnNodeDeath(id, node, m.payload, tick)
    case DBirth => OnDeviceBirth(debounce, id, m.device, node, m.payload, tick)
    case DData => OnDeviceData(debounce, id, m.device, node, m.payload, tick)
    case DDeath => OnDeviceDeath(debounce, id, m.device, node, m.payload, tick)
    case _ => Outcome(node, Ok(Ignored), [])
  }

  datatype Engine = Engine(hostId: string, debounce: nat, stateTs: i64, nodes: map<string, NodeState>) {
    function Lookup(key: string): Option<NodeState> {
      if key in nodes then Some(nodes[key]) else None
    }

    function Store(key: string, node: Option<NodeState>): Engine {
      if node.Some? then this.(nodes := nodes[key := node.value]) else this
    }
  }

  datatype HostOutcome = HostOutcome(host: Engine, event: Result<HostEvent>, sent: seq<Outbound>)

  function StateMessage(hostId: string, s: S.StatePayload): Outbound {
    JsonAscii(s);
    Outbound(Message("spBv1.0/STATE/" + hostId, AsciiBytes(S.ToJson(s))), AtLeastOnce, true)
  }

  lemma JsonAscii(s: S.StatePayload)
    ensures Ascii(S.ToJson(s))
  {
    hide S.ParseInt;
    S.IntRoundTrip(s.timestamp);
  }

  /** A STATE the host publishes is read back as it was, by the edge and by the host itself. */
  lemma StateMessageReadsBack(hostId: string, s: S.StatePayload)
    ensures ReadState(StateMessage(hostId, s).message.payload) == Ok(s)
  {
    hide S.ParseState, S.ToJson, Utf8Chars, AsciiBytes, Base.ValidUtf8;
    JsonAscii(s);
    AsciiChars(S.ToJson(s));
    S.StateRoundTrip(s);
  }

  /** A retained offline STATE for this host is answered with the online one. */
  function OnState(h: Engine, hostId: string, payload: bytes, tick: Tick): HostOutcome {
    if hostId != h.hostId then HostOutcome(h, Ok(Ignored), [])
    else
      match ReadState(payload)
      case Err(e) => HostOutcome(h, Err(e), [])
      case Ok(s) =>
        if s.online then HostOutcome(h, Ok(Ignored), [])
        else if tick.sendOk then HostOutcome(h, Ok(Ignored), [StateMessage(h.hostId, S.StatePayload(true, h.stateTs))])
        else HostOutcome(h, Err(Transport), [])
  }

  ghost function Addressed(h: Engine, id: NodeId, m: NodeMessage, tick: Tick): HostOutcome {
    var o := NodeStep(h.debounce, id, h.Lookup(Key(id)), m, tick);
    HostOutcome(h.Store(Key(id), o.node), o.event, o.sent)
  }

  ghost function HostStep(h: Engine, m: Message, tick: Tick): HostOutcome {
    match Parse(m.topic)
    case Err(e) => HostOutcome(h, Err(e), [])
    case Ok(HostState(hostId)) => OnState(h, hostId, m.payload, tick)
    case Ok(Node(g, e, ty)) => Addressed(h, NodeId(g, e), NodeMessage(ty, "", m.payload), tick)
    case Ok(Device(g, e, d, ty)) => Addressed(h, NodeId(g, e), NodeMessage(ty, d, m.payload), tick)
  }
}
