/** The Edge Node engine, as functions of its state and one call (src/edge.rs, src/sequence.rs). */
module Edge {
  import opened Base
  import opened Model
  import opened Alias
  import opened Encode
  import opened Decode
  import opened Topic
  import opened Names
  import opened Messages
  import opened Sequence
  import S = HostState

  // ---- Configuration, state and surroundings ----

  datatype EdgeConfig = EdgeConfig(
    group: Id, edge: Id, devices: seq<Id>, primaryHost: Option<string>, useAliases: bool, debounce: nat)
  {
    function NodeTopic(ty: MessageType): string { Node(group, edge, ty).Show() }

    function DeviceTopic(device: Id, ty: MessageType): string { Device(group, edge, device, ty).Show() }
  }

  datatype EdgeState = Disconnected | WaitingForPrimaryHost | Online

  /** The fields of an `EdgeNode`, with the value its in-memory bdSeq store holds. */
  datatype EdgeView = EdgeView(
    seqNo: byte, bdSeq: byte, stored: byte, aliases: Registry, nextAlias: u64,
    born: seq<string>, lastRebirth: Option<nat>, lastStateTs: Option<i64>, state: EdgeState)

  /** The metrics of the births, by node and by device. */
  datatype Source = Source(node: seq<Metric>, device: string -> seq<Metric>)

  /**
   What one call meets outside: how many transport calls succeed before one fails, the successive
   readings of the clock, and the instants at which a rebirth is checked and recorded.
   */
  datatype Env = Env(budget: nat, wall: nat -> u64, checked: nat, done: nat)

  /** What the transport was asked to do and did. */
  datatype Action =
    | Connected(will: Outbound)
    | Subscribed(filter: string, qos: Qos)
    | Published(msg: Outbound)
    | Closed

  datatype EdgeEvent =
    | Rebirthed
    | RebirthDebounced
    | NodeCommand(payload: Payload)
    | DeviceCommand(device: string, payload: Payload)
    | PrimaryHostState(s: S.StatePayload)
    | Ignored

  datatype EdgeOut<T> = EdgeOut(edge: EdgeView, log: seq<Action>, result: Result<T>)

  // ---- Metrics on their way out ----

  function Stamped(m: Metric, ts: u64): Metric { if m.timestamp.None? then m.(timestamp := Some(ts)) else m }

  function Stamp(ms: seq<Metric>, ts: u64): (out: seq<Metric>)
    ensures |out| == |ms| && forall i :: 0 <= i < |ms| ==> out[i] == Stamped(ms[i], ts)
  {
    if ms == [] then [] else [Stamped(ms[0], ts)] + Stamp(ms[1..], ts)
  }

  predicate Mentions(ms: seq<Metric>, name: Str) { exists m :: m in ms && m.name == Some(name) }

  function Control(name: Str, value: Scalar): Metric {
    Metric(Some(name), None, None, Basic(value), None, None, None, None)
  }

  function WithRebirth(ms: seq<Metric>): seq<Metric> {
    if Mentions(ms, REBIRTH) then ms else ms + [Control(REBIRTH, Boolean(false))]
  }

  /** The control metrics a source does not supply. */
  function WithControls(ms: seq<Metric>, bdSeq: byte): seq<Metric> {
    var r := WithRebirth(ms);
    if Mentions(r, BDSEQ) then r else r + [Control(BDSEQ, Int64(bdSeq))]
  }

  datatype Assigned = Assigned(metrics: seq<Metric>, aliases: Registry, next: u64)

  /** Metrics that get an alias: the named ones that are not control metrics. */
  predicate Aliased(m: Metric) { m.name.Some? && m.name.value != REBIRTH && m.name.value != BDSEQ }

  function AssignAll(r: Registry, next: u64, ms: seq<Metric>): Assigned
    decreases |ms|
  {
    hide Base.ValidUtf8;
    if ms == [] then Assigned([], r, next)
    else if !Aliased(ms[0]) then
      var rest := AssignAll(r, next, ms[1..]);
      rest.(metrics := [ms[0]] + rest.metrics)
    else
      var rest := AssignAll(r.Bind(ms[0].name.value, Some(next), ms[0].value.Type()), (next + 1) % TWO64, ms[1..]);
      rest.(metrics := [ms[0].(alias := Some(next))] + rest.metrics)
  }

  function Assign(cfg: EdgeConfig, r: Registry, next: u64, ms: seq<Metric>): Assigned {
    if cfg.useAliases then AssignAll(r, next, ms) else Assigned(ms, r, next)
  }

  function Shortened(r: Registry, m: Metric): Metric {
    if m.name.Some? && r.AliasForName(m.name.value).Some?
    then m.(alias := r.AliasForName(m.name.value), name := None)
    else m
  }

  function Shorten(r: Registry, ms: seq<Metric>): (out: seq<Metric>)
    ensures |out| == |ms| && forall i :: 0 <= i < |ms| ==> out[i] == Shortened(r, ms[i])
  {
    if ms == [] then [] else [Shortened(r, ms[0])] + Shorten(r, ms[1..])
  }

  function ToData(cfg: EdgeConfig, r: Registry, ms: seq<Metric>): seq<Metric> {
    if cfg.useAliases then Shorten(r, ms) else ms
  }

  // ---- Payloads ----

  function DeathPayload(bdSeq: byte, ts: u64): Payload {
    Payload(Some(ts), [Stamped(Control(BDSEQ, Int64(bdSeq)), ts)], None, None, None)
  }

  function Sequenced(ms: seq<Metric>, seqNo: byte, ts: u64): Payload {
    Payload(Some(ts), ms, Some(seqNo), None, None)
  }

  function Send(topic: string, p: Payload, strip: bool): Outbound {
    Outbound(Message(topic, EncodePayload(p, strip)), AtMostOnce, false)
  }

  function Death(cfg: EdgeConfig, bdSeq: byte, ts: u64): Outbound {
    Outbound(Message(cfg.NodeTopic(NDeath), EncodePayload(DeathPayload(bdSeq, ts), false)), AtLeastOnce, false)
  }

  // ---- Births ----

  function Cleared(cfg: EdgeConfig, e: EdgeView): EdgeView {
    var reset := e.(seqNo := 0, born := []);
    if cfg.useAliases then reset.(aliases := EMPTY, nextAlias := 0) else reset
  }

  function NodeBirthMetrics(cfg: EdgeConfig, e: EdgeView, src: Source): Assigned {
    Assign(cfg, Cleared(cfg, e).aliases, Cleared(cfg, e).nextAlias, WithControls(src.node, e.bdSeq))
  }

  function NodeBirthMessage(cfg: EdgeConfig, e: EdgeView, src: Source, ts: u64): Outbound {
    Send(cfg.NodeTopic(NBirth), Sequenced(Stamp(NodeBirthMetrics(cfg, e, src).metrics, ts), 0, ts), false)
  }

  /** The state once the NBIRTH is built, before it is sent. */
  function NodeBorn(cfg: EdgeConfig, e: EdgeView, src: Source): EdgeView {
    var a := NodeBirthMetrics(cfg, e, src);
    Cleared(cfg, e).(seqNo := 1, aliases := a.aliases, nextAlias := a.next)
  }

  function PublishBirths(cfg: EdgeConfig, e: EdgeView, src: Source, env: Env, calls: nat, at: nat): EdgeOut<()> {
    var born := NodeBorn(cfg, e, src);
    if calls >= env.budget then EdgeOut(born, [], Err(Transport))
    else
      var out := PublishDeviceBirths(cfg, born, src, env, calls + 1, at + 1, cfg.devices);
      out.(log := [Published(NodeBirthMessage(cfg, e, src, env.wall(at)))] + out.log)
  }

  function DeviceBirthMessage(cfg: EdgeConfig, e: EdgeView, src: Source, device: Id, ts: u64): Outbound {
    var a := Assign(cfg, e.aliases, e.nextAlias, src.device(device));
    Send(cfg.DeviceTopic(device, DBirth), Sequenced(Stamp(a.metrics, ts), e.seqNo, ts), false)
  }

  /** The state once that DBIRTH is built, before it is sent. */
  function DeviceAssigned(cfg: EdgeConfig, e: EdgeView, src: Source, device: Id): EdgeView {
    var a := Assign(cfg, e.aliases, e.nextAlias, src.device(device));
    e.(seqNo := Next(e.seqNo), aliases := a.aliases, nextAlias := a.next)
  }

  function PublishDeviceBirths(cfg: EdgeConfig, e: EdgeView, src: Source, env: Env, calls: nat, at: nat,
                               devices: seq<Id>): EdgeOut<()>
    decreases |devices|
  {
    if devices == [] then EdgeOut(e.(state := Online), [], Ok(()))
    else
      var built := DeviceAssigned(cfg, e, src, devices[0]);
      if calls >= env.budget then EdgeOut(built, [], Err(Transport))
      else
        var out := PublishDeviceBirths(cfg, built.(born := e.born + [devices[0]]), src, env, calls + 1, at + 1,
                                       devices[1..]);
        out.(log := [Published(DeviceBirthMessage(cfg, e, src, devices[0], env.wall(at)))] + out.log)
  }

  // ---- Connecting ----

  function Commands(cfg: EdgeConfig, devices: seq<Id>): seq<Action>
    decreases |devices|
  {
    if devices == [] then []
    else [Subscribed(cfg.DeviceTopic(devices[0], DCmd), AtLeastOnce)] + Commands(cfg, devices[1..])
  }

  /** The will first, then the command subscriptions, then the primary host's STATE. */
  function Prelude(cfg: EdgeConfig, will: Outbound): seq<Action> {
    [Connected(will), Subscribed(cfg.NodeTopic(NCmd), AtLeastOnce)] + Commands(cfg, cfg.devices)
    + (if cfg.primaryHost.Some? then [Subscribed("spBv1.0/STATE/" + cfg.primaryHost.value, AtLeastOnce)] else [])
  }

  /** The bdSeq of this connection, the next one already stored. */
  function Numbered(e: EdgeView): EdgeView { e.(bdSeq := e.stored, stored := Next(e.stored)) }

  function Connect(cfg: EdgeConfig, e: EdgeView, src: Source, env: Env): EdgeOut<()> {
    var numbered := Numbered(e);
    var prelude := Prelude(cfg, Death(cfg, numbered.bdSeq, env.wall(0)));
    if env.budget < |prelude| then EdgeOut(numbered, prelude[..env.budget], Err(Transport))
    else if cfg.primaryHost.Some? then EdgeOut(numbered.(state := WaitingForPrimaryHost), prelude, Ok(()))
    else
      var out := PublishBirths(cfg, numbered, src, env, |prelude|, 1);
      out.(log := prelude + out.log)
  }

  // ---- Data and deaths ----

  function Offer(e: EdgeView, msg: Outbound, env: Env): EdgeOut<()> {
    if env.budget == 0 then EdgeOut(e, [], Err(Transport)) else EdgeOut(e, [Published(msg)], Ok(()))
  }

  /** The sequence number is taken before the send. */
  function PublishNodeData(cfg: EdgeConfig, e: EdgeView, ms: seq<Metric>, env: Env): EdgeOut<()> {
    if e.state != Online then EdgeOut(e, [], Err(InvalidTopic))
    else
      var data := Sequenced(Stamp(ToData(cfg, e.aliases, ms), env.wall(0)), e.seqNo, env.wall(0));
      Offer(e.(seqNo := Next(e.seqNo)), Send(cfg.NodeTopic(NData), data, true), env)
  }

  function PublishDeviceData(cfg: EdgeConfig, e: EdgeView, device: string, ms: seq<Metric>, env: Env): EdgeOut<()> {
    if device !in e.born then EdgeOut(e, [], Err(InvalidTopic))
    else if !ValidId(device) then EdgeOut(e, [], Err(InvalidId))
    else
      var data := Sequenced(Stamp(ToData(cfg, e.aliases, ms), env.wall(0)), e.seqNo, env.wall(0));
      Offer(e.(seqNo := Next(e.seqNo)), Send(cfg.DeviceTopic(device, DData), data, true), env)
  }

  /** Where the device first stands. */
  function PositionOf(born: seq<string>, device: string): (i: nat)
    requires device in born
    ensures i < |born| && born[i] == device && device !in born[..i]
  {
    if born[0] == device then 0 else 1 + PositionOf(born[1..], device)
  }

  function Without(born: seq<string>, device: string): seq<string>
    requires device in born
  {
    var i := PositionOf(born, device);
    born[..i] + born[i + 1..]
  }

  function PublishDeviceDeath(cfg: EdgeConfig, e: EdgeView, device: string, env: Env): EdgeOut<()> {
    if device !in e.born then EdgeOut(e, [], Err(InvalidTopic))
    else if !ValidId(device) then EdgeOut(e, [], Err(InvalidId))
    else
      var out := Offer(e.(seqNo := Next(e.seqNo)),
                       Send(cfg.DeviceTopic(device, DDeath), Sequenced([], e.seqNo, env.wall(0)), false), env);
      if out.result.Err? then out else out.(edge := out.edge.(born := Without(e.born, device)))
  }

  /** The NDEATH goes out before the connection is closed. */
  function Disconnect(cfg: EdgeConfig, e: EdgeView, env: Env): EdgeOut<()> {
    var death := Published(Death(cfg, e.bdSeq, env.wall(0)));
    if env.budget == 0 then EdgeOut(e, [], Err(Transport))
    else if env.budget == 1 then EdgeOut(e, [death], Err(Transport))
    else EdgeOut(e.(state := Disconnected), [death, Closed], Ok(()))
  }

  // ---- Inbound messages ----

  predicate RebirthAllowed(cfg: EdgeConfig, e: EdgeView, instant: nat) {
    e.lastRebirth.None? || Elapsed(e.lastRebirth.value, instant) >= cfg.debounce
  }

  predicate AsksRebirth(p: Payload) {
    exists m :: m in p.metrics && m.name == Some(REBIRTH) && m.value == Basic(Boolean(true))
  }

  function Then<T>(out: EdgeOut<()>, event: T): EdgeOut<T> {
    EdgeOut(out.edge, out.log, if out.result.Ok? then Ok(event) else Err(out.result.error))
  }

  function OnNodeCommand(cfg: EdgeConfig, e: EdgeView, payload: bytes, src: Source, env: Env): EdgeOut<EdgeEvent> {
    match DecodePayload(payload, Some(e.aliases))
    case Err(x) => EdgeOut(e, [], Err(x))
    case Ok(p) =>
      if !AsksRebirth(p) then EdgeOut(e, [], Ok(NodeCommand(p)))
      else if !RebirthAllowed(cfg, e, env.checked) then EdgeOut(e, [], Ok(RebirthDebounced))
      else
        var out := PublishBirths(cfg, e, src, env, 0, 0);
        if out.result.Err? then Then(out, Rebirthed)
        else Then(out.(edge := out.edge.(lastRebirth := Some(env.done))), Rebirthed)
  }

  function OnDeviceCommand(e: EdgeView, device: string, payload: bytes): EdgeOut<EdgeEvent> {
    match DecodePayload(payload, Some(e.aliases))
    case Err(x) => EdgeOut(e, [], Err(x))
    case Ok(p) => EdgeOut(e, [], Ok(DeviceCommand(device, p)))
  }

  /** A STATE of the primary host not older than the last one gates the session. */
  function OnHostState(cfg: EdgeConfig, e: EdgeView, hostId: string, payload: bytes, src: Source,
                       env: Env): EdgeOut<EdgeEvent> {
    if cfg.primaryHost != Some(hostId) then EdgeOut(e, [], Ok(Ignored))
    else
      match ReadState(payload)
      case Err(x) => EdgeOut(e, [], Err(x))
      case Ok(s) =>
        if e.lastStateTs.Some? && s.timestamp < e.lastStateTs.value then EdgeOut(e, [], Ok(Ignored))
        else
          var seen := e.(lastStateTs := Some(s.timestamp));
          if s.online && e.state == WaitingForPrimaryHost then
            Then(PublishBirths(cfg, seen, src, env, 0, 0), PrimaryHostState(s))
          else if !s.online && e.state == Online then Then(Disconnect(cfg, seen, env), PrimaryHostState(s))
          else EdgeOut(seen, [], Ok(PrimaryHostState(s)))
  }

  /** The command topic is matched by its type alone. */
  function HandleIncoming(cfg: EdgeConfig, e: EdgeView, m: Message, src: Source, env: Env): EdgeOut<EdgeEvent> {
    match Parse(m.topic)
    case Err(x) => EdgeOut(e, [], Err(x))
    case Ok(Node(_, _, ty)) =>
      if ty == NCmd then OnNodeCommand(cfg, e, m.payload, src, env) else EdgeOut(e, [], Ok(Ignored))
    case Ok(Device(_, _, d, ty)) =>
      if ty == DCmd then OnDeviceCommand(e, d, m.payload) else EdgeOut(e, [], Ok(Ignored))
    case Ok(HostState(hostId)) => OnHostState(cfg, e, hostId, m.payload, src, env)
  }

  // ---- Calls ----

  datatype Call =
    | DoConnect(src: Source, env: Env)
    | DoBirths(src: Source, env: Env)
    | DoNodeData(metrics: seq<Metric>, env: Env)
    | DoDeviceData(device: string, metrics: seq<Metric>, env: Env)
    | DoDeviceDeath(device: string, env: Env)
    | DoIncoming(msg: Message, src: Source, env: Env)
    | DoDisconnect(env: Env)

  function EdgeStep(cfg: EdgeConfig, e: EdgeView, call: Call): EdgeOut<()> {
    match call
    case DoConnect(src, env) => Connect(cfg, e, src, env)
    case DoBirths(src, env) => PublishBirths(cfg, e, src, env, 0, 0)
    case DoNodeData(ms, env) => PublishNodeData(cfg, e, ms, env)
    case DoDeviceData(d, ms, env) => PublishDeviceData(cfg, e, d, ms, env)
    case DoDeviceDeath(d, env) => PublishDeviceDeath(cfg, e, d, env)
    case DoIncoming(m, src, env) =>
      var out := HandleIncoming(cfg, e, m, src, env);
      EdgeOut(out.edge, out.log, if out.result.Ok? then Ok(()) else Err(out.result.error))
    case DoDisconnect(env) => Disconnect(cfg, e, env)
  }
}
