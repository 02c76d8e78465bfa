/**
 An edge and a host joined by a transport that succeeds and delivers in order
 (src/edge.rs:249-650, src/host.rs:426-747).
 */
module Simulation {
  import opened Base
  import opened Model
  import opened Alias
  import opened Encode
  import opened Decode
  import opened Topic
  import Names
  import opened Messages
  import opened Sequence
  import opened Host
  import opened Edge
  import opened Aliasing
  import opened Joining

  // ---- The system ----

  /** The edge, the host, and the source of the births last sent. */
  datatype System = System(src: Source, edge: EdgeView, host: Engine)

  /** One call on the edge, with what the host's surroundings are as each message arrives. */
  datatype Round = Round(call: Call, ticks: nat -> Tick)

  /** The host takes the published messages in order. */
  ghost function Hear(h: Engine, log: seq<Action>, ticks: nat -> Tick, i: nat): seq<HostOutcome>
    decreases |log|
  {
    hide Host.HostStep;
    if log == [] then []
    else if !log[0].Published? then Hear(h, log[1..], ticks, i)
    else
      var o := HostStep(h, log[0].msg.message, ticks(i));
      [o] + Hear(o.host, log[1..], ticks, i + 1)
  }

  ghost function HostAfter(h: Engine, log: seq<Action>, ticks: nat -> Tick, i: nat): Engine
    decreases |log|
  {
    hide Host.HostStep;
    if log == [] then h
    else if !log[0].Published? then HostAfter(h, log[1..], ticks, i)
    else HostAfter(HostStep(h, log[0].msg.message, ticks(i)).host, log[1..], ticks, i + 1)
  }

  /** The call has published a birth sequence. */
  predicate BirthsSent(call: Call, out: EdgeOut<()>) {
    (call.DoConnect? || call.DoBirths? || call.DoIncoming?) && out.edge.state == Online && out.log != []
  }

  ghost function Advance(cfg: EdgeConfig, s: System, r: Round): System {
    hide Edge.EdgeStep, HostAfter;
    var out := EdgeStep(cfg, s.edge, r.call);
    System(if BirthsSent(r.call, out) then r.call.src else s.src, out.edge, HostAfter(s.host, out.log, r.ticks, 0))
  }

  ghost function After(cfg: EdgeConfig, s: System, rounds: seq<Round>): System
    decreases |rounds|
  {
    hide Advance;
    if rounds == [] then s else After(cfg, Advance(cfg, s, rounds[0]), rounds[1..])
  }

  // ---- What the runs may do ----

  predicate Small(log: seq<Action>) { forall a <- log :: a.Published? ==> |a.msg.message.payload| < TWO64 }

  /**
   No transport failure; births from a good source; data of declared metrics only; and no device
   publication unless the edge is online.
   */
  predicate Admissible(cfg: EdgeConfig, s: System, call: Call) {
    hide Edge.EdgeStep;
    var out := EdgeStep(cfg, s.edge, call);
    && out.result != Err(Transport) && Small(out.log)
    && (BirthsSent(call, out) ==> GoodSource(cfg, call.src))
    && (call.DoNodeData? && s.edge.state == Online ==> AllDeclared(NodeMetrics(s.edge, s.src), call.metrics))
    && (call.DoDeviceData? && call.device in s.edge.born ==>
          s.edge.state == Online && AllDeclared(s.src.device(call.device), call.metrics))
    && (call.DoDeviceDeath? && call.device in s.edge.born ==> s.edge.state == Online)
  }

  ghost predicate AllAdmissible(cfg: EdgeConfig, s: System, rounds: seq<Round>)
    decreases |rounds|
  {
    hide Admissible, Advance;
    rounds != [] ==> Admissible(cfg, s, rounds[0].call) && AllAdmissible(cfg, Advance(cfg, s, rounds[0]), rounds[1..])
  }

  // ---- What the host hears ----

  function DeviceEvents(cfg: EdgeConfig, e: EdgeView, src: Source, env: Env, at: nat, devices: seq<Id>): seq<HostEvent>
    decreases |devices|
  {
    if devices == [] then []
    else
      var metrics := Stamp(Assign(cfg, e.aliases, e.nextAlias, src.device(devices[0])).metrics, env.wall(at));
      [DeviceBirth(cfg.group, cfg.edge, devices[0], metrics)]
      + DeviceEvents(cfg, DeviceBorn(cfg, e, src, devices[0]), src, env, at + 1, devices[1..])
  }

  /** One birth event for the node and one for each device, with the metrics as published. */
  function BirthEvents(cfg: EdgeConfig, e: EdgeView, src: Source, env: Env, at: nat): seq<HostEvent> {
    [NodeBirth(cfg.group, cfg.edge, Stamp(NodeBirthMetrics(cfg, e, src).metrics, env.wall(at)))]
    + DeviceEvents(cfg, NodeBorn(cfg, e, src), src, env, at + 1, cfg.devices)
  }

  /** The node's death, as of the NDEATH, with the devices the edge had born, sorted. */
  ghost function DeathEvent(cfg: EdgeConfig, e: EdgeView, env: Env, ticks: nat -> Tick): HostEvent {
    NodeDeath(cfg.group, cfg.edge, DeathTime(Some(env.wall(0)), ticks(0).wall), Names.Listing(BornSet(e.born)))
  }

  predicate Hears(outs: seq<HostOutcome>, events: seq<HostEvent>) {
    |outs| == |events| && forall k :: 0 <= k < |outs| ==> outs[k].event == Ok(events[k]) && outs[k].sent == []
  }

  /** The host keeps its peace: no error, no rebirth request. */
  predicate Content(outs: seq<HostOutcome>) {
    forall o <- outs :: o.sent == [] && o.event.Ok? && !o.event.value.RebirthRequested?
  }

  function BornSet(born: seq<string>): set<string> { set d | d in born }

  ghost predicate Told(cfg: EdgeConfig, e: EdgeView, call: Call, outs: seq<HostOutcome>, ticks: nat -> Tick) {
    hide Edge.EdgeStep, BirthEvents;
    && Content(outs)
    && match call {
         case DoConnect(src, env) => cfg.primaryHost.None? ==> Hears(outs, BirthEvents(cfg, Numbered(e), src, env, 1))
         case DoBirths(src, env) => Hears(outs, BirthEvents(cfg, e, src, env, 0))
         case DoNodeData(ms, env) =>
           e.state == Online ==>
             && |outs| == 1 && outs[0].event.Ok? && outs[0].event.value.NodeData?
             && outs[0].event.value.group == cfg.group && outs[0].event.value.edge == cfg.edge
             && Carries(ms, outs[0].event.value.metrics, env.wall(0))
         case DoDeviceData(d, ms, env) =>
           d in e.born ==>
             && |outs| == 1 && outs[0].event.Ok? && outs[0].event.value.DeviceData?
             && outs[0].event.value.group == cfg.group && outs[0].event.value.edge == cfg.edge
             && outs[0].event.value.device == d && Carries(ms, outs[0].event.value.metrics, env.wall(0))
         case DoDeviceDeath(d, env) =>
           d in e.born ==>
             Hears(outs, [DeviceDeath(cfg.group, cfg.edge, d, DeathTime(Some(env.wall(0)), ticks(0).wall))])
         case DoIncoming(m, src, env) =>
           && (outs != [] && EdgeStep(cfg, e, call).edge.state == Online ==>
               Hears(outs, BirthEvents(cfg, e, src, env, 0)))
           && (outs != [] && EdgeStep(cfg, e, call).edge.state == Disconnected ==>
               Hears(outs, [DeathEvent(cfg, e, env, ticks)]))
         case DoDisconnect(env) => e.state == Online ==> Hears(outs, [DeathEvent(cfg, e, env, ticks)])
       }
  }

  ghost predicate AllTold(cfg: EdgeConfig, s: System, rounds: seq<Round>)
    decreases |rounds|
  {
    hide Edge.EdgeStep, Told, Advance, Hear;
    rounds != [] ==>
      && Told(cfg, s.edge, rounds[0].call, Hear(s.host, EdgeStep(cfg, s.edge, rounds[0].call).log, rounds[0].ticks, 0),
              rounds[0].ticks)
      && AllTold(cfg, Advance(cfg, s, rounds[0]), rounds[1..])
  }

  /** While the edge is online the host's node is in step with it. */
  ghost predicate InStep(cfg: EdgeConfig, s: System) {
    s.edge.state == Online ==> Follows(cfg, s.src, s.edge, s.host)
  }

  ghost predicate Follows(cfg: EdgeConfig, src: Source, e: EdgeView, h: Engine) {
    h.Lookup(Key(Peer(cfg))).Some? && Joined(cfg, src, e, h.Lookup(Key(Peer(cfg))).value)
  }

  // ---- Messages find their node ----

  lemma RouteNode(cfg: EdgeConfig, h: Engine, ty: MessageType, payload: bytes, tick: Tick)
    requires !ty.HasDevice() && ty != State
    ensures HostStep(h, Message(cfg.NodeTopic(ty), payload), tick) ==
      Addressed(h, Peer(cfg), NodeMessage(ty, "", payload), tick)
  {
    hide Topic.Parse, Host.NodeStep, SparkplugTopic.Show;
    ShownParses(Node(cfg.group, cfg.edge, ty));
  }

  lemma RouteDevice(cfg: EdgeConfig, h: Engine, device: Id, ty: MessageType, payload: bytes, tick: Tick)
    requires ty.HasDevice()
    ensures HostStep(h, Message(cfg.DeviceTopic(device, ty), payload), tick) ==
      Addressed(h, Peer(cfg), NodeMessage(ty, device, payload), tick)
  {
    hide Topic.Parse, Host.NodeStep, SparkplugTopic.Show;
    ShownParses(Device(cfg.group, cfg.edge, device, ty));
  }

  lemma StoredThere(h: Engine, key: string, node: Option<NodeState>)
    requires node.Some?
    ensures h.Store(key, node).Lookup(key) == node && h.Store(key, node).debounce == h.debounce
  {
  }

  lemma HearCons(h: Engine, a: Action, log: seq<Action>, ticks: nat -> Tick, i: nat)
    ensures a.Published? ==>
      var o := HostStep(h, a.msg.message, ticks(i));
      Hear(h, [a] + log, ticks, i) == [o] + Hear(o.host, log, ticks, i + 1)
        && HostAfter(h, [a] + log, ticks, i) == HostAfter(o.host, log, ticks, i + 1)
    ensures !a.Published? ==>
      Hear(h, [a] + log, ticks, i) == Hear(h, log, ticks, i)
        && HostAfter(h, [a] + log, ticks, i) == HostAfter(h, log, ticks, i)
  {
    hide Host.HostStep;
    assert ([a] + log)[1..] == log;
  }

  // ---- Births, heard ----

  /** Hearing a first message that brings the host to `h2`, then the rest. */
  lemma HearsMore(h: Engine, a: Action, log: seq<Action>, ticks: nat -> Tick, i: nat, event: HostEvent,
                  events: seq<HostEvent>, h2: Engine)
    requires a.Published? && HostStep(h, a.msg.message, ticks(i)) == HostOutcome(h2, Ok(event), [])
    requires Hears(Hear(h2, log, ticks, i + 1), events)
    ensures Hears(Hear(h, [a] + log, ticks, i), [event] + events)
    ensures HostAfter(h, [a] + log, ticks, i) == HostAfter(h2, log, ticks, i + 1)
  {
    hide Host.HostStep, Hear, HostAfter;
    HearCons(h, a, log, ticks, i);
  }

  /** The devices still to be born, each once and none of them born yet. */
  predicate Waiting(cfg: EdgeConfig, e: EdgeView, devices: seq<Id>) {
    && Distinct(devices)
    && forall d <- devices :: d in cfg.devices && d !in e.born
  }

  lemma FirstWaiting(cfg: EdgeConfig, e: EdgeView, src: Source, devices: seq<Id>)
    requires Waiting(cfg, e, devices) && devices != []
    ensures devices[0] in cfg.devices && devices[0] !in e.born
    ensures Waiting(cfg, DeviceBorn(cfg, e, src, devices[0]), devices[1..])
  {
    hide Assign;
    assert devices[0] in devices;
    forall d | d in devices[1..] ensures d in cfg.devices && d !in e.born + [devices[0]] {
      var k :| 0 <= k < |devices| - 1 && devices[1..][k] == d;
      assert devices[k + 1] == d && devices[0] != devices[k + 1];
      assert d in devices;
    }
  }

  lemma SmallTail(a: Action, log: seq<Action>)
    requires Small([a] + log)
    ensures Small(log) && (a.Published? ==> |a.msg.message.payload| < TWO64)
  {
    assert ([a] + log)[0] == a && a in [a] + log;
    assert forall x <- log :: x in [a] + log;
  }

  lemma DeviceBirthHeard(cfg: EdgeConfig, e: EdgeView, src: Source, device: Id, ts: u64, h: Engine, tick: Tick)
    requires GoodSource(cfg, src) && device in cfg.devices && device !in e.born && RoomFor(cfg, src, e, device)
    requires |DeviceBirthMessage(cfg, e, src, device, ts).message.payload| < TWO64 && Follows(cfg, src, e, h)
    ensures var metrics := Stamp(Assign(cfg, e.aliases, e.nextAlias, src.device(device)).metrics, ts);
      var o := HostStep(h, DeviceBirthMessage(cfg, e, src, device, ts).message, tick);
      && o == HostOutcome(o.host, Ok(DeviceBirth(cfg.group, cfg.edge, device, metrics)), [])
      && Follows(cfg, src, DeviceBorn(cfg, e, src, device), o.host)
  {
    hide Host.NodeStep, Host.HostStep, Joined, GoodSource, RoomFor, DeviceBorn, Host.Key, EdgeConfig.DeviceTopic;
    hide Encode.EncodePayload, Assign;
    var n := h.Lookup(Key(Peer(cfg))).value;
    DeviceBirthJoins(cfg, e, src, device, ts, n, h.debounce, tick);
    var payload := DeviceBirthMessage(cfg, e, src, device, ts).message.payload;
    RouteDevice(cfg, h, device, DBirth, payload, tick);
    StoredThere(h, Key(Peer(cfg)),
                NodeStep(h.debounce, Peer(cfg), Some(n), NodeMessage(DBirth, device, payload), tick).node);
  }

  lemma {:induction false} DeviceBirthsHeard(cfg: EdgeConfig, e: EdgeView, src: Source, env: Env, calls: nat, at: nat,
                                             devices: seq<Id>,
                                             h: Engine, ticks: nat -> Tick, i: nat)
    requires GoodSource(cfg, src) && Waiting(cfg, e, devices) && Room(cfg, src, e, devices) && Follows(cfg, src, e, h)
    requires var out := PublishDeviceBirths(cfg, e, src, env, calls, at, devices); out.result.Ok? && Small(out.log)
    ensures var out := PublishDeviceBirths(cfg, e, src, env, calls, at, devices);
      && out.edge.state == Online && Follows(cfg, src, out.edge, HostAfter(h, out.log, ticks, i))
      && Hears(Hear(h, out.log, ticks, i), DeviceEvents(cfg, e, src, env, at, devices))
    decreases |devices|
  {
    hide Host.HostStep, Follows, Hears, GoodSource, RoomFor, Room, DeviceBorn, DeviceBirthMessage, Waiting, Small;
    hide Hear, HostAfter;
    hide PublishDeviceBirths, DeviceEvents, Assign, Stamp;
    if devices == [] {
      NoDevicesLeft(cfg, e, src, env, calls, at, h, ticks, i);
    } else {
      var d := devices[0];
      FirstWaiting(cfg, e, src, devices);
      GoodDevice(cfg, src, d);
      RoomKept(cfg, src, e, devices);
      var next := DeviceBorn(cfg, e, src, d);
      DevicesUnfold(cfg, e, src, env, calls, at, devices);
      var rest := PublishDeviceBirths(cfg, next, src, env, calls + 1, at + 1, devices[1..]);
      var first := Published(DeviceBirthMessage(cfg, e, src, d, env.wall(at)));
      SmallTail(first, rest.log);
      DeviceBirthHeard(cfg, e, src, d, env.wall(at), h, ticks(i));
      var o := HostStep(h, first.msg.message, ticks(i));
      DeviceBirthsHeard(cfg, next, src, env, calls + 1, at + 1, devices[1..], o.host, ticks, i + 1);
      HearsMore(h, first, rest.log, ticks, i, o.event.value, DeviceEvents(cfg, next, src, env, at + 1, devices[1..]),
                o.host);
    }
  }

  lemma DevicesUnfold(cfg: EdgeConfig, e: EdgeView, src: Source, env: Env, calls: nat, at: nat, devices: seq<Id>)
    requires devices != [] && PublishDeviceBirths(cfg, e, src, env, calls, at, devices).result.Ok?
    ensures var next := DeviceBorn(cfg, e, src, devices[0]);
      var rest := PublishDeviceBirths(cfg, next, src, env, calls + 1, at + 1, devices[1..]);
      && PublishDeviceBirths(cfg, e, src, env, calls, at, devices)
           == rest.(log := [Published(DeviceBirthMessage(cfg, e, src, devices[0], env.wall(at)))] + rest.log)
      && DeviceEvents(cfg, e, src, env, at, devices)
           == [DeviceBirth(cfg.group, cfg.edge, devices[0],
                           Stamp(Assign(cfg, e.aliases, e.nextAlias, src.device(devices[0])).metrics, env.wall(at)))]
              + DeviceEvents(cfg, next, src, env, at + 1, devices[1..])
  {
    hide Assign, Stamp, DeviceBirthMessage;
  }

  lemma GoodDevice(cfg: EdgeConfig, src: Source, device: Id)
    requires GoodSource(cfg, src) && device in cfg.devices
    ensures AliasFree(src.device(device))
  {
  }

  lemma NoDevicesLeft(cfg: EdgeConfig, e: EdgeView, src: Source, env: Env, calls: nat, at: nat, h: Engine,
                      ticks: nat -> Tick, i: nat)
    requires Follows(cfg, src, e, h)
    ensures var out := PublishDeviceBirths(cfg, e, src, env, calls, at, []);
      && out.edge.state == Online && Follows(cfg, src, out.edge, HostAfter(h, out.log, ticks, i))
      && Hears(Hear(h, out.log, ticks, i), DeviceEvents(cfg, e, src, env, at, []))
  {
    hide Joined, Host.HostStep, DeviceAssigned, DeviceBirthMessage, Assign, Stamp, Host.Key;
    SameJoined(cfg, src, e, e.(state := Online), h.Lookup(Key(Peer(cfg))).value);
  }

  /** Being in step is about the numbers, the aliases and the born devices only. */
  lemma SameJoined(cfg: EdgeConfig, src: Source, e: EdgeView, f: EdgeView, n: NodeState)
    requires Joined(cfg, src, e, n)
    requires f.seqNo == e.seqNo && f.bdSeq == e.bdSeq && f.aliases == e.aliases && f.born == e.born
    ensures Joined(cfg, src, f, n)
  {
    hide Understands, WithControls, Distinct;
  }

  lemma NodeBirthHeard(cfg: EdgeConfig, e: EdgeView, src: Source, ts: u64, h: Engine, tick: Tick)
    requires GoodSource(cfg, src) && |NodeBirthMessage(cfg, e, src, ts).message.payload| < TWO64
    ensures var o := HostStep(h, NodeBirthMessage(cfg, e, src, ts).message, tick);
      && o == HostOutcome(o.host, Ok(NodeBirth(cfg.group, cfg.edge, Stamp(NodeBirthMetrics(cfg, e, src).metrics, ts))),
                          [])
      && Follows(cfg, src, NodeBorn(cfg, e, src), o.host)
  {
    hide Host.NodeStep, Host.HostStep, Joined, GoodSource, NodeBorn, Host.Key, EdgeConfig.NodeTopic;
    hide Encode.EncodePayload, NodeBirthMetrics, Stamp;
    var node := h.Lookup(Key(Peer(cfg)));
    NodeBirthJoins(cfg, e, src, ts, node, h.debounce, tick);
    var payload := NodeBirthMessage(cfg, e, src, ts).message.payload;
    RouteNode(cfg, h, NBirth, payload, tick);
    StoredThere(h, Key(Peer(cfg)), NodeStep(h.debounce, Peer(cfg), node, NodeMessage(NBirth, "", payload), tick).node);
  }

  lemma RoomAtBirth(cfg: EdgeConfig, e: EdgeView, src: Source)
    requires GoodSource(cfg, src)
    ensures Room(cfg, src, NodeBorn(cfg, e, src), cfg.devices)
    ensures NodeBorn(cfg, e, src).born == []
  {
    hide GoodSource, NodeBirthMetrics, Stamp, Fits, Host.BdSeqOf, Understands, CountAliased, CountDevices;
    hide Base.ValidUtf8;
    BornMetrics(cfg, e, src, 0);
    RoomInSource(cfg, src);
  }

  lemma RoomInSource(cfg: EdgeConfig, src: Source)
    requires GoodSource(cfg, src)
    ensures CountAliased(src.node) + CountDevices(src, cfg.devices) < TWO64
  {
    hide Fits, AliasFree, Mentions, Apart, CountAliased, CountDevices, Base.ValidUtf8;
  }

  /** A birth sequence brings any host in step, which hears each birth as published. */
  lemma BirthsHeard(cfg: EdgeConfig, e: EdgeView, src: Source, env: Env, calls: nat, at: nat, h: Engine,
                    ticks: nat -> Tick)
    requires GoodSource(cfg, src) && Distinct(cfg.devices)
    requires var out := PublishBirths(cfg, e, src, env, calls, at); out.result.Ok? && Small(out.log)
    ensures var out := PublishBirths(cfg, e, src, env, calls, at);
      && out.edge.state == Online && Follows(cfg, src, out.edge, HostAfter(h, out.log, ticks, 0))
      && Hears(Hear(h, out.log, ticks, 0), BirthEvents(cfg, e, src, env, at)) && out.log != []
  {
    hide Host.HostStep, Follows, Hears, GoodSource, Room, Small, Hear, HostAfter, NodeBorn, NodeBirthMessage;
    hide NodeBirthMetrics, Stamp;
    hide PublishDeviceBirths, DeviceEvents, Distinct;
    RoomAtBirth(cfg, e, src);
    var born := NodeBorn(cfg, e, src);
    var rest := PublishDeviceBirths(cfg, born, src, env, calls + 1, at + 1, cfg.devices);
    var first := Published(NodeBirthMessage(cfg, e, src, env.wall(at)));
    SmallTail(first, rest.log);
    NodeBirthHeard(cfg, e, src, env.wall(at), h, ticks(0));
    var o := HostStep(h, first.msg.message, ticks(0));
    DeviceBirthsHeard(cfg, born, src, env, calls + 1, at + 1, cfg.devices, o.host, ticks, 1);
    HearsMore(h, first, rest.log, ticks, 0, o.event.value, DeviceEvents(cfg, born, src, env, at + 1, cfg.devices),
              o.host);
  }

  /** Birth events depend on the bdSeq and, without aliasing, on nothing else. */
  lemma {:induction false} SameDeviceEvents(cfg: EdgeConfig, e: EdgeView, f: EdgeView, src: Source, env: Env, at: nat,
                                            devices: seq<Id>)
    requires f.aliases == e.aliases && f.nextAlias == e.nextAlias
    ensures DeviceEvents(cfg, e, src, env, at, devices) == DeviceEvents(cfg, f, src, env, at, devices)
    decreases |devices|
  {
    hide Assign, Stamp;
    if devices != [] {
      SameDeviceEvents(cfg, DeviceBorn(cfg, e, src, devices[0]), DeviceBorn(cfg, f, src, devices[0]), src, env, at + 1,
                       devices[1..]);
    }
  }

  lemma SameBirthEvents(cfg: EdgeConfig, e: EdgeView, f: EdgeView, src: Source, env: Env, at: nat)
    requires f.aliases == e.aliases && f.nextAlias == e.nextAlias && f.bdSeq == e.bdSeq
    ensures BirthEvents(cfg, e, src, env, at) == BirthEvents(cfg, f, src, env, at)
  {
    hide Assign, Stamp, DeviceEvents, WithControls;
    SameDeviceEvents(cfg, NodeBorn(cfg, e, src), NodeBorn(cfg, f, src), src, env, at + 1, cfg.devices);
  }

  lemma HearingIsContent(outs: seq<HostOutcome>, events: seq<HostEvent>)
    requires Hears(outs, events) && forall e <- events :: !e.RebirthRequested?
    ensures Content(outs)
  {
    forall o | o in outs ensures o.sent == [] && o.event.Ok? && !o.event.value.RebirthRequested? {
      var k :| 0 <= k < |outs| && outs[k] == o;
      assert events[k] in events;
    }
  }

  lemma {:induction false} BirthsAreBirths(cfg: EdgeConfig, e: EdgeView, src: Source, env: Env, at: nat,
                                           devices: seq<Id>)
    ensures forall x <- DeviceEvents(cfg, e, src, env, at, devices) :: x.DeviceBirth?
    decreases |devices|
  {
    hide Assign, Stamp, DeviceBorn;
    if devices != [] { BirthsAreBirths(cfg, DeviceBorn(cfg, e, src, devices[0]), src, env, at + 1, devices[1..]); }
  }

  lemma BirthsContent(cfg: EdgeConfig, e: EdgeView, src: Source, env: Env, at: nat, outs: seq<HostOutcome>)
    requires Hears(outs, BirthEvents(cfg, e, src, env, at))
    ensures Content(outs)
  {
    hide Content, Hears, DeviceEvents, NodeBirthMetrics, NodeBorn, Stamp;
    BirthsAreBirths(cfg, NodeBorn(cfg, e, src), src, env, at + 1, cfg.devices);
    HearingIsContent(outs, BirthEvents(cfg, e, src, env, at));
  }

  // ---- Data and deaths, heard ----

  lemma HearOne(h: Engine, m: Outbound, ticks: nat -> Tick)
    ensures Hear(h, [Published(m)], ticks, 0) == [HostStep(h, m.message, ticks(0))]
    ensures HostAfter(h, [Published(m)], ticks, 0) == HostStep(h, m.message, ticks(0)).host
  {
    hide Host.HostStep;
    var o := HostStep(h, m.message, ticks(0));
    HearCons(h, Published(m), [], ticks, 0);
    Units([Published(m)]);
    Units([o]);
  }

  lemma HearNothing(h: Engine, ticks: nat -> Tick)
    ensures Hear(h, [], ticks, 0) == [] && HostAfter(h, [], ticks, 0) == h
  {
    hide Host.HostStep;
  }

  lemma NodeDataHeard(cfg: EdgeConfig, e: EdgeView, src: Source, ms: seq<Metric>, ts: u64, h: Engine, tick: Tick)
    requires Follows(cfg, src, e, h) && AllDeclared(NodeMetrics(e, src), ms)
    requires |EncodePayload(DataPayload(cfg, e, ms, ts), true)| < TWO64
    ensures var o := HostStep(h, Send(cfg.NodeTopic(NData), DataPayload(cfg, e, ms, ts), true).message, tick);
      && Follows(cfg, src, e.(seqNo := Next(e.seqNo)), o.host) && o.sent == []
      && o.event.Ok? && o.event.value.NodeData? && o.event.value.group == cfg.group && o.event.value.edge == cfg.edge
      && Carries(ms, o.event.value.metrics, ts)
  {
    hide Host.NodeStep, Host.HostStep, Joined, Host.Key, EdgeConfig.NodeTopic, Encode.EncodePayload, DataPayload;
    hide AllDeclared, Carries, WithControls;
    var n := h.Lookup(Key(Peer(cfg))).value;
    NodeDataJoins(cfg, e, src, ms, ts, n, h.debounce, tick);
    var payload := EncodePayload(DataPayload(cfg, e, ms, ts), true);
    RouteNode(cfg, h, NData, payload, tick);
    StoredThere(h, Key(Peer(cfg)),
                NodeStep(h.debounce, Peer(cfg), Some(n), NodeMessage(NData, "", payload), tick).node);
  }

  lemma DeviceDataHeard(cfg: EdgeConfig, e: EdgeView, src: Source, device: Id, ms: seq<Metric>, ts: u64, h: Engine,
                        tick: Tick)
    requires Follows(cfg, src, e, h) && device in e.born && AllDeclared(src.device(device), ms)
    requires |EncodePayload(DataPayload(cfg, e, ms, ts), true)| < TWO64
    ensures var o := HostStep(h, Send(cfg.DeviceTopic(device, DData), DataPayload(cfg, e, ms, ts), true).message, tick);
      && Follows(cfg, src, e.(seqNo := Next(e.seqNo)), o.host) && o.sent == []
      && o.event.Ok? && o.event.value.DeviceData? && o.event.value.group == cfg.group && o.event.value.edge == cfg.edge
      && o.event.value.device == device && Carries(ms, o.event.value.metrics, ts)
  {
    hide Host.NodeStep, Host.HostStep, Joined, Host.Key, EdgeConfig.DeviceTopic, Encode.EncodePayload, DataPayload;
    hide AllDeclared, Carries;
    var n := h.Lookup(Key(Peer(cfg))).value;
    DeviceDataJoins(cfg, e, src, device, ms, ts, n, h.debounce, tick);
    var payload := EncodePayload(DataPayload(cfg, e, ms, ts), true);
    RouteDevice(cfg, h, device, DData, payload, tick);
    StoredThere(h, Key(Peer(cfg)),
                NodeStep(h.debounce, Peer(cfg), Some(n), NodeMessage(DData, device, payload), tick).node);
  }

  lemma DeviceDeathHeard(cfg: EdgeConfig, e: EdgeView, src: Source, device: Id, ts: u64, h: Engine, tick: Tick)
    requires Follows(cfg, src, e, h) && device in e.born
    ensures var o := HostStep(h, Send(cfg.DeviceTopic(device, DDeath), Sequenced([], e.seqNo, ts), false).message,
                              tick);
      && Follows(cfg, src, e.(seqNo := Next(e.seqNo), born := Without(e.born, device)), o.host)
      && o == HostOutcome(o.host, Ok(DeviceDeath(cfg.group, cfg.edge, device, DeathTime(Some(ts), tick.wall))), [])
  {
    hide Host.NodeStep, Host.HostStep, Joined, Host.Key, EdgeConfig.DeviceTopic, Encode.EncodePayload, Without;
    var n := h.Lookup(Key(Peer(cfg))).value;
    DeviceDeathJoins(cfg, e, src, device, ts, n, h.debounce, tick);
    var payload := EncodePayload(Sequenced([], e.seqNo, ts), false);
    RouteDevice(cfg, h, device, DDeath, payload, tick);
    StoredThere(h, Key(Peer(cfg)),
                NodeStep(h.debounce, Peer(cfg), Some(n), NodeMessage(DDeath, device, payload), tick).node);
  }

  lemma NodeDeathHeard(cfg: EdgeConfig, e: EdgeView, ts: u64, h: Engine, tick: Tick)
    ensures var o := HostStep(h, Death(cfg, e.bdSeq, ts).message, tick);
      && o.sent == [] && o.event.Ok? && !o.event.value.RebirthRequested?
      && forall src :: Follows(cfg, src, e, h) ==>
           o.event == Ok(NodeDeath(cfg.group, cfg.edge, DeathTime(Some(ts), tick.wall), Names.Listing(BornSet(e.born))))
  {
    hide Host.NodeStep, Host.HostStep, Host.Key, EdgeConfig.NodeTopic, Encode.EncodePayload, Understands;
    hide WithControls, Names.Listing, DeathPayload;
    var node := h.Lookup(Key(Peer(cfg)));
    DeathHeard(cfg, e.bdSeq, ts, node, h.debounce, tick);
    RouteNode(cfg, h, NDeath, EncodePayload(DeathPayload(e.bdSeq, ts), false), tick);
    forall src | Follows(cfg, src, e, h) ensures node.value.OnlineDevices() == BornSet(e.born) {
      assert forall d :: d in node.value.OnlineDevices() <==> node.value.DeviceOnline(d);
    }
  }

  // ---- One round ----

  ghost predicate Fine(cfg: EdgeConfig, s: System, r: Round) {
    hide Edge.EdgeStep, Told, Hear, InStep, Advance;
    Told(cfg, s.edge, r.call, Hear(s.host, EdgeStep(cfg, s.edge, r.call).log, r.ticks, 0), r.ticks)
      && InStep(cfg, Advance(cfg, s, r))
  }

  lemma NodeDataRound(cfg: EdgeConfig, s: System, r: Round)
    requires r.call.DoNodeData? && InStep(cfg, s) && Admissible(cfg, s, r.call)
    ensures Fine(cfg, s, r)
  {
    hide Host.HostStep, Follows, Hear, HostAfter, Encode.EncodePayload, EdgeConfig.NodeTopic, Stamp, ToData;
    hide AllDeclared, WithControls, Carries, BirthEvents;
    hide Connect, PublishBirths, PublishDeviceData, PublishDeviceDeath, HandleIncoming, Disconnect, GoodSource, Hears;
    var ms, env, e := r.call.metrics, r.call.env, s.edge;
    HearNothing(s.host, r.ticks);
    if e.state == Online {
      var msg := Send(cfg.NodeTopic(NData), DataPayload(cfg, e, ms, env.wall(0)), true);
      assert EdgeStep(cfg, e, r.call).log == [Published(msg)];
      assert Published(msg) in [Published(msg)];
      NodeDataHeard(cfg, e, s.src, ms, env.wall(0), s.host, r.ticks(0));
      HearOne(s.host, msg, r.ticks);
    }
  }

  lemma DeviceDataRound(cfg: EdgeConfig, s: System, r: Round)
    requires r.call.DoDeviceData? && InStep(cfg, s) && Admissible(cfg, s, r.call)
    ensures Fine(cfg, s, r)
  {
    hide Host.HostStep, Follows, Hear, HostAfter, Encode.EncodePayload, EdgeConfig.DeviceTopic, Stamp, ToData;
    hide AllDeclared, WithControls, Carries, BirthEvents;
    hide Connect, PublishBirths, PublishNodeData, PublishDeviceDeath, HandleIncoming, Disconnect, GoodSource, Hears;
    hide ValidId;
    var ms, env, e, d := r.call.metrics, r.call.env, s.edge, r.call.device;
    HearNothing(s.host, r.ticks);
    if d in e.born {
      BornValid(cfg, s.src, e, s.host, d);
      var msg := Send(cfg.DeviceTopic(d, DData), DataPayload(cfg, e, ms, env.wall(0)), true);
      assert EdgeStep(cfg, e, r.call).log == [Published(msg)];
      assert Published(msg) in [Published(msg)];
      DeviceDataHeard(cfg, e, s.src, d, ms, env.wall(0), s.host, r.ticks(0));
      HearOne(s.host, msg, r.ticks);
    }
  }

  lemma BornValid(cfg: EdgeConfig, src: Source, e: EdgeView, h: Engine, device: string)
    requires Follows(cfg, src, e, h) && device in e.born
    ensures ValidId(device)
  {
    hide Understands, WithControls;
  }

  lemma DeviceDeathRound(cfg: EdgeConfig, s: System, r: Round)
    requires r.call.DoDeviceDeath? && InStep(cfg, s) && Admissible(cfg, s, r.call)
    ensures Fine(cfg, s, r)
  {
    hide Host.HostStep, Follows, Hear, HostAfter, Encode.EncodePayload, EdgeConfig.DeviceTopic, BirthEvents;
    hide AllDeclared, Carries;
    hide Connect, PublishBirths, PublishNodeData, PublishDeviceData, PublishDeviceDeath, HandleIncoming, Disconnect;
    hide GoodSource, ValidId, Without;
    hide Hears, Content, NodeMetrics, Small, Sequenced;
    var env, e, d := r.call.env, s.edge, r.call.device;
    HearNothing(s.host, r.ticks);
    NothingHeard();
    DeviceDeathEnd(cfg, e, d, env);
    if d in e.born {
      BornValid(cfg, s.src, e, s.host, d);
      var msg := Send(cfg.DeviceTopic(d, DDeath), Sequenced([], e.seqNo, env.wall(0)), false);
      SmallOne(msg);
      DeviceDeathHeard(cfg, e, s.src, d, env.wall(0), s.host, r.ticks(0));
      HearOne(s.host, msg, r.ticks);
      OneEvent(HostStep(s.host, msg.message, r.ticks(0)));
    }
  }

  lemma DeviceDeathEnd(cfg: EdgeConfig, e: EdgeView, device: string, env: Env)
    ensures var out := PublishDeviceDeath(cfg, e, device, env);
      if device !in e.born then out == EdgeOut(e, [], Err(InvalidTopic))
      else if !ValidId(device) then out == EdgeOut(e, [], Err(InvalidId))
      else if env.budget == 0 then out.result == Err(Transport)
      else out == EdgeOut(e.(seqNo := Next(e.seqNo), born := Without(e.born, device)),
                          [Published(Send(cfg.DeviceTopic(device, DDeath), Sequenced([], e.seqNo, env.wall(0)),
                                          false))], Ok(()))
  {
    hide Send, ValidId, Without, EdgeConfig.DeviceTopic;
  }

  lemma SmallOne(m: Outbound)
    ensures Small([Published(m)]) ==> |m.message.payload| < TWO64
  {
    assert Published(m) in [Published(m)];
  }

  lemma OneEvent(o: HostOutcome)
    requires o.sent == [] && o.event.Ok? && !o.event.value.RebirthRequested?
    ensures Hears([o], [o.event.value]) && Content([o])
  {
  }

  lemma NothingHeard()
    ensures Content([])
  {
  }

  /** A disconnect ends the edge's session, and the host's with it when it was in step. */
  lemma LeavingHeard(cfg: EdgeConfig, e: EdgeView, env: Env, h: Engine, ticks: nat -> Tick)
    requires Disconnect(cfg, e, env).result.Ok? && Small(Disconnect(cfg, e, env).log)
    ensures var outs := Hear(h, Disconnect(cfg, e, env).log, ticks, 0);
      && Content(outs)
      && forall src :: Follows(cfg, src, e, h) ==> Hears(outs, [DeathEvent(cfg, e, env, ticks)])
  {
    hide Host.HostStep, Hear, HostAfter, Encode.EncodePayload, EdgeConfig.NodeTopic, Follows, Names.Listing;
    hide DeathPayload;
    var msg := Death(cfg, e.bdSeq, env.wall(0));
    assert Published(msg) in Disconnect(cfg, e, env).log;
    NodeDeathHeard(cfg, e, env.wall(0), h, ticks(0));
    var o := HostStep(h, msg.message, ticks(0));
    assert [Published(msg)] + [Closed] == [Published(msg), Closed];
    HearCons(h, Published(msg), [Closed], ticks, 0);
    HearClosed(o.host, ticks);
  }

  lemma HearClosed(h: Engine, ticks: nat -> Tick)
    ensures Hear(h, [Closed], ticks, 1) == []
  {
    hide Host.HostStep;
    assert [Closed][1..] == [];
  }

  lemma DisconnectRound(cfg: EdgeConfig, s: System, r: Round)
    requires r.call.DoDisconnect? && InStep(cfg, s) && Admissible(cfg, s, r.call)
    ensures Fine(cfg, s, r)
  {
    hide Host.HostStep, Follows, Hear, HostAfter, BirthEvents, AllDeclared, Carries, Content, Hears, Small;
    hide Names.Listing;
    hide Connect, PublishBirths, PublishNodeData, PublishDeviceData, PublishDeviceDeath, HandleIncoming, GoodSource;
    hide Disconnect, NodeMetrics;
    DisconnectEnd(cfg, s.edge, r.call.env);
    LeavingHeard(cfg, s.edge, r.call.env, s.host, r.ticks);
  }

  lemma DisconnectEnd(cfg: EdgeConfig, e: EdgeView, env: Env)
    ensures var out := Disconnect(cfg, e, env);
      (out.result.Ok? ==> out.edge.state == Disconnected) && (out.result.Err? ==> out.result.error == Transport)
  {
    hide Death;
  }

  lemma BirthsRound(cfg: EdgeConfig, s: System, r: Round)
    requires r.call.DoBirths? && Admissible(cfg, s, r.call) && Distinct(cfg.devices)
    ensures Fine(cfg, s, r)
  {
    hide Host.HostStep, Follows, Hear, HostAfter, BirthEvents, AllDeclared, Carries, Content, Hears, Small;
    hide Connect, PublishNodeData, PublishDeviceData, PublishDeviceDeath, HandleIncoming, Disconnect, GoodSource;
    hide Distinct;
    hide NodeBirthMessage, NodeBorn, PublishDeviceBirths;
    var src, env := r.call.src, r.call.env;
    BirthsEnd(cfg, s.edge, src, env, 0, 0);
    BirthsHeard(cfg, s.edge, src, env, 0, 0, s.host, r.ticks);
    BirthsContent(cfg, s.edge, src, env, 0, Hear(s.host, EdgeStep(cfg, s.edge, r.call).log, r.ticks, 0));
  }

  /** A birth sequence that succeeds leaves the edge online, having sent something. */
  lemma BirthsEnd(cfg: EdgeConfig, e: EdgeView, src: Source, env: Env, calls: nat, at: nat)
    ensures var out := PublishBirths(cfg, e, src, env, calls, at);
      (out.result.Ok? ==> out.edge.state == Online && out.log != [])
        && (out.result.Err? ==> out.result.error == Transport)
  {
    hide NodeBorn, NodeBirthMessage, PublishDeviceBirths;
    DevicesEnd(cfg, NodeBorn(cfg, e, src), src, env, calls + 1, at + 1, cfg.devices);
  }

  lemma {:induction false} DevicesEnd(cfg: EdgeConfig, e: EdgeView, src: Source, env: Env, calls: nat, at: nat,
                                      devices: seq<Id>)
    ensures var out := PublishDeviceBirths(cfg, e, src, env, calls, at, devices);
      (out.result.Ok? ==> out.edge.state == Online) && (out.result.Err? ==> out.result.error == Transport)
    decreases |devices|
  {
    hide DeviceAssigned, DeviceBirthMessage;
    if devices != [] {
      var built := DeviceAssigned(cfg, e, src, devices[0]);
      DevicesEnd(cfg, built.(born := e.born + [devices[0]]), src, env, calls + 1, at + 1, devices[1..]);
    }
  }

  // ---- Connecting ----

  predicate Unpublished(log: seq<Action>) { forall a <- log :: !a.Published? }

  lemma {:induction false} HearQuiet(h: Engine, quiet: seq<Action>, log: seq<Action>, ticks: nat -> Tick)
    requires Unpublished(quiet)
    ensures Hear(h, quiet + log, ticks, 0) == Hear(h, log, ticks, 0)
    ensures HostAfter(h, quiet + log, ticks, 0) == HostAfter(h, log, ticks, 0)
    decreases |quiet|
  {
    hide Hear, HostAfter, Host.HostStep;
    if quiet == [] {
      Units(log);
    } else {
      assert quiet[0] in quiet && forall a <- quiet[1..] :: a in quiet;
      assert quiet + log == [quiet[0]] + (quiet[1..] + log);
      HearCons(h, quiet[0], quiet[1..] + log, ticks, 0);
      HearQuiet(h, quiet[1..], log, ticks);
    }
  }

  lemma {:induction false} CommandsUnpublished(cfg: EdgeConfig, devices: seq<Id>)
    ensures Unpublished(Commands(cfg, devices))
    decreases |devices|
  {
    hide EdgeConfig.DeviceTopic;
    if devices != [] { CommandsUnpublished(cfg, devices[1..]); }
  }

  lemma PreludeUnpublished(cfg: EdgeConfig, will: Outbound)
    ensures Unpublished(Prelude(cfg, will)) && Prelude(cfg, will) != []
  {
    hide Commands, EdgeConfig.NodeTopic;
    CommandsUnpublished(cfg, cfg.devices);
  }

  lemma SmallSuffix(a: seq<Action>, b: seq<Action>)
    requires Small(a + b)
    ensures Small(b)
  {
    assert forall x <- b :: x in a + b;
  }

  lemma ConnectEnd(cfg: EdgeConfig, e: EdgeView, src: Source, env: Env)
    ensures var out := Connect(cfg, e, src, env);
      var prelude := Prelude(cfg, Death(cfg, e.stored, env.wall(0)));
      if env.budget < |prelude| then out.result == Err(Transport)
      else if cfg.primaryHost.Some? then out == EdgeOut(Numbered(e).(state := WaitingForPrimaryHost), prelude, Ok(()))
      else
        var births := PublishBirths(cfg, Numbered(e), src, env, |prelude|, 1);
        out == births.(log := prelude + births.log)
  {
    hide Prelude, Death, PublishBirths;
  }

  lemma ConnectRound(cfg: EdgeConfig, s: System, r: Round)
    requires r.call.DoConnect? && Admissible(cfg, s, r.call) && Distinct(cfg.devices)
    ensures Fine(cfg, s, r)
  {
    hide Host.HostStep, Follows, Hear, HostAfter, BirthEvents, AllDeclared, Carries, Content, Hears, Small, Prelude;
    hide Death, Distinct, Unpublished;
    hide Connect, PublishBirths, PublishNodeData, PublishDeviceData, PublishDeviceDeath, HandleIncoming, GoodSource;
    hide Disconnect, NodeMetrics;
    var e, src, env := s.edge, r.call.src, r.call.env;
    var prelude := Prelude(cfg, Death(cfg, e.stored, env.wall(0)));
    ConnectEnd(cfg, e, src, env);
    PreludeUnpublished(cfg, Death(cfg, e.stored, env.wall(0)));
    if cfg.primaryHost.Some? {
      HearQuiet(s.host, prelude, [], r.ticks);
      Units(prelude);
      HearNothing(s.host, r.ticks);
      NothingHeard();
    } else {
      var births := PublishBirths(cfg, Numbered(e), src, env, |prelude|, 1);
      BirthsEnd(cfg, Numbered(e), src, env, |prelude|, 1);
      SmallSuffix(prelude, births.log);
      HearQuiet(s.host, prelude, births.log, r.ticks);
      BirthsHeard(cfg, Numbered(e), src, env, |prelude|, 1, s.host, r.ticks);
      BirthsContent(cfg, Numbered(e), src, env, 1, Hear(s.host, births.log, r.ticks, 0));
    }
  }

  // ---- Inbound messages ----

  /** The edge it leaves differs in the STATE timestamp at most. */
  predicate Near(e: EdgeView, f: EdgeView) { f == e.(lastStateTs := f.lastStateTs) }

  predicate SetsOffBirths<T>(cfg: EdgeConfig, e: EdgeView, from: EdgeView, src: Source, env: Env, out: EdgeOut<T>) {
    hide PublishBirths;
    var births := PublishBirths(cfg, from, src, env, 0, 0);
    && Near(e, from) && out.log == births.log && out.edge == births.edge.(lastRebirth := out.edge.lastRebirth)
    && (if births.result.Ok? then out.result.Ok? else out.result == Err(births.result.error))
  }

  predicate SetsOffLeaving<T>(cfg: EdgeConfig, e: EdgeView, from: EdgeView, env: Env, out: EdgeOut<T>) {
    hide Disconnect;
    var leaving := Disconnect(cfg, from, env);
    && Near(e, from) && e.state == Online && out.log == leaving.log && out.edge == leaving.edge
    && (if leaving.result.Ok? then out.result.Ok? else out.result == Err(leaving.result.error))
  }

  /** An inbound message changes nothing but the STATE timestamp, or sets off births, or ends an online session. */
  lemma IncomingCases(cfg: EdgeConfig, e: EdgeView, m: Message, src: Source, env: Env)
    ensures var out := HandleIncoming(cfg, e, m, src, env);
      || (out.log == [] && Near(e, out.edge))
      || (exists from :: SetsOffBirths(cfg, e, from, src, env, out))
      || (exists from :: SetsOffLeaving(cfg, e, from, env, out))
  {
    hide Decode.DecodePayload, PublishBirths, Disconnect, Topic.Parse, Messages.ReadState, AsksRebirth;
    hide SetsOffBirths, SetsOffLeaving;
    NodeCommandCases(cfg, e, m.payload, src, env);
    if Parse(m.topic).Ok? && Parse(m.topic).value.HostState? {
      HostStateCases(cfg, e, Parse(m.topic).value.hostId, m.payload, src, env);
    }
  }

  lemma NodeCommandCases(cfg: EdgeConfig, e: EdgeView, payload: bytes, src: Source, env: Env)
    ensures var out := OnNodeCommand(cfg, e, payload, src, env);
      (out.log == [] && Near(e, out.edge)) || SetsOffBirths(cfg, e, e, src, env, out)
  {
    hide Decode.DecodePayload, PublishBirths, AsksRebirth;
  }

  lemma HostStateCases(cfg: EdgeConfig, e: EdgeView, hostId: string, payload: bytes, src: Source, env: Env)
    ensures var out := OnHostState(cfg, e, hostId, payload, src, env);
      || (out.log == [] && Near(e, out.edge))
      || (exists from :: SetsOffBirths(cfg, e, from, src, env, out))
      || (exists from :: SetsOffLeaving(cfg, e, from, env, out))
  {
    hide PublishBirths, Disconnect, Messages.ReadState;
    if ReadState(payload).Ok? {
      var seen := e.(lastStateTs := Some(ReadState(payload).value.timestamp));
      var out := OnHostState(cfg, e, hostId, payload, src, env);
      assert SetsOffBirths(cfg, e, seen, src, env, out) || SetsOffLeaving(cfg, e, seen, env, out)
             || (out.log == [] && Near(e, out.edge));
    }
  }

  lemma FollowsNear(cfg: EdgeConfig, src: Source, e: EdgeView, f: EdgeView, h: Engine)
    requires Follows(cfg, src, e, h)
    requires f.seqNo == e.seqNo && f.bdSeq == e.bdSeq && f.aliases == e.aliases && f.born == e.born
    ensures Follows(cfg, src, f, h)
  {
    hide Joined, Host.Key;
    SameJoined(cfg, src, e, f, h.Lookup(Key(Peer(cfg))).value);
  }

  lemma IncomingQuiet(cfg: EdgeConfig, s: System, r: Round)
    requires r.call.DoIncoming? && InStep(cfg, s) && EdgeStep(cfg, s.edge, r.call).log == []
    requires Near(s.edge, EdgeStep(cfg, s.edge, r.call).edge)
    ensures Fine(cfg, s, r)
  {
    hide Host.HostStep, Follows, Hear, HostAfter, BirthEvents, AllDeclared, Carries, Content, Hears, Edge.EdgeStep;
    HearNothing(s.host, r.ticks);
    NothingHeard();
    if s.edge.state == Online { FollowsNear(cfg, s.src, s.edge, EdgeStep(cfg, s.edge, r.call).edge, s.host); }
  }

  lemma IncomingBirths(cfg: EdgeConfig, s: System, r: Round, from: EdgeView)
    requires r.call.DoIncoming? && Admissible(cfg, s, r.call) && Distinct(cfg.devices)
    requires SetsOffBirths(cfg, s.edge, from, r.call.src, r.call.env, EdgeStep(cfg, s.edge, r.call))
    ensures Fine(cfg, s, r)
  {
    hide Host.HostStep, Follows, Hear, HostAfter, BirthEvents, AllDeclared, Carries, Content, Hears, Edge.EdgeStep;
    hide PublishBirths, Small, Distinct, GoodSource, NodeMetrics;
    var src, env := r.call.src, r.call.env;
    var births := PublishBirths(cfg, from, src, env, 0, 0);
    BirthsEnd(cfg, from, src, env, 0, 0);
    BirthsHeard(cfg, from, src, env, 0, 0, s.host, r.ticks);
    SameBirthEvents(cfg, from, s.edge, src, env, 0);
    BirthsContent(cfg, from, src, env, 0, Hear(s.host, births.log, r.ticks, 0));
    FollowsNear(cfg, src, births.edge, EdgeStep(cfg, s.edge, r.call).edge, HostAfter(s.host, births.log, r.ticks, 0));
  }

  lemma IncomingLeaving(cfg: EdgeConfig, s: System, r: Round, from: EdgeView)
    requires r.call.DoIncoming? && InStep(cfg, s) && Admissible(cfg, s, r.call)
    requires SetsOffLeaving(cfg, s.edge, from, r.call.env, EdgeStep(cfg, s.edge, r.call))
    ensures Fine(cfg, s, r)
  {
    hide Host.HostStep, Follows, Hear, HostAfter, BirthEvents, AllDeclared, Carries, Content, Hears, Edge.EdgeStep;
    hide Disconnect, Small, GoodSource, NodeMetrics, Names.Listing;
    DisconnectEnd(cfg, from, r.call.env);
    LeavingHeard(cfg, from, r.call.env, s.host, r.ticks);
    FollowsNear(cfg, s.src, s.edge, from, s.host);
  }

  lemma IncomingRound(cfg: EdgeConfig, s: System, r: Round)
    requires r.call.DoIncoming? && InStep(cfg, s) && Admissible(cfg, s, r.call) && Distinct(cfg.devices)
    ensures Fine(cfg, s, r)
  {
    hide HandleIncoming, Fine, Admissible, InStep, Distinct, SetsOffBirths, SetsOffLeaving;
    hide Connect, PublishBirths, PublishNodeData, PublishDeviceData, PublishDeviceDeath, Disconnect;
    var e, src, env := s.edge, r.call.src, r.call.env;
    var out := HandleIncoming(cfg, e, r.call.msg, src, env);
    var step := EdgeStep(cfg, e, r.call);
    IncomingCases(cfg, e, r.call.msg, src, env);
    if exists from :: SetsOffBirths(cfg, e, from, src, env, out) {
      var from :| SetsOffBirths(cfg, e, from, src, env, out);
      SameOutcome(cfg, e, from, src, env, out, step);
      IncomingBirths(cfg, s, r, from);
    } else if exists from :: SetsOffLeaving(cfg, e, from, env, out) {
      var from :| SetsOffLeaving(cfg, e, from, env, out);
      SameOutcome(cfg, e, from, src, env, out, step);
      IncomingLeaving(cfg, s, r, from);
    } else {
      IncomingQuiet(cfg, s, r);
    }
  }

  lemma SameOutcome<T, U>(cfg: EdgeConfig, e: EdgeView, from: EdgeView, src: Source, env: Env, a: EdgeOut<T>,
                          b: EdgeOut<U>)
    requires b.edge == a.edge && b.log == a.log
    requires (if a.result.Ok? then b.result.Ok? else b.result == Err(a.result.error))
    ensures SetsOffBirths(cfg, e, from, src, env, a) ==> SetsOffBirths(cfg, e, from, src, env, b)
    ensures SetsOffLeaving(cfg, e, from, env, a) ==> SetsOffLeaving(cfg, e, from, env, b)
  {
    hide PublishBirths, Disconnect;
  }

  // ---- Whole runs ----

  lemma RoundHeard(cfg: EdgeConfig, s: System, r: Round)
    requires InStep(cfg, s) && Admissible(cfg, s, r.call) && Distinct(cfg.devices)
    ensures Fine(cfg, s, r)
  {
    hide InStep, Admissible, Fine, Distinct;
    match r.call
    case DoConnect(_, _) => ConnectRound(cfg, s, r);
    case DoBirths(_, _) => BirthsRound(cfg, s, r);
    case DoNodeData(_, _) => NodeDataRound(cfg, s, r);
    case DoDeviceData(_, _, _) => DeviceDataRound(cfg, s, r);
    case DoDeviceDeath(_, _) => DeviceDeathRound(cfg, s, r);
    case DoIncoming(_, _, _) => IncomingRound(cfg, s, r);
    case DoDisconnect(_) => DisconnectRound(cfg, s, r);
  }

  /**
   For every admissible run over a transport that succeeds and delivers in order: the host never errs and never
   asks for a rebirth, every birth, datum and death is heard once with its original names, values and
   timestamps, and whenever the edge is online the host's expected sequence number, bdSeq, online devices and
   aliases match it.
   */
  lemma {:induction false} EdgeHostSimulation(cfg: EdgeConfig, s: System, rounds: seq<Round>)
    requires InStep(cfg, s) && AllAdmissible(cfg, s, rounds) && Distinct(cfg.devices)
    ensures AllTold(cfg, s, rounds) && InStep(cfg, After(cfg, s, rounds))
    decreases |rounds|
  {
    hide InStep, Admissible, Told, Advance, Distinct, Edge.EdgeStep, Hear;
    if rounds != [] {
      RoundHeard(cfg, s, rounds[0]);
      EdgeHostSimulation(cfg, Advance(cfg, s, rounds[0]), rounds[1..]);
    }
  }

  /** An edge that has not connected yet is in step with any host. */
  lemma NewEdgeInStep(cfg: EdgeConfig, s: System)
    requires s.edge.state == Disconnected
    ensures InStep(cfg, s)
  {
    hide Follows;
  }
}
