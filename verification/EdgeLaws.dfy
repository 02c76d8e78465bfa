/**
 What an edge publishes, across all its calls and for every transport: which topics, in which order, up to which
 failure, and how its state moves (src/edge.rs:207-650).
 */
module EdgeLaws {
  import opened Base
  import opened Model
  import opened Decode
  import opened Topic
  import opened Messages
  import opened Host
  import opened Edge
  import Names
  import S = HostState

  // ---- What is to go out ----

  /** The topics published, in order. */
  function Topics(log: seq<Action>): seq<string> {
    if log == [] then []
    else (if log[0].Published? then [log[0].msg.message.topic] else []) + Topics(log[1..])
  }

  function NodeName(cfg: EdgeConfig, token: string): string { "spBv1.0/" + cfg.group + "/" + token + "/" + cfg.edge }

  function DeviceName(cfg: EdgeConfig, token: string, device: string): string {
    NodeName(cfg, token) + "/" + device
  }

  function DeviceNames(cfg: EdgeConfig, token: string, devices: seq<Id>): seq<string> {
    if devices == [] then [] else [DeviceName(cfg, token, devices[0])] + DeviceNames(cfg, token, devices[1..])
  }

  /** A birth sequence: the node, then its devices as configured. */
  function BirthNames(cfg: EdgeConfig): seq<string> {
    [NodeName(cfg, "NBIRTH")] + DeviceNames(cfg, "DBIRTH", cfg.devices)
  }

  /** The slot of rebirth commands is free. */
  predicate SlotDue(cfg: EdgeConfig, e: EdgeView, instant: nat) {
    e.lastRebirth.None? || cfg.debounce == 0 || e.lastRebirth.value + cfg.debounce <= instant
  }

  /** A node command that decodes and holds a true rebirth metric. */
  predicate OrdersRebirth(e: EdgeView, m: Message) {
    hide Topic.Parse, Decode.DecodePayload;
    && Parse(m.topic).Ok? && Parse(m.topic).value.Node? && Parse(m.topic).value.ty.NCmd?
    && DecodePayload(m.payload, Some(e.aliases)).Ok?
    && exists k :: k in DecodePayload(m.payload, Some(e.aliases)).value.metrics
                   && k.name == Some(REBIRTH) && k.value == Basic(Boolean(true))
  }

  /** A STATE of the configured primary host. */
  predicate FromPrimary(cfg: EdgeConfig, m: Message) {
    hide Topic.Parse;
    && Parse(m.topic).Ok? && Parse(m.topic).value.HostState? && cfg.primaryHost == Some(Parse(m.topic).value.hostId)
  }

  /** A readable STATE of the primary host, not older than the last one accepted. */
  predicate Fresh(cfg: EdgeConfig, e: EdgeView, m: Message) {
    hide FromPrimary, Messages.ReadState;
    && FromPrimary(cfg, m) && ReadState(m.payload).Ok?
    && (e.lastStateTs.Some? ==> e.lastStateTs.value <= ReadState(m.payload).value.timestamp)
  }

  predicate HostBack(cfg: EdgeConfig, e: EdgeView, m: Message) {
    hide Fresh, Messages.ReadState;
    && Fresh(cfg, e, m) && ReadState(m.payload).Ok? && ReadState(m.payload).value.online
    && e.state == WaitingForPrimaryHost
  }

  predicate HostGone(cfg: EdgeConfig, e: EdgeView, m: Message) {
    hide Fresh, Messages.ReadState;
    Fresh(cfg, e, m) && ReadState(m.payload).Ok? && !ReadState(m.payload).value.online && e.state == Online
  }

  /** The message sets off a birth sequence. */
  predicate BirthsDue(cfg: EdgeConfig, e: EdgeView, m: Message, env: Env) {
    hide OrdersRebirth, HostBack;
    (OrdersRebirth(e, m) && SlotDue(cfg, e, env.checked)) || HostBack(cfg, e, m)
  }

  /** The topics a call has to publish. */
  function Expected(cfg: EdgeConfig, e: EdgeView, call: Call): seq<string> {
    hide BirthNames, BirthsDue, HostGone;
    match call
    case DoConnect(_, _) => if cfg.primaryHost.Some? then [] else BirthNames(cfg)
    case DoBirths(_, _) => BirthNames(cfg)
    case DoNodeData(_, _) => if e.state == Online then [NodeName(cfg, "NDATA")] else []
    case DoDeviceData(d, _, _) => if d in e.born && ValidId(d) then [DeviceName(cfg, "DDATA", d)] else []
    case DoDeviceDeath(d, _) => if d in e.born && ValidId(d) then [DeviceName(cfg, "DDEATH", d)] else []
    case DoIncoming(m, _, env) =>
      if BirthsDue(cfg, e, m, env) then BirthNames(cfg)
      else if HostGone(cfg, e, m) then [NodeName(cfg, "NDEATH")]
      else []
    case DoDisconnect(_) => [NodeName(cfg, "NDEATH")]
  }

  /** How many publications the transport lets through: a connection and its subscriptions come first. */
  function Allowed(cfg: EdgeConfig, call: Call): nat {
    var before := if !call.DoConnect? then 0 else 2 + |cfg.devices| + (if cfg.primaryHost.Some? then 1 else 0);
    if call.env.budget <= before then 0 else call.env.budget - before
  }

  function UpTo<T>(s: seq<T>, n: nat): seq<T> { if n <= |s| then s[..n] else s }

  // ---- Topics as strings ----

  lemma NodeShown(cfg: EdgeConfig, ty: MessageType)
    ensures cfg.NodeTopic(ty) == NodeName(cfg, ty.Token())
  {
  }

  lemma DeviceShown(cfg: EdgeConfig, device: Id, ty: MessageType)
    ensures cfg.DeviceTopic(device, ty) == DeviceName(cfg, ty.Token(), device)
  {
  }

  lemma {:induction false} TopicsAppend(a: seq<Action>, b: seq<Action>)
    ensures Topics(a + b) == Topics(a) + Topics(b)
  {
    if a == [] {
      Units(b);
      Units(Topics(b));
    } else {
      assert (a + b)[1..] == a[1..] + b;
      TopicsAppend(a[1..], b);
    }
  }

  lemma TopicsOne(a: Action)
    ensures Topics([a]) == if a.Published? then [a.msg.message.topic] else []
  {
    assert [a][1..] == [];
  }

  // ---- Births ----

  /** What is left of the transport's budget. */
  function Room(env: Env, calls: nat): nat { if calls <= env.budget then env.budget - calls else 0 }

  /** Every device birth of the log is published. */
  lemma {:induction false} DeviceTopicsOut(cfg: EdgeConfig, e: EdgeView, src: Source, env: Env, calls: nat, at: nat,
                                           devices: seq<Id>)
    ensures var out := PublishDeviceBirths(cfg, e, src, env, calls, at, devices);
      Topics(out.log) == UpTo(DeviceNames(cfg, "DBIRTH", devices), Room(env, calls))
    decreases |devices|
  {
    hide DeviceAssigned, DeviceName, EdgeConfig.DeviceTopic, Encode.EncodePayload, Assign, Stamp;
    if devices != [] && calls < env.budget {
      var next := DeviceAssigned(cfg, e, src, devices[0]).(born := e.born + [devices[0]]);
      var rest := PublishDeviceBirths(cfg, next, src, env, calls + 1, at + 1, devices[1..]);
      var first := Published(DeviceBirthMessage(cfg, e, src, devices[0], env.wall(at)));
      DeviceTopicsOut(cfg, next, src, env, calls + 1, at + 1, devices[1..]);
      DeviceShown(cfg, devices[0], DBirth);
      TopicsAppend([first], rest.log);
      TopicsOne(first);
      NamesCut(cfg, devices, Room(env, calls));
    }
  }

  /**
   The edge after the device births: as many devices born as the transport let through, in order; a number taken by
   each birth built, sent or not; online exactly when all were sent; and nothing else but aliases changed.
   */
  predicate DevicesDone(e: EdgeView, devices: seq<Id>, k: nat, out: EdgeOut<()>) {
    && out.edge.born == e.born + UpTo(devices, k)
    && out.edge.seqNo == (e.seqNo + (if k < |devices| then k + 1 else |devices|)) % 0x100
    && (if k < |devices| then out.result == Err(Transport) && out.edge.state == e.state
        else out.result == Ok(()) && out.edge.state == Online)
    && out.edge.bdSeq == e.bdSeq && out.edge.stored == e.stored
    && out.edge.lastRebirth == e.lastRebirth && out.edge.lastStateTs == e.lastStateTs
  }

  lemma {:induction false} DevicesOut(cfg: EdgeConfig, e: EdgeView, src: Source, env: Env, calls: nat, at: nat,
                                      devices: seq<Id>)
    ensures DevicesDone(e, devices, Room(env, calls), PublishDeviceBirths(cfg, e, src, env, calls, at, devices))
    decreases |devices|
  {
    hide Assign, DeviceBirthMessage;
    if devices != [] && calls < env.budget {
      hide DevicesDone;
      var next := DeviceAssigned(cfg, e, src, devices[0]).(born := e.born + [devices[0]]);
      DevicesOut(cfg, next, src, env, calls + 1, at + 1, devices[1..]);
      OneMore(e, next, devices, Room(env, calls),
              PublishDeviceBirths(cfg, next, src, env, calls + 1, at + 1, devices[1..]));
      var rest := PublishDeviceBirths(cfg, next, src, env, calls + 1, at + 1, devices[1..]);
      SameButLog(e, devices, Room(env, calls), rest, PublishDeviceBirths(cfg, e, src, env, calls, at, devices));
    }
  }

  lemma SameButLog(e: EdgeView, devices: seq<Id>, k: nat, a: EdgeOut<()>, b: EdgeOut<()>)
    requires b == a.(log := b.log) && DevicesDone(e, devices, k, a)
    ensures DevicesDone(e, devices, k, b)
  {
  }

  lemma OneMore(e: EdgeView, next: EdgeView, devices: seq<Id>, k: nat, out: EdgeOut<()>)
    requires devices != [] && k > 0 && DevicesDone(next, devices[1..], k - 1, out)
    requires next.born == e.born + [devices[0]] && next.seqNo == (e.seqNo + 1) % 0x100 && next.state == e.state
    requires next.bdSeq == e.bdSeq && next.stored == e.stored
    requires next.lastRebirth == e.lastRebirth && next.lastStateTs == e.lastStateTs
    ensures DevicesDone(e, devices, k, out)
  {
    CutOne(devices, k);
    Assoc(e.born, [devices[0]], UpTo(devices[1..], k - 1));
  }

  lemma CutOne(devices: seq<Id>, k: nat)
    requires devices != [] && k > 0
    ensures UpTo(devices, k) == [devices[0]] + UpTo(devices[1..], k - 1)
  {
  }

  lemma NamesCut(cfg: EdgeConfig, devices: seq<Id>, k: nat)
    requires devices != [] && k > 0
    ensures UpTo(DeviceNames(cfg, "DBIRTH", devices), k) ==
      [DeviceName(cfg, "DBIRTH", devices[0])] + UpTo(DeviceNames(cfg, "DBIRTH", devices[1..]), k - 1)
  {
    hide DeviceName;
  }

  lemma {:induction false} NamesLength(cfg: EdgeConfig, token: string, devices: seq<Id>)
    ensures |DeviceNames(cfg, token, devices)| == |devices|
  {
    hide DeviceName;
    if devices != [] { NamesLength(cfg, token, devices[1..]); }
  }

  /** The edge after a birth sequence of which the transport lets `k` messages through. */
  predicate BirthsDone(cfg: EdgeConfig, e: EdgeView, k: nat, out: EdgeOut<()>) {
    var n, all := |cfg.devices|, k > |cfg.devices|;
    && out.edge.born == UpTo(cfg.devices, if k == 0 then 0 else k - 1)
    && out.edge.seqNo == (if all then 1 + n else 1 + k) % 0x100
    && (if all then out.result == Ok(()) && out.edge.state == Online
        else out.result == Err(Transport) && out.edge.state == e.state)
    && out.edge.bdSeq == e.bdSeq && out.edge.stored == e.stored
    && out.edge.lastRebirth == e.lastRebirth && out.edge.lastStateTs == e.lastStateTs
  }

  lemma BirthsOut(cfg: EdgeConfig, e: EdgeView, src: Source, env: Env, calls: nat, at: nat)
    ensures var out := PublishBirths(cfg, e, src, env, calls, at);
      Topics(out.log) == UpTo(BirthNames(cfg), Room(env, calls)) && BirthsDone(cfg, e, Room(env, calls), out)
  {
    hide PublishDeviceBirths, NodeBirthMetrics, EdgeConfig.NodeTopic, DeviceNames, NodeName, DevicesDone, Stamp;
    hide Encode.EncodePayload;
    var born, k := NodeBorn(cfg, e, src), Room(env, calls);
    if calls < env.budget {
      var rest := PublishDeviceBirths(cfg, born, src, env, calls + 1, at + 1, cfg.devices);
      var first := Published(NodeBirthMessage(cfg, e, src, env.wall(at)));
      DeviceTopicsOut(cfg, born, src, env, calls + 1, at + 1, cfg.devices);
      DevicesOut(cfg, born, src, env, calls + 1, at + 1, cfg.devices);
      NodeShown(cfg, NBirth);
      TopicsAppend([first], rest.log);
      TopicsOne(first);
      AfterFirst(NodeName(cfg, "NBIRTH"), DeviceNames(cfg, "DBIRTH", cfg.devices), k);
      var out := PublishBirths(cfg, e, src, env, calls, at);
      NodeThenDevices(cfg, e, born, k, rest, out);
    }
  }

  lemma AfterFirst(first: string, rest: seq<string>, k: nat)
    requires k > 0
    ensures UpTo([first] + rest, k) == [first] + UpTo(rest, k - 1)
  {
  }

  lemma NodeThenDevices(cfg: EdgeConfig, e: EdgeView, born: EdgeView, k: nat, rest: EdgeOut<()>, out: EdgeOut<()>)
    requires k > 0 && DevicesDone(born, cfg.devices, k - 1, rest) && out == rest.(log := out.log)
    requires born.born == [] && born.seqNo == 1 && born.state == e.state && born.bdSeq == e.bdSeq
    requires born.stored == e.stored && born.lastRebirth == e.lastRebirth && born.lastStateTs == e.lastStateTs
    ensures BirthsDone(cfg, e, k, out)
  {
  }

  // ---- Inbound messages ----

  /**
   A STATE of the primary host, whose payload reads as `s`. An older one than the last accepted is ignored and
   changes nothing. Any other moves the STATE timestamp; it sets off the births exactly when the host is online and
   the edge waits for it, the disconnect exactly when the host is offline and the edge online, and else sends nothing.
   */
  lemma PrimaryHostGates(cfg: EdgeConfig, e: EdgeView, hostId: string, payload: bytes, s: S.StatePayload, src: Source,
                         env: Env)
    requires cfg.primaryHost == Some(hostId) && ValidId(hostId) && ReadState(payload) == Ok(s)
    ensures var out := HandleIncoming(cfg, e, Message("spBv1.0/STATE/" + hostId, payload), src, env);
      var seen := e.(lastStateTs := Some(s.timestamp));
      var births, leaving := PublishBirths(cfg, seen, src, env, 0, 0), Disconnect(cfg, seen, env);
      if e.lastStateTs.Some? && s.timestamp < e.lastStateTs.value then out == EdgeOut(e, [], Ok(EdgeEvent.Ignored))
      else if s.online && e.state == WaitingForPrimaryHost then
        && Topics(out.log) == UpTo(BirthNames(cfg), env.budget) && out.log == births.log && out.edge == births.edge
        && out.result == if env.budget > |cfg.devices| then Ok(PrimaryHostState(s)) else Err(Transport)
      else if !s.online && e.state == Online then
        && Topics(out.log) == UpTo([NodeName(cfg, "NDEATH")], env.budget)
        && out.log == leaving.log && out.edge == leaving.edge
        && out.result == if env.budget > 1 then Ok(PrimaryHostState(s)) else Err(Transport)
      else out == EdgeOut(seen, [], Ok(PrimaryHostState(s)))
  {
    hide Topic.Parse, Messages.ReadState, PublishBirths, Disconnect, BirthNames, NodeName;
    var seen := e.(lastStateTs := Some(s.timestamp));
    assert Topic.SparkplugTopic.HostState(hostId).Show() == "spBv1.0/STATE/" + hostId;
    ShownParses(Topic.SparkplugTopic.HostState(hostId));
    BirthsOut(cfg, seen, src, env, 0, 0);
    LeavingOut(cfg, seen, env);
  }

  lemma LeavingOut(cfg: EdgeConfig, e: EdgeView, env: Env)
    ensures var out := Disconnect(cfg, e, env);
      && Topics(out.log) == UpTo([NodeName(cfg, "NDEATH")], env.budget)
      && out.result == (if env.budget > 1 then Ok(()) else Err(Transport))
      && out.edge == if env.budget > 1 then e.(state := Disconnected) else e
  {
    hide EdgeConfig.NodeTopic, Encode.EncodePayload, NodeName;
    var death := Published(Death(cfg, e.bdSeq, env.wall(0)));
    NodeShown(cfg, NDeath);
    TopicsOne(death);
    TopicsOne(Closed);
    assert [death, Closed] == [death] + [Closed];
    TopicsAppend([death], [Closed]);
    assert UpTo([NodeName(cfg, "NDEATH")], 0) == [];
  }

  /** A STATE of another host is ignored, and one that cannot be read is an error; neither changes anything. */
  lemma OtherStates(cfg: EdgeConfig, e: EdgeView, hostId: string, payload: bytes, src: Source, env: Env)
    requires ValidId(hostId) && (cfg.primaryHost != Some(hostId) || ReadState(payload).Err?)
    ensures HandleIncoming(cfg, e, Message("spBv1.0/STATE/" + hostId, payload), src, env) ==
      EdgeOut(e, [], if cfg.primaryHost != Some(hostId) then Ok(EdgeEvent.Ignored) else Err(ReadState(payload).error))
  {
    hide Topic.Parse, Messages.ReadState, PublishBirths, Disconnect;
    assert Topic.SparkplugTopic.HostState(hostId).Show() == "spBv1.0/STATE/" + hostId;
    ShownParses(Topic.SparkplugTopic.HostState(hostId));
  }

  /**
   A node command: one that cannot be read is an error; without a true rebirth metric it is handed on as it was read;
   with one it sets off the births when the slot is free, and the slot is taken when all of them were sent.
   */
  lemma CommandsHandled(cfg: EdgeConfig, e: EdgeView, m: Message, src: Source, env: Env)
    requires Parse(m.topic).Ok? && Parse(m.topic).value.Node? && Parse(m.topic).value.ty.NCmd?
    ensures var out, read := HandleIncoming(cfg, e, m, src, env), DecodePayload(m.payload, Some(e.aliases));
      var births := PublishBirths(cfg, e, src, env, 0, 0);
      if read.Err? then out == EdgeOut(e, [], Err(read.error))
      else if !OrdersRebirth(e, m) then out == EdgeOut(e, [], Ok(NodeCommand(read.value)))
      else if !SlotDue(cfg, e, env.checked) then out == EdgeOut(e, [], Ok(RebirthDebounced))
      else
        && Topics(out.log) == UpTo(BirthNames(cfg), env.budget) && out.log == births.log
        && (if env.budget > |cfg.devices| then
              out.edge == births.edge.(lastRebirth := Some(env.done)) && out.result == Ok(Rebirthed)
            else out.edge == births.edge && out.result == Err(Transport))
  {
    hide Topic.Parse, Decode.DecodePayload, PublishBirths, BirthNames, Base.ValidUtf8;
    BirthsOut(cfg, e, src, env, 0, 0);
  }

  /** Device commands are handed on as read; every other message is ignored, and a foreign topic an error. */
  lemma OthersHandled(cfg: EdgeConfig, e: EdgeView, m: Message, src: Source, env: Env)
    ensures var out, topic := HandleIncoming(cfg, e, m, src, env), Parse(m.topic);
      && (topic.Err? ==> out == EdgeOut(e, [], Err(topic.error)))
      && (topic.Ok? && topic.value.Device? && topic.value.ty.DCmd? ==>
           var read := DecodePayload(m.payload, Some(e.aliases));
           out == EdgeOut(e, [],
                          if read.Ok? then Ok(DeviceCommand(topic.value.device, read.value)) else Err(read.error)))
      && (topic.Ok? && ((topic.value.Device? && !topic.value.ty.DCmd?) || (topic.value.Node? && !topic.value.ty.NCmd?))
          ==> out == EdgeOut(e, [], Ok(EdgeEvent.Ignored)))
  {
    hide Topic.Parse, Decode.DecodePayload, PublishBirths, OnNodeCommand, OnHostState;
  }

  // ---- Connecting ----

  /** The filters subscribed to, in order. */
  function Filters(log: seq<Action>): seq<string> {
    if log == [] then []
    else (if log[0].Subscribed? then [log[0].filter] else []) + Filters(log[1..])
  }

  function StateTopic(hostId: string): string { "spBv1.0/STATE/" + hostId }

  /** What the edge listens to: commands to itself, to its devices in order, and its primary host. */
  function Listens(cfg: EdgeConfig): seq<string> {
    [NodeName(cfg, "NCMD")] + DeviceNames(cfg, "DCMD", cfg.devices)
    + (if cfg.primaryHost.Some? then [StateTopic(cfg.primaryHost.value)] else [])
  }

  lemma {:induction false} FiltersAppend(a: seq<Action>, b: seq<Action>)
    ensures Filters(a + b) == Filters(a) + Filters(b)
  {
    if a == [] {
      Units(b);
      Units(Filters(b));
    } else {
      assert (a + b)[1..] == a[1..] + b;
      FiltersAppend(a[1..], b);
    }
  }

  lemma FiltersOne(a: Action)
    ensures Filters([a]) == if a.Subscribed? then [a.filter] else []
  {
    assert [a][1..] == [];
  }

  lemma {:induction false} CommandsListen(cfg: EdgeConfig, devices: seq<Id>)
    ensures Filters(Commands(cfg, devices)) == DeviceNames(cfg, "DCMD", devices)
    ensures Topics(Commands(cfg, devices)) == [] && |Commands(cfg, devices)| == |devices|
    decreases |devices|
  {
    hide DeviceName, EdgeConfig.DeviceTopic;
    if devices != [] {
      var first := Subscribed(cfg.DeviceTopic(devices[0], DCmd), AtLeastOnce);
      CommandsListen(cfg, devices[1..]);
      DeviceShown(cfg, devices[0], DCmd);
      FiltersAppend([first], Commands(cfg, devices[1..]));
      FiltersOne(first);
      TopicsAppend([first], Commands(cfg, devices[1..]));
      TopicsOne(first);
    }
  }

  /** The opening of a connection: its will first, then what the edge listens to; nothing published. */
  lemma PreludeListens(cfg: EdgeConfig, will: Outbound)
    ensures var p := Prelude(cfg, will);
      && p[0] == Connected(will) && Filters(p) == Listens(cfg) && Topics(p) == []
      && |p| == 2 + |cfg.devices| + (if cfg.primaryHost.Some? then 1 else 0)
  {
    hide DeviceNames, EdgeConfig.NodeTopic, NodeName, Commands, Filters, Topics;
    var ncmd := Subscribed(cfg.NodeTopic(NCmd), AtLeastOnce);
    var last := if cfg.primaryHost.Some? then [Subscribed(StateTopic(cfg.primaryHost.value), AtLeastOnce)] else [];
    CommandsListen(cfg, cfg.devices);
    NodeShown(cfg, NCmd);
    assert [Connected(will), ncmd] == [Connected(will)] + [ncmd];
    NothingListens();
    FiltersOne(Connected(will));
    TopicsOne(Connected(will));
    FiltersOne(ncmd);
    TopicsOne(ncmd);
    if last != [] { FiltersOne(last[0]); TopicsOne(last[0]); }
    FiltersAppend([Connected(will)], [ncmd]);
    TopicsAppend([Connected(will)], [ncmd]);
    FiltersAppend([Connected(will), ncmd], Commands(cfg, cfg.devices));
    TopicsAppend([Connected(will), ncmd], Commands(cfg, cfg.devices));
    FiltersAppend([Connected(will), ncmd] + Commands(cfg, cfg.devices), last);
    TopicsAppend([Connected(will), ncmd] + Commands(cfg, cfg.devices), last);
  }

  lemma NothingListens()
    ensures Filters([]) == [] && Topics([]) == []
  {
  }

  /**
   A connect that succeeds registers the will, listens to its commands, to those of its devices and to its primary
   host, and then, only when there is no primary host, publishes its births. With one it waits.
   */
  lemma ConnectListens(cfg: EdgeConfig, e: EdgeView, src: Source, env: Env)
    requires Connect(cfg, e, src, env).result.Ok?
    ensures var out := Connect(cfg, e, src, env);
      && out.log != [] && out.log[0].Connected? && Filters(out.log) == Listens(cfg)
      && Topics(out.log) == (if cfg.primaryHost.Some? then [] else BirthNames(cfg))
      && out.edge.state == (if cfg.primaryHost.Some? then WaitingForPrimaryHost else Online)
      && out.edge.bdSeq == e.stored && out.edge.stored == (e.stored + 1) % 0x100
  {
    hide Prelude, Death, PublishBirths, Filters, Topics, Listens, BirthNames;
    var prelude := Prelude(cfg, Death(cfg, e.stored, env.wall(0)));
    PreludeListens(cfg, Death(cfg, e.stored, env.wall(0)));
    if cfg.primaryHost.None? {
      var births := PublishBirths(cfg, Numbered(e), src, env, |prelude|, 1);
      BirthsOut(cfg, Numbered(e), src, env, |prelude|, 1);
      NamesLength(cfg, "DBIRTH", cfg.devices);
      AllNames(cfg, Room(env, |prelude|));
      BirthsListenNot(cfg, Numbered(e), src, env, |prelude|, 1);
      FiltersAppend(prelude, births.log);
      TopicsAppend(prelude, births.log);
      Units(Listens(cfg));
      Units(BirthNames(cfg));
    }
  }

  lemma AllNames(cfg: EdgeConfig, k: nat)
    requires k > |cfg.devices|
    ensures UpTo(BirthNames(cfg), k) == BirthNames(cfg)
  {
    hide DeviceNames;
    NamesLength(cfg, "DBIRTH", cfg.devices);
  }

  lemma {:induction false} DevicesListenNot(cfg: EdgeConfig, e: EdgeView, src: Source, env: Env, calls: nat, at: nat,
                                            devices: seq<Id>)
    ensures Filters(PublishDeviceBirths(cfg, e, src, env, calls, at, devices).log) == []
    decreases |devices|
  {
    hide DeviceAssigned, DeviceBirthMessage;
    if devices != [] && calls < env.budget {
      var next := DeviceAssigned(cfg, e, src, devices[0]).(born := e.born + [devices[0]]);
      var first := Published(DeviceBirthMessage(cfg, e, src, devices[0], env.wall(at)));
      DevicesListenNot(cfg, next, src, env, calls + 1, at + 1, devices[1..]);
      FiltersAppend([first], PublishDeviceBirths(cfg, next, src, env, calls + 1, at + 1, devices[1..]).log);
      FiltersOne(first);
    }
  }

  lemma BirthsListenNot(cfg: EdgeConfig, e: EdgeView, src: Source, env: Env, calls: nat, at: nat)
    ensures Filters(PublishBirths(cfg, e, src, env, calls, at).log) == []
  {
    hide NodeBirthMessage, NodeBorn, PublishDeviceBirths;
    if calls < env.budget {
      var first := Published(NodeBirthMessage(cfg, e, src, env.wall(at)));
      DevicesListenNot(cfg, NodeBorn(cfg, e, src), src, env, calls + 1, at + 1, cfg.devices);
      var rest := PublishDeviceBirths(cfg, NodeBorn(cfg, e, src), src, env, calls + 1, at + 1, cfg.devices);
      FiltersAppend([first], rest.log);
      FiltersOne(first);
    }
  }

  /** With a primary host, a connect that succeeds subscribes to the STATE that host publishes, at least once. */
  lemma ConnectHearsHost(cfg: EdgeConfig, e: EdgeView, src: Source, env: Env, hostId: string, s: S.StatePayload)
    requires cfg.primaryHost == Some(hostId) && Connect(cfg, e, src, env).result.Ok?
    ensures Subscribed(StateMessage(hostId, s).message.topic, AtLeastOnce) in Connect(cfg, e, src, env).log
    ensures ValidId(hostId) ==>
      Parse(StateMessage(hostId, s).message.topic) == Ok(Topic.SparkplugTopic.HostState(hostId))
  {
    hide Commands, Death, StateMessage, Topic.Parse, EdgeConfig.NodeTopic;
    PrimaryHostHeard(hostId, s);
    var p := Prelude(cfg, Death(cfg, e.stored, env.wall(0)));
    assert p[|p| - 1] == Subscribed(StateTopic(hostId), AtLeastOnce);
  }

  /** The command topics listened to are those of commands: the host's rebirth command goes to the node's. */
  lemma CommandsHeard(cfg: EdgeConfig, wall: i64, device: Id)
    ensures NodeName(cfg, "NCMD") == RebirthCommand(NodeId(cfg.group, cfg.edge), wall).message.topic
    ensures Parse(NodeName(cfg, "NCMD")) == Ok(Node(cfg.group, cfg.edge, NCmd))
    ensures Parse(DeviceName(cfg, "DCMD", device)) == Ok(Device(cfg.group, cfg.edge, device, DCmd))
  {
    hide Topic.Parse, Encode.EncodePayload, NodeName, DeviceName, RebirthPayload, SparkplugTopic.Show;
    NodeShown(cfg, NCmd);
    DeviceShown(cfg, device, DCmd);
    ShownParses(Node(cfg.group, cfg.edge, NCmd));
    ShownParses(Device(cfg.group, cfg.edge, device, DCmd));
  }

  /** The STATE topic listened to is the one that host publishes on. */
  lemma PrimaryHostHeard(hostId: string, s: S.StatePayload)
    ensures StateTopic(hostId) == StateMessage(hostId, s).message.topic
    ensures ValidId(hostId) ==> Parse(StateTopic(hostId)) == Ok(Topic.SparkplugTopic.HostState(hostId))
  {
    hide Topic.Parse, S.ToJson, Names.AsciiBytes;
    if ValidId(hostId) {
      assert Topic.SparkplugTopic.HostState(hostId).Show() == StateTopic(hostId);
      ShownParses(Topic.SparkplugTopic.HostState(hostId));
    }
  }

  // ---- Every call ----

  /**
   What goes out, for every call, state and transport: exactly the topics the call has to publish, in order, up to
   the one the transport refuses. So no birth leaves a gated edge before its host is there, unless asked for.
   */
  lemma WhatGoesOut(cfg: EdgeConfig, e: EdgeView, call: Call)
    ensures Topics(EdgeStep(cfg, e, call).log) == UpTo(Expected(cfg, e, call), Allowed(cfg, call))
  {
    hide HandleIncoming, Connect, PublishBirths, Disconnect, BirthNames, NodeName, DeviceName, ValidId, BirthsDue;
    hide HostGone, Topics, Encode.EncodePayload, EdgeConfig.NodeTopic, EdgeConfig.DeviceTopic, Stamp, ToData;
    NothingListens();
    match call
    case DoConnect(src, env) => ConnectOut(cfg, e, src, env);
    case DoBirths(src, env) => BirthsOut(cfg, e, src, env, 0, 0);
    case DoNodeData(ms, env) =>
      NodeShown(cfg, NData);
      if e.state == Online && env.budget > 0 { TopicsOne(EdgeStep(cfg, e, call).log[0]); }
    case DoDeviceData(d, ms, env) =>
      if d in e.born && ValidId(d) && env.budget > 0 {
        DeviceShown(cfg, d, DData);
        TopicsOne(EdgeStep(cfg, e, call).log[0]);
      }
    case DoDeviceDeath(d, env) =>
      if d in e.born && ValidId(d) && env.budget > 0 {
        DeviceShown(cfg, d, DDeath);
        TopicsOne(EdgeStep(cfg, e, call).log[0]);
      }
    case DoIncoming(m, src, env) => IncomingOut(cfg, e, m, src, env);
    case DoDisconnect(env) => LeavingOut(cfg, e, env);
  }

  lemma ConnectOut(cfg: EdgeConfig, e: EdgeView, src: Source, env: Env)
    ensures Topics(Connect(cfg, e, src, env).log) ==
      UpTo(if cfg.primaryHost.Some? then [] else BirthNames(cfg), Allowed(cfg, DoConnect(src, env)))
  {
    hide Prelude, Death, PublishBirths, Topics, BirthNames;
    var prelude := Prelude(cfg, Death(cfg, e.stored, env.wall(0)));
    PreludeListens(cfg, Death(cfg, e.stored, env.wall(0)));
    if env.budget < |prelude| {
      Cut(prelude, env.budget);
      TopicsAppend(prelude[..env.budget], prelude[env.budget..]);
      assert Topics(prelude[..env.budget]) == [];
    } else if cfg.primaryHost.None? {
      BirthsOut(cfg, Numbered(e), src, env, |prelude|, 1);
      TopicsAppend(prelude, PublishBirths(cfg, Numbered(e), src, env, |prelude|, 1).log);
      Units(UpTo(BirthNames(cfg), Room(env, |prelude|)));
    }
  }

  lemma IncomingOut(cfg: EdgeConfig, e: EdgeView, m: Message, src: Source, env: Env)
    ensures Topics(HandleIncoming(cfg, e, m, src, env).log) ==
      UpTo(if BirthsDue(cfg, e, m, env) then BirthNames(cfg)
           else if HostGone(cfg, e, m) then [NodeName(cfg, "NDEATH")]
           else [], env.budget)
  {
    hide HandleIncoming, PublishBirths, Disconnect, BirthNames, NodeName, Topic.Parse, Messages.ReadState;
    hide OrdersRebirth, SlotDue, Topics;
    NothingListens();
    NotOrdered(e, m);
    OthersHandled(cfg, e, m, src, env);
    if Parse(m.topic).Ok? {
      var topic := Parse(m.topic).value;
      if topic.Node? && topic.ty.NCmd? {
        CommandsHandled(cfg, e, m, src, env);
        OrderRead(e, m);
      } else if topic.HostState? {
        ParsedShows(m.topic);
        assert m == Message("spBv1.0/STATE/" + topic.hostId, m.payload);
        if cfg.primaryHost == Some(topic.hostId) && ReadState(m.payload).Ok? {
          PrimaryHostGates(cfg, e, topic.hostId, m.payload, ReadState(m.payload).value, src, env);
        } else {
          OtherStates(cfg, e, topic.hostId, m.payload, src, env);
        }
      }
    }
  }

  lemma OrderRead(e: EdgeView, m: Message)
    ensures OrdersRebirth(e, m) ==> DecodePayload(m.payload, Some(e.aliases)).Ok?
  {
    hide Topic.Parse, Decode.DecodePayload;
  }

  lemma NotOrdered(e: EdgeView, m: Message)
    ensures OrdersRebirth(e, m) ==>
      Parse(m.topic).Ok? && Parse(m.topic).value.Node? && Parse(m.topic).value.ty.NCmd?
  {
    hide Topic.Parse, Decode.DecodePayload;
  }

  // ---- How the state moves ----

  /**
   A call that fails leaves the edge where it was. One that succeeds moves it: a connect to waiting or, with its
   births, online; births to online; a lost host and a disconnect to disconnected; and nothing else moves it.
   */
  lemma StateMoves(cfg: EdgeConfig, e: EdgeView, call: Call)
    ensures var out := EdgeStep(cfg, e, call);
      out.edge.state ==
        if out.result.Err? then e.state
        else match call {
          case DoConnect(_, _) => if cfg.primaryHost.Some? then WaitingForPrimaryHost else Online
          case DoBirths(_, _) => Online
          case DoIncoming(m, _, env) =>
            if BirthsDue(cfg, e, m, env) then Online else if HostGone(cfg, e, m) then Disconnected else e.state
          case DoDisconnect(_) => Disconnected
          case _ => e.state
        }
  {
    hide HandleIncoming, PublishBirths, Disconnect, BirthsDue, HostGone, Encode.EncodePayload, EdgeConfig.NodeTopic;
    hide EdgeConfig.DeviceTopic, Prelude, Death, ValidId, Stamp, ToData, BirthNames;
    match call
    case DoConnect(src, env) =>
      var calls := |Prelude(cfg, Death(cfg, e.stored, env.wall(0)))|;
      BirthsOut(cfg, Numbered(e), src, env, calls, 1);
    case DoBirths(src, env) => BirthsOut(cfg, e, src, env, 0, 0);
    case DoIncoming(m, src, env) => IncomingMoves(cfg, e, m, src, env);
    case DoDisconnect(env) => LeavingOut(cfg, e, env);
    case _ =>
  }

  /** The STATE timestamp and the rebirth slot move with a fresh STATE and an answered command, and only then. */
  lemma IncomingMoves(cfg: EdgeConfig, e: EdgeView, m: Message, src: Source, env: Env)
    ensures var out := HandleIncoming(cfg, e, m, src, env);
      && out.edge.state == (if out.result.Err? then e.state
                            else if BirthsDue(cfg, e, m, env) then Online
                            else if HostGone(cfg, e, m) then Disconnected
                            else e.state)
      && out.edge.lastStateTs ==
           (if Fresh(cfg, e, m) then Some(ReadState(m.payload).value.timestamp) else e.lastStateTs)
      && out.edge.lastRebirth ==
           (if OrdersRebirth(e, m) && SlotDue(cfg, e, env.checked) && env.budget > |cfg.devices| then Some(env.done)
            else e.lastRebirth)
      && out.edge.bdSeq == e.bdSeq && out.edge.stored == e.stored
  {
    hide HandleIncoming, PublishBirths, Disconnect, BirthNames, NodeName, Topic.Parse, Messages.ReadState;
    hide OrdersRebirth, SlotDue, Topics;
    NotOrdered(e, m);
    OthersHandled(cfg, e, m, src, env);
    if Parse(m.topic).Ok? {
      var topic := Parse(m.topic).value;
      if topic.Node? && topic.ty.NCmd? {
        CommandsHandled(cfg, e, m, src, env);
        OrderRead(e, m);
        BirthsOut(cfg, e, src, env, 0, 0);
      } else if topic.HostState? {
        ParsedShows(m.topic);
        assert m == Message("spBv1.0/STATE/" + topic.hostId, m.payload);
        if cfg.primaryHost == Some(topic.hostId) && ReadState(m.payload).Ok? {
          var seen := e.(lastStateTs := Some(ReadState(m.payload).value.timestamp));
          PrimaryHostGates(cfg, e, topic.hostId, m.payload, ReadState(m.payload).value, src, env);
          BirthsOut(cfg, seen, src, env, 0, 0);
          LeavingOut(cfg, seen, env);
        } else {
          OtherStates(cfg, e, topic.hostId, m.payload, src, env);
        }
      }
    }
  }

  // ---- Transports that fail ----

  /** The call with a transport that fails earlier. */
  function WithBudget(call: Call, b: nat): Call {
    match call
    case DoConnect(src, env) => DoConnect(src, env.(budget := b))
    case DoBirths(src, env) => DoBirths(src, env.(budget := b))
    case DoNodeData(ms, env) => DoNodeData(ms, env.(budget := b))
    case DoDeviceData(d, ms, env) => DoDeviceData(d, ms, env.(budget := b))
    case DoDeviceDeath(d, env) => DoDeviceDeath(d, env.(budget := b))
    case DoIncoming(m, src, env) => DoIncoming(m, src, env.(budget := b))
    case DoDisconnect(env) => DoDisconnect(env.(budget := b))
  }

  /** `cut` is what is left of `full` when only `k` transport calls succeed. */
  predicate CutShort<T(==)>(full: EdgeOut<T>, cut: EdgeOut<T>, k: nat) {
    if |full.log| <= k then cut == full else cut.result == Err(Transport) && cut.log == full.log[..k]
  }

  lemma {:induction false} DevicesCut(cfg: EdgeConfig, e: EdgeView, src: Source, env: Env, b: nat, calls: nat, at: nat,
                                      devices: seq<Id>)
    requires b <= env.budget
    ensures CutShort(PublishDeviceBirths(cfg, e, src, env, calls, at, devices),
                     PublishDeviceBirths(cfg, e, src, env.(budget := b), calls, at, devices),
                     Room(env.(budget := b), calls))
    decreases |devices|
  {
    hide DeviceAssigned, DeviceBirthMessage;
    if devices != [] && calls < b {
      var next := DeviceAssigned(cfg, e, src, devices[0]).(born := e.born + [devices[0]]);
      DevicesCut(cfg, next, src, env, b, calls + 1, at + 1, devices[1..]);
      var full := PublishDeviceBirths(cfg, next, src, env, calls + 1, at + 1, devices[1..]);
      var cut := PublishDeviceBirths(cfg, next, src, env.(budget := b), calls + 1, at + 1, devices[1..]);
      CutAfter(Published(DeviceBirthMessage(cfg, e, src, devices[0], env.wall(at))), full, cut, b - calls - 1);
    }
  }

  lemma CutAfter<T>(first: Action, full: EdgeOut<T>, cut: EdgeOut<T>, k: nat)
    requires CutShort(full, cut, k)
    ensures CutShort(full.(log := [first] + full.log), cut.(log := [first] + cut.log), k + 1)
  {
  }

  lemma BirthsCut(cfg: EdgeConfig, e: EdgeView, src: Source, env: Env, b: nat, calls: nat, at: nat)
    requires b <= env.budget
    ensures CutShort(PublishBirths(cfg, e, src, env, calls, at),
                     PublishBirths(cfg, e, src, env.(budget := b), calls, at), Room(env.(budget := b), calls))
  {
    hide NodeBorn, NodeBirthMessage, PublishDeviceBirths;
    if calls < b {
      var born := NodeBorn(cfg, e, src);
      DevicesCut(cfg, born, src, env, b, calls + 1, at + 1, cfg.devices);
      CutAfter(Published(NodeBirthMessage(cfg, e, src, env.wall(at))),
               PublishDeviceBirths(cfg, born, src, env, calls + 1, at + 1, cfg.devices),
               PublishDeviceBirths(cfg, born, src, env.(budget := b), calls + 1, at + 1, cfg.devices), b - calls - 1);
    }
  }

  lemma ConnectCut(cfg: EdgeConfig, e: EdgeView, src: Source, env: Env, b: nat)
    requires b <= env.budget
    ensures CutShort(Connect(cfg, e, src, env), Connect(cfg, e, src, env.(budget := b)), b)
  {
    hide Prelude, PublishBirths, Death;
    var prelude := Prelude(cfg, Death(cfg, e.stored, env.wall(0)));
    if |prelude| <= b && cfg.primaryHost.None? {
      BirthsCut(cfg, Numbered(e), src, env, b, |prelude|, 1);
      CutBehind(prelude, PublishBirths(cfg, Numbered(e), src, env, |prelude|, 1),
                PublishBirths(cfg, Numbered(e), src, env.(budget := b), |prelude|, 1), b);
    } else if |prelude| <= env.budget && cfg.primaryHost.None? {
      var births := PublishBirths(cfg, Numbered(e), src, env, |prelude|, 1);
      assert (prelude + births.log)[..b] == prelude[..b];
    }
  }

  lemma CutBehind<T>(head: seq<Action>, full: EdgeOut<T>, cut: EdgeOut<T>, b: nat)
    requires |head| <= b && CutShort(full, cut, b - |head|)
    ensures CutShort(full.(log := head + full.log), cut.(log := head + cut.log), b)
  {
  }

  lemma IncomingCut(cfg: EdgeConfig, e: EdgeView, m: Message, src: Source, env: Env, b: nat)
    requires b <= env.budget
    ensures CutShort(HandleIncoming(cfg, e, m, src, env), HandleIncoming(cfg, e, m, src, env.(budget := b)), b)
  {
    hide Topic.Parse, Decode.DecodePayload, Messages.ReadState, PublishBirths, AsksRebirth, EdgeConfig.NodeTopic;
    hide Encode.EncodePayload;
    BirthsCut(cfg, e, src, env, b, 0, 0);
    if Parse(m.topic).Ok? && Parse(m.topic).value.HostState? && ReadState(m.payload).Ok? {
      BirthsCut(cfg, e.(lastStateTs := Some(ReadState(m.payload).value.timestamp)), src, env, b, 0, 0);
    }
  }

  /**
   A transport that fails earlier cuts what a call does and changes nothing before the cut: for every call the log is
   the first `b` actions of the log with a larger budget, and the call fails, or it was done by then and is the same.
   */
  lemma TransportCuts(cfg: EdgeConfig, e: EdgeView, call: Call, b: nat)
    requires b <= call.env.budget
    ensures CutShort(EdgeStep(cfg, e, call), EdgeStep(cfg, e, WithBudget(call, b)), b)
  {
    hide HandleIncoming, Connect, PublishBirths, EdgeConfig.NodeTopic, EdgeConfig.DeviceTopic, ValidId;
    hide Encode.EncodePayload, Stamp, ToData, PositionOf;
    match call
    case DoConnect(src, env) => ConnectCut(cfg, e, src, env, b);
    case DoBirths(src, env) => BirthsCut(cfg, e, src, env, b, 0, 0);
    case DoIncoming(m, src, env) => IncomingCut(cfg, e, m, src, env, b);
    case _ =>
  }
}
