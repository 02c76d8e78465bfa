/**
 What each message of an edge says, and how it is sent
 (src/edge.rs:45-51, src/edge.rs:213-247, src/edge.rs:307-530).
 */
module EdgeMessages {
  import opened Base
  import opened Model
  import opened Alias
  import opened Encode
  import opened Decode
  import opened Topic
  import opened Messages
  import opened Edge
  import opened Aliasing
  import opened Joining
  import opened Sizes
  import EdgeLaws

  /** The ASCII text of those bytes. */
  predicate Spells(s: string, b: bytes) {
    |s| == |b| && forall i :: 0 <= i < |s| ==> (s[i] as int) == b[i] < 0x80
  }

  /** The two control metrics by name. */
  lemma ControlNames()
    ensures Spells("bdSeq", BDSEQ_BYTES) && Spells("Node Control/Rebirth", REBIRTH_BYTES)
  {
  }

  // ---- Births ----

  predicate Has(ms: seq<Metric>, name: Str) { exists i :: 0 <= i < |ms| && ms[i].name == Some(name) }

  /** The metrics of an NBIRTH: those of the source, then a rebirth control and the bdSeq unless the source has them. */
  function Supplied(ms: seq<Metric>, bdSeq: byte): seq<Metric> {
    ms
    + (if Has(ms, REBIRTH) then []
       else [Metric(Some(REBIRTH), None, None, Basic(Boolean(false)), None, None, None, None)])
    + (if Has(ms, BDSEQ) then [] else [Metric(Some(BDSEQ), None, None, Basic(Int64(bdSeq)), None, None, None, None)])
  }

  lemma SuppliedMetrics(ms: seq<Metric>, bdSeq: byte)
    ensures WithControls(ms, bdSeq) == Supplied(ms, bdSeq)
  {
    hide Base.ValidUtf8;
    assert |REBIRTH| != |BDSEQ|;
    HasMentions(ms, REBIRTH);
    HasMentions(WithRebirth(ms), BDSEQ);
    HasMentions(ms, BDSEQ);
    if Has(ms, BDSEQ) {
      var i :| 0 <= i < |ms| && ms[i].name == Some(BDSEQ);
      assert WithRebirth(ms)[i] == ms[i];
    }
    Units(WithRebirth(ms));
    Units(ms);
  }

  lemma HasMentions(ms: seq<Metric>, name: Str)
    ensures Has(ms, name) <==> Mentions(ms, name)
  {
  }

  /** A metric that takes an alias: named, and no control metric. */
  predicate TakesAlias(m: Metric) { m.name.Some? && m.name != Some(REBIRTH) && m.name != Some(BDSEQ) }

  function Taken(ms: seq<Metric>): nat {
    hide Base.ValidUtf8;
    if ms == [] then 0 else (if TakesAlias(ms[0]) then 1 else 0) + Taken(ms[1..])
  }

  /**
   The list as sent: each metric with the time `ts` unless it had one of its own, and, where aliases are in use, with
   the next alias from `from` on if it takes one, whatever alias the source gave it; otherwise unchanged.
   */
  predicate SentAs(useAliases: bool, from: u64, ms: seq<Metric>, ts: u64, sent: seq<Metric>) {
    hide TakesAlias, Taken;
    |sent| == |ms| && forall i :: 0 <= i < |ms| ==>
      sent[i] == ms[i].(
        timestamp := if ms[i].timestamp.Some? then ms[i].timestamp else Some(ts),
        alias := if useAliases && TakesAlias(ms[i]) then Some((from + Taken(ms[..i])) % TWO64) else ms[i].alias)
  }

  lemma {:induction false} AliasAt(r: Registry, next: u64, ms: seq<Metric>, i: nat)
    requires i < |ms|
    ensures |AssignAll(r, next, ms).metrics| == |ms|
    ensures AssignAll(r, next, ms).metrics[i] ==
      ms[i].(alias := if TakesAlias(ms[i]) then Some((next + Taken(ms[..i])) % TWO64) else ms[i].alias)
    decreases |ms|
  {
    hide AssignAll, Base.ValidUtf8, MetricValue.Type;
    AssignUnfold(r, next, ms);
    OnlyAliasesAdded(r, next, ms);
    if i > 0 {
      var takes := Aliased(ms[0]);
      AliasAt(if takes then r.Bind(ms[0].name.value, Some(next), ms[0].value.Type()) else r,
              if takes then (next + 1) % TWO64 else next, ms[1..], i - 1);
      assert ms[..i][1..] == ms[1..][..i - 1];
      Wraps(next, Taken(ms[1..][..i - 1]));
    } else {
      assert ms[..0] == [];
    }
  }

  lemma Wraps(next: u64, n: nat)
    ensures ((next + 1) % TWO64 + n) % TWO64 == (next + (1 + n)) % TWO64
  {
  }

  lemma AllAliased(r: Registry, next: u64, ms: seq<Metric>)
    ensures var out := AssignAll(r, next, ms).metrics;
      |out| == |ms| && forall i :: 0 <= i < |ms| ==>
        out[i] == ms[i].(alias := if TakesAlias(ms[i]) then Some((next + Taken(ms[..i])) % TWO64) else ms[i].alias)
  {
    hide AssignAll, TakesAlias, Taken, Base.ValidUtf8;
    var out := AssignAll(r, next, ms).metrics;
    OnlyAliasesAdded(r, next, ms);
    forall i | 0 <= i < |ms|
      ensures out[i] ==
        ms[i].(alias := if TakesAlias(ms[i]) then Some((next + Taken(ms[..i])) % TWO64) else ms[i].alias)
    {
      AliasAt(r, next, ms, i);
    }
  }

  lemma ListSent(cfg: EdgeConfig, r: Registry, next: u64, ms: seq<Metric>, ts: u64)
    ensures SentAs(cfg.useAliases, next, ms, ts, Stamp(Assign(cfg, r, next, ms).metrics, ts))
  {
    hide AssignAll, TakesAlias, Taken, Base.ValidUtf8;
    var out := Assign(cfg, r, next, ms).metrics;
    if cfg.useAliases { AllAliased(r, next, ms); }
    var sent := Stamp(out, ts);
    assert forall i :: 0 <= i < |out| ==> sent[i] == Stamped(out[i], ts);
  }

  /** An NBIRTH decodes to number 0, its time, and the source's metrics with the controls it lacks, as sent. */
  lemma NodeBirthSays(cfg: EdgeConfig, e: EdgeView, src: Source, ts: u64)
    requires Fits(src.node) && |NodeBirthMessage(cfg, e, src, ts).message.payload| < TWO64
    ensures var r := DecodePayload(NodeBirthMessage(cfg, e, src, ts).message.payload, None);
      && r.Ok? && r.value == Payload(Some(ts), r.value.metrics, Some(0), None, None)
      && SentAs(cfg.useAliases, if cfg.useAliases then 0 else e.nextAlias, Supplied(src.node, e.bdSeq), ts,
                r.value.metrics)
  {
    hide Decode.DecodePayload, Encode.EncodePayload, Stamp, Assign, WithControls, SentAs, Fits, Alike, Supplied;
    hide EdgeConfig.NodeTopic;
    var c := Cleared(cfg, e);
    var ms := Supplied(src.node, e.bdSeq);
    SuppliedMetrics(src.node, e.bdSeq);
    ControlsFitsCodec(src.node, e.bdSeq);
    BirthAlike(cfg, c.aliases, c.nextAlias, ms, ts);
    var sent := Stamp(NodeBirthMetrics(cfg, e, src).metrics, ts);
    AlikeFits(ms, sent);
    BirthArrives(Sequenced(sent, 0, ts));
    ListSent(cfg, c.aliases, c.nextAlias, ms, ts);
  }

  lemma ControlsFitsCodec(ms: seq<Metric>, bdSeq: byte)
    requires Fits(ms)
    ensures Fits(WithControls(ms, bdSeq))
  {
    hide Model.WfMetric, Model.NeedMetric, Mentions, Control, Base.ValidUtf8;
    ControlFits(REBIRTH, Boolean(false));
    ControlFits(BDSEQ, Int64(bdSeq));
  }

  /** A DBIRTH decodes to the edge's number, its time and the device's metrics as sent, and no controls. */
  lemma DeviceBirthSays(cfg: EdgeConfig, e: EdgeView, src: Source, device: Id, ts: u64)
    requires Fits(src.device(device)) && |DeviceBirthMessage(cfg, e, src, device, ts).message.payload| < TWO64
    ensures var r := DecodePayload(DeviceBirthMessage(cfg, e, src, device, ts).message.payload, None);
      && r.Ok? && r.value == Payload(Some(ts), r.value.metrics, Some(e.seqNo), None, None)
      && SentAs(cfg.useAliases, e.nextAlias, src.device(device), ts, r.value.metrics)
  {
    hide Decode.DecodePayload, Encode.EncodePayload, Stamp, Assign, SentAs, Fits, Alike, EdgeConfig.DeviceTopic;
    var ms := src.device(device);
    BirthAlike(cfg, e.aliases, e.nextAlias, ms, ts);
    var sent := Stamp(Assign(cfg, e.aliases, e.nextAlias, ms).metrics, ts);
    AlikeFits(ms, sent);
    BirthArrives(Sequenced(sent, e.seqNo, ts));
    ListSent(cfg, e.aliases, e.nextAlias, ms, ts);
  }

  // ---- Data ----

  /** Data as sent: a name bound to an alias gives way to it, and a metric without a time gets that of the message. */
  predicate DataAs(r: Registry, useAliases: bool, ms: seq<Metric>, ts: u64, sent: seq<Metric>) {
    |sent| == |ms| && forall i :: 0 <= i < |ms| ==>
      var m := ms[i].(timestamp := if ms[i].timestamp.Some? then ms[i].timestamp else Some(ts));
      sent[i] == if useAliases && m.name.Some? && m.name.value in r.nameToAlias
                 then m.(name := None, alias := Some(r.nameToAlias[m.name.value])) else m
  }

  lemma DataSent(cfg: EdgeConfig, r: Registry, ms: seq<Metric>, ts: u64)
    ensures DataAs(r, cfg.useAliases, ms, ts, Stamp(ToData(cfg, r, ms), ts))
  {
    var short := ToData(cfg, r, ms);
    var sent := Stamp(short, ts);
    assert forall i :: 0 <= i < |ms| ==> sent[i] == Stamped(short[i], ts);
    if cfg.useAliases { assert forall i :: 0 <= i < |ms| ==> short[i] == Shortened(r, ms[i]); }
  }

  /** The payload of a data message, encoded without datatypes. */
  ghost predicate DataBytes(cfg: EdgeConfig, e: EdgeView, ms: seq<Metric>, ts: u64, b: bytes) {
    hide Encode.EncodePayload, DataAs;
    exists sent :: DataAs(e.aliases, cfg.useAliases, ms, ts, sent)
                   && b == EncodePayload(Payload(Some(ts), sent, Some(e.seqNo), None, None), true)
  }

  /** One message that the transport takes or refuses. */
  predicate Offered(out: EdgeOut<()>, topic: string, b: bytes, env: Env) {
    && out.log == (if env.budget == 0 then [] else [Published(Outbound(Message(topic, b), AtMostOnce, false))])
    && out.result == (if env.budget == 0 then Err(Transport) else Ok(()))
  }

  /**
   Node data is refused without a trace unless the edge is online. Otherwise the next number is used up, sent or not,
   and nothing else of the edge changes.
   */
  lemma NodeDataSays(cfg: EdgeConfig, e: EdgeView, ms: seq<Metric>, env: Env)
    ensures var out := PublishNodeData(cfg, e, ms, env);
      if e.state != Online then out == EdgeOut(e, [], Err(InvalidTopic))
      else
        && out.edge == e.(seqNo := (e.seqNo + 1) % 0x100)
        && exists b :: DataBytes(cfg, e, ms, env.wall(0), b) && Offered(out, EdgeLaws.NodeName(cfg, "NDATA"), b, env)
  {
    hide Encode.EncodePayload, EdgeConfig.NodeTopic, EdgeLaws.NodeName, Stamp, ToData, DataAs;
    DataSent(cfg, e.aliases, ms, env.wall(0));
    EdgeLaws.NodeShown(cfg, NData);
    if e.state == Online {
      var sent := Stamp(ToData(cfg, e.aliases, ms), env.wall(0));
      var b := EncodePayload(Payload(Some(env.wall(0)), sent, Some(e.seqNo), None, None), true);
      assert DataBytes(cfg, e, ms, env.wall(0), b);
      assert Offered(PublishNodeData(cfg, e, ms, env), EdgeLaws.NodeName(cfg, "NDATA"), b, env);
    }
  }

  /** The same for device data, which needs the device born; a name that is no identifier is refused next. */
  lemma DeviceDataSays(cfg: EdgeConfig, e: EdgeView, device: string, ms: seq<Metric>, env: Env)
    ensures var out := PublishDeviceData(cfg, e, device, ms, env);
      if device !in e.born then out == EdgeOut(e, [], Err(InvalidTopic))
      else if !ValidId(device) then out == EdgeOut(e, [], Err(InvalidId))
      else
        && out.edge == e.(seqNo := (e.seqNo + 1) % 0x100)
        && exists b ::
             DataBytes(cfg, e, ms, env.wall(0), b) && Offered(out, EdgeLaws.DeviceName(cfg, "DDATA", device), b, env)
  {
    hide Encode.EncodePayload, EdgeConfig.DeviceTopic, EdgeLaws.DeviceName, Stamp, ToData, DataAs, ValidId;
    DataSent(cfg, e.aliases, ms, env.wall(0));
    if device in e.born && ValidId(device) {
      EdgeLaws.DeviceShown(cfg, device, DData);
      var sent := Stamp(ToData(cfg, e.aliases, ms), env.wall(0));
      var b := EncodePayload(Payload(Some(env.wall(0)), sent, Some(e.seqNo), None, None), true);
      assert DataBytes(cfg, e, ms, env.wall(0), b);
      assert Offered(PublishDeviceData(cfg, e, device, ms, env), EdgeLaws.DeviceName(cfg, "DDATA", device), b, env);
    }
  }

  // ---- Deaths ----

  /** The device is taken off the list of born ones, where it first stands, exactly when its DDEATH was sent. */
  lemma DeviceDeathSays(cfg: EdgeConfig, e: EdgeView, device: string, env: Env)
    ensures var out := PublishDeviceDeath(cfg, e, device, env);
      if device !in e.born then out == EdgeOut(e, [], Err(InvalidTopic))
      else if !ValidId(device) then out == EdgeOut(e, [], Err(InvalidId))
      else
        && out.edge == e.(seqNo := (e.seqNo + 1) % 0x100, born := out.edge.born)
        && (env.budget == 0 ==> out.edge.born == e.born)
        && (env.budget > 0 ==> exists i :: 0 <= i < |e.born| && e.born[i] == device && device !in e.born[..i]
                                           && out.edge.born == e.born[..i] + e.born[i + 1..])
        && exists b ::
             && DecodePayload(b, None) == Ok(Payload(Some(env.wall(0)), [], Some(e.seqNo), None, None))
             && Offered(out, EdgeLaws.DeviceName(cfg, "DDEATH", device), b, env)
  {
    hide Encode.EncodePayload, Decode.DecodePayload, EdgeConfig.DeviceTopic, EdgeLaws.DeviceName, ValidId;
    if device in e.born && ValidId(device) {
      EdgeLaws.DeviceShown(cfg, device, DDeath);
      var p := Sequenced([], e.seqNo, env.wall(0));
      EmptyFits();
      PlainPayload(p, false);
      BirthArrives(p);
      assert Offered(PublishDeviceDeath(cfg, e, device, env), EdgeLaws.DeviceName(cfg, "DDEATH", device),
                     EncodePayload(p, false), env);
    }
  }

  /** An NDEATH, as will and as message: at least once, not retained, its time on the payload and on its one metric. */
  lemma NodeDeathSays(cfg: EdgeConfig, bdSeq: byte, ts: u64)
    ensures var d := Death(cfg, bdSeq, ts);
      && d.qos == AtLeastOnce && !d.retain && d.message.topic == EdgeLaws.NodeName(cfg, "NDEATH")
      && DecodePayload(d.message.payload, None) ==
           Ok(Payload(Some(ts), [Metric(Some(BDSEQ), None, Some(ts), Basic(Int64(bdSeq)), None, None, None, None)],
                      None, None, None))
  {
    hide Encode.EncodePayload, Decode.DecodePayload, EdgeConfig.NodeTopic, EdgeLaws.NodeName, Base.ValidUtf8;
    EdgeLaws.NodeShown(cfg, NDeath);
    DeathArrives(bdSeq, ts);
  }

  // ---- How messages are sent ----

  /** Subscriptions at least once; messages at most once and not retained, but the NDEATH and the will at least once. */
  predicate SentRight(cfg: EdgeConfig, a: Action) {
    hide EdgeConfig.NodeTopic;
    match a
    case Connected(will) => will.message.topic == cfg.NodeTopic(NDeath) && will.qos == AtLeastOnce && !will.retain
    case Subscribed(_, qos) => qos == AtLeastOnce
    case Published(m) =>
      !m.retain && m.qos == if m.message.topic == cfg.NodeTopic(NDeath) then AtLeastOnce else AtMostOnce
    case Closed => true
  }

  predicate AllRight(cfg: EdgeConfig, log: seq<Action>) {
    hide SentRight;
    forall a <- log :: SentRight(cfg, a)
  }

  lemma NotDeath(cfg: EdgeConfig, ty: MessageType, device: Id, dty: MessageType)
    ensures !ty.HasDevice() && !ty.State? && !ty.NDeath? ==> cfg.NodeTopic(ty) != cfg.NodeTopic(NDeath)
    ensures dty.HasDevice() ==> cfg.DeviceTopic(device, dty) != cfg.NodeTopic(NDeath)
  {
    hide Topic.Parse, SparkplugTopic.Show;
    ShownParses(Node(cfg.group, cfg.edge, NDeath));
    if !ty.HasDevice() && !ty.State? { ShownParses(Node(cfg.group, cfg.edge, ty)); }
    if dty.HasDevice() { ShownParses(Device(cfg.group, cfg.edge, device, dty)); }
  }

  lemma RightAppend(cfg: EdgeConfig, a: seq<Action>, b: seq<Action>)
    requires AllRight(cfg, a) && AllRight(cfg, b)
    ensures AllRight(cfg, a + b)
  {
    hide SentRight;
  }

  lemma RightOne(cfg: EdgeConfig, a: Action)
    requires SentRight(cfg, a)
    ensures AllRight(cfg, [a]) && AllRight(cfg, [])
  {
    hide SentRight;
  }

  lemma {:induction false} DevicesRight(cfg: EdgeConfig, e: EdgeView, src: Source, env: Env, calls: nat, at: nat,
                                        devices: seq<Id>)
    ensures AllRight(cfg, PublishDeviceBirths(cfg, e, src, env, calls, at, devices).log)
    decreases |devices|
  {
    hide AllRight, EdgeConfig.NodeTopic, EdgeConfig.DeviceTopic, Encode.EncodePayload, DeviceAssigned, Assign, Stamp;
    RightOne(cfg, Closed);
    if devices != [] && calls < env.budget {
      var next := DeviceAssigned(cfg, e, src, devices[0]).(born := e.born + [devices[0]]);
      var first := Published(DeviceBirthMessage(cfg, e, src, devices[0], env.wall(at)));
      DevicesRight(cfg, next, src, env, calls + 1, at + 1, devices[1..]);
      NotDeath(cfg, NBirth, devices[0], DBirth);
      RightOne(cfg, first);
      RightAppend(cfg, [first], PublishDeviceBirths(cfg, next, src, env, calls + 1, at + 1, devices[1..]).log);
    }
  }

  lemma BirthsRight(cfg: EdgeConfig, e: EdgeView, src: Source, env: Env, calls: nat, at: nat)
    ensures AllRight(cfg, PublishBirths(cfg, e, src, env, calls, at).log)
  {
    hide AllRight, EdgeConfig.NodeTopic, Encode.EncodePayload, PublishDeviceBirths, NodeBorn, NodeBirthMetrics, Stamp;
    RightOne(cfg, Closed);
    if calls < env.budget {
      var first := Published(NodeBirthMessage(cfg, e, src, env.wall(at)));
      DevicesRight(cfg, NodeBorn(cfg, e, src), src, env, calls + 1, at + 1, cfg.devices);
      NotDeath(cfg, NBirth, cfg.edge, NBirth);
      RightOne(cfg, first);
      var rest := PublishDeviceBirths(cfg, NodeBorn(cfg, e, src), src, env, calls + 1, at + 1, cfg.devices);
      RightAppend(cfg, [first], rest.log);
    }
  }

  lemma {:induction false} CommandsRight(cfg: EdgeConfig, devices: seq<Id>)
    ensures AllRight(cfg, Commands(cfg, devices))
    decreases |devices|
  {
    hide EdgeConfig.DeviceTopic, EdgeConfig.NodeTopic;
    if devices != [] { CommandsRight(cfg, devices[1..]); }
  }

  lemma PreludeRight(cfg: EdgeConfig, bdSeq: byte, ts: u64, n: nat)
    ensures var p := Prelude(cfg, Death(cfg, bdSeq, ts)); AllRight(cfg, p) && (n <= |p| ==> AllRight(cfg, p[..n]))
  {
    hide Commands, EdgeConfig.NodeTopic, Encode.EncodePayload;
    CommandsRight(cfg, cfg.devices);
  }

  lemma LeavingRight(cfg: EdgeConfig, e: EdgeView, env: Env)
    ensures AllRight(cfg, Disconnect(cfg, e, env).log)
  {
    hide EdgeConfig.NodeTopic, Encode.EncodePayload;
  }

  /** Every action of every call is sent as it should be. */
  lemma AllSentRight(cfg: EdgeConfig, e: EdgeView, call: Call)
    ensures AllRight(cfg, EdgeStep(cfg, e, call).log)
  {
    hide AllRight, HandleIncoming, PublishBirths, Disconnect, EdgeConfig.NodeTopic, EdgeConfig.DeviceTopic;
    hide Encode.EncodePayload, Prelude, Stamp, ToData, PositionOf, Death;
    RightOne(cfg, Closed);
    match call
    case DoConnect(src, env) =>
      var p := Prelude(cfg, Death(cfg, e.stored, env.wall(0)));
      PreludeRight(cfg, e.stored, env.wall(0), env.budget);
      if env.budget >= |p| && cfg.primaryHost.None? {
        BirthsRight(cfg, Numbered(e), src, env, |p|, 1);
        RightAppend(cfg, p, PublishBirths(cfg, Numbered(e), src, env, |p|, 1).log);
      }
    case DoBirths(src, env) => BirthsRight(cfg, e, src, env, 0, 0);
    case DoNodeData(ms, env) =>
      NotDeath(cfg, NData, cfg.edge, NBirth);
      if e.state == Online && env.budget > 0 { RightOne(cfg, EdgeStep(cfg, e, call).log[0]); }
    case DoDeviceData(d, ms, env) =>
      if d in e.born && ValidId(d) && env.budget > 0 {
        NotDeath(cfg, NBirth, d, DData);
        RightOne(cfg, EdgeStep(cfg, e, call).log[0]);
      }
    case DoDeviceDeath(d, env) =>
      if d in e.born && ValidId(d) && env.budget > 0 {
        NotDeath(cfg, NBirth, d, DDeath);
        RightOne(cfg, EdgeStep(cfg, e, call).log[0]);
      }
    case DoIncoming(m, src, env) => IncomingRight(cfg, e, m, src, env);
    case DoDisconnect(env) => LeavingRight(cfg, e, env);
  }

  lemma IncomingRight(cfg: EdgeConfig, e: EdgeView, m: Message, src: Source, env: Env)
    ensures AllRight(cfg, HandleIncoming(cfg, e, m, src, env).log)
  {
    hide AllRight, PublishBirths, Disconnect, Topic.Parse, Decode.DecodePayload, Messages.ReadState, AsksRebirth;
    RightOne(cfg, Closed);
    BirthsRight(cfg, e, src, env, 0, 0);
    if ReadState(m.payload).Ok? {
      var seen := e.(lastStateTs := Some(ReadState(m.payload).value.timestamp));
      BirthsRight(cfg, seen, src, env, 0, 0);
      LeavingRight(cfg, seen, env);
    }
  }
}
