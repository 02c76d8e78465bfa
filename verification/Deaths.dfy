/**
 The bdSeq across connections: every will, NDEATH and NBIRTH of one connection carries its number, and an NDEATH of
 an earlier connection leaves a live session alone (src/edge.rs:249-264, src/edge.rs:329-361, src/host.rs:555-595).
 */
module Deaths {
  import opened Base
  import opened Model
  import opened Encode
  import opened Decode
  import opened Topic
  import opened Messages
  import opened Sequence
  import opened Host
  import opened HostRuns
  import opened Isolation
  import opened Edge
  import opened Aliasing
  import opened Joining
  import opened Simulation
  import opened Lossy
  import Names

  // ---- Numbers of connections ----

  function Connects(calls: seq<Call>): nat {
    if calls == [] then 0 else (if calls[0].DoConnect? then 1 else 0) + Connects(calls[1..])
  }

  function EdgeAfter(cfg: EdgeConfig, e: EdgeView, calls: seq<Call>): EdgeView
    decreases |calls|
  {
    hide Edge.EdgeStep;
    if calls == [] then e else EdgeAfter(cfg, EdgeStep(cfg, e, calls[0]).edge, calls[1..])
  }

  predicate SameNumbers(e: EdgeView, f: EdgeView) { f.bdSeq == e.bdSeq && f.stored == e.stored }

  lemma {:induction false} DevicesKeepNumbers(cfg: EdgeConfig, e: EdgeView, src: Source, env: Env, calls: nat, at: nat,
                                              devices: seq<Id>)
    ensures SameNumbers(e, PublishDeviceBirths(cfg, e, src, env, calls, at, devices).edge)
    decreases |devices|
  {
    hide Assign, DeviceBirthMessage;
    if devices != [] {
      var built := DeviceAssigned(cfg, e, src, devices[0]);
      DevicesKeepNumbers(cfg, built.(born := e.born + [devices[0]]), src, env, calls + 1, at + 1, devices[1..]);
    }
  }

  lemma BirthsKeepNumbers(cfg: EdgeConfig, e: EdgeView, src: Source, env: Env, calls: nat, at: nat)
    ensures SameNumbers(e, PublishBirths(cfg, e, src, env, calls, at).edge)
  {
    hide NodeBirthMessage, PublishDeviceBirths, NodeBirthMetrics;
    DevicesKeepNumbers(cfg, NodeBorn(cfg, e, src), src, env, calls + 1, at + 1, cfg.devices);
  }

  lemma IncomingKeepsNumbers(cfg: EdgeConfig, e: EdgeView, m: Message, src: Source, env: Env)
    ensures SameNumbers(e, HandleIncoming(cfg, e, m, src, env).edge)
  {
    hide HandleIncoming, PublishBirths, Disconnect;
    var out := HandleIncoming(cfg, e, m, src, env);
    IncomingCases(cfg, e, m, src, env);
    if exists from :: SetsOffBirths(cfg, e, from, src, env, out) {
      var from :| SetsOffBirths(cfg, e, from, src, env, out);
      BirthsKeepNumbers(cfg, from, src, env, 0, 0);
    } else if exists from :: SetsOffLeaving(cfg, e, from, env, out) {
      var from :| SetsOffLeaving(cfg, e, from, env, out);
      LeavingKeepsNumbers(cfg, from, env);
    }
  }

  lemma LeavingKeepsNumbers(cfg: EdgeConfig, e: EdgeView, env: Env)
    ensures SameNumbers(e, Disconnect(cfg, e, env).edge)
  {
    hide Death;
  }

  /** Only a connect changes the numbers, whether or not the transport fails it. */
  lemma StepNumbers(cfg: EdgeConfig, e: EdgeView, call: Call)
    ensures var f := EdgeStep(cfg, e, call).edge;
      if call.DoConnect? then f.bdSeq == e.stored && f.stored == Next(e.stored) else SameNumbers(e, f)
  {
    hide HandleIncoming, PublishBirths, Disconnect, Death, Prelude, Encode.EncodePayload, Stamp, ToData, Without;
    hide EdgeConfig.NodeTopic, EdgeConfig.DeviceTopic;
    match call
    case DoConnect(src, env) => BirthsKeepNumbers(cfg, Numbered(e), src, env,
                                                  |Prelude(cfg, Death(cfg, Numbered(e).bdSeq, env.wall(0)))|, 1);
    case DoBirths(src, env) => BirthsKeepNumbers(cfg, e, src, env, 0, 0);
    case DoIncoming(m, src, env) => IncomingKeepsNumbers(cfg, e, m, src, env);
    case DoDisconnect(env) => LeavingKeepsNumbers(cfg, e, env);
    case _ =>
  }

  /**
   Over any calls, transport failures included, the k-th connection is numbered k after the stored start, modulo
   256.
   */
  lemma {:induction false} ConnectionNumbers(cfg: EdgeConfig, e: EdgeView, calls: seq<Call>)
    ensures var f, k := EdgeAfter(cfg, e, calls), Connects(calls);
      && f.stored == Advanced(e.stored, k)
      && (if k == 0 then f.bdSeq == e.bdSeq else f.bdSeq == Advanced(e.stored, k - 1))
    decreases |calls|
  {
    hide Edge.EdgeStep, Sequence.Next, Sequence.Advanced;
    AdvancedStep(e.stored, 0);
    if calls != [] {
      StepNumbers(cfg, e, calls[0]);
      var next := EdgeStep(cfg, e, calls[0]).edge;
      var k := Connects(calls[1..]);
      ConnectionNumbers(cfg, next, calls[1..]);
      if calls[0].DoConnect? {
        AdvancedFrom(e.stored, k);
        if k > 0 { AdvancedFrom(e.stored, k - 1); }
      }
    }
  }

  // ---- What carries the number ----

  /** The message decodes, and shows that bdSeq. */
  predicate Shows(m: Message, bdSeq: byte) {
    hide Decode.DecodePayload;
    DecodePayload(m.payload, None).Ok? && BdSeqOf(DecodePayload(m.payload, None).value.metrics) == Some(bdSeq)
  }

  /** An NDEATH shows the number; so does an NBIRTH when `births` says that its source allows it. */
  predicate Bears(m: Message, bdSeq: byte, births: bool) {
    hide Addressee, AsNodeMessage, Shows;
    Addressee(m.topic).Some? ==>
      && (AsNodeMessage(m).ty.NDeath? ==> Shows(m, bdSeq))
      && (AsNodeMessage(m).ty.NBirth? && births && |m.payload| < TWO64 ==> Shows(m, bdSeq))
  }

  /** The will or publication of that action carries the number. */
  predicate CarriesNumber(a: Action, bdSeq: byte, births: bool) {
    hide Bears;
    (a.Connected? ==> Bears(a.will.message, bdSeq, births)) && (a.Published? ==> Bears(a.msg.message, bdSeq, births))
  }

  lemma DeathBears(cfg: EdgeConfig, bdSeq: byte, ts: u64, births: bool)
    ensures Bears(Death(cfg, bdSeq, ts).message, bdSeq, births)
  {
    hide Decode.DecodePayload, Encode.EncodePayload, Addressee, AsNodeMessage, Host.BdSeqOf, DeathPayload;
    DeathArrives(bdSeq, ts);
  }

  /** The node metrics fit the codec, and the bdSeq metric is left to the engine. */
  predicate LeavesBdSeq(src: Source) { Fits(src.node) && !Mentions(src.node, BDSEQ) }

  /** An NBIRTH shows its connection's number exactly when its source supplies no bdSeq metric, or that very number. */
  lemma NodeBirthShows(cfg: EdgeConfig, e: EdgeView, src: Source, ts: u64)
    requires Fits(src.node) && |NodeBirthMessage(cfg, e, src, ts).message.payload| < TWO64
    ensures Shows(NodeBirthMessage(cfg, e, src, ts).message, e.bdSeq) <==>
      !Mentions(src.node, BDSEQ) || BdSeqOf(src.node) == Some(e.bdSeq)
  {
    hide Decode.DecodePayload, Encode.EncodePayload, Host.BdSeqOf, Stamp, Fits, Assign, Alike, WithControls, Mentions;
    var ms := NodeMetrics(e, src);
    var c := Cleared(cfg, e);
    BirthAlike(cfg, c.aliases, c.nextAlias, ms, ts);
    ControlsFitCodec(src.node, e.bdSeq);
    AlikeFits(ms, Stamp(NodeBirthMetrics(cfg, e, src).metrics, ts));
    ControlsCarryBdSeq(src.node, e.bdSeq);
    BdSeqAlike(ms, Stamp(NodeBirthMetrics(cfg, e, src).metrics, ts));
    BirthArrives(Edge.Sequenced(Stamp(NodeBirthMetrics(cfg, e, src).metrics, ts), 0, ts));
  }

  lemma ControlsFitCodec(ms: seq<Metric>, bdSeq: byte)
    requires Fits(ms)
    ensures Fits(WithControls(ms, bdSeq))
  {
    hide Model.WfMetric, Model.NeedMetric, Mentions, Control, Base.ValidUtf8;
    ControlFits(REBIRTH, Boolean(false));
    ControlFits(BDSEQ, Int64(bdSeq));
  }

  lemma OtherBears(topic: string, payload: bytes, bdSeq: byte, births: bool)
    requires Addressee(topic).Some? ==>
      !AsNodeMessage(Message(topic, payload)).ty.NBirth? && !AsNodeMessage(Message(topic, payload)).ty.NDeath?
    ensures Bears(Message(topic, payload), bdSeq, births)
  {
    hide Addressee, AsNodeMessage, Shows;
  }

  predicate AllCarry(log: seq<Action>, bdSeq: byte, births: bool) {
    hide CarriesNumber;
    forall a <- log :: CarriesNumber(a, bdSeq, births)
  }

  lemma CarryAppend(a: seq<Action>, b: seq<Action>, bdSeq: byte, births: bool)
    requires AllCarry(a, bdSeq, births) && AllCarry(b, bdSeq, births)
    ensures AllCarry(a + b, bdSeq, births)
  {
    hide CarriesNumber;
  }

  lemma CarryOne(a: Action, bdSeq: byte, births: bool)
    requires CarriesNumber(a, bdSeq, births)
    ensures AllCarry([a], bdSeq, births)
  {
    hide CarriesNumber;
  }

  lemma NothingCarries(bdSeq: byte, births: bool)
    ensures AllCarry([], bdSeq, births)
  {
  }

  lemma NodePublished(cfg: EdgeConfig, ty: MessageType, msg: Outbound, bdSeq: byte, births: bool)
    requires msg.message.topic == cfg.NodeTopic(ty) && ty.NData?
    ensures AllCarry([Published(msg)], bdSeq, births)
  {
    hide Addressee, AsNodeMessage, Bears, EdgeConfig.NodeTopic;
    NodeLetter(cfg, ty, msg.message.payload);
    OtherBears(msg.message.topic, msg.message.payload, bdSeq, births);
    CarryOne(Published(msg), bdSeq, births);
  }

  lemma DevicePublished(cfg: EdgeConfig, device: Id, ty: MessageType, msg: Outbound, bdSeq: byte, births: bool)
    requires msg.message.topic == cfg.DeviceTopic(device, ty) && ty.HasDevice()
    ensures AllCarry([Published(msg)], bdSeq, births)
  {
    hide Addressee, AsNodeMessage, Bears, EdgeConfig.DeviceTopic;
    DeviceLetter(cfg, device, ty, msg.message.payload);
    OtherBears(msg.message.topic, msg.message.payload, bdSeq, births);
    CarryOne(Published(msg), bdSeq, births);
  }

  lemma {:induction false} DevicesCarry(cfg: EdgeConfig, e: EdgeView, src: Source, env: Env, calls: nat, at: nat,
                                        devices: seq<Id>, births: bool)
    ensures AllCarry(PublishDeviceBirths(cfg, e, src, env, calls, at, devices).log, e.bdSeq, births)
    decreases |devices|
  {
    hide AllCarry, EdgeConfig.DeviceTopic, Encode.EncodePayload, Assign, Stamp;
    NothingCarries(e.bdSeq, births);
    if devices != [] && calls < env.budget {
      var next := DeviceAssigned(cfg, e, src, devices[0]).(born := e.born + [devices[0]]);
      var rest := PublishDeviceBirths(cfg, next, src, env, calls + 1, at + 1, devices[1..]);
      var msg := DeviceBirthMessage(cfg, e, src, devices[0], env.wall(at));
      DevicesCarry(cfg, next, src, env, calls + 1, at + 1, devices[1..], births);
      DevicePublished(cfg, devices[0], DBirth, msg, e.bdSeq, births);
      CarryAppend([Published(msg)], rest.log, e.bdSeq, births);
    }
  }

  lemma NodeBirthCarries(cfg: EdgeConfig, e: EdgeView, src: Source, ts: u64)
    ensures AllCarry([Published(NodeBirthMessage(cfg, e, src, ts))], e.bdSeq, LeavesBdSeq(src))
  {
    hide Shows, NodeBirthMetrics, Addressee, AsNodeMessage, Encode.EncodePayload, Stamp, EdgeConfig.NodeTopic;
    hide Fits, Mentions, Host.BdSeqOf, Base.ValidUtf8;
    var msg := NodeBirthMessage(cfg, e, src, ts);
    NodeBirthLetter(cfg, e, src, ts);
    if LeavesBdSeq(src) && |msg.message.payload| < TWO64 { NodeBirthShows(cfg, e, src, ts); }
    CarryOne(Published(msg), e.bdSeq, LeavesBdSeq(src));
  }

  lemma DeathCarries(cfg: EdgeConfig, bdSeq: byte, ts: u64, births: bool)
    ensures AllCarry([Published(Death(cfg, bdSeq, ts))], bdSeq, births)
    ensures AllCarry([Connected(Death(cfg, bdSeq, ts))], bdSeq, births)
    ensures AllCarry([Closed], bdSeq, births)
  {
    hide Bears, Death;
    DeathBears(cfg, bdSeq, ts, births);
    CarryOne(Published(Death(cfg, bdSeq, ts)), bdSeq, births);
    CarryOne(Connected(Death(cfg, bdSeq, ts)), bdSeq, births);
    CarryOne(Closed, bdSeq, births);
  }

  lemma BirthsCarry(cfg: EdgeConfig, e: EdgeView, src: Source, env: Env, calls: nat, at: nat)
    ensures AllCarry(PublishBirths(cfg, e, src, env, calls, at).log, e.bdSeq, LeavesBdSeq(src))
  {
    hide AllCarry, LeavesBdSeq, NodeBirthMessage, PublishDeviceBirths, NodeBirthMetrics;
    NothingCarries(e.bdSeq, LeavesBdSeq(src));
    if calls < env.budget {
      var born := NodeBorn(cfg, e, src);
      var rest := PublishDeviceBirths(cfg, born, src, env, calls + 1, at + 1, cfg.devices);
      NodeBirthCarries(cfg, e, src, env.wall(at));
      DevicesCarry(cfg, born, src, env, calls + 1, at + 1, cfg.devices, LeavesBdSeq(src));
      CarryAppend([Published(NodeBirthMessage(cfg, e, src, env.wall(at)))], rest.log, e.bdSeq, LeavesBdSeq(src));
    }
  }

  lemma {:induction false} CommandsCarry(cfg: EdgeConfig, devices: seq<Id>, bdSeq: byte, births: bool)
    ensures AllCarry(Commands(cfg, devices), bdSeq, births)
    decreases |devices|
  {
    hide EdgeConfig.DeviceTopic, Bears;
    if devices != [] { CommandsCarry(cfg, devices[1..], bdSeq, births); }
  }

  lemma PreludeCarries(cfg: EdgeConfig, bdSeq: byte, ts: u64, n: nat, births: bool)
    requires n <= |Prelude(cfg, Death(cfg, bdSeq, ts))|
    ensures AllCarry(Prelude(cfg, Death(cfg, bdSeq, ts)), bdSeq, births)
    ensures AllCarry(Prelude(cfg, Death(cfg, bdSeq, ts))[..n], bdSeq, births)
  {
    hide Commands, EdgeConfig.NodeTopic, Bears, Death;
    CommandsCarry(cfg, cfg.devices, bdSeq, births);
    DeathCarries(cfg, bdSeq, ts, births);
    assert Connected(Death(cfg, bdSeq, ts)) in [Connected(Death(cfg, bdSeq, ts))];
  }

  lemma ConnectCarries(cfg: EdgeConfig, e: EdgeView, src: Source, env: Env)
    ensures AllCarry(Connect(cfg, e, src, env).log, e.stored, LeavesBdSeq(src))
  {
    hide AllCarry, LeavesBdSeq, PublishBirths, Prelude, Death;
    var prelude, births := Prelude(cfg, Death(cfg, e.stored, env.wall(0))), LeavesBdSeq(src);
    PreludeCarries(cfg, e.stored, env.wall(0), if env.budget < |prelude| then env.budget else 0, births);
    BirthsCarry(cfg, Numbered(e), src, env, |prelude|, 1);
    CarryAppend(prelude, PublishBirths(cfg, Numbered(e), src, env, |prelude|, 1).log, e.stored, births);
  }

  lemma DisconnectCarries(cfg: EdgeConfig, e: EdgeView, env: Env, births: bool)
    ensures AllCarry(Disconnect(cfg, e, env).log, e.bdSeq, births)
  {
    hide AllCarry, Death;
    NothingCarries(e.bdSeq, births);
    DeathCarries(cfg, e.bdSeq, env.wall(0), births);
    var death := Published(Death(cfg, e.bdSeq, env.wall(0)));
    CarryAppend([death], [Closed], e.bdSeq, births);
    assert [death] + [Closed] == [death, Closed];
  }

  lemma IncomingCarries(cfg: EdgeConfig, e: EdgeView, m: Message, src: Source, env: Env)
    ensures AllCarry(HandleIncoming(cfg, e, m, src, env).log, e.bdSeq, LeavesBdSeq(src))
  {
    hide HandleIncoming, PublishBirths, Disconnect, AllCarry, LeavesBdSeq;
    var out := HandleIncoming(cfg, e, m, src, env);
    IncomingCases(cfg, e, m, src, env);
    NothingCarries(e.bdSeq, LeavesBdSeq(src));
    if exists from :: SetsOffBirths(cfg, e, from, src, env, out) {
      var from :| SetsOffBirths(cfg, e, from, src, env, out);
      BirthsCarry(cfg, from, src, env, 0, 0);
    } else if exists from :: SetsOffLeaving(cfg, e, from, env, out) {
      var from :| SetsOffLeaving(cfg, e, from, env, out);
      DisconnectCarries(cfg, from, env, LeavesBdSeq(src));
    }
  }

  lemma DataCarries(cfg: EdgeConfig, e: EdgeView, call: Call)
    requires call.DoNodeData? || call.DoDeviceData? || call.DoDeviceDeath?
    ensures AllCarry(EdgeStep(cfg, e, call).log, e.bdSeq, true)
  {
    hide AllCarry, EdgeConfig.NodeTopic, EdgeConfig.DeviceTopic, Encode.EncodePayload, Stamp, ToData, Without, ValidId;
    hide HandleIncoming, PublishBirths, Connect, Disconnect;
    NothingCarries(e.bdSeq, true);
    match call
    case DoNodeData(ms, env) =>
      if e.state == Online && env.budget > 0 {
        NodePublished(cfg, NData, EdgeStep(cfg, e, call).log[0].msg, e.bdSeq, true);
      }
    case DoDeviceData(d, ms, env) =>
      if d in e.born && ValidId(d) && env.budget > 0 {
        DevicePublished(cfg, d, DData, EdgeStep(cfg, e, call).log[0].msg, e.bdSeq, true);
      }
    case DoDeviceDeath(d, env) =>
      if d in e.born && ValidId(d) && env.budget > 0 {
        DevicePublished(cfg, d, DDeath, EdgeStep(cfg, e, call).log[0].msg, e.bdSeq, true);
      }
    case _ =>
  }

  /** The births a call may publish leave the bdSeq metric to the engine. */
  predicate Leaves(call: Call) {
    call.DoConnect? || call.DoBirths? || call.DoIncoming? ==> LeavesBdSeq(call.src)
  }

  /**
   Every will and NDEATH of any call carries the bdSeq the edge has after it, transport failures included, and so
   does its NBIRTH unless its source supplies a bdSeq metric of its own or metrics that do not fit the codec.
   */
  lemma StepCarries(cfg: EdgeConfig, e: EdgeView, call: Call)
    ensures AllCarry(EdgeStep(cfg, e, call).log, EdgeStep(cfg, e, call).edge.bdSeq, Leaves(call))
  {
    hide AllCarry, LeavesBdSeq, HandleIncoming, PublishBirths, Connect, Disconnect;
    hide PublishNodeData, PublishDeviceData, PublishDeviceDeath;
    StepNumbers(cfg, e, call);
    match call
    case DoConnect(src, env) => ConnectCarries(cfg, e, src, env);
    case DoBirths(src, env) => BirthsCarry(cfg, e, src, env, 0, 0);
    case DoIncoming(m, src, env) => IncomingCarries(cfg, e, m, src, env);
    case DoDisconnect(env) => DisconnectCarries(cfg, e, env, true);
    case _ => DataCarries(cfg, e, call);
  }

  // ---- Over whole runs ----

  /** After `k` connections so far, what each further call sends carries the number of the connection it belongs to. */
  predicate RunCarries(cfg: EdgeConfig, e: EdgeView, calls: seq<Call>, start: byte, k: nat)
    decreases |calls|
  {
    hide Edge.EdgeStep, AllCarry, Leaves;
    calls != [] ==>
      var out, now := EdgeStep(cfg, e, calls[0]), if calls[0].DoConnect? then k + 1 else k;
      && (now > 0 ==> AllCarry(out.log, Advanced(start, now - 1), Leaves(calls[0])))
      && RunCarries(cfg, out.edge, calls[1..], start, now)
  }

  lemma {:induction false} RunCarriesFrom(cfg: EdgeConfig, e: EdgeView, calls: seq<Call>, start: byte, k: nat)
    requires e.stored == Advanced(start, k) && (k > 0 ==> e.bdSeq == Advanced(start, k - 1))
    ensures RunCarries(cfg, e, calls, start, k)
    decreases |calls|
  {
    hide Edge.EdgeStep, AllCarry, Leaves, Sequence.Next, Sequence.Advanced;
    if calls != [] {
      StepCarries(cfg, e, calls[0]);
      StepNumbers(cfg, e, calls[0]);
      AdvancedStep(start, k);
      RunCarriesFrom(cfg, EdgeStep(cfg, e, calls[0]).edge, calls[1..], start, if calls[0].DoConnect? then k + 1 else k);
    }
  }

  /**
   Every will and NDEATH of the k-th connection (counted from zero), and every NBIRTH and rebirth whose source leaves
   the bdSeq metric to the engine, carries the bdSeq (start + k) mod 256, where `start` is what the store held; over
   any calls, any sources and any transport failures.
   */
  lemma ConnectionsCarryTheirNumber(cfg: EdgeConfig, e: EdgeView, calls: seq<Call>)
    ensures RunCarries(cfg, e, calls, e.stored, 0)
  {
    hide RunCarries;
    AdvancedStep(e.stored, 0);
    RunCarriesFrom(cfg, e, calls, e.stored, 0);
  }

  /**
   An NDEATH of the edge's j-th connection ends the online session of its k-th exactly when the two are a multiple
   of 256 connections apart; so none of the 255 connections before does, and the k-th itself does.
   */
  lemma StaleDeathsIgnored(cfg: EdgeConfig, start: byte, j: nat, k: nat, ts: u64, node: Option<NodeState>,
                           debounce: nat, tick: Tick)
    requires j <= k && Live(node) && node.value.bdSeq == Some(Advanced(start, k))
    ensures var o := NodeStep(debounce, Peer(cfg), node,
                              NodeMessage(NDeath, "", Death(cfg, Advanced(start, j), ts).message.payload), tick);
      if (k - j) % TWO8 == 0 then o.event.Ok? && o.event.value.NodeDeath? && o.node == Some(Offline(node.value))
      else o == Outcome(node, Ok(HostEvent.Ignored), [])
  {
    hide Host.NodeStep, Encode.EncodePayload, Sequence.Advanced, DeathPayload, Names.Listing;
    AdvancedMeet(start, j, k);
    DeathHeard(cfg, Advanced(start, j), ts, node, debounce, tick);
  }

  /**
   Stale deaths never kill a live session: while the host is in step with an edge that has made its k-th connection,
   the NDEATH of an earlier one, unless a multiple of 256 back, changes nothing, and that of the k-th ends the session.
   */
  lemma LiveSessionSurvives(cfg: EdgeConfig, e: EdgeView, calls: seq<Call>, src: Source, n: NodeState, j: nat, ts: u64,
                            debounce: nat, tick: Tick)
    requires j < Connects(calls) && Joined(cfg, src, EdgeAfter(cfg, e, calls), n)
    ensures var o := NodeStep(debounce, Peer(cfg), Some(n),
                              NodeMessage(NDeath, "", Death(cfg, Advanced(e.stored, j), ts).message.payload), tick);
      if (Connects(calls) - 1 - j) % TWO8 == 0 then
        o.event.Ok? && o.event.value.NodeDeath? && o.node == Some(Offline(n))
      else o == Outcome(Some(n), Ok(HostEvent.Ignored), [])
  {
    hide Host.NodeStep, EdgeAfter, Death, Sequence.Advanced, Understands, WithControls, Offline;
    ConnectionNumbers(cfg, e, calls);
    StaleDeathsIgnored(cfg, e.stored, j, Connects(calls) - 1, ts, Some(n), debounce, tick);
  }
}
