/** A run that meets the hypotheses of the simulation: an aliased metric, a device, and data of both. */
module Sample {
  import opened Base
  import opened Model
  import opened Alias
  import opened Births
  import opened Topic
  import opened Messages
  import opened Host
  import opened Edge
  import opened Aliasing
  import opened Joining
  import Encode
  import opened Simulation
  import opened Sizes

  const NODE_NAME: Str := AsciiText([110])

  const DEVICE_NAME: Str := AsciiText([100])

  const DEVICE: Id := "d"

  /** One node and one device, without a primary host. */
  function Config(useAliases: bool): EdgeConfig { EdgeConfig("g", "e", [DEVICE], None, useAliases, 0) }

  /** One Boolean metric for the node, another for the device. */
  function OfNode(value: bool): Metric { Control(NODE_NAME, Boolean(value)) }

  function OfDevice(value: bool): Metric { Control(DEVICE_NAME, Boolean(value)) }

  const SOURCE: Source := Source([OfNode(false)], _ => [OfDevice(false)])

  const GENEROUS: Env := Env(100, _ => 0, 0, 0)

  function Rounds(): seq<Round> {
    [Round(DoConnect(SOURCE, GENEROUS), _ => Tick(0, 0, true)),
     Round(DoNodeData([OfNode(true)], GENEROUS), _ => Tick(0, 0, true)),
     Round(DoDeviceData(DEVICE, [OfDevice(true)], GENEROUS), _ => Tick(0, 0, true))]
  }

  lemma NamesDiffer()
    ensures Aliased(OfNode(false)) && Aliased(OfDevice(false)) && NODE_NAME != DEVICE_NAME
    ensures |NODE_NAME| == 1 && |DEVICE_NAME| == 1 && |REBIRTH| == 20 && |BDSEQ| == 5
  {
    hide Base.ValidUtf8;
    assert NODE_NAME[0] == 110 && DEVICE_NAME[0] == 100;
  }

  /** The node's metric and the engine's own two make up the NBIRTH. */
  lemma NodeList(bdSeq: byte)
    ensures WithControls(SOURCE.node, bdSeq) ==
      [OfNode(false), Control(REBIRTH, Boolean(false)), Control(BDSEQ, Int64(bdSeq))]
  {
    hide Base.ValidUtf8;
    NamesDiffer();
    var n, a, b := OfNode(false), Control(REBIRTH, Boolean(false)), Control(BDSEQ, Int64(bdSeq));
    assert !Mentions([n], REBIRTH);
    assert WithRebirth([n]) == [n, a];
    assert !Mentions([n, a], BDSEQ);
    assert [n, a] + [b] == [n, a, b];
  }

  lemma GoodSample(useAliases: bool)
    ensures GoodSource(Config(useAliases), SOURCE) && Distinct(Config(useAliases).devices)
  {
    hide Base.ValidUtf8;
    NamesDiffer();
    assert !Mentions(SOURCE.node, BDSEQ);
    assert CountAliased(SOURCE.node) == 1 && CountAliased(SOURCE.device(DEVICE)) == 1 by {
      assert SOURCE.node[1..] == [] && SOURCE.device(DEVICE)[1..] == [];
    }
    assert CountDevices(SOURCE, [DEVICE]) == 1 by { assert [DEVICE][1..] == []; }
    assert !Takes(SOURCE.device(DEVICE), NODE_NAME);
  }

  // ---- The births ----

  predicate AllPlain(ms: seq<Metric>) { forall m <- ms :: Sizes.Plain(m) }

  lemma PlainAlike(a: seq<Metric>, b: seq<Metric>)
    requires Alike(a, b) && AllPlain(a)
    ensures AllPlain(b)
  {
    forall m | m in b ensures Sizes.Plain(m) {
      var i :| 0 <= i < |b| && b[i] == m;
      assert a[i] in a;
    }
  }

  /** The aliases given: 0 to the node's metric, and the next one to the device's. */
  lemma AliasesGiven(bdSeq: byte, r: Registry, next: u64)
    requires next + 1 < TWO64
    ensures var a := AssignAll(EMPTY, 0, WithControls(SOURCE.node, bdSeq));
      a.aliases.AliasForName(NODE_NAME) == Some(0) && a.next == 1
    ensures AssignAll(r, next, SOURCE.device(DEVICE)).aliases.AliasForName(DEVICE_NAME) == Some(next)
    ensures AssignAll(r, next, SOURCE.device(DEVICE)).aliases.AliasForName(NODE_NAME) == r.AliasForName(NODE_NAME)
  {
    hide Base.ValidUtf8, AssignAll, WithControls;
    NamesDiffer();
    NodeList(bdSeq);
    var n, a, b := OfNode(false), Control(REBIRTH, Boolean(false)), Control(BDSEQ, Int64(bdSeq));
    var bound := EMPTY.Bind(NODE_NAME, Some(0), n.value.Type());
    assert [n, a, b][1..] == [a, b] && [a, b][1..] == [b] && [b][1..] == [] && [OfDevice(false)][1..] == [];
    AssignUnfold(EMPTY, 0, [n, a, b]);
    AssignUnfold(bound, 1, [a, b]);
    AssignUnfold(bound, 1, [b]);
    AssignNone(bound, 1);
    AssignUnfold(r, next, [OfDevice(false)]);
    AssignNone(r.Bind(DEVICE_NAME, Some(next), OfDevice(false).value.Type()), next + 1);
  }

  lemma NodeBirthSmall(useAliases: bool, e: EdgeView, ts: u64)
    ensures |NodeBirthMessage(Config(useAliases), e, SOURCE, ts).message.payload| <= 2000
  {
    hide Encode.EncodePayload, Base.ValidUtf8, Assign, WithControls, Stamp, Alike, EdgeConfig.NodeTopic;
    var cfg := Config(useAliases);
    var c, ms := Cleared(cfg, e), NodeMetrics(e, SOURCE);
    NodeList(e.bdSeq);
    NamesDiffer();
    BirthAlike(cfg, c.aliases, c.nextAlias, ms, ts);
    PlainAlike(ms, Stamp(NodeBirthMetrics(cfg, e, SOURCE).metrics, ts));
    LengthAlike(ms, Stamp(NodeBirthMetrics(cfg, e, SOURCE).metrics, ts));
    PlainPayload(Sequenced(Stamp(NodeBirthMetrics(cfg, e, SOURCE).metrics, ts), 0, ts), false);
  }

  lemma DeviceBirthSmall(useAliases: bool, e: EdgeView, ts: u64)
    ensures |DeviceBirthMessage(Config(useAliases), e, SOURCE, DEVICE, ts).message.payload| <= 2000
  {
    hide Encode.EncodePayload, Base.ValidUtf8, Assign, Stamp, Alike, EdgeConfig.DeviceTopic;
    var cfg, ms := Config(useAliases), SOURCE.device(DEVICE);
    NamesDiffer();
    BirthAlike(cfg, e.aliases, e.nextAlias, ms, ts);
    PlainAlike(ms, Stamp(Assign(cfg, e.aliases, e.nextAlias, ms).metrics, ts));
    LengthAlike(ms, Stamp(Assign(cfg, e.aliases, e.nextAlias, ms).metrics, ts));
    PlainPayload(Sequenced(Stamp(Assign(cfg, e.aliases, e.nextAlias, ms).metrics, ts), e.seqNo, ts), false);
  }

  lemma LengthAlike(a: seq<Metric>, b: seq<Metric>)
    requires Alike(a, b)
    ensures |a| == |b|
  {
  }

  /** Online, with the device born, and aliases given when they are in use. */
  predicate Ready(useAliases: bool, e: EdgeView) {
    && e.state == Online && e.born == [DEVICE]
    && (useAliases ==> e.aliases.AliasForName(NODE_NAME) == Some(0) && e.aliases.AliasForName(DEVICE_NAME) == Some(1))
  }

  lemma BirthsReady(useAliases: bool, e: EdgeView, calls: nat)
    requires calls < 90
    ensures var out := PublishBirths(Config(useAliases), e, SOURCE, GENEROUS, calls, 1);
      out.result.Ok? && Ready(useAliases, out.edge) && Small(out.log) && out.log != []
  {
    hide NodeBirthMessage, DeviceBirthMessage, WithControls, AssignAll, Base.ValidUtf8;
    var cfg := Config(useAliases);
    var born := NodeBorn(cfg, e, SOURCE);
    var first := Published(NodeBirthMessage(cfg, e, SOURCE, 0));
    var second := Published(DeviceBirthMessage(cfg, born, SOURCE, DEVICE, 0));
    NodeBirthSmall(useAliases, e, 0);
    DeviceBirthSmall(useAliases, born, 0);
    if useAliases { AliasesGiven(e.bdSeq, born.aliases, 1); }
    var devices := cfg.devices;
    assert devices == [DEVICE] && devices[1..] == [];
    var last := DeviceAssigned(cfg, born, SOURCE, DEVICE).(born := [DEVICE]);
    assert born.born + [DEVICE] == [DEVICE];
    assert PublishDeviceBirths(cfg, last, SOURCE, GENEROUS, calls + 2, 3, devices[1..]) ==
      EdgeOut(last.(state := Online), [], Ok(()));
    var rest := PublishDeviceBirths(cfg, born, SOURCE, GENEROUS, calls + 1, 2, devices);
    Units([second]);
    assert rest.log == [second];
    assert PublishBirths(cfg, e, SOURCE, GENEROUS, calls, 1).log == [first] + [second];
  }

  /** Connecting succeeds, is admissible and leaves the edge ready. */
  lemma ConnectAdmissible(useAliases: bool, s: System)
    ensures var cfg, call := Config(useAliases), DoConnect(SOURCE, GENEROUS);
      var out := EdgeStep(cfg, s.edge, call);
      Admissible(cfg, s, call) && BirthsSent(call, out) && Ready(useAliases, out.edge)
  {
    hide Prelude, Death, Unpublished, Base.ValidUtf8, GoodSource, Commands, PublishBirths, Connect, Small;
    var cfg, e := Config(useAliases), Numbered(s.edge);
    var prelude := Prelude(cfg, Death(cfg, s.edge.stored, 0));
    ConnectEnd(cfg, s.edge, SOURCE, GENEROUS);
    PreludeShort(cfg, Death(cfg, s.edge.stored, 0));
    GoodSample(useAliases);
    BirthsReady(useAliases, e, |prelude|);
    PreludeUnpublished(cfg, Death(cfg, s.edge.stored, 0));
    QuietSmall(prelude, PublishBirths(cfg, e, SOURCE, GENEROUS, |prelude|, 1).log);
  }

  lemma PreludeShort(cfg: EdgeConfig, will: Outbound)
    requires |cfg.devices| == 1 && cfg.primaryHost.None?
    ensures |Prelude(cfg, will)| == 3
  {
    hide EdgeConfig.NodeTopic, EdgeConfig.DeviceTopic;
    assert cfg.devices[1..] == [];
    assert Commands(cfg, cfg.devices[1..]) == [];
    assert |Commands(cfg, cfg.devices)| == 1;
  }

  lemma QuietSmall(quiet: seq<Action>, log: seq<Action>)
    requires Unpublished(quiet) && Small(log)
    ensures Small(quiet + log)
  {
  }

  // ---- The data ----

  lemma DataSmall(cfg: EdgeConfig, e: EdgeView, m: Metric)
    requires Sizes.Plain(m)
    ensures |Encode.EncodePayload(DataPayload(cfg, e, [m], 0), true)| <= 2000
  {
    hide Encode.EncodePayload;
    var p := DataPayload(cfg, e, [m], 0);
    assert |p.metrics| == 1 && Sizes.Plain(p.metrics[0]);
    PlainPayload(p, true);
  }

  lemma MetricsDeclared(bdSeq: byte)
    ensures AllDeclared(WithControls(SOURCE.node, bdSeq), [OfNode(true)])
    ensures AllDeclared(SOURCE.device(DEVICE), [OfDevice(true)])
  {
    hide Base.ValidUtf8, WithControls;
    NamesDiffer();
    NodeList(bdSeq);
    var n, a, b := OfNode(false), Control(REBIRTH, Boolean(false)), Control(BDSEQ, Int64(bdSeq));
    assert [n, a, b][1..] == [a, b] && [a, b][1..] == [b] && [b][1..] == [] && [OfDevice(false)][1..] == [];
    assert TypeOf([b], NODE_NAME) == None;
    assert TypeOf([a, b], NODE_NAME) == None;
    SameNeed(Control(REBIRTH, Boolean(true)), OfNode(true));
    SameNeed(Control(REBIRTH, Boolean(true)), OfDevice(true));
    ControlFits(REBIRTH, Boolean(true));
  }

  lemma NodeDataAdmissible(useAliases: bool, s: System)
    requires s.src == SOURCE && Ready(useAliases, s.edge)
    ensures var call := DoNodeData([OfNode(true)], GENEROUS);
      Admissible(Config(useAliases), s, call) && Ready(useAliases, EdgeStep(Config(useAliases), s.edge, call).edge)
  {
    hide Encode.EncodePayload, EdgeConfig.NodeTopic, Base.ValidUtf8, WithControls, AllDeclared, ToData, Stamp, Control;
    hide Connect, PublishBirths, PublishDeviceData, PublishDeviceDeath, HandleIncoming, Disconnect, GoodSource;
    var cfg := Config(useAliases);
    MetricsDeclared(s.edge.bdSeq);
    PlainSamples();
    DataSmall(cfg, s.edge, OfNode(true));
  }

  lemma DeviceDataAdmissible(useAliases: bool, s: System)
    requires s.src == SOURCE && Ready(useAliases, s.edge)
    ensures Admissible(Config(useAliases), s, DoDeviceData(DEVICE, [OfDevice(true)], GENEROUS))
  {
    hide Encode.EncodePayload, EdgeConfig.DeviceTopic, Base.ValidUtf8, WithControls, AllDeclared, ToData, Stamp;
    hide Control;
    hide Connect, PublishBirths, PublishNodeData, PublishDeviceDeath, HandleIncoming, Disconnect, GoodSource;
    var cfg := Config(useAliases);
    MetricsDeclared(s.edge.bdSeq);
    PlainSamples();
    DataSmall(cfg, s.edge, OfDevice(true));
  }

  lemma PlainSamples()
    ensures Sizes.Plain(OfNode(true)) && Sizes.Plain(OfDevice(true))
  {
    hide Base.ValidUtf8;
    NamesDiffer();
  }

  /**
   So the run is admissible from any disconnected edge and any host, the host hears it, and with aliases in use both
   data messages go out under aliases.
   */
  lemma SampleRun(useAliases: bool, s: System)
    requires s.edge.state == Disconnected
    ensures var cfg := Config(useAliases);
      AllAdmissible(cfg, s, Rounds()) && AllTold(cfg, s, Rounds())
        && Ready(useAliases, Advance(cfg, s, Rounds()[0]).edge)
  {
    hide Edge.EdgeStep, Admissible, AllTold, Distinct, HostAfter, GoodSource, InStep, Ready, Base.ValidUtf8, OfNode;
    hide OfDevice;
    var cfg := Config(useAliases);
    var connect, node, device := Rounds()[0], Rounds()[1], Rounds()[2];
    ConnectAdmissible(useAliases, s);
    var s1 := Advance(cfg, s, connect);
    NodeDataAdmissible(useAliases, s1);
    var s2 := Advance(cfg, s1, node);
    DeviceDataAdmissible(useAliases, s2);
    assert Rounds()[1..] == [node, device] && [node, device][1..] == [device] && [device][1..] == [];
    assert AllAdmissible(cfg, s2, [device]);
    assert AllAdmissible(cfg, s1, [node, device]);
    GoodSample(useAliases);
    NewEdgeInStep(cfg, s);
    EdgeHostSimulation(cfg, s, Rounds());
  }
}
