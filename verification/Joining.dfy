/**
 One edge message at the host: what each publication does to a host that is in step (src/edge.rs:307-530,
 src/host.rs:479-718).
 */
module Joining {
  import opened Base
  import opened Model
  import opened Alias
  import opened Births
  import opened Encode
  import opened Decode
  import opened RoundTrip
  import opened Codec
  import opened Topic
  import Names
  import opened Messages
  import opened Sequence
  import opened Host
  import opened Edge
  import opened Aliasing
  import opened Sizes

  // ---- What a source supplies ----

  /** Metrics the codec can carry. */
  predicate Fits(ms: seq<Metric>) { forall m <- ms :: WfMetric(m) && NeedMetric(m) <= MAX_DEPTH }

  /** No name of one list that takes an alias is such a name of the other. */
  predicate Apart(a: seq<Metric>, b: seq<Metric>) {
    forall m <- a :: Aliased(m) ==> !Takes(b, m.name.value)
  }

  function CountDevices(src: Source, devices: seq<Id>): nat
    decreases |devices|
  {
    if devices == [] then 0 else CountAliased(src.device(devices[0])) + CountDevices(src, devices[1..])
  }

  /**
   The source leaves aliases and the bdSeq metric to the engine, its metrics fit the codec, and when
   aliases are in use (one map for all births) no two births share a name that takes one.
   */
  predicate GoodSource(cfg: EdgeConfig, src: Source) {
    && Fits(src.node) && AliasFree(src.node) && !Mentions(src.node, BDSEQ)
    && (forall d <- cfg.devices :: Fits(src.device(d)) && AliasFree(src.device(d)))
    && (cfg.useAliases ==> forall d <- cfg.devices ::
          Apart(src.node, src.device(d)) && forall f <- cfg.devices :: f != d ==> Apart(src.device(f), src.device(d)))
    && CountAliased(src.node) + CountDevices(src, cfg.devices) < TWO64
  }

  /** A value reported for a metric of that birth, under its declared datatype. */
  predicate Declared(decl: seq<Metric>, m: Metric) {
    && m.name.Some? && TypeOf(decl, m.name.value) == Some(m.value.Type())
    && !m.value.TemplateV? && WfMetric(m) && NeedMetric(m) <= MAX_DEPTH
  }

  // ---- Being in step ----

  function Wire(cfg: EdgeConfig, e: EdgeView): Registry { if cfg.useAliases then e.aliases else EMPTY }

  ghost predicate Understands(wire: Registry, host: Registry, decl: seq<Metric>) {
    forall name :: TypeOf(decl, name).Some? ==> Resolves(wire, host, name, TypeOf(decl, name).value)
  }

  function NodeMetrics(e: EdgeView, src: Source): seq<Metric> { WithControls(src.node, e.bdSeq) }

  predicate Distinct(names: seq<string>) { forall i, j :: 0 <= i < j < |names| ==> names[i] != names[j] }

  /** The host's node matches the edge: numbers, devices, and the resolution of every declared name. */
  ghost predicate Joined(cfg: EdgeConfig, src: Source, e: EdgeView, n: NodeState) {
    && n.online && n.expectedSeq == e.seqNo && n.bdSeq == Some(e.bdSeq)
    && Understands(Wire(cfg, e), n.aliases, NodeMetrics(e, src))
    && Distinct(e.born)
    && (forall d :: n.DeviceOnline(d) <==> d in e.born)
    && (forall d <- e.born ::
          ValidId(d) && d in cfg.devices && Understands(Wire(cfg, e), n.devices[d].aliases, src.device(d)))
  }

  // ---- Births on the wire ----

  /** The same but for alias and timestamp. */
  predicate Alike(a: seq<Metric>, b: seq<Metric>) {
    |a| == |b| && forall i :: 0 <= i < |a| ==> b[i] == a[i].(alias := b[i].alias, timestamp := b[i].timestamp)
  }

  lemma AlikeFits(a: seq<Metric>, b: seq<Metric>)
    requires Alike(a, b) && Fits(a)
    ensures Fits(b)
  {
    forall m | m in b ensures WfMetric(m) && NeedMetric(m) <= MAX_DEPTH {
      var i :| 0 <= i < |b| && b[i] == m;
      assert a[i] in a;
      SameNeed(a[i], m);
    }
  }

  lemma SameNeed(a: Metric, b: Metric)
    requires a.value == b.value && a.properties == b.properties
    ensures WfMetric(a) <==> WfMetric(b)
    ensures NeedMetric(a) == NeedMetric(b)
  {
  }

  lemma BirthArrives(p: Payload)
    requires Fits(p.metrics) && |EncodePayload(p, false)| < TWO64
    ensures DecodePayload(EncodePayload(p, false), None) == Ok(p)
  {
    hide Decode.DecodePayload, Encode.EncodePayload, Model.WfMetric, Model.NeedMetric;
    BirthRoundTrip(p, None);
  }

  // ---- The bdSeq a birth carries ----

  lemma {:induction false} BdSeqAlike(a: seq<Metric>, b: seq<Metric>)
    requires Alike(a, b)
    ensures BdSeqOf(a) == BdSeqOf(b)
    decreases |a|
  {
    if a != [] {
      assert b[0] == a[0].(alias := b[0].alias, timestamp := b[0].timestamp);
      AlikeTail(a, b);
      BdSeqAlike(a[1..], b[1..]);
    }
  }

  lemma AlikeTail(a: seq<Metric>, b: seq<Metric>)
    requires Alike(a, b) && a != []
    ensures Alike(a[1..], b[1..])
  {
    forall i | 0 <= i < |a| - 1
      ensures b[1..][i] == a[1..][i].(alias := b[1..][i].alias, timestamp := b[1..][i].timestamp)
    {
      assert b[i + 1] == a[i + 1].(alias := b[i + 1].alias, timestamp := b[i + 1].timestamp);
    }
  }

  lemma {:induction false} BdSeqAppended(ms: seq<Metric>, last: Metric)
    ensures BdSeqOf(ms + [last]) ==
      if !Mentions(ms, BDSEQ) && last.name == Some(BDSEQ) then AsBdSeq(last.value) else BdSeqOf(ms)
  {
    if ms == [] {
      assert ms + [last] == [last];
    } else {
      assert ms[0] in ms && forall m <- ms[1..] :: m in ms;
      BdSeqAppended(ms[1..], last);
      assert (ms + [last])[1..] == ms[1..] + [last];
    }
  }

  /** A bdSeq metric of the source stands; without one the engine's is appended. */
  lemma ControlsCarryBdSeq(ms: seq<Metric>, bdSeq: byte)
    ensures BdSeqOf(WithControls(ms, bdSeq)) == if Mentions(ms, BDSEQ) then BdSeqOf(ms) else Some(bdSeq)
  {
    hide Base.ValidUtf8;
    var r := WithRebirth(ms);
    assert |REBIRTH| != |BDSEQ|;
    assert Mentions(r, BDSEQ) == Mentions(ms, BDSEQ) by { assert forall m <- ms :: m in r; }
    BdSeqAppended(ms, Control(REBIRTH, Boolean(false)));
    BdSeqAppended(r, Control(BDSEQ, Int64(bdSeq)));
  }

  lemma ControlsFit(ms: seq<Metric>, bdSeq: byte)
    requires Fits(ms) && AliasFree(ms)
    ensures Fits(WithControls(ms, bdSeq)) && AliasFree(WithControls(ms, bdSeq))
    ensures CountAliased(WithControls(ms, bdSeq)) == CountAliased(ms)
  {
    hide Fits, AliasFree, Mentions, Control, CountAliased, Base.ValidUtf8;
    ControlFits(REBIRTH, Boolean(false));
    ControlFits(BDSEQ, Int64(bdSeq));
    Extended(ms, Control(REBIRTH, Boolean(false)));
    Extended(WithRebirth(ms), Control(BDSEQ, Int64(bdSeq)));
  }

  lemma ControlFits(name: Str, value: Scalar)
    requires name == REBIRTH || name == BDSEQ
    ensures var m := Control(name, value); WfMetric(m) && NeedMetric(m) <= MAX_DEPTH && m.alias.None? && !Aliased(m)
  {
    hide Base.ValidUtf8;
  }

  lemma Extended(ms: seq<Metric>, last: Metric)
    requires Fits(ms) && AliasFree(ms)
    requires WfMetric(last) && NeedMetric(last) <= MAX_DEPTH && last.alias.None? && !Aliased(last)
    ensures Fits(ms + [last]) && AliasFree(ms + [last]) && CountAliased(ms + [last]) == CountAliased(ms)
  {
    hide Model.WfMetric, Model.NeedMetric, Aliased, CountAliased;
    CountAppend(ms, last);
  }

  lemma {:induction false} CountAppend(ms: seq<Metric>, last: Metric)
    ensures CountAliased(ms + [last]) == CountAliased(ms) + (if Aliased(last) then 1 else 0)
  {
    hide Aliased;
    if ms == [] {
      assert ms + [last] == [last] && [last][1..] == [];
    } else {
      CountAppend(ms[1..], last);
      assert (ms + [last])[1..] == ms[1..] + [last];
    }
  }

  // ---- Data on the wire ----

  /** Nothing of the metric changes but that it may get an alias, and the time `ts` when it had none. */
  predicate Reported(m: Metric, got: Metric, ts: u64) {
    got == m.(alias := got.alias, timestamp := if m.timestamp.Some? then m.timestamp else Some(ts))
  }

  /** The metrics arrive with their names, values and stamped timestamps; only an alias may be added. */
  predicate Carries(ms: seq<Metric>, got: seq<Metric>, ts: u64) {
    |ms| == |got| && forall i :: 0 <= i < |ms| ==> Reported(ms[i], got[i], ts)
  }

  lemma MetricArrives(wire: Registry, host: Registry, m: Metric, ts: u64)
    requires m.name.Some? && Resolves(wire, host, m.name.value, m.value.Type())
    ensures var w := Stamped(Shortened(wire, m), ts);
      && Recover(Some(host), w.name, w.alias) == Some(m.value.Type())
      && w.value == m.value && w.properties == m.properties
      && Reported(m, Resolve(host, w), ts)
  {
    hide MetricValue.Type;
  }

  lemma DataArrives(wire: Registry, host: Registry, decl: seq<Metric>, ms: seq<Metric>, seqNo: byte, ts: u64)
    requires Understands(wire, host, decl) && (forall m <- ms :: Declared(decl, m))
    requires |EncodePayload(Sequenced(Stamp(Shorten(wire, ms), ts), seqNo, ts), true)| < TWO64
    ensures var p := Sequenced(Stamp(Shorten(wire, ms), ts), seqNo, ts);
      && DecodePayload(EncodePayload(p, true), Some(host)) == Ok(p)
      && Carries(ms, ResolveNames(host, p.metrics), ts)
  {
    hide Decode.DecodePayload, Encode.EncodePayload, Model.WfMetric, Model.NeedMetric, MetricValue.Type, TypeOf;
    hide Resolves, Recover, Reported, Host.Resolve;
    var p := Sequenced(Stamp(Shorten(wire, ms), ts), seqNo, ts);
    forall i | 0 <= i < |ms|
      ensures Recoverable(p.metrics[i], Some(host)) && WfMetric(p.metrics[i]) && NeedMetric(p.metrics[i]) <= MAX_DEPTH
      ensures Reported(ms[i], Resolve(host, p.metrics[i]), ts)
    {
      assert ms[i] in ms;
      MetricArrives(wire, host, ms[i], ts);
      SameNeed(ms[i], p.metrics[i]);
    }
    assert forall m <- p.metrics :: exists i :: 0 <= i < |ms| && p.metrics[i] == m;
    DecodeOfEncode(p, true, Some(host));
  }

  lemma PlainToData(cfg: EdgeConfig, e: EdgeView, ms: seq<Metric>)
    ensures ToData(cfg, e.aliases, ms) == Shorten(Wire(cfg, e), ms)
  {
    var out := Shorten(EMPTY, ms);
    assert forall i :: 0 <= i < |ms| ==> out[i] == ms[i];
  }

  // ---- Steps of a host that is in step ----

  function Peer(cfg: EdgeConfig): NodeId { NodeId(cfg.group, cfg.edge) }

  lemma BornMetrics(cfg: EdgeConfig, e: EdgeView, src: Source, ts: u64)
    requires GoodSource(cfg, src)
    ensures var a := NodeBirthMetrics(cfg, e, src);
      var sent := Stamp(a.metrics, ts);
      && Fits(sent) && BdSeqOf(sent) == Some(e.bdSeq) && !BindBirth(EMPTY, sent).duplicate
      && Understands(if cfg.useAliases then a.aliases else EMPTY, BindBirth(EMPTY, sent).registry, NodeMetrics(e, src))
      && (cfg.useAliases ==>
          a.next == CountAliased(src.node) && a.aliases.AliasForName(REBIRTH).None?
            && a.aliases.AliasForName(BDSEQ).None?)
  {
    hide Births.BindBirth, AssignAll, Fits, WithControls, TypeOf, Resolves, Base.ValidUtf8, CountAliased, Restamped;
    hide Host.BdSeqOf, AliasFree;
    hide Mentions, Apart, CountDevices, Stamp;
    var ms := NodeMetrics(e, src);
    ControlsFit(src.node, e.bdSeq);
    ControlsCarryBdSeq(src.node, e.bdSeq);
    BirthUnderstood(cfg, EMPTY, 0, ms, ts);
  }

  /** A birth list, aliased when aliases are in use and stamped, is carried, bound without clash and understood. */
  lemma BirthUnderstood(cfg: EdgeConfig, r: Registry, next: u64, ms: seq<Metric>, ts: u64)
    requires Fits(ms) && AliasFree(ms)
    requires cfg.useAliases ==> next + CountAliased(ms) < TWO64
    requires cfg.useAliases ==> r.AliasForName(REBIRTH).None? && r.AliasForName(BDSEQ).None?
    ensures var a := Assign(cfg, r, next, ms);
      var sent := Stamp(a.metrics, ts);
      && Fits(sent) && BdSeqOf(sent) == BdSeqOf(ms) && !BindBirth(EMPTY, sent).duplicate
      && Understands(if cfg.useAliases then a.aliases else EMPTY, BindBirth(EMPTY, sent).registry, ms)
      && (cfg.useAliases ==>
          a.next == next + CountAliased(ms) && a.aliases.AliasForName(REBIRTH).None?
            && a.aliases.AliasForName(BDSEQ).None?)
  {
    hide Births.BindBirth, AssignAll, Fits, TypeOf, Resolves, Base.ValidUtf8, CountAliased, Restamped, Host.BdSeqOf;
    hide AliasFree, Stamp, Aliased, Alike;
    var a := Assign(cfg, r, next, ms);
    var sent := Stamp(a.metrics, ts);
    BirthAlike(cfg, r, next, ms, ts);
    AlikeFits(ms, sent);
    BdSeqAlike(ms, sent);
    StampRestamps(a.metrics, ts);
    BirthUnclashed(cfg, r, next, ms, ts);
    forall name | TypeOf(ms, name).Some?
      ensures Resolves(if cfg.useAliases then a.aliases else EMPTY, BindBirth(EMPTY, sent).registry, name,
                       TypeOf(ms, name).value)
    {
      if cfg.useAliases { BirthResolves(r, next, ms, sent, name); } else { PlainBirthResolves(ms, sent, name); }
    }
    if cfg.useAliases {
      AliasesInOrder(r, next, ms);
      ControlsKeepNames(r, next, ms, REBIRTH);
      ControlsKeepNames(r, next, ms, BDSEQ);
    }
  }

  lemma BirthAlike(cfg: EdgeConfig, r: Registry, next: u64, ms: seq<Metric>, ts: u64)
    ensures Alike(ms, Stamp(Assign(cfg, r, next, ms).metrics, ts))
  {
    hide AssignAll, Aliased, Base.ValidUtf8, Stamp;
    OnlyAliasesAdded(r, next, ms);
    StampOfAlike(ms, Assign(cfg, r, next, ms).metrics, ts);
  }

  lemma StampOfAlike(a: seq<Metric>, b: seq<Metric>, ts: u64)
    requires |a| == |b| && forall i :: 0 <= i < |a| ==> b[i] == a[i].(alias := b[i].alias)
    ensures Alike(a, Stamp(b, ts))
  {
    var c := Stamp(b, ts);
    forall i | 0 <= i < |a| ensures c[i] == a[i].(alias := c[i].alias, timestamp := c[i].timestamp) {
      assert c[i] == Stamped(b[i], ts);
    }
  }

  lemma BirthUnclashed(cfg: EdgeConfig, r: Registry, next: u64, ms: seq<Metric>, ts: u64)
    requires AliasFree(ms) && (cfg.useAliases ==> next + CountAliased(ms) < TWO64)
    ensures !BindBirth(EMPTY, Stamp(Assign(cfg, r, next, ms).metrics, ts)).duplicate
  {
    hide Births.BindBirth, AssignAll, CountAliased, Births.Clash, Restamped, Stamp, AliasFree;
    var a := Assign(cfg, r, next, ms);
    if cfg.useAliases { AllocationNeverClashes(r, next, ms); } else { FreeNeverClashes(ms); }
    StampRestamps(a.metrics, ts);
    RestampedClash(a.metrics, Stamp(a.metrics, ts));
    BirthFolding(Stamp(a.metrics, ts));
  }

  /** The NBIRTH brings any host state in step. */
  lemma NodeBirthJoins(cfg: EdgeConfig, e: EdgeView, src: Source, ts: u64, was: Option<NodeState>, debounce: nat,
                       tick: Tick)
    requires GoodSource(cfg, src) && |NodeBirthMessage(cfg, e, src, ts).message.payload| < TWO64
    ensures var metrics := Stamp(NodeBirthMetrics(cfg, e, src).metrics, ts);
      var o := NodeStep(debounce, Peer(cfg), was,
                        NodeMessage(NBirth, "", NodeBirthMessage(cfg, e, src, ts).message.payload), tick);
      && o.node.Some? && o.event == Ok(NodeBirth(cfg.group, cfg.edge, metrics)) && o.sent == []
      && Joined(cfg, src, NodeBorn(cfg, e, src), o.node.value)
  {
    hide Decode.DecodePayload, Encode.EncodePayload, Births.BindBirth, Fits, WithControls, Host.BdSeqOf;
    hide Understands, Stamp;
    hide GoodSource, NodeBirthMetrics, Host.Rebirth, CountAliased;
    BornMetrics(cfg, e, src, ts);
    BirthArrives(Sequenced(Stamp(NodeBirthMetrics(cfg, e, src).metrics, ts), 0, ts));
  }

  // ---- Device births ----

  lemma {:induction false} TypedMentioned(ms: seq<Metric>, name: Str)
    requires TypeOf(ms, name).Some?
    ensures exists m :: m in ms && m.name == Some(name)
  {
    assert ms[0] in ms;
    if ms[0].name != Some(name) {
      TypedMentioned(ms[1..], name);
      var m :| m in ms[1..] && m.name == Some(name);
      assert m in ms;
    }
  }

  lemma ControlsApart(ms: seq<Metric>, bdSeq: byte, other: seq<Metric>)
    requires Apart(ms, other)
    ensures Apart(WithControls(ms, bdSeq), other)
  {
    hide Base.ValidUtf8, Takes;
    ControlFits(REBIRTH, Boolean(false));
    ControlFits(BDSEQ, Int64(bdSeq));
  }

  /** A birth with other names leaves what was understood understood. */
  lemma StillUnderstood(cfg: EdgeConfig, e: EdgeView, ms: seq<Metric>, host: Registry, decl: seq<Metric>)
    requires Understands(Wire(cfg, e), host, decl) && (cfg.useAliases ==> Apart(decl, ms))
    ensures Understands(if cfg.useAliases then Assign(cfg, e.aliases, e.nextAlias, ms).aliases else EMPTY, host, decl)
  {
    hide AssignAll, TypeOf, Base.ValidUtf8;
    if cfg.useAliases {
      forall name | TypeOf(decl, name).Some?
        ensures Resolves(AssignAll(e.aliases, e.nextAlias, ms).aliases, host, name, TypeOf(decl, name).value)
      {
        TypedMentioned(decl, name);
        var m :| m in decl && m.name == Some(name);
        assert !Takes(ms, name);
        OtherNamesKept(e.aliases, e.nextAlias, ms, name);
      }
    }
  }

  /** The edge has aliases for ordinary names only, and enough left for the devices still to be born. */
  predicate Room(cfg: EdgeConfig, src: Source, e: EdgeView, devices: seq<Id>) {
    cfg.useAliases ==>
      && e.aliases.AliasForName(REBIRTH).None? && e.aliases.AliasForName(BDSEQ).None?
      && e.nextAlias + CountDevices(src, devices) < TWO64
  }

  predicate RoomFor(cfg: EdgeConfig, src: Source, e: EdgeView, device: Id) {
    cfg.useAliases ==>
      && e.aliases.AliasForName(REBIRTH).None? && e.aliases.AliasForName(BDSEQ).None?
      && e.nextAlias + CountAliased(src.device(device)) < TWO64
  }

  /** What the DBIRTH turns the edge into, once sent. */
  function DeviceBorn(cfg: EdgeConfig, e: EdgeView, src: Source, device: Id): EdgeView {
    DeviceAssigned(cfg, e, src, device).(born := e.born + [device])
  }

  lemma RoomKept(cfg: EdgeConfig, src: Source, e: EdgeView, devices: seq<Id>)
    requires devices != [] && Room(cfg, src, e, devices) && AliasFree(src.device(devices[0]))
    ensures RoomFor(cfg, src, e, devices[0]) && Room(cfg, src, DeviceBorn(cfg, e, src, devices[0]), devices[1..])
  {
    hide AssignAll, CountAliased, AliasFree, Base.ValidUtf8;
    var ms := src.device(devices[0]);
    if cfg.useAliases {
      AliasesInOrder(e.aliases, e.nextAlias, ms);
      ControlsKeepNames(e.aliases, e.nextAlias, ms, REBIRTH);
      ControlsKeepNames(e.aliases, e.nextAlias, ms, BDSEQ);
    }
  }

  lemma DevicesStay(cfg: EdgeConfig, src: Source, e: EdgeView, n: NodeState, device: Id)
    requires GoodSource(cfg, src) && device in cfg.devices && device !in e.born && Joined(cfg, src, e, n)
    ensures var wire := Wire(cfg, DeviceBorn(cfg, e, src, device));
      && Understands(wire, n.aliases, NodeMetrics(e, src))
      && forall d <- e.born :: Understands(wire, n.devices[d].aliases, src.device(d))
  {
    hide AssignAll, TypeOf, Base.ValidUtf8, Understands, WithControls, Takes, Fits, AliasFree, CountAliased;
    hide CountDevices, Apart, Mentions;
    var ms := src.device(device);
    if cfg.useAliases { ControlsApart(src.node, e.bdSeq, ms); }
    StillUnderstood(cfg, e, ms, n.aliases, NodeMetrics(e, src));
    forall d | d in e.born
      ensures Understands(Wire(cfg, DeviceBorn(cfg, e, src, device)), n.devices[d].aliases, src.device(d))
    {
      StillUnderstood(cfg, e, ms, n.devices[d].aliases, src.device(d));
    }
  }

  /** A DBIRTH keeps a host in step, and adds the device. */
  lemma DeviceBirthJoins(cfg: EdgeConfig, e: EdgeView, src: Source, device: Id, ts: u64, n: NodeState, debounce: nat,
                         tick: Tick)
    requires GoodSource(cfg, src) && device in cfg.devices && device !in e.born && Joined(cfg, src, e, n)
    requires RoomFor(cfg, src, e, device)
    requires |DeviceBirthMessage(cfg, e, src, device, ts).message.payload| < TWO64
    ensures var metrics := Stamp(Assign(cfg, e.aliases, e.nextAlias, src.device(device)).metrics, ts);
      var m := NodeMessage(DBirth, device, DeviceBirthMessage(cfg, e, src, device, ts).message.payload);
      var o := NodeStep(debounce, Peer(cfg), Some(n), m, tick);
      && o.node.Some? && o.event == Ok(DeviceBirth(cfg.group, cfg.edge, device, metrics)) && o.sent == []
      && Joined(cfg, src, DeviceBorn(cfg, e, src, device), o.node.value)
  {
    hide Decode.DecodePayload, Encode.EncodePayload, Births.BindBirth, Fits, AliasFree, WithControls, Host.BdSeqOf;
    hide Understands, Stamp;
    hide Assign, Host.Rebirth, CountAliased, CountDevices, Apart, Mentions, Base.ValidUtf8;
    var a := Assign(cfg, e.aliases, e.nextAlias, src.device(device));
    BirthUnderstood(cfg, e.aliases, e.nextAlias, src.device(device), ts);
    BirthArrives(Sequenced(Stamp(a.metrics, ts), e.seqNo, ts));
    DevicesStay(cfg, src, e, n, device);
  }

  // ---- Data and deaths ----

  predicate AllDeclared(decl: seq<Metric>, ms: seq<Metric>) { forall m <- ms :: Declared(decl, m) }

  function DataPayload(cfg: EdgeConfig, e: EdgeView, ms: seq<Metric>, ts: u64): Payload {
    Sequenced(Stamp(ToData(cfg, e.aliases, ms), ts), e.seqNo, ts)
  }

  lemma NodeDataJoins(cfg: EdgeConfig, e: EdgeView, src: Source, ms: seq<Metric>, ts: u64, n: NodeState, debounce: nat,
                      tick: Tick)
    requires Joined(cfg, src, e, n) && AllDeclared(NodeMetrics(e, src), ms)
    requires |EncodePayload(DataPayload(cfg, e, ms, ts), true)| < TWO64
    ensures var o := NodeStep(debounce, Peer(cfg), Some(n),
                              NodeMessage(NData, "", EncodePayload(DataPayload(cfg, e, ms, ts), true)), tick);
      && o.node.Some? && o.sent == [] && Joined(cfg, src, e.(seqNo := Next(e.seqNo)), o.node.value)
      && o.event.Ok? && o.event.value.NodeData? && o.event.value.group == cfg.group && o.event.value.edge == cfg.edge
      && Carries(ms, o.event.value.metrics, ts)
  {
    hide Decode.DecodePayload, Encode.EncodePayload, Understands, Stamp, Host.Rebirth, Carries, Host.ResolveNames;
    hide Declared, Edge.Shorten, WithControls, Base.ValidUtf8, ToData;
    PlainToData(cfg, e, ms);
    DataArrives(Wire(cfg, e), n.aliases, NodeMetrics(e, src), ms, e.seqNo, ts);
  }

  lemma DeviceDataJoins(cfg: EdgeConfig, e: EdgeView, src: Source, device: string, ms: seq<Metric>, ts: u64,
                        n: NodeState, debounce: nat, tick: Tick)
    requires Joined(cfg, src, e, n) && device in e.born && AllDeclared(src.device(device), ms)
    requires |EncodePayload(DataPayload(cfg, e, ms, ts), true)| < TWO64
    ensures var o := NodeStep(debounce, Peer(cfg), Some(n),
                              NodeMessage(DData, device, EncodePayload(DataPayload(cfg, e, ms, ts), true)), tick);
      && o.node.Some? && o.sent == [] && Joined(cfg, src, e.(seqNo := Next(e.seqNo)), o.node.value)
      && o.event.Ok? && o.event.value.DeviceData? && o.event.value.group == cfg.group && o.event.value.edge == cfg.edge
      && o.event.value.device == device && Carries(ms, o.event.value.metrics, ts)
  {
    hide Decode.DecodePayload, Encode.EncodePayload, Understands, Stamp, Host.Rebirth, Carries, Host.ResolveNames;
    hide Declared, Edge.Shorten, WithControls, Base.ValidUtf8, ToData;
    PlainToData(cfg, e, ms);
    DataArrives(Wire(cfg, e), n.devices[device].aliases, src.device(device), ms, e.seqNo, ts);
  }

  lemma WithoutOne(born: seq<string>, device: string)
    requires Distinct(born) && device in born
    ensures Distinct(Without(born, device))
    ensures forall d :: d in Without(born, device) <==> d in born && d != device
  {
    hide PositionOf;
    var i := PositionOf(born, device);
    RemovedAt(born, i);
  }

  lemma RemovedAt(born: seq<string>, i: nat)
    requires Distinct(born) && i < |born|
    ensures Distinct(born[..i] + born[i + 1..])
    ensures forall d :: d in born[..i] + born[i + 1..] <==> d in born && d != born[i]
  {
    var rest := born[..i] + born[i + 1..];
    assert forall k :: 0 <= k < |rest| ==> rest[k] == born[if k < i then k else k + 1];
    forall d | d in born && d != born[i] ensures d in rest {
      var k :| 0 <= k < |born| && born[k] == d;
      assert rest[if k < i then k else k - 1] == d;
    }
    forall d | d in rest ensures d in born && d != born[i] {
      var k :| 0 <= k < |rest| && rest[k] == d;
      assert born[if k < i then k else k + 1] == d;
    }
  }

  lemma EmptyFits()
    ensures Fits([])
  {
  }

  lemma DeviceDeathJoins(cfg: EdgeConfig, e: EdgeView, src: Source, device: string, ts: u64, n: NodeState,
                         debounce: nat, tick: Tick)
    requires Joined(cfg, src, e, n) && device in e.born
    ensures var o := NodeStep(debounce, Peer(cfg), Some(n),
                              NodeMessage(DDeath, device, EncodePayload(Sequenced([], e.seqNo, ts), false)), tick);
      && o.node.Some? && o.sent == []
      && Joined(cfg, src, e.(seqNo := Next(e.seqNo), born := Without(e.born, device)), o.node.value)
      && o.event == Ok(DeviceDeath(cfg.group, cfg.edge, device, DeathTime(Some(ts), tick.wall)))
  {
    hide Decode.DecodePayload, Encode.EncodePayload, Understands, Host.Rebirth, WithControls, Base.ValidUtf8;
    hide Without, Distinct;
    EmptyFits();
    PlainPayload(Sequenced([], e.seqNo, ts), false);
    BirthArrives(Sequenced([], e.seqNo, ts));
    WithoutOne(e.born, device);
  }

  lemma DeathArrives(bdSeq: byte, ts: u64)
    ensures DecodePayload(EncodePayload(DeathPayload(bdSeq, ts), false), None) == Ok(DeathPayload(bdSeq, ts))
    ensures BdSeqOf(DeathPayload(bdSeq, ts).metrics) == Some(bdSeq)
  {
    hide Decode.DecodePayload, Encode.EncodePayload, Base.ValidUtf8;
    PlainPayload(DeathPayload(bdSeq, ts), false);
    BirthArrives(DeathPayload(bdSeq, ts));
  }

  /**
   An edge's NDEATH at any host state: it ends an online session of the same bdSeq, listing its online
   devices, and leaves every other state alone.
   */
  lemma DeathHeard(cfg: EdgeConfig, bdSeq: byte, ts: u64, node: Option<NodeState>, debounce: nat, tick: Tick)
    ensures var o := NodeStep(debounce, Peer(cfg), node,
                              NodeMessage(NDeath, "", EncodePayload(DeathPayload(bdSeq, ts), false)), tick);
      && o.sent == []
      && (if Live(node) && node.value.bdSeq == Some(bdSeq) then
            && o.event ==
                Ok(NodeDeath(cfg.group, cfg.edge, DeathTime(Some(ts), tick.wall),
                             Names.Listing(node.value.OnlineDevices())))
            && o.node == Some(Offline(node.value))
          else o == Outcome(node, Ok(HostEvent.Ignored), []))
  {
    hide Decode.DecodePayload, Encode.EncodePayload, Base.ValidUtf8, Names.Listing, Host.BdSeqOf;
    DeathArrives(bdSeq, ts);
  }
}
