/**
 Each part of a host's node, and each report, across all its handlers: when it changes, and to what
 (src/host.rs:205-231, src/host.rs:426-748).
 */
module HostLaws {
  import opened Base
  import opened Model
  import opened Alias
  import opened Births
  import opened Decode
  import opened Topic
  import opened Messages
  import opened Host
  import opened HostRuns
  import Names
  import S = HostState

  // ---- Reading a payload ----

  /** The first metric named `bdSeq` counts, as a 64-bit integer, signed or unsigned, that fits a signed one. */
  lemma {:induction false} BdSeqMeaning(ms: seq<Metric>, i: nat)
    requires i < |ms| ==> ms[i].name == Some(BDSEQ)
    requires i <= |ms| && forall j :: 0 <= j < i ==> ms[j].name != Some(BDSEQ)
    ensures i == |ms| ==> BdSeqOf(ms) == None
    ensures i < |ms| ==>
      match ms[i].value {
        case Basic(Int64(v)) => BdSeqOf(ms) == Some(v)
        case Basic(UInt64(v)) => BdSeqOf(ms) == if v <= 0x7FFF_FFFF_FFFF_FFFF then Some(v) else None
        case _ => BdSeqOf(ms) == None
      }
    decreases |ms|
  {
    hide Base.ValidUtf8;
    if i > 0 { BdSeqMeaning(ms[1..], i - 1); }
  }

  /** A name is filled in where there is none and the alias is bound; nothing else changes. */
  predicate Named(r: Registry, ms: seq<Metric>, got: seq<Metric>) {
    |got| == |ms| && forall i :: 0 <= i < |ms| ==>
      got[i] == ms[i].(name :=
        if ms[i].name.Some? || ms[i].alias.None? then ms[i].name
        else if ms[i].alias.value in r.aliasToName then Some(r.aliasToName[ms[i].alias.value])
        else None)
  }

  /** The time of a death is that of its payload when it fits a signed number, else the wall clock. */
  predicate DiedAt(sent: Option<u64>, wall: i64, at: i64) {
    at == if sent.Some? && sent.value <= 0x7FFF_FFFF_FFFF_FFFF then sent.value else wall
  }

  function Payload(m: NodeMessage): Result<Model.Payload> {
    hide Decode.DecodePayload;
    DecodePayload(m.payload, None)
  }

  /** An NDEATH that decodes and carries the node's own bdSeq. */
  predicate OwnDeath(n: NodeState, m: NodeMessage) {
    hide Payload, Host.BdSeqOf;
    m.ty.NDeath? && Payload(m).Ok? && n.bdSeq.Some? && BdSeqOf(Payload(m).value.metrics) == n.bdSeq
  }

  // ---- The session ----

  /** What ends a session: an anomaly in it, a birth with clashing aliases in place of a clean one, or its NDEATH. */
  predicate Ends(n: NodeState, m: NodeMessage) {
    hide Payload, Passes;
    match m.ty
    case NBirth => Payload(m).Ok?
    case NDeath => OwnDeath(n, m)
    case NData => !Passes(Some(n), m)
    case DData => n.DeviceOnline(m.device) && !Passes(Some(n), m)
    case DBirth => Payload(m).Ok? && !Passes(Some(n), m)
    case DDeath => Payload(m).Ok? && !Passes(Some(n), m)
    case _ => false
  }

  /** A node is online afterwards exactly after a clean NBIRTH, or when it was and nothing ended its session. */
  lemma OnlineAfter(debounce: nat, id: NodeId, node: Option<NodeState>, m: NodeMessage, tick: Tick)
    ensures Live(NodeStep(debounce, id, node, m, tick).node) <==>
      CleanBirth(m) || (Live(node) && !Ends(node.value, m))
  {
    hide Decode.DecodePayload, Births.BindBirth, Births.Clash, Host.Rebirth, Host.BdSeqOf, Host.ResolveNames;
    hide Names.Listing;
    KeepsForAll(debounce, id);
    if Payload(m).Ok? { BirthFolding(Payload(m).value.metrics); }
  }

  /** Asking for a rebirth changes the debounce slot only. */
  lemma KeepsForAll(debounce: nat, id: NodeId)
    ensures forall node, tick :: var o := Rebirth(debounce, id, node, tick);
      o.node.Some? && o.node.value == OrNew(node).(lastRebirth := o.node.value.lastRebirth)
  {
    hide RebirthCommand;
  }

  /**
   While a node is online, a clean NBIRTH sets its numbers and aliases, a message that passes advances the expected
   number, and nothing else touches them.
   */
  lemma NumbersAfter(debounce: nat, id: NodeId, node: Option<NodeState>, m: NodeMessage, tick: Tick)
    requires Live(NodeStep(debounce, id, node, m, tick).node)
    ensures var n := NodeStep(debounce, id, node, m, tick).node.value;
      if CleanBirth(m) then
        var p := Payload(m).value;
        && n.expectedSeq == ((if p.seqNo.Some? then p.seqNo.value else 0) + 1) % 0x100
        && n.bdSeq == BdSeqOf(p.metrics) && n.aliases == BindBirth(EMPTY, p.metrics).registry
      else
        && Live(node) && n.bdSeq == node.value.bdSeq && n.aliases == node.value.aliases
        && n.expectedSeq == (node.value.expectedSeq + (if Passes(node, m) then 1 else 0)) % 0x100
  {
    hide Decode.DecodePayload, Births.BindBirth, Births.Clash, Host.Rebirth, Host.BdSeqOf, Host.ResolveNames;
    hide Names.Listing;
    KeepsForAll(debounce, id);
    if Payload(m).Ok? { BirthFolding(Payload(m).value.metrics); }
  }

  /**
   While a node is online, a device comes online exactly by a DBIRTH of its own that passes, with the aliases of that
   birth, and goes offline exactly by a DDEATH of its own that passes or with a new session.
   */
  lemma DevicesAfter(debounce: nat, id: NodeId, node: Option<NodeState>, m: NodeMessage, tick: Tick, device: string)
    requires Live(NodeStep(debounce, id, node, m, tick).node)
    ensures var n := NodeStep(debounce, id, node, m, tick).node.value;
      var own := Passes(node, m) && m.device == device;
      && (n.DeviceOnline(device) <==>
           && !CleanBirth(m)
           && ((own && m.ty.DBirth?)
               || (Live(node) && node.value.DeviceOnline(device) && !(own && m.ty.DDeath?))))
      && (n.DeviceOnline(device) && own && m.ty.DBirth? ==>
           n.devices[device].aliases == BindBirth(EMPTY, Payload(m).value.metrics).registry)
      && (n.DeviceOnline(device) && !(own && m.ty.DBirth?) ==>
           node.value.DeviceOnline(device) && n.devices[device].aliases == node.value.devices[device].aliases)
  {
    hide Decode.DecodePayload, Births.BindBirth, Births.Clash, Host.Rebirth, Host.BdSeqOf, Host.ResolveNames;
    hide Names.Listing;
    KeepsForAll(debounce, id);
    if Payload(m).Ok? { BirthFolding(Payload(m).value.metrics); }
  }

  // ---- Reports ----

  /** The payload of a message that passes, as its registry reads it. */
  function PassedPayload(node: Option<NodeState>, m: NodeMessage): Model.Payload
    requires Passes(node, m)
  {
    hide Decode.DecodePayload;
    DecodePayload(m.payload, RegistryFor(node.value, m)).value
  }

  /** A payload that cannot be read where it must be: any NBIRTH or NDEATH, and in a session a DBIRTH or DDEATH. */
  predicate Unreadable(node: Option<NodeState>, m: NodeMessage) {
    hide Payload;
    Payload(m).Err? && (m.ty.NBirth? || m.ty.NDeath? || (Live(node) && (m.ty.DBirth? || m.ty.DDeath?)))
  }

  /** A message that passes is reported: births with their metrics, data with names filled in, deaths with a time. */
  lemma PassedReport(debounce: nat, id: NodeId, node: Option<NodeState>, m: NodeMessage, tick: Tick)
    requires Passes(node, m) && (m.ty.DBirth? ==> !Clash(Payload(m).value.metrics))
    ensures var e, p := NodeStep(debounce, id, node, m, tick).event, PassedPayload(node, m);
      && e.Ok?
      && match m.ty {
           case NData =>
             && e.value == NodeData(id.group, id.edge, e.value.metrics)
             && Named(node.value.aliases, p.metrics, e.value.metrics)
           case DBirth => e.value == DeviceBirth(id.group, id.edge, m.device, p.metrics)
           case DData =>
             && e.value == DeviceData(id.group, id.edge, m.device, e.value.metrics)
             && Named(node.value.devices[m.device].aliases, p.metrics, e.value.metrics)
           case DDeath =>
             && e.value == DeviceDeath(id.group, id.edge, m.device, e.value.timestamp)
             && DiedAt(p.timestamp, tick.wall, e.value.timestamp)
           case _ => false
         }
  {
    hide Decode.DecodePayload, Births.BindBirth, Births.Clash, Host.Rebirth, Host.BdSeqOf, Named;
    hide Names.Listing;
    if Payload(m).Ok? { BirthFolding(Payload(m).value.metrics); }
    NamesFilled(node.value.aliases, PassedPayload(node, m).metrics);
    if m.ty.DData? { NamesFilled(node.value.devices[m.device].aliases, PassedPayload(node, m).metrics); }
  }

  lemma NamesFilled(r: Registry, ms: seq<Metric>)
    ensures Named(r, ms, ResolveNames(r, ms))
  {
    var got := ResolveNames(r, ms);
    assert forall i :: 0 <= i < |ms| ==> got[i] == Resolve(r, ms[i]);
  }

  /**
   Node births and deaths: a clean NBIRTH is reported with its metrics; an NDEATH of the session with its time and
   the sorted online devices. A payload that cannot be read where it must be is an error and changes nothing. So do
   a foreign NDEATH and any message of a type that hosts do not take.
   */
  lemma NodeReport(debounce: nat, id: NodeId, node: Option<NodeState>, m: NodeMessage, tick: Tick)
    ensures var o := NodeStep(debounce, id, node, m, tick);
      && (CleanBirth(m) ==> o.event == Ok(NodeBirth(id.group, id.edge, Payload(m).value.metrics)))
      && (Live(node) && OwnDeath(node.value, m) ==>
           && o.event.Ok? && o.event.value.NodeDeath?
           && o.event.value == NodeDeath(id.group, id.edge, o.event.value.timestamp, o.event.value.devices)
           && DiedAt(Payload(m).value.timestamp, tick.wall, o.event.value.timestamp)
           && Names.Lists(o.event.value.devices, OnlineOf(node.value.devices)))
      && (Unreadable(node, m) ==> o == Outcome(node, Err(Payload(m).error), []))
      && (m.ty.NDeath? && Payload(m).Ok? && !(Live(node) && OwnDeath(node.value, m)) ==>
           o == Outcome(node, Ok(Ignored), []))
      && (m.ty.NCmd? || m.ty.DCmd? || m.ty.State? ==> o == Outcome(node, Ok(Ignored), []))
  {
    hide Decode.DecodePayload, Births.BindBirth, Births.Clash, Host.Rebirth, Host.BdSeqOf, Host.ResolveNames;
    hide Names.Listing;
    if Payload(m).Ok? { BirthFolding(Payload(m).value.metrics); }
  }

  // ---- The host's own STATE ----

  /**
   A STATE topic changes no node. For the host's own name, a payload that says offline is answered with the retained
   online STATE of the host's own timestamp; nothing else is ever sent, and a payload that cannot be read is an error.
   */
  lemma OwnState(h: Engine, hostId: string, payload: bytes, tick: Tick)
    requires ValidId(hostId)
    ensures var o, read := HostStep(h, Message("spBv1.0/STATE/" + hostId, payload), tick), ReadState(payload);
      && o.host == h
      && (if hostId != h.hostId then o.sent == [] && o.event == Ok(HostEvent.Ignored)
          else if read.Err? then o.sent == [] && o.event == Err(read.error)
          else if read.value.online then o.sent == [] && o.event == Ok(HostEvent.Ignored)
          else if !tick.sendOk then o.sent == [] && o.event == Err(Transport)
          else
            && o.event == Ok(HostEvent.Ignored) && |o.sent| == 1
            && o.sent[0].message.topic == "spBv1.0/STATE/" + hostId
            && ReadState(o.sent[0].message.payload) == Ok(S.StatePayload(true, h.stateTs))
            && o.sent[0].qos == AtLeastOnce && o.sent[0].retain)
  {
    hide Topic.Parse, S.ParseState, S.ToJson, Names.AsciiBytes, Names.Utf8Chars, Base.ValidUtf8;
    assert Topic.SparkplugTopic.HostState(hostId).Show() == "spBv1.0/STATE/" + hostId;
    ShownParses(Topic.SparkplugTopic.HostState(hostId));
    StateMessageReadsBack(h.hostId, S.StatePayload(true, h.stateTs));
  }

  /** A topic that cannot be read is an error and changes nothing. */
  lemma ForeignTopic(h: Engine, m: Message, tick: Tick)
    requires Parse(m.topic).Err?
    ensures HostStep(h, m, tick) == HostOutcome(h, Err(Parse(m.topic).error), [])
  {
    hide Topic.Parse;
  }
}
