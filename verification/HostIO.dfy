/** The Host Application engine in its own form: handlers that update `nodes` (src/host.rs:237-748). */
module HostIO {
  import opened Base
  import opened Model
  import opened Alias
  import opened Births
  import opened Topic
  import opened Names
  import opened Messages
  import opened Sequence
  import opened Host
  import Encode
  import Decode
  import EncodeIO
  import DecodeIO
  import S = HostState

  /** Names filled in place, metric by metric. */
  method FillNames(r: Registry, ms: seq<Metric>) returns (out: seq<Metric>)
    ensures out == ResolveNames(r, ms)
  {
    out := ms;
    for i := 0 to |ms|
      invariant |out| == |ms|
      invariant forall k :: 0 <= k < i ==> out[k] == Resolve(r, ms[k])
      invariant forall k :: i <= k < |ms| ==> out[k] == ms[k]
    {
      var m := out[i];
      if m.name.None? && m.alias.Some? {
        var name := r.NameForAlias(m.alias.value);
        if name.Some? { out := out[i := m.(name := name)]; }
      }
    }
  }

  /** The first metric with that name decides. */
  method FindBdSeq(ms: seq<Metric>) returns (r: Option<i64>)
    ensures r == BdSeqOf(ms)
  {
    assert ms[0..] == ms;
    for i := 0 to |ms|
      invariant BdSeqOf(ms) == BdSeqOf(ms[i..])
    {
      if ms[i].name == Some(BDSEQ) { return AsBdSeq(ms[i].value); }
      assert ms[i..][1..] == ms[i + 1..];
    }
    r := None;
  }

  class HostApplication {
    const hostId: string
    const debounce: nat
    var nodes: map<string, NodeState>
    var stateTs: i64
    /** Everything the transport has taken. */
    var sent: seq<Outbound>

    constructor (hostId: string, debounce: nat)
      ensures View() == Engine(hostId, debounce, 0, map[]) && sent == []
    {
      this.hostId, this.debounce, this.nodes, this.stateTs, this.sent := hostId, debounce, map[], 0, [];
    }

    function View(): Engine
      reads this
    {
      Engine(hostId, debounce, stateTs, nodes)
    }

    /** The state of one node, the log and the event are what the step computes; nothing else changed. */
    ghost predicate Did(before: Engine, log: seq<Outbound>, id: NodeId, o: Outcome, event: Result<HostEvent>)
      reads this
    {
      View() == before.Store(Key(id), o.node) && event == o.event && sent == log + o.sent
    }

    method Publish(m: Outbound, tick: Tick) returns (ok: bool)
      modifies this`sent
      ensures ok == tick.sendOk && sent == if ok then old(sent) + [m] else old(sent)
    {
      ok := tick.sendOk;
      if ok { sent := sent + [m]; }
    }

    method Entry(id: NodeId) returns (n: NodeState)
      ensures n == OrNew(View().Lookup(Key(id)))
    {
      n := if Key(id) in nodes then nodes[Key(id)] else NEW_NODE;
    }

    method SendRebirth(id: NodeId, tick: Tick) returns (ok: bool)
      modifies this`sent
      ensures ok == tick.sendOk && sent == if ok then old(sent) + [RebirthCommand(id, tick.wall)] else old(sent)
    {
      hide Encode.EncodePayload;
      var payload := EncodeIO.EncodePayload(RebirthPayload(tick.wall), false);
      ok := Publish(Outbound(Message(Node(id.group, id.edge, NCmd).Show(), payload), AtMostOnce, false), tick);
    }

    method Rebirth(id: NodeId, tick: Tick) returns (event: Result<HostEvent>)
      modifies this`nodes, this`sent
      ensures Did(old(View()), old(sent), id, Host.Rebirth(debounce, id, old(View()).Lookup(Key(id)), tick), event)
    {
      hide RebirthCommand, Host.Key;
      var n := Entry(id);
      var allowed := SlotFree(n, debounce, tick.instant);
      nodes := nodes[Key(id) := if allowed then n.(lastRebirth := Some(tick.instant)) else n];
      if !allowed { return Ok(Ignored); }
      var ok := SendRebirth(id, tick);
      event := if ok then Ok(RebirthRequested(id.group, id.edge)) else Err(Transport);
    }

    /** The state a handler leaves before it asks for a rebirth. */
    method Fail(id: NodeId, n: NodeState, tick: Tick) returns (event: Result<HostEvent>)
      modifies this`nodes, this`sent
      ensures Did(old(View()), old(sent), id, Host.Rebirth(debounce, id, Some(n), tick), event)
    {
      hide Host.Rebirth, Host.Key;
      nodes := nodes[Key(id) := n];
      label stored:
      event := Rebirth(id, tick);
      RebirthKnows(debounce, id, Some(n), tick);
      var o := Host.Rebirth(debounce, id, Some(n), tick);
      assert old@stored(View()).Lookup(Key(id)) == Some(n);
      assert old@stored(View()).Store(Key(id), o.node) == old(View()).Store(Key(id), o.node) by {
        StoreTwice(old(View()), Key(id), n, o.node);
      }
    }

    method OnNodeBirth(id: NodeId, payload: bytes, tick: Tick) returns (event: Result<HostEvent>)
      modifies this`nodes, this`sent
      ensures Did(old(View()), old(sent), id,
                  Host.OnNodeBirth(debounce, id, old(View()).Lookup(Key(id)), payload, tick), event)
    {
      hide Decode.DecodePayload, Births.BindBirth, Host.Rebirth, Host.Key, Host.BdSeqOf;
      var decoded := DecodeIO.DecodePayload(payload, None);
      if decoded.Err? { return Err(decoded.error); }
      var p := decoded.value;
      var n := Entry(id);
      var bdSeq := FindBdSeq(p.metrics);
      var aliases := new AliasRegistry();
      var duplicate := BindAll(aliases, p.metrics);
      n := NodeState(!duplicate, bdSeq, Next(FirstSeq(p)), aliases.View(), map[], n.lastRebirth);
      if duplicate {
        event := Fail(id, n, tick);
      } else {
        nodes := nodes[Key(id) := n];
        event := Ok(NodeBirth(id.group, id.edge, p.metrics));
      }
    }

    method OnNodeData(id: NodeId, payload: bytes, tick: Tick) returns (event: Result<HostEvent>)
      modifies this`nodes, this`sent
      ensures Did(old(View()), old(sent), id,
                  Host.OnNodeData(debounce, id, old(View()).Lookup(Key(id)), payload, tick), event)
    {
      hide Decode.DecodePayload, Host.Rebirth, Host.Key, Host.ResolveNames;
      if Key(id) !in nodes || !nodes[Key(id)].online {
        event := Rebirth(id, tick);
        return;
      }
      var n := nodes[Key(id)];
      var decoded := DecodeIO.DecodePayload(payload, Some(n.aliases));
      if decoded.Err? || decoded.value.seqNo != Some(n.expectedSeq) {
        event := Fail(id, n.(online := false), tick);
        return;
      }
      nodes := nodes[Key(id) := n.(expectedSeq := Next(n.expectedSeq))];
      var metrics := FillNames(n.aliases, decoded.value.metrics);
      event := Ok(NodeData(id.group, id.edge, metrics));
    }

    method OnNodeDeath(id: NodeId, payload: bytes, tick: Tick) returns (event: Result<HostEvent>)
      modifies this`nodes
      ensures Did(old(View()), old(sent), id, Host.OnNodeDeath(id, old(View()).Lookup(Key(id)), payload, tick), event)
    {
      hide Decode.DecodePayload, Host.Key, Host.BdSeqOf, Names.Listing;
      var decoded := DecodeIO.DecodePayload(payload, None);
      if decoded.Err? { return Err(decoded.error); }
      var incoming := FindBdSeq(decoded.value.metrics);
      if Key(id) !in nodes { return Ok(Ignored); }
      var n := nodes[Key(id)];
      if !n.online || n.bdSeq.None? || n.bdSeq != incoming { return Ok(Ignored); }
      var devices := SortNames(n.OnlineDevices());
      nodes := nodes[Key(id) := Offline(n)];
      event := Ok(NodeDeath(id.group, id.edge, DeathTime(decoded.value.timestamp, tick.wall), devices));
    }

    method OnDeviceBirth(id: NodeId, device: string, payload: bytes, tick: Tick) returns (event: Result<HostEvent>)
      modifies this`nodes, this`sent
      ensures Did(old(View()), old(sent), id,
                  Host.OnDeviceBirth(debounce, id, device, old(View()).Lookup(Key(id)), payload, tick), event)
    {
      hide Decode.DecodePayload, Births.BindBirth, Host.Rebirth, Host.Key;
      if Key(id) !in nodes || !nodes[Key(id)].online {
        event := Rebirth(id, tick);
        return;
      }
      var n := nodes[Key(id)];
      var decoded := DecodeIO.DecodePayload(payload, None);
      if decoded.Err? { return Err(decoded.error); }
      if decoded.value.seqNo != Some(n.expectedSeq) {
        event := Fail(id, n.(online := false), tick);
        return;
      }
      var aliases := new AliasRegistry();
      var duplicate := BindAll(aliases, decoded.value.metrics);
      n := n.(expectedSeq := Next(n.expectedSeq), devices := n.devices[device := DeviceState(true, aliases.View())]);
      if duplicate {
        event := Fail(id, n, tick);
      } else {
        nodes := nodes[Key(id) := n];
        event := Ok(DeviceBirth(id.group, id.edge, device, decoded.value.metrics));
      }
    }

    method OnDeviceData(id: NodeId, device: string, payload: bytes, tick: Tick) returns (event: Result<HostEvent>)
      modifies this`nodes, this`sent
      ensures Did(old(View()), old(sent), id,
                  Host.OnDeviceData(debounce, id, device, old(View()).Lookup(Key(id)), payload, tick), event)
    {
      hide Decode.DecodePayload, Host.Rebirth, Host.Key, Host.ResolveNames;
      if Key(id) !in nodes || !nodes[Key(id)].online || !nodes[Key(id)].DeviceOnline(device) {
        event := Rebirth(id, tick);
        return;
      }
      var n := nodes[Key(id)];
      var aliases := n.devices[device].aliases;
      var decoded := DecodeIO.DecodePayload(payload, Some(aliases));
      if decoded.Err? || decoded.value.seqNo != Some(n.expectedSeq) {
        event := Fail(id, n.(online := false), tick);
        return;
      }
      nodes := nodes[Key(id) := n.(expectedSeq := Next(n.expectedSeq))];
      var metrics := FillNames(aliases, decoded.value.metrics);
      event := Ok(DeviceData(id.group, id.edge, device, metrics));
    }

    method OnDeviceDeath(id: NodeId, device: string, payload: bytes, tick: Tick) returns (event: Result<HostEvent>)
      modifies this`nodes, this`sent
      ensures Did(old(View()), old(sent), id,
                  Host.OnDeviceDeath(debounce, id, device, old(View()).Lookup(Key(id)), payload, tick), event)
    {
      hide Decode.DecodePayload, Host.Rebirth, Host.Key;
      if Key(id) !in nodes || !nodes[Key(id)].online {
        event := Rebirth(id, tick);
        return;
      }
      var n := nodes[Key(id)];
      var decoded := DecodeIO.DecodePayload(payload, None);
      if decoded.Err? { return Err(decoded.error); }
      if decoded.value.seqNo != Some(n.expectedSeq) {
        event := Fail(id, n.(online := false), tick);
        return;
      }
      nodes := nodes[Key(id) := n.(expectedSeq := Next(n.expectedSeq), devices := WithoutDevice(n.devices, device))];
      event := Ok(DeviceDeath(id.group, id.edge, device, DeathTime(decoded.value.timestamp, tick.wall)));
    }

    method OnState(host: string, payload: bytes, tick: Tick) returns (event: Result<HostEvent>)
      modifies this`sent
      ensures var o := Host.OnState(old(View()), host, payload, tick);
        View() == o.host && event == o.event && sent == old(sent) + o.sent
    {
      hide StateMessage, S.ParseState, Utf8Chars;
      if host != hostId { return Ok(Ignored); }
      if !ValidUtf8(payload) { return Err(InvalidUtf8); }
      var state := S.Parse(Utf8Chars(payload));
      if state.Err? { return Err(state.error); }
      if !state.value.online {
        var ok := Publish(StateMessage(hostId, S.StatePayload(true, stateTs)), tick);
        if !ok { return Err(Transport); }
      }
      event := Ok(Ignored);
    }

    /** One inbound message: the whole new state, the event and what was sent are those of `HostStep`. */
    method HandleIncoming(m: Message, tick: Tick) returns (event: Result<HostEvent>)
      modifies this`nodes, this`sent
      ensures var o := HostStep(old(View()), m, tick);
        View() == o.host && event == o.event && sent == old(sent) + o.sent
    {
      hide Topic.Parse, SparkplugTopic.Show, Host.OnNodeBirth, Host.OnNodeData, Host.OnNodeDeath;
      hide Host.OnDeviceBirth, Host.OnDeviceData, Host.OnDeviceDeath;
      hide Host.OnState, Host.Key;
      if Parse(m.topic).Ok? { ParsedShows(m.topic); }
      match Parse(m.topic)
      case Err(e) => event := Err(e);
      case Ok(HostState(host)) => event := OnState(host, m.payload, tick);
      case Ok(Node(g, e, ty)) =>
        var id := NodeId(g, e);
        match ty {
          case NBirth => event := OnNodeBirth(id, m.payload, tick);
          case NData => event := OnNodeData(id, m.payload, tick);
          case NDeath => event := OnNodeDeath(id, m.payload, tick);
          case _ => event := Ok(Ignored);
        }
      case Ok(Device(g, e, d, ty)) =>
        var id := NodeId(g, e);
        match ty {
          case DBirth => event := OnDeviceBirth(id, d, m.payload, tick);
          case DData => event := OnDeviceData(id, d, m.payload, tick);
          case DDeath => event := OnDeviceDeath(id, d, m.payload, tick);
          case _ => event := Ok(Ignored);
        }
    }
  }

  lemma RebirthKnows(debounce: nat, id: NodeId, node: Option<NodeState>, tick: Tick)
    ensures Host.Rebirth(debounce, id, node, tick).node.Some?
  {
    hide RebirthCommand;
  }

  lemma StoreTwice(h: Engine, key: string, n: NodeState, next: Option<NodeState>)
    requires next.Some?
    ensures h.Store(key, Some(n)).Store(key, next) == h.Store(key, next)
  {
  }
}
