/** Nodes do not interfere: a host run, seen by one node, is the run of its own messages (src/host.rs:426-477). */
module Isolation {
  import opened Base
  import opened Decode
  import opened Topic
  import opened Names
  import opened Births
  import opened Messages
  import opened Host
  import opened HostRuns

  datatype Delivery = Delivery(msg: Message, tick: Tick)

  ghost function HostRun(h: Engine, run: seq<Delivery>): (out: seq<HostOutcome>)
    ensures |out| == |run|
    decreases |run|
  {
    hide Host.HostStep;
    if run == [] then []
    else [HostStep(h, run[0].msg, run[0].tick)] + HostRun(HostStep(h, run[0].msg, run[0].tick).host, run[1..])
  }

  ghost function HostFinal(h: Engine, run: seq<Delivery>): Engine
    decreases |run|
  {
    hide Host.HostStep;
    if run == [] then h else HostFinal(HostStep(h, run[0].msg, run[0].tick).host, run[1..])
  }

  /** The node a topic speaks of, if any. */
  function Addressee(topic: string): Option<NodeId> {
    match Parse(topic)
    case Ok(Node(g, e, _)) => Some(NodeId(g, e))
    case Ok(Device(g, e, _, _)) => Some(NodeId(g, e))
    case _ => None
  }

  function AsNodeMessage(m: Message): NodeMessage
    requires Addressee(m.topic).Some?
  {
    match Parse(m.topic)
    case Ok(Node(_, _, ty)) => NodeMessage(ty, "", m.payload)
    case Ok(Device(_, _, d, ty)) => NodeMessage(ty, d, m.payload)
  }

  predicate For(id: NodeId, d: Delivery) { Addressee(d.msg.topic) == Some(id) }

  function Only(id: NodeId, run: seq<Delivery>): seq<Delivery>
    decreases |run|
  {
    if run == [] then [] else (if For(id, run[0]) then [run[0]] else []) + Only(id, run[1..])
  }

  function Arrivals(id: NodeId, run: seq<Delivery>): seq<Arrival>
    decreases |run|
  {
    if run == [] then []
    else (if For(id, run[0]) then [Arrival(AsNodeMessage(run[0].msg), run[0].tick)] else []) + Arrivals(id, run[1..])
  }

  /** What the host reports and sends on the messages of that node. */
  function Of(id: NodeId, run: seq<Delivery>, outs: seq<HostOutcome>): seq<(Result<HostEvent>, seq<Messages.Outbound>)>
    requires |run| == |outs|
    decreases |run|
  {
    if run == [] then []
    else (if For(id, run[0]) then [(outs[0].event, outs[0].sent)] else []) + Of(id, run[1..], outs[1..])
  }

  function Plain(outs: seq<Outcome>): seq<(Result<HostEvent>, seq<Messages.Outbound>)> {
    if outs == [] then [] else [(outs[0].event, outs[0].sent)] + Plain(outs[1..])
  }

  // ---- Keys ----

  /** Identifiers hold no slash, so a key belongs to one node. */
  lemma KeyInjective(a: NodeId, b: NodeId)
    ensures Key(a) == Key(b) <==> a == b
  {
    if Key(a) == Key(b) {
      SplitAt(a.group, a.edge, '/');
      SplitAt(b.group, b.edge, '/');
      SplitPlain(a.edge, '/');
      SplitPlain(b.edge, '/');
      assert [a.group] + [a.edge] == [a.group, a.edge] && [b.group] + [b.edge] == [b.group, b.edge];
      assert [a.group, a.edge][0] == a.group && [a.group, a.edge][1] == a.edge;
    }
  }

  /** One step seen from one node: its own step, or nothing at all. */
  lemma StepSeen(h: Engine, d: Delivery, id: NodeId)
    ensures var o := HostStep(h, d.msg, d.tick);
      && o.host.debounce == h.debounce
      && (if For(id, d) then
            var n := NodeStep(h.debounce, id, h.Lookup(Key(id)), AsNodeMessage(d.msg), d.tick);
            o.host.Lookup(Key(id)) == n.node && o.event == n.event && o.sent == n.sent
          else o.host.Lookup(Key(id)) == h.Lookup(Key(id)))
  {
    hide Host.NodeStep, Topic.Parse, Host.OnState, Host.Key;
    match Parse(d.msg.topic)
    case Ok(Node(g, e, ty)) =>
      KeyInjective(id, NodeId(g, e));
      StaysKnown(h.debounce, NodeId(g, e), h.Lookup(Key(NodeId(g, e))), AsNodeMessage(d.msg), d.tick);
    case Ok(Device(g, e, dev, ty)) =>
      KeyInjective(id, NodeId(g, e));
      StaysKnown(h.debounce, NodeId(g, e), h.Lookup(Key(NodeId(g, e))), AsNodeMessage(d.msg), d.tick);
    case Ok(HostState(hostId)) => StateKeeps(h, hostId, d.msg.payload, d.tick);
    case Err(_) =>
  }

  lemma StateKeeps(h: Engine, hostId: string, payload: bytes, tick: Tick)
    ensures OnState(h, hostId, payload, tick).host == h
  {
    hide Messages.ReadState, Host.StateMessage;
  }

  lemma StaysKnown(debounce: nat, id: NodeId, node: Option<NodeState>, m: NodeMessage, tick: Tick)
    ensures node.Some? ==> NodeStep(debounce, id, node, m, tick).node.Some?
  {
    hide Decode.DecodePayload, Births.BindBirth, Host.Reborn, Host.RebirthCommand, Host.ResolveNames, Host.BdSeqOf;
    hide Names.Listing, Host.Offline;
  }

  lemma {:induction false} SeenRun(h: Engine, run: seq<Delivery>, id: NodeId)
    ensures HostFinal(h, run).Lookup(Key(id)) == Final(h.debounce, id, h.Lookup(Key(id)), Arrivals(id, run))
    ensures Of(id, run, HostRun(h, run)) == Plain(Outcomes(h.debounce, id, h.Lookup(Key(id)), Arrivals(id, run)))
    decreases |run|
  {
    hide Host.NodeStep, Host.HostStep, Host.Key, Topic.Parse, AsNodeMessage;
    if run != [] {
      var o := HostStep(h, run[0].msg, run[0].tick);
      StepSeen(h, run[0], id);
      SeenRun(o.host, run[1..], id);
      assert HostRun(h, run)[1..] == HostRun(o.host, run[1..]);
      if For(id, run[0]) {
        var a := Arrival(AsNodeMessage(run[0].msg), run[0].tick);
        assert ([a] + Arrivals(id, run[1..]))[1..] == Arrivals(id, run[1..]);
      } else {
        Units(Arrivals(id, run[1..]));
      }
    }
  }

  lemma {:induction false} OnlyArrivals(id: NodeId, run: seq<Delivery>)
    ensures Arrivals(id, Only(id, run)) == Arrivals(id, run)
    decreases |run|
  {
    hide Topic.Parse, AsNodeMessage;
    if run != [] {
      OnlyArrivals(id, run[1..]);
      if For(id, run[0]) {
        assert ([run[0]] + Only(id, run[1..]))[1..] == Only(id, run[1..]);
      } else {
        Units(Only(id, run[1..]));
        Units(Arrivals(id, run[1..]));
      }
    }
  }

  /**
   After any interleaved run, one node's state, events and rebirth commands are those of the run
   of its own timed messages alone.
   */
  lemma NodeIsolation(h: Engine, run: seq<Delivery>, id: NodeId)
    ensures HostFinal(h, run).Lookup(Key(id)) == HostFinal(h, Only(id, run)).Lookup(Key(id))
    ensures Of(id, run, HostRun(h, run)) == Of(id, Only(id, run), HostRun(h, Only(id, run)))
  {
    hide HostFinal, HostRun, Of, Arrivals, Only, HostRuns.Final, HostRuns.Outcomes, Host.Key, Plain;
    SeenRun(h, run, id);
    SeenRun(h, Only(id, run), id);
    OnlyArrivals(id, run);
  }
}
