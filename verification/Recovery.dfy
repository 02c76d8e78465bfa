/**
 From an anomaly back in step: the host's rebirth request, answered by the edge, restores the session whatever the two
 disagreed on (src/host.rs:387-410, src/host.rs:721-748, src/edge.rs:548-575).
 */
module Recovery {
  import opened Base
  import opened Model
  import opened Alias
  import opened Births
  import opened Encode
  import opened Decode
  import opened Registries
  import opened Topic
  import opened Messages
  import opened Host
  import opened HostRuns
  import opened Isolation
  import opened Edge
  import opened Joining
  import opened Simulation
  import opened Sizes
  import Names

  /**
   A sequenced message the node does not take at its sequence check; an undecodable DBIRTH or DDEATH in a session
   is an error instead.
   */
  predicate Anomaly(node: Option<NodeState>, m: NodeMessage) {
    hide Decode.DecodePayload, Passes;
    && (m.ty.NData? || m.ty.DBirth? || m.ty.DData? || m.ty.DDeath?) && !Passes(node, m)
    && ((m.ty.DBirth? || m.ty.DDeath?) && Live(node) ==> DecodePayload(m.payload, None).Ok?)
  }

  /** A birth the node takes, but whose aliases clash. */
  ghost predicate ClashingBirth(node: Option<NodeState>, m: NodeMessage) {
    hide Decode.DecodePayload, Passes, Clash;
    && (m.ty.NBirth? || (m.ty.DBirth? && Passes(node, m)))
    && DecodePayload(m.payload, None).Ok? && Clash(DecodePayload(m.payload, None).value.metrics)
  }

  /** What a request comes to: nothing while the debounce slot is taken, then the command, or the failure to send it. */
  predicate Asked(debounce: nat, id: NodeId, last: Option<nat>, tick: Tick, o: Outcome) {
    hide RebirthCommand;
    if last.Some? && debounce > 0 && tick.instant < last.value + debounce then
      o.sent == [] && o.event == Ok(HostEvent.Ignored) && OrNew(o.node).lastRebirth == last
    else
      && OrNew(o.node).lastRebirth == Some(tick.instant)
      && (if tick.sendOk then
            o.sent == [RebirthCommand(id, tick.wall)] && o.event == Ok(RebirthRequested(id.group, id.edge))
          else o.sent == [] && o.event == Err(Transport))
  }

  lemma RebirthAsks(debounce: nat, id: NodeId)
    ensures forall node, tick ::
      Asked(debounce, id, OrNew(node).lastRebirth, tick, Rebirth(debounce, id, node, tick))
  {
    hide RebirthCommand;
  }

  /**
   A step asks for a rebirth exactly on an anomaly or a clashing birth. It then sends the command exactly when the
   debounce slot is free and the transport takes it; any other step sends nothing and leaves the slot alone.
   */
  lemma AsksExactly(debounce: nat, id: NodeId, node: Option<NodeState>, m: NodeMessage, tick: Tick)
    ensures var o := NodeStep(debounce, id, node, m, tick);
      if Anomaly(node, m) || ClashingBirth(node, m) then Asked(debounce, id, OrNew(node).lastRebirth, tick, o)
      else
        && o.sent == [] && OrNew(o.node).lastRebirth == OrNew(node).lastRebirth
        && (o.event.Ok? ==> !o.event.value.RebirthRequested?)
  {
    hide Decode.DecodePayload, Births.BindBirth, Births.Clash, Host.BdSeqOf, Host.ResolveNames, Names.Listing;
    hide Host.Rebirth, Asked;
    RebirthAsks(debounce, id);
    if DecodePayload(m.payload, None).Ok? { BirthFolding(DecodePayload(m.payload, None).value.metrics); }
  }

  // ---- Requests over a run ----

  ghost predicate Asks(node: Option<NodeState>, m: NodeMessage) {
    hide Anomaly, ClashingBirth;
    Anomaly(node, m) || ClashingBirth(node, m)
  }

  /** Two messages that ask, at least `debounce` apart and with sends that succeed, make two commands. */
  lemma TwoRequests(debounce: nat, id: NodeId, node: Option<NodeState>, m1: NodeMessage, t1: Tick, m2: NodeMessage,
                    t2: Tick)
    requires t1.sendOk && t2.sendOk && t1.instant + debounce <= t2.instant
    requires Asks(node, m1) && Asks(NodeStep(debounce, id, node, m1, t1).node, m2)
    requires Due(OrNew(node).lastRebirth, debounce, t1.instant)
    ensures var o := NodeStep(debounce, id, node, m1, t1);
      && o.sent == [RebirthCommand(id, t1.wall)]
      && NodeStep(debounce, id, o.node, m2, t2).sent == [RebirthCommand(id, t2.wall)]
  {
    hide Host.NodeStep, Anomaly, ClashingBirth, RebirthCommand;
    AsksExactly(debounce, id, node, m1, t1);
    AsksExactly(debounce, id, NodeStep(debounce, id, node, m1, t1).node, m2, t2);
  }

  /** How many messages of the run ask at least `debounce` after `last`, and after the one counted before. */
  ghost function Owed(debounce: nat, id: NodeId, node: Option<NodeState>, run: seq<Arrival>, last: Option<nat>): nat
    decreases |run|
  {
    hide Host.NodeStep, Asks;
    if run == [] then 0
    else
      var next := NodeStep(debounce, id, node, run[0].msg, run[0].tick).node;
      if Asks(node, run[0].msg) && (last.None? || last.value + debounce <= run[0].tick.instant) then
        1 + Owed(debounce, id, next, run[1..], Some(run[0].tick.instant))
      else Owed(debounce, id, next, run[1..], last)
  }

  /** One request more when the slot was taken after `last`. */
  function Ahead(slot: Option<nat>, last: Option<nat>): nat {
    if slot.Some? && (last.None? || last.value < slot.value) then 1 else 0
  }

  predicate UpTo(at: Option<nat>, run: seq<Arrival>) { at.Some? ==> forall a <- run :: at.value <= a.tick.instant }

  lemma {:induction false} OwedMade(debounce: nat, id: NodeId, node: Option<NodeState>, run: seq<Arrival>,
                                    last: Option<nat>)
    requires Monotone(run) && (forall a <- run :: a.tick.sendOk)
    requires UpTo(OrNew(node).lastRebirth, run) && UpTo(last, run)
    ensures Requests(Outcomes(debounce, id, node, run)) + Ahead(OrNew(node).lastRebirth, last) >=
      Owed(debounce, id, node, run, last)
    decreases |run|
  {
    hide Host.NodeStep, Outcomes, Requests, Monotone, Asks, Anomaly, ClashingBirth, RebirthCommand;
    if run == [] {
      NoRequests(debounce, id, node);
    } else {
      var a, slot := run[0], OrNew(node).lastRebirth;
      var o := NodeStep(debounce, id, node, a.msg, a.tick);
      LaterRun(run);
      AsksExactly(debounce, id, node, a.msg, a.tick);
      AsksEither(node, a.msg);
      RequestsCons(debounce, id, node, run);
      var counted := Asks(node, a.msg) && (last.None? || last.value + debounce <= a.tick.instant);
      OwedMade(debounce, id, o.node, run[1..], if counted then Some(a.tick.instant) else last);
    }
  }

  lemma AsksEither(node: Option<NodeState>, m: NodeMessage)
    ensures Asks(node, m) <==> Anomaly(node, m) || ClashingBirth(node, m)
  {
    hide Anomaly, ClashingBirth;
  }

  /**
   No debounce slot blocks longer than it should: on a monotone clock and with sends that succeed, a run holds at
   least as many requests as it has messages that ask and lie a whole debounce apart, from the last request on.
   */
  lemma RequestsAreMade(debounce: nat, id: NodeId, node: Option<NodeState>, run: seq<Arrival>)
    requires Monotone(run) && (forall a <- run :: a.tick.sendOk) && UpTo(OrNew(node).lastRebirth, run)
    ensures Requests(Outcomes(debounce, id, node, run)) >= Owed(debounce, id, node, run, OrNew(node).lastRebirth)
  {
    hide Outcomes, Requests, Owed, Monotone;
    OwedMade(debounce, id, node, run, OrNew(node).lastRebirth);
  }

  // ---- The command ----

  /** The command decodes under any registry, and asks for a rebirth. */
  lemma CommandAsks(wall: i64, types: Option<Registry>)
    ensures DecodePayload(EncodePayload(RebirthPayload(wall), false), types) == Ok(RebirthPayload(wall))
    ensures AsksRebirth(RebirthPayload(wall))
  {
    hide Decode.DecodePayload, Encode.EncodePayload, Base.ValidUtf8;
    PlainPayload(RebirthPayload(wall), false);
    BirthArrives(RebirthPayload(wall));
    RegistryIndependence(EncodePayload(RebirthPayload(wall), false), types);
    assert RebirthPayload(wall).metrics[0] in RebirthPayload(wall).metrics;
  }

  /** The command as sent: to the node's NCMD topic, not retained, with one true rebirth metric and nothing else. */
  lemma CommandOnWire(id: NodeId, wall: i64, types: Option<Registry>)
    ensures var c := RebirthCommand(id, wall);
      && c.qos == AtMostOnce && !c.retain && Parse(c.message.topic) == Ok(Node(id.group, id.edge, NCmd))
      && DecodePayload(c.message.payload, types) ==
           Ok(Payload(Some(if wall < 0 then 0 else wall),
                      [Metric(Some(REBIRTH), None, None, Basic(Boolean(true)), None, None, None, None)],
                      None, None, None))
  {
    hide Topic.Parse, SparkplugTopic.Show, Decode.DecodePayload, Encode.EncodePayload, Base.ValidUtf8;
    ShownParses(Node(id.group, id.edge, NCmd));
    CommandAsks(wall, types);
  }

  /** An edge that gets the command publishes its births, or debounces it. */
  lemma CommandObeyed(cfg: EdgeConfig, e: EdgeView, wall: i64, src: Source, env: Env)
    ensures var out, births := HandleIncoming(cfg, e, RebirthCommand(Peer(cfg), wall).message, src, env),
      PublishBirths(cfg, e, src, env, 0, 0);
      if !Due(e.lastRebirth, cfg.debounce, env.checked) then out == EdgeOut(e, [], Ok(RebirthDebounced))
      else
        && out.log == births.log
        && (if births.result.Ok? then
              out.result == Ok(Rebirthed) && out.edge == births.edge.(lastRebirth := Some(env.done))
            else out.result == Err(births.result.error) && out.edge == births.edge)
  {
    hide Topic.Parse, SparkplugTopic.Show, Decode.DecodePayload, Encode.EncodePayload, PublishBirths, AsksRebirth;
    hide RebirthPayload;
    ShownParses(Node(cfg.group, cfg.edge, NCmd));
    CommandAsks(wall, Some(e.aliases));
  }

  /**
   Whatever state the edge and the host are in, a rebirth command that the edge does not debounce and whose births it
   can send leaves it online and the host in step with it, having heard the births.
   */
  lemma RebirthRecovers(cfg: EdgeConfig, e: EdgeView, wall: i64, src: Source, env: Env, h: Engine, ticks: nat -> Tick)
    requires Distinct(cfg.devices) && GoodSource(cfg, src) && Due(e.lastRebirth, cfg.debounce, env.checked)
    requires HandleIncoming(cfg, e, RebirthCommand(Peer(cfg), wall).message, src, env).result.Ok?
    requires Small(HandleIncoming(cfg, e, RebirthCommand(Peer(cfg), wall).message, src, env).log)
    ensures var out := HandleIncoming(cfg, e, RebirthCommand(Peer(cfg), wall).message, src, env);
      && out.result == Ok(Rebirthed) && out.edge.state == Online
      && Follows(cfg, src, out.edge, HostAfter(h, out.log, ticks, 0))
      && Hears(Hear(h, out.log, ticks, 0), BirthEvents(cfg, e, src, env, 0))
  {
    hide HandleIncoming, PublishBirths, Follows, Hear, HostAfter, Hears, BirthEvents, GoodSource, Distinct, Small;
    hide RebirthCommand;
    CommandObeyed(cfg, e, wall, src, env);
    BirthsHeard(cfg, e, src, env, 0, 0, h, ticks);
    FollowsNear(cfg, src, PublishBirths(cfg, e, src, env, 0, 0).edge,
                HandleIncoming(cfg, e, RebirthCommand(Peer(cfg), wall).message, src, env).edge,
                HostAfter(h, PublishBirths(cfg, e, src, env, 0, 0).log, ticks, 0));
  }

  /** The edge takes the command: it is not debounced, and its births come from a good source and are sent. */
  ghost predicate Obeys(cfg: EdgeConfig, e: EdgeView, m: Message, src: Source, env: Env) {
    hide GoodSource, Distinct, Due, HandleIncoming, Small;
    && Distinct(cfg.devices) && GoodSource(cfg, src) && Due(e.lastRebirth, cfg.debounce, env.checked)
    && var out := HandleIncoming(cfg, e, m, src, env);
    && out.result.Ok? && Small(out.log)
  }

  /** A message of this edge that makes the host ask, with its slot free and a transport that takes the command. */
  ghost predicate Provokes(cfg: EdgeConfig, h: Engine, m: Message, tick: Tick) {
    hide Anomaly, ClashingBirth, Addressee, AsNodeMessage, Host.Key;
    && Addressee(m.topic) == Some(Peer(cfg))
    && var node := h.Lookup(Key(Peer(cfg)));
    && (Anomaly(node, AsNodeMessage(m)) || ClashingBirth(node, AsNodeMessage(m)))
    && Due(OrNew(node).lastRebirth, h.debounce, tick.instant) && tick.sendOk
  }

  /** The edge has answered, the host `h` has heard its births, and every run from there is heard as it should be. */
  ghost predicate Healed(cfg: EdgeConfig, e: EdgeView, h: Engine, out: EdgeOut<EdgeEvent>, src: Source, env: Env,
                         ticks: nat -> Tick, rounds: seq<Round>) {
    hide Follows, Hears, Hear, HostAfter, BirthEvents, AllAdmissible, AllTold;
    var s := System(src, out.edge, HostAfter(h, out.log, ticks, 0));
    && out.result == Ok(Rebirthed) && Hears(Hear(h, out.log, ticks, 0), BirthEvents(cfg, e, src, env, 0))
    && s.edge.state == Online && InStep(cfg, s)
    && (AllAdmissible(cfg, s, rounds) ==> AllTold(cfg, s, rounds))
  }

  /**
   The whole circle, from any states of the two. A message of this edge that is an anomaly or a clashing birth, at a
   host whose slot is free and whose send succeeds, makes it send one command. Once the edge takes that command and
   the host has heard what the edge then sends, the host is in step with it, and every admissible run from there is
   heard as it should be, without another request.
   */
  lemma AnomalyHeals(cfg: EdgeConfig, e: EdgeView, h: Engine, m: Message, tick: Tick,
                     src: Source, env: Env, ticks: nat -> Tick, rounds: seq<Round>)
    requires Provokes(cfg, h, m, tick)
    requires Obeys(cfg, e, RebirthCommand(Peer(cfg), tick.wall).message, src, env)
    ensures HostStep(h, m, tick).sent == [RebirthCommand(Peer(cfg), tick.wall)]
    ensures var out := HandleIncoming(cfg, e, RebirthCommand(Peer(cfg), tick.wall).message, src, env);
      Healed(cfg, e, HostStep(h, m, tick).host, out, src, env, ticks, rounds)
  {
    hide Host.NodeStep, Host.HostStep, Anomaly, ClashingBirth, HandleIncoming, GoodSource, Distinct, Small;
    hide Follows, Hears, Hear, HostAfter, BirthEvents, RebirthCommand, AllAdmissible, AllTold, Host.Key;
    hide Addressee, AsNodeMessage;
    StepSeen(h, Delivery(m, tick), Peer(cfg));
    AsksExactly(h.debounce, Peer(cfg), h.Lookup(Key(Peer(cfg))), AsNodeMessage(m), tick);
    var o := HostStep(h, m, tick);
    RebirthRecovers(cfg, e, tick.wall, src, env, o.host, ticks);
    var out := HandleIncoming(cfg, e, RebirthCommand(Peer(cfg), tick.wall).message, src, env);
    var s := System(src, out.edge, HostAfter(o.host, out.log, ticks, 0));
    if AllAdmissible(cfg, s, rounds) { EdgeHostSimulation(cfg, s, rounds); }
  }
}
