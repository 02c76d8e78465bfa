/** The publications of one edge session, over a bad channel (src/edge.rs:307-530, src/host.rs:529-718). */
module Lossy {
  import opened Base
  import opened Model
  import opened Encode
  import opened Decode
  import opened Topic
  import opened Messages
  import opened Sequence
  import opened Host
  import opened HostRuns
  import opened Isolation
  import opened Edge
  import opened Aliasing
  import opened Joining
  import opened Simulation
  import Births
  import Channel
  import Sizes
  import Names

  // ---- Published messages as their node sees them ----

  function Letters(log: seq<Action>): seq<NodeMessage> {
    if log == [] then []
    else if log[0].Published? && Addressee(log[0].msg.message.topic).Some? then
      [AsNodeMessage(log[0].msg.message)] + Letters(log[1..])
    else Letters(log[1..])
  }

  lemma {:induction false} LettersAppend(a: seq<Action>, b: seq<Action>)
    ensures Letters(a + b) == Letters(a) + Letters(b)
    decreases |a|
  {
    hide Addressee, AsNodeMessage;
    if a == [] {
      Units(b);
    } else {
      assert (a + b)[1..] == a[1..] + b;
      LettersAppend(a[1..], b);
    }
  }

  lemma LetterCons(a: Action, m: NodeMessage, log: seq<Action>)
    requires a.Published? && Addressee(a.msg.message.topic).Some? && AsNodeMessage(a.msg.message) == m
    ensures Letters([a] + log) == [m] + Letters(log)
  {
    hide Addressee, AsNodeMessage;
    assert ([a] + log)[1..] == log;
  }

  lemma NodeLetter(cfg: EdgeConfig, ty: MessageType, payload: bytes)
    requires !ty.HasDevice() && ty != State
    ensures Addressee(cfg.NodeTopic(ty)).Some?
    ensures AsNodeMessage(Message(cfg.NodeTopic(ty), payload)) == NodeMessage(ty, "", payload)
  {
    hide Topic.Parse, SparkplugTopic.Show;
    ShownParses(Node(cfg.group, cfg.edge, ty));
  }

  lemma DeviceLetter(cfg: EdgeConfig, device: Id, ty: MessageType, payload: bytes)
    requires ty.HasDevice()
    ensures Addressee(cfg.DeviceTopic(device, ty)).Some?
    ensures AsNodeMessage(Message(cfg.DeviceTopic(device, ty), payload)) == NodeMessage(ty, device, payload)
  {
    hide Topic.Parse, SparkplugTopic.Show;
    ShownParses(Device(cfg.group, cfg.edge, device, ty));
  }

  // ---- A run that advances ----

  const QUIET: Tick := Tick(0, 0, true)

  ghost function Onward(debounce: nat, id: NodeId, n: NodeState, m: NodeMessage): NodeState {
    hide Host.NodeStep;
    OrNew(NodeStep(debounce, id, Some(n), m, QUIET).node)
  }

  ghost predicate Runs(debounce: nat, id: NodeId, n: NodeState, msgs: seq<NodeMessage>)
    decreases |msgs|
  {
    hide Onward, Channel.Advances, Channel.Shows;
    msgs != [] ==>
      && Channel.Advances(debounce, id, n, msgs[0], Onward(debounce, id, n, msgs[0]))
      && Channel.Shows(msgs[0], n.expectedSeq)
      && Runs(debounce, id, Onward(debounce, id, n, msgs[0]), msgs[1..])
  }

  ghost function StatesOf(debounce: nat, id: NodeId, n: NodeState, msgs: seq<NodeMessage>): (states: seq<NodeState>)
    ensures |states| == |msgs| + 1 && states[0] == n
    decreases |msgs|
  {
    hide Onward;
    if msgs == [] then [n] else [n] + StatesOf(debounce, id, Onward(debounce, id, n, msgs[0]), msgs[1..])
  }

  lemma {:induction false} RunsMakeSession(debounce: nat, id: NodeId, n: NodeState, msgs: seq<NodeMessage>)
    requires Runs(debounce, id, n, msgs) && |msgs| < TWO8
    ensures Channel.Session(debounce, id, StatesOf(debounce, id, n, msgs), msgs)
    decreases |msgs|
  {
    hide Onward, Channel.Advances, Channel.Shows;
    if msgs != [] {
      var next := Onward(debounce, id, n, msgs[0]);
      RunsMakeSession(debounce, id, next, msgs[1..]);
      var states, rest := StatesOf(debounce, id, n, msgs), StatesOf(debounce, id, next, msgs[1..]);
      assert states == [n] + rest;
      forall k | 0 <= k < |msgs|
        ensures Channel.Advances(debounce, id, states[k], msgs[k], states[k + 1])
        ensures Channel.Shows(msgs[k], states[k].expectedSeq)
      {
        if k > 0 {
          assert states[k] == rest[k - 1] && states[k + 1] == rest[k] && msgs[k] == msgs[1..][k - 1];
        }
      }
    }
  }

  /** After a message that reports, the state does not depend on the surroundings. */
  lemma TickIrrelevant(debounce: nat, id: NodeId, n: NodeState, m: NodeMessage, tick: Tick, other: Tick)
    requires Reports(NodeStep(debounce, id, Some(n), m, tick).event)
    ensures NodeStep(debounce, id, Some(n), m, other).node == NodeStep(debounce, id, Some(n), m, tick).node
    ensures NodeStep(debounce, id, Some(n), m, tick).node.Some?
  {
    hide Decode.DecodePayload, Births.BindBirth, Host.Rebirth, Host.BdSeqOf, Host.ResolveNames, Names.Listing;
    RebirthReports(debounce, id);
  }

  lemma ReportAdvances(debounce: nat, id: NodeId, n: NodeState, m: NodeMessage)
    requires forall tick :: Reports(NodeStep(debounce, id, Some(n), m, tick).event)
    ensures Channel.Advances(debounce, id, n, m, Onward(debounce, id, n, m))
  {
    hide Host.NodeStep;
    forall tick ensures NodeStep(debounce, id, Some(n), m, tick).node == Some(Onward(debounce, id, n, m)) {
      TickIrrelevant(debounce, id, n, m, QUIET, tick);
    }
  }

  lemma PayloadShows(m: NodeMessage, p: Payload, strip: bool, seqNo: byte)
    requires m.payload == EncodePayload(p, strip) && |m.payload| < TWO64 && p.seqNo == Some(seqNo)
    ensures Channel.Shows(m, seqNo)
  {
    hide Decode.DecodePayload, Encode.EncodePayload;
    forall types | DecodePayload(m.payload, types).Ok?
      ensures DecodePayload(m.payload, types).value.seqNo == Some(seqNo)
    {
      Channel.SeqNoKept(p, strip, types);
    }
  }

  ghost function EndOf(debounce: nat, id: NodeId, n: NodeState, msgs: seq<NodeMessage>): NodeState
    decreases |msgs|
  {
    hide Onward;
    if msgs == [] then n else EndOf(debounce, id, Onward(debounce, id, n, msgs[0]), msgs[1..])
  }

  lemma {:induction false} RunsAppend(debounce: nat, id: NodeId, n: NodeState, a: seq<NodeMessage>, b: seq<NodeMessage>)
    requires Runs(debounce, id, n, a) && Runs(debounce, id, EndOf(debounce, id, n, a), b)
    ensures Runs(debounce, id, n, a + b)
    ensures EndOf(debounce, id, n, a + b) == EndOf(debounce, id, EndOf(debounce, id, n, a), b)
    decreases |a|
  {
    hide Onward, Channel.Advances, Channel.Shows;
    if a == [] {
      Units(b);
    } else {
      assert (a + b)[1..] == a[1..] + b;
      RunsAppend(debounce, id, Onward(debounce, id, n, a[0]), a[1..], b);
    }
  }

  /** The message is the next one of a session in step, and leaves it in step with the edge's next state. */
  ghost predicate Continues(cfg: EdgeConfig, debounce: nat, src: Source, n: NodeState, m: NodeMessage, next: EdgeView) {
    hide Onward, Channel.Advances, Channel.Shows, Joined;
    && Channel.Advances(debounce, Peer(cfg), n, m, Onward(debounce, Peer(cfg), n, m))
    && Channel.Shows(m, n.expectedSeq)
    && Joined(cfg, src, next, Onward(debounce, Peer(cfg), n, m))
  }

  lemma DeviceBirthAdvances(cfg: EdgeConfig, e: EdgeView, src: Source, device: Id, ts: u64, n: NodeState, debounce: nat)
    requires GoodSource(cfg, src) && device in cfg.devices && device !in e.born && Joined(cfg, src, e, n)
    requires RoomFor(cfg, src, e, device)
    requires |DeviceBirthMessage(cfg, e, src, device, ts).message.payload| < TWO64
    ensures Continues(cfg, debounce, src, n,
                      NodeMessage(DBirth, device, DeviceBirthMessage(cfg, e, src, device, ts).message.payload),
                      DeviceBorn(cfg, e, src, device))
  {
    hide Host.NodeStep, Encode.EncodePayload, Assign, Stamp, Channel.Advances, Channel.Shows, Understands;
    hide GoodSource, RoomFor, DeviceBorn, WithControls;
    var payload := DeviceBirthMessage(cfg, e, src, device, ts).message.payload;
    var m := NodeMessage(DBirth, device, payload);
    forall tick ensures Reports(NodeStep(debounce, Peer(cfg), Some(n), m, tick).event) {
      DeviceBirthJoins(cfg, e, src, device, ts, n, debounce, tick);
    }
    DeviceBirthJoins(cfg, e, src, device, ts, n, debounce, QUIET);
    ReportAdvances(debounce, Peer(cfg), n, m);
    var sent := Stamp(Assign(cfg, e.aliases, e.nextAlias, src.device(device)).metrics, ts);
    PayloadShows(m, Edge.Sequenced(sent, e.seqNo, ts), false, e.seqNo);
  }

  lemma NodeDataAdvances(cfg: EdgeConfig, e: EdgeView, src: Source, ms: seq<Metric>, ts: u64, n: NodeState,
                         debounce: nat)
    requires Joined(cfg, src, e, n) && AllDeclared(NodeMetrics(e, src), ms)
    requires |EncodePayload(DataPayload(cfg, e, ms, ts), true)| < TWO64
    ensures Continues(cfg, debounce, src, n, NodeMessage(NData, "", EncodePayload(DataPayload(cfg, e, ms, ts), true)),
                      e.(seqNo := Next(e.seqNo)))
  {
    hide Host.NodeStep, Encode.EncodePayload, Stamp, ToData, Channel.Advances, Channel.Shows, Understands;
    hide WithControls, AllDeclared, Carries;
    var m := NodeMessage(NData, "", EncodePayload(DataPayload(cfg, e, ms, ts), true));
    forall tick ensures Reports(NodeStep(debounce, Peer(cfg), Some(n), m, tick).event) {
      NodeDataJoins(cfg, e, src, ms, ts, n, debounce, tick);
    }
    NodeDataJoins(cfg, e, src, ms, ts, n, debounce, QUIET);
    ReportAdvances(debounce, Peer(cfg), n, m);
    PayloadShows(m, DataPayload(cfg, e, ms, ts), true, e.seqNo);
  }

  lemma DeviceDataAdvances(cfg: EdgeConfig, e: EdgeView, src: Source, device: string, ms: seq<Metric>, ts: u64,
                           n: NodeState, debounce: nat)
    requires Joined(cfg, src, e, n) && device in e.born && AllDeclared(src.device(device), ms)
    requires |EncodePayload(DataPayload(cfg, e, ms, ts), true)| < TWO64
    ensures Continues(cfg, debounce, src, n,
                      NodeMessage(DData, device, EncodePayload(DataPayload(cfg, e, ms, ts), true)),
                      e.(seqNo := Next(e.seqNo)))
  {
    hide Host.NodeStep, Encode.EncodePayload, Stamp, ToData, Channel.Advances, Channel.Shows, Understands;
    hide WithControls, AllDeclared, Carries;
    var m := NodeMessage(DData, device, EncodePayload(DataPayload(cfg, e, ms, ts), true));
    forall tick ensures Reports(NodeStep(debounce, Peer(cfg), Some(n), m, tick).event) {
      DeviceDataJoins(cfg, e, src, device, ms, ts, n, debounce, tick);
    }
    DeviceDataJoins(cfg, e, src, device, ms, ts, n, debounce, QUIET);
    ReportAdvances(debounce, Peer(cfg), n, m);
    PayloadShows(m, DataPayload(cfg, e, ms, ts), true, e.seqNo);
  }

  lemma DeviceDeathAdvances(cfg: EdgeConfig, e: EdgeView, src: Source, device: string, ts: u64, n: NodeState,
                            debounce: nat)
    requires Joined(cfg, src, e, n) && device in e.born
    ensures Continues(cfg, debounce, src, n,
                      NodeMessage(DDeath, device, EncodePayload(Edge.Sequenced([], e.seqNo, ts), false)),
                      e.(seqNo := Next(e.seqNo), born := Without(e.born, device)))
  {
    hide Host.NodeStep, Encode.EncodePayload, Without, Channel.Advances, Channel.Shows, Understands, WithControls;
    var p := Edge.Sequenced([], e.seqNo, ts);
    var m := NodeMessage(DDeath, device, EncodePayload(p, false));
    forall tick ensures Reports(NodeStep(debounce, Peer(cfg), Some(n), m, tick).event) {
      DeviceDeathJoins(cfg, e, src, device, ts, n, debounce, tick);
    }
    DeviceDeathJoins(cfg, e, src, device, ts, n, debounce, QUIET);
    ReportAdvances(debounce, Peer(cfg), n, m);
    Sizes.PlainPayload(p, false);
    PayloadShows(m, p, false, e.seqNo);
  }

  // ---- The births and the data of a session ----

  ghost predicate RunsInto(cfg: EdgeConfig, debounce: nat, src: Source, n: NodeState, log: seq<Action>, last: EdgeView)
  {
    hide Runs, EndOf, Letters, Joined;
    Runs(debounce, Peer(cfg), n, Letters(log)) && Joined(cfg, src, last, EndOf(debounce, Peer(cfg), n, Letters(log)))
  }

  lemma RunsIntoNothing(cfg: EdgeConfig, debounce: nat, src: Source, e: EdgeView, n: NodeState, last: EdgeView)
    requires Joined(cfg, src, e, n)
    requires last.seqNo == e.seqNo && last.bdSeq == e.bdSeq && last.aliases == e.aliases && last.born == e.born
    ensures RunsInto(cfg, debounce, src, n, [], last)
  {
    hide Joined, Host.NodeStep, Onward;
    SameJoined(cfg, src, e, last, n);
  }

  /** One message, then a log that runs on from the state after it. */
  lemma RunsIntoCons(cfg: EdgeConfig, debounce: nat, src: Source, n: NodeState, a: Action, m: NodeMessage,
                     mid: EdgeView, log: seq<Action>, last: EdgeView)
    requires a.Published? && Addressee(a.msg.message.topic).Some? && AsNodeMessage(a.msg.message) == m
    requires Continues(cfg, debounce, src, n, m, mid)
    requires RunsInto(cfg, debounce, src, Onward(debounce, Peer(cfg), n, m), log, last)
    ensures RunsInto(cfg, debounce, src, n, [a] + log, last)
  {
    hide Joined, Letters, Addressee, AsNodeMessage, Channel.Advances, Channel.Shows, Onward;
    LetterCons(a, m, log);
    assert ([m] + Letters(log))[1..] == Letters(log);
  }

  lemma {:induction false} DevicesRun(cfg: EdgeConfig, e: EdgeView, src: Source, env: Env, calls: nat, at: nat,
                                      devices: seq<Id>, n: NodeState, debounce: nat)
    requires GoodSource(cfg, src) && Waiting(cfg, e, devices) && Room(cfg, src, e, devices) && Joined(cfg, src, e, n)
    requires var out := PublishDeviceBirths(cfg, e, src, env, calls, at, devices); out.result.Ok? && Small(out.log)
    ensures var out := PublishDeviceBirths(cfg, e, src, env, calls, at, devices);
      RunsInto(cfg, debounce, src, n, out.log, out.edge)
    decreases |devices|
  {
    hide Joined, GoodSource, RoomFor, Room, DeviceBorn, DeviceBirthMessage, Waiting, Small, RunsInto, Continues;
    hide Onward, PublishDeviceBirths, Addressee, AsNodeMessage;
    hide EdgeConfig.DeviceTopic;
    if devices == [] {
      NoneToRun(cfg, e, src, env, calls, at, n, debounce);
    } else {
      var d := devices[0];
      FirstWaiting(cfg, e, src, devices);
      GoodDevice(cfg, src, d);
      RoomKept(cfg, src, e, devices);
      var next := DeviceBorn(cfg, e, src, d);
      DevicesUnfold(cfg, e, src, env, calls, at, devices);
      var rest := PublishDeviceBirths(cfg, next, src, env, calls + 1, at + 1, devices[1..]);
      var msg := DeviceBirthMessage(cfg, e, src, d, env.wall(at));
      SmallTail(Published(msg), rest.log);
      var m := NodeMessage(DBirth, d, msg.message.payload);
      DeviceBirthAdvances(cfg, e, src, d, env.wall(at), n, debounce);
      BirthLetter(cfg, e, src, d, env.wall(at));
      Continued(cfg, debounce, src, n, m, next);
      DevicesRun(cfg, next, src, env, calls + 1, at + 1, devices[1..], Onward(debounce, Peer(cfg), n, m), debounce);
      RunsIntoCons(cfg, debounce, src, n, Published(msg), m, next, rest.log, rest.edge);
    }
  }

  lemma Continued(cfg: EdgeConfig, debounce: nat, src: Source, n: NodeState, m: NodeMessage, next: EdgeView)
    requires Continues(cfg, debounce, src, n, m, next)
    ensures Joined(cfg, src, next, Onward(debounce, Peer(cfg), n, m))
  {
    hide Joined, Onward, Channel.Advances, Channel.Shows;
  }

  lemma BirthLetter(cfg: EdgeConfig, e: EdgeView, src: Source, device: Id, ts: u64)
    ensures var msg := DeviceBirthMessage(cfg, e, src, device, ts).message;
      Addressee(msg.topic).Some? && AsNodeMessage(msg) == NodeMessage(DBirth, device, msg.payload)
  {
    hide Addressee, AsNodeMessage, Encode.EncodePayload, Assign, Stamp, EdgeConfig.DeviceTopic;
    DeviceLetter(cfg, device, DBirth, DeviceBirthMessage(cfg, e, src, device, ts).message.payload);
  }

  lemma NoneToRun(cfg: EdgeConfig, e: EdgeView, src: Source, env: Env, calls: nat, at: nat, n: NodeState, debounce: nat)
    requires Joined(cfg, src, e, n)
    ensures var out := PublishDeviceBirths(cfg, e, src, env, calls, at, []);
      RunsInto(cfg, debounce, src, n, out.log, out.edge)
  {
    hide Joined, DeviceAssigned, DeviceBirthMessage, RunsInto;
    RunsIntoNothing(cfg, debounce, src, e, n, e.(state := Online));
  }

  /** A call within a session: data, a device death, or an inbound message that sets off nothing. */
  predicate WithinSession(cfg: EdgeConfig, e: EdgeView, call: Call) {
    hide Edge.EdgeStep;
    call.DoNodeData? || call.DoDeviceData? || call.DoDeviceDeath?
    || (call.DoIncoming? && EdgeStep(cfg, e, call).log == [])
  }

  ghost predicate AllWithin(cfg: EdgeConfig, s: System, rounds: seq<Round>)
    decreases |rounds|
  {
    hide WithinSession, Advance;
    rounds != [] ==>
      WithinSession(cfg, s.edge, rounds[0].call) && AllWithin(cfg, Advance(cfg, s, rounds[0]), rounds[1..])
  }

  ghost function RunLog(cfg: EdgeConfig, s: System, rounds: seq<Round>): seq<Action>
    decreases |rounds|
  {
    hide Edge.EdgeStep, Advance;
    if rounds == [] then []
    else EdgeStep(cfg, s.edge, rounds[0].call).log + RunLog(cfg, Advance(cfg, s, rounds[0]), rounds[1..])
  }

  /**
   A round of the session sends nothing and keeps what the host is in step with, or sends the session's next
   message.
   */
  ghost predicate SendsNext(cfg: EdgeConfig, debounce: nat, s: System, n: NodeState, out: EdgeOut<()>) {
    hide Continues, Addressee, AsNodeMessage;
    || (out.log == [] && Near(s.edge, out.edge))
    || (|out.log| == 1 && out.log[0].Published? && Addressee(out.log[0].msg.message.topic).Some?
        && Continues(cfg, debounce, s.src, n, AsNodeMessage(out.log[0].msg.message), out.edge))
  }

  lemma NodeDataSends(cfg: EdgeConfig, s: System, r: Round, n: NodeState, debounce: nat)
    requires r.call.DoNodeData? && s.edge.state == Online && Joined(cfg, s.src, s.edge, n) && Admissible(cfg, s, r.call)
    ensures SendsNext(cfg, debounce, s, n, EdgeStep(cfg, s.edge, r.call))
    ensures EdgeStep(cfg, s.edge, r.call).edge.state == Online
  {
    hide Joined, Encode.EncodePayload, EdgeConfig.NodeTopic, Stamp, ToData, AllDeclared, WithControls, Continues;
    hide Addressee, AsNodeMessage;
    hide Connect, PublishBirths, PublishDeviceData, PublishDeviceDeath, HandleIncoming, Disconnect, GoodSource;
    var ms, env, e := r.call.metrics, r.call.env, s.edge;
    var msg := Send(cfg.NodeTopic(NData), DataPayload(cfg, e, ms, env.wall(0)), true);
    SmallOne(msg);
    NodeLetter(cfg, NData, msg.message.payload);
    NodeDataAdvances(cfg, e, s.src, ms, env.wall(0), n, debounce);
  }

  lemma BornIsValid(cfg: EdgeConfig, src: Source, e: EdgeView, n: NodeState, device: string)
    requires Joined(cfg, src, e, n) && device in e.born
    ensures ValidId(device)
  {
    hide Understands, WithControls;
  }

  lemma DeviceDataSends(cfg: EdgeConfig, s: System, r: Round, n: NodeState, debounce: nat)
    requires r.call.DoDeviceData? && s.edge.state == Online && Joined(cfg, s.src, s.edge, n)
    requires Admissible(cfg, s, r.call)
    ensures SendsNext(cfg, debounce, s, n, EdgeStep(cfg, s.edge, r.call))
    ensures EdgeStep(cfg, s.edge, r.call).edge.state == Online
  {
    hide Joined, Encode.EncodePayload, EdgeConfig.DeviceTopic, Stamp, ToData, AllDeclared, WithControls, Continues;
    hide Addressee, AsNodeMessage, ValidId;
    hide Connect, PublishBirths, PublishNodeData, PublishDeviceDeath, HandleIncoming, Disconnect, GoodSource;
    var ms, env, e, d := r.call.metrics, r.call.env, s.edge, r.call.device;
    if d in e.born {
      BornIsValid(cfg, s.src, e, n, d);
      var msg := Send(cfg.DeviceTopic(d, DData), DataPayload(cfg, e, ms, env.wall(0)), true);
      SmallOne(msg);
      DeviceLetter(cfg, d, DData, msg.message.payload);
      DeviceDataAdvances(cfg, e, s.src, d, ms, env.wall(0), n, debounce);
    }
  }

  lemma DeviceDeathSends(cfg: EdgeConfig, s: System, r: Round, n: NodeState, debounce: nat)
    requires r.call.DoDeviceDeath? && s.edge.state == Online && Joined(cfg, s.src, s.edge, n)
    requires Admissible(cfg, s, r.call)
    ensures SendsNext(cfg, debounce, s, n, EdgeStep(cfg, s.edge, r.call))
    ensures EdgeStep(cfg, s.edge, r.call).edge.state == Online
  {
    hide Joined, Encode.EncodePayload, EdgeConfig.DeviceTopic, WithControls, Continues, Addressee, AsNodeMessage;
    hide ValidId, Without;
    hide Connect, PublishBirths, PublishNodeData, PublishDeviceData, PublishDeviceDeath, HandleIncoming, Disconnect;
    hide GoodSource, Small, Edge.Sequenced;
    var env, e, d := r.call.env, s.edge, r.call.device;
    DeviceDeathEnd(cfg, e, d, env);
    if d in e.born {
      BornIsValid(cfg, s.src, e, n, d);
      var msg := Send(cfg.DeviceTopic(d, DDeath), Edge.Sequenced([], e.seqNo, env.wall(0)), false);
      SmallOne(msg);
      DeviceLetter(cfg, d, DDeath, msg.message.payload);
      DeviceDeathAdvances(cfg, e, s.src, d, env.wall(0), n, debounce);
    }
  }

  lemma IncomingSends(cfg: EdgeConfig, s: System, r: Round, n: NodeState, debounce: nat)
    requires r.call.DoIncoming? && s.edge.state == Online && WithinSession(cfg, s.edge, r.call)
    requires Admissible(cfg, s, r.call)
    ensures SendsNext(cfg, debounce, s, n, EdgeStep(cfg, s.edge, r.call))
    ensures EdgeStep(cfg, s.edge, r.call).edge.state == Online
  {
    hide HandleIncoming, PublishBirths, Disconnect, GoodSource, Small, Continues, Addressee, AsNodeMessage;
    hide Connect, PublishNodeData, PublishDeviceData, PublishDeviceDeath, AllDeclared, WithControls;
    var e, src, env := s.edge, r.call.src, r.call.env;
    var out := HandleIncoming(cfg, e, r.call.msg, src, env);
    IncomingCases(cfg, e, r.call.msg, src, env);
    if exists from :: SetsOffBirths(cfg, e, from, src, env, out) {
      var from :| SetsOffBirths(cfg, e, from, src, env, out);
      BirthsEnd(cfg, from, src, env, 0, 0);
    } else if exists from :: SetsOffLeaving(cfg, e, from, env, out) {
      var from :| SetsOffLeaving(cfg, e, from, env, out);
      LeavingSends(cfg, from, env);
    }
  }

  /** A disconnect that succeeds has sent something; otherwise the transport failed. */
  lemma LeavingSends(cfg: EdgeConfig, e: EdgeView, env: Env)
    ensures Disconnect(cfg, e, env).log == [] ==> Disconnect(cfg, e, env).result == Err(Transport)
  {
    hide Death;
  }

  lemma RoundSends(cfg: EdgeConfig, s: System, r: Round, n: NodeState, debounce: nat)
    requires WithinSession(cfg, s.edge, r.call) && Admissible(cfg, s, r.call)
    requires s.edge.state == Online && Joined(cfg, s.src, s.edge, n)
    ensures SendsNext(cfg, debounce, s, n, EdgeStep(cfg, s.edge, r.call))
    ensures EdgeStep(cfg, s.edge, r.call).edge.state == Online
    ensures Advance(cfg, s, r).src == s.src && Advance(cfg, s, r).edge == EdgeStep(cfg, s.edge, r.call).edge
  {
    hide Joined, Admissible, SendsNext, Edge.EdgeStep, HostAfter;
    match r.call
    case DoNodeData(_, _) => NodeDataSends(cfg, s, r, n, debounce);
    case DoDeviceData(_, _, _) => DeviceDataSends(cfg, s, r, n, debounce);
    case DoDeviceDeath(_, _) => DeviceDeathSends(cfg, s, r, n, debounce);
    case DoIncoming(_, _, _) => IncomingSends(cfg, s, r, n, debounce);
    case _ =>
  }

  lemma {:induction false} DataRun(cfg: EdgeConfig, s: System, rounds: seq<Round>, n: NodeState, debounce: nat)
    returns (last: EdgeView)
    requires AllWithin(cfg, s, rounds) && AllAdmissible(cfg, s, rounds) && s.edge.state == Online
    requires Joined(cfg, s.src, s.edge, n)
    ensures RunsInto(cfg, debounce, s.src, n, RunLog(cfg, s, rounds), last)
    decreases |rounds|
  {
    hide Joined, Admissible, WithinSession, Edge.EdgeStep, Advance, RunsInto, Addressee, AsNodeMessage, Continues;
    hide Onward;
    if rounds == [] {
      last := s.edge;
      RunsIntoNothing(cfg, debounce, s.src, s.edge, n, s.edge);
    } else {
      var out, next := EdgeStep(cfg, s.edge, rounds[0].call), Advance(cfg, s, rounds[0]);
      RoundSends(cfg, s, rounds[0], n, debounce);
      var rest := RunLog(cfg, next, rounds[1..]);
      if out.log == [] {
        SameJoined(cfg, s.src, s.edge, next.edge, n);
        last := DataRun(cfg, next, rounds[1..], n, debounce);
        Units(rest);
        assert RunLog(cfg, s, rounds) == rest;
      } else {
        var a := out.log[0];
        var m := AsNodeMessage(a.msg.message);
        assert out.log == [a];
        Continued(cfg, debounce, s.src, n, m, next.edge);
        last := DataRun(cfg, next, rounds[1..], Onward(debounce, Peer(cfg), n, m), debounce);
        RunsIntoCons(cfg, debounce, s.src, n, a, m, next.edge, rest, last);
        assert RunLog(cfg, s, rounds) == [a] + rest;
      }
    }
  }

  /** Everything one session publishes: its births, then its data and device deaths, whatever it receives in between. */
  ghost function SessionLetters(cfg: EdgeConfig, from: EdgeView, src: Source, env: Env, calls: nat, at: nat, h: Engine,
                                rounds: seq<Round>): seq<NodeMessage> {
    hide PublishBirths, Letters, RunLog;
    var births := PublishBirths(cfg, from, src, env, calls, at);
    Letters(births.log + RunLog(cfg, System(src, births.edge, h), rounds))
  }

  ghost predicate GoodSession(cfg: EdgeConfig, from: EdgeView, src: Source, env: Env, calls: nat, at: nat, h: Engine,
                              rounds: seq<Round>) {
    hide PublishBirths, AllAdmissible, AllWithin, GoodSource, Small, Distinct;
    var births := PublishBirths(cfg, from, src, env, calls, at);
    && GoodSource(cfg, src) && Distinct(cfg.devices) && births.result.Ok? && Small(births.log)
    && AllWithin(cfg, System(src, births.edge, h), rounds) && AllAdmissible(cfg, System(src, births.edge, h), rounds)
  }

  lemma BirthsUnfold(cfg: EdgeConfig, from: EdgeView, src: Source, env: Env, calls: nat, at: nat)
    requires PublishBirths(cfg, from, src, env, calls, at).result.Ok?
    ensures var rest := PublishDeviceBirths(cfg, NodeBorn(cfg, from, src), src, env, calls + 1, at + 1, cfg.devices);
      PublishBirths(cfg, from, src, env, calls, at) ==
        rest.(log := [Published(NodeBirthMessage(cfg, from, src, env.wall(at)))] + rest.log)
  {
    hide NodeBorn, NodeBirthMessage, PublishDeviceBirths;
  }

  lemma NodeBirthLetter(cfg: EdgeConfig, e: EdgeView, src: Source, ts: u64)
    ensures var msg := NodeBirthMessage(cfg, e, src, ts).message;
      Addressee(msg.topic).Some? && AsNodeMessage(msg) == NodeMessage(NBirth, "", msg.payload)
  {
    hide Addressee, AsNodeMessage, Encode.EncodePayload, NodeBirthMetrics, Stamp, EdgeConfig.NodeTopic;
    NodeLetter(cfg, NBirth, NodeBirthMessage(cfg, e, src, ts).message.payload);
  }

  /** The first message is an NBIRTH that opens the session; the rest run on from the state after it. */
  ghost predicate Opens(cfg: EdgeConfig, debounce: nat, node: Option<NodeState>, tick: Tick, letters: seq<NodeMessage>)
  {
    hide Host.NodeStep, Runs;
    && letters != [] && letters[0].ty.NBirth?
    && var o := NodeStep(debounce, Peer(cfg), node, letters[0], tick);
    && o.event.Ok? && o.event.value.NodeBirth? && o.node.Some? && o.node.value.online
    && Runs(debounce, Peer(cfg), o.node.value, letters[1..])
  }

  lemma SessionRuns(cfg: EdgeConfig, from: EdgeView, src: Source, env: Env, calls: nat, at: nat, h: Engine,
                    rounds: seq<Round>,
                    debounce: nat, node: Option<NodeState>, tick: Tick)
    requires GoodSession(cfg, from, src, env, calls, at, h, rounds)
    ensures Opens(cfg, debounce, node, tick, SessionLetters(cfg, from, src, env, calls, at, h, rounds))
  {
    hide PublishBirths, PublishDeviceBirths, GoodSource, Small, Distinct, AllAdmissible, AllWithin, Joined;
    hide NodeBorn, NodeBirthMessage, Stamp, NodeBirthMetrics;
    hide Host.NodeStep, Addressee, AsNodeMessage, Room, Letters, Runs, EndOf, RunLog;
    var births := PublishBirths(cfg, from, src, env, calls, at);
    var born := NodeBorn(cfg, from, src);
    BirthsUnfold(cfg, from, src, env, calls, at);
    BirthsEnd(cfg, from, src, env, calls, at);
    var rest := PublishDeviceBirths(cfg, born, src, env, calls + 1, at + 1, cfg.devices);
    var msg := NodeBirthMessage(cfg, from, src, env.wall(at));
    SmallTail(Published(msg), rest.log);
    NodeBirthLetter(cfg, from, src, env.wall(at));
    var m := NodeMessage(NBirth, "", msg.message.payload);
    NodeBirthJoins(cfg, from, src, env.wall(at), node, debounce, tick);
    var n := NodeStep(debounce, Peer(cfg), node, m, tick).node.value;
    JoinedOnline(cfg, src, born, n);
    RoomAtBirth(cfg, from, src);
    AllWaiting(cfg, born);
    DevicesRun(cfg, born, src, env, calls + 1, at + 1, cfg.devices, n, debounce);
    var mid := EndOf(debounce, Peer(cfg), n, Letters(rest.log));
    var data := RunLog(cfg, System(src, births.edge, h), rounds);
    var last := DataRun(cfg, System(src, births.edge, h), rounds, mid, debounce);
    RunsAppend(debounce, Peer(cfg), n, Letters(rest.log), Letters(data));
    Assoc([Published(msg)], rest.log, data);
    LettersAppend(rest.log, data);
    LetterCons(Published(msg), m, rest.log + data);
    assert ([m] + (Letters(rest.log) + Letters(data)))[1..] == Letters(rest.log) + Letters(data);
  }

  lemma JoinedOnline(cfg: EdgeConfig, src: Source, e: EdgeView, n: NodeState)
    requires Joined(cfg, src, e, n)
    ensures n.online
  {
    hide Understands, WithControls;
  }

  lemma AllWaiting(cfg: EdgeConfig, e: EdgeView)
    requires Distinct(cfg.devices) && e.born == []
    ensures Waiting(cfg, e, cfg.devices)
  {
  }

  /** The NBIRTH opens the session, and what the channel makes of the rest is reported as a prefix, in order. */
  ghost predicate ReportsPrefix(cfg: EdgeConfig, debounce: nat, node: Option<NodeState>, tick: Tick,
                                letters: seq<NodeMessage>, shots: seq<Channel.Shot>) {
    hide Host.NodeStep, Channel.Session, Channel.InOrder, Channel.Reported, StatesOf;
    && letters != [] && letters[0].ty.NBirth?
    && var o := NodeStep(debounce, Peer(cfg), node, letters[0], tick);
    && o.event.Ok? && o.event.value.NodeBirth? && o.node.Some?
    && var states := StatesOf(debounce, Peer(cfg), o.node.value, letters[1..]);
    && Channel.Session(debounce, Peer(cfg), states, letters[1..])
    && (Channel.ShotsOf(letters[1..], shots) ==>
          Channel.InOrder(debounce, Peer(cfg), states, letters[1..], 0,
                          Channel.Reported(debounce, Peer(cfg), o.node, letters[1..], shots)))
  }

  /**
   One edge session of at most 256 sequenced messages, whatever the edge receives in between without publishing births
   or leaving, its NBIRTH delivered once and first, the rest lost, duplicated and reordered at will, with any NDEATHs
   in between: the session events the host reports are those of messages 1, 2, up to some m, in order and once each,
   exactly as in an orderly run.
   */
  lemma ExactlyOncePrefix(cfg: EdgeConfig, from: EdgeView, src: Source, env: Env, calls: nat, at: nat, h: Engine,
                          rounds: seq<Round>,
                          debounce: nat, node: Option<NodeState>, tick: Tick, shots: seq<Channel.Shot>)
    requires GoodSession(cfg, from, src, env, calls, at, h, rounds)
    requires |SessionLetters(cfg, from, src, env, calls, at, h, rounds)| <= TWO8
    ensures ReportsPrefix(cfg, debounce, node, tick, SessionLetters(cfg, from, src, env, calls, at, h, rounds), shots)
  {
    hide SessionLetters, GoodSession, Host.NodeStep, Runs, Channel.Session, Channel.InOrder, Channel.Reported;
    hide Channel.ShotsOf, StatesOf;
    SessionRuns(cfg, from, src, env, calls, at, h, rounds, debounce, node, tick);
    var letters := SessionLetters(cfg, from, src, env, calls, at, h, rounds);
    var n := NodeStep(debounce, Peer(cfg), node, letters[0], tick).node.value;
    RunsMakeSession(debounce, Peer(cfg), n, letters[1..]);
    if Channel.ShotsOf(letters[1..], shots) {
      Channel.ReportsInOrder(debounce, Peer(cfg), StatesOf(debounce, Peer(cfg), n, letters[1..]), letters[1..], 0, n,
                             shots);
    }
  }
}
