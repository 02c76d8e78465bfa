/** The Edge Node engine in its own form: methods that update its fields (src/edge.rs:148-650). */
module EdgeIO {
  import opened Base
  import opened Model
  import opened Alias
  import opened Births
  import opened Topic
  import opened Names
  import opened Messages
  import opened Sequence
  import opened Edge
  import Encode
  import Decode
  import EncodeIO
  import DecodeIO
  import S = HostState

  /** Every metric without a timestamp gets one, in place. */
  method StampAll(ms: seq<Metric>, ts: u64) returns (out: seq<Metric>)
    ensures out == Stamp(ms, ts)
  {
    out := ms;
    for i := 0 to |ms|
      invariant |out| == |ms|
      invariant forall k :: 0 <= k < i ==> out[k] == Stamped(ms[k], ts)
      invariant forall k :: i <= k < |ms| ==> out[k] == ms[k]
    {
      if out[i].timestamp.None? { out := out[i := out[i].(timestamp := Some(ts))]; }
    }
  }

  /** Whether some metric has that name. */
  method Named(ms: seq<Metric>, name: Str) returns (found: bool)
    ensures found == Mentions(ms, name)
  {
    for i := 0 to |ms|
      invariant forall k :: 0 <= k < i ==> ms[k].name != Some(name)
    {
      if ms[i].name == Some(name) {
        assert ms[i] in ms;
        return true;
      }
    }
    found := false;
  }

  method RebirthAsked(p: Payload) returns (asked: bool)
    ensures asked == AsksRebirth(p)
  {
    hide Base.ValidUtf8;
    for i := 0 to |p.metrics|
      invariant forall k :: 0 <= k < i ==>
        !(p.metrics[k].name == Some(REBIRTH) && p.metrics[k].value == Basic(Boolean(true)))
    {
      if p.metrics[i].name == Some(REBIRTH) && p.metrics[i].value == Basic(Boolean(true)) {
        assert p.metrics[i] in p.metrics;
        return true;
      }
    }
    asked := false;
  }

  class EdgeNode {
    const cfg: EdgeConfig
    const store: InMemoryBdSeqStore
    const counter: Seq
    const aliases: AliasRegistry
    var bdSeq: byte
    var nextAlias: u64
    var born: seq<string>
    var lastRebirth: Option<nat>
    var lastStateTs: Option<i64>
    var state: EdgeState
    /** Everything the transport has done. */
    var log: seq<Action>

    constructor (cfg: EdgeConfig, store: InMemoryBdSeqStore)
      ensures this.cfg == cfg && this.store == store && fresh(counter) && fresh(aliases)
      ensures View() == EdgeView(0, 0, store.value, EMPTY, 0, [], None, None, Disconnected) && log == []
    {
      this.cfg, this.store := cfg, store;
      counter := new Seq();
      aliases := new AliasRegistry();
      bdSeq, nextAlias, born, lastRebirth, lastStateTs, state, log := 0, 0, [], None, None, Disconnected, [];
    }

    function View(): EdgeView
      reads this, store, counter, aliases
    {
      EdgeView(counter.value, bdSeq, store.value, aliases.View(), nextAlias, born, lastRebirth, lastStateTs, state)
    }

    /** The state, the log and the result are what the call computes from the state before. */
    ghost predicate Did<T>(past: seq<Action>, out: EdgeOut<T>, r: Result<T>)
      reads this, store, counter, aliases
    {
      View() == out.edge && log == past + out.log && r == out.result
    }

    /** The transport does it while the budget of successful calls lasts. */
    method Attempt(action: Action, env: Env, calls: nat) returns (ok: bool)
      modifies this`log
      ensures ok == (calls < env.budget) && log == if ok then old(log) + [action] else old(log)
    {
      ok := calls < env.budget;
      if ok { log := log + [action]; }
    }

    method AssignAliases(ms: seq<Metric>) returns (out: seq<Metric>)
      modifies this`nextAlias, aliases
      ensures var a := Assign(cfg, old(aliases.View()), old(nextAlias), ms);
        out == a.metrics && aliases.View() == a.aliases && nextAlias == a.next
    {
      hide Base.ValidUtf8, MetricValue.Type;
      out := [];
      if !cfg.useAliases { return ms; }
      assert ms[0..] == ms;
      for i := 0 to |ms|
        invariant var a, rest := AssignAll(old(aliases.View()), old(nextAlias), ms),
          AssignAll(aliases.View(), nextAlias, ms[i..]);
          a.metrics == out + rest.metrics && a.aliases == rest.aliases && a.next == rest.next
      {
        assert ms[i..][1..] == ms[i + 1..];
        var m := ms[i];
        if m.name.Some? && m.name.value != REBIRTH && m.name.value != BDSEQ {
          var alias := nextAlias;
          nextAlias := (nextAlias + 1) % TWO64;
          aliases.Bind(m.name.value, Some(alias), m.value.Type());
          m := m.(alias := Some(alias));
        }
        Assoc(out, [m], AssignAll(aliases.View(), nextAlias, ms[i + 1..]).metrics);
        out := out + [m];
      }
      Units(out);
    }

    method BuildNodeBirthMetrics(src: Source) returns (out: seq<Metric>)
      modifies this`nextAlias, aliases
      ensures var a := Assign(cfg, old(aliases.View()), old(nextAlias), WithControls(src.node, bdSeq));
        out == a.metrics && aliases.View() == a.aliases && nextAlias == a.next
    {
      hide Assign, Base.ValidUtf8, Mentions;
      var metrics := src.node;
      var named := Named(metrics, REBIRTH);
      if !named { metrics := metrics + [Control(REBIRTH, Boolean(false))]; }
      named := Named(metrics, BDSEQ);
      if !named { metrics := metrics + [Control(BDSEQ, Int64(bdSeq))]; }
      out := AssignAliases(metrics);
    }

    method PublishDeviceBirth(src: Source, device: Id, env: Env, calls: nat, at: nat) returns (r: Result<()>)
      modifies this, counter, aliases
      ensures store.value == old(store.value)
      ensures var built := DeviceAssigned(cfg, old(View()), src, device);
        if calls >= env.budget then Did(old(log), EdgeOut(built, [], Err(Transport)), r)
        else Did(old(log), EdgeOut(built.(born := old(born) + [device]),
                   [Published(DeviceBirthMessage(cfg, old(View()), src, device, env.wall(at)))], Ok(())), r)
    {
      hide Assign, Encode.EncodePayload, Stamp, EdgeConfig.DeviceTopic;
      var ts := env.wall(at);
      var metrics := AssignAliases(src.device(device));
      metrics := StampAll(metrics, ts);
      var seqNo := counter.NextValue();
      var bytes := EncodeIO.EncodePayload(Sequenced(metrics, seqNo, ts), false);
      var ok := Attempt(Published(Outbound(Message(cfg.DeviceTopic(device, DBirth), bytes), AtMostOnce, false)), env,
                        calls);
      if !ok { return Err(Transport); }
      born := born + [device];
      r := Ok(());
    }

    method PublishNodeBirth(src: Source, env: Env, calls: nat, at: nat) returns (r: Result<()>)
      modifies this, counter, aliases
      ensures store.value == old(store.value)
      ensures var born := NodeBorn(cfg, old(View()), src);
        if calls >= env.budget then Did(old(log), EdgeOut(born, [], Err(Transport)), r)
        else Did(old(log), EdgeOut(born, [Published(NodeBirthMessage(cfg, old(View()), src, env.wall(at)))], Ok(())), r)
    {
      hide Assign, Encode.EncodePayload, Stamp, EdgeConfig.NodeTopic, WithControls;
      counter.Reset();
      if cfg.useAliases {
        aliases.Clear();
        nextAlias := 0;
      }
      born := [];
      var ts := env.wall(at);
      var metrics := BuildNodeBirthMetrics(src);
      metrics := StampAll(metrics, ts);
      var seqNo := counter.NextValue();
      var bytes := EncodeIO.EncodePayload(Sequenced(metrics, seqNo, ts), false);
      var ok := Attempt(Published(Outbound(Message(cfg.NodeTopic(NBirth), bytes), AtMostOnce, false)), env, calls);
      r := if ok then Ok(()) else Err(Transport);
    }

    method PublishBirthSequence(src: Source, env: Env, calls: nat, at: nat) returns (r: Result<()>)
      modifies this, counter, aliases
      ensures store.value == old(store.value)
      ensures Did(old(log), PublishBirths(cfg, old(View()), src, env, calls, at), r)
    {
      hide NodeBorn, NodeBirthMessage, PublishDeviceBirths;
      r := PublishNodeBirth(src, env, calls, at);
      if r.Ok? {
        Assoc(old(log), [Published(NodeBirthMessage(cfg, old(View()), src, env.wall(at)))],
              PublishDeviceBirths(cfg, View(), src, env, calls + 1, at + 1, cfg.devices).log);
        r := PublishDevices(src, env, calls + 1, at + 1);
      }
    }

    method PublishDevices(src: Source, env: Env, calls: nat, at: nat) returns (r: Result<()>)
      modifies this, counter, aliases
      ensures store.value == old(store.value)
      ensures Did(old(log), PublishDeviceBirths(cfg, old(View()), src, env, calls, at, cfg.devices), r)
    {
      hide DeviceAssigned, DeviceBirthMessage;
      ghost var past, out := log, PublishDeviceBirths(cfg, View(), src, env, calls, at, cfg.devices);
      ghost var done: seq<Action> := [];
      Units(past);
      Units(out.log);
      assert cfg.devices[0..] == cfg.devices;
      for i := 0 to |cfg.devices|
        invariant store.value == old(store.value) && log == past + done
        invariant var rest := PublishDeviceBirths(cfg, View(), src, env, calls + i, at + i, cfg.devices[i..]);
          out == rest.(log := done + rest.log)
      {
        assert cfg.devices[i..][0] == cfg.devices[i] && cfg.devices[i..][1..] == cfg.devices[i + 1..];
        ghost var e := View();
        r := PublishDeviceBirth(src, cfg.devices[i], env, calls + i, at + i);
        if r.Err? {
          Units(past + done);
          Units(done);
          return;
        }
        ghost var msg := Published(DeviceBirthMessage(cfg, e, src, cfg.devices[i], env.wall(at + i)));
        Assoc(past, done, [msg]);
        Assoc(done, [msg],
              PublishDeviceBirths(cfg, View(), src, env, calls + i + 1, at + i + 1, cfg.devices[i + 1..]).log);
        done := done + [msg];
      }
      Units(done);
      state := Online;
      r := Ok(());
    }

    // ---- Connecting ----

    /** The subscriptions to device commands, in order. */
    method SubscribeDevices(env: Env, calls: nat) returns (ok: bool)
      modifies this`log
      ensures ok == (calls + |cfg.devices| <= env.budget || cfg.devices == [])
      ensures ok ==> log == old(log) + Commands(cfg, cfg.devices)
      ensures !ok ==>
        log == old(log) + Commands(cfg, cfg.devices)[..Room(env.budget, calls, |Commands(cfg, cfg.devices)|)]
    {
      ghost var all := Commands(cfg, cfg.devices);
      CommandsAt(cfg, cfg.devices);
      ok := true;
      for i := 0 to |cfg.devices|
        invariant log == old(log) + all[..i] && (calls + i <= env.budget || i == 0)
      {
        ok := Attempt(Subscribed(cfg.DeviceTopic(cfg.devices[i], DCmd), AtLeastOnce), env, calls + i);
        if !ok { return; }
        assert all[..i + 1] == all[..i] + [all[i]];
      }
      assert all[..|all|] == all;
    }

    /** The connection with its will, then the subscriptions, up to the first failure. */
    method OpenSession(will: Outbound, env: Env) returns (ok: bool)
      modifies this`log
      ensures var p := Prelude(cfg, will);
        ok == (|p| <= env.budget) && log == old(log) + (if ok then p else p[..env.budget])
    {
      hide EdgeConfig.NodeTopic, EdgeConfig.DeviceTopic, Commands;
      ghost var past, p, all := log, Prelude(cfg, will), Commands(cfg, cfg.devices);
      CommandsAt(cfg, cfg.devices);
      var open := [Connected(will), Subscribed(cfg.NodeTopic(NCmd), AtLeastOnce)];
      assert p[0] == open[0] && p[1] == open[1] && p[..0] == [] && p[..1] == [open[0]] && p[..2] == open;
      ok := Attempt(open[0], env, 0);
      if !ok { return; }
      ok := Attempt(open[1], env, 1);
      if !ok { return; }
      Assoc(past, [open[0]], [open[1]]);
      assert [open[0]] + [open[1]] == open;
      ok := SubscribeDevices(env, 2);
      if !ok {
        PreludeCut(cfg, will, env.budget);
        Assoc(past, open, all[..env.budget - 2]);
        return;
      }
      Assoc(past, open, all);
      if cfg.primaryHost.Some? {
        var last := Subscribed("spBv1.0/STATE/" + cfg.primaryHost.value, AtLeastOnce);
        assert p == (open + all) + [last];
        ok := Attempt(last, env, 2 + |cfg.devices|);
        if ok {
          Assoc(past, open + all, [last]);
        } else {
          assert p[..env.budget] == open + all;
        }
      } else {
        Units(open + all);
      }
    }

    method Connect(src: Source, env: Env) returns (r: Result<()>)
      modifies this, store, counter, aliases
      ensures Did(old(log), Edge.Connect(cfg, old(View()), src, env), r)
    {
      hide Encode.EncodePayload, EdgeConfig.NodeTopic, PublishBirths, Prelude;
      ghost var past := log;
      bdSeq := store.LoadNextDeath();
      store.StoreNextDeath(Next(bdSeq));
      var payload := EncodeIO.EncodePayload(DeathPayload(bdSeq, env.wall(0)), false);
      var will := Outbound(Message(cfg.NodeTopic(NDeath), payload), AtLeastOnce, false);
      var ok := OpenSession(will, env);
      if !ok { return Err(Transport); }
      if cfg.primaryHost.Some? {
        state := WaitingForPrimaryHost;
        return Ok(());
      }
      var calls := 2 + |cfg.devices|;
      PreludeLength(cfg, will);
      Assoc(past, Prelude(cfg, will), PublishBirths(cfg, View(), src, env, calls, 1).log);
      r := PublishBirthSequence(src, env, calls, 1);
    }

    // ---- Data and deaths ----

    method PublishNodeData(ms: seq<Metric>, env: Env) returns (r: Result<()>)
      modifies this`log, counter
      ensures Did(old(log), Edge.PublishNodeData(cfg, old(View()), ms, env), r)
    {
      hide Encode.EncodePayload, EdgeConfig.NodeTopic, Stamp, ToData;
      if state != Online { return Err(InvalidTopic); }
      var ts := env.wall(0);
      var data := StampAll(ToData(cfg, aliases.View(), ms), ts);
      var seqNo := counter.NextValue();
      var bytes := EncodeIO.EncodePayload(Sequenced(data, seqNo, ts), true);
      var ok := Attempt(Published(Outbound(Message(cfg.NodeTopic(NData), bytes), AtMostOnce, false)), env, 0);
      r := if ok then Ok(()) else Err(Transport);
    }

    method PublishDeviceData(device: string, ms: seq<Metric>, env: Env) returns (r: Result<()>)
      modifies this`log, counter
      ensures Did(old(log), Edge.PublishDeviceData(cfg, old(View()), device, ms, env), r)
    {
      hide Encode.EncodePayload, EdgeConfig.DeviceTopic, Stamp, ToData, ValidId;
      if device !in born { return Err(InvalidTopic); }
      if !ValidId(device) { return Err(InvalidId); }
      var ts := env.wall(0);
      var data := StampAll(ToData(cfg, aliases.View(), ms), ts);
      var seqNo := counter.NextValue();
      var bytes := EncodeIO.EncodePayload(Sequenced(data, seqNo, ts), true);
      var ok := Attempt(Published(Outbound(Message(cfg.DeviceTopic(device, DData), bytes), AtMostOnce, false)), env, 0);
      r := if ok then Ok(()) else Err(Transport);
    }

    method PublishDeviceDeath(device: string, env: Env) returns (r: Result<()>)
      modifies this`log, this`born, counter
      ensures Did(old(log), Edge.PublishDeviceDeath(cfg, old(View()), device, env), r)
    {
      hide Encode.EncodePayload, EdgeConfig.DeviceTopic, ValidId;
      if device !in born { return Err(InvalidTopic); }
      var pos := PositionOf(born, device);
      if !ValidId(device) { return Err(InvalidId); }
      var seqNo := counter.NextValue();
      var bytes := EncodeIO.EncodePayload(Sequenced([], seqNo, env.wall(0)), false);
      var ok := Attempt(Published(Outbound(Message(cfg.DeviceTopic(device, DDeath), bytes), AtMostOnce, false)), env,
                        0);
      if !ok { return Err(Transport); }
      born := born[..pos] + born[pos + 1..];
      r := Ok(());
    }

    method Disconnect(env: Env) returns (r: Result<()>)
      modifies this`log, this`state
      ensures Did(old(log), Edge.Disconnect(cfg, old(View()), env), r)
    {
      hide Encode.EncodePayload, EdgeConfig.NodeTopic;
      ghost var past := log;
      var bytes := EncodeIO.EncodePayload(DeathPayload(bdSeq, env.wall(0)), false);
      var death := Published(Outbound(Message(cfg.NodeTopic(NDeath), bytes), AtLeastOnce, false));
      var ok := Attempt(death, env, 0);
      if !ok { return Err(Transport); }
      ok := Attempt(Closed, env, 1);
      if !ok { return Err(Transport); }
      Assoc(past, [death], [Closed]);
      assert [death] + [Closed] == [death, Closed];
      state := Disconnected;
      r := Ok(());
    }

    // ---- Inbound messages ----

    method OnNodeCommand(payload: bytes, src: Source, env: Env) returns (r: Result<EdgeEvent>)
      modifies this, counter, aliases
      ensures Did(old(log), Edge.OnNodeCommand(cfg, old(View()), payload, src, env), r)
    {
      hide Decode.DecodePayload, PublishBirths, AsksRebirth;
      var decoded := DecodeIO.DecodePayload(payload, Some(aliases.View()));
      if decoded.Err? { return Err(decoded.error); }
      var asked := RebirthAsked(decoded.value);
      if !asked { return Ok(NodeCommand(decoded.value)); }
      if lastRebirth.Some? && Elapsed(lastRebirth.value, env.checked) < cfg.debounce { return Ok(RebirthDebounced); }
      var done := PublishBirthSequence(src, env, 0, 0);
      if done.Err? { return Err(done.error); }
      lastRebirth := Some(env.done);
      r := Ok(Rebirthed);
    }

    method OnHostState(hostId: string, payload: bytes, src: Source, env: Env) returns (r: Result<EdgeEvent>)
      modifies this, counter, aliases
      ensures Did(old(log), Edge.OnHostState(cfg, old(View()), hostId, payload, src, env), r)
    {
      hide PublishBirths, Edge.Disconnect, S.ParseState, Utf8Chars, Base.ValidUtf8;
      if cfg.primaryHost != Some(hostId) { return Ok(Ignored); }
      if !ValidUtf8(payload) { return Err(InvalidUtf8); }
      var read := S.Parse(Utf8Chars(payload));
      if read.Err? { return Err(read.error); }
      var s := read.value;
      if lastStateTs.Some? && s.timestamp < lastStateTs.value { return Ok(Ignored); }
      lastStateTs := Some(s.timestamp);
      if s.online {
        if state == WaitingForPrimaryHost {
          var done := PublishBirthSequence(src, env, 0, 0);
          if done.Err? { return Err(done.error); }
        }
      } else if state == Online {
        var done := Disconnect(env);
        if done.Err? { return Err(done.error); }
      }
      r := Ok(PrimaryHostState(s));
    }

    method HandleIncoming(m: Message, src: Source, env: Env) returns (r: Result<EdgeEvent>)
      modifies this, counter, aliases
      ensures Did(old(log), Edge.HandleIncoming(cfg, old(View()), m, src, env), r)
    {
      hide Topic.Parse, Edge.OnNodeCommand, Edge.OnHostState, Decode.DecodePayload;
      match Parse(m.topic)
      case Err(e) => r := Err(e);
      case Ok(Node(_, _, ty)) =>
        if ty == NCmd { r := OnNodeCommand(m.payload, src, env); } else { r := Ok(Ignored); }
      case Ok(Device(_, _, d, ty)) =>
        if ty == DCmd {
          var decoded := DecodeIO.DecodePayload(m.payload, Some(aliases.View()));
          r := if decoded.Ok? then Ok(DeviceCommand(d, decoded.value)) else Err(decoded.error);
        } else {
          r := Ok(Ignored);
        }
      case Ok(HostState(hostId)) => r := OnHostState(hostId, m.payload, src, env);
    }
  }

  lemma PreludeCut(cfg: EdgeConfig, will: Outbound, n: nat)
    requires 2 <= n < 2 + |Commands(cfg, cfg.devices)|
    ensures n <= |Prelude(cfg, will)|
    ensures Prelude(cfg, will)[..n] ==
      [Connected(will), Subscribed(cfg.NodeTopic(NCmd), AtLeastOnce)] + Commands(cfg, cfg.devices)[..n - 2]
  {
    hide EdgeConfig.NodeTopic, Commands;
  }

  lemma PreludeLength(cfg: EdgeConfig, will: Outbound)
    requires cfg.primaryHost.None?
    ensures |Prelude(cfg, will)| == 2 + |cfg.devices|
  {
    hide EdgeConfig.NodeTopic, Commands;
    CommandsAt(cfg, cfg.devices);
  }

  /** How many of `n` further calls the budget covers. */
  function Room(budget: nat, calls: nat, n: nat): (m: nat)
    ensures m <= n
  {
    if budget < calls then 0 else if budget - calls < n then budget - calls else n
  }

  lemma {:induction false} CommandsAt(cfg: EdgeConfig, devices: seq<Id>)
    ensures |Commands(cfg, devices)| == |devices|
    ensures forall i :: 0 <= i < |devices| ==>
      Commands(cfg, devices)[i] == Subscribed(cfg.DeviceTopic(devices[i], DCmd), AtLeastOnce)
    decreases |devices|
  {
    hide EdgeConfig.DeviceTopic;
    if devices != [] { CommandsAt(cfg, devices[1..]); }
  }
}
