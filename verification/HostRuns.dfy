/** What every run of one node's session keeps, for arbitrary messages and clocks (src/host.rs:479-747). */
module HostRuns {
  import opened Base
  import opened Model
  import opened Alias
  import opened Births
  import opened Decode
  import opened Topic
  import opened Names
  import opened Sequence
  import opened Host

  // ---- Runs ----

  datatype Arrival = Arrival(msg: NodeMessage, tick: Tick)

  ghost function Outcomes(debounce: nat, id: NodeId, node: Option<NodeState>, run: seq<Arrival>): (out: seq<Outcome>)
    ensures |out| == |run|
    decreases |run|
  {
    hide Host.NodeStep;
    if run == [] then []
    else
      var o := NodeStep(debounce, id, node, run[0].msg, run[0].tick);
      [o] + Outcomes(debounce, id, o.node, run[1..])
  }

  ghost function Final(debounce: nat, id: NodeId, node: Option<NodeState>, run: seq<Arrival>): Option<NodeState>
    decreases |run|
  {
    hide Host.NodeStep;
    if run == [] then node
    else Final(debounce, id, NodeStep(debounce, id, node, run[0].msg, run[0].tick).node, run[1..])
  }

  // ---- The ledger of a session ----

  /** What the messages say: the sequence number of the last NBIRTH, how many have passed since, and who was born. */
  datatype Ledger = NoBirth | Session(bdSeq: Option<i64>, first: byte, passed: nat, born: set<string>)

  /** The registry a payload of that type is decoded with. */
  function RegistryFor(n: NodeState, m: NodeMessage): Option<Registry> {
    if m.ty == NData then Some(n.aliases)
    else if m.ty == DData && m.device in n.devices then Some(n.devices[m.device].aliases)
    else None
  }

  /** An online node takes the message at its sequence check. */
  predicate Passes(node: Option<NodeState>, m: NodeMessage) {
    hide Decode.DecodePayload;
    && Live(node)
    && (m.ty.NData? || m.ty.DBirth? || m.ty.DDeath? || (m.ty.DData? && node.value.DeviceOnline(m.device)))
    && DecodePayload(m.payload, RegistryFor(node.value, m)).Ok?
    && DecodePayload(m.payload, RegistryFor(node.value, m)).value.seqNo == Some(node.value.expectedSeq)
  }

  function Born(born: set<string>, m: NodeMessage): set<string> {
    if m.ty.DBirth? then born + {m.device} else if m.ty.DDeath? then born - {m.device} else born
  }

  function Record(l: Ledger, node: Option<NodeState>, m: NodeMessage): Ledger {
    hide Decode.DecodePayload, Passes;
    if m.ty.NBirth? && DecodePayload(m.payload, None).Ok? then
      var p := DecodePayload(m.payload, None).value;
      Session(BdSeqOf(p.metrics), FirstSeq(p), 0, {})
    else if l.Session? && Passes(node, m) then l.(passed := l.passed + 1, born := Born(l.born, m))
    else l
  }

  ghost function Records(debounce: nat, id: NodeId, l: Ledger, node: Option<NodeState>, run: seq<Arrival>): Ledger
    decreases |run|
  {
    hide Host.NodeStep, Record;
    if run == [] then l
    else Records(debounce, id, Record(l, node, run[0].msg), NodeStep(debounce, id, node, run[0].msg, run[0].tick).node,
                 run[1..])
  }

  /** An online node is where its ledger says it is. */
  predicate Agrees(l: Ledger, node: Option<NodeState>) {
    Live(node) ==>
      && l.Session?
      && node.value.bdSeq == l.bdSeq
      && node.value.expectedSeq == Advanced(l.first, 1 + l.passed)
      && node.value.OnlineDevices() == l.born
  }

  lemma DevicesChange(devices: map<string, DeviceState>, device: string, aliases: Registry)
    ensures OnlineOf(map[]) == {}
    ensures OnlineOf(devices[device := DeviceState(true, aliases)]) == OnlineOf(devices) + {device}
    ensures OnlineOf(WithoutDevice(devices, device)) == OnlineOf(devices) - {device}
  {
  }

  /** Asking for a rebirth changes the debounce slot only. */
  lemma RebirthKeeps(debounce: nat, id: NodeId, node: Option<NodeState>, tick: Tick)
    ensures Rebirth(debounce, id, node, tick).node.Some?
    ensures Rebirth(debounce, id, node, tick).node.value.(lastRebirth := OrNew(node).lastRebirth) == OrNew(node)
  {
    hide RebirthCommand;
  }

  lemma StepAgrees(debounce: nat, id: NodeId, l: Ledger, node: Option<NodeState>, m: NodeMessage, tick: Tick)
    requires Agrees(l, node)
    ensures Agrees(Record(l, node, m), NodeStep(debounce, id, node, m, tick).node)
  {
    hide Decode.DecodePayload, Births.BindBirth, Host.Rebirth, Host.BdSeqOf, Host.ResolveNames;
    hide Host.OnlineOf, Host.WithoutDevice, Sequence.Next, Sequence.Advanced;
    RebirthKeeps(debounce, id, node, tick);
    if Live(node) {
      var n := node.value;
      RebirthKeeps(debounce, id, Some(n.(online := false)), tick);
      AdvancedStep(l.first, 1 + l.passed);
      if m.ty.DBirth? && DecodePayload(m.payload, None).Ok? {
        var bound := BindBirth(EMPTY, DecodePayload(m.payload, None).value.metrics);
        DevicesChange(n.devices, m.device, bound.registry);
        var next := n.(expectedSeq := Sequence.Next(n.expectedSeq),
                       devices := n.devices[m.device := DeviceState(true, bound.registry)]);
        RebirthKeeps(debounce, id, Some(next), tick);
      }
      DevicesChange(n.devices, m.device, EMPTY);
    }
    if m.ty.NBirth? && DecodePayload(m.payload, None).Ok? {
      var p := DecodePayload(m.payload, None).value;
      var born := Reborn(p, OrNew(node).lastRebirth);
      DevicesChange(map[], m.device, EMPTY);
      RebirthKeeps(debounce, id, Some(born), tick);
      AdvancedStep(FirstSeq(p), 0);
    }
  }

  /** Over every run the node stays where its ledger says, whatever the messages and clocks. */
  lemma {:induction false} SessionInvariant(debounce: nat, id: NodeId, l: Ledger, node: Option<NodeState>,
                                            run: seq<Arrival>)
    requires Agrees(l, node)
    ensures Agrees(Records(debounce, id, l, node, run), Final(debounce, id, node, run))
    decreases |run|
  {
    hide Agrees, Record, Host.NodeStep;
    if run != [] {
      StepAgrees(debounce, id, l, node, run[0].msg, run[0].tick);
      SessionInvariant(debounce, id, Record(l, node, run[0].msg),
                       NodeStep(debounce, id, node, run[0].msg, run[0].tick).node, run[1..]);
    }
  }

  /**
   After any run from scratch, a node death is reported exactly for a real bdSeq equal to that
   of the last NBIRTH while online; it lists the devices whose last accepted DBIRTH or DDEATH in that
   session was a DBIRTH, sorted, and it ends the session.
   */
  lemma DeathReport(debounce: nat, id: NodeId, run: seq<Arrival>, m: NodeMessage, tick: Tick)
    ensures
      var node, l := Final(debounce, id, None, run), Records(debounce, id, NoBirth, None, run);
      var o := NodeStep(debounce, id, node, m, tick);
      && ((o.event.Ok? && o.event.value.NodeDeath?) <==>
           (m.ty.NDeath? && Live(node) && l.Session? && l.bdSeq.Some?
            && DecodePayload(m.payload, None).Ok? && BdSeqOf(DecodePayload(m.payload, None).value.metrics) == l.bdSeq))
      && (o.event.Ok? && o.event.value.NodeDeath? ==>
           o.event.value.devices == Listing(l.born) && o.node == Some(Offline(node.value))
           && OnlineOf(Offline(node.value).devices) == {})
  {
    hide Decode.DecodePayload, Births.BindBirth, Host.Rebirth, Host.BdSeqOf, Host.ResolveNames, Final, Records;
    hide Record, Names.Listing;
    hide Host.WithoutDevice, Sequence.Next;
    SessionInvariant(debounce, id, NoBirth, None, run);
    RebirthReports(debounce, id);
  }

  lemma RebirthReports(debounce: nat, id: NodeId)
    ensures forall node, tick :: var o := Rebirth(debounce, id, node, tick);
      o.event == Ok(RebirthRequested(id.group, id.edge)) || o.event == Ok(Ignored) || o.event == Err(Transport)
  {
    hide RebirthCommand;
  }

  // ---- Births open a session, nothing else does ----

  /** An NBIRTH that decodes and whose aliases do not clash. */
  ghost predicate CleanBirth(m: NodeMessage) {
    m.ty.NBirth? && DecodePayload(m.payload, None).Ok? && !Clash(DecodePayload(m.payload, None).value.metrics)
  }

  /** Events that speak for an open session. */
  predicate Reports(e: Result<HostEvent>) {
    e.Ok? && (e.value.NodeData? || e.value.DeviceBirth? || e.value.DeviceData? || e.value.DeviceDeath?)
  }

  /**
   A birth event comes exactly from a clean NBIRTH, and a session event exactly from a message that passes the
   sequence check (a DBIRTH also needs aliases without a clash). A node that was not online is online
   afterwards exactly when the message is a clean NBIRTH.
   */
  lemma EventsExactly(debounce: nat, id: NodeId, node: Option<NodeState>, m: NodeMessage, tick: Tick)
    ensures var o := NodeStep(debounce, id, node, m, tick);
      && ((o.event.Ok? && o.event.value.NodeBirth?) <==> CleanBirth(m))
      && (Reports(o.event) <==>
           Passes(node, m) && (m.ty.DBirth? ==> !Clash(DecodePayload(m.payload, None).value.metrics)))
      && (!Live(node) ==> (Live(o.node) <==> CleanBirth(m)))
      && (o.event.Ok? && o.event.value.NodeDeath? ==> Live(node) && !Live(o.node))
  {
    hide Decode.DecodePayload, Births.BindBirth, Births.Clash, Host.Rebirth, Host.BdSeqOf, Host.ResolveNames;
    hide Names.Listing;
    RebirthReports(debounce, id);
    RebirthKeeps(debounce, id, node, tick);
    if DecodePayload(m.payload, None).Ok? {
      var p := DecodePayload(m.payload, None).value;
      BirthFolding(p.metrics);
      RebirthKeeps(debounce, id, Some(Reborn(p, OrNew(node).lastRebirth)), tick);
    }
  }

  /** Once offline, a node is silent until a clean NBIRTH: no session event and no death comes from it. */
  lemma {:induction false} SilentUntilBirth(debounce: nat, id: NodeId, node: Option<NodeState>, run: seq<Arrival>)
    requires !Live(node) && forall a <- run :: !CleanBirth(a.msg)
    ensures !Live(Final(debounce, id, node, run))
    ensures forall o <- Outcomes(debounce, id, node, run) ::
      !Reports(o.event) && (o.event.Ok? ==> !o.event.value.NodeBirth? && !o.event.value.NodeDeath?)
    decreases |run|
  {
    hide Host.NodeStep, CleanBirth, Decode.DecodePayload;
    if run != [] {
      assert run[0] in run && forall a <- run[1..] :: a in run;
      EventsExactly(debounce, id, node, run[0].msg, run[0].tick);
      var first := NodeStep(debounce, id, node, run[0].msg, run[0].tick);
      SilentUntilBirth(debounce, id, first.node, run[1..]);
      var rest := Outcomes(debounce, id, first.node, run[1..]);
      assert Outcomes(debounce, id, node, run) == [first] + rest;
    }
  }

  // ---- How often rebirths are asked for ----

  function Requests(outs: seq<Outcome>): nat {
    if outs == [] then 0 else (if outs[0].sent != [] then 1 else 0) + Requests(outs[1..])
  }

  ghost predicate Monotone(run: seq<Arrival>) {
    forall i, j :: 0 <= i < j < |run| ==> run[i].tick.instant <= run[j].tick.instant
  }

  /** The debounce slot is free: no request yet, or the last one at least `debounce` ago on a clock that saturates. */
  predicate Due(last: Option<nat>, debounce: nat, instant: nat) {
    last.None? || debounce == 0 || last.value + debounce <= instant
  }

  /** A step keeps the debounce slot, or takes it when it is free; it sends only when it takes it. */
  lemma SlotStep(debounce: nat, id: NodeId, node: Option<NodeState>, m: NodeMessage, tick: Tick)
    ensures var o := NodeStep(debounce, id, node, m, tick);
      || (o.sent == [] && OrNew(o.node).lastRebirth == OrNew(node).lastRebirth)
      || (Due(OrNew(node).lastRebirth, debounce, tick.instant) && OrNew(o.node).lastRebirth == Some(tick.instant))
  {
    hide Decode.DecodePayload, Births.BindBirth, Host.BdSeqOf, Host.ResolveNames, Names.Listing, RebirthCommand;
  }

  lemma RequestsCons(debounce: nat, id: NodeId, node: Option<NodeState>, run: seq<Arrival>)
    requires run != []
    ensures var o := NodeStep(debounce, id, node, run[0].msg, run[0].tick);
      Requests(Outcomes(debounce, id, node, run)) ==
        (if o.sent != [] then 1 else 0) + Requests(Outcomes(debounce, id, o.node, run[1..]))
  {
    hide Host.NodeStep;
    var o := NodeStep(debounce, id, node, run[0].msg, run[0].tick);
    assert Outcomes(debounce, id, node, run)[1..] == Outcomes(debounce, id, o.node, run[1..]);
  }

  lemma Distribute(n: nat, d: nat)
    ensures (1 + n) * d == n * d + d
  {
  }

  lemma LaterRun(run: seq<Arrival>)
    requires run != [] && Monotone(run)
    ensures Monotone(run[1..]) && run[0] in run
    ensures forall a <- run[1..] :: a in run && run[0].tick.instant <= a.tick.instant
  {
    forall a | a in run[1..] ensures a in run && run[0].tick.instant <= a.tick.instant {
      var i :| 0 <= i < |run| - 1 && run[1..][i] == a;
      assert run[i + 1] == a;
    }
  }

  lemma {:induction false} RequestsSpaced(debounce: nat, id: NodeId, node: Option<NodeState>, run: seq<Arrival>,
                                          end: nat)
    requires Monotone(run) && forall a <- run :: a.tick.instant <= end
    requires OrNew(node).lastRebirth.Some? && OrNew(node).lastRebirth.value <= end
    requires forall a <- run :: OrNew(node).lastRebirth.value <= a.tick.instant
    ensures Requests(Outcomes(debounce, id, node, run)) * debounce <= end - OrNew(node).lastRebirth.value
    decreases |run|
  {
    hide Host.NodeStep, Outcomes, Requests, Monotone;
    if run == [] {
      NoRequests(debounce, id, node);
    } else {
      var o := NodeStep(debounce, id, node, run[0].msg, run[0].tick);
      SlotStep(debounce, id, node, run[0].msg, run[0].tick);
      LaterRun(run);
      RequestsCons(debounce, id, node, run);
      RequestsSpaced(debounce, id, o.node, run[1..], end);
      Distribute(Requests(Outcomes(debounce, id, o.node, run[1..])), debounce);
    }
  }

  lemma NoRequests(debounce: nat, id: NodeId, node: Option<NodeState>)
    ensures Requests(Outcomes(debounce, id, node, [])) == 0
  {
  }

  lemma {:induction false} RequestsFromAny(debounce: nat, id: NodeId, node: Option<NodeState>, run: seq<Arrival>,
                                           start: nat, end: nat)
    requires Monotone(run) && start <= end && forall a <- run :: start <= a.tick.instant <= end
    ensures Requests(Outcomes(debounce, id, node, run)) * debounce <= end - start + debounce
    decreases |run|
  {
    hide Host.NodeStep, Outcomes, Requests, Monotone;
    if run == [] {
      NoRequests(debounce, id, node);
    } else {
      var o := NodeStep(debounce, id, node, run[0].msg, run[0].tick);
      SlotStep(debounce, id, node, run[0].msg, run[0].tick);
      LaterRun(run);
      RequestsCons(debounce, id, node, run);
      Distribute(Requests(Outcomes(debounce, id, o.node, run[1..])), debounce);
      if OrNew(o.node).lastRebirth == Some(run[0].tick.instant) {
        RequestsSpaced(debounce, id, o.node, run[1..], end);
      } else {
        RequestsFromAny(debounce, id, o.node, run[1..], start, end);
      }
    }
  }

  /** On a monotone clock, a window of length `window` holds at most window / debounce + 1 rebirth requests. */
  lemma RebirthRate(debounce: nat, id: NodeId, node: Option<NodeState>, run: seq<Arrival>, start: nat, window: nat)
    requires debounce > 0 && Monotone(run) && forall a <- run :: start <= a.tick.instant <= start + window
    ensures Requests(Outcomes(debounce, id, node, run)) <= window / debounce + 1
  {
    hide Outcomes, Requests;
    RequestsFromAny(debounce, id, node, run, start, start + window);
    Quotient(Requests(Outcomes(debounce, id, node, run)), debounce, window);
  }

  lemma Quotient(n: nat, d: nat, w: nat)
    requires d > 0 && n * d <= w + d
    ensures n <= w / d + 1
  {
    var q := w / d;
    Distribute(q, d);
    Distribute(1 + q, d);
    if n >= 2 + q { Monotonic(2 + q, n, d); }
  }

  lemma Monotonic(a: nat, b: nat, d: nat)
    requires a <= b
    ensures a * d <= b * d
  {
  }
}
