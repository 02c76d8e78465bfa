/**
 One session over a channel that loses, duplicates and reorders: the host reports a prefix of what the
 edge published, in order and each message once (src/host.rs:529-718, src/sequence.rs:32-41).
 */
module Channel {
  import opened Base
  import opened Wire
  import opened Model
  import opened Alias
  import opened Births
  import opened Encode
  import opened Decode
  import opened RoundTripParts
  import opened RoundTrip
  import opened Topic
  import opened Messages
  import opened Sequence
  import opened Host
  import opened HostRuns
  import Names

  // ---- The sequence number survives any registry ----

  lemma SeqNoStep(types: Option<Registry>, p: Payload, f: Field)
    requires !(f.VarintF? && f.num == 3) && Step(types, 0, PayloadAcc(p), f).Ok?
    ensures Step(types, 0, PayloadAcc(p), f).value.PayloadAcc?
    ensures Step(types, 0, PayloadAcc(p), f).value.payload.seqNo == p.seqNo
  {
    hide Decode.DecodeMetric;
  }

  lemma {:induction false} SeqNoUntouched(types: Option<Registry>, p: Payload, fs: seq<Field>)
    requires Fold(types, 0, PayloadAcc(p), fs).Ok? && forall f <- fs :: !(f.VarintF? && f.num == 3)
    ensures Fold(types, 0, PayloadAcc(p), fs).value.PayloadAcc?
    ensures Fold(types, 0, PayloadAcc(p), fs).value.payload.seqNo == p.seqNo
    decreases |fs|
  {
    hide Decode.Step;
    if fs != [] {
      assert fs[0] in fs && forall f <- fs[1..] :: f in fs;
      SeqNoStep(types, p, fs[0]);
      SeqNoUntouched(types, Step(types, 0, PayloadAcc(p), fs[0]).value.payload, fs[1..]);
    }
  }

  lemma {:induction false} MetricsAreLen(ms: seq<Metric>, strip: bool)
    ensures forall f <- MetricList(ms, strip) :: f.LenF?
  {
    hide Encode.EncodeMetric;
    if ms != [] { MetricsAreLen(ms[1..], strip); }
  }

  /** Whatever registry decodes an encoded payload, the sequence number is the one encoded. */
  lemma SeqNoKept(p: Payload, strip: bool, types: Option<Registry>)
    requires |EncodePayload(p, strip)| < TWO64 && DecodePayload(EncodePayload(p, strip), types).Ok? && p.seqNo.Some?
    ensures DecodePayload(EncodePayload(p, strip), types).value.seqNo == p.seqNo
  {
    hide Decode.Fold, Encode.MetricList, Decode.DecodeMetric, Wire.Ser;
    var d := PayloadAcc(NO_PAYLOAD);
    var a, c := OptNum(1, p.timestamp) + MetricList(p.metrics, strip), OptNum(3, Widen(p.seqNo));
    var e := OptBytes(4, p.uuid) + OptBytes(5, p.body);
    RunOfSer(types, 0, d, PayloadFields(p, strip));
    Assoc(a + c, OptBytes(4, p.uuid), OptBytes(5, p.body));
    assert PayloadFields(p, strip) == (a + c) + e;
    FoldAppend(types, 0, d, a + c, e);
    FoldAppend(types, 0, d, a, c);
    MetricsAreLen(p.metrics, strip);
    SeqNoUntouched(types, NO_PAYLOAD, a);
    var mid := Fold(types, 0, d, a).value.payload;
    SeqNoSet(types, mid, p.seqNo.value);
    SeqNoUntouched(types, mid.(seqNo := p.seqNo), e);
  }

  lemma SeqNoSet(types: Option<Registry>, p: Payload, n: byte)
    ensures Fold(types, 0, PayloadAcc(p), OptNum(3, Widen(Some(n)))) == Ok(PayloadAcc(p.(seqNo := Some(n))))
  {
    hide Decode.Fold, Decode.DecodeMetric;
    var fs := OptNum(3, Widen(Some(n)));
    EmptyFold(types, 0, PayloadAcc(p));
    Extend(types, 0, PayloadAcc(p), [], fs, PayloadAcc(p), PayloadAcc(p.(seqNo := Some(n))));
    Units(fs);
  }

  // ---- Steps up to the debounce slot ----

  /** The same node, whatever its debounce slot. */
  predicate SameSession(a: NodeState, b: NodeState) { b == a.(lastRebirth := b.lastRebirth) }

  /** A session event does not depend on the debounce slot, nor does the state after it. */
  lemma SlotIrrelevant(debounce: nat, id: NodeId, a: NodeState, b: NodeState, m: NodeMessage, tick: Tick)
    requires SameSession(a, b) && Reports(NodeStep(debounce, id, Some(a), m, tick).event)
    ensures var o, q := NodeStep(debounce, id, Some(a), m, tick), NodeStep(debounce, id, Some(b), m, tick);
      o.node.Some? && q.node.Some? && SameSession(o.node.value, q.node.value) && q.event == o.event
  {
    hide Decode.DecodePayload, Births.BindBirth, Host.Rebirth, Host.BdSeqOf, Host.ResolveNames, Names.Listing;
    RebirthReports(debounce, id);
  }

  predicate Sequenced(ty: MessageType) { ty.NData? || ty.DBirth? || ty.DData? || ty.DDeath? }

  /** A sequenced message that does not pass either ends the session or leaves it as it was. */
  lemma StepAside(debounce: nat, id: NodeId, n: NodeState, m: NodeMessage, tick: Tick)
    requires n.online && Sequenced(m.ty) && !Passes(Some(n), m)
    ensures var o := NodeStep(debounce, id, Some(n), m, tick);
      && !Reports(o.event) && o.node.Some?
      && (!o.node.value.online || SameSession(n, o.node.value))
  {
    hide Decode.DecodePayload, Births.BindBirth, Host.Rebirth, Host.BdSeqOf, Host.ResolveNames, Names.Listing;
    EventsExactly(debounce, id, Some(n), m, tick);
    RebirthKeeps(debounce, id, Some(n), tick);
    RebirthKeeps(debounce, id, Some(n.(online := false)), tick);
  }

  lemma DeathAside(debounce: nat, id: NodeId, n: NodeState, payload: bytes, tick: Tick)
    ensures var o := NodeStep(debounce, id, Some(n), NodeMessage(NDeath, "", payload), tick);
      !Reports(o.event) && o.node.Some? && (!o.node.value.online || o.node == Some(n))
  {
    hide Decode.DecodePayload, Host.BdSeqOf, Names.Listing, Host.OnNodeBirth, Host.OnNodeData, Host.OnDeviceBirth;
    hide Host.OnDeviceData, Host.OnDeviceDeath;
  }

  // ---- A session in order ----

  /** In any surroundings the host reports the message and moves on. */
  ghost predicate Advances(debounce: nat, id: NodeId, n: NodeState, m: NodeMessage, next: NodeState) {
    hide Host.NodeStep;
    forall tick :: Reports(NodeStep(debounce, id, Some(n), m, tick).event)
      && NodeStep(debounce, id, Some(n), m, tick).node == Some(next)
  }

  /** Whatever registry decodes it, the message shows that sequence number. */
  ghost predicate Shows(m: NodeMessage, seqNo: byte) {
    hide Decode.DecodePayload;
    forall types :: DecodePayload(m.payload, types).Ok? ==> DecodePayload(m.payload, types).value.seqNo == Some(seqNo)
  }

  /** At most 255 messages after the NBIRTH, each of which in order advances the session. */
  ghost predicate Session(debounce: nat, id: NodeId, states: seq<NodeState>, msgs: seq<NodeMessage>) {
    hide Advances, Shows;
    && |states| == |msgs| + 1 && |msgs| < TWO8
    && forall k :: 0 <= k < |msgs| ==>
         Advances(debounce, id, states[k], msgs[k], states[k + 1]) && Shows(msgs[k], states[k].expectedSeq)
  }

  lemma AdvancePasses(debounce: nat, id: NodeId, n: NodeState, m: NodeMessage, next: NodeState)
    requires Advances(debounce, id, n, m, next)
    ensures n.online && Sequenced(m.ty) && Passes(Some(n), m) && next.expectedSeq == Next(n.expectedSeq)
  {
    hide Decode.DecodePayload, Births.BindBirth, Host.BdSeqOf, Host.ResolveNames, Names.Listing, Clash, Host.Rebirth;
    var tick := Tick(0, 0, true);
    assert Reports(NodeStep(debounce, id, Some(n), m, tick).event);
    EventsExactly(debounce, id, Some(n), m, tick);
    RebirthReports(debounce, id);
  }

  lemma {:induction false} NumbersAdvance(debounce: nat, id: NodeId, states: seq<NodeState>, msgs: seq<NodeMessage>,
                                          k: nat)
    requires Session(debounce, id, states, msgs) && k <= |msgs|
    ensures states[k].expectedSeq == Advanced(states[0].expectedSeq, k)
  {
    hide Advances, Shows;
    AdvancedStep(states[0].expectedSeq, if k == 0 then 0 else k - 1);
    if k > 0 {
      NumbersAdvance(debounce, id, states, msgs, k - 1);
      AdvancePasses(debounce, id, states[k - 1], msgs[k - 1], states[k]);
    }
  }

  // ---- The channel ----

  /** What the channel delivers: some message of the session, or some NDEATH. */
  datatype Shot = Copy(k: nat, tick: Tick) | Death(payload: bytes, tick: Tick)

  predicate ShotsOf(msgs: seq<NodeMessage>, shots: seq<Shot>) { forall s <- shots :: s.Copy? ==> s.k < |msgs| }

  function MessageOf(msgs: seq<NodeMessage>, s: Shot): NodeMessage
    requires s.Copy? ==> s.k < |msgs|
  {
    if s.Copy? then msgs[s.k] else NodeMessage(NDeath, "", s.payload)
  }

  datatype Report = Report(shot: Shot, event: Result<HostEvent>)

  /** The deliveries the host reports, in order of delivery. */
  ghost function Reported(debounce: nat, id: NodeId, node: Option<NodeState>, msgs: seq<NodeMessage>,
                          shots: seq<Shot>): seq<Report>
    requires ShotsOf(msgs, shots)
    decreases |shots|
  {
    hide Host.NodeStep;
    if shots == [] then []
    else
      assert shots[0] in shots && forall s <- shots[1..] :: s in shots;
      var o := NodeStep(debounce, id, node, MessageOf(msgs, shots[0]), shots[0].tick);
      (if Reports(o.event) then [Report(shots[0], o.event)] else []) + Reported(debounce, id, o.node, msgs, shots[1..])
  }

  /** The reports are messages `from`, `from + 1`, and so on, each as reported in order. */
  ghost predicate InOrder(debounce: nat, id: NodeId, states: seq<NodeState>, msgs: seq<NodeMessage>, from: nat,
                          reports: seq<Report>) {
    hide Host.NodeStep;
    && from + |reports| <= |msgs| < |states|
    && forall i :: 0 <= i < |reports| ==>
         && reports[i].shot.Copy? && reports[i].shot.k == from + i
         && reports[i].event ==
             NodeStep(debounce, id, Some(states[from + i]), msgs[from + i], reports[i].shot.tick).event
  }

  lemma InOrderCons(debounce: nat, id: NodeId, states: seq<NodeState>, msgs: seq<NodeMessage>, from: nat, first: Report,
                    rest: seq<Report>)
    requires from < |msgs| && InOrder(debounce, id, states, msgs, from + 1, rest)
    requires first.shot.Copy? && first.shot.k == from
    requires first.event == NodeStep(debounce, id, Some(states[from]), msgs[from], first.shot.tick).event
    ensures InOrder(debounce, id, states, msgs, from, [first] + rest)
  {
    hide Host.NodeStep;
    var all := [first] + rest;
    forall i | 0 <= i < |all|
      ensures all[i].shot.Copy? && all[i].shot.k == from + i
        && all[i].event == NodeStep(debounce, id, Some(states[from + i]), msgs[from + i], all[i].shot.tick).event
    {
      if i > 0 { assert all[i] == rest[i - 1]; }
    }
  }

  /** An offline node reports nothing of a session. */
  lemma {:induction false} OfflineReportsNothing(debounce: nat, id: NodeId, states: seq<NodeState>,
                                                 node: Option<NodeState>, msgs: seq<NodeMessage>, shots: seq<Shot>)
    requires ShotsOf(msgs, shots) && Session(debounce, id, states, msgs) && !Live(node)
    ensures Reported(debounce, id, node, msgs, shots) == []
    decreases |shots|
  {
    hide Host.NodeStep, Advances, Shows, Decode.DecodePayload;
    if shots != [] {
      assert shots[0] in shots && forall s <- shots[1..] :: s in shots;
      var m := MessageOf(msgs, shots[0]);
      if shots[0].Copy? { AdvancePasses(debounce, id, states[shots[0].k], msgs[shots[0].k], states[shots[0].k + 1]); }
      EventsExactly(debounce, id, node, m, shots[0].tick);
      OfflineReportsNothing(debounce, id, states, NodeStep(debounce, id, node, m, shots[0].tick).node, msgs,
                            shots[1..]);
    }
  }

  /** A message out of turn does not pass: its number is another one. */
  lemma OutOfTurn(debounce: nat, id: NodeId, states: seq<NodeState>, msgs: seq<NodeMessage>, at: nat, k: nat,
                  n: NodeState)
    requires Session(debounce, id, states, msgs) && at <= |msgs| && k < |msgs| && k != at && SameSession(states[at], n)
    ensures !Passes(Some(n), msgs[k])
  {
    hide Advances, Decode.DecodePayload;
    NumbersAdvance(debounce, id, states, msgs, at);
    NumbersAdvance(debounce, id, states, msgs, k);
    var s := states[0].expectedSeq;
    if at < k { AdvancedMeet(s, at, k); } else { AdvancedMeet(s, k, at); }
    var types := RegistryFor(n, msgs[k]);
    assert DecodePayload(msgs[k].payload, types).Ok? ==>
      DecodePayload(msgs[k].payload, types).value.seqNo == Some(states[k].expectedSeq);
  }

  /** From any point of the session, what is reported goes on in order from there. */
  lemma {:induction false} ReportsInOrder(debounce: nat, id: NodeId, states: seq<NodeState>, msgs: seq<NodeMessage>,
                                          at: nat, n: NodeState, shots: seq<Shot>)
    requires Session(debounce, id, states, msgs) && at <= |msgs| && ShotsOf(msgs, shots) && SameSession(states[at], n)
    requires n.online
    ensures InOrder(debounce, id, states, msgs, at, Reported(debounce, id, Some(n), msgs, shots))
    decreases |shots|
  {
    hide Host.NodeStep, Advances, Shows, Decode.DecodePayload, Passes, Session, InOrder;
    assert InOrder(debounce, id, states, msgs, at, []) by { NoReports(debounce, id, states, msgs, at); }
    if shots != [] {
      assert shots[0] in shots && forall s <- shots[1..] :: s in shots;
      var s, rest := shots[0], shots[1..];
      var m := MessageOf(msgs, s);
      var o := NodeStep(debounce, id, Some(n), m, s.tick);
      if s.Copy? && s.k == at {
        InTurn(debounce, id, states, msgs, at, n, s.tick);
        StillOnline(debounce, id, states, msgs, at, o.node.value, rest);
        if o.node.value.online {
          ReportsInOrder(debounce, id, states, msgs, at + 1, o.node.value, rest);
        }
        InOrderCons(debounce, id, states, msgs, at, Report(s, o.event), Reported(debounce, id, o.node, msgs, rest));
      } else {
        if s.Copy? {
          OutOfTurn(debounce, id, states, msgs, at, s.k, n);
          CopySequenced(debounce, id, states, msgs, s.k);
          StepAside(debounce, id, n, m, s.tick);
        } else {
          DeathAside(debounce, id, n, s.payload, s.tick);
        }
        Units(Reported(debounce, id, o.node, msgs, rest));
        if o.node.value.online {
          ReportsInOrder(debounce, id, states, msgs, at, o.node.value, rest);
        } else {
          OfflineReportsNothing(debounce, id, states, o.node, msgs, rest);
        }
      }
    }
  }

  lemma NoReports(debounce: nat, id: NodeId, states: seq<NodeState>, msgs: seq<NodeMessage>, at: nat)
    requires Session(debounce, id, states, msgs) && at <= |msgs|
    ensures InOrder(debounce, id, states, msgs, at, [])
  {
    hide Advances, Shows;
  }

  lemma CopySequenced(debounce: nat, id: NodeId, states: seq<NodeState>, msgs: seq<NodeMessage>, k: nat)
    requires Session(debounce, id, states, msgs) && k < |msgs|
    ensures Sequenced(msgs[k].ty)
  {
    hide Advances, Shows;
    AdvancePasses(debounce, id, states[k], msgs[k], states[k + 1]);
  }

  lemma InTurn(debounce: nat, id: NodeId, states: seq<NodeState>, msgs: seq<NodeMessage>, at: nat, n: NodeState,
               tick: Tick)
    requires Session(debounce, id, states, msgs) && at < |msgs| && SameSession(states[at], n)
    ensures var o := NodeStep(debounce, id, Some(n), msgs[at], tick);
      && Reports(o.event) && o.event == NodeStep(debounce, id, Some(states[at]), msgs[at], tick).event
      && o.node.Some? && SameSession(states[at + 1], o.node.value)
  {
    hide Shows, Host.NodeStep;
    assert Advances(debounce, id, states[at], msgs[at], states[at + 1]);
    SlotIrrelevant(debounce, id, states[at], n, msgs[at], tick);
  }

  lemma StillOnline(debounce: nat, id: NodeId, states: seq<NodeState>, msgs: seq<NodeMessage>, at: nat, n: NodeState,
                    rest: seq<Shot>)
    requires Session(debounce, id, states, msgs) && at < |msgs| && ShotsOf(msgs, rest) && SameSession(states[at + 1], n)
    ensures !n.online ==> InOrder(debounce, id, states, msgs, at + 1, Reported(debounce, id, Some(n), msgs, rest))
  {
    hide Advances, Shows, Host.NodeStep, Session, InOrder;
    if !n.online {
      OfflineReportsNothing(debounce, id, states, Some(n), msgs, rest);
      NoReports(debounce, id, states, msgs, at + 1);
    }
  }
}
