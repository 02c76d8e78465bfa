/** Aliases over a whole birth sequence (src/edge.rs:311-435). */
module Allocation {
  import opened Base
  import opened Model
  import Alias
  import opened Topic
  import opened Messages
  import opened Edge
  import opened Aliasing
  import opened Joining

  lemma {:induction false} RangeAppend(from: nat, n: nat, m: nat)
    requires from + n + m <= TWO64
    ensures Range(from, n) + Range(from + n, m) == Range(from, n + m)
    decreases n
  {
    if n == 0 {
      Units(Range(from, m));
    } else {
      RangeAppend(from + 1, n - 1, m);
      Assoc([from], Range(from + 1, n - 1), Range(from + n, m));
    }
  }

  /** The aliases of the DBIRTHs, device by device. */
  function DeviceAliases(cfg: EdgeConfig, e: EdgeView, src: Source, devices: seq<Id>): seq<u64>
    decreases |devices|
  {
    if devices == [] then []
    else AliasList(Assign(cfg, e.aliases, e.nextAlias, src.device(devices[0])).metrics)
         + DeviceAliases(cfg, DeviceBorn(cfg, e, src, devices[0]), src, devices[1..])
  }

  /** The aliases of the NBIRTH, then those of the DBIRTHs. */
  function BirthAliases(cfg: EdgeConfig, e: EdgeView, src: Source): seq<u64> {
    AliasList(NodeBirthMetrics(cfg, e, src).metrics) + DeviceAliases(cfg, NodeBorn(cfg, e, src), src, cfg.devices)
  }

  lemma {:induction false} DevicesCountUp(cfg: EdgeConfig, e: EdgeView, src: Source, devices: seq<Id>)
    requires cfg.useAliases && (forall d <- devices :: AliasFree(src.device(d)))
    requires e.nextAlias + CountDevices(src, devices) < TWO64
    ensures DeviceAliases(cfg, e, src, devices) == Range(e.nextAlias, CountDevices(src, devices))
    decreases |devices|
  {
    hide AssignAll, AliasFree, CountAliased, AliasList;
    if devices != [] {
      var d := devices[0];
      assert d in devices && forall x <- devices[1..] :: x in devices;
      var n := CountAliased(src.device(d));
      AliasesInOrder(e.aliases, e.nextAlias, src.device(d));
      DevicesCountUp(cfg, DeviceBorn(cfg, e, src, d), src, devices[1..]);
      RangeAppend(e.nextAlias, n, CountDevices(src, devices[1..]));
    }
  }

  /**
   With aliases in use, a birth sequence from a source that supplies none gives out 0, 1, 2, and so on, in order over
   the NBIRTH and all DBIRTHs: one for each named metric that is not a control metric, whatever the edge's state
   before. Control metrics are appended, so they do not count.
   */
  lemma AliasesCountUp(cfg: EdgeConfig, e: EdgeView, src: Source)
    requires cfg.useAliases && AliasFree(src.node) && forall d <- cfg.devices :: AliasFree(src.device(d))
    requires CountAliased(src.node) + CountDevices(src, cfg.devices) < TWO64
    ensures BirthAliases(cfg, e, src) == Range(0, CountAliased(src.node) + CountDevices(src, cfg.devices))
  {
    hide AssignAll, AliasFree, CountAliased, CountDevices, AliasList, WithControls, DeviceAliases, Base.ValidUtf8;
    ControlsFree(src.node, e.bdSeq);
    AliasesInOrder(Alias.EMPTY, 0, NodeMetrics(e, src));
    DevicesCountUp(cfg, NodeBorn(cfg, e, src), src, cfg.devices);
    RangeAppend(0, CountAliased(src.node), CountDevices(src, cfg.devices));
  }

  lemma ControlsFree(ms: seq<Metric>, bdSeq: byte)
    requires AliasFree(ms)
    ensures AliasFree(WithControls(ms, bdSeq)) && CountAliased(WithControls(ms, bdSeq)) == CountAliased(ms)
  {
    hide CountAliased, Mentions, Control, Base.ValidUtf8;
    ControlFits(REBIRTH, Boolean(false));
    ControlFits(BDSEQ, Int64(bdSeq));
    CountAppend(ms, Control(REBIRTH, Boolean(false)));
    CountAppend(WithRebirth(ms), Control(BDSEQ, Int64(bdSeq)));
  }

  /** Only aliases differ, and exactly the named metrics that are not control metrics have one. */
  predicate AliasedAsDue(ms: seq<Metric>, out: seq<Metric>) {
    |out| == |ms| && forall i :: 0 <= i < |ms| ==>
      && out[i] == ms[i].(alias := out[i].alias)
      && (out[i].alias.Some? <==> ms[i].name.Some? && ms[i].name != Some(REBIRTH) && ms[i].name != Some(BDSEQ))
  }

  /**
   In the NBIRTH, and in the DBIRTH of any device whatever the edge's state then, control metrics are published
   without an alias, other named metrics with one, and nothing else about a metric changes.
   */
  lemma ControlsStayPlain(cfg: EdgeConfig, e: EdgeView, src: Source, device: Id)
    requires cfg.useAliases
    ensures AliasFree(src.node) ==> AliasedAsDue(NodeMetrics(e, src), NodeBirthMetrics(cfg, e, src).metrics)
    ensures AliasFree(src.device(device)) ==>
      AliasedAsDue(src.device(device), Assign(cfg, e.aliases, e.nextAlias, src.device(device)).metrics)
  {
    hide AssignAll, AliasFree, WithControls, AliasedAsDue, Base.ValidUtf8;
    if AliasFree(src.node) {
      ControlsFree(src.node, e.bdSeq);
      AssignedAsDue(Alias.EMPTY, 0, NodeMetrics(e, src));
    }
    if AliasFree(src.device(device)) { AssignedAsDue(e.aliases, e.nextAlias, src.device(device)); }
  }

  lemma AssignedAsDue(r: Alias.Registry, next: u64, ms: seq<Metric>)
    requires AliasFree(ms)
    ensures AliasedAsDue(ms, AssignAll(r, next, ms).metrics)
  {
    hide AssignAll, AliasFree, Base.ValidUtf8;
    OnlyAliasesAdded(r, next, ms);
    forall i | 0 <= i < |ms| ensures AssignAll(r, next, ms).metrics[i].alias.Some? <==> Aliased(ms[i]) {
      AliasedGet(r, next, ms, i);
    }
  }

  lemma {:induction false} AliasedGet(r: Alias.Registry, next: u64, ms: seq<Metric>, i: nat)
    requires AliasFree(ms) && i < |ms|
    ensures |AssignAll(r, next, ms).metrics| == |ms|
    ensures AssignAll(r, next, ms).metrics[i].alias.Some? <==> Aliased(ms[i])
    decreases |ms|
  {
    hide AssignAll, Base.ValidUtf8;
    AssignUnfold(r, next, ms);
    FreeTail(ms);
    OnlyAliasesAdded(r, next, ms);
    if i > 0 {
      var r2 := if Aliased(ms[0]) then r.Bind(ms[0].name.value, Some(next), ms[0].value.Type()) else r;
      AliasedGet(r2, if Aliased(ms[0]) then (next + 1) % TWO64 else next, ms[1..], i - 1);
    }
  }
}
