/** How the edge allocates aliases, and what the host makes of them (src/edge.rs:396-435, src/host.rs:493-509). */
module Aliasing {
  import opened Base
  import opened Model
  import opened Alias
  import opened Births
  import opened Messages
  import opened Edge

  /** The source leaves the aliases to the engine. */
  predicate AliasFree(ms: seq<Metric>) { forall m <- ms :: m.alias.None? }

  function CountAliased(ms: seq<Metric>): nat {
    if ms == [] then 0 else (if Aliased(ms[0]) then 1 else 0) + CountAliased(ms[1..])
  }

  /** The aliases a list of metrics carries, in order. */
  function AliasList(ms: seq<Metric>): seq<u64> {
    if ms == [] then [] else (if ms[0].alias.Some? then [ms[0].alias.value] else []) + AliasList(ms[1..])
  }

  function Range(from: nat, count: nat): seq<u64>
    requires from + count <= TWO64
    decreases count
  {
    if count == 0 then [] else [from] + Range(from + 1, count - 1)
  }

  function Tail(r: Registry, next: u64, ms: seq<Metric>): Assigned
    requires ms != []
  {
    if Aliased(ms[0]) then
      AssignAll(r.Bind(ms[0].name.value, Some(next), ms[0].value.Type()), (next + 1) % TWO64, ms[1..])
    else AssignAll(r, next, ms[1..])
  }

  function Head(next: u64, m: Metric): Metric { if Aliased(m) then m.(alias := Some(next)) else m }

  lemma AssignUnfold(r: Registry, next: u64, ms: seq<Metric>)
    requires ms != []
    ensures AssignAll(r, next, ms) == Tail(r, next, ms).(metrics := [Head(next, ms[0])] + Tail(r, next, ms).metrics)
  {
  }

  lemma AssignNone(r: Registry, next: u64)
    ensures AssignAll(r, next, []) == Assigned([], r, next)
  {
  }

  lemma FreeTail(ms: seq<Metric>)
    requires ms != [] && AliasFree(ms)
    ensures ms[0].alias.None? && AliasFree(ms[1..])
  {
    assert ms[0] in ms && forall m <- ms[1..] :: m in ms;
  }

  /** Allocation counts up from `next`, one alias for each metric that takes one. */
  lemma {:induction false} AliasesInOrder(r: Registry, next: u64, ms: seq<Metric>)
    requires AliasFree(ms) && next + CountAliased(ms) < TWO64
    ensures AliasList(AssignAll(r, next, ms).metrics) == Range(next, CountAliased(ms))
    ensures AssignAll(r, next, ms).next == next + CountAliased(ms)
    decreases |ms|
  {
    hide AssignAll, MetricValue.Type, Base.ValidUtf8;
    if ms == [] { AssignNone(r, next); }
    if ms != [] {
      AssignUnfold(r, next, ms);
      FreeTail(ms);
      var m, t := ms[0], Tail(r, next, ms);
      assert ([Head(next, m)] + t.metrics)[1..] == t.metrics;
      if Aliased(m) {
        AliasesInOrder(r.Bind(m.name.value, Some(next), m.value.Type()), next + 1, ms[1..]);
      } else {
        AliasesInOrder(r, next, ms[1..]);
        Units(AliasList(t.metrics));
      }
    }
  }

  /** Metric by metric: the same but for the alias, which control metrics do not get. */
  lemma {:induction false} OnlyAliasesAdded(r: Registry, next: u64, ms: seq<Metric>)
    ensures var out := AssignAll(r, next, ms).metrics;
      |out| == |ms| && forall i :: 0 <= i < |ms| ==>
        out[i] == ms[i].(alias := out[i].alias) && (!Aliased(ms[i]) ==> out[i] == ms[i])
    decreases |ms|
  {
    hide AssignAll, MetricValue.Type, Base.ValidUtf8;
    if ms == [] { AssignNone(r, next); }
    if ms != [] {
      AssignUnfold(r, next, ms);
      var m, t := ms[0], Tail(r, next, ms);
      if Aliased(m) {
        OnlyAliasesAdded(r.Bind(m.name.value, Some(next), m.value.Type()), (next + 1) % TWO64, ms[1..]);
      } else {
        OnlyAliasesAdded(r, next, ms[1..]);
      }
      var out := [Head(next, m)] + t.metrics;
      forall i | 0 <= i < |ms|
        ensures out[i] == ms[i].(alias := out[i].alias) && (!Aliased(ms[i]) ==> out[i] == ms[i])
      {
        if i > 0 { assert out[i] == t.metrics[i - 1] && ms[i] == ms[1..][i - 1]; }
      }
    }
  }

  // ---- No clash ----

  lemma {:induction false} AliasesAbove(r: Registry, next: u64, ms: seq<Metric>)
    requires AliasFree(ms) && next + CountAliased(ms) < TWO64
    ensures forall m <- AssignAll(r, next, ms).metrics :: m.alias.Some? ==> next <= m.alias.value
    decreases |ms|
  {
    hide AssignAll, MetricValue.Type, Base.ValidUtf8;
    if ms == [] { AssignNone(r, next); }
    if ms != [] {
      AssignUnfold(r, next, ms);
      FreeTail(ms);
      var m := ms[0];
      if Aliased(m) {
        AliasesAbove(r.Bind(m.name.value, Some(next), m.value.Type()), next + 1, ms[1..]);
      } else {
        AliasesAbove(r, next, ms[1..]);
      }
    }
  }

  lemma {:induction false} AllocationNeverClashes(r: Registry, next: u64, ms: seq<Metric>)
    requires AliasFree(ms) && next + CountAliased(ms) < TWO64
    ensures !Clash(AssignAll(r, next, ms).metrics)
    decreases |ms|
  {
    hide AssignAll, MetricValue.Type, Base.ValidUtf8;
    if ms == [] { AssignNone(r, next); }
    if ms != [] {
      AssignUnfold(r, next, ms);
      FreeTail(ms);
      var m := ms[0];
      var t := Tail(r, next, ms);
      if Aliased(m) {
        AllocationNeverClashes(r.Bind(m.name.value, Some(next), m.value.Type()), next + 1, ms[1..]);
        AliasesAbove(r.Bind(m.name.value, Some(next), m.value.Type()), next + 1, ms[1..]);
      } else {
        AllocationNeverClashes(r, next, ms[1..]);
      }
      var out := [Head(next, m)] + t.metrics;
      forall i, j | 0 <= i < j < |out| ensures !Differ(out[i], out[j]) {
        assert out[j] == t.metrics[j - 1] && out[j] in t.metrics;
        if i > 0 { assert out[i] == t.metrics[i - 1]; }
      }
    }
  }

  lemma FreeNeverClashes(ms: seq<Metric>)
    requires AliasFree(ms)
    ensures !Clash(ms)
  {
    forall i, j | 0 <= i < j < |ms| ensures !Differ(ms[i], ms[j]) { assert ms[i] in ms; }
  }

  // ---- Resolution ----

  /** What the edge puts on the wire for that name, the host reads back, with that datatype. */
  predicate Resolves(edge: Registry, host: Registry, name: Str, dt: DataType) {
    if edge.AliasForName(name).Some? then
      && host.TypeForAlias(edge.AliasForName(name).value) == Some(dt)
      && host.NameForAlias(edge.AliasForName(name).value) == Some(name)
    else host.TypeForName(name) == Some(dt)
  }

  predicate Takes(ms: seq<Metric>, name: Str) { exists m :: m in ms && Aliased(m) && m.name == Some(name) }

  lemma {:induction false} OtherNamesKept(r: Registry, next: u64, ms: seq<Metric>, name: Str)
    requires !Takes(ms, name)
    ensures AssignAll(r, next, ms).aliases.AliasForName(name) == r.AliasForName(name)
    decreases |ms|
  {
    hide AssignAll, MetricValue.Type, Base.ValidUtf8;
    if ms == [] { AssignNone(r, next); }
    if ms != [] {
      AssignUnfold(r, next, ms);
      assert ms[0] in ms && forall m <- ms[1..] :: m in ms;
      var m := ms[0];
      if Aliased(m) {
        OtherNamesKept(r.Bind(m.name.value, Some(next), m.value.Type()), (next + 1) % TWO64, ms[1..], name);
      } else {
        OtherNamesKept(r, next, ms[1..], name);
      }
    }
  }

  lemma {:induction false} SameTypes(a: seq<Metric>, b: seq<Metric>, name: Str)
    requires |a| == |b| && forall i :: 0 <= i < |a| ==> a[i].name == b[i].name && a[i].value == b[i].value
    ensures TypeOf(a, name) == TypeOf(b, name)
    decreases |a|
  {
    if a != [] {
      assert a[0].name == b[0].name;
      forall i | 0 <= i < |a| - 1 ensures a[1..][i].name == b[1..][i].name && a[1..][i].value == b[1..][i].value {
        assert a[i + 1].name == b[i + 1].name;
      }
      SameTypes(a[1..], b[1..], name);
    }
  }

  lemma {:induction false} NotTyped(ms: seq<Metric>, name: Str)
    requires TypeOf(ms, name).None?
    ensures forall m <- ms :: m.name != Some(name)
  {
    if ms != [] {
      NotTyped(ms[1..], name);
      HeadTail(ms);
    }
  }

  lemma {:induction false} NoSuchAlias(ms: seq<Metric>, alias: u64)
    requires forall m <- ms :: m.alias != Some(alias)
    ensures TypeOfAlias(ms, alias).None?
  {
    if ms != [] {
      assert ms[0] in ms && forall m <- ms[1..] :: m in ms;
      NoSuchAlias(ms[1..], alias);
    }
  }

  /** The alias the edge ends up with for a declared name is that of its last metric, of the declared type. */
  lemma {:induction false} LastAlias(r: Registry, next: u64, ms: seq<Metric>, name: Str)
    requires AliasFree(ms) && next + CountAliased(ms) < TWO64
    requires TypeOf(ms, name).Some? && name != REBIRTH && name != BDSEQ
    ensures var a := AssignAll(r, next, ms);
      && a.aliases.AliasForName(name).Some?
      && TypeOfAlias(a.metrics, a.aliases.AliasForName(name).value) == TypeOf(ms, name)
      && exists m :: m in a.metrics && m.name == Some(name) && m.alias == a.aliases.AliasForName(name)
    decreases |ms|
  {
    hide AssignAll, MetricValue.Type, Base.ValidUtf8;
    if ms == [] { AssignNone(r, next); }
    AssignUnfold(r, next, ms);
    FreeTail(ms);
    var m, t := ms[0], Tail(r, next, ms);
    var out := [Head(next, m)] + t.metrics;
    assert out[0] == Head(next, m) && out[1..] == t.metrics && forall k <- t.metrics :: k in out;
    assert out[0] in out;
    var r2 := if Aliased(m) then r.Bind(m.name.value, Some(next), m.value.Type()) else r;
    var next2 := if Aliased(m) then next + 1 else next;
    if TypeOf(ms[1..], name).Some? {
      LastAlias(r2, next2, ms[1..], name);
    } else {
      NotTyped(ms[1..], name);
      OtherNamesKept(r2, next2, ms[1..], name);
      AliasesAbove(r2, next2, ms[1..]);
      NoSuchAlias(t.metrics, next);
    }
  }

  lemma ControlsKeepNames(r: Registry, next: u64, ms: seq<Metric>, name: Str)
    requires name == REBIRTH || name == BDSEQ
    ensures AssignAll(r, next, ms).aliases.AliasForName(name) == r.AliasForName(name)
  {
    OtherNamesKept(r, next, ms, name);
  }

  lemma AssignedBirth(r: Registry, next: u64, ms: seq<Metric>, sent: seq<Metric>, name: Str)
    requires AliasFree(ms) && next + CountAliased(ms) < TWO64
    requires Restamped(AssignAll(r, next, ms).metrics, sent)
    ensures !BindBirth(EMPTY, sent).duplicate && TypeOf(sent, name) == TypeOf(ms, name)
  {
    hide Births.BindBirth, AssignAll, TypeOf, Births.Clash, CountAliased, Aliased, MetricValue.Type;
    var a := AssignAll(r, next, ms);
    AllocationNeverClashes(r, next, ms);
    RestampedClash(a.metrics, sent);
    BirthFolding(sent);
    OnlyAliasesAdded(r, next, ms);
    SameTypes(ms, sent, name);
  }

  lemma AliasBound(aliased: seq<Metric>, sent: seq<Metric>, name: Str, alias: u64)
    requires Restamped(aliased, sent) && !BindBirth(EMPTY, sent).duplicate
    requires exists m :: m in aliased && m.name == Some(name) && m.alias == Some(alias)
    ensures BindBirth(EMPTY, sent).registry.NameForAlias(alias) == Some(name)
    ensures BindBirth(EMPTY, sent).registry.TypeForAlias(alias) == TypeOfAlias(aliased, alias)
  {
    hide Births.BindBirth, TypeOf, TypeOfAlias;
    var m :| m in aliased && m.name == Some(name) && m.alias == Some(alias);
    var i :| 0 <= i < |aliased| && aliased[i] == m;
    assert sent[i] in sent;
    NamesBound(EMPTY, sent, alias, name);
    TypesBound(EMPTY, sent, name, alias);
    RestampedAliasType(aliased, sent, alias);
  }

  /**
   After a birth whose metrics the edge aliased and the host bound, every declared name resolves,
   provided the edge had no alias for control names before.
   */
  lemma BirthResolves(r: Registry, next: u64, ms: seq<Metric>, sent: seq<Metric>, name: Str)
    requires AliasFree(ms) && next + CountAliased(ms) < TWO64 && TypeOf(ms, name).Some?
    requires r.AliasForName(REBIRTH).None? && r.AliasForName(BDSEQ).None?
    requires Restamped(AssignAll(r, next, ms).metrics, sent)
    ensures !BindBirth(EMPTY, sent).duplicate
    ensures Resolves(AssignAll(r, next, ms).aliases, BindBirth(EMPTY, sent).registry, name, TypeOf(ms, name).value)
  {
    hide Births.BindBirth, AssignAll, TypeOf, TypeOfAlias, CountAliased, Aliased, MetricValue.Type, Restamped;
    AssignedBirth(r, next, ms, sent, name);
    if name == REBIRTH || name == BDSEQ {
      ControlsKeepNames(r, next, ms, name);
      TypesBound(EMPTY, sent, name, 0);
    } else {
      LastAlias(r, next, ms, name);
      AliasBound(AssignAll(r, next, ms).metrics, sent, name, AssignAll(r, next, ms).aliases.AliasForName(name).value);
    }
  }

  /** The same names, aliases and values, metric by metric. */
  predicate Restamped(a: seq<Metric>, b: seq<Metric>) {
    |a| == |b| && forall i :: 0 <= i < |a| ==> b[i] == a[i].(timestamp := b[i].timestamp)
  }

  lemma RestampedClash(a: seq<Metric>, b: seq<Metric>)
    requires Restamped(a, b)
    ensures Clash(a) <==> Clash(b)
  {
    if Clash(a) {
      var i, j :| 0 <= i < j < |a| && Differ(a[i], a[j]);
      assert Differ(b[i], b[j]);
    }
    if Clash(b) {
      var i, j :| 0 <= i < j < |b| && Differ(b[i], b[j]);
      assert Differ(a[i], a[j]);
    }
  }

  lemma {:induction false} RestampedAliasType(a: seq<Metric>, b: seq<Metric>, alias: u64)
    requires Restamped(a, b)
    ensures TypeOfAlias(a, alias) == TypeOfAlias(b, alias)
    decreases |a|
  {
    if a != [] {
      assert b[0] == a[0].(timestamp := b[0].timestamp);
      forall i | 0 <= i < |a| - 1 ensures b[1..][i] == a[1..][i].(timestamp := b[1..][i].timestamp) {
        assert b[i + 1] == a[i + 1].(timestamp := b[i + 1].timestamp);
      }
      RestampedAliasType(a[1..], b[1..], alias);
    }
  }

  lemma StampRestamps(ms: seq<Metric>, ts: u64)
    ensures Restamped(ms, Stamp(ms, ts))
  {
  }

  /** Without aliasing every declared name resolves by itself. */
  lemma PlainBirthResolves(ms: seq<Metric>, sent: seq<Metric>, name: Str)
    requires AliasFree(ms) && Restamped(ms, sent) && TypeOf(ms, name).Some?
    ensures !BindBirth(EMPTY, sent).duplicate
    ensures Resolves(EMPTY, BindBirth(EMPTY, sent).registry, name, TypeOf(ms, name).value)
  {
    hide Births.BindBirth, TypeOf, TypeOfAlias, Births.Clash;
    FreeNeverClashes(ms);
    RestampedClash(ms, sent);
    BirthFolding(sent);
    SameTypes(ms, sent, name);
    TypesBound(EMPTY, sent, name, 0);
  }
}
