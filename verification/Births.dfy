/** The alias registry and how a birth fills it (src/alias.rs, src/host.rs:493-509). */
module Births {
  import opened Base
  import opened Model
  import opened Alias

  // ---- The registry ----

  class AliasRegistry {
    var nameToAlias: map<Str, u64>
    var aliasToName: map<u64, Str>
    var typeByName: map<Str, DataType>
    var typeByAlias: map<u64, DataType>

    function View(): Registry
      reads this
    {
      Registry(nameToAlias, aliasToName, typeByName, typeByAlias)
    }

    constructor ()
      ensures View() == EMPTY
    {
      nameToAlias, aliasToName, typeByName, typeByAlias := map[], map[], map[], map[];
    }

    method Bind(name: Str, alias: Option<u64>, dt: DataType)
      modifies this
      ensures View() == old(View()).Bind(name, alias, dt)
    {
      typeByName := typeByName[name := dt];
      if alias.Some? {
        nameToAlias := nameToAlias[name := alias.value];
        aliasToName := aliasToName[alias.value := name];
        typeByAlias := typeByAlias[alias.value := dt];
      }
    }

    method TryBind(name: Str, alias: Option<u64>, dt: DataType) returns (ok: bool)
      modifies this
      ensures ok <==> !old(View()).Conflicts(name, alias)
      ensures View() == if ok then old(View()).Bind(name, alias, dt) else old(View())
    {
      if alias.Some? && alias.value in aliasToName && aliasToName[alias.value] != name { return false; }
      Bind(name, alias, dt);
      ok := true;
    }

    method Clear()
      modifies this
      ensures View() == EMPTY
    {
      nameToAlias, aliasToName, typeByName, typeByAlias := map[], map[], map[], map[];
    }
  }

  // ---- Folding a birth into a registry ----

  datatype Bound = Bound(registry: Registry, duplicate: bool)

  /** `try_bind` on every named metric in order; `duplicate` when one of them was refused. */
  function BindBirth(r: Registry, ms: seq<Metric>): Bound
    decreases |ms|
  {
    if ms == [] then Bound(r, false)
    else if ms[0].name.None? then BindBirth(r, ms[1..])
    else if r.Conflicts(ms[0].name.value, ms[0].alias) then Bound(BindBirth(r, ms[1..]).registry, true)
    else BindBirth(r.Bind(ms[0].name.value, ms[0].alias, ms[0].value.Type()), ms[1..])
  }

  /** The birth loop: clear, then bind every named metric. */
  method BindAll(reg: AliasRegistry, ms: seq<Metric>) returns (duplicate: bool)
    modifies reg
    ensures Bound(reg.View(), duplicate) == BindBirth(EMPTY, ms)
  {
    reg.Clear();
    duplicate := false;
    assert ms[0..] == ms;
    for i := 0 to |ms|
      invariant BindBirth(EMPTY, ms) ==
        Bound(BindBirth(reg.View(), ms[i..]).registry, duplicate || BindBirth(reg.View(), ms[i..]).duplicate)
    {
      assert ms[i..][1..] == ms[i + 1..];
      if ms[i].name.Some? {
        var ok := reg.TryBind(ms[i].name.value, ms[i].alias, ms[i].value.Type());
        if !ok { duplicate := true; }
      }
    }
  }

  /** Two named metrics share an alias under different names. */
  ghost predicate Clash(ms: seq<Metric>) {
    exists i, j :: 0 <= i < j < |ms| && Differ(ms[i], ms[j])
  }

  predicate Differ(a: Metric, b: Metric) {
    a.name.Some? && b.name.Some? && a.alias.Some? && a.alias == b.alias && a.name != b.name
  }

  /** A metric whose alias the registry already gives to another name. */
  predicate Refused(r: Registry, m: Metric) {
    m.name.Some? && r.Conflicts(m.name.value, m.alias)
  }

  lemma {:induction false} DuplicateHasCause(r: Registry, ms: seq<Metric>)
    requires BindBirth(r, ms).duplicate
    ensures (exists m :: m in ms && Refused(r, m)) || Clash(ms)
    decreases |ms|
  {
    var m, rest := ms[0], ms[1..];
    assert m in ms;
    if !Refused(r, m) {
      var next := if m.name.None? then r else r.Bind(m.name.value, m.alias, m.value.Type());
      DuplicateHasCause(next, rest);
      if Clash(rest) {
        ClashInTail(ms);
      } else {
        var k :| k in rest && Refused(next, k);
        var j :| 0 <= j < |rest| && rest[j] == k;
        assert k in ms;
        if !Refused(r, k) { assert Differ(ms[0], ms[j + 1]); }
      }
    }
  }

  lemma ClashInTail(ms: seq<Metric>)
    requires ms != [] && Clash(ms[1..])
    ensures Clash(ms)
  {
    var i, j :| 0 <= i < j < |ms| - 1 && Differ(ms[1..][i], ms[1..][j]);
    assert Differ(ms[i + 1], ms[j + 1]);
  }

  /** The datatype of the last metric of that name. */
  function TypeOf(ms: seq<Metric>, name: Str): Option<DataType> {
    if ms == [] then None
    else Later(if ms[0].name == Some(name) then Some(ms[0].value.Type()) else None, TypeOf(ms[1..], name))
  }

  /** The datatype of the last named metric with that alias. */
  function TypeOfAlias(ms: seq<Metric>, alias: u64): Option<DataType> {
    if ms == [] then None
    else
      var here := if ms[0].name.Some? && ms[0].alias == Some(alias) then Some(ms[0].value.Type()) else None;
      Later(here, TypeOfAlias(ms[1..], alias))
  }

  lemma {:induction false} TypesBound(r: Registry, ms: seq<Metric>, name: Str, alias: u64)
    requires !BindBirth(r, ms).duplicate
    ensures BindBirth(r, ms).registry.TypeForName(name) == Later(r.TypeForName(name), TypeOf(ms, name))
    ensures BindBirth(r, ms).registry.TypeForAlias(alias) == Later(r.TypeForAlias(alias), TypeOfAlias(ms, alias))
    decreases |ms|
  {
    if ms != [] {
      var m := ms[0];
      TypesBound(if m.name.None? then r else r.Bind(m.name.value, m.alias, m.value.Type()), ms[1..], name, alias);
    }
  }

  /** A binding that is there stays, and a named aliased metric gets one. */
  lemma {:induction false} NamesBound(r: Registry, ms: seq<Metric>, alias: u64, name: Str)
    requires !BindBirth(r, ms).duplicate
    ensures r.NameForAlias(alias) == Some(name) ==> BindBirth(r, ms).registry.NameForAlias(alias) == Some(name)
    ensures (exists m :: m in ms && m.name == Some(name) && m.alias == Some(alias)) ==>
      BindBirth(r, ms).registry.NameForAlias(alias) == Some(name)
    decreases |ms|
  {
    if ms != [] {
      var m := ms[0];
      var next := if m.name.None? then r else r.Bind(m.name.value, m.alias, m.value.Type());
      NamesBound(next, ms[1..], alias, name);
      if m.name == Some(name) && m.alias == Some(alias) {
        assert next.NameForAlias(alias) == Some(name);
      }
      assert forall k :: k in ms <==> k == m || k in ms[1..];
    }
  }

  /** Every binding is an old one or comes from a metric of the birth. */
  lemma {:induction false} NothingElseBound(r: Registry, ms: seq<Metric>, alias: u64)
    ensures alias in BindBirth(r, ms).registry.aliasToName ==>
      alias in r.aliasToName || exists m :: m in ms && m.name.Some? && m.alias == Some(alias)
    decreases |ms|
  {
    if ms != [] {
      var m := ms[0];
      var next := if m.name.None? || Refused(r, m) then r else r.Bind(m.name.value, m.alias, m.value.Type());
      NothingElseBound(next, ms[1..], alias);
      assert forall k :: k in ms <==> k == m || k in ms[1..];
    }
  }

  /**
   Folding a birth into a cleared registry: the duplicate flag goes up exactly when two named
   metrics share an alias under different names. While it is down, every named aliased metric
   resolves to its name, and no alias is bound that the birth does not carry.
   */
  lemma BirthFolding(ms: seq<Metric>)
    ensures BindBirth(EMPTY, ms).duplicate <==> Clash(ms)
    ensures !BindBirth(EMPTY, ms).duplicate ==>
      (forall m :: m in ms && m.name.Some? && m.alias.Some? ==>
        BindBirth(EMPTY, ms).registry.NameForAlias(m.alias.value) == m.name)
    ensures forall alias :: alias in BindBirth(EMPTY, ms).registry.aliasToName ==>
      exists m :: m in ms && m.name.Some? && m.alias == Some(alias)
  {
    var b := BindBirth(EMPTY, ms);
    if b.duplicate {
      DuplicateHasCause(EMPTY, ms);
    } else {
      forall m | m in ms && m.name.Some? && m.alias.Some? ensures b.registry.NameForAlias(m.alias.value) == m.name {
        NamesBound(EMPTY, ms, m.alias.value, m.name.value);
      }
      forall i, j | 0 <= i < j < |ms| ensures !Differ(ms[i], ms[j]) {
        assert ms[i] in ms && ms[j] in ms;
      }
    }
    forall alias | alias in b.registry.aliasToName
      ensures exists m :: m in ms && m.name.Some? && m.alias == Some(alias)
    {
      NothingElseBound(EMPTY, ms, alias);
    }
  }

  // ---- Births whose aliases clash ----

  /** The name of the first named metric with that alias. */
  function FirstNamed(ms: seq<Metric>, alias: u64): Option<Str> {
    if ms == [] then None
    else if ms[0].name.Some? && ms[0].alias == Some(alias) then ms[0].name
    else FirstNamed(ms[1..], alias)
  }

  /** An alias already bound stays so; else it goes to the first named metric that has it. */
  lemma {:induction false} FirstNameWins(r: Registry, ms: seq<Metric>, alias: u64)
    ensures BindBirth(r, ms).registry.NameForAlias(alias) ==
      if r.NameForAlias(alias).Some? then r.NameForAlias(alias) else FirstNamed(ms, alias)
    decreases |ms|
  {
    hide MetricValue.Type;
    if ms != [] {
      var m := ms[0];
      var next := if m.name.None? || Refused(r, m) then r else r.Bind(m.name.value, m.alias, m.value.Type());
      FirstNameWins(next, ms[1..], alias);
    }
  }

  /** The metric is bound: it has a name, and its alias, if any, belongs to it. */
  predicate IsBound(owner: u64 -> Option<Str>, m: Metric) {
    m.name.Some? && (m.alias.Some? ==> owner(m.alias.value) == m.name)
  }

  /** The datatype of the last bound metric of that name. */
  function LastType(owner: u64 -> Option<Str>, ms: seq<Metric>, name: Str): Option<DataType> {
    if ms == [] then None
    else
      Later(if IsBound(owner, ms[0]) && ms[0].name == Some(name) then Some(ms[0].value.Type()) else None,
            LastType(owner, ms[1..], name))
  }

  /** The datatype of the last bound metric with that alias. */
  function LastTypeOfAlias(owner: u64 -> Option<Str>, ms: seq<Metric>, alias: u64): Option<DataType> {
    if ms == [] then None
    else
      Later(if IsBound(owner, ms[0]) && ms[0].alias == Some(alias) then Some(ms[0].value.Type()) else None,
            LastTypeOfAlias(owner, ms[1..], alias))
  }

  /** Whose an alias is in the end. */
  function Owners(r: Registry, ms: seq<Metric>): u64 -> Option<Str> {
    alias => if r.NameForAlias(alias).Some? then r.NameForAlias(alias) else FirstNamed(ms, alias)
  }

  lemma {:induction false} OwnersTail(r: Registry, ms: seq<Metric>, next: Registry, xs: seq<Metric>, name: Str,
                                      alias: u64)
    requires ms != [] && forall a :: Owners(r, ms)(a) == Owners(next, ms[1..])(a)
    ensures LastType(Owners(r, ms), xs, name) == LastType(Owners(next, ms[1..]), xs, name)
    ensures LastTypeOfAlias(Owners(r, ms), xs, alias) == LastTypeOfAlias(Owners(next, ms[1..]), xs, alias)
    decreases |xs|
  {
    hide Owners, MetricValue.Type;
    if xs != [] { OwnersTail(r, ms, next, xs[1..], name, alias); }
  }

  /**
   Any birth, clashing aliases included: a name or an alias has the datatype of the last metric that was bound to it,
   those whose alias belongs to another name left aside, or what it had before.
   */
  lemma {:induction false} ClashingTypes(r: Registry, ms: seq<Metric>, name: Str, alias: u64)
    ensures BindBirth(r, ms).registry.TypeForName(name) == Later(r.TypeForName(name), LastType(Owners(r, ms), ms, name))
    ensures BindBirth(r, ms).registry.TypeForAlias(alias) ==
      Later(r.TypeForAlias(alias), LastTypeOfAlias(Owners(r, ms), ms, alias))
    decreases |ms|
  {
    hide MetricValue.Type;
    if ms != [] {
      var m := ms[0];
      var next := if m.name.None? || Refused(r, m) then r else r.Bind(m.name.value, m.alias, m.value.Type());
      forall a ensures Owners(r, ms)(a) == Owners(next, ms[1..])(a) {
        SameOwner(r, ms, next, a);
      }
      OwnersTail(r, ms, next, ms[1..], name, alias);
      ClashingTypes(next, ms[1..], name, alias);
    }
  }

  lemma SameOwner(r: Registry, ms: seq<Metric>, next: Registry, a: u64)
    requires ms != []
    requires next == if ms[0].name.None? || Refused(r, ms[0]) then r
                     else r.Bind(ms[0].name.value, ms[0].alias, ms[0].value.Type())
    ensures Owners(r, ms)(a) == Owners(next, ms[1..])(a)
  {
    hide MetricValue.Type;
  }
}
