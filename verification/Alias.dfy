/** The name, alias and datatype bindings made by a birth (src/alias.rs). */
module Alias {
  import opened Base
  import opened Model

  /** The four maps of an `AliasRegistry`, as a value. */
  datatype Registry = Registry(
    nameToAlias: map<Str, u64>, aliasToName: map<u64, Str>,
    typeByName: map<Str, DataType>, typeByAlias: map<u64, DataType>)
  {
    function TypeForName(name: Str): Option<DataType> {
      if name in typeByName then Some(typeByName[name]) else None
    }

    function TypeForAlias(alias: u64): Option<DataType> {
      if alias in typeByAlias then Some(typeByAlias[alias]) else None
    }

    function NameForAlias(alias: u64): Option<Str> {
      if alias in aliasToName then Some(aliasToName[alias]) else None
    }

    function AliasForName(name: Str): Option<u64> {
      if name in nameToAlias then Some(nameToAlias[name]) else None
    }

    function Bind(name: Str, alias: Option<u64>, dt: DataType): Registry {
      var named := this.(typeByName := typeByName[name := dt]);
      if alias.None? then named
      else named.(
        nameToAlias := nameToAlias[name := alias.value],
        aliasToName := aliasToName[alias.value := name],
        typeByAlias := typeByAlias[alias.value := dt])
    }

    /** An alias bound to another name is refused. */
    predicate Conflicts(name: Str, alias: Option<u64>) {
      alias.Some? && alias.value in aliasToName && aliasToName[alias.value] != name
    }
  }

  const EMPTY: Registry := Registry(map[], map[], map[], map[])
}
