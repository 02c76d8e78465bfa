/** Looking up the fields of a message by number and wire type. */
module Fields {
  import opened Base
  import opened Wire

  function Init(fs: seq<Field>): seq<Field>
    requires fs != []
  {
    fs[..|fs| - 1]
  }

  function Final(fs: seq<Field>): Field
    requires fs != []
  {
    fs[|fs| - 1]
  }

  // ---- The last field of a kind: what a singular field of the schema reads as ----

  function LastVarint(fs: seq<Field>, n: nat): Option<u64>
    decreases |fs|
  {
    if fs == [] then None
    else if Final(fs).VarintF? && Final(fs).num == n then Some(Final(fs).v)
    else LastVarint(Init(fs), n)
  }

  function LastLen(fs: seq<Field>, n: nat): Option<bytes>
    decreases |fs|
  {
    if fs == [] then None
    else if Final(fs).LenF? && Final(fs).num == n then Some(Final(fs).body)
    else LastLen(Init(fs), n)
  }

  function LastI32(fs: seq<Field>, n: nat): Option<u32>
    decreases |fs|
  {
    if fs == [] then None
    else if Final(fs).I32F? && Final(fs).num == n then Some(Final(fs).word)
    else LastI32(Init(fs), n)
  }

  function LastI64(fs: seq<Field>, n: nat): Option<u64>
    decreases |fs|
  {
    if fs == [] then None
    else if Final(fs).I64F? && Final(fs).num == n then Some(Final(fs).bits)
    else LastI64(Init(fs), n)
  }

  // ---- All the bodies of a kind, in order: what a repeated field reads as ----

  function Bodies(fs: seq<Field>, n: nat): seq<bytes>
    decreases |fs|
  {
    if fs == [] then []
    else Bodies(Init(fs), n) + (if Final(fs).LenF? && Final(fs).num == n then [Final(fs).body] else [])
  }

  /** A flag is raised by any number but zero. */
  function Flag(v: Option<u64>): Option<bool> { if v.Some? then Some(v.value != 0) else None }
}
