/** The fields and slots of the basic scalars, shared by all four kinds of value. */
module Scalars {
  import opened Base
  import opened Wire
  import opened Model

  function BoolF(num: u32, v: bool): Field { VarintF(num, if v then 1 else 0) }

  /** A scalar goes to one of six consecutive fields, whatever the component: integers first. */
  function ScalarF(base: u32, s: Scalar): Field
    requires base < 100
  {
    match s
    case Int8(v) => VarintF(base, AsU32(v))
    case Int16(v) => VarintF(base, AsU32(v))
    case Int32(v) => VarintF(base, AsU32(v))
    case UInt8(v) => VarintF(base, v)
    case UInt16(v) => VarintF(base, v)
    case UInt32(v) => VarintF(base, v)
    case Int64(v) => VarintF(base + 1, AsU64(v))
    case UInt64(v) => VarintF(base + 1, v)
    case DateTime(v) => VarintF(base + 1, AsU64(v))
    case Float(w) => I32F(base + 2, w)
    case Double(b) => I64F(base + 3, b)
    case Boolean(b) => BoolF(base + 4, b)
    case String(s) => LenF(base + 5, s)
    case Text(s) => LenF(base + 5, s)
  }

  /** The slots of the scalar fields, before the datatype is known. */
  datatype Slots = Slots(
    intV: Option<u32>, longV: Option<u64>, floatV: Option<u32>, doubleV: Option<u64>, boolV: Option<bool>,
      stringV: Option<Str>)
  {
    predicate Any() { intV.Some? || longV.Some? || floatV.Some? || doubleV.Some? || boolV.Some? || stringV.Some? }
  }

  const NO_SLOTS: Slots := Slots(None, None, None, None, None, None)

  /** The six scalar fields from `base` on; any other field leaves the slots alone. */
  function SlotsStep(base: nat, s: Slots, f: Field): Result<Slots> {
    match f
    case VarintF(n, v) =>
      if n == base then Ok(s.(intV := Some(v % TWO32)))
      else if n == base + 1 then Ok(s.(longV := Some(v)))
      else if n == base + 4 then Ok(s.(boolV := Some(v != 0)))
      else Ok(s)
    case I32F(n, w) => if n == base + 2 then Ok(s.(floatV := Some(w))) else Ok(s)
    case I64F(n, b) => if n == base + 3 then Ok(s.(doubleV := Some(b))) else Ok(s)
    case LenF(n, b) =>
      if n != base + 5 then Ok(s)
      else
        match ToStr(b)
        case Err(e) => Err(e)
        case Ok(str) => Ok(s.(stringV := Some(str)))
  }

  /** The value of a basic type from its slot, cut down to its width. */
  function BuildScalar(dt: DataType, s: Slots): Result<Scalar> {
    match dt
    case Int8 => if s.intV.Some? then Ok(Int8(AsI8(s.intV.value))) else Err(ValueTypeMismatch)
    case Int16 => if s.intV.Some? then Ok(Int16(AsI16(s.intV.value))) else Err(ValueTypeMismatch)
    case Int32 => if s.intV.Some? then Ok(Int32(AsI32(s.intV.value))) else Err(ValueTypeMismatch)
    case UInt8 => if s.intV.Some? then Ok(UInt8(s.intV.value % TWO8)) else Err(ValueTypeMismatch)
    case UInt16 => if s.intV.Some? then Ok(UInt16(s.intV.value % TWO16)) else Err(ValueTypeMismatch)
    case UInt32 => if s.intV.Some? then Ok(UInt32(s.intV.value)) else Err(ValueTypeMismatch)
    case Int64 => if s.longV.Some? then Ok(Int64(AsI64(s.longV.value))) else Err(ValueTypeMismatch)
    case UInt64 => if s.longV.Some? then Ok(UInt64(s.longV.value)) else Err(ValueTypeMismatch)
    case DateTime => if s.longV.Some? then Ok(DateTime(AsI64(s.longV.value))) else Err(ValueTypeMismatch)
    case Float => if s.floatV.Some? then Ok(Float(s.floatV.value)) else Err(ValueTypeMismatch)
    case Double => if s.doubleV.Some? then Ok(Double(s.doubleV.value)) else Err(ValueTypeMismatch)
    case Boolean => if s.boolV.Some? then Ok(Boolean(s.boolV.value)) else Err(ValueTypeMismatch)
    case String => if s.stringV.Some? then Ok(String(s.stringV.value)) else Err(ValueTypeMismatch)
    case Text => if s.stringV.Some? then Ok(Text(s.stringV.value)) else Err(ValueTypeMismatch)
    case _ => Err(ValueTypeMismatch)
  }

  /** The slots after the one field of a scalar. */
  function SlotsOf(s: Scalar): (r: Slots)
    ensures r.Any()
  {
    match s
    case Int8(v) => NO_SLOTS.(intV := Some(AsU32(v)))
    case Int16(v) => NO_SLOTS.(intV := Some(AsU32(v)))
    case Int32(v) => NO_SLOTS.(intV := Some(AsU32(v)))
    case UInt8(v) => NO_SLOTS.(intV := Some(v))
    case UInt16(v) => NO_SLOTS.(intV := Some(v))
    case UInt32(v) => NO_SLOTS.(intV := Some(v))
    case Int64(v) => NO_SLOTS.(longV := Some(AsU64(v)))
    case UInt64(v) => NO_SLOTS.(longV := Some(v))
    case DateTime(v) => NO_SLOTS.(longV := Some(AsU64(v)))
    case Float(w) => NO_SLOTS.(floatV := Some(w))
    case Double(b) => NO_SLOTS.(doubleV := Some(b))
    case Boolean(b) => NO_SLOTS.(boolV := Some(b))
    case String(t) => NO_SLOTS.(stringV := Some(t))
    case Text(t) => NO_SLOTS.(stringV := Some(t))
  }

  lemma ScalarSlots(base: u32, s: Scalar)
    requires base < 100
    ensures SlotsStep(base, NO_SLOTS, ScalarF(base, s)) == Ok(SlotsOf(s))
  {
  }

  /** Sign extension and truncation cancel out at every width. */
  lemma ScalarBuilt(s: Scalar)
    ensures s.Type().IsBasic() && BuildScalar(s.Type(), SlotsOf(s)) == Ok(s)
  {
    match s
    case Int8(v) => assert AsI8(AsU32(v)) == v;
    case Int16(v) => assert AsI16(AsU32(v)) == v;
    case Int32(v) => assert AsI32(AsU32(v)) == v;
    case Int64(v) => assert AsI64(AsU64(v)) == v;
    case DateTime(v) => assert AsI64(AsU64(v)) == v;
    case _ =>
  }
}
