/**
 What the decoders read, said without their loops: a singular field is the last of its number and wire type, a
 repeated one all of them in order, and everything else is skipped (src/codec/decode.rs, the Protocol Buffers
 encoding guide).
 */
module Reading {
  import opened Base
  import opened Wire
  import opened Fields
  import opened Model
  import opened Alias
  import opened Scalars
  import opened Decode
  import opened Sound

  // ---- What makes a field unreadable ----

  function Text(s: bytes): Option<Error> { if ValidUtf8(s) then None else Some(InvalidUtf8) }

  function Code(v: u64): Option<Error> { if v < TWO32 then None else Some(UnknownDataType(v % TWO32)) }

  function ErrorOf<T>(r: Result<T>): Option<Error> { if r.Err? then Some(r.error) else None }

  /** What is wrong with the field in the loop over `acc`; cells of a row are judged by `RowMeans`. */
  function Fault(types: Option<Registry>, depth: nat, acc: Acc, f: Field): Option<Error> {
    hide *;
    match acc
    case PayloadAcc(_) =>
      if f.LenF? && f.num == 2 then ErrorOf(DecodeMetric(f.body, types, depth))
      else if f.LenF? && f.num == 4 then Text(f.body)
      else None
    case MetricAcc(_) =>
      if f.LenF? && f.num in {1, 15} then Text(f.body)
      else if f.LenF? && f.num == 8 then ErrorOf(DecodeMetaData(f.body))
      else if f.LenF? && f.num == 9 then ErrorOf(DecodeSet(f.body, depth + 1))
      else if f.VarintF? && f.num == 4 then Code(f.v)
      else None
    case TemplateAcc(_) =>
      if f.LenF? && f.num in {1, 4} then Text(f.body)
      else if f.LenF? && f.num == 2 then ErrorOf(DecodeMetric(f.body, types, depth + 1))
      else if f.LenF? && f.num == 3 then ErrorOf(DecodeParameter(f.body))
      else None
    case SetAcc(_, _) =>
      if f.LenF? && f.num == 1 then Text(f.body)
      else if f.LenF? && f.num == 2 then ErrorOf(DecodeProperty(f.body, depth + 1))
      else None
    case PropertyAcc(_) =>
      if f.VarintF? && f.num == 1 then Code(f.v) else if f.LenF? && f.num == 8 then Text(f.body) else None
    case ListAcc(_) => if f.LenF? && f.num == 1 then ErrorOf(DecodeSet(f.body, depth + 1)) else None
    case MetaAcc(_) => if f.LenF? && f.num in {2, 5, 6, 7, 8} then Text(f.body) else None
    case DataSetAcc(_, _, _) =>
      if f.LenF? && f.num == 2 then Text(f.body)
      else if f.LenF? && f.num == 3 then ErrorOf(TypeCodes(f.body))
      else if f.VarintF? && f.num == 3 then Code(f.v)
      else None
    case RowAcc(_, _) => None
    case CellAcc(_) => if f.LenF? && f.num == 6 then Text(f.body) else None
    case ParameterAcc(_) =>
      if f.LenF? && f.num in {1, 8} then Text(f.body) else if f.VarintF? && f.num == 2 then Code(f.v) else None
  }

  function FirstFault(types: Option<Registry>, depth: nat, acc: Acc, fs: seq<Field>): Option<Error> {
    hide Fault;
    if fs == [] then None
    else if Fault(types, depth, acc, fs[0]).Some? then Fault(types, depth, acc, fs[0])
    else FirstFault(types, depth, acc, fs[1..])
  }

  /** Why a buffer cannot be read as that message: its first unreadable field, or where it stops being fields. */
  function Broken(types: Option<Registry>, depth: nat, acc: Acc, b: bytes): Option<Error> {
    hide FirstFault, Wire.Tokens;
    var fault := FirstFault(types, depth, acc, Tokens(b).fields);
    if fault.Some? then fault else Tokens(b).error
  }

  lemma FaultStep(types: Option<Registry>, depth: nat, acc: Acc, f: Field)
    requires depth <= MAX_DEPTH && !acc.RowAcc?
    ensures ErrorOf(Step(types, depth, acc, f)) == Fault(types, depth, acc, f)
  {
    hide Decode.DecodeMetric, Decode.DecodeSet, Decode.DecodeProperty, Decode.DecodeParameter, Decode.TypeCodes;
    hide Decode.DecodeMetaData, Decode.DecodeCell, Base.ValidUtf8;
  }

  lemma FaultByKind(types: Option<Registry>, depth: nat, a: Acc, b: Acc, f: Field)
    requires a.Kind() == b.Kind()
    ensures Fault(types, depth, a, f) == Fault(types, depth, b, f)
  {
    hide Decode.DecodeMetric, Decode.DecodeSet, Decode.DecodeProperty, Decode.DecodeParameter, Decode.TypeCodes;
    hide Decode.DecodeMetaData, Text, Code;
  }

  lemma {:induction false} FirstFaultByKind(types: Option<Registry>, depth: nat, a: Acc, b: Acc, fs: seq<Field>)
    requires a.Kind() == b.Kind()
    ensures FirstFault(types, depth, a, fs) == FirstFault(types, depth, b, fs)
  {
    hide Fault;
    if fs != [] {
      FaultByKind(types, depth, a, b, fs[0]);
      FirstFaultByKind(types, depth, a, b, fs[1..]);
    }
  }

  /** A loop fails exactly with its first unreadable field. */
  lemma {:induction false} FoldFails(types: Option<Registry>, depth: nat, acc: Acc, fs: seq<Field>)
    requires depth <= MAX_DEPTH && !acc.RowAcc?
    ensures ErrorOf(Fold(types, depth, acc, fs)) == FirstFault(types, depth, acc, fs)
    decreases |fs|
  {
    hide Fault, Decode.Step;
    if fs != [] {
      FaultStep(types, depth, acc, fs[0]);
      var next := Step(types, depth, acc, fs[0]);
      if next.Ok? {
        FoldFails(types, depth, next.value, fs[1..]);
        FirstFaultByKind(types, depth, acc, next.value, fs[1..]);
      }
    }
  }

  lemma RunFails(types: Option<Registry>, depth: nat, acc: Acc, b: bytes)
    requires depth <= MAX_DEPTH && !acc.RowAcc?
    ensures ErrorOf(Run(types, depth, acc, b)) == Broken(types, depth, acc, b)
    ensures Run(types, depth, acc, b).Ok? ==>
      Fold(types, depth, acc, Tokens(b).fields) == Run(types, depth, acc, b)
  {
    hide Decode.Fold, FirstFault, Wire.Tokens;
    FoldFails(types, depth, acc, Tokens(b).fields);
  }

  // ---- Scalars ----

  /** The six fields from `base` on hold that scalar, integers modulo their width. */
  predicate ReadsScalar(fs: seq<Field>, base: nat, s: Scalar) {
    match s
    case Int8(v) => LastVarint(fs, base).Some? && (LastVarint(fs, base).value - v) % 0x100 == 0
    case Int16(v) => LastVarint(fs, base).Some? && (LastVarint(fs, base).value - v) % 0x1_0000 == 0
    case Int32(v) => LastVarint(fs, base).Some? && (LastVarint(fs, base).value - v) % 0x1_0000_0000 == 0
    case UInt8(v) => LastVarint(fs, base).Some? && (LastVarint(fs, base).value - v) % 0x100 == 0
    case UInt16(v) => LastVarint(fs, base).Some? && (LastVarint(fs, base).value - v) % 0x1_0000 == 0
    case UInt32(v) => LastVarint(fs, base).Some? && (LastVarint(fs, base).value - v) % 0x1_0000_0000 == 0
    case Int64(v) => LastVarint(fs, base + 1).Some? && (LastVarint(fs, base + 1).value - v) % TWO64 == 0
    case UInt64(v) => LastVarint(fs, base + 1) == Some(v)
    case DateTime(v) => LastVarint(fs, base + 1).Some? && (LastVarint(fs, base + 1).value - v) % TWO64 == 0
    case Float(w) => LastI32(fs, base + 2) == Some(w)
    case Double(b) => LastI64(fs, base + 3) == Some(b)
    case Boolean(b) => LastVarint(fs, base + 4).Some? && (b <==> LastVarint(fs, base + 4).value != 0)
    case String(t) => LastLen(fs, base + 5) == Some(t)
    case Text(t) => LastLen(fs, base + 5) == Some(t)
  }

  /** None of the six fields is there. */
  predicate NoScalar(fs: seq<Field>, base: nat) {
    && LastVarint(fs, base).None? && LastVarint(fs, base + 1).None? && LastI32(fs, base + 2).None?
    && LastI64(fs, base + 3).None? && LastVarint(fs, base + 4).None? && LastLen(fs, base + 5).None?
  }

  function Cut32(v: Option<u64>): Option<u32> { if v.Some? then Some(v.value % TWO32) else None }

  /** The slots after those fields. */
  predicate SlotsAre(base: nat, s: Slots, fs: seq<Field>) {
    && s.intV == Cut32(LastVarint(fs, base)) && s.longV == LastVarint(fs, base + 1)
    && s.floatV == LastI32(fs, base + 2) && s.doubleV == LastI64(fs, base + 3)
    && s.boolV == Flag(LastVarint(fs, base + 4)) && s.stringV == LastLen(fs, base + 5)
  }

  lemma SlotsNext(base: nat, s: Slots, fs: seq<Field>)
    requires fs != [] && SlotsAre(base, s, Init(fs)) && SlotsStep(base, s, Final(fs)).Ok?
    ensures SlotsAre(base, SlotsStep(base, s, Final(fs)).value, fs)
  {
    hide Base.ValidUtf8;
  }

  // Cutting to 32 bits and then to the width keeps exactly what is congruent modulo the width.

  lemma Width8(x: u64, v: int)
    ensures -0x80 <= v < 0x80 ==> (AsI8(x % TWO32) == v <==> (x - v) % 0x100 == 0)
    ensures 0 <= v < 0x100 ==> (x % TWO32 % TWO8 == v <==> (x - v) % 0x100 == 0)
  {
  }

  lemma Width16(x: u64, v: int)
    ensures -0x8000 <= v < 0x8000 ==> (AsI16(x % TWO32) == v <==> (x - v) % 0x1_0000 == 0)
    ensures 0 <= v < 0x1_0000 ==> (x % TWO32 % TWO16 == v <==> (x - v) % 0x1_0000 == 0)
  {
  }

  lemma Width32(x: u64, v: int)
    ensures -0x8000_0000 <= v < 0x8000_0000 ==> (AsI32(x % TWO32) == v <==> (x - v) % 0x1_0000_0000 == 0)
    ensures 0 <= v < 0x1_0000_0000 ==> (x % TWO32 == v <==> (x - v) % 0x1_0000_0000 == 0)
  {
  }

  lemma Width64(x: u64, v: i64)
    ensures AsI64(x) == v <==> (x - v) % TWO64 == 0
  {
  }

  /** A basic value is built from the slots exactly when the fields hold it. */
  lemma ScalarMeans(base: nat, slots: Slots, fs: seq<Field>, s: Scalar)
    requires SlotsAre(base, slots, fs)
    ensures BuildScalar(s.Type(), slots) == Ok(s) <==> ReadsScalar(fs, base, s)
  {
    hide LastVarint, LastLen, LastI32, LastI64, AsI8, AsI16, AsI32, AsI64;
    match s
    case Int8(v) => if slots.intV.Some? { Width8(LastVarint(fs, base).value, v); }
    case Int16(v) => if slots.intV.Some? { Width16(LastVarint(fs, base).value, v); }
    case Int32(v) => if slots.intV.Some? { Width32(LastVarint(fs, base).value, v); }
    case UInt8(v) => if slots.intV.Some? { Width8(LastVarint(fs, base).value, v); }
    case UInt16(v) => if slots.intV.Some? { Width16(LastVarint(fs, base).value, v); }
    case UInt32(v) => if slots.intV.Some? { Width32(LastVarint(fs, base).value, v); }
    case Int64(v) => if slots.longV.Some? { Width64(slots.longV.value, v); }
    case DateTime(v) => if slots.longV.Some? { Width64(slots.longV.value, v); }
    case _ =>
  }

  /** The same for a given datatype. */
  lemma BasicMeans(base: nat, dt: DataType, slots: Slots, fs: seq<Field>, s: Scalar)
    requires SlotsAre(base, slots, fs)
    ensures BuildScalar(dt, slots) == Ok(s) <==> s.Type() == dt && ReadsScalar(fs, base, s)
    ensures s.Type().IsBasic()
    ensures ReadsScalar(fs, base, s) ==> slots.Any()
    ensures NoScalar(fs, base) <==> !slots.Any()
  {
    hide LastVarint, LastLen, LastI32, LastI64, Scalars.BuildScalar;
    ScalarMeans(base, slots, fs, s);
    if BuildScalar(dt, slots).Ok? { BuildType(dt, slots); }
  }
}
