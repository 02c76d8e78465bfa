/**
 Decoding as a fold over fields (src/codec/decode.rs). Every decode loop reads one field per
 turn and updates its local variables; `Acc` holds those variables, one constructor per loop,
 and `Step` is the loop body. The loops themselves are in DecodeIO.
 */
module Decode {
  import opened Base
  import opened Wire
  import opened Model
  import opened Arrays
  import opened Alias
  import opened Scalars
  import D = DataTypes

  const MAX_DEPTH: nat := 32

  datatype RawMetric = RawMetric(
    name: Option<Str>, alias: Option<u64>, timestamp: Option<u64>, typeCode: Option<u32>,
    isHistorical: Option<bool>, isTransient: Option<bool>, isNull: bool,
    metadata: Option<MetaData>, properties: Option<PropertySet>,
    slots: Slots, bytesV: Option<bytes>, datasetV: Option<bytes>, templateV: Option<bytes>)

  const RAW_METRIC: RawMetric :=
    RawMetric(None, None, None, None, None, None, false, None, None, NO_SLOTS, None, None, None)

  datatype RawProperty = RawProperty(
    typeCode: Option<u32>, isNull: bool, slots: Slots, setV: Option<bytes>, listV: Option<bytes>)

  datatype RawParameter = RawParameter(name: Option<Str>, typeCode: Option<u32>, slots: Slots)

  const NO_METADATA: MetaData := MetaData(None, None, None, None, None, None, None, None)

  const NO_TEMPLATE: Template := Template(None, None, false, [], [])

  const NO_PAYLOAD: Payload := Payload(None, [], None, None, None)

  /** The variables of each decode loop. */
  datatype Acc =
    | PayloadAcc(payload: Payload)
    | MetricAcc(metric: RawMetric)
    | TemplateAcc(template: Template)
    | SetAcc(keys: seq<Str>, values: seq<PropertyValue>)
    | PropertyAcc(property: RawProperty)
    | ListAcc(sets: seq<PropertySet>)
    | MetaAcc(metadata: MetaData)
    | DataSetAcc(columns: seq<Str>, typeCodes: seq<u32>, rowSlices: seq<bytes>)
    | RowAcc(types: seq<DataType>, cells: seq<Cell>)
    | CellAcc(slots: Slots)
    | ParameterAcc(parameter: RawParameter)
  {
    /** Which loop; loops nest from higher to lower at the same depth. */
    function Kind(): nat {
      match this
      case PayloadAcc(_) => 10
      case MetricAcc(_) => 9
      case TemplateAcc(_) => 8
      case SetAcc(_, _) => 7
      case PropertyAcc(_) => 6
      case ListAcc(_) => 5
      case DataSetAcc(_, _, _) => 4
      case RowAcc(_, _) => 3
      case CellAcc(_) => 2
      case ParameterAcc(_) => 1
      case MetaAcc(_) => 0
    }
  }

  // ---- Field values ----

  function TypeCode(v: u64): Result<u32> {
    if v < TWO32 then Ok(v) else Err(UnknownDataType(v % TWO32))
  }

  /** Packed type codes: varints to the end of the slice. */
  function TypeCodes(b: bytes): Result<seq<u32>>
    decreases |b|
  {
    if b == [] then Ok([])
    else
      match ReadVarint(b)
      case Err(e) => Err(e)
      case Ok((v, n)) =>
        match TypeCode(v)
        case Err(e) => Err(e)
        case Ok(c) =>
          match TypeCodes(b[n..])
          case Err(e) => Err(e)
          case Ok(cs) => Ok([c] + cs)
  }

  function Types(codes: seq<u32>): (r: Result<seq<DataType>>)
    ensures r.Ok? ==> |r.value| == |codes|
  {
    if codes == [] then Ok([])
    else
      match D.FromCode(codes[0])
      case Err(e) => Err(e)
      case Ok(dt) =>
        match Types(codes[1..])
        case Err(e) => Err(e)
        case Ok(dts) => Ok([dt] + dts)
  }

  function Recover(types: Option<Registry>, name: Option<Str>, alias: Option<u64>): Option<DataType> {
    if types.None? then None
    else if name.Some? then types.value.TypeForName(name.value)
    else if alias.Some? then types.value.TypeForAlias(alias.value)
    else None
  }

  // ---- The loops ----

  function Budget(depth: nat): nat { if depth <= MAX_DEPTH then MAX_DEPTH + 1 - depth else 0 }

  /** Steps through the fields in order, up to the first failure. */
  function Fold(types: Option<Registry>, depth: nat, acc: Acc, fs: seq<Field>): (r: Result<Acc>)
    requires depth <= MAX_DEPTH
    ensures r.Ok? ==> r.value.Kind() == acc.Kind()
    decreases Budget(depth), acc.Kind(), 2, |fs|
  {
    if fs == [] then Ok(acc)
    else
      match Step(types, depth, acc, fs[0])
      case Err(e) => Err(e)
      case Ok(next) => Fold(types, depth, next, fs[1..])
  }

  /** A whole loop over the buffer `b`. */
  function Run(types: Option<Registry>, depth: nat, acc: Acc, b: bytes): (r: Result<Acc>)
    requires depth <= MAX_DEPTH
    ensures r.Ok? ==> r.value.Kind() == acc.Kind()
    decreases Budget(depth), acc.Kind(), 3
  {
    match Fold(types, depth, acc, Tokens(b).fields)
    case Err(e) => Err(e)
    case Ok(a) => if Tokens(b).error.Some? then Err(Tokens(b).error.value) else Ok(a)
  }

  /** One turn of a loop on the field `f`. */
  function Step(types: Option<Registry>, depth: nat, acc: Acc, f: Field): (r: Result<Acc>)
    requires depth <= MAX_DEPTH
    ensures r.Ok? ==> r.value.Kind() == acc.Kind()
    decreases Budget(depth), acc.Kind(), 1
  {
    match acc
    case PayloadAcc(p) => PayloadStep(types, depth, p, f)
    case MetricAcc(m) => MetricStep(depth, m, f)
    case TemplateAcc(t) => TemplateStep(types, depth, t, f)
    case SetAcc(keys, values) => SetStep(depth, keys, values, f)
    case PropertyAcc(v) => PropertyStep(v, f)
    case ListAcc(sets) => ListStep(depth, sets, f)
    case MetaAcc(md) => MetaStep(md, f)
    case DataSetAcc(columns, codes, slices) => DataSetStep(columns, codes, slices, f)
    case RowAcc(dts, cells) => RowStep(dts, cells, f)
    case CellAcc(s) => CellStep(s, f)
    case ParameterAcc(p) => ParameterStep(p, f)
  }

  // ---- Payload ----

  function DecodePayload(b: bytes, types: Option<Registry>): Result<Payload> {
    match Run(types, 0, PayloadAcc(NO_PAYLOAD), b)
    case Ok(PayloadAcc(p)) => Ok(p)
    case Err(e) => Err(e)
  }

  /** The payload loop runs at depth 0. */
  function PayloadStep(types: Option<Registry>, depth: nat, p: Payload, f: Field): (r: Result<Acc>)
    requires depth <= MAX_DEPTH
    ensures r.Ok? ==> r.value.PayloadAcc?
    decreases Budget(depth), 10, 0
  {
    match f
    case VarintF(1, v) => Ok(PayloadAcc(p.(timestamp := Some(v))))
    case LenF(2, body) =>
      (match DecodeMetric(body, types, depth)
       case Err(e) => Err(e)
       case Ok(m) => Ok(PayloadAcc(p.(metrics := p.metrics + [m]))))
    case VarintF(3, v) => Ok(PayloadAcc(p.(seqNo := Some(v % TWO8))))
    case LenF(4, s) =>
      (match ToStr(s)
       case Err(e) => Err(e)
       case Ok(str) => Ok(PayloadAcc(p.(uuid := Some(str)))))
    case LenF(5, body) => Ok(PayloadAcc(p.(body := Some(body))))
    case _ => Ok(PayloadAcc(p))
  }

  // ---- Metric ----

  function DecodeMetric(b: bytes, types: Option<Registry>, depth: nat): (r: Result<Metric>)
    decreases Budget(depth), 9, 4
  {
    if depth > MAX_DEPTH then Err(RecursionLimit)
    else
      match Run(types, depth, MetricAcc(RAW_METRIC), b)
      case Err(e) => Err(e)
      case Ok(MetricAcc(raw)) => FinishMetric(types, depth, raw)
  }

  function MetricStep(depth: nat, m: RawMetric, f: Field): (r: Result<Acc>)
    requires depth <= MAX_DEPTH
    ensures r.Ok? ==> r.value.MetricAcc?
    decreases Budget(depth), 9, 0
  {
    match f
    case LenF(1, s) =>
      (match ToStr(s)
       case Err(e) => Err(e)
       case Ok(str) => Ok(MetricAcc(m.(name := Some(str)))))
    case VarintF(2, v) => Ok(MetricAcc(m.(alias := Some(v))))
    case VarintF(3, v) => Ok(MetricAcc(m.(timestamp := Some(v))))
    case VarintF(4, v) =>
      (match TypeCode(v)
       case Err(e) => Err(e)
       case Ok(c) => Ok(MetricAcc(m.(typeCode := Some(c)))))
    case VarintF(5, v) => Ok(MetricAcc(m.(isHistorical := Some(v != 0))))
    case VarintF(6, v) => Ok(MetricAcc(m.(isTransient := Some(v != 0))))
    case VarintF(7, v) => Ok(MetricAcc(m.(isNull := v != 0)))
    case LenF(8, body) =>
      (match DecodeMetaData(body)
       case Err(e) => Err(e)
       case Ok(md) => Ok(MetricAcc(m.(metadata := Some(md)))))
    case LenF(9, body) =>
      (match DecodeSet(body, depth + 1)
       case Err(e) => Err(e)
       case Ok(ps) => Ok(MetricAcc(m.(properties := Some(ps)))))
    case LenF(16, body) => Ok(MetricAcc(m.(bytesV := Some(body))))
    case LenF(17, body) => Ok(MetricAcc(m.(datasetV := Some(body))))
    case LenF(18, body) => Ok(MetricAcc(m.(templateV := Some(body))))
    case _ =>
      (match SlotsStep(10, m.slots, f)
       case Err(e) => Err(e)
       case Ok(s) => Ok(MetricAcc(m.(slots := s))))
  }

  /** The datatype is the declared one, or else the one the registry recovers. */
  function MetricType(types: Option<Registry>, raw: RawMetric): Result<DataType> {
    if raw.typeCode.Some? then D.FromCode(raw.typeCode.value)
    else
      var found := Recover(types, raw.name, raw.alias);
      if found.Some? then Ok(found.value) else Err(MissingDataType)
  }

  function FinishMetric(types: Option<Registry>, depth: nat, raw: RawMetric): (r: Result<Metric>)
    requires depth <= MAX_DEPTH
    decreases Budget(depth), 9, 1
  {
    match MetricType(types, raw)
    case Err(e) => Err(e)
    case Ok(dt) =>
      match MetricValueOf(types, depth, dt, raw)
      case Err(e) => Err(e)
      case Ok(v) =>
        Ok(Metric(raw.name, raw.alias, raw.timestamp, v, raw.isHistorical, raw.isTransient, raw.metadata,
                  raw.properties))
  }

  function MetricValueOf(types: Option<Registry>, depth: nat, dt: DataType, raw: RawMetric): (r: Result<MetricValue>)
    requires depth <= MAX_DEPTH
    decreases Budget(depth), 9, 0
  {
    if raw.isNull then Ok(Null(dt))
    else if dt.IsBasic() then
      match BuildScalar(dt, raw.slots)
      case Err(e) => Err(e)
      case Ok(s) => Ok(Basic(s))
    else if dt.IsArray() then
      if raw.bytesV.None? then Err(ValueTypeMismatch)
      else
        match Unpack(dt, raw.bytesV.value)
        case Err(e) => Err(e)
        case Ok(a) => Ok(Array(a))
    else
      match dt
      case Uuid => if raw.slots.stringV.Some? then Ok(Uuid(raw.slots.stringV.value)) else Err(ValueTypeMismatch)
      case Bytes => if raw.bytesV.Some? then Ok(Bytes(raw.bytesV.value)) else Err(ValueTypeMismatch)
      case File => if raw.bytesV.Some? then Ok(File(raw.bytesV.value)) else Err(ValueTypeMismatch)
      case DataSet =>
        if raw.datasetV.None? then Err(ValueTypeMismatch)
        else
          (match DecodeDataSet(raw.datasetV.value)
           case Err(e) => Err(e)
           case Ok(d) => Ok(DataSetV(d)))
      case Template =>
        if raw.templateV.None? then Err(ValueTypeMismatch)
        else
          (match DecodeTemplate(raw.templateV.value, types, depth + 1)
           case Err(e) => Err(e)
           case Ok(t) => Ok(TemplateV(t)))
      case _ => Err(ValueTypeMismatch)
  }

  function DecodeMetaData(b: bytes): Result<MetaData>
    decreases 1, 0, 4
  {
    match Run(None, MAX_DEPTH, MetaAcc(NO_METADATA), b)
    case Err(e) => Err(e)
    case Ok(MetaAcc(md)) => Ok(md)
  }

  function MetaStep(md: MetaData, f: Field): (r: Result<Acc>)
    ensures r.Ok? ==> r.value.MetaAcc?
    decreases 1, 0, 0
  {
    match f
    case VarintF(1, v) => Ok(MetaAcc(md.(isMultiPart := Some(v != 0))))
    case VarintF(3, v) => Ok(MetaAcc(md.(size := Some(v))))
    case VarintF(4, v) => Ok(MetaAcc(md.(seqNo := Some(v))))
    case LenF(n, s) =>
      if n != 2 && !(5 <= n <= 8) then Ok(MetaAcc(md))
      else
        (match ToStr(s)
         case Err(e) => Err(e)
         case Ok(str) =>
           if n == 2 then Ok(MetaAcc(md.(contentType := Some(str))))
           else if n == 5 then Ok(MetaAcc(md.(fileName := Some(str))))
           else if n == 6 then Ok(MetaAcc(md.(fileType := Some(str))))
           else if n == 7 then Ok(MetaAcc(md.(md5 := Some(str))))
           else Ok(MetaAcc(md.(description := Some(str)))))
    case _ => Ok(MetaAcc(md))
  }

  // ---- Property sets ----

  function DecodeSet(b: bytes, depth: nat): (r: Result<PropertySet>)
    decreases Budget(depth), 7, 4
  {
    if depth > MAX_DEPTH then Err(RecursionLimit)
    else
      match Run(None, depth, SetAcc([], []), b)
      case Err(e) => Err(e)
      case Ok(SetAcc(keys, values)) =>
        if |keys| != |values| then Err(ValueTypeMismatch) else Ok(PropertySet(Zip(keys, values)))
  }

  function Zip(keys: seq<Str>, values: seq<PropertyValue>): (es: seq<Entry>)
    requires |keys| == |values|
    ensures |es| == |keys|
  {
    if keys == [] then [] else [Entry(keys[0], values[0])] + Zip(keys[1..], values[1..])
  }

  function SetStep(depth: nat, keys: seq<Str>, values: seq<PropertyValue>, f: Field): (r: Result<Acc>)
    requires depth <= MAX_DEPTH
    ensures r.Ok? ==> r.value.SetAcc?
    decreases Budget(depth), 7, 0
  {
    match f
    case LenF(1, s) =>
      (match ToStr(s)
       case Err(e) => Err(e)
       case Ok(str) => Ok(SetAcc(keys + [str], values)))
    case LenF(2, body) =>
      (match DecodeProperty(body, depth + 1)
       case Err(e) => Err(e)
       case Ok(v) => Ok(SetAcc(keys, values + [v])))
    case _ => Ok(SetAcc(keys, values))
  }

  function DecodeProperty(b: bytes, depth: nat): (r: Result<PropertyValue>)
    decreases Budget(depth), 6, 4
  {
    if depth > MAX_DEPTH then Err(RecursionLimit)
    else
      match Run(None, depth, PropertyAcc(RawProperty(None, false, NO_SLOTS, None, None)), b)
      case Err(e) => Err(e)
      case Ok(PropertyAcc(raw)) => FinishProperty(depth, raw)
  }

  function PropertyStep(v: RawProperty, f: Field): (r: Result<Acc>)
    ensures r.Ok? ==> r.value.PropertyAcc?
    decreases 1, 0, 0
  {
    match f
    case VarintF(1, n) =>
      (match TypeCode(n)
       case Err(e) => Err(e)
       case Ok(c) => Ok(PropertyAcc(v.(typeCode := Some(c)))))
    case VarintF(2, n) => Ok(PropertyAcc(v.(isNull := n != 0)))
    case LenF(9, body) => Ok(PropertyAcc(v.(setV := Some(body))))
    case LenF(10, body) => Ok(PropertyAcc(v.(listV := Some(body))))
    case _ =>
      (match SlotsStep(3, v.slots, f)
       case Err(e) => Err(e)
       case Ok(s) => Ok(PropertyAcc(v.(slots := s))))
  }

  function FinishProperty(depth: nat, raw: RawProperty): (r: Result<PropertyValue>)
    requires depth <= MAX_DEPTH
    decreases Budget(depth), 6, 1
  {
    if raw.typeCode.None? then Err(ValueTypeMismatch)
    else
      match D.FromCode(raw.typeCode.value)
      case Err(e) => Err(e)
      case Ok(dt) => PropertyValueOf(depth, dt, raw)
  }

  function PropertyValueOf(depth: nat, dt: DataType, raw: RawProperty): (r: Result<PropertyValue>)
    requires depth <= MAX_DEPTH
    decreases Budget(depth), 6, 0
  {
    if raw.isNull then Ok(NullV(dt))
    else
      match dt
      case PropertySet =>
        if raw.setV.None? then Err(ValueTypeMismatch)
        else
          (match DecodeSet(raw.setV.value, depth + 1)
           case Err(e) => Err(e)
           case Ok(ps) => Ok(SetV(ps)))
      case PropertySetList =>
        if raw.listV.None? then Err(ValueTypeMismatch)
        else
          (match DecodeList(raw.listV.value, depth + 1)
           case Err(e) => Err(e)
           case Ok(l) => Ok(ListV(l)))
      case _ =>
        (match BuildScalar(dt, raw.slots)
         case Err(e) => Err(e)
         case Ok(s) => Ok(Plain(s)))
  }

  function DecodeList(b: bytes, depth: nat): (r: Result<PropertySetList>)
    decreases Budget(depth), 5, 4
  {
    if depth > MAX_DEPTH then Err(RecursionLimit)
    else
      match Run(None, depth, ListAcc([]), b)
      case Err(e) => Err(e)
      case Ok(ListAcc(sets)) => Ok(PropertySetList(sets))
  }

  function ListStep(depth: nat, sets: seq<PropertySet>, f: Field): (r: Result<Acc>)
    requires depth <= MAX_DEPTH
    ensures r.Ok? ==> r.value.ListAcc?
    decreases Budget(depth), 5, 0
  {
    match f
    case LenF(1, body) =>
      (match DecodeSet(body, depth + 1)
       case Err(e) => Err(e)
       case Ok(ps) => Ok(ListAcc(sets + [ps])))
    case _ => Ok(ListAcc(sets))
  }

  // ---- Data sets ----

  function DecodeDataSet(b: bytes): Result<DataSet>
    decreases 1, 4, 4
  {
    match Run(None, MAX_DEPTH, DataSetAcc([], [], []), b)
    case Err(e) => Err(e)
    case Ok(DataSetAcc(columns, codes, slices)) => FinishDataSet(columns, codes, slices)
  }

  function FinishDataSet(columns: seq<Str>, codes: seq<u32>, slices: seq<bytes>): Result<DataSet>
    decreases 1, 4, 1
  {
    match Types(codes)
    case Err(e) => Err(e)
    case Ok(dts) =>
      match DecodeRows(slices, dts)
      case Err(e) => Err(e)
      case Ok(rows) => MakeDataSet(columns, dts, rows)
  }

  /** The column count on the wire is read and dropped; type codes may come packed. */
  function DataSetStep(columns: seq<Str>, codes: seq<u32>, slices: seq<bytes>, f: Field): (r: Result<Acc>)
    ensures r.Ok? ==> r.value.DataSetAcc?
    decreases 1, 0, 0
  {
    match f
    case LenF(2, s) =>
      (match ToStr(s)
       case Err(e) => Err(e)
       case Ok(str) => Ok(DataSetAcc(columns + [str], codes, slices)))
    case VarintF(3, v) =>
      (match TypeCode(v)
       case Err(e) => Err(e)
       case Ok(c) => Ok(DataSetAcc(columns, codes + [c], slices)))
    case LenF(3, body) =>
      (match TypeCodes(body)
       case Err(e) => Err(e)
       case Ok(cs) => Ok(DataSetAcc(columns, codes + cs, slices)))
    case LenF(4, body) => Ok(DataSetAcc(columns, codes, slices + [body]))
    case _ => Ok(DataSetAcc(columns, codes, slices))
  }

  function DecodeRows(slices: seq<bytes>, dts: seq<DataType>): Result<seq<seq<Cell>>>
    decreases 1, 4, 0, |slices|
  {
    if slices == [] then Ok([])
    else
      match DecodeRow(slices[0], dts)
      case Err(e) => Err(e)
      case Ok(row) =>
        match DecodeRows(slices[1..], dts)
        case Err(e) => Err(e)
        case Ok(rows) => Ok([row] + rows)
  }

  function DecodeRow(b: bytes, dts: seq<DataType>): Result<seq<Cell>>
    decreases 1, 3, 4
  {
    match Run(None, MAX_DEPTH, RowAcc(dts, []), b)
    case Err(e) => Err(e)
    case Ok(RowAcc(_, cells)) => Ok(cells)
  }

  function RowStep(dts: seq<DataType>, cells: seq<Cell>, f: Field): (r: Result<Acc>)
    ensures r.Ok? ==> r.value.RowAcc?
    decreases 1, 3, 0
  {
    match f
    case LenF(1, body) =>
      if |cells| >= |dts| then Err(DataSetShape)
      else
        (match DecodeCell(body, dts[|cells|])
         case Err(e) => Err(e)
         case Ok(c) => Ok(RowAcc(dts, cells + [c])))
    case _ => Ok(RowAcc(dts, cells))
  }

  function DecodeCell(b: bytes, dt: DataType): Result<Cell>
    decreases 1, 2, 4
  {
    match Run(None, MAX_DEPTH, CellAcc(NO_SLOTS), b)
    case Err(e) => Err(e)
    case Ok(CellAcc(s)) => FinishCell(dt, s)
  }

  function FinishCell(dt: DataType, s: Slots): Result<Cell> {
    if !s.Any() then Ok(Empty)
    else if !dt.IsBasic() then Err(DataSetShape)
    else
      match BuildScalar(dt, s)
      case Err(e) => Err(e)
      case Ok(v) => Ok(Filled(v))
  }

  function CellStep(s: Slots, f: Field): (r: Result<Acc>)
    ensures r.Ok? ==> r.value.CellAcc?
    decreases 1, 0, 0
  {
    match SlotsStep(1, s, f)
    case Err(e) => Err(e)
    case Ok(next) => Ok(CellAcc(next))
  }

  // ---- Templates ----

  function DecodeTemplate(b: bytes, types: Option<Registry>, depth: nat): (r: Result<Template>)
    decreases Budget(depth), 8, 4
  {
    if depth > MAX_DEPTH then Err(RecursionLimit)
    else
      match Run(types, depth, TemplateAcc(NO_TEMPLATE), b)
      case Err(e) => Err(e)
      case Ok(TemplateAcc(t)) => Ok(t)
  }

  function TemplateStep(types: Option<Registry>, depth: nat, t: Template, f: Field): (r: Result<Acc>)
    requires depth <= MAX_DEPTH
    ensures r.Ok? ==> r.value.TemplateAcc?
    decreases Budget(depth), 8, 0
  {
    match f
    case LenF(1, s) =>
      (match ToStr(s)
       case Err(e) => Err(e)
       case Ok(str) => Ok(TemplateAcc(t.(version := Some(str)))))
    case LenF(2, body) =>
      (match DecodeMetric(body, types, depth + 1)
       case Err(e) => Err(e)
       case Ok(m) => Ok(TemplateAcc(t.(metrics := t.metrics + [m]))))
    case LenF(3, body) =>
      (match DecodeParameter(body)
       case Err(e) => Err(e)
       case Ok(p) => Ok(TemplateAcc(t.(parameters := t.parameters + [p]))))
    case LenF(4, s) =>
      (match ToStr(s)
       case Err(e) => Err(e)
       case Ok(str) => Ok(TemplateAcc(t.(templateRef := Some(str)))))
    case VarintF(5, v) => Ok(TemplateAcc(t.(isDefinition := v != 0)))
    case _ => Ok(TemplateAcc(t))
  }

  function DecodeParameter(b: bytes): Result<Parameter>
    decreases 1, 1, 4
  {
    match Run(None, MAX_DEPTH, ParameterAcc(RawParameter(None, None, NO_SLOTS)), b)
    case Err(e) => Err(e)
    case Ok(ParameterAcc(raw)) => FinishParameter(raw)
  }

  function FinishParameter(raw: RawParameter): Result<Parameter> {
    if raw.name.None? || raw.typeCode.None? then Err(ValueTypeMismatch)
    else
      match D.FromCode(raw.typeCode.value)
      case Err(e) => Err(e)
      case Ok(dt) =>
        if !raw.slots.Any() then Ok(Parameter(raw.name.value, dt, None))
        else
          match BuildScalar(dt, raw.slots)
          case Err(e) => Err(e)
          case Ok(v) => Ok(Parameter(raw.name.value, dt, Some(v)))
  }

  function ParameterStep(p: RawParameter, f: Field): (r: Result<Acc>)
    ensures r.Ok? ==> r.value.ParameterAcc?
    decreases 1, 0, 0
  {
    match f
    case LenF(1, s) =>
      (match ToStr(s)
       case Err(e) => Err(e)
       case Ok(str) => Ok(ParameterAcc(p.(name := Some(str)))))
    case VarintF(2, n) =>
      (match TypeCode(n)
       case Err(e) => Err(e)
       case Ok(c) => Ok(ParameterAcc(p.(typeCode := Some(c)))))
    case _ =>
      (match SlotsStep(3, p.slots, f)
       case Err(e) => Err(e)
       case Ok(s) => Ok(ParameterAcc(p.(slots := s))))
  }
}
