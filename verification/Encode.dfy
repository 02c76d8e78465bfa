/** The fields each component is encoded to (src/codec/encode.rs). */
module Encode {
  import opened Base
  import opened Wire
  import opened Model
  import opened Arrays
  import opened Scalars

  // Optional fields: nothing, or one field.

  function OptNum(num: u32, v: Option<u64>): seq<Field> {
    if v.Some? then [VarintF(num, v.value)] else []
  }

  /** A byte as a 64-bit number. */
  function Widen(v: Option<byte>): Option<u64> {
    if v.Some? then Some(v.value) else None
  }

  function OptBool(num: u32, v: Option<bool>): seq<Field> {
    if v.Some? then [BoolF(num, v.value)] else []
  }

  function OptBytes(num: u32, v: Option<bytes>): seq<Field> {
    if v.Some? then [LenF(num, v.value)] else []
  }

  // ---- Payload and metric ----

  function PayloadFields(p: Payload, strip: bool): seq<Field> {
    OptNum(1, p.timestamp) + MetricList(p.metrics, strip) + OptNum(3, Widen(p.seqNo)) + OptBytes(4, p.uuid)
      + OptBytes(5, p.body)
  }

  function EncodePayload(p: Payload, strip: bool): bytes { Ser(PayloadFields(p, strip)) }

  /** Repeated metrics: field 2 of a payload and of a template. */
  function MetricList(ms: seq<Metric>, strip: bool): seq<Field> {
    if ms == [] then [] else [LenF(2, EncodeMetric(ms[0], strip))] + MetricList(ms[1..], strip)
  }

  function EncodeMetric(m: Metric, strip: bool): bytes
    decreases m, 3
  {
    Ser(MetricFields(m, strip))
  }

  function MetricFields(m: Metric, strip: bool): seq<Field>
    decreases m, 2
  {
    MetricHead(m, strip)
    + OptBytes(8, EncodedMetaData(m.metadata)) + OptBytes(9, EncodedProperties(m.properties))
    + ValueFields(m.value, strip)
  }

  function MetricHead(m: Metric, strip: bool): seq<Field> {
    OptBytes(1, m.name) + OptNum(2, m.alias) + OptNum(3, m.timestamp)
    + (if strip then [] else [VarintF(4, m.value.Type().Code())])
    + OptBool(5, m.isHistorical) + OptBool(6, m.isTransient)
    + (if m.value.Null? then [BoolF(7, true)] else [])
  }

  function EncodedMetaData(md: Option<MetaData>): Option<bytes> {
    if md.Some? then Some(Ser(MetaDataFields(md.value))) else None
  }

  function EncodedProperties(ps: Option<PropertySet>): Option<bytes> {
    if ps.Some? then Some(EncodeSet(ps.value)) else None
  }

  function ValueFields(v: MetricValue, strip: bool): seq<Field> {
    match v
    case Basic(s) => [ScalarF(10, s)]
    case Uuid(s) => [LenF(15, s)]
    case Bytes(b) => [LenF(16, b)]
    case File(b) => [LenF(16, b)]
    case Array(a) => [LenF(16, Pack(a))]
    case DataSetV(d) => [LenF(17, Ser(DataSetFields(d)))]
    case TemplateV(t) => [LenF(18, EncodeTemplate(t, strip))]
    case Null(_) => []
  }

  function EncodeMetaData(md: MetaData): bytes { Ser(MetaDataFields(md)) }

  function MetaDataFields(md: MetaData): seq<Field> {
    OptBool(1, md.isMultiPart) + OptBytes(2, md.contentType) + OptNum(3, md.size) + OptNum(4, md.seqNo)
    + OptBytes(5, md.fileName) + OptBytes(6, md.fileType) + OptBytes(7, md.md5) + OptBytes(8, md.description)
  }

  // ---- Property sets ----

  function EncodeSet(ps: PropertySet): bytes
    decreases ps, 2
  {
    Ser(SetFields(ps))
  }

  /** All the keys, then all the values. */
  function SetFields(ps: PropertySet): seq<Field>
    decreases ps, 1
  {
    KeyList(ps.entries) + ValueList(ps.entries)
  }

  function KeyList(es: seq<Entry>): seq<Field> {
    if es == [] then [] else [LenF(1, es[0].key)] + KeyList(es[1..])
  }

  function ValueList(es: seq<Entry>): seq<Field> {
    if es == [] then [] else [LenF(2, EncodeProperty(es[0].value))] + ValueList(es[1..])
  }

  function EncodeProperty(v: PropertyValue): bytes
    decreases v, 2
  {
    Ser(PropertyFields(v))
  }

  function PropertyFields(v: PropertyValue): seq<Field>
    decreases v, 1
  {
    [VarintF(1, v.Type().Code())] + [PropertyField(v)]
  }

  function PropertyField(v: PropertyValue): Field
    decreases v, 0
  {
    match v
    case NullV(_) => BoolF(2, true)
    case Plain(s) => ScalarF(3, s)
    case SetV(ps) => LenF(9, EncodeSet(ps))
    case ListV(l) => LenF(10, Ser(SetList(l.sets)))
  }

  function EncodeList(l: PropertySetList): bytes { Ser(SetList(l.sets)) }

  function SetList(sets: seq<PropertySet>): seq<Field> {
    if sets == [] then [] else [LenF(1, EncodeSet(sets[0]))] + SetList(sets[1..])
  }

  // ---- Data sets ----

  function EncodeDataSet(d: DataSet): bytes { Ser(DataSetFields(d)) }

  function DataSetFields(d: DataSet): seq<Field> {
    [VarintF(1, |d.columns| % TWO64)] + ColumnList(d.columns) + TypeList(d.types) + RowList(d.rows)
  }

  function ColumnList(cs: seq<Str>): seq<Field> {
    if cs == [] then [] else [LenF(2, cs[0])] + ColumnList(cs[1..])
  }

  function TypeList(ts: seq<DataType>): seq<Field> {
    if ts == [] then [] else [VarintF(3, ts[0].Code())] + TypeList(ts[1..])
  }

  function RowList(rows: seq<seq<Cell>>): seq<Field> {
    if rows == [] then [] else [LenF(4, Ser(CellList(rows[0])))] + RowList(rows[1..])
  }

  function EncodeRow(row: seq<Cell>): bytes { Ser(CellList(row)) }

  function CellList(row: seq<Cell>): seq<Field> {
    if row == [] then [] else [LenF(1, Ser(CellFields(row[0])))] + CellList(row[1..])
  }

  function EncodeCell(c: Cell): bytes { Ser(CellFields(c)) }

  function CellFields(c: Cell): seq<Field> {
    if c.Filled? then [ScalarF(1, c.scalar)] else []
  }

  // ---- Templates ----

  function EncodeTemplate(t: Template, strip: bool): bytes
    decreases t, 2
  {
    Ser(TemplateFields(t, strip))
  }

  function TemplateFields(t: Template, strip: bool): seq<Field>
    decreases t, 1
  {
    OptBytes(1, t.version) + MetricList(t.metrics, strip) + ParameterList(t.parameters)
    + OptBytes(4, t.templateRef) + [BoolF(5, t.isDefinition)]
  }

  function ParameterList(ps: seq<Parameter>): seq<Field> {
    if ps == [] then [] else [LenF(3, Ser(ParameterFields(ps[0])))] + ParameterList(ps[1..])
  }

  function EncodeParameter(p: Parameter): bytes { Ser(ParameterFields(p)) }

  function ParameterFields(p: Parameter): seq<Field> {
    [LenF(1, p.name)] + [VarintF(2, p.datatype_.Code())] + (if p.value.Some? then [ScalarF(3, p.value.value)] else [])
  }
}
