/**
 The payload object model: typed values (src/value.rs) and payload components (src/model.rs).
 */
module Model {
  import opened Base
  import D = DataTypes

  type DataType = D.DataType

  // ---- Values ----

  /**
   The fourteen basic scalar variants, which metric values, property values, DataSet cells and
   template parameters have in common. Floats are bit patterns.
   */
  datatype Scalar =
    | Int8(v8: i8) | Int16(v16: i16) | Int32(v32: i32) | Int64(v64: i64)
    | UInt8(u8v: byte) | UInt16(u16v: u16) | UInt32(u32v: u32) | UInt64(u64v: u64)
    | Float(word: u32) | Double(bits: u64) | Boolean(flag: bool)
    | String(text: Str) | Text(text: Str) | DateTime(ms: i64)
  {
    function Type(): DataType {
      match this
      case Int8(_) => D.Int8
      case Int16(_) => D.Int16
      case Int32(_) => D.Int32
      case Int64(_) => D.Int64
      case UInt8(_) => D.UInt8
      case UInt16(_) => D.UInt16
      case UInt32(_) => D.UInt32
      case UInt64(_) => D.UInt64
      case Float(_) => D.Float
      case Double(_) => D.Double
      case Boolean(_) => D.Boolean
      case String(_) => D.String
      case Text(_) => D.Text
      case DateTime(_) => D.DateTime
    }
  }

  datatype ArrayValue =
    | Int8Array(i8s: seq<i8>) | Int16Array(i16s: seq<i16>) | Int32Array(i32s: seq<i32>) | Int64Array(i64s: seq<i64>)
    | UInt8Array(u8s: seq<byte>) | UInt16Array(u16s: seq<u16>) | UInt32Array(u32s: seq<u32>)
    | UInt64Array(u64s: seq<u64>)
    | FloatArray(words: seq<u32>) | DoubleArray(bits: seq<u64>)
    | BooleanArray(bools: seq<bool>) | StringArray(strings: seq<Str>) | DateTimeArray(times: seq<i64>)
  {
    function Type(): DataType {
      match this
      case Int8Array(_) => D.Int8Array
      case Int16Array(_) => D.Int16Array
      case Int32Array(_) => D.Int32Array
      case Int64Array(_) => D.Int64Array
      case UInt8Array(_) => D.UInt8Array
      case UInt16Array(_) => D.UInt16Array
      case UInt32Array(_) => D.UInt32Array
      case UInt64Array(_) => D.UInt64Array
      case FloatArray(_) => D.FloatArray
      case DoubleArray(_) => D.DoubleArray
      case BooleanArray(_) => D.BooleanArray
      case StringArray(_) => D.StringArray
      case DateTimeArray(_) => D.DateTimeArray
    }

    /**
     What the packed form can carry: no NUL inside a string, whose terminator it is, and a
     boolean count that fits its 32-bit prefix.
     */
    predicate WellFormed() {
      && (StringArray? ==> forall s <- strings :: 0 !in s)
      && (BooleanArray? ==> |bools| < TWO32)
    }
  }

  datatype MetricValue =
    | Basic(scalar: Scalar)
    | Uuid(uuid: Str)
    | Bytes(blob: bytes)
    | File(blob: bytes)
    | DataSetV(dataset: DataSet)
    | TemplateV(template: Template)
    | Array(items: ArrayValue)
    | Null(declared: DataType)
  {
    function Type(): DataType {
      match this
      case Basic(s) => s.Type()
      case Uuid(_) => D.Uuid
      case Bytes(_) => D.Bytes
      case File(_) => D.File
      case DataSetV(_) => D.DataSet
      case TemplateV(_) => D.Template
      case Array(a) => a.Type()
      case Null(dt) => dt
    }
  }

  datatype Cell = Filled(scalar: Scalar) | Empty {
    function Type(): Option<DataType> {
      if Filled? then Some(scalar.Type()) else None
    }
  }

  datatype PropertyValue =
    | Plain(scalar: Scalar)
    | SetV(nested: PropertySet)
    | ListV(list: PropertySetList)
    | NullV(declared: DataType)
  {
    function Type(): DataType {
      match this
      case Plain(s) => s.Type()
      case SetV(_) => D.PropertySet
      case ListV(_) => D.PropertySetList
      case NullV(dt) => dt
    }
  }

  // ---- Payload components ----

  datatype Payload = Payload(
    timestamp: Option<u64>, metrics: seq<Metric>, seqNo: Option<byte>, uuid: Option<Str>, body: Option<bytes>)

  datatype Metric = Metric(
    name: Option<Str>, alias: Option<u64>, timestamp: Option<u64>, value: MetricValue,
    isHistorical: Option<bool>, isTransient: Option<bool>,
    metadata: Option<MetaData>, properties: Option<PropertySet>)

  datatype MetaData = MetaData(
    isMultiPart: Option<bool>, contentType: Option<Str>, size: Option<u64>, seqNo: Option<u64>,
    fileName: Option<Str>, fileType: Option<Str>, md5: Option<Str>, description: Option<Str>)

  datatype Entry = Entry(key: Str, value: PropertyValue)

  datatype PropertySet = PropertySet(entries: seq<Entry>)

  datatype PropertySetList = PropertySetList(sets: seq<PropertySet>)

  datatype DataSet = DataSet(columns: seq<Str>, types: seq<DataType>, rows: seq<seq<Cell>>) {
    /** What `DataSet::new` accepts; the fields are private, so every DataSet meets it. */
    predicate WellFormed() {
      && |columns| == |types|
      && (forall t <- types :: t.IsBasic())
      && (forall row <- rows :: RowFits(row, types))
    }
  }

  predicate RowFits(row: seq<Cell>, types: seq<DataType>) {
    && |row| == |types|
    && forall i :: 0 <= i < |row| ==> row[i].Filled? ==> row[i].scalar.Type() == types[i]
  }

  datatype Template = Template(
    version: Option<Str>, templateRef: Option<Str>, isDefinition: bool,
    metrics: seq<Metric>, parameters: seq<Parameter>)

  datatype Parameter = Parameter(name: Str, datatype_: DataType, value: Option<Scalar>) {
    predicate WellFormed() { value.Some? ==> value.value.Type() == datatype_ }
  }

  /** `DataSet::new`: the shape and type checks, in order; every failure is the same variant. */
  method NewDataSet(columns: seq<Str>, types: seq<DataType>, rows: seq<seq<Cell>>) returns (r: Result<DataSet>)
    ensures r == MakeDataSet(columns, types, rows)
  {
    var d := DataSet(columns, types, rows);
    if |columns| != |types| { return Err(DataSetShape); }
    for i := 0 to |types|
      invariant forall k :: 0 <= k < i ==> types[k].IsBasic()
    {
      if !types[i].IsBasic() {
        assert types[i] in types;
        return Err(DataSetShape);
      }
    }
    for i := 0 to |rows|
      invariant forall k :: 0 <= k < i ==> RowFits(rows[k], types)
    {
      var row := rows[i];
      assert row in rows;
      if |row| != |columns| { return Err(DataSetShape); }
      for j := 0 to |row|
        invariant forall k :: 0 <= k < j ==> row[k].Filled? ==> row[k].scalar.Type() == types[k]
      {
        var cellType := row[j].Type();
        if cellType.Some? && cellType.value != types[j] { return Err(DataSetShape); }
      }
    }
    r := Ok(d);
  }

  function MakeDataSet(columns: seq<Str>, types: seq<DataType>, rows: seq<seq<Cell>>): (r: Result<DataSet>)
  {
    var d := DataSet(columns, types, rows);
    if d.WellFormed() then Ok(d) else Err(DataSetShape)
  }

  // ---- Well-formedness and nesting need ----

  /** What the encoded form of a metric can carry. */
  predicate WfMetric(m: Metric) {
    match m.value
    case DataSetV(d) => d.WellFormed()
    case Array(a) => a.WellFormed()
    case TemplateV(t) => WfTemplate(t)
    case _ => true
  }

  predicate WfTemplate(t: Template) {
    && (forall m <- t.metrics :: WfMetric(m))
    && (forall p <- t.parameters :: p.WellFormed())
  }

  predicate WfPayload(p: Payload) {
    forall m <- p.metrics :: WfMetric(m)
  }

  // How many levels of nested messages a component opens below its own.

  function NeedMetric(m: Metric): nat {
    var inProperties := if m.properties.Some? then 1 + NeedSet(m.properties.value) else 0;
    var inTemplate := if m.value.TemplateV? then 1 + NeedTemplate(m.value.template) else 0;
    Max(inProperties, inTemplate)
  }

  function NeedTemplate(t: Template): nat { NeedMetrics(t.metrics) }

  function NeedMetrics(ms: seq<Metric>): nat {
    if ms == [] then 0 else Max(1 + NeedMetric(ms[0]), NeedMetrics(ms[1..]))
  }

  function NeedSet(ps: PropertySet): nat { NeedEntries(ps.entries) }

  function NeedEntries(es: seq<Entry>): nat {
    if es == [] then 0 else Max(1 + NeedProperty(es[0].value), NeedEntries(es[1..]))
  }

  function NeedProperty(v: PropertyValue): nat {
    match v
    case SetV(ps) => 1 + NeedSet(ps)
    case ListV(l) => 1 + NeedSets(l.sets)
    case _ => 0
  }

  function NeedSets(sets: seq<PropertySet>): nat {
    if sets == [] then 0 else Max(1 + NeedSet(sets[0]), NeedSets(sets[1..]))
  }
}
