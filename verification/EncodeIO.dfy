/** The encode procedures of src/codec/encode.rs: one writer per message. */
module EncodeIO {
  import opened Base
  import opened Wire
  import opened WireIO
  import opened Model
  import opened Arrays
  import opened ArraysIO
  import opened Scalars
  import Encode
  import Writing

  // Optional fields: each method appends one field when the value is there, and nothing when it is not.

  method PutOptNum(w: Writer, num: u32, v: Option<u64>)
    requires w.Valid()
    modifies w
    ensures w.Valid() && w.fields == old(w.fields) + Encode.OptNum(num, v)
  {
    if v.Some? { w.UInt64Field(num, v.value); }
  }

  method PutOptBool(w: Writer, num: u32, v: Option<bool>)
    requires w.Valid()
    modifies w
    ensures w.Valid() && w.fields == old(w.fields) + Encode.OptBool(num, v)
  {
    if v.Some? { w.BoolField(num, v.value); }
  }

  method PutOptBytes(w: Writer, num: u32, v: Option<bytes>)
    requires w.Valid()
    modifies w
    ensures w.Valid() && w.fields == old(w.fields) + Encode.OptBytes(num, v)
  {
    if v.Some? { w.BytesField(num, v.value); }
  }

  method PutScalar(w: Writer, base: u32, s: Scalar)
    requires w.Valid() && base < 100
    modifies w
    ensures w.Valid() && w.fields == old(w.fields) + [ScalarF(base, s)]
  {
    match s {
      case Int8(v) => w.UInt64Field(base, AsU32(v));
      case Int16(v) => w.UInt64Field(base, AsU32(v));
      case Int32(v) => w.UInt64Field(base, AsU32(v));
      case UInt8(v) => w.UInt64Field(base, v);
      case UInt16(v) => w.UInt64Field(base, v);
      case UInt32(v) => w.UInt64Field(base, v);
      case Int64(v) => w.UInt64Field(base + 1, AsU64(v));
      case UInt64(v) => w.UInt64Field(base + 1, v);
      case DateTime(v) => w.UInt64Field(base + 1, AsU64(v));
      case Float(v) => w.FloatField(base + 2, v);
      case Double(v) => w.DoubleField(base + 3, v);
      case Boolean(v) => w.BoolField(base + 4, v);
      case String(t) => w.BytesField(base + 5, t);
      case Text(t) => w.BytesField(base + 5, t);
    }
  }

  /** A loop that has written `done` and still owes `owed` moves one field on. */
  lemma Moved(done: seq<Field>, f: Field, rest: seq<Field>)
    ensures done + ([f] + rest) == (done + [f]) + rest
  {
  }

  // ---- Payload ----

  method EncodePayload(p: Payload, strip: bool) returns (b: bytes)
    ensures b == Encode.EncodePayload(p, strip)
  {
    var w := new Writer();
    PutOptNum(w, 1, p.timestamp);
    Units(Encode.OptNum(1, p.timestamp));
    PutMetrics(w, p.metrics, strip);
    PutOptNum(w, 3, Encode.Widen(p.seqNo));
    PutOptBytes(w, 4, p.uuid);
    PutOptBytes(w, 5, p.body);
    b := w.buf;
  }

  /** Appends every metric, in order, as a nested message in field 2. */
  method PutMetrics(w: Writer, ms: seq<Metric>, strip: bool)
    requires w.Valid()
    modifies w
    ensures w.Valid() && w.fields == old(w.fields) + Encode.MetricList(ms, strip)
    decreases ms, 4
  {
    for i := 0 to |ms|
      invariant w.Valid()
      invariant w.fields + Encode.MetricList(ms[i..], strip) == old(w.fields) + Encode.MetricList(ms, strip)
    {
      ghost var done := w.fields;
      var body := EncodeMetric(ms[i], strip);
      w.BytesField(2, body);
      Moved(done, LenF(2, body), Encode.MetricList(ms[i + 1..], strip));
      assert ms[i..][1..] == ms[i + 1..];
    }
    Units(w.fields);
  }

  // ---- Metric ----

  method EncodeMetric(m: Metric, strip: bool) returns (b: bytes)
    ensures b == Encode.EncodeMetric(m, strip)
    decreases m, 3
  {
    hide Encode.MetricHead, Encode.ValueFields, Encode.EncodeSet, Encode.MetaDataFields, Wire.Ser;
    var w := new Writer();
    PutMetricHead(w, m, strip);
    if m.metadata.Some? {
      var body := EncodeMetaData(m.metadata.value);
      w.BytesField(8, body);
    }
    assert w.fields == Encode.MetricHead(m, strip) + Encode.OptBytes(8, Encode.EncodedMetaData(m.metadata));
    if m.properties.Some? {
      var body := EncodeSet(m.properties.value);
      w.BytesField(9, body);
    }
    assert w.fields == Encode.MetricHead(m, strip) + Encode.OptBytes(8, Encode.EncodedMetaData(m.metadata))
                       + Encode.OptBytes(9, Encode.EncodedProperties(m.properties));
    PutMetricValue(w, m.value, strip);
    b := w.buf;
  }

  method PutMetricHead(w: Writer, m: Metric, strip: bool)
    requires w.Valid() && w.fields == []
    modifies w
    ensures w.Valid() && w.fields == Encode.MetricHead(m, strip)
  {
    PutOptBytes(w, 1, m.name);
    Units(Encode.OptBytes(1, m.name));
    PutOptNum(w, 2, m.alias);
    PutOptNum(w, 3, m.timestamp);
    ghost var done := w.fields;
    if !strip { w.UInt64Field(4, m.value.Type().Code()); }
    Units(done);
    PutOptBool(w, 5, m.isHistorical);
    PutOptBool(w, 6, m.isTransient);
    done := w.fields;
    if m.value.Null? { w.BoolField(7, true); }
    Units(done);
  }

  method PutMetricValue(w: Writer, v: MetricValue, strip: bool)
    requires w.Valid()
    modifies w
    ensures w.Valid() && w.fields == old(w.fields) + Encode.ValueFields(v, strip)
    decreases v, 2
  {
    hide Encode.EncodeTemplate, Encode.DataSetFields, Arrays.Pack, Wire.Ser;
    match v {
      case Basic(s) => PutScalar(w, 10, s);
      case Uuid(s) => w.BytesField(15, s);
      case Bytes(blob) => w.BytesField(16, blob);
      case File(blob) => w.BytesField(16, blob);
      case DataSetV(d) =>
        var body := EncodeDataSet(d);
        w.BytesField(17, body);
      case TemplateV(t) =>
        var body := EncodeTemplate(t, strip);
        w.BytesField(18, body);
      case Array(a) =>
        var packed := PackArray(a);
        w.BytesField(16, packed);
      case Null(_) =>
    }
  }

  method EncodeMetaData(md: MetaData) returns (b: bytes)
    ensures b == Ser(Encode.MetaDataFields(md))
  {
    var w := new Writer();
    PutOptBool(w, 1, md.isMultiPart);
    Units(Encode.OptBool(1, md.isMultiPart));
    PutOptBytes(w, 2, md.contentType);
    PutOptNum(w, 3, md.size);
    PutOptNum(w, 4, md.seqNo);
    PutOptBytes(w, 5, md.fileName);
    PutOptBytes(w, 6, md.fileType);
    PutOptBytes(w, 7, md.md5);
    PutOptBytes(w, 8, md.description);
    b := w.buf;
  }

  // ---- Property sets ----

  method EncodeSet(ps: PropertySet) returns (b: bytes)
    ensures b == Encode.EncodeSet(ps)
    decreases ps, 3
  {
    hide Encode.EncodeProperty;
    var w := new Writer();
    var es := ps.entries;
    for i := 0 to |es|
      invariant w.Valid()
      invariant w.fields + Encode.KeyList(es[i..]) == Encode.KeyList(es)
    {
      Moved(w.fields, LenF(1, es[i].key), Encode.KeyList(es[i + 1..]));
      assert es[i..][1..] == es[i + 1..];
      w.BytesField(1, es[i].key);
    }
    Units(w.fields);
    for i := 0 to |es|
      invariant w.Valid()
      invariant w.fields + Encode.ValueList(es[i..]) == Encode.SetFields(ps)
    {
      ghost var done := w.fields;
      var body := EncodeProperty(es[i].value);
      Moved(done, LenF(2, body), Encode.ValueList(es[i + 1..]));
      assert es[i..][1..] == es[i + 1..];
      w.BytesField(2, body);
    }
    Units(w.fields);
    b := w.buf;
  }

  method EncodeProperty(v: PropertyValue) returns (b: bytes)
    ensures b == Encode.EncodeProperty(v)
    decreases v, 2
  {
    hide Encode.EncodeSet, Encode.SetList;
    var w := new Writer();
    w.UInt64Field(1, v.Type().Code());
    Units([VarintF(1, v.Type().Code())]);
    match v {
      case NullV(_) => w.BoolField(2, true);
      case Plain(s) => PutScalar(w, 3, s);
      case SetV(ps) =>
        var body := EncodeSet(ps);
        w.BytesField(9, body);
      case ListV(l) =>
        var body := EncodeSetList(l);
        w.BytesField(10, body);
    }
    assert w.fields == Encode.PropertyFields(v);
    b := w.buf;
  }

  method EncodeSetList(l: PropertySetList) returns (b: bytes)
    ensures b == Ser(Encode.SetList(l.sets))
    decreases l, 4
  {
    hide Encode.EncodeSet;
    var w := new Writer();
    for i := 0 to |l.sets|
      invariant w.Valid()
      invariant w.fields + Encode.SetList(l.sets[i..]) == Encode.SetList(l.sets)
    {
      ghost var done := w.fields;
      var body := EncodeSet(l.sets[i]);
      Moved(done, LenF(1, body), Encode.SetList(l.sets[i + 1..]));
      assert l.sets[i..][1..] == l.sets[i + 1..];
      w.BytesField(1, body);
    }
    Units(w.fields);
    b := w.buf;
  }

  // ---- Data sets ----

  method EncodeDataSet(d: DataSet) returns (b: bytes)
    ensures b == Ser(Encode.DataSetFields(d))
    ensures ReadField(b).Ok? && ReadField(b).value.0 == VarintF(1, |d.columns| % TWO64)
  {
    var w := new Writer();
    w.UInt64Field(1, |d.columns| % TWO64);
    Units([VarintF(1, |d.columns| % TWO64)]);
    ghost var head := w.fields;
    for i := 0 to |d.columns|
      invariant w.Valid() && w.fields + Encode.ColumnList(d.columns[i..]) == head + Encode.ColumnList(d.columns)
    {
      Moved(w.fields, LenF(2, d.columns[i]), Encode.ColumnList(d.columns[i + 1..]));
      assert d.columns[i..][1..] == d.columns[i + 1..];
      w.BytesField(2, d.columns[i]);
    }
    Units(w.fields);
    head := w.fields;
    for i := 0 to |d.types|
      invariant w.Valid() && w.fields + Encode.TypeList(d.types[i..]) == head + Encode.TypeList(d.types)
    {
      Moved(w.fields, VarintF(3, d.types[i].Code()), Encode.TypeList(d.types[i + 1..]));
      assert d.types[i..][1..] == d.types[i + 1..];
      w.UInt64Field(3, d.types[i].Code());
    }
    Units(w.fields);
    PutRows(w, d.rows);
    Writing.ColumnCountFirst(d);
    b := w.buf;
  }

  method PutRows(w: Writer, rows: seq<seq<Cell>>)
    requires w.Valid()
    modifies w
    ensures w.Valid() && w.fields == old(w.fields) + Encode.RowList(rows)
  {
    hide Encode.CellList;
    for i := 0 to |rows|
      invariant w.Valid() && w.fields + Encode.RowList(rows[i..]) == old(w.fields) + Encode.RowList(rows)
    {
      ghost var done := w.fields;
      var body := EncodeRow(rows[i]);
      Moved(done, LenF(4, body), Encode.RowList(rows[i + 1..]));
      assert rows[i..][1..] == rows[i + 1..];
      w.BytesField(4, body);
    }
    Units(w.fields);
  }

  method EncodeRow(row: seq<Cell>) returns (b: bytes)
    ensures b == Ser(Encode.CellList(row))
  {
    hide Encode.CellFields;
    var w := new Writer();
    for i := 0 to |row|
      invariant w.Valid() && w.fields + Encode.CellList(row[i..]) == Encode.CellList(row)
    {
      ghost var done := w.fields;
      var body := EncodeCell(row[i]);
      Moved(done, LenF(1, body), Encode.CellList(row[i + 1..]));
      assert row[i..][1..] == row[i + 1..];
      w.BytesField(1, body);
    }
    Units(w.fields);
    b := w.buf;
  }

  method EncodeCell(c: Cell) returns (b: bytes)
    ensures b == Ser(Encode.CellFields(c))
  {
    var w := new Writer();
    if c.Filled? { PutScalar(w, 1, c.scalar); }
    assert w.fields == Encode.CellFields(c);
    b := w.buf;
  }

  // ---- Templates ----

  method EncodeTemplate(t: Template, strip: bool) returns (b: bytes)
    ensures b == Encode.EncodeTemplate(t, strip)
    decreases t, 1
  {
    hide Encode.MetricList, Encode.ParameterList;
    var w := new Writer();
    PutOptBytes(w, 1, t.version);
    Units(Encode.OptBytes(1, t.version));
    PutMetrics(w, t.metrics, strip);
    PutParameters(w, t.parameters);
    PutOptBytes(w, 4, t.templateRef);
    w.BoolField(5, t.isDefinition);
    b := w.buf;
  }

  method PutParameters(w: Writer, ps: seq<Parameter>)
    requires w.Valid()
    modifies w
    ensures w.Valid() && w.fields == old(w.fields) + Encode.ParameterList(ps)
  {
    hide Encode.ParameterFields;
    for i := 0 to |ps|
      invariant w.Valid() && w.fields + Encode.ParameterList(ps[i..]) == old(w.fields) + Encode.ParameterList(ps)
    {
      ghost var done := w.fields;
      var body := EncodeParameter(ps[i]);
      Moved(done, LenF(3, body), Encode.ParameterList(ps[i + 1..]));
      assert ps[i..][1..] == ps[i + 1..];
      w.BytesField(3, body);
    }
    Units(w.fields);
  }

  method EncodeParameter(p: Parameter) returns (b: bytes)
    ensures b == Ser(Encode.ParameterFields(p))
  {
    var w := new Writer();
    w.BytesField(1, p.name);
    w.UInt64Field(2, p.datatype_.Code());
    if p.value.Some? { PutScalar(w, 3, p.value.value); }
    assert w.fields == Encode.ParameterFields(p);
    b := w.buf;
  }
}
