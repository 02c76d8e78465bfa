/** The decode loops of src/codec/decode.rs, each proved to compute what Decode specifies. */
module DecodeIO {
  import opened Base
  import opened Wire
  import opened WireIO
  import opened Model
  import opened Alias
  import opened Scalars
  import opened ArraysIO
  import Arrays
  import opened Decode
  import D = DataTypes

  /** The run over the rest of a buffer, when its first field leads to the outcome `r`. */
  function After(types: Option<Registry>, depth: nat, r: Result<Acc>, rest: bytes): Result<Acc>
    requires depth <= MAX_DEPTH
  {
    if r.Ok? then Run(types, depth, r.value, rest) else r
  }

  /** One turn of a loop. */
  lemma Turn(types: Option<Registry>, depth: nat, acc: Acc, rest: bytes)
    requires depth <= MAX_DEPTH && rest != []
    ensures ReadField(rest).Err? ==> Run(types, depth, acc, rest) == Err(ReadField(rest).error)
    ensures ReadField(rest).Ok? ==>
      Run(types, depth, acc, rest) ==
      After(types, depth, Step(types, depth, acc, ReadField(rest).value.0), rest[ReadField(rest).value.1..])
  {
    hide Decode.Step, Wire.ReadField;
    if ReadField(rest).Ok? {
      var (f, n) := ReadField(rest).value;
      var tail := Tokens(rest[n..]).fields;
      assert Tokens(rest).fields == [f] + tail;
      assert ([f] + tail)[1..] == tail;
    }
  }

  lemma Done(types: Option<Registry>, depth: nat, acc: Acc)
    requires depth <= MAX_DEPTH
    ensures Run(types, depth, acc, []) == Ok(acc)
  {
  }

  // ---- Payload ----

  lemma StepIs(types: Option<Registry>, depth: nat, acc: Acc, f: Field)
    requires depth <= MAX_DEPTH
    ensures Step(types, depth, acc, f) ==
      match acc {
        case PayloadAcc(p) => PayloadStep(types, depth, p, f)
        case MetricAcc(m) => MetricStep(depth, m, f)
        case TemplateAcc(t) => TemplateStep(types, depth, t, f)
        case SetAcc(keys, values) => SetStep(depth, keys, values, f)
        case PropertyAcc(v) => PropertyStep(v, f)
        case ListAcc(sets) => ListStep(depth, sets, f)
        case MetaAcc(md) => MetaStep(md, f)
        case DataSetAcc(columns, codes, slices) => DataSetStep(columns, codes, slices, f)
        case RowAcc(dts, cells) => RowStep(dts, cells, f)
        case CellAcc(slots) => CellStep(slots, f)
        case ParameterAcc(p) => ParameterStep(p, f)
      }
  {
  }

  method DecodePayload(b: bytes, types: Option<Registry>) returns (r: Result<Payload>)
    ensures r == Decode.DecodePayload(b, types)
  {
    hide Reader.Rest, Reader.Valid, Reader.IsEmpty;
    hide Decode.Run, Decode.Fold, Decode.Step, Wire.Tokens, Wire.ReadField, Decode.DecodeMetric;
    hide Decode.MetricStep, Decode.TemplateStep, Decode.SetStep, Decode.PropertyStep, Decode.ListStep;
    hide Decode.MetaStep, Decode.DataSetStep, Decode.RowStep, Decode.CellStep, Decode.ParameterStep;
    var rd := new Reader(b);
    var p := NO_PAYLOAD;
    while !rd.IsEmpty()
      invariant rd.Valid()
      invariant Run(types, 0, PayloadAcc(NO_PAYLOAD), b) == Run(types, 0, PayloadAcc(p), rd.Rest())
      decreases |rd.Rest()|
    {
      ghost var rest := rd.Rest();
      Turn(types, 0, PayloadAcc(p), rest);
      var f :- rd.ReadField();
      StepIs(types, 0, PayloadAcc(p), f);
      match f {
        case VarintF(1, v) => p := p.(timestamp := Some(v));
        case LenF(2, body) =>
          var m :- DecodeMetric(body, types, 0);
          p := p.(metrics := p.metrics + [m]);
        case VarintF(3, v) => p := p.(seqNo := Some(v % TWO8));
        case LenF(4, s) =>
          var str :- ToStr(s);
          p := p.(uuid := Some(str));
        case LenF(5, body) => p := p.(body := Some(body));
        case _ =>
      }
    }
    Done(types, 0, PayloadAcc(p));
    r := Ok(p);
  }

  // ---- Metric ----

  method DecodeMetric(b: bytes, types: Option<Registry>, depth: nat) returns (r: Result<Metric>)
    ensures r == Decode.DecodeMetric(b, types, depth)
    decreases Budget(depth), 9, 4
  {
    hide Reader.Rest, Reader.Valid, Reader.IsEmpty;
    hide Decode.Run, Decode.Fold, Decode.Step, Wire.Tokens, Wire.ReadField, Decode.DecodeSet;
    hide Decode.DecodeMetaData, Decode.FinishMetric, Scalars.SlotsStep, Base.ValidUtf8, Decode.PayloadStep;
    hide Decode.TemplateStep, Decode.SetStep, Decode.PropertyStep, Decode.ListStep, Decode.MetaStep;
    hide Decode.DataSetStep, Decode.RowStep, Decode.CellStep, Decode.ParameterStep;
    if depth > MAX_DEPTH { return Err(RecursionLimit); }
    var rd := new Reader(b);
    var m := RAW_METRIC;
    while !rd.IsEmpty()
      invariant rd.Valid()
      invariant Run(types, depth, MetricAcc(RAW_METRIC), b) == Run(types, depth, MetricAcc(m), rd.Rest())
      decreases |rd.Rest()|
    {
      ghost var rest := rd.Rest();
      Turn(types, depth, MetricAcc(m), rest);
      var f :- rd.ReadField();
      StepIs(types, depth, MetricAcc(m), f);
      match f {
        case LenF(1, s) =>
          var str :- ToStr(s);
          m := m.(name := Some(str));
        case VarintF(2, v) => m := m.(alias := Some(v));
        case VarintF(3, v) => m := m.(timestamp := Some(v));
        case VarintF(4, v) =>
          var code :- TypeCode(v);
          m := m.(typeCode := Some(code));
        case VarintF(5, v) => m := m.(isHistorical := Some(v != 0));
        case VarintF(6, v) => m := m.(isTransient := Some(v != 0));
        case VarintF(7, v) => m := m.(isNull := v != 0);
        case LenF(8, body) =>
          var md :- DecodeMetaData(body);
          m := m.(metadata := Some(md));
        case LenF(9, body) =>
          var ps :- DecodeSet(body, depth + 1);
          m := m.(properties := Some(ps));
        case LenF(16, body) => m := m.(bytesV := Some(body));
        case LenF(17, body) => m := m.(datasetV := Some(body));
        case LenF(18, body) => m := m.(templateV := Some(body));
        case _ =>
          var slots :- SlotsStep(10, m.slots, f);
          m := m.(slots := slots);
      }
    }
    Done(types, depth, MetricAcc(m));
    r := FinishMetric(types, depth, m);
  }

  method FinishMetric(types: Option<Registry>, depth: nat, raw: RawMetric) returns (r: Result<Metric>)
    requires depth <= MAX_DEPTH
    ensures r == Decode.FinishMetric(types, depth, raw)
    decreases Budget(depth), 9, 2
  {
    hide Decode.MetricValueOf;
    var dt :- MetricType(types, raw);
    var v :- BuildMetricValue(types, depth, dt, raw);
    r := Ok(Metric(raw.name, raw.alias, raw.timestamp, v, raw.isHistorical, raw.isTransient, raw.metadata,
                   raw.properties));
  }

  method BuildMetricValue(types: Option<Registry>, depth: nat, dt: DataType,
                          raw: RawMetric) returns (r: Result<MetricValue>)
    requires depth <= MAX_DEPTH
    ensures r == MetricValueOf(types, depth, dt, raw)
    decreases Budget(depth), 9, 1
  {
    hide Decode.DecodeTemplate, Decode.DecodeDataSet, Arrays.Unpack, Scalars.BuildScalar;
    hide Decode.Run, Decode.Fold, Decode.Step, Wire.Tokens;
    if raw.isNull { return Ok(Null(dt)); }
    if dt.IsBasic() {
      r := BasicValue(dt, raw.slots);
    } else if dt.IsArray() {
      r := ArrayOf(dt, raw.bytesV);
    } else {
      r := NestedValue(types, depth, dt, raw);
    }
  }

  method BasicValue(dt: DataType, slots: Slots) returns (r: Result<MetricValue>)
    ensures r == if BuildScalar(dt, slots).Ok? then Ok(Basic(BuildScalar(dt, slots).value))
                 else Err(BuildScalar(dt, slots).error)
  {
    hide Scalars.BuildScalar;
    var s :- BuildScalar(dt, slots);
    r := Ok(Basic(s));
  }

  method ArrayOf(dt: DataType, slice: Option<bytes>) returns (r: Result<MetricValue>)
    requires dt.IsArray()
    ensures slice.None? ==> r == Err(ValueTypeMismatch)
    ensures slice.Some? ==>
      r == if Arrays.Unpack(dt, slice.value).Ok? then Ok(Array(Arrays.Unpack(dt, slice.value).value))
           else Err(Arrays.Unpack(dt, slice.value).error)
  {
    hide Arrays.Unpack;
    var b :- OrMismatch(slice);
    var a :- UnpackArray(dt, b);
    r := Ok(Array(a));
  }

  method NestedValue(types: Option<Registry>, depth: nat, dt: DataType, raw: RawMetric) returns (r: Result<MetricValue>)
    requires depth <= MAX_DEPTH && !raw.isNull && !dt.IsBasic() && !dt.IsArray()
    ensures r == MetricValueOf(types, depth, dt, raw)
    decreases Budget(depth), 9, 0
  {
    hide Decode.DecodeTemplate, Decode.DecodeDataSet, Arrays.Unpack, Scalars.BuildScalar;
    hide Decode.Run, Decode.Fold, Decode.Step, Wire.Tokens, D.DataType.IsBasic, D.DataType.IsArray;
    match dt {
      case Uuid =>
        var s :- OrMismatch(raw.slots.stringV);
        r := Ok(Uuid(s));
      case Bytes =>
        var blob :- OrMismatch(raw.bytesV);
        r := Ok(Bytes(blob));
      case File =>
        var blob :- OrMismatch(raw.bytesV);
        r := Ok(File(blob));
      case DataSet =>
        var slice :- OrMismatch(raw.datasetV);
        var d :- DecodeDataSet(slice);
        r := Ok(DataSetV(d));
      case Template =>
        var slice :- OrMismatch(raw.templateV);
        var t :- DecodeTemplate(slice, types, depth + 1);
        r := Ok(TemplateV(t));
      case _ => r := Err(ValueTypeMismatch);
    }
  }

  method DecodeMetaData(b: bytes) returns (r: Result<MetaData>)
    ensures r == Decode.DecodeMetaData(b)
    decreases 1, 0, 4
  {
    hide Reader.Rest, Reader.Valid, Reader.IsEmpty;
    hide Decode.Run, Decode.Fold, Decode.Step, Wire.Tokens, Wire.ReadField, Base.ValidUtf8;
    hide Decode.PayloadStep, Decode.MetricStep, Decode.TemplateStep, Decode.SetStep, Decode.PropertyStep;
    hide Decode.ListStep, Decode.DataSetStep, Decode.RowStep, Decode.CellStep, Decode.ParameterStep;
    var rd := new Reader(b);
    var md := NO_METADATA;
    while !rd.IsEmpty()
      invariant rd.Valid()
      invariant Run(None, MAX_DEPTH, MetaAcc(NO_METADATA), b) == Run(None, MAX_DEPTH, MetaAcc(md), rd.Rest())
      decreases |rd.Rest()|
    {
      ghost var rest := rd.Rest();
      Turn(None, MAX_DEPTH, MetaAcc(md), rest);
      var f :- rd.ReadField();
      StepIs(None, MAX_DEPTH, MetaAcc(md), f);
      match f {
        case VarintF(1, v) => md := md.(isMultiPart := Some(v != 0));
        case VarintF(3, v) => md := md.(size := Some(v));
        case VarintF(4, v) => md := md.(seqNo := Some(v));
        case LenF(n, s) =>
          if n == 2 || 5 <= n <= 8 {
            var str :- ToStr(s);
            md :=
              if n == 2 then md.(contentType := Some(str))
              else if n == 5 then md.(fileName := Some(str))
              else if n == 6 then md.(fileType := Some(str))
              else if n == 7 then md.(md5 := Some(str))
              else md.(description := Some(str));
          }
        case _ =>
      }
    }
    Done(None, MAX_DEPTH, MetaAcc(md));
    r := Ok(md);
  }

  // ---- Property sets ----

  method DecodeSet(b: bytes, depth: nat) returns (r: Result<PropertySet>)
    ensures r == Decode.DecodeSet(b, depth)
    decreases Budget(depth), 7, 4
  {
    hide Reader.Rest, Reader.Valid, Reader.IsEmpty;
    hide Decode.Run, Decode.Fold, Decode.Step, Wire.Tokens, Wire.ReadField, Decode.DecodeProperty;
    hide Base.ValidUtf8, Decode.PayloadStep, Decode.MetricStep, Decode.TemplateStep, Decode.PropertyStep;
    hide Decode.ListStep, Decode.MetaStep, Decode.DataSetStep, Decode.RowStep, Decode.CellStep;
    hide Decode.ParameterStep;
    if depth > MAX_DEPTH { return Err(RecursionLimit); }
    var rd := new Reader(b);
    var keys: seq<Str>, values: seq<PropertyValue> := [], [];
    while !rd.IsEmpty()
      invariant rd.Valid()
      invariant Run(None, depth, SetAcc([], []), b) == Run(None, depth, SetAcc(keys, values), rd.Rest())
      decreases |rd.Rest()|
    {
      ghost var rest := rd.Rest();
      Turn(None, depth, SetAcc(keys, values), rest);
      var f :- rd.ReadField();
      StepIs(None, depth, SetAcc(keys, values), f);
      match f {
        case LenF(1, s) =>
          var str :- ToStr(s);
          keys := keys + [str];
        case LenF(2, body) =>
          var v :- DecodeProperty(body, depth + 1);
          values := values + [v];
        case _ =>
      }
    }
    Done(None, depth, SetAcc(keys, values));
    if |keys| != |values| { return Err(ValueTypeMismatch); }
    r := Ok(PropertySet(Zip(keys, values)));
  }

  method DecodeProperty(b: bytes, depth: nat) returns (r: Result<PropertyValue>)
    ensures r == Decode.DecodeProperty(b, depth)
    decreases Budget(depth), 6, 4
  {
    hide Reader.Rest, Reader.Valid, Reader.IsEmpty;
    hide Decode.Run, Decode.Fold, Decode.Step, Wire.Tokens, Wire.ReadField, Decode.FinishProperty;
    hide Scalars.SlotsStep, Decode.PayloadStep, Decode.MetricStep, Decode.TemplateStep, Decode.SetStep;
    hide Decode.ListStep, Decode.MetaStep, Decode.DataSetStep, Decode.RowStep, Decode.CellStep;
    hide Decode.ParameterStep;
    if depth > MAX_DEPTH { return Err(RecursionLimit); }
    var rd := new Reader(b);
    var v := RawProperty(None, false, NO_SLOTS, None, None);
    ghost var init := PropertyAcc(v);
    while !rd.IsEmpty()
      invariant rd.Valid()
      invariant Run(None, depth, init, b) == Run(None, depth, PropertyAcc(v), rd.Rest())
      decreases |rd.Rest()|
    {
      ghost var rest := rd.Rest();
      Turn(None, depth, PropertyAcc(v), rest);
      var f :- rd.ReadField();
      StepIs(None, depth, PropertyAcc(v), f);
      match f {
        case VarintF(1, n) =>
          var code :- TypeCode(n);
          v := v.(typeCode := Some(code));
        case VarintF(2, n) => v := v.(isNull := n != 0);
        case LenF(9, body) => v := v.(setV := Some(body));
        case LenF(10, body) => v := v.(listV := Some(body));
        case _ =>
          var slots :- SlotsStep(3, v.slots, f);
          v := v.(slots := slots);
      }
    }
    Done(None, depth, PropertyAcc(v));
    r := FinishProperty(depth, v);
  }

  method FinishProperty(depth: nat, raw: RawProperty) returns (r: Result<PropertyValue>)
    requires depth <= MAX_DEPTH
    ensures r == Decode.FinishProperty(depth, raw)
    decreases Budget(depth), 6, 1
  {
    hide Decode.DecodeSet, Decode.DecodeList, Scalars.BuildScalar;
    var code :- OrMismatch(raw.typeCode);
    var dt :- D.FromCode(code);
    if raw.isNull { return Ok(NullV(dt)); }
    match dt {
      case PropertySet =>
        var slice :- OrMismatch(raw.setV);
        var ps :- DecodeSet(slice, depth + 1);
        r := Ok(SetV(ps));
      case PropertySetList =>
        var slice :- OrMismatch(raw.listV);
        var l :- DecodeList(slice, depth + 1);
        r := Ok(ListV(l));
      case _ =>
        var s :- BuildScalar(dt, raw.slots);
        r := Ok(Plain(s));
    }
  }

  method DecodeList(b: bytes, depth: nat) returns (r: Result<PropertySetList>)
    ensures r == Decode.DecodeList(b, depth)
    decreases Budget(depth), 5, 4
  {
    hide Reader.Rest, Reader.Valid, Reader.IsEmpty;
    hide Decode.Run, Decode.Fold, Decode.Step, Wire.Tokens, Wire.ReadField, Decode.DecodeSet;
    hide Decode.PayloadStep, Decode.MetricStep, Decode.TemplateStep, Decode.SetStep, Decode.PropertyStep;
    hide Decode.MetaStep, Decode.DataSetStep, Decode.RowStep, Decode.CellStep, Decode.ParameterStep;
    if depth > MAX_DEPTH { return Err(RecursionLimit); }
    var rd := new Reader(b);
    var sets: seq<PropertySet> := [];
    while !rd.IsEmpty()
      invariant rd.Valid()
      invariant Run(None, depth, ListAcc([]), b) == Run(None, depth, ListAcc(sets), rd.Rest())
      decreases |rd.Rest()|
    {
      ghost var rest := rd.Rest();
      Turn(None, depth, ListAcc(sets), rest);
      var f :- rd.ReadField();
      StepIs(None, depth, ListAcc(sets), f);
      match f {
        case LenF(1, body) =>
          var ps :- DecodeSet(body, depth + 1);
          sets := sets + [ps];
        case _ =>
      }
    }
    Done(None, depth, ListAcc(sets));
    r := Ok(PropertySetList(sets));
  }

  // ---- Data sets ----

  method DecodeDataSet(b: bytes) returns (r: Result<DataSet>)
    ensures r == Decode.DecodeDataSet(b)
    decreases 1, 4, 4
  {
    hide Reader.Rest, Reader.Valid, Reader.IsEmpty;
    hide Decode.Run, Decode.Fold, Decode.Step, Wire.Tokens, Wire.ReadField, Decode.FinishDataSet;
    hide Decode.TypeCodes, Base.ValidUtf8, Decode.PayloadStep, Decode.MetricStep, Decode.TemplateStep;
    hide Decode.SetStep, Decode.PropertyStep, Decode.ListStep, Decode.MetaStep, Decode.RowStep;
    hide Decode.CellStep, Decode.ParameterStep;
    var rd := new Reader(b);
    var columns: seq<Str>, codes: seq<u32>, slices: seq<bytes> := [], [], [];
    while !rd.IsEmpty()
      invariant rd.Valid()
      invariant Run(None, MAX_DEPTH, DataSetAcc([], [], []), b)
                == Run(None, MAX_DEPTH, DataSetAcc(columns, codes, slices), rd.Rest())
      decreases |rd.Rest()|
    {
      ghost var rest := rd.Rest();
      Turn(None, MAX_DEPTH, DataSetAcc(columns, codes, slices), rest);
      var f :- rd.ReadField();
      StepIs(None, MAX_DEPTH, DataSetAcc(columns, codes, slices), f);
      match f {
        case LenF(2, s) =>
          var str :- ToStr(s);
          columns := columns + [str];
        case VarintF(3, v) =>
          var code :- TypeCode(v);
          codes := codes + [code];
        case LenF(3, body) =>
          var more :- ReadTypeCodes(body);
          codes := codes + more;
        case LenF(4, body) => slices := slices + [body];
        case _ =>
      }
    }
    Done(None, MAX_DEPTH, DataSetAcc(columns, codes, slices));
    r := FinishDataSet(columns, codes, slices);
  }

  /** The packed form: varints to the end of the slice. */
  method ReadTypeCodes(b: bytes) returns (r: Result<seq<u32>>)
    ensures r == TypeCodes(b)
  {
    var rd := new Reader(b);
    var codes: seq<u32> := [];
    CodesNone(TypeCodes(b));
    while !rd.IsEmpty()
      invariant rd.Valid()
      invariant TypeCodes(b) == CodesAfter(codes, TypeCodes(rd.Rest()))
      decreases |rd.Rest()|
    {
      ghost var rest := rd.Rest();
      CodesTurn(codes, rest);
      var v :- rd.ReadVarint();
      assert rd.Rest() == rest[ReadVarint(rest).value.1..];
      var code :- TypeCode(v);
      codes := codes + [code];
    }
    Units(codes);
    r := Ok(codes);
  }

  function CodesAfter(codes: seq<u32>, r: Result<seq<u32>>): Result<seq<u32>> {
    if r.Ok? then Ok(codes + r.value) else r
  }

  lemma CodesNone(r: Result<seq<u32>>)
    ensures CodesAfter([], r) == r
  {
    if r.Ok? { Units(r.value); }
  }

  lemma CodesTurn(codes: seq<u32>, rest: bytes)
    requires rest != []
    ensures ReadVarint(rest).Err? ==> TypeCodes(rest) == Err(ReadVarint(rest).error)
    ensures ReadVarint(rest).Ok? ==>
      var (v, n) := ReadVarint(rest).value;
      CodesAfter(codes, TypeCodes(rest)) ==
        if v < TWO32 then CodesAfter(codes + [v], TypeCodes(rest[n..])) else Err(UnknownDataType(v % TWO32))
  {
    if ReadVarint(rest).Ok? {
      var (v, n) := ReadVarint(rest).value;
      if v < TWO32 && TypeCodes(rest[n..]).Ok? { Assoc(codes, [v], TypeCodes(rest[n..]).value); }
    }
  }

  method FinishDataSet(columns: seq<Str>, codes: seq<u32>, slices: seq<bytes>) returns (r: Result<DataSet>)
    ensures r == Decode.FinishDataSet(columns, codes, slices)
    decreases 1, 4, 1
  {
    hide Decode.DecodeRow;
    var types :- Types(codes);
    var rows: seq<seq<Cell>> := [];
    RowsNone(DecodeRows(slices, types));
    assert slices[0..] == slices;
    for i := 0 to |slices|
      invariant DecodeRows(slices, types) == RowsAfter(rows, DecodeRows(slices[i..], types))
    {
      RowsTurn(rows, slices[i..], types);
      assert slices[i..][1..] == slices[i + 1..];
      var row :- DecodeRow(slices[i], types);
      rows := rows + [row];
    }
    Units(rows);
    r := NewDataSet(columns, types, rows);
  }

  function RowsAfter(rows: seq<seq<Cell>>, r: Result<seq<seq<Cell>>>): Result<seq<seq<Cell>>> {
    if r.Ok? then Ok(rows + r.value) else r
  }

  lemma RowsNone(r: Result<seq<seq<Cell>>>)
    ensures RowsAfter([], r) == r
  {
    if r.Ok? { Units(r.value); }
  }

  lemma RowsTurn(rows: seq<seq<Cell>>, slices: seq<bytes>, types: seq<DataType>)
    requires slices != []
    ensures RowsAfter(rows, DecodeRows(slices, types)) ==
      if Decode.DecodeRow(slices[0], types).Ok?
      then RowsAfter(rows + [Decode.DecodeRow(slices[0], types).value], DecodeRows(slices[1..], types))
      else Err(Decode.DecodeRow(slices[0], types).error)
  {
    hide Decode.DecodeRow;
    if Decode.DecodeRow(slices[0], types).Ok? && DecodeRows(slices[1..], types).Ok? {
      Assoc(rows, [Decode.DecodeRow(slices[0], types).value], DecodeRows(slices[1..], types).value);
    }
  }

  method DecodeRow(b: bytes, types: seq<DataType>) returns (r: Result<seq<Cell>>)
    ensures r == Decode.DecodeRow(b, types)
    decreases 1, 3, 4
  {
    hide Reader.Rest, Reader.Valid, Reader.IsEmpty;
    hide Decode.Run, Decode.Fold, Decode.Step, Wire.Tokens, Wire.ReadField, Decode.DecodeCell;
    hide Decode.PayloadStep, Decode.MetricStep, Decode.TemplateStep, Decode.SetStep, Decode.PropertyStep;
    hide Decode.ListStep, Decode.MetaStep, Decode.DataSetStep, Decode.CellStep, Decode.ParameterStep;
    var rd := new Reader(b);
    var cells: seq<Cell> := [];
    while !rd.IsEmpty()
      invariant rd.Valid()
      invariant Run(None, MAX_DEPTH, RowAcc(types, []), b) == Run(None, MAX_DEPTH, RowAcc(types, cells), rd.Rest())
      decreases |rd.Rest()|
    {
      ghost var rest := rd.Rest();
      Turn(None, MAX_DEPTH, RowAcc(types, cells), rest);
      var f :- rd.ReadField();
      StepIs(None, MAX_DEPTH, RowAcc(types, cells), f);
      match f {
        case LenF(1, body) =>
          if |cells| >= |types| { return Err(DataSetShape); }
          var c :- DecodeCell(body, types[|cells|]);
          cells := cells + [c];
        case _ =>
      }
    }
    Done(None, MAX_DEPTH, RowAcc(types, cells));
    r := Ok(cells);
  }

  method DecodeCell(b: bytes, dt: DataType) returns (r: Result<Cell>)
    ensures r == Decode.DecodeCell(b, dt)
    decreases 1, 2, 4
  {
    hide Reader.Rest, Reader.Valid, Reader.IsEmpty;
    hide Decode.Run, Decode.Fold, Decode.Step, Wire.Tokens, Wire.ReadField, Decode.FinishCell;
    hide Scalars.SlotsStep, Decode.PayloadStep, Decode.MetricStep, Decode.TemplateStep, Decode.SetStep;
    hide Decode.PropertyStep, Decode.ListStep, Decode.MetaStep, Decode.DataSetStep, Decode.RowStep;
    hide Decode.ParameterStep;
    var rd := new Reader(b);
    var slots := NO_SLOTS;
    while !rd.IsEmpty()
      invariant rd.Valid()
      invariant Run(None, MAX_DEPTH, CellAcc(NO_SLOTS), b) == Run(None, MAX_DEPTH, CellAcc(slots), rd.Rest())
      decreases |rd.Rest()|
    {
      ghost var rest := rd.Rest();
      Turn(None, MAX_DEPTH, CellAcc(slots), rest);
      var f :- rd.ReadField();
      StepIs(None, MAX_DEPTH, CellAcc(slots), f);
      slots :- SlotsStep(1, slots, f);
    }
    Done(None, MAX_DEPTH, CellAcc(slots));
    r := FinishCell(dt, slots);
  }

  // ---- Templates ----

  method DecodeTemplate(b: bytes, types: Option<Registry>, depth: nat) returns (r: Result<Template>)
    ensures r == Decode.DecodeTemplate(b, types, depth)
    decreases Budget(depth), 8, 4
  {
    hide Reader.Rest, Reader.Valid, Reader.IsEmpty;
    hide Decode.Run, Decode.Fold, Decode.Step, Wire.Tokens, Wire.ReadField, Decode.DecodeMetric;
    hide Decode.DecodeParameter, Base.ValidUtf8, Decode.PayloadStep, Decode.MetricStep, Decode.SetStep;
    hide Decode.PropertyStep, Decode.ListStep, Decode.MetaStep, Decode.DataSetStep, Decode.RowStep;
    hide Decode.CellStep, Decode.ParameterStep;
    if depth > MAX_DEPTH { return Err(RecursionLimit); }
    var rd := new Reader(b);
    var t := NO_TEMPLATE;
    while !rd.IsEmpty()
      invariant rd.Valid()
      invariant Run(types, depth, TemplateAcc(NO_TEMPLATE), b) == Run(types, depth, TemplateAcc(t), rd.Rest())
      decreases |rd.Rest()|
    {
      ghost var rest := rd.Rest();
      Turn(types, depth, TemplateAcc(t), rest);
      var f :- rd.ReadField();
      StepIs(types, depth, TemplateAcc(t), f);
      match f {
        case LenF(1, s) =>
          var str :- ToStr(s);
          t := t.(version := Some(str));
        case LenF(2, body) =>
          var m :- DecodeMetric(body, types, depth + 1);
          t := t.(metrics := t.metrics + [m]);
        case LenF(3, body) =>
          var p :- DecodeParameter(body);
          t := t.(parameters := t.parameters + [p]);
        case LenF(4, s) =>
          var str :- ToStr(s);
          t := t.(templateRef := Some(str));
        case VarintF(5, v) => t := t.(isDefinition := v != 0);
        case _ =>
      }
    }
    Done(types, depth, TemplateAcc(t));
    r := Ok(t);
  }

  method DecodeParameter(b: bytes) returns (r: Result<Parameter>)
    ensures r == Decode.DecodeParameter(b)
    decreases 1, 1, 4
  {
    hide Reader.Rest, Reader.Valid, Reader.IsEmpty;
    hide Decode.Run, Decode.Fold, Decode.Step, Wire.Tokens, Wire.ReadField, Decode.FinishParameter;
    hide Scalars.SlotsStep, Base.ValidUtf8, Decode.PayloadStep, Decode.MetricStep, Decode.TemplateStep;
    hide Decode.SetStep, Decode.PropertyStep, Decode.ListStep, Decode.MetaStep, Decode.DataSetStep;
    hide Decode.RowStep, Decode.CellStep;
    var rd := new Reader(b);
    var p := RawParameter(None, None, NO_SLOTS);
    ghost var init := ParameterAcc(p);
    while !rd.IsEmpty()
      invariant rd.Valid()
      invariant Run(None, MAX_DEPTH, init, b) == Run(None, MAX_DEPTH, ParameterAcc(p), rd.Rest())
      decreases |rd.Rest()|
    {
      ghost var rest := rd.Rest();
      Turn(None, MAX_DEPTH, ParameterAcc(p), rest);
      var f :- rd.ReadField();
      StepIs(None, MAX_DEPTH, ParameterAcc(p), f);
      match f {
        case LenF(1, s) =>
          var str :- ToStr(s);
          p := p.(name := Some(str));
        case VarintF(2, n) =>
          var code :- TypeCode(n);
          p := p.(typeCode := Some(code));
        case _ =>
          var slots :- SlotsStep(3, p.slots, f);
          p := p.(slots := slots);
      }
    }
    Done(None, MAX_DEPTH, ParameterAcc(p));
    r := FinishParameter(p);
  }
}
