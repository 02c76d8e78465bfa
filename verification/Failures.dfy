/**
 The errors of readable fields that make no value: a type that is missing or unknown, a field that is not there, a
 shape that does not fit (src/codec/decode.rs:102-230, src/codec/decode.rs:264-602).
 */
module Failures {
  import opened Base
  import opened Wire
  import opened Fields
  import opened Model
  import opened Alias
  import opened Scalars
  import opened Decode
  import opened RoundTrip
  import opened Reading
  import opened Meaning
  import Arrays
  import D = DataTypes

  /** The type a code stands for, or the error it is. */
  predicate NoType(code: u64) { code > 34 }

  lemma ScalarFails(dt: DataType, slots: Slots)
    ensures BuildScalar(dt, slots).Err? ==> BuildScalar(dt, slots).error == ValueTypeMismatch
  {
  }

  /** A cell with a scalar field, but not of the type of its column, or for a column of no basic type. */
  lemma CellFails(b: bytes, dt: DataType)
    requires Broken(None, MAX_DEPTH, CellAcc(NO_SLOTS), b).None? && DecodeCell(b, dt).Err?
    ensures DecodeCell(b, dt).error == if dt.IsBasic() then ValueTypeMismatch else DataSetShape
  {
    hide Decode.Run, Decode.Fold, Wire.Tokens, Broken, Scalars.BuildScalar;
    RunFails(None, MAX_DEPTH, CellAcc(NO_SLOTS), b);
    ScalarFails(dt, Run(None, MAX_DEPTH, CellAcc(NO_SLOTS), b).value.slots);
  }

  /** A parameter without name, type or fitting value, or of an unknown type. */
  lemma ParameterFails(b: bytes)
    requires Broken(None, MAX_DEPTH, ParameterAcc(RawParameter(None, None, NO_SLOTS)), b).None?
    requires DecodeParameter(b).Err?
    ensures var name, code := LastLen(Tokens(b).fields, 1), LastVarint(Tokens(b).fields, 2);
      DecodeParameter(b).error ==
        if name.Some? && code.Some? && NoType(code.value) then UnknownDataType(code.value % TWO32)
        else ValueTypeMismatch
  {
    hide Decode.Run, Decode.Fold, Wire.Tokens, Broken, Scalars.BuildScalar, SlotsAre;
    hide D.FromCode, LastLen, LastVarint;
    var start := ParameterAcc(RawParameter(None, None, NO_SLOTS));
    RunFails(None, MAX_DEPTH, start, b);
    ParameterFolds(Tokens(b).fields);
    var raw := Run(None, MAX_DEPTH, start, b).value.parameter;
    if raw.typeCode.Some? {
      D.CodeOf(raw.typeCode.value);
      if D.FromCode(raw.typeCode.value).Ok? { ScalarFails(D.FromCode(raw.typeCode.value).value, raw.slots); }
    }
  }

  /** A property set with more keys than values, or fewer. */
  lemma SetFails(b: bytes, depth: nat)
    requires depth <= MAX_DEPTH && Broken(None, depth, SetAcc([], []), b).None? && DecodeSet(b, depth).Err?
    ensures DecodeSet(b, depth).error == ValueTypeMismatch
    ensures |Bodies(Tokens(b).fields, 1)| != |Bodies(Tokens(b).fields, 2)|
  {
    hide Decode.Run, Decode.Fold, Wire.Tokens, Broken, Bodies, Decode.Zip;
    RunFails(None, depth, SetAcc([], []), b);
    SetFolds(depth, Tokens(b).fields);
  }

  lemma PropertyTypeFails(depth: nat, dt: DataType, raw: RawProperty)
    requires depth <= MAX_DEPTH && PropertyValueOf(depth, dt, raw).Err?
    ensures PropertyValueOf(depth, dt, raw).error ==
      if dt.Code() == 20 && raw.setV.Some? && DecodeSet(raw.setV.value, depth + 1).Err? then
        DecodeSet(raw.setV.value, depth + 1).error
      else if dt.Code() == 21 && raw.listV.Some? && DecodeList(raw.listV.value, depth + 1).Err? then
        DecodeList(raw.listV.value, depth + 1).error
      else ValueTypeMismatch
  {
    hide Decode.DecodeSet, Decode.DecodeList, Scalars.BuildScalar;
    ScalarFails(dt, raw.slots);
  }

  /** A property value of no type or an unknown one, or without the field its type calls for, or what is in it. */
  lemma PropertyFails(b: bytes, depth: nat)
    requires depth <= MAX_DEPTH && Broken(None, depth, PropertyAcc(NO_PROPERTY), b).None?
    requires DecodeProperty(b, depth).Err?
    ensures var fs := Tokens(b).fields;
      var code, inSet, inList := LastVarint(fs, 1), LastLen(fs, 9), LastLen(fs, 10);
      DecodeProperty(b, depth).error ==
        if code.None? then ValueTypeMismatch
        else if NoType(code.value) then UnknownDataType(code.value % TWO32)
        else if code.value == 20 && inSet.Some? && DecodeSet(inSet.value, depth + 1).Err? then
          DecodeSet(inSet.value, depth + 1).error
        else if code.value == 21 && inList.Some? && DecodeList(inList.value, depth + 1).Err? then
          DecodeList(inList.value, depth + 1).error
        else ValueTypeMismatch
  {
    hide Decode.Run, Decode.Fold, Wire.Tokens, Broken, Scalars.BuildScalar, SlotsAre, D.FromCode, LastLen, LastVarint;
    hide Decode.DecodeSet, Decode.DecodeList, Decode.PropertyValueOf;
    RunFails(None, depth, PropertyAcc(NO_PROPERTY), b);
    PropertyFolds(depth, Tokens(b).fields);
    var raw := Run(None, depth, PropertyAcc(NO_PROPERTY), b).value.property;
    if raw.typeCode.Some? {
      D.CodeOf(raw.typeCode.value);
      if D.FromCode(raw.typeCode.value).Ok? { PropertyTypeFails(depth, D.FromCode(raw.typeCode.value).value, raw); }
    }
  }

  /** What went wrong in the field that the type of a metric calls for. */
  function ValueError(fs: seq<Field>, types: Option<Registry>, depth: nat, dt: DataType): Error {
    hide Arrays.Unpack, Decode.DecodeDataSet, Decode.DecodeTemplate;
    var data, set_, template := LastLen(fs, 16), LastLen(fs, 17), LastLen(fs, 18);
    if dt.IsArray() && data.Some? && Arrays.Unpack(dt, data.value).Err? then Arrays.Unpack(dt, data.value).error
    else if dt.DataSet? && set_.Some? && DecodeDataSet(set_.value).Err? then DecodeDataSet(set_.value).error
    else if dt.Template? && template.Some? && DecodeTemplate(template.value, types, depth + 1).Err? then
      DecodeTemplate(template.value, types, depth + 1).error
    else ValueTypeMismatch
  }

  lemma ValueFails(types: Option<Registry>, depth: nat, raw: RawMetric, fs: seq<Field>, dt: DataType)
    requires depth <= MAX_DEPTH && BodyIs(raw, fs) && MetricValueOf(types, depth, dt, raw).Err?
    ensures MetricValueOf(types, depth, dt, raw).error == ValueError(fs, types, depth, dt)
  {
    hide Arrays.Unpack, Decode.DecodeDataSet, Decode.DecodeTemplate, Scalars.BuildScalar, SlotsAre, LastLen;
    hide D.DataType.IsArray, D.DataType.IsBasic;
    NotBoth(dt);
    Nested();
    ScalarFails(dt, raw.slots);
  }

  lemma Nested()
    ensures !D.DataType.DataSet.IsBasic() && !D.DataType.DataSet.IsArray()
    ensures !D.DataType.Template.IsBasic() && !D.DataType.Template.IsArray()
  {
  }

  /**
   A metric of an unknown type, of none that can be recovered, or whose value is not in the field its type calls for;
   an error inside that field goes outward.
   */
  lemma MetricFails(b: bytes, types: Option<Registry>, depth: nat)
    requires depth <= MAX_DEPTH && Broken(types, depth, MetricAcc(RAW_METRIC), b).None?
    requires DecodeMetric(b, types, depth).Err?
    ensures var fs, e := Tokens(b).fields, DecodeMetric(b, types, depth).error;
      var code := LastVarint(fs, 4);
      if code.Some? && NoType(code.value) then e == UnknownDataType(code.value % TWO32)
      else if forall dt :: !ReadsType(fs, types, dt) then e == MissingDataType
      else exists dt :: ReadsType(fs, types, dt) && e == ValueError(fs, types, depth, dt)
  {
    hide Decode.Run, Decode.Fold, Wire.Tokens, Broken, Decode.MetricValueOf, ReadsType, ValueError, BodyIs, LastLen;
    hide D.FromCode, LastVarint;
    RunFails(types, depth, MetricAcc(RAW_METRIC), b);
    var fs := Tokens(b).fields;
    MetricFolds(types, depth, fs);
    var raw := Run(types, depth, MetricAcc(RAW_METRIC), b).value.metric;
    var found := MetricType(types, raw);
    if found.Ok? {
      TypeMeans(types, depth, raw, fs, found.value);
      ValueFails(types, depth, raw, fs, found.value);
    } else {
      forall dt ensures !ReadsType(fs, types, dt) { TypeMeans(types, depth, raw, fs, dt); }
    }
    if raw.typeCode.Some? { D.CodeOf(raw.typeCode.value); }
  }

  // ---- Data sets ----

  predicate FirstUnknown(codes: seq<u32>, k: nat) {
    k < |codes| && NoType(codes[k]) && forall i :: 0 <= i < k ==> !NoType(codes[i])
  }

  predicate FirstBad(bs: seq<bytes>, dts: seq<DataType>, k: nat) {
    hide Decode.DecodeRow;
    k < |bs| && DecodeRow(bs[k], dts).Err? && forall i :: 0 <= i < k ==> DecodeRow(bs[i], dts).Ok?
  }

  lemma {:induction false} TypesFail(codes: seq<u32>, k: nat)
    requires FirstUnknown(codes, k)
    ensures Types(codes) == Err(UnknownDataType(codes[k]))
  {
    D.CodeOf(codes[0]);
    if k > 0 { TypesFail(codes[1..], k - 1); }
  }

  lemma {:induction false} RowsFail(bs: seq<bytes>, dts: seq<DataType>, k: nat)
    requires FirstBad(bs, dts, k)
    ensures DecodeRows(bs, dts) == Err(DecodeRow(bs[k], dts).error)
    decreases |bs|
  {
    hide Decode.DecodeRow;
    if k > 0 { RowsFail(bs[1..], dts, k - 1); }
  }

  /** Of the types and then the rows of a data set the first that fails counts, and after them the shape. */
  lemma DataSetFails(columns: seq<Str>, codes: seq<u32>, slices: seq<bytes>, dts: seq<DataType>, k: nat)
    ensures FirstUnknown(codes, k) ==>
      FinishDataSet(columns, codes, slices) == Err(UnknownDataType(codes[k]))
    ensures Types(codes) == Ok(dts) && FirstBad(slices, dts, k) ==>
      FinishDataSet(columns, codes, slices) == Err(DecodeRow(slices[k], dts).error)
    ensures Types(codes) == Ok(dts) && DecodeRows(slices, dts).Ok? && FinishDataSet(columns, codes, slices).Err? ==>
      FinishDataSet(columns, codes, slices) == Err(DataSetShape)
  {
    hide Decode.DecodeRow, Decode.DecodeRows, DataSet.WellFormed;
    if FirstUnknown(codes, k) { TypesFail(codes, k); }
    if FirstBad(slices, dts, k) { RowsFail(slices, dts, k); }
  }

  // ---- Depth ----

  /** The 32nd level is the last that is read, as empty messages show. */
  lemma DepthLimit(depth: nat, types: Option<Registry>)
    ensures DecodeSet([], depth) == if depth <= 32 then Ok(PropertySet([])) else Err(RecursionLimit)
    ensures DecodeList([], depth) == if depth <= 32 then Ok(PropertySetList([])) else Err(RecursionLimit)
    ensures DecodeTemplate([], types, depth) ==
      if depth <= 32 then Ok(Template(None, None, false, [], [])) else Err(RecursionLimit)
    ensures DecodeProperty([], depth) == Err(if depth <= 32 then ValueTypeMismatch else RecursionLimit)
    ensures DecodeMetric([], types, depth) == Err(if depth <= 32 then MissingDataType else RecursionLimit)
  {
    hide Decode.Run;
    if depth <= MAX_DEPTH {
      NothingRead(None, depth, SetAcc([], []));
      NothingRead(None, depth, ListAcc([]));
      NothingRead(types, depth, TemplateAcc(NO_TEMPLATE));
      NothingRead(None, depth, PropertyAcc(NO_PROPERTY));
      NothingRead(types, depth, MetricAcc(RAW_METRIC));
    }
  }

  lemma NothingRead(types: Option<Registry>, depth: nat, acc: Acc)
    requires depth <= MAX_DEPTH
    ensures Run(types, depth, acc, []) == Ok(acc)
  {
  }
}
