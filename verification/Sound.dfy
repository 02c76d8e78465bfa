/** What decoding arbitrary bytes can yield: well-formed components within the depth limit. */
module Sound {
  import opened Base
  import opened Wire
  import opened Model
  import opened Alias
  import opened Scalars
  import opened Arrays
  import opened Decode
  import D = DataTypes

  lemma BuildType(dt: DataType, s: Slots)
    requires BuildScalar(dt, s).Ok?
    ensures BuildScalar(dt, s).value.Type() == dt
  {
  }

  predicate MetricFits(m: Metric, depth: nat) { WfMetric(m) && depth + NeedMetric(m) <= MAX_DEPTH }

  predicate MetricsFit(ms: seq<Metric>, depth: nat) { forall m <- ms :: MetricFits(m, depth) }

  predicate ValuesFit(vs: seq<PropertyValue>, depth: nat) { forall v <- vs :: depth + NeedProperty(v) <= MAX_DEPTH }

  predicate SetsFit(sets: seq<PropertySet>, depth: nat) { forall ps <- sets :: depth + NeedSet(ps) <= MAX_DEPTH }

  /** What holds of the variables of every loop at the given depth, turn after turn. */
  predicate Fit(acc: Acc, depth: nat) {
    match acc
    case PayloadAcc(p) => MetricsFit(p.metrics, depth)
    case MetricAcc(raw) => raw.properties.Some? ==> depth + 1 + NeedSet(raw.properties.value) <= MAX_DEPTH
    case TemplateAcc(t) => MetricsFit(t.metrics, depth + 1) && forall p <- t.parameters :: p.WellFormed()
    case SetAcc(_, values) => ValuesFit(values, depth + 1)
    case ListAcc(sets) => SetsFit(sets, depth + 1)
    case _ => true
  }

  // From bounds on the elements to the bound on the list.

  lemma {:induction false} NeedOfMetrics(ms: seq<Metric>, depth: nat)
    requires MetricsFit(ms, depth + 1) && depth <= MAX_DEPTH
    ensures depth + NeedMetrics(ms) <= MAX_DEPTH
  {
    if ms != [] {
      assert ms[0] in ms;
      NeedOfMetrics(ms[1..], depth);
    }
  }

  lemma {:induction false} NeedOfSets(sets: seq<PropertySet>, depth: nat)
    requires SetsFit(sets, depth + 1) && depth <= MAX_DEPTH
    ensures depth + NeedSets(sets) <= MAX_DEPTH
  {
    if sets != [] {
      assert sets[0] in sets;
      NeedOfSets(sets[1..], depth);
    }
  }

  lemma {:induction false} NeedOfZip(keys: seq<Str>, values: seq<PropertyValue>, depth: nat)
    requires |keys| == |values| && ValuesFit(values, depth + 1) && depth <= MAX_DEPTH
    ensures depth + NeedEntries(Zip(keys, values)) <= MAX_DEPTH
  {
    if keys != [] {
      assert values[0] in values;
      NeedOfZip(keys[1..], values[1..], depth);
      assert Zip(keys, values)[1..] == Zip(keys[1..], values[1..]);
    }
  }

  // The loops, by recursion on the depth left.

  lemma {:induction false} FoldFits(types: Option<Registry>, depth: nat, acc: Acc, fs: seq<Field>)
    requires depth <= MAX_DEPTH && Fit(acc, depth)
    ensures Fold(types, depth, acc, fs).Ok? ==> Fit(Fold(types, depth, acc, fs).value, depth)
    decreases Budget(depth), acc.Kind(), 2, |fs|
  {
    hide Decode.Step, Fit;
    if fs != [] {
      StepFits(types, depth, acc, fs[0]);
      var next := Step(types, depth, acc, fs[0]);
      if next.Ok? { FoldFits(types, depth, next.value, fs[1..]); }
    }
  }

  lemma {:induction false} RunFits(types: Option<Registry>, depth: nat, acc: Acc, b: bytes)
    requires depth <= MAX_DEPTH && Fit(acc, depth)
    ensures Run(types, depth, acc, b).Ok? ==> Fit(Run(types, depth, acc, b).value, depth)
    decreases Budget(depth), acc.Kind(), 3
  {
    hide Decode.Fold, Fit;
    FoldFits(types, depth, acc, Tokens(b).fields);
  }

  lemma {:induction false} StepFits(types: Option<Registry>, depth: nat, acc: Acc, f: Field)
    requires depth <= MAX_DEPTH && Fit(acc, depth)
    ensures Step(types, depth, acc, f).Ok? ==> Fit(Step(types, depth, acc, f).value, depth)
    decreases Budget(depth), acc.Kind(), 1
  {
    hide MetricsFit, ValuesFit, SetsFit, Model.NeedSet, Model.WfMetric;
    hide Decode.DecodeMetric, Decode.DecodeSet, Decode.DecodeProperty, Decode.DecodeParameter, Decode.DecodeMetaData;
    match acc
    case PayloadAcc(p) => PayloadStepFits(types, depth, p, f);
    case MetricAcc(raw) => MetricStepFits(types, depth, raw, f);
    case TemplateAcc(t) => TemplateStepFits(types, depth, t, f);
    case SetAcc(keys, values) => SetStepFits(types, depth, keys, values, f);
    case ListAcc(sets) => ListStepFits(types, depth, sets, f);
    case _ =>
  }

  lemma {:induction false} PayloadStepFits(types: Option<Registry>, depth: nat, p: Payload, f: Field)
    requires depth <= MAX_DEPTH && Fit(PayloadAcc(p), depth)
    ensures PayloadStep(types, depth, p, f).Ok? ==> Fit(PayloadStep(types, depth, p, f).value, depth)
    decreases Budget(depth), 10, 0
  {
    hide Decode.DecodeMetric, MetricFits;
    if f.LenF? && f.num == 2 { DecodedMetricFits(f.body, types, depth); }
  }

  lemma {:induction false} MetricStepFits(types: Option<Registry>, depth: nat, raw: RawMetric, f: Field)
    requires depth <= MAX_DEPTH && Fit(MetricAcc(raw), depth)
    ensures MetricStep(depth, raw, f).Ok? ==> Fit(MetricStep(depth, raw, f).value, depth)
    decreases Budget(depth), 9, 0
  {
    hide Decode.DecodeSet, Decode.DecodeMetaData, Model.NeedSet;
    if f.LenF? && f.num == 9 { DecodedSetFits(f.body, depth + 1); }
  }

  lemma {:induction false} TemplateStepFits(types: Option<Registry>, depth: nat, t: Template, f: Field)
    requires depth <= MAX_DEPTH && Fit(TemplateAcc(t), depth)
    ensures TemplateStep(types, depth, t, f).Ok? ==> Fit(TemplateStep(types, depth, t, f).value, depth)
    decreases Budget(depth), 8, 0
  {
    hide Decode.DecodeMetric, Decode.DecodeParameter, MetricFits;
    if f.LenF? && f.num == 2 { DecodedMetricFits(f.body, types, depth + 1); }
    if f.LenF? && f.num == 3 { DecodedParameterFits(f.body); }
  }

  lemma {:induction false} SetStepFits(types: Option<Registry>, depth: nat, keys: seq<Str>, values: seq<PropertyValue>,
                                       f: Field)
    requires depth <= MAX_DEPTH && Fit(SetAcc(keys, values), depth)
    ensures SetStep(depth, keys, values, f).Ok? ==> Fit(SetStep(depth, keys, values, f).value, depth)
    decreases Budget(depth), 7, 0
  {
    hide Decode.DecodeProperty, Model.NeedProperty;
    if f.LenF? && f.num == 2 { DecodedPropertyFits(f.body, depth + 1); }
  }

  lemma {:induction false} ListStepFits(types: Option<Registry>, depth: nat, sets: seq<PropertySet>, f: Field)
    requires depth <= MAX_DEPTH && Fit(ListAcc(sets), depth)
    ensures ListStep(depth, sets, f).Ok? ==> Fit(ListStep(depth, sets, f).value, depth)
    decreases Budget(depth), 5, 0
  {
    hide Decode.DecodeSet, Model.NeedSet;
    if f.LenF? && f.num == 1 { DecodedSetFits(f.body, depth + 1); }
  }

  // The components.

  lemma DecodedParameterFits(b: bytes)
    ensures DecodeParameter(b).Ok? ==> DecodeParameter(b).value.WellFormed()
  {
    hide Decode.Run;
    match Run(None, MAX_DEPTH, ParameterAcc(RawParameter(None, None, NO_SLOTS)), b)
    case Err(_) =>
    case Ok(ParameterAcc(raw)) => FinishedParameterFits(raw);
  }

  lemma FinishedParameterFits(raw: RawParameter)
    ensures FinishParameter(raw).Ok? ==> FinishParameter(raw).value.WellFormed()
  {
    if FinishParameter(raw).Ok? && raw.slots.Any() { BuildType(D.FromCode(raw.typeCode.value).value, raw.slots); }
  }

  lemma {:induction false} DecodedSetFits(b: bytes, depth: nat)
    ensures DecodeSet(b, depth).Ok? ==> depth + NeedSet(DecodeSet(b, depth).value) <= MAX_DEPTH
    decreases Budget(depth), 7, 4
  {
    hide Decode.Run;
    if depth <= MAX_DEPTH {
      RunFits(None, depth, SetAcc([], []), b);
      match Run(None, depth, SetAcc([], []), b)
      case Err(_) =>
      case Ok(SetAcc(keys, values)) => if |keys| == |values| { NeedOfZip(keys, values, depth); }
    }
  }

  lemma {:induction false} DecodedListFits(b: bytes, depth: nat)
    ensures DecodeList(b, depth).Ok? ==> depth + NeedSets(DecodeList(b, depth).value.sets) <= MAX_DEPTH
    decreases Budget(depth), 5, 4
  {
    hide Decode.Run;
    if depth <= MAX_DEPTH {
      RunFits(None, depth, ListAcc([]), b);
      match Run(None, depth, ListAcc([]), b)
      case Err(_) =>
      case Ok(ListAcc(sets)) => NeedOfSets(sets, depth);
    }
  }

  lemma {:induction false} PropertyValueFits(depth: nat, dt: DataType, raw: RawProperty)
    requires depth <= MAX_DEPTH
    ensures PropertyValueOf(depth, dt, raw).Ok? ==>
      depth + NeedProperty(PropertyValueOf(depth, dt, raw).value) <= MAX_DEPTH
    decreases Budget(depth), 6, 0
  {
    hide Decode.DecodeSet, Decode.DecodeList, Model.NeedSet, Model.NeedSets, Scalars.BuildScalar;
    if raw.setV.Some? { DecodedSetFits(raw.setV.value, depth + 1); }
    if raw.listV.Some? { DecodedListFits(raw.listV.value, depth + 1); }
  }

  lemma {:induction false} DecodedPropertyFits(b: bytes, depth: nat)
    ensures DecodeProperty(b, depth).Ok? ==> depth + NeedProperty(DecodeProperty(b, depth).value) <= MAX_DEPTH
    decreases Budget(depth), 6, 4
  {
    hide Decode.Run, Decode.PropertyValueOf, Model.NeedProperty;
    if depth <= MAX_DEPTH {
      match Run(None, depth, PropertyAcc(RawProperty(None, false, NO_SLOTS, None, None)), b)
      case Err(_) =>
      case Ok(PropertyAcc(raw)) =>
        if raw.typeCode.Some? && D.FromCode(raw.typeCode.value).Ok? {
          PropertyValueFits(depth, D.FromCode(raw.typeCode.value).value, raw);
        }
    }
  }

  lemma {:induction false} DecodedTemplateFits(b: bytes, types: Option<Registry>, depth: nat)
    ensures DecodeTemplate(b, types, depth).Ok? ==>
      WfTemplate(DecodeTemplate(b, types, depth).value)
        && depth + NeedTemplate(DecodeTemplate(b, types, depth).value) <= MAX_DEPTH
    decreases Budget(depth), 8, 4
  {
    hide Decode.Run;
    if depth <= MAX_DEPTH {
      RunFits(types, depth, TemplateAcc(NO_TEMPLATE), b);
      match Run(types, depth, TemplateAcc(NO_TEMPLATE), b)
      case Err(_) =>
      case Ok(TemplateAcc(t)) => NeedOfMetrics(t.metrics, depth);
    }
  }

  predicate ValueFits(v: MetricValue, depth: nat) {
    && (v.DataSetV? ==> v.dataset.WellFormed())
    && (v.Array? ==> v.items.WellFormed())
    && (v.TemplateV? ==> WfTemplate(v.template) && depth + 1 + NeedTemplate(v.template) <= MAX_DEPTH)
  }

  lemma DecodedDataSetFits(b: bytes)
    ensures DecodeDataSet(b).Ok? ==> DecodeDataSet(b).value.WellFormed()
  {
    hide Decode.Run, Decode.Types, Decode.DecodeRows;
  }

  lemma {:induction false} DecodedValueFits(types: Option<Registry>, depth: nat, dt: DataType, raw: RawMetric)
    requires depth <= MAX_DEPTH
    ensures MetricValueOf(types, depth, dt, raw).Ok? ==>
      ValueFits(MetricValueOf(types, depth, dt, raw).value, depth)
        && MetricValueOf(types, depth, dt, raw).value.Type() == dt
    decreases Budget(depth), 9, 0
  {
    hide Decode.MetricValueOf, ValueFits, MetricValue.Type;
    if raw.isNull || dt.IsBasic() || dt.IsArray() {
      if MetricValueOf(types, depth, dt, raw).Ok? { FlatValueFits(types, depth, dt, raw); }
    } else {
      if raw.datasetV.Some? { DecodedDataSetFits(raw.datasetV.value); }
      if raw.templateV.Some? { DecodedTemplateFits(raw.templateV.value, types, depth + 1); }
      NestedValueFits(types, depth, dt, raw);
    }
  }

  lemma FlatValueFits(types: Option<Registry>, depth: nat, dt: DataType, raw: RawMetric)
    requires depth <= MAX_DEPTH && (raw.isNull || dt.IsBasic() || dt.IsArray())
    requires MetricValueOf(types, depth, dt, raw).Ok?
    ensures ValueFits(MetricValueOf(types, depth, dt, raw).value, depth)
    ensures MetricValueOf(types, depth, dt, raw).value.Type() == dt
  {
    hide Decode.DecodeTemplate, Decode.DecodeDataSet, Arrays.Unpack, Scalars.BuildScalar, Model.NeedTemplate;
    hide Model.WfTemplate;
    hide Scalar.Type, ArrayValue.Type, ArrayValue.WellFormed, DataSet.WellFormed;
    if !raw.isNull && dt.IsBasic() { BuildType(dt, raw.slots); }
    if !raw.isNull && !dt.IsBasic() { UnpackWellFormed(dt, raw.bytesV.value); }
  }

  lemma NestedValueFits(types: Option<Registry>, depth: nat, dt: DataType, raw: RawMetric)
    requires depth <= MAX_DEPTH && !raw.isNull && !dt.IsBasic() && !dt.IsArray()
    requires raw.datasetV.Some? && DecodeDataSet(raw.datasetV.value).Ok? ==>
      DecodeDataSet(raw.datasetV.value).value.WellFormed()
    requires raw.templateV.Some? && DecodeTemplate(raw.templateV.value, types, depth + 1).Ok? ==>
      WfTemplate(DecodeTemplate(raw.templateV.value, types, depth + 1).value)
      && depth + 1 + NeedTemplate(DecodeTemplate(raw.templateV.value, types, depth + 1).value) <= MAX_DEPTH
    ensures MetricValueOf(types, depth, dt, raw).Ok? ==>
      ValueFits(MetricValueOf(types, depth, dt, raw).value, depth)
        && MetricValueOf(types, depth, dt, raw).value.Type() == dt
  {
    hide Decode.DecodeTemplate, Decode.DecodeDataSet, Arrays.Unpack, Scalars.BuildScalar, Model.NeedTemplate;
    hide Model.WfTemplate;
    hide Scalar.Type, ArrayValue.Type, ArrayValue.WellFormed, DataSet.WellFormed;
  }

  lemma {:induction false} DecodedMetricFits(b: bytes, types: Option<Registry>, depth: nat)
    ensures DecodeMetric(b, types, depth).Ok? ==> MetricFits(DecodeMetric(b, types, depth).value, depth)
    decreases Budget(depth), 9, 4
  {
    hide Decode.Run, Decode.MetricValueOf, Model.NeedTemplate, Model.NeedSet, Model.WfTemplate;
    if depth <= MAX_DEPTH {
      RunFits(types, depth, MetricAcc(RAW_METRIC), b);
      match Run(types, depth, MetricAcc(RAW_METRIC), b)
      case Err(_) =>
      case Ok(MetricAcc(raw)) =>
        if MetricType(types, raw).Ok? { DecodedValueFits(types, depth, MetricType(types, raw).value, raw); }
    }
  }

  /** Whatever decodes is well-formed and nests no deeper than the limit. */
  lemma DecodedPayloadFits(b: bytes, types: Option<Registry>)
    requires DecodePayload(b, types).Ok?
    ensures WfPayload(DecodePayload(b, types).value)
    ensures forall m <- DecodePayload(b, types).value.metrics :: NeedMetric(m) <= MAX_DEPTH
  {
    hide Decode.Run;
    RunFits(types, 0, PayloadAcc(NO_PAYLOAD), b);
  }
}
