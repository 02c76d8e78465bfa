/** How the registry passed to the decoder can matter: only where a datatype is not on the wire. */
module Registries {
  import opened Base
  import opened Wire
  import opened Model
  import opened Alias
  import Arrays
  import Scalars
  import opened Decode

  /** Whatever the first registry recovers, the second recovers alike. */
  ghost predicate Refines(first: Option<Registry>, second: Option<Registry>) {
    forall name: Option<Str>, alias: Option<u64> ::
      Recover(first, name, alias).Some? ==> Recover(second, name, alias) == Recover(first, name, alias)
  }

  lemma {:induction false} FoldKeeps(r1: Option<Registry>, r2: Option<Registry>, depth: nat, acc: Acc, fs: seq<Field>)
    requires Refines(r1, r2) && depth <= MAX_DEPTH
    ensures Fold(r1, depth, acc, fs).Ok? ==> Fold(r2, depth, acc, fs) == Fold(r1, depth, acc, fs)
    decreases Budget(depth), acc.Kind(), 2, |fs|
  {
    hide Decode.Step, Refines;
    if fs != [] {
      StepKeeps(r1, r2, depth, acc, fs[0]);
      var next := Step(r1, depth, acc, fs[0]);
      if next.Ok? { FoldKeeps(r1, r2, depth, next.value, fs[1..]); }
    }
  }

  lemma {:induction false} StepKeeps(r1: Option<Registry>, r2: Option<Registry>, depth: nat, acc: Acc, f: Field)
    requires Refines(r1, r2) && depth <= MAX_DEPTH
    ensures Step(r1, depth, acc, f).Ok? ==> Step(r2, depth, acc, f) == Step(r1, depth, acc, f)
    decreases Budget(depth), acc.Kind(), 1
  {
    hide Refines, Decode.DecodeMetric, Decode.DecodeParameter;
    hide Decode.SetStep, Decode.MetaStep, Decode.PropertyStep, Decode.ListStep, Decode.DataSetStep, Decode.RowStep;
    hide Decode.CellStep;
    hide Decode.MetricStep, Decode.ParameterStep;
    if f.LenF? && f.num == 2 {
      if acc.PayloadAcc? { MetricKeeps(f.body, r1, r2, depth); }
      if acc.TemplateAcc? { MetricKeeps(f.body, r1, r2, depth + 1); }
    }
  }

  lemma {:induction false} RunKeeps(r1: Option<Registry>, r2: Option<Registry>, depth: nat, acc: Acc, b: bytes)
    requires Refines(r1, r2) && depth <= MAX_DEPTH
    ensures Run(r1, depth, acc, b).Ok? ==> Run(r2, depth, acc, b) == Run(r1, depth, acc, b)
    decreases Budget(depth), acc.Kind(), 3
  {
    hide Decode.Fold, Refines;
    FoldKeeps(r1, r2, depth, acc, Tokens(b).fields);
  }

  lemma {:induction false} MetricKeeps(b: bytes, r1: Option<Registry>, r2: Option<Registry>, depth: nat)
    requires Refines(r1, r2)
    ensures DecodeMetric(b, r1, depth).Ok? ==> DecodeMetric(b, r2, depth) == DecodeMetric(b, r1, depth)
    decreases Budget(depth), 9, 4
  {
    hide Decode.Run, Decode.MetricValueOf;
    if depth <= MAX_DEPTH {
      RunKeeps(r1, r2, depth, MetricAcc(RAW_METRIC), b);
      match Run(r1, depth, MetricAcc(RAW_METRIC), b)
      case Err(_) =>
      case Ok(MetricAcc(raw)) =>
        if MetricType(r1, raw).Ok? {
          assert Recover(r1, raw.name, raw.alias).Some? ==>
            Recover(r2, raw.name, raw.alias) == Recover(r1, raw.name, raw.alias);
          ValueKeeps(r1, r2, depth, MetricType(r1, raw).value, raw);
        }
    }
  }

  lemma {:induction false} ValueKeeps(r1: Option<Registry>, r2: Option<Registry>, depth: nat, dt: DataType,
                                      raw: RawMetric)
    requires Refines(r1, r2) && depth <= MAX_DEPTH
    ensures MetricValueOf(r1, depth, dt, raw).Ok? ==>
      MetricValueOf(r2, depth, dt, raw) == MetricValueOf(r1, depth, dt, raw)
    decreases Budget(depth), 9, 0
  {
    hide Decode.DecodeTemplate, Decode.DecodeDataSet, Refines, Arrays.Unpack, Scalars.BuildScalar;
    if raw.templateV.Some? { TemplateKeeps(raw.templateV.value, r1, r2, depth + 1); }
  }

  lemma {:induction false} TemplateKeeps(b: bytes, r1: Option<Registry>, r2: Option<Registry>, depth: nat)
    requires Refines(r1, r2)
    ensures DecodeTemplate(b, r1, depth).Ok? ==> DecodeTemplate(b, r2, depth) == DecodeTemplate(b, r1, depth)
    decreases Budget(depth), 8, 4
  {
    hide Decode.Run, Refines;
    if depth <= MAX_DEPTH { RunKeeps(r1, r2, depth, TemplateAcc(NO_TEMPLATE), b); }
  }

  /** Arbitrary bytes that decode under one registry decode alike under every refinement of it. */
  lemma DecodeKeeps(b: bytes, r1: Option<Registry>, r2: Option<Registry>)
    requires Refines(r1, r2) && DecodePayload(b, r1).Ok?
    ensures DecodePayload(b, r2) == DecodePayload(b, r1)
  {
    hide Decode.Run, Refines;
    RunKeeps(r1, r2, 0, PayloadAcc(NO_PAYLOAD), b);
  }

  /** Bytes that decode without a registry decode alike with any, at every level of nesting. */
  lemma RegistryIndependence(b: bytes, types: Option<Registry>)
    requires DecodePayload(b, None).Ok?
    ensures DecodePayload(b, types) == DecodePayload(b, None)
  {
    hide Decode.DecodePayload;
    DecodeKeeps(b, None, types);
  }
}
