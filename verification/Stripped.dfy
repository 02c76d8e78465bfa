/**
 DATA and CMD payloads: encoded without datatypes, decoded with the registry of a birth. What
 the registry must recover for the payload to come back is exactly `Recoverable`.
 */
module Stripped {
  import opened Base
  import opened Wire
  import opened Model
  import opened Alias
  import opened Scalars
  import opened Encode
  import opened Decode
  import opened RoundTripParts
  import opened RoundTrip
  import opened Sound
  import opened Codec
  import D = DataTypes

  // ---- Members of a template that came back ----

  /** `after` is `before`, possibly with one metric more. */
  predicate Grown(before: seq<Metric>, after: seq<Metric>, f: Field) {
    || after == before
    || (f.LenF? && f.num == 2 && |after| == |before| + 1 && after[..|before|] == before)
  }

  lemma GrownPrefix(before: seq<Metric>, after: seq<Metric>, last: seq<Metric>, f: Field)
    requires Grown(before, after, f) && |after| <= |last| && last[..|after|] == after
    ensures |before| <= |last| && last[..|before|] == before
  {
    assert last[..|after|][..|before|] == last[..|before|];
  }

  lemma TemplateStepGrows(types: Option<Registry>, depth: nat, t: Template, f: Field, next: Template)
    requires depth <= MAX_DEPTH && Step(types, depth, TemplateAcc(t), f) == Ok(TemplateAcc(next))
    ensures Grown(t.metrics, next.metrics, f)
  {
    hide Decode.DecodeMetric, Decode.DecodeParameter;
  }

  lemma PayloadStepGrows(types: Option<Registry>, p: Payload, f: Field, next: Payload)
    requires Step(types, 0, PayloadAcc(p), f) == Ok(PayloadAcc(next))
    ensures Grown(p.metrics, next.metrics, f)
  {
    hide Decode.DecodeMetric;
  }

  lemma {:induction false} MembersGrow(types: Option<Registry>, depth: nat, t: Template, fs: seq<Field>, r: Template)
    requires depth <= MAX_DEPTH && Fold(types, depth, TemplateAcc(t), fs) == Ok(TemplateAcc(r))
    ensures |t.metrics| <= |r.metrics| && r.metrics[..|t.metrics|] == t.metrics
    ensures (forall f <- fs :: !(f.LenF? && f.num == 2)) ==> r.metrics == t.metrics
    decreases |fs|
  {
    hide Decode.Step;
    if fs != [] {
      var next := Step(types, depth, TemplateAcc(t), fs[0]).value.template;
      TemplateStepGrows(types, depth, t, fs[0], next);
      MembersGrow(types, depth, next, fs[1..], r);
      GrownPrefix(t.metrics, next.metrics, r.metrics, fs[0]);
    }
  }

  lemma FirstMember(types: Option<Registry>, depth: nat, t: Template, body: bytes, rest: seq<Field>, r: Template)
    requires depth <= MAX_DEPTH && Fold(types, depth, TemplateAcc(t), [LenF(2, body)] + rest) == Ok(TemplateAcc(r))
    ensures |t.metrics| < |r.metrics| && DecodeMetric(body, types, depth + 1) == Ok(r.metrics[|t.metrics|])
    ensures Fold(types, depth, TemplateAcc(t.(metrics := t.metrics + [r.metrics[|t.metrics|]])), rest) ==
      Ok(TemplateAcc(r))
  {
    hide Decode.DecodeMetric, Decode.DecodeParameter, Decode.Fold;
    FoldCons(types, depth, TemplateAcc(t), LenF(2, body), rest);
    var m := DecodeMetric(body, types, depth + 1).value;
    MembersGrow(types, depth, t.(metrics := t.metrics + [m]), rest, r);
    assert r.metrics[..|t.metrics| + 1][|t.metrics|] == m;
  }

  lemma {:induction false} MembersCameBack(types: Option<Registry>, depth: nat, t: Template, ms: seq<Metric>,
                                           r: Template, k: Metric)
    requires depth <= MAX_DEPTH && Fold(types, depth, TemplateAcc(t), MetricList(ms, true)) == Ok(TemplateAcc(r))
    requires r.metrics == t.metrics + ms && k in ms
    ensures DecodeMetric(EncodeMetric(k, true), types, depth + 1) == Ok(k)
    decreases |ms|
  {
    hide Decode.DecodeMetric, Decode.Fold, Encode.EncodeMetric;
    FirstMember(types, depth, t, EncodeMetric(ms[0], true), MetricList(ms[1..], true), r);
    if k != ms[0] {
      HeadTail(ms);
      Assoc(t.metrics, [ms[0]], ms[1..]);
      MembersCameBack(types, depth, t.(metrics := t.metrics + [ms[0]]), ms[1..], r, k);
    }
  }

  lemma NoMembersIn(t: Template)
    ensures var fs := ParameterList(t.parameters) + OptBytes(4, t.templateRef) + [BoolF(5, t.isDefinition)];
      forall f <- fs :: !(f.LenF? && f.num == 2)
  {
    NoMembersInParameters(t.parameters);
  }

  lemma {:induction false} NoMembersInParameters(ps: seq<Parameter>)
    ensures forall f <- ParameterList(ps) :: f.LenF? && f.num == 3
  {
    if ps != [] { NoMembersInParameters(ps[1..]); }
  }

  lemma TemplateCameBack(t: Template, types: Option<Registry>, depth: nat, k: Metric)
    requires DecodeTemplate(EncodeTemplate(t, true), types, depth) == Ok(t) && |EncodeTemplate(t, true)| < TWO64
    requires k in t.metrics
    ensures depth <= MAX_DEPTH && DecodeMetric(EncodeMetric(k, true), types, depth + 1) == Ok(k)
  {
    hide Decode.Fold, Encode.MetricList, Encode.ParameterList, Decode.DecodeMetric, Encode.EncodeMetric, Wire.Ser;
    var a, b, c := OptBytes(1, t.version), MetricList(t.metrics, true), ParameterList(t.parameters);
    var e, f := OptBytes(4, t.templateRef), [BoolF(5, t.isDefinition)];
    var d, t1 := TemplateAcc(NO_TEMPLATE), NO_TEMPLATE.(version := t.version);
    RunOfSer(types, depth, d, TemplateFields(t, true));
    assert TemplateFields(t, true) == a + b + (c + e + f);
    FoldAppend(types, depth, d, a + b, c + e + f);
    FoldAppend(types, depth, d, a, b);
    Units(a);
    EmptyFold(types, depth, d);
    Extend(types, depth, d, [], a, d, TemplateAcc(t1));
    match Fold(types, depth, TemplateAcc(t1), b)
    case Err(_) =>
    case Ok(TemplateAcc(mid)) =>
      NoMembersIn(t);
      MembersGrow(types, depth, mid, c + e + f, t);
      Units(t.metrics);
      MembersCameBack(types, depth, t1, t.metrics, mid, k);
  }

  // ---- A metric that came back was recoverable ----

  lemma TypeCameBack(m: Metric, types: Option<Registry>, depth: nat)
    requires depth <= MAX_DEPTH && FinishMetric(types, depth, RawFull(m, true)) == Ok(m)
    ensures Recover(types, m.name, m.alias) == Some(m.value.Type())
    ensures m.value.TemplateV? ==>
      DecodeTemplate(EncodeTemplate(m.value.template, true), types, depth + 1) == Ok(m.value.template)
  {
    hide Decode.DecodeTemplate, Decode.DecodeDataSet, Encode.EncodeTemplate, Encode.DataSetFields;
    var raw := RawFull(m, true);
    DecodedValueFits(types, depth, MetricType(types, raw).value, raw);
  }

  lemma {:induction false} MetricCameBack(m: Metric, types: Option<Registry>, depth: nat)
    requires DecodeMetric(EncodeMetric(m, true), types, depth) == Ok(m) && |EncodeMetric(m, true)| < TWO64
    ensures Recoverable(m, types)
    decreases m
  {
    hide Decode.Run, Decode.FinishMetric, RawFull, Wire.Ser, Encode.MetricFields;
    RunOfSer(types, depth, MetricAcc(RAW_METRIC), MetricFields(m, true));
    MetricFold(m, true, types, depth);
    TypeCameBack(m, types, depth);
    if m.value.TemplateV? {
      MetricSizes(m, true);
      var t := m.value.template;
      forall k | k in t.metrics ensures Recoverable(k, types) {
        TemplateCameBack(t, types, depth + 1, k);
        TemplateSizes(t, true);
        MemberSize(t.metrics, k);
        MetricCameBack(k, types, depth + 2);
      }
    }
  }

  lemma {:induction false} MemberSize(ms: seq<Metric>, k: Metric)
    requires k in ms && |Ser(MetricList(ms, true))| < TWO64
    ensures |EncodeMetric(k, true)| < TWO64
  {
    hide Encode.EncodeMetric;
    SerOfCons(LenF(2, EncodeMetric(ms[0], true)), MetricList(ms[1..], true));
    if k != ms[0] { MemberSize(ms[1..], k); }
  }

  // ---- The same for the metrics of a payload ----

  lemma {:induction false} PayloadGrows(types: Option<Registry>, p: Payload, fs: seq<Field>, r: Payload)
    requires Fold(types, 0, PayloadAcc(p), fs) == Ok(PayloadAcc(r))
    ensures |p.metrics| <= |r.metrics| && r.metrics[..|p.metrics|] == p.metrics
    ensures (forall f <- fs :: !(f.LenF? && f.num == 2)) ==> r.metrics == p.metrics
    decreases |fs|
  {
    hide Decode.Step;
    if fs != [] {
      var next := Step(types, 0, PayloadAcc(p), fs[0]).value.payload;
      PayloadStepGrows(types, p, fs[0], next);
      PayloadGrows(types, next, fs[1..], r);
      GrownPrefix(p.metrics, next.metrics, r.metrics, fs[0]);
    }
  }

  lemma FirstMetric(types: Option<Registry>, p: Payload, body: bytes, rest: seq<Field>, r: Payload)
    requires Fold(types, 0, PayloadAcc(p), [LenF(2, body)] + rest) == Ok(PayloadAcc(r))
    ensures |p.metrics| < |r.metrics| && DecodeMetric(body, types, 0) == Ok(r.metrics[|p.metrics|])
    ensures Fold(types, 0, PayloadAcc(p.(metrics := p.metrics + [r.metrics[|p.metrics|]])), rest) == Ok(PayloadAcc(r))
  {
    hide Decode.DecodeMetric, Decode.Fold;
    FoldCons(types, 0, PayloadAcc(p), LenF(2, body), rest);
    var m := DecodeMetric(body, types, 0).value;
    PayloadGrows(types, p.(metrics := p.metrics + [m]), rest, r);
    assert r.metrics[..|p.metrics| + 1][|p.metrics|] == m;
  }

  lemma {:induction false} MetricsCameBack(types: Option<Registry>, p: Payload, ms: seq<Metric>, r: Payload, k: Metric)
    requires Fold(types, 0, PayloadAcc(p), MetricList(ms, true)) == Ok(PayloadAcc(r))
    requires r.metrics == p.metrics + ms && k in ms
    ensures DecodeMetric(EncodeMetric(k, true), types, 0) == Ok(k)
    decreases |ms|
  {
    hide Decode.DecodeMetric, Decode.Fold, Encode.EncodeMetric;
    FirstMetric(types, p, EncodeMetric(ms[0], true), MetricList(ms[1..], true), r);
    if k != ms[0] {
      HeadTail(ms);
      Assoc(p.metrics, [ms[0]], ms[1..]);
      MetricsCameBack(types, p.(metrics := p.metrics + [ms[0]]), ms[1..], r, k);
    }
  }

  lemma PayloadCameBack(p: Payload, types: Option<Registry>, k: Metric)
    requires DecodePayload(EncodePayload(p, true), types) == Ok(p) && |EncodePayload(p, true)| < TWO64
    requires k in p.metrics
    ensures Recoverable(k, types)
  {
    hide Decode.Fold, Encode.MetricList, Decode.DecodeMetric, Encode.EncodeMetric, Wire.Ser, Recoverable;
    var a, b := OptNum(1, p.timestamp), MetricList(p.metrics, true);
    var c := OptNum(3, Widen(p.seqNo)) + OptBytes(4, p.uuid) + OptBytes(5, p.body);
    var d, p1 := PayloadAcc(NO_PAYLOAD), NO_PAYLOAD.(timestamp := p.timestamp);
    RunOfSer(types, 0, d, PayloadFields(p, true));
    assert PayloadFields(p, true) == a + b + c;
    FoldAppend(types, 0, d, a + b, c);
    FoldAppend(types, 0, d, a, b);
    Units(a);
    EmptyFold(types, 0, d);
    Extend(types, 0, d, [], a, d, PayloadAcc(p1));
    match Fold(types, 0, PayloadAcc(p1), b)
    case Err(_) =>
    case Ok(PayloadAcc(mid)) =>
      PayloadGrows(types, mid, c, p);
      Units(p.metrics);
      MetricsCameBack(types, p1, p.metrics, mid, k);
      PayloadSizes(p, true);
      MemberSize(p.metrics, k);
      MetricCameBack(k, types, 0);
  }

  /**
   Without datatypes on the wire: the payload comes back exactly when it is well-formed, within
   the depth limit, and every metric and template member has its datatype recovered, by name
   first and by alias only when the name is absent.
   */
  lemma DataRoundTrip(p: Payload, types: Option<Registry>)
    requires |EncodePayload(p, true)| < TWO64
    ensures DecodePayload(EncodePayload(p, true), types) == Ok(p)
            <==> WfPayload(p) && WithinDepth(p.metrics) && (forall m <- p.metrics :: Recoverable(m, types))
  {
    hide Decode.DecodePayload, Encode.EncodePayload;
    if DecodePayload(EncodePayload(p, true), types) == Ok(p) {
      DecodedPayloadFits(EncodePayload(p, true), types);
      forall m | m in p.metrics ensures Recoverable(m, types) { PayloadCameBack(p, types, m); }
    }
    if WfPayload(p) && WithinDepth(p.metrics) && (forall m <- p.metrics :: Recoverable(m, types)) {
      DecodeOfEncode(p, true, types);
    }
  }
}
