/**
 What the encoders write, said of the bytes: which fields stand in them, each with its number, wire type and value,
 in ascending order and a singular one at most once (src/codec/encode.rs).
 */
module Writing {
  import opened Base
  import opened Wire
  import opened Fields
  import opened Model
  import opened Scalars
  import opened Encode
  import Arrays

  // ---- Order ----

  /** Numbers ascend; only a repeated one may come more than once. */
  predicate Ascending(fs: seq<Field>, repeated: set<nat>) {
    forall i, j :: 0 <= i < j < |fs| ==>
      fs[i].num < fs[j].num || (fs[i].num == fs[j].num && (fs[i].num as nat) in repeated)
  }

  predicate Within(fs: seq<Field>, lo: nat, hi: nat) { forall f <- fs :: lo <= f.num <= hi }

  /** Ascending within bounds. */
  predicate Span(fs: seq<Field>, lo: nat, hi: nat, repeated: set<nat>) {
    Ascending(fs, repeated) && Within(fs, lo, hi)
  }

  lemma Joined(a: seq<Field>, b: seq<Field>, lo: nat, mid: nat, next: nat, hi: nat, repeated: set<nat>)
    requires Span(a, lo, mid, repeated) && Span(b, next, hi, repeated) && lo <= mid < next <= hi
    ensures Span(a + b, lo, hi, repeated)
  {
    var all := a + b;
    forall i, j | 0 <= i < j < |all|
      ensures all[i].num < all[j].num || (all[i].num == all[j].num && (all[i].num as nat) in repeated)
    {
      if i < |a| <= j { assert all[i] in a && all[j] in b; }
    }
    assert forall f <- all :: f in a || f in b;
  }

  lemma SpanOne(f: Field, repeated: set<nat>)
    ensures Span([f], f.num, f.num, repeated)
  {
  }

  lemma SpanNone(lo: nat, hi: nat, repeated: set<nat>)
    ensures Span([], lo, hi, repeated)
  {
  }

  /** The fields of the bytes are the fields written. */
  lemma Written(fs: seq<Field>)
    requires |Ser(fs)| < TWO64
    ensures Tokens(Ser(fs)) == Parsed(fs, None)
  {
    hide Wire.Tokens, Wire.Ser;
    AllFit(fs);
    TokensOfSer(fs, []);
    Units(Ser(fs));
    Units(fs);
    NoTokens();
  }

  lemma NoTokens()
    ensures Tokens([]) == Parsed([], None)
  {
  }

  // ---- Scalars ----

  /** The field of a scalar: a signed integer extended to 32 or 64 bits, a flag as 0 or 1. */
  predicate HoldsScalar(base: nat, s: Scalar, f: Field)
    requires base < 100
  {
    match s
    case Int8(v) => f.VarintF? && f.num == base && f.v < TWO32 && (f.v - v) % 0x1_0000_0000 == 0
    case Int16(v) => f.VarintF? && f.num == base && f.v < TWO32 && (f.v - v) % 0x1_0000_0000 == 0
    case Int32(v) => f.VarintF? && f.num == base && f.v < TWO32 && (f.v - v) % 0x1_0000_0000 == 0
    case UInt8(v) => f.VarintF? && f.num == base && f.v == v
    case UInt16(v) => f.VarintF? && f.num == base && f.v == v
    case UInt32(v) => f.VarintF? && f.num == base && f.v == v
    case Int64(v) => f.VarintF? && f.num == base + 1 && (f.v - v) % TWO64 == 0
    case UInt64(v) => f.VarintF? && f.num == base + 1 && f.v == v
    case DateTime(v) => f.VarintF? && f.num == base + 1 && (f.v - v) % TWO64 == 0
    case Float(w) => f == I32F(base + 2, w)
    case Double(b) => f == I64F(base + 3, b)
    case Boolean(b) => f.VarintF? && f.num == base + 4 && f.v == if b then 1 else 0
    case String(t) => f == LenF(base + 5, t)
    case Text(t) => f == LenF(base + 5, t)
  }

  lemma Cast32(v: i32, x: u64)
    ensures x == AsU32(v) <==> x < TWO32 && (x - v) % 0x1_0000_0000 == 0
  {
  }

  lemma Cast64(v: i64, x: u64)
    ensures x == AsU64(v) <==> (x - v) % TWO64 == 0
  {
  }

  lemma ScalarHeld(base: u32, s: Scalar, f: Field)
    requires base < 100
    ensures f == ScalarF(base, s) <==> HoldsScalar(base, s, f)
    ensures base <= ScalarF(base, s).num <= base + 5
  {
    hide AsU32, AsU64;
    if f.VarintF? {
      match s
      case Int8(v) => Cast32(v, f.v);
      case Int16(v) => Cast32(v, f.v);
      case Int32(v) => Cast32(v, f.v);
      case Int64(v) => Cast64(v, f.v);
      case DateTime(v) => Cast64(v, f.v);
      case _ =>
    }
  }

  // ---- Payload, metric and metadata ----

  predicate FlagHolds(v: Option<bool>, x: u64) { v.Some? && x == if v.value then 1 else 0 }

  /** The fields of a metric. The datatype goes with births only, and a null flag with nulls only, without a value. */
  predicate InMetric(m: Metric, strip: bool, f: Field) {
    hide Encode.EncodeSet, Encode.EncodeMetaData;
    match f
    case LenF(n, b) =>
      || (n == 1 && m.name == Some(b)) || (n == 8 && m.metadata.Some? && b == EncodeMetaData(m.metadata.value))
      || (n == 9 && m.properties.Some? && b == EncodeSet(m.properties.value))
      || InValue(m.value, strip, f)
    case VarintF(n, v) =>
      || (n == 2 && m.alias == Some(v)) || (n == 3 && m.timestamp == Some(v))
      || (n == 4 && !strip && v == m.value.Type().Code())
      || (n == 5 && FlagHolds(m.isHistorical, v)) || (n == 6 && FlagHolds(m.isTransient, v))
      || (n == 7 && v == 1 && m.value.Null?) || InValue(m.value, strip, f)
    case _ => InValue(m.value, strip, f)
  }

  predicate InValue(v: MetricValue, strip: bool, f: Field) {
    hide Encode.EncodeTemplate, Encode.EncodeDataSet, Arrays.Pack, HoldsScalar;
    match v
    case Basic(s) => HoldsScalar(10, s, f)
    case Uuid(s) => f == LenF(15, s)
    case Bytes(b) => f == LenF(16, b)
    case File(b) => f == LenF(16, b)
    case Array(a) => f == LenF(16, Arrays.Pack(a))
    case DataSetV(d) => f == LenF(17, EncodeDataSet(d))
    case TemplateV(t) => f == LenF(18, EncodeTemplate(t, strip))
    case Null(_) => false
  }

  lemma ValueIn(v: MetricValue, strip: bool, f: Field)
    ensures f in ValueFields(v, strip) <==> InValue(v, strip, f)
    ensures Span(ValueFields(v, strip), 10, 18, {})
  {
    hide Encode.EncodeTemplate, Encode.DataSetFields, Arrays.Pack, HoldsScalar, Scalars.ScalarF, Wire.Ser;
    if v.Basic? { ScalarHeld(10, v.scalar, f); ScalarHeld(10, v.scalar, ScalarF(10, v.scalar)); }
  }

  lemma HeadSpan(m: Metric, strip: bool)
    ensures Span(MetricHead(m, strip), 1, 7, {})
  {
    var code := if strip then [] else [VarintF(4, m.value.Type().Code())];
    var nil := if m.value.Null? then [BoolF(7, true)] else [];
    var a := OptBytes(1, m.name) + OptNum(2, m.alias);
    Joined(OptBytes(1, m.name), OptNum(2, m.alias), 1, 1, 2, 2, {});
    Joined(a, OptNum(3, m.timestamp), 1, 2, 3, 3, {});
    Joined(a + OptNum(3, m.timestamp), code, 1, 3, 4, 4, {});
    Joined(a + OptNum(3, m.timestamp) + code, OptBool(5, m.isHistorical), 1, 4, 5, 5, {});
    var b := a + OptNum(3, m.timestamp) + code + OptBool(5, m.isHistorical);
    Joined(b, OptBool(6, m.isTransient), 1, 5, 6, 6, {});
    Joined(b + OptBool(6, m.isTransient), nil, 1, 6, 7, 7, {});
  }

  lemma MetricHas(m: Metric, strip: bool, f: Field)
    ensures f in MetricFields(m, strip) <==> InMetric(m, strip, f)
  {
    hide Encode.EncodeSet, Encode.MetaDataFields, Encode.ValueFields, InValue, MetricValue.Type, Wire.Ser, Span;
    ValueIn(m.value, strip, f);
  }

  lemma MetricSpan(m: Metric, strip: bool)
    ensures Span(MetricFields(m, strip), 1, 18, {})
  {
    hide Encode.MetricHead, Encode.EncodedMetaData, Encode.EncodedProperties, Encode.ValueFields;
    var md, ps := OptBytes(8, EncodedMetaData(m.metadata)), OptBytes(9, EncodedProperties(m.properties));
    HeadSpan(m, strip);
    ValueIn(m.value, strip, BoolF(7, true));
    Joined(MetricHead(m, strip), md, 1, 7, 8, 8, {});
    Joined(MetricHead(m, strip) + md, ps, 1, 8, 9, 9, {});
    Joined(MetricHead(m, strip) + md + ps, ValueFields(m.value, strip), 1, 9, 10, 18, {});
  }

  /** The bytes of a metric are exactly its fields, each once, by ascending number. */
  lemma MetricWritten(m: Metric, strip: bool)
    requires |EncodeMetric(m, strip)| < TWO64
    ensures var t := Tokens(EncodeMetric(m, strip));
      t.error.None? && Ascending(t.fields, {}) && forall f :: f in t.fields <==> InMetric(m, strip, f)
  {
    hide Encode.MetricFields, InMetric, Wire.Tokens, Wire.Ser;
    Written(MetricFields(m, strip));
    MetricSpan(m, strip);
    forall f ensures f in MetricFields(m, strip) <==> InMetric(m, strip, f) { MetricHas(m, strip, f); }
  }

  // ---- Repeated fields ----

  lemma {:induction false} BodiesAppend(a: seq<Field>, b: seq<Field>, n: nat)
    ensures Bodies(a + b, n) == Bodies(a, n) + Bodies(b, n)
    decreases |b|
  {
    if b == [] {
      Units(a);
      Units(Bodies(a, n));
    } else {
      assert Init(a + b) == a + Init(b);
      BodiesAppend(a, Init(b), n);
    }
  }

  /** A list without such a field has no such bodies. */
  lemma {:induction false} NoBodies(fs: seq<Field>, n: nat)
    requires forall f <- fs :: !(f.LenF? && f.num == n)
    ensures Bodies(fs, n) == []
    decreases |fs|
  {
    if fs != [] {
      assert Final(fs) in fs && forall f <- Init(fs) :: f in fs;
      NoBodies(Init(fs), n);
    }
  }

  /** One field of number `n` for each body: what every repeated list of the encoder is. */
  predicate Repeats(fs: seq<Field>, n: nat, bs: seq<bytes>) {
    |fs| == |bs| && forall i :: 0 <= i < |fs| ==> fs[i].LenF? && fs[i].num == n && fs[i].body == bs[i]
  }

  lemma {:induction false} Repeated(fs: seq<Field>, n: nat, bs: seq<bytes>)
    requires Repeats(fs, n, bs)
    ensures Bodies(fs, n) == bs && Span(fs, n, n, {n})
    decreases |fs|
  {
    if fs != [] {
      Repeated(Init(fs), n, bs[..|bs| - 1]);
      Cut(bs, |bs| - 1);
      assert bs[|bs| - 1..] == [bs[|bs| - 1]];
    }
  }

  /** What is written for each metric of a list. */
  predicate MetricsAre(bs: seq<bytes>, ms: seq<Metric>, strip: bool) {
    hide Encode.EncodeMetric;
    |bs| == |ms| && forall i :: 0 <= i < |bs| ==> bs[i] == EncodeMetric(ms[i], strip)
  }

  function MetricBytes(ms: seq<Metric>, strip: bool): (bs: seq<bytes>)
    ensures MetricsAre(bs, ms, strip)
  {
    hide Encode.EncodeMetric;
    if ms == [] then [] else [EncodeMetric(ms[0], strip)] + MetricBytes(ms[1..], strip)
  }

  lemma {:induction false} MetricListRepeats(ms: seq<Metric>, strip: bool)
    ensures Repeats(MetricList(ms, strip), 2, MetricBytes(ms, strip))
  {
    hide Encode.EncodeMetric;
    if ms != [] { MetricListRepeats(ms[1..], strip); }
  }

  lemma RepeatsOnly(fs: seq<Field>, n: nat, bs: seq<bytes>)
    requires Repeats(fs, n, bs)
    ensures forall f <- fs :: f.LenF? && f.num == n
  {
  }

  /** A list between others that hold no such field: its bodies are the bodies of the whole. */
  lemma Middle(a: seq<Field>, b: seq<Field>, c: seq<Field>, n: nat, bs: seq<bytes>)
    requires Repeats(b, n, bs)
    requires forall f <- a :: !(f.LenF? && f.num == n)
    requires forall f <- c :: !(f.LenF? && f.num == n)
    ensures Bodies(a + b + c, n) == bs
  {
    hide Repeats;
    Repeated(b, n, bs);
    NoBodies(a, n);
    NoBodies(c, n);
    BodiesAppend(a, b, n);
    BodiesAppend(a + b, c, n);
    Units(bs);
  }

  /** The fields of a payload but for its metrics. */
  predicate InPayload(p: Payload, f: Field) {
    match f
    case LenF(n, b) => (n == 4 && p.uuid == Some(b)) || (n == 5 && p.body == Some(b))
    case VarintF(n, v) => (n == 1 && p.timestamp == Some(v)) || (n == 3 && p.seqNo.Some? && v == p.seqNo.value)
    case _ => false
  }

  lemma PayloadSpan(p: Payload, strip: bool)
    ensures Span(PayloadFields(p, strip), 1, 5, {2})
  {
    hide Encode.MetricList, MetricBytes;
    var a, ms := OptNum(1, p.timestamp), MetricList(p.metrics, strip);
    MetricListRepeats(p.metrics, strip);
    Repeated(ms, 2, MetricBytes(p.metrics, strip));
    Joined(a, ms, 1, 1, 2, 2, {2});
    Joined(a + ms, OptNum(3, Widen(p.seqNo)), 1, 2, 3, 3, {2});
    Joined(a + ms + OptNum(3, Widen(p.seqNo)), OptBytes(4, p.uuid), 1, 3, 4, 4, {2});
    Joined(a + ms + OptNum(3, Widen(p.seqNo)) + OptBytes(4, p.uuid), OptBytes(5, p.body), 1, 4, 5, 5, {2});
  }

  lemma PayloadRest(p: Payload, f: Field)
    ensures f in OptNum(1, p.timestamp) + (OptNum(3, Widen(p.seqNo)) + OptBytes(4, p.uuid) + OptBytes(5, p.body)) <==>
      InPayload(p, f)
    ensures InPayload(p, f) ==> !(f.LenF? && f.num == 2)
  {
  }

  lemma PayloadHas(p: Payload, strip: bool)
    ensures var fs := PayloadFields(p, strip);
      && Bodies(fs, 2) == MetricBytes(p.metrics, strip)
      && forall f :: f in fs && !(f.LenF? && f.num == 2) <==> InPayload(p, f)
  {
    hide Encode.MetricList, MetricBytes, Bodies, InPayload, Repeats;
    var a, ms := OptNum(1, p.timestamp), MetricList(p.metrics, strip);
    var c := OptNum(3, Widen(p.seqNo)) + OptBytes(4, p.uuid) + OptBytes(5, p.body);
    assert PayloadFields(p, strip) == a + ms + c;
    MetricListRepeats(p.metrics, strip);
    Middle(a, ms, c, 2, MetricBytes(p.metrics, strip));
    RepeatsOnly(ms, 2, MetricBytes(p.metrics, strip));
    forall f: Field ensures f in a + ms + c && !(f.LenF? && f.num == 2) <==> InPayload(p, f) { PayloadRest(p, f); }
  }

  /** The bytes of a payload are exactly its fields and its metrics in order, by ascending number. */
  lemma PayloadWritten(p: Payload, strip: bool)
    requires |EncodePayload(p, strip)| < TWO64
    ensures var t := Tokens(EncodePayload(p, strip));
      && t.error.None? && Ascending(t.fields, {2}) && MetricsAre(Bodies(t.fields, 2), p.metrics, strip)
      && forall f :: f in t.fields && !(f.LenF? && f.num == 2) <==> InPayload(p, f)
  {
    hide Encode.PayloadFields, InPayload, Wire.Tokens, Wire.Ser, MetricsAre, MetricBytes;
    Written(PayloadFields(p, strip));
    PayloadSpan(p, strip);
    PayloadHas(p, strip);
  }

  // ---- Templates ----

  function ParameterBytes(ps: seq<Parameter>): (bs: seq<bytes>)
    ensures |bs| == |ps| && forall i :: 0 <= i < |bs| ==> bs[i] == EncodeParameter(ps[i])
  {
    hide Encode.EncodeParameter;
    if ps == [] then [] else [EncodeParameter(ps[0])] + ParameterBytes(ps[1..])
  }

  lemma {:induction false} ParameterListRepeats(ps: seq<Parameter>)
    ensures Repeats(ParameterList(ps), 3, ParameterBytes(ps))
  {
    hide Encode.ParameterFields;
    if ps != [] { ParameterListRepeats(ps[1..]); }
  }

  /** The fields of a template but for its members and parameters. */
  predicate InTemplate(t: Template, f: Field) {
    match f
    case LenF(n, b) => (n == 1 && t.version == Some(b)) || (n == 4 && t.templateRef == Some(b))
    case VarintF(n, v) => n == 5 && v == if t.isDefinition then 1 else 0
    case _ => false
  }

  lemma TemplateParts(t: Template, strip: bool)
    ensures var fs := TemplateFields(t, strip);
      && Span(fs, 1, 5, {2, 3})
      && Bodies(fs, 2) == MetricBytes(t.metrics, strip) && Bodies(fs, 3) == ParameterBytes(t.parameters)
      && forall f :: f in fs && !(f.LenF? && f.num in {2, 3}) <==> InTemplate(t, f)
  {
    hide Encode.MetricList, Encode.ParameterList, MetricBytes, ParameterBytes, Bodies, Repeats, Span;
    var a, ms, ps := OptBytes(1, t.version), MetricList(t.metrics, strip), ParameterList(t.parameters);
    var c, d := OptBytes(4, t.templateRef), [BoolF(5, t.isDefinition)];
    MetricListRepeats(t.metrics, strip);
    ParameterListRepeats(t.parameters);
    TemplateSpan(a, ms, ps, c, d, MetricBytes(t.metrics, strip), ParameterBytes(t.parameters));
    RepeatsOnly(ms, 2, MetricBytes(t.metrics, strip));
    RepeatsOnly(ps, 3, ParameterBytes(t.parameters));
    assert a + ms + ps + c + d == a + ms + (ps + c + d) == (a + ms) + ps + (c + d);
    Middle(a, ms, ps + c + d, 2, MetricBytes(t.metrics, strip));
    Middle(a + ms, ps, c + d, 3, ParameterBytes(t.parameters));
  }

  lemma TemplateSpan(a: seq<Field>, ms: seq<Field>, ps: seq<Field>, c: seq<Field>, d: seq<Field>, bs: seq<bytes>,
                     cs: seq<bytes>)
    requires |a| <= 1 && |c| <= 1 && |d| == 1 && Within(a, 1, 1) && Within(c, 4, 4) && Within(d, 5, 5)
    requires Repeats(ms, 2, bs) && Repeats(ps, 3, cs)
    ensures Span(a + ms + ps + c + d, 1, 5, {2, 3})
  {
    Repeated(ms, 2, bs);
    Repeated(ps, 3, cs);
    Joined(a, ms, 1, 1, 2, 2, {2, 3});
    Joined(a + ms, ps, 1, 2, 3, 3, {2, 3});
    Joined(a + ms + ps, c, 1, 3, 4, 4, {2, 3});
    Joined(a + ms + ps + c, d, 1, 4, 5, 5, {2, 3});
  }

  lemma TemplateWritten(t: Template, strip: bool)
    requires |EncodeTemplate(t, strip)| < TWO64
    ensures var r := Tokens(EncodeTemplate(t, strip));
      && r.error.None? && Ascending(r.fields, {2, 3})
      && MetricsAre(Bodies(r.fields, 2), t.metrics, strip) && Bodies(r.fields, 3) == ParameterBytes(t.parameters)
      && forall f :: f in r.fields && !(f.LenF? && f.num in {2, 3}) <==> InTemplate(t, f)
  {
    hide Encode.TemplateFields, InTemplate, Wire.Tokens, Wire.Ser, MetricsAre, MetricBytes, ParameterBytes;
    Written(TemplateFields(t, strip));
    TemplateParts(t, strip);
  }

  /** Name, type, and the value when there is one. */
  predicate InParameter(p: Parameter, f: Field) {
    || f == LenF(1, p.name) || f == VarintF(2, p.datatype_.Code())
    || (p.value.Some? && HoldsScalar(3, p.value.value, f))
  }

  lemma ParameterWritten(p: Parameter)
    requires |EncodeParameter(p)| < TWO64
    ensures var r := Tokens(EncodeParameter(p));
      r.error.None? && Ascending(r.fields, {}) && forall f :: f in r.fields <==> InParameter(p, f)
  {
    hide HoldsScalar, Scalars.ScalarF, Wire.Tokens, Wire.Ser, DataType.Code;
    Written(ParameterFields(p));
    forall f ensures f in ParameterFields(p) <==> InParameter(p, f) {
      if p.value.Some? { ScalarHeld(3, p.value.value, f); }
    }
    if p.value.Some? { ScalarHeld(3, p.value.value, ScalarF(3, p.value.value)); }
  }

  predicate InMetaData(md: MetaData, f: Field) {
    match f
    case LenF(n, b) =>
      || (n == 2 && md.contentType == Some(b)) || (n == 5 && md.fileName == Some(b))
      || (n == 6 && md.fileType == Some(b)) || (n == 7 && md.md5 == Some(b)) || (n == 8 && md.description == Some(b))
    case VarintF(n, v) =>
      (n == 1 && FlagHolds(md.isMultiPart, v)) || (n == 3 && md.size == Some(v)) || (n == 4 && md.seqNo == Some(v))
    case _ => false
  }

  lemma MetaDataSpan(md: MetaData)
    ensures Span(MetaDataFields(md), 1, 8, {})
  {
    var a := OptBool(1, md.isMultiPart) + OptBytes(2, md.contentType);
    Joined(OptBool(1, md.isMultiPart), OptBytes(2, md.contentType), 1, 1, 2, 2, {});
    Joined(a, OptNum(3, md.size), 1, 2, 3, 3, {});
    Joined(a + OptNum(3, md.size), OptNum(4, md.seqNo), 1, 3, 4, 4, {});
    var b := a + OptNum(3, md.size) + OptNum(4, md.seqNo);
    Joined(b, OptBytes(5, md.fileName), 1, 4, 5, 5, {});
    Joined(b + OptBytes(5, md.fileName), OptBytes(6, md.fileType), 1, 5, 6, 6, {});
    var c := b + OptBytes(5, md.fileName) + OptBytes(6, md.fileType);
    Joined(c, OptBytes(7, md.md5), 1, 6, 7, 7, {});
    Joined(c + OptBytes(7, md.md5), OptBytes(8, md.description), 1, 7, 8, 8, {});
  }

  lemma MetaDataHas(md: MetaData, f: Field)
    ensures f in MetaDataFields(md) <==> InMetaData(md, f)
  {
    hide FlagHolds, InMetaData, Encode.OptBool, Encode.OptBytes, Encode.OptNum;
    var a := OptBool(1, md.isMultiPart) + OptBytes(2, md.contentType) + OptNum(3, md.size) + OptNum(4, md.seqNo);
    var b := OptBytes(5, md.fileName) + OptBytes(6, md.fileType) + OptBytes(7, md.md5) + OptBytes(8, md.description);
    assert MetaDataFields(md) == a + b;
    FirstHalf(md, f);
    SecondHalf(md, f);
  }

  lemma FirstHalf(md: MetaData, f: Field)
    ensures f in OptBool(1, md.isMultiPart) + OptBytes(2, md.contentType) + OptNum(3, md.size) + OptNum(4, md.seqNo)
      <==> InMetaData(md, f) && f.num < 5
  {
  }

  lemma SecondHalf(md: MetaData, f: Field)
    ensures
      f in OptBytes(5, md.fileName) + OptBytes(6, md.fileType) + OptBytes(7, md.md5) + OptBytes(8, md.description)
      <==> InMetaData(md, f) && f.num >= 5
  {
  }

  lemma MetaDataWritten(md: MetaData)
    requires |EncodeMetaData(md)| < TWO64
    ensures var r := Tokens(EncodeMetaData(md));
      r.error.None? && Ascending(r.fields, {}) && forall f :: f in r.fields <==> InMetaData(md, f)
  {
    hide Encode.MetaDataFields, InMetaData, Wire.Tokens, Wire.Ser;
    Written(MetaDataFields(md));
    MetaDataSpan(md);
    forall f ensures f in MetaDataFields(md) <==> InMetaData(md, f) { MetaDataHas(md, f); }
  }

  // ---- Property sets ----

  function KeyBytes(es: seq<Entry>): (bs: seq<bytes>)
    ensures |bs| == |es| && forall i :: 0 <= i < |bs| ==> bs[i] == es[i].key
  {
    if es == [] then [] else [es[0].key] + KeyBytes(es[1..])
  }

  function ValueBytes(es: seq<Entry>): (bs: seq<bytes>)
    ensures |bs| == |es| && forall i :: 0 <= i < |bs| ==> bs[i] == EncodeProperty(es[i].value)
  {
    hide Encode.EncodeProperty;
    if es == [] then [] else [EncodeProperty(es[0].value)] + ValueBytes(es[1..])
  }

  lemma {:induction false} EntriesRepeat(es: seq<Entry>)
    ensures Repeats(KeyList(es), 1, KeyBytes(es)) && Repeats(ValueList(es), 2, ValueBytes(es))
  {
    hide Encode.EncodeProperty;
    if es != [] { EntriesRepeat(es[1..]); }
  }

  /** All the keys, then all the values, both in order, and nothing else. */
  lemma SetWritten(ps: PropertySet)
    requires |EncodeSet(ps)| < TWO64
    ensures var r := Tokens(EncodeSet(ps));
      && r.error.None? && Ascending(r.fields, {1, 2}) && (forall f <- r.fields :: f.LenF? && f.num in {1, 2})
      && Bodies(r.fields, 1) == KeyBytes(ps.entries) && Bodies(r.fields, 2) == ValueBytes(ps.entries)
  {
    hide Encode.KeyList, Encode.ValueList, KeyBytes, ValueBytes, Wire.Tokens, Wire.Ser, Bodies, Repeats;
    var ks, vs, kbs, vbs := KeyList(ps.entries), ValueList(ps.entries), KeyBytes(ps.entries), ValueBytes(ps.entries);
    Written(SetFields(ps));
    EntriesRepeat(ps.entries);
    RepeatsOnly(ks, 1, kbs);
    RepeatsOnly(vs, 2, vbs);
    Units(ks);
    Units(ks + vs);
    Middle([], ks, vs, 1, kbs);
    Middle(ks, vs, [], 2, vbs);
    Repeated(ks, 1, kbs);
    Repeated(vs, 2, vbs);
    Joined(ks, vs, 1, 1, 2, 2, {1, 2});
  }

  /** Type and value, or the null flag in place of the value. */
  predicate InProperty(v: PropertyValue, f: Field) {
    hide Encode.EncodeSet, Encode.EncodeList, HoldsScalar;
    || f == VarintF(1, v.Type().Code())
    || match v {
         case Plain(s) => HoldsScalar(3, s, f)
         case SetV(ps) => f == LenF(9, EncodeSet(ps))
         case ListV(l) => f == LenF(10, EncodeList(l))
         case NullV(_) => f == VarintF(2, 1)
       }
  }

  lemma PropertyWritten(v: PropertyValue)
    requires |EncodeProperty(v)| < TWO64
    ensures var r := Tokens(EncodeProperty(v));
      r.error.None? && |r.fields| == 2 && Ascending(r.fields, {}) && forall f :: f in r.fields <==> InProperty(v, f)
  {
    hide HoldsScalar, Scalars.ScalarF, Wire.Tokens, Wire.Ser, DataType.Code, Encode.EncodeSet, Encode.SetList;
    hide PropertyValue.Type;
    Written(PropertyFields(v));
    assert PropertyFields(v) == [VarintF(1, v.Type().Code()), PropertyField(v)];
    if v.Plain? {
      ScalarHeld(3, v.scalar, ScalarF(3, v.scalar));
      forall f ensures f == ScalarF(3, v.scalar) <==> HoldsScalar(3, v.scalar, f) { ScalarHeld(3, v.scalar, f); }
    }
  }

  function SetBytes(sets: seq<PropertySet>): (bs: seq<bytes>)
    ensures |bs| == |sets| && forall i :: 0 <= i < |bs| ==> bs[i] == EncodeSet(sets[i])
  {
    hide Encode.EncodeSet;
    if sets == [] then [] else [EncodeSet(sets[0])] + SetBytes(sets[1..])
  }

  lemma {:induction false} SetListRepeats(sets: seq<PropertySet>)
    ensures Repeats(SetList(sets), 1, SetBytes(sets))
  {
    hide Encode.EncodeSet;
    if sets != [] { SetListRepeats(sets[1..]); }
  }

  lemma ListWritten(l: PropertySetList)
    requires |EncodeList(l)| < TWO64
    ensures var r := Tokens(EncodeList(l));
      r.error.None? && (forall f <- r.fields :: f.LenF? && f.num == 1) && Bodies(r.fields, 1) == SetBytes(l.sets)
  {
    hide Encode.SetList, SetBytes, Wire.Tokens, Wire.Ser, Bodies, Repeats;
    Written(SetList(l.sets));
    SetListRepeats(l.sets);
    RepeatsOnly(SetList(l.sets), 1, SetBytes(l.sets));
    Repeated(SetList(l.sets), 1, SetBytes(l.sets));
  }

  // ---- Data sets ----

  /** Whatever the data set, its bytes open with the number of its columns. */
  lemma ColumnCountFirst(d: DataSet)
    ensures ReadField(EncodeDataSet(d)).Ok?
    ensures ReadField(EncodeDataSet(d)).value.0 == VarintF(1, |d.columns| % TWO64)
  {
    hide Wire.ReadField, Wire.SerField;
    var rest := ColumnList(d.columns) + TypeList(d.types) + RowList(d.rows);
    var count := VarintF(1, |d.columns| % TWO64);
    assert DataSetFields(d) == [count] + rest;
    assert ([count] + rest)[1..] == rest;
    FieldRoundTrip(count, Ser(rest));
  }

  function RowBytes(rows: seq<seq<Cell>>): (bs: seq<bytes>)
    ensures |bs| == |rows| && forall i :: 0 <= i < |bs| ==> bs[i] == EncodeRow(rows[i])
  {
    hide Encode.EncodeRow;
    if rows == [] then [] else [EncodeRow(rows[0])] + RowBytes(rows[1..])
  }

  function ColumnBytes(cs: seq<Str>): (bs: seq<bytes>)
    ensures bs == cs
  {
    cs
  }

  lemma {:induction false} ColumnsRepeat(cs: seq<Str>)
    ensures Repeats(ColumnList(cs), 2, ColumnBytes(cs))
  {
    if cs != [] { ColumnsRepeat(cs[1..]); }
  }

  lemma {:induction false} RowsRepeat(rows: seq<seq<Cell>>)
    ensures Repeats(RowList(rows), 4, RowBytes(rows))
  {
    hide Encode.CellList;
    if rows != [] { RowsRepeat(rows[1..]); }
  }

  /** One unpacked code for each type. */
  predicate CodesAre(fs: seq<Field>, ts: seq<DataType>) {
    |fs| == |ts| && forall i :: 0 <= i < |fs| ==> fs[i] == VarintF(3, ts[i].Code())
  }

  lemma {:induction false} TypesRepeat(ts: seq<DataType>)
    ensures CodesAre(TypeList(ts), ts) && Span(TypeList(ts), 3, 3, {2, 3, 4})
  {
    hide DataType.Code;
    if ts != [] { TypesRepeat(ts[1..]); }
  }

  /** The column count, the columns, one code for each type and the rows, in that order and nothing between. */
  lemma DataSetWritten(d: DataSet)
    requires |EncodeDataSet(d)| < TWO64
    ensures var r, n, k := Tokens(EncodeDataSet(d)), |d.columns|, |d.types|;
      && r.error.None? && |r.fields| == 1 + n + k + |d.rows|
      && r.fields[0] == VarintF(1, n % TWO64)
      && Repeats(r.fields[1..1 + n], 2, ColumnBytes(d.columns))
      && CodesAre(r.fields[1 + n..1 + n + k], d.types)
      && Repeats(r.fields[1 + n + k..], 4, RowBytes(d.rows))
  {
    hide Wire.Tokens, Wire.Ser, Encode.ColumnList, Encode.TypeList, Encode.RowList, RowBytes;
    Written(DataSetFields(d));
    ColumnsRepeat(d.columns);
    TypesRepeat(d.types);
    RowsRepeat(d.rows);
    var a, b, c, e := [VarintF(1, |d.columns| % TWO64)], ColumnList(d.columns), TypeList(d.types), RowList(d.rows);
    var fs := a + b + c + e;
    assert fs[1..1 + |b|] == b && fs[1 + |b|..1 + |b| + |c|] == c && fs[1 + |b| + |c|..] == e;
  }

  function CellBytes(row: seq<Cell>): (bs: seq<bytes>)
    ensures |bs| == |row| && forall i :: 0 <= i < |bs| ==> bs[i] == EncodeCell(row[i])
  {
    hide Encode.EncodeCell;
    if row == [] then [] else [EncodeCell(row[0])] + CellBytes(row[1..])
  }

  lemma {:induction false} CellsRepeat(row: seq<Cell>)
    ensures Repeats(CellList(row), 1, CellBytes(row))
  {
    hide Encode.CellFields;
    if row != [] { CellsRepeat(row[1..]); }
  }

  lemma RowWritten(row: seq<Cell>)
    requires |EncodeRow(row)| < TWO64
    ensures Tokens(EncodeRow(row)).error.None? && Repeats(Tokens(EncodeRow(row)).fields, 1, CellBytes(row))
  {
    hide Encode.CellList, CellBytes, Wire.Tokens, Wire.Ser;
    Written(CellList(row));
    CellsRepeat(row);
  }

  /** A cell is its scalar's field, or nothing. */
  lemma CellWritten(c: Cell, f: Field)
    requires |EncodeCell(c)| < TWO64
    ensures var r := Tokens(EncodeCell(c));
      && r.error.None? && |r.fields| == (if c.Filled? then 1 else 0)
      && (f in r.fields <==> c.Filled? && HoldsScalar(1, c.scalar, f))
  {
    hide HoldsScalar, Scalars.ScalarF, Wire.Tokens, Wire.Ser;
    Written(CellFields(c));
    if c.Filled? { ScalarHeld(1, c.scalar, f); }
  }
}
