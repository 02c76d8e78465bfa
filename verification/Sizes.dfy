/** Sizes of the small payloads the engines build themselves. */
module Sizes {
  import opened Base
  import opened Wire
  import opened Model
  import opened Scalars
  import opened Encode
  import opened Messages

  /** At most ten bytes of tag and ten of value or length, and the body. */
  function Weight(f: Field): nat { 20 + if f.LenF? then |f.body| else 0 }

  function Total(fs: seq<Field>): nat { if fs == [] then 0 else Weight(fs[0]) + Total(fs[1..]) }

  lemma FieldWeight(f: Field)
    requires f.LenF? ==> |f.body| < TWO64
    ensures |SerField(f)| <= Weight(f)
  {
    hide Varint;
    VarintRoundTrip(f.num * 8 + f.WireType(), []);
    if f.VarintF? { VarintRoundTrip(f.v, []); }
    if f.LenF? { VarintRoundTrip(|f.body|, []); }
  }

  lemma {:induction false} SerTotal(fs: seq<Field>)
    requires Total(fs) < TWO64
    ensures |Ser(fs)| <= Total(fs)
  {
    hide SerField;
    if fs != [] {
      FieldWeight(fs[0]);
      SerTotal(fs[1..]);
    }
  }

  lemma {:induction false} TotalAppend(a: seq<Field>, b: seq<Field>)
    ensures Total(a + b) == Total(a) + Total(b)
  {
    if a == [] {
      Units(b);
    } else {
      assert (a + b)[1..] == a[1..] + b;
      TotalAppend(a[1..], b);
    }
  }

  lemma TotalOne(f: Field)
    ensures Total([f]) == Weight(f)
  {
    assert [f][1..] == [];
  }

  /** A short-named metric of a Boolean or an Int64, with an alias and a timestamp at most. */
  predicate Plain(m: Metric) {
    && (m.name.Some? ==> |m.name.value| <= 20) && m.value.Basic? && (m.value.scalar.Boolean? || m.value.scalar.Int64?)
    && m.isHistorical.None? && m.isTransient.None? && m.metadata.None? && m.properties.None?
  }

  lemma PlainFields(m: Metric, strip: bool)
    requires Plain(m)
    ensures Total(MetricFields(m, strip)) <= 120
  {
    hide Weight, Total, Base.ValidUtf8;
    var name, value := OptBytes(1, m.name), ScalarF(10, m.value.scalar);
    var alias, ts := OptNum(2, m.alias), OptNum(3, m.timestamp);
    var code := if strip then [] else [VarintF(4, m.value.Type().Code())];
    assert MetricFields(m, strip) == name + alias + ts + code + [value];
    TotalAppend(name + alias + ts + code, [value]);
    TotalAppend(name + alias + ts, code);
    TotalAppend(name + alias, ts);
    TotalAppend(name, alias);
    TotalOne(VarintF(4, m.value.Type().Code()));
    TotalOne(value);
    TotalNone();
    OptTotal(2, m.alias);
    OptTotal(3, m.timestamp);
    PlainWeights(m);
  }

  lemma TotalNone()
    ensures Total([]) == 0
  {
  }

  lemma PlainWeights(m: Metric)
    requires Plain(m)
    ensures Total(OptBytes(1, m.name)) <= 40
    ensures Weight(VarintF(4, m.value.Type().Code())) == 20 && Weight(ScalarF(10, m.value.scalar)) == 20
  {
    hide Base.ValidUtf8;
    if m.name.Some? { TotalOne(LenF(1, m.name.value)); }
  }

  lemma OptTotal(num: u32, v: Option<u64>)
    ensures Total(OptNum(num, v)) <= 20
  {
    if v.Some? { TotalOne(VarintF(num, v.value)); }
  }

  lemma PlainSize(m: Metric, strip: bool)
    requires Plain(m)
    ensures |EncodeMetric(m, strip)| <= 120
  {
    hide Total, Encode.MetricFields, Wire.Ser;
    PlainFields(m, strip);
    SerTotal(MetricFields(m, strip));
  }

  /** A payload of at most ten such metrics. */
  lemma PlainPayload(p: Payload, strip: bool)
    requires |p.metrics| <= 10 && (forall m <- p.metrics :: Plain(m)) && p.uuid.None? && p.body.None?
    ensures |EncodePayload(p, strip)| <= 2000
  {
    hide Total, Wire.Ser, Encode.EncodeMetric, Plain;
    var ts, ms, no := OptNum(1, p.timestamp), MetricList(p.metrics, strip), OptNum(3, Widen(p.seqNo));
    assert PayloadFields(p, strip) == ts + ms + no;
    TotalAppend(ts + ms, no);
    TotalAppend(ts, ms);
    OptTotal(1, p.timestamp);
    OptTotal(3, Widen(p.seqNo));
    ListTotal(p.metrics, strip);
    SerTotal(PayloadFields(p, strip));
  }

  lemma {:induction false} ListTotal(ms: seq<Metric>, strip: bool)
    requires forall m <- ms :: Plain(m)
    ensures Total(MetricList(ms, strip)) <= 140 * |ms|
    decreases |ms|
  {
    hide Encode.EncodeMetric, Plain;
    if ms != [] {
      assert ms[0] in ms && forall m <- ms[1..] :: m in ms;
      PlainSize(ms[0], strip);
      ListTotal(ms[1..], strip);
      var first, rest := LenF(2, EncodeMetric(ms[0], strip)), MetricList(ms[1..], strip);
      assert ([first] + rest)[1..] == rest;
    }
  }
}
