/** Decoding what was encoded: property sets, metrics, templates and payloads. */
module RoundTrip {
  import opened Base
  import opened Wire
  import opened Model
  import opened Arrays
  import opened Alias
  import opened Scalars
  import opened Encode
  import opened Decode
  import opened RoundTripParts
  import D = DataTypes

  /** The value, if the deepest level it needs is within the limit. */
  function Bounded<T>(level: nat, v: T): Result<T> {
    if level <= MAX_DEPTH then Ok(v) else Err(RecursionLimit)
  }

  // ---- Property sets ----

  function Keys(es: seq<Entry>): (ks: seq<Str>)
    ensures |ks| == |es|
  {
    if es == [] then [] else [es[0].key] + Keys(es[1..])
  }

  function Values(es: seq<Entry>): (vs: seq<PropertyValue>)
    ensures |vs| == |es|
  {
    if es == [] then [] else [es[0].value] + Values(es[1..])
  }

  lemma {:induction false} ZipOfParts(es: seq<Entry>)
    ensures Zip(Keys(es), Values(es)) == es
  {
    if es != [] {
      ZipOfParts(es[1..]);
      assert Keys(es)[1..] == Keys(es[1..]) && Values(es)[1..] == Values(es[1..]);
      HeadTail(es);
    }
  }

  lemma {:induction false} KeysFold(depth: nat, keys: seq<Str>, values: seq<PropertyValue>, es: seq<Entry>)
    requires depth <= MAX_DEPTH
    ensures Fold(None, depth, SetAcc(keys, values), KeyList(es)) == Ok(SetAcc(keys + Keys(es), values))
    decreases |es|
  {
    if es == [] {
      Units(keys);
    } else {
      FoldCons(None, depth, SetAcc(keys, values), LenF(1, es[0].key), KeyList(es[1..]));
      KeysFold(depth, keys + [es[0].key], values, es[1..]);
      Assoc(keys, [es[0].key], Keys(es[1..]));
    }
  }

  /** The outcome of decoding values `vs` after `values`, when the deepest level is `level`. */
  function SetOutcome(level: nat, keys: seq<Str>, values: seq<PropertyValue>): Result<Acc> {
    if level <= MAX_DEPTH then Ok(SetAcc(keys, values)) else Err(RecursionLimit)
  }

  lemma SetValueStep(depth: nat, keys: seq<Str>, values: seq<PropertyValue>, body: bytes, v: PropertyValue, level: nat)
    requires depth <= MAX_DEPTH && DecodeProperty(body, depth + 1) == Bounded(level, v)
    ensures Step(None, depth, SetAcc(keys, values), LenF(2, body)) == SetOutcome(level, keys, values + [v])
  {
  }

  lemma {:induction false} ValuesFold(depth: nat, keys: seq<Str>, values: seq<PropertyValue>, es: seq<Entry>)
    requires depth <= MAX_DEPTH && |Ser(ValueList(es))| < TWO64
    ensures Fold(None, depth, SetAcc(keys, values), ValueList(es))
            == SetOutcome(depth + NeedEntries(es), keys, values + Values(es))
    decreases es, 0
  {
    hide Decode.Step, Decode.DecodeProperty, Encode.EncodeProperty;
    if es == [] {
      Units(values);
    } else {
      var v, rest := es[0].value, ValueList(es[1..]);
      var body := EncodeProperty(v);
      SerOfCons(LenF(2, body), rest);
      PropertyBack(v, depth + 1);
      SetValueStep(depth, keys, values, body, v, depth + 1 + NeedProperty(v));
      ValuesFold(depth, keys, values + [v], es[1..]);
      Assoc(values, [v], Values(es[1..]));
      SetNext(depth, keys, values, v, body, rest, depth + 1 + NeedProperty(v), depth + NeedEntries(es[1..]),
              Values(es[1..]));
    }
  }

  lemma SetNext(depth: nat, keys: seq<Str>, values: seq<PropertyValue>, v: PropertyValue, body: bytes, rest: seq<Field>,
                level: nat, restLevel: nat, vs: seq<PropertyValue>)
    requires depth <= MAX_DEPTH
    requires Step(None, depth, SetAcc(keys, values), LenF(2, body)) == SetOutcome(level, keys, values + [v])
    requires Fold(None, depth, SetAcc(keys, values + [v]), rest) == SetOutcome(restLevel, keys, values + [v] + vs)
    ensures Fold(None, depth, SetAcc(keys, values), [LenF(2, body)] + rest)
            == SetOutcome(Max(level, restLevel), keys, values + [v] + vs)
  {
    FoldCons(None, depth, SetAcc(keys, values), LenF(2, body), rest);
  }

  lemma SetFold(ps: PropertySet, depth: nat)
    requires depth <= MAX_DEPTH
    requires Fold(None, depth, SetAcc(Keys(ps.entries), []), ValueList(ps.entries))
             == SetOutcome(depth + NeedSet(ps), Keys(ps.entries), [] + Values(ps.entries))
    ensures Fold(None, depth, SetAcc([], []), SetFields(ps))
            == SetOutcome(depth + NeedSet(ps), Keys(ps.entries), Values(ps.entries))
  {
    var es := ps.entries;
    FoldAppend(None, depth, SetAcc([], []), KeyList(es), ValueList(es));
    KeysFold(depth, [], [], es);
    Units(Keys(es));
    Units(Values(es));
  }

  lemma SetRun(ps: PropertySet, depth: nat, b: bytes)
    requires depth <= MAX_DEPTH
    requires Run(None, depth, SetAcc([], []), b) ==
      SetOutcome(depth + NeedSet(ps), Keys(ps.entries), Values(ps.entries))
    ensures DecodeSet(b, depth) == Bounded(depth + NeedSet(ps), ps)
  {
    ZipOfParts(ps.entries);
  }

  lemma {:induction false} SetBack(ps: PropertySet, depth: nat)
    requires |EncodeSet(ps)| < TWO64
    ensures DecodeSet(EncodeSet(ps), depth) == Bounded(depth + NeedSet(ps), ps)
    decreases ps, 2
  {
    if depth <= MAX_DEPTH {
      SerAppend(KeyList(ps.entries), ValueList(ps.entries));
      ValuesFold(depth, Keys(ps.entries), [], ps.entries);
      SetFold(ps, depth);
      RunOfSer(None, depth, SetAcc([], []), SetFields(ps));
      SetRun(ps, depth, EncodeSet(ps));
    }
  }

  function ListOutcome(level: nat, sets: seq<PropertySet>): Result<Acc> {
    if level <= MAX_DEPTH then Ok(ListAcc(sets)) else Err(RecursionLimit)
  }

  lemma ListSetStep(depth: nat, done: seq<PropertySet>, body: bytes, ps: PropertySet, level: nat)
    requires depth <= MAX_DEPTH && DecodeSet(body, depth + 1) == Bounded(level, ps)
    ensures Step(None, depth, ListAcc(done), LenF(1, body)) == ListOutcome(level, done + [ps])
  {
  }

  lemma {:induction false} SetsFold(depth: nat, done: seq<PropertySet>, sets: seq<PropertySet>)
    requires depth <= MAX_DEPTH && |Ser(SetList(sets))| < TWO64
    ensures Fold(None, depth, ListAcc(done), SetList(sets)) == ListOutcome(depth + NeedSets(sets), done + sets)
    decreases sets, 3
  {
    hide Decode.Step, Decode.DecodeSet, Encode.EncodeSet;
    if sets == [] {
      Units(done);
    } else {
      var body, rest := EncodeSet(sets[0]), SetList(sets[1..]);
      SerOfCons(LenF(1, body), rest);
      SetBack(sets[0], depth + 1);
      ListSetStep(depth, done, body, sets[0], depth + 1 + NeedSet(sets[0]));
      FoldCons(None, depth, ListAcc(done), LenF(1, body), rest);
      SetsFold(depth, done + [sets[0]], sets[1..]);
      Assoc(done, [sets[0]], sets[1..]);
      HeadTail(sets);
    }
  }

  lemma ListBack(l: PropertySetList, depth: nat)
    requires |Ser(SetList(l.sets))| < TWO64
    ensures DecodeList(Ser(SetList(l.sets)), depth) == Bounded(depth + NeedSets(l.sets), l)
    decreases l, 4
  {
    hide Decode.Fold, Encode.SetList, Model.NeedSets;
    if depth <= MAX_DEPTH {
      RunOfSer(None, depth, ListAcc([]), SetList(l.sets));
      SetsFold(depth, [], l.sets);
      Units(l.sets);
    }
  }

  const NO_PROPERTY: RawProperty := RawProperty(None, false, NO_SLOTS, None, None)

  function PropertyRaw(v: PropertyValue): RawProperty {
    var raw := NO_PROPERTY.(typeCode := Some(v.Type().Code()));
    match v
    case NullV(_) => raw.(isNull := true)
    case Plain(s) => raw.(slots := SlotsOf(s))
    case SetV(ps) => raw.(setV := Some(EncodeSet(ps)))
    case ListV(l) => raw.(listV := Some(Ser(SetList(l.sets))))
  }

  lemma PropertyFold(v: PropertyValue, depth: nat)
    requires depth <= MAX_DEPTH
    ensures Fold(None, depth, PropertyAcc(NO_PROPERTY), PropertyFields(v)) == Ok(PropertyAcc(PropertyRaw(v)))
  {
    var raw := NO_PROPERTY.(typeCode := Some(v.Type().Code()));
    var a1 := [VarintF(1, v.Type().Code())];
    Units(a1);
    Extend(None, depth, PropertyAcc(NO_PROPERTY), [], a1, PropertyAcc(NO_PROPERTY), PropertyAcc(raw));
    if v.Plain? { ScalarSlots(3, v.scalar); }
    Extend(None, depth, PropertyAcc(NO_PROPERTY), a1, [PropertyField(v)], PropertyAcc(raw),
           PropertyAcc(PropertyRaw(v)));
  }

  lemma PropertyCode(v: PropertyValue)
    ensures PropertyRaw(v).typeCode == Some(v.Type().Code())
  {
    hide Encode.EncodeSet, Encode.SetList, PropertyValue.Type;
  }

  lemma {:induction false} PropertyBack(v: PropertyValue, depth: nat)
    requires |EncodeProperty(v)| < TWO64
    ensures DecodeProperty(EncodeProperty(v), depth) == Bounded(depth + NeedProperty(v), v)
    decreases v, 5
  {
    hide Decode.Fold, PropertyRaw, Decode.PropertyValueOf, Model.NeedProperty, Encode.PropertyFields;
    hide PropertyValue.Type;
    if depth <= MAX_DEPTH {
      PropertyCode(v);
      RunOfSer(None, depth, PropertyAcc(NO_PROPERTY), PropertyFields(v));
      PropertyFold(v, depth);
      D.CodeRoundTrip(v.Type());
      PropertyFinish(v, depth);
    }
  }

  lemma SetValueOf(depth: nat, raw: RawProperty, body: bytes, ps: PropertySet, level: nat)
    requires depth <= MAX_DEPTH && raw.setV == Some(body) && !raw.isNull
    requires DecodeSet(body, depth + 1) == Bounded(level, ps)
    ensures PropertyValueOf(depth, D.PropertySet, raw) == Bounded(level, SetV(ps))
  {
  }

  lemma ListValueOf(depth: nat, raw: RawProperty, body: bytes, l: PropertySetList, level: nat)
    requires depth <= MAX_DEPTH && raw.listV == Some(body) && !raw.isNull
    requires DecodeList(body, depth + 1) == Bounded(level, l)
    ensures PropertyValueOf(depth, D.PropertySetList, raw) == Bounded(level, ListV(l))
  {
  }

  lemma PlainValueOf(depth: nat, s: Scalar, raw: RawProperty)
    requires depth <= MAX_DEPTH && raw.slots == SlotsOf(s) && !raw.isNull
    ensures PropertyValueOf(depth, s.Type(), raw) == Ok(Plain(s))
  {
    ScalarBuilt(s);
  }

  lemma NullValueOf(depth: nat, dt: DataType, raw: RawProperty)
    requires depth <= MAX_DEPTH && raw.isNull
    ensures PropertyValueOf(depth, dt, raw) == Ok(NullV(dt))
  {
  }

  lemma {:induction false} PropertyFinish(v: PropertyValue, depth: nat)
    requires |EncodeProperty(v)| < TWO64 && depth <= MAX_DEPTH
    ensures PropertyValueOf(depth, v.Type(), PropertyRaw(v)) == Bounded(depth + NeedProperty(v), v)
    decreases v, 4
  {
    hide Decode.DecodeSet, Decode.DecodeList, Decode.PropertyValueOf, Encode.EncodeSet;
    BodyWithinValue(v);
    match v
    case NullV(dt) => NullValueOf(depth, dt, PropertyRaw(v));
    case Plain(s) => PlainValueOf(depth, s, PropertyRaw(v));
    case SetV(ps) =>
      SetBack(ps, depth + 1);
      SetValueOf(depth, PropertyRaw(v), EncodeSet(ps), ps, depth + 1 + NeedSet(ps));
    case ListV(l) =>
      ListBack(l, depth + 1);
      ListValueOf(depth, PropertyRaw(v), Ser(SetList(l.sets)), l, depth + 1 + NeedSets(l.sets));
  }

  lemma BodyWithinValue(v: PropertyValue)
    ensures PropertyField(v).LenF? ==> |PropertyField(v).body| <= |EncodeProperty(v)|
  {
    if PropertyField(v).LenF? { BodyWithin(PropertyFields(v), PropertyField(v)); }
  }

  // ---- Metrics and templates ----

  /**
   With datatypes on the wire nothing more is needed; without them the registry must recover the
   datatype of the metric and, inside a template, of every member.
   */
  predicate Typed(m: Metric, strip: bool, types: Option<Registry>) {
    strip ==> Recoverable(m, types)
  }

  predicate Recoverable(m: Metric, types: Option<Registry>) {
    && Recover(types, m.name, m.alias) == Some(m.value.Type())
    && (m.value.TemplateV? ==> forall k <- m.value.template.metrics :: Recoverable(k, types))
  }

  function RawHead(m: Metric, strip: bool): RawMetric {
    RAW_METRIC.(
      name := m.name, alias := m.alias, timestamp := m.timestamp,
      typeCode := if strip then None else Some(m.value.Type().Code()),
      isHistorical := m.isHistorical, isTransient := m.isTransient, isNull := m.value.Null?)
  }

  lemma HeadHalf(m: Metric, strip: bool, types: Option<Registry>, depth: nat)
    requires depth <= MAX_DEPTH
    ensures Fold(types, depth, MetricAcc(RAW_METRIC),
              OptBytes(1, m.name) + OptNum(2, m.alias) + OptNum(3, m.timestamp)
              + (if strip then [] else [VarintF(4, m.value.Type().Code())]))
            == Ok(MetricAcc(RAW_METRIC.(name := m.name, alias := m.alias, timestamp := m.timestamp,
                  typeCode := if strip then None else Some(m.value.Type().Code()))))
  {
    hide Decode.DecodeSet, Decode.DecodeMetaData;
    var d := MetricAcc(RAW_METRIC);
    var a1, r1 := OptBytes(1, m.name), RAW_METRIC.(name := m.name);
    Units(a1);
    Extend(types, depth, d, [], a1, d, MetricAcc(r1));
    var a2, r2 := a1 + OptNum(2, m.alias), r1.(alias := m.alias);
    Extend(types, depth, d, a1, OptNum(2, m.alias), MetricAcc(r1), MetricAcc(r2));
    var a3, r3 := a2 + OptNum(3, m.timestamp), r2.(timestamp := m.timestamp);
    Extend(types, depth, d, a2, OptNum(3, m.timestamp), MetricAcc(r2), MetricAcc(r3));
    var code := if strip then [] else [VarintF(4, m.value.Type().Code())];
    Extend(types, depth, d, a3, code, MetricAcc(r3),
           MetricAcc(r3.(typeCode := if strip then None else Some(m.value.Type().Code()))));
  }

  lemma HeadRest(m: Metric, strip: bool, types: Option<Registry>, depth: nat, a: seq<Field>, raw: RawMetric)
    requires depth <= MAX_DEPTH
    requires raw.isHistorical == None && raw.isTransient == None && !raw.isNull
    requires Fold(types, depth, MetricAcc(RAW_METRIC), a) == Ok(MetricAcc(raw))
    ensures Fold(types, depth, MetricAcc(RAW_METRIC),
              a + OptBool(5, m.isHistorical) + OptBool(6, m.isTransient)
                + (if m.value.Null? then [BoolF(7, true)] else []))
            == Ok(MetricAcc(raw.(isHistorical := m.isHistorical, isTransient := m.isTransient,
                                 isNull := m.value.Null?)))
  {
    hide Decode.DecodeSet, Decode.DecodeMetaData;
    var d := MetricAcc(RAW_METRIC);
    var r5 := raw.(isHistorical := m.isHistorical);
    Extend(types, depth, d, a, OptBool(5, m.isHistorical), MetricAcc(raw), MetricAcc(r5));
    var a5 := a + OptBool(5, m.isHistorical);
    var r6 := r5.(isTransient := m.isTransient);
    Extend(types, depth, d, a5, OptBool(6, m.isTransient), MetricAcc(r5), MetricAcc(r6));
    Extend(types, depth, d, a5 + OptBool(6, m.isTransient), if m.value.Null? then [BoolF(7, true)] else [],
           MetricAcc(r6), MetricAcc(r6.(isNull := m.value.Null?)));
  }

  lemma HeadFold(m: Metric, strip: bool, types: Option<Registry>, depth: nat)
    requires depth <= MAX_DEPTH
    ensures Fold(types, depth, MetricAcc(RAW_METRIC), MetricHead(m, strip)) == Ok(MetricAcc(RawHead(m, strip)))
  {
    hide Decode.Fold;
    HeadHalf(m, strip, types, depth);
    HeadRest(m, strip, types, depth,
      OptBytes(1, m.name) + OptNum(2, m.alias) + OptNum(3, m.timestamp)
        + (if strip then [] else [VarintF(4, m.value.Type().Code())]),
      RAW_METRIC.(name := m.name, alias := m.alias, timestamp := m.timestamp,
                  typeCode := if strip then None else Some(m.value.Type().Code())));
  }

  /** The variables after the value field. */
  function WithValue(raw: RawMetric, v: MetricValue, strip: bool): RawMetric {
    match v
    case Basic(s) => raw.(slots := SlotsOf(s))
    case Uuid(s) => raw.(slots := NO_SLOTS.(stringV := Some(s)))
    case Bytes(b) => raw.(bytesV := Some(b))
    case File(b) => raw.(bytesV := Some(b))
    case Array(a) => raw.(bytesV := Some(Pack(a)))
    case DataSetV(d) => raw.(datasetV := Some(Ser(DataSetFields(d))))
    case TemplateV(t) => raw.(templateV := Some(EncodeTemplate(t, strip)))
    case Null(_) => raw
  }

  lemma ValueFold(raw: RawMetric, v: MetricValue, strip: bool, types: Option<Registry>, depth: nat)
    requires depth <= MAX_DEPTH && raw.slots == NO_SLOTS
    ensures Fold(types, depth, MetricAcc(raw), ValueFields(v, strip)) == Ok(MetricAcc(WithValue(raw, v, strip)))
  {
    hide Decode.DecodeSet, Decode.DecodeMetaData, Encode.EncodeTemplate, Encode.DataSetFields, Decode.Fold, Pack;
    if v.Basic? { ScalarSlots(10, v.scalar); }
    Units(ValueFields(v, strip));
    EmptyFold(types, depth, MetricAcc(raw));
    Extend(types, depth, MetricAcc(raw), [], ValueFields(v, strip), MetricAcc(raw),
           MetricAcc(WithValue(raw, v, strip)));
  }

  /** The deepest level the properties need. */
  function PropertiesLevel(m: Metric, depth: nat): nat {
    if m.properties.Some? then depth + 1 + NeedSet(m.properties.value) else depth
  }

  function RawFull(m: Metric, strip: bool): RawMetric {
    WithValue(RawHead(m, strip).(metadata := m.metadata, properties := m.properties), m.value, strip)
  }

  function MetricOutcome(level: nat, raw: RawMetric): Result<Acc> {
    if level <= MAX_DEPTH then Ok(MetricAcc(raw)) else Err(RecursionLimit)
  }

  lemma MetaStepBack(raw: RawMetric, md: MetaData, types: Option<Registry>, depth: nat)
    requires depth <= MAX_DEPTH && |Ser(MetaDataFields(md))| < TWO64
    ensures Step(types, depth, MetricAcc(raw), LenF(8, Ser(MetaDataFields(md)))) ==
      Ok(MetricAcc(raw.(metadata := Some(md))))
  {
    MetaDataBack(md);
  }

  lemma PropertiesStep(raw: RawMetric, ps: PropertySet, body: bytes, types: Option<Registry>, depth: nat, level: nat)
    requires depth <= MAX_DEPTH && DecodeSet(body, depth + 1) == Bounded(level, ps)
    ensures Step(types, depth, MetricAcc(raw), LenF(9, body)) == MetricOutcome(level, raw.(properties := Some(ps)))
  {
  }

  lemma OptFold(types: Option<Registry>, depth: nat, acc: Acc, f: Field)
    requires depth <= MAX_DEPTH
    ensures Fold(types, depth, acc, [f]) == Step(types, depth, acc, f)
  {
    FoldCons(types, depth, acc, f, []);
    Units([f]);
  }

  lemma MetaFold(m: Metric, raw: RawMetric, types: Option<Registry>, depth: nat)
    requires depth <= MAX_DEPTH && raw.metadata == None
    requires m.metadata.Some? ==> |Ser(MetaDataFields(m.metadata.value))| < TWO64
    ensures Fold(types, depth, MetricAcc(raw), OptBytes(8, EncodedMetaData(m.metadata))) ==
      Ok(MetricAcc(raw.(metadata := m.metadata)))
  {
    hide Decode.Step;
    if m.metadata.Some? {
      MetaStepBack(raw, m.metadata.value, types, depth);
      OptFold(types, depth, MetricAcc(raw), LenF(8, Ser(MetaDataFields(m.metadata.value))));
    }
  }

  lemma PropertiesFold(m: Metric, raw: RawMetric, types: Option<Registry>, depth: nat)
    requires depth <= MAX_DEPTH && raw.properties == None
    requires m.properties.Some? ==> |EncodeSet(m.properties.value)| < TWO64
    ensures Fold(types, depth, MetricAcc(raw), OptBytes(9, EncodedProperties(m.properties)))
            == MetricOutcome(PropertiesLevel(m, depth), raw.(properties := m.properties))
  {
    hide Decode.Step, Decode.DecodeSet, Encode.EncodeSet;
    if m.properties.Some? {
      var ps := m.properties.value;
      SetBack(ps, depth + 1);
      PropertiesStep(raw, ps, EncodeSet(ps), types, depth, depth + 1 + NeedSet(ps));
      OptFold(types, depth, MetricAcc(raw), LenF(9, EncodeSet(ps)));
    }
  }

  /** Every nested body of a metric is shorter than the limit when the metric is. */
  lemma MetricSizes(m: Metric, strip: bool)
    requires |EncodeMetric(m, strip)| < TWO64
    ensures m.metadata.Some? ==> |Ser(MetaDataFields(m.metadata.value))| < TWO64
    ensures m.properties.Some? ==> |EncodeSet(m.properties.value)| < TWO64
    ensures m.value.TemplateV? ==> |EncodeTemplate(m.value.template, strip)| < TWO64
    ensures m.value.DataSetV? ==> |Ser(DataSetFields(m.value.dataset))| < TWO64
  {
    hide Encode.EncodeSet, Encode.EncodeTemplate, Wire.Ser, Encode.MetricHead, Encode.MetaDataFields;
    hide Encode.DataSetFields;
    var fs := MetricFields(m, strip);
    var o8, o9 := OptBytes(8, EncodedMetaData(m.metadata)), OptBytes(9, EncodedProperties(m.properties));
    var ov := ValueFields(m.value, strip);
    assert fs == MetricHead(m, strip) + o8 + o9 + ov;
    assert forall f :: f in o8 || f in o9 || f in ov ==> f in fs;
    if o8 != [] { BodyWithin(fs, o8[0]); }
    if o9 != [] { BodyWithin(fs, o9[0]); }
    if ov != [] && ov[0].LenF? { BodyWithin(fs, ov[0]); }
  }

  lemma MetricFold(m: Metric, strip: bool, types: Option<Registry>, depth: nat)
    requires depth <= MAX_DEPTH && |EncodeMetric(m, strip)| < TWO64
    ensures Fold(types, depth, MetricAcc(RAW_METRIC), MetricFields(m, strip))
            == MetricOutcome(PropertiesLevel(m, depth), RawFull(m, strip))
  {
    hide Decode.Fold, Encode.MetricHead, Encode.ValueFields;
    MetricSizes(m, strip);
    var d, head := MetricAcc(RAW_METRIC), MetricHead(m, strip);
    var o8, o9 := OptBytes(8, EncodedMetaData(m.metadata)), OptBytes(9, EncodedProperties(m.properties));
    var r1 := RawHead(m, strip);
    var r8 := r1.(metadata := m.metadata);
    var r9 := r8.(properties := m.properties);
    HeadFold(m, strip, types, depth);
    FoldAppend(types, depth, d, head, o8);
    MetaFold(m, r1, types, depth);
    FoldAppend(types, depth, d, head + o8, o9);
    PropertiesFold(m, r8, types, depth);
    FoldAppend(types, depth, d, head + o8 + o9, ValueFields(m.value, strip));
    ValueFold(r9, m.value, strip, types, depth);
  }

  // ---- The value of a metric ----

  /** The deepest level the value needs. */
  function ValueLevel(v: MetricValue, depth: nat): nat {
    if v.TemplateV? then depth + 1 + NeedTemplate(v.template) else depth
  }

  lemma TemplateValueOf(types: Option<Registry>, depth: nat, raw: RawMetric, body: bytes, t: Template, level: nat)
    requires depth <= MAX_DEPTH && raw.templateV == Some(body) && !raw.isNull
    requires DecodeTemplate(body, types, depth + 1) == Bounded(level, t)
    ensures MetricValueOf(types, depth, D.Template, raw) == Bounded(level, TemplateV(t))
  {
  }

  lemma FlatValueOf(types: Option<Registry>, depth: nat, raw: RawMetric, v: MetricValue, strip: bool)
    requires depth <= MAX_DEPTH && !v.TemplateV? && raw.slots == NO_SLOTS && raw.isNull == v.Null?
    requires v.Array? ==> v.items.WellFormed()
    requires v.DataSetV? ==> v.dataset.WellFormed() && |Ser(DataSetFields(v.dataset))| < TWO64
    ensures MetricValueOf(types, depth, v.Type(), WithValue(raw, v, strip)) == Ok(v)
  {
    hide Decode.DecodeTemplate, Decode.DecodeDataSet, Encode.DataSetFields, Arrays.Pack, Arrays.Unpack;
    match v
    case Basic(s) => ScalarBuilt(s);
    case Array(a) => ArrayRoundTrip(a);
    case DataSetV(d) => DataSetBack(d);
    case _ =>
  }

  lemma MetricTypeBack(m: Metric, strip: bool, types: Option<Registry>)
    requires Typed(m, strip, types)
    ensures MetricType(types, RawFull(m, strip)) == Ok(m.value.Type())
  {
    D.CodeRoundTrip(m.value.Type());
  }

  lemma FinishBack(m: Metric, strip: bool, types: Option<Registry>, depth: nat)
    requires depth <= MAX_DEPTH && Typed(m, strip, types)
    requires MetricValueOf(types, depth, m.value.Type(), RawFull(m, strip)) ==
      Bounded(ValueLevel(m.value, depth), m.value)
    ensures FinishMetric(types, depth, RawFull(m, strip)) == Bounded(ValueLevel(m.value, depth), m)
  {
    hide Decode.MetricValueOf, Encode.EncodeTemplate;
    MetricTypeBack(m, strip, types);
  }

  lemma MetricRun(m: Metric, strip: bool, types: Option<Registry>, depth: nat, b: bytes)
    requires depth <= MAX_DEPTH
    requires Run(types, depth, MetricAcc(RAW_METRIC), b) == MetricOutcome(PropertiesLevel(m, depth), RawFull(m, strip))
    requires FinishMetric(types, depth, RawFull(m, strip)) == Bounded(ValueLevel(m.value, depth), m)
    ensures DecodeMetric(b, types, depth) == Bounded(depth + NeedMetric(m), m)
  {
    hide Decode.Run, Decode.FinishMetric, RawFull, Model.NeedSet, Model.NeedTemplate;
  }

  lemma {:induction false} MetricBack(m: Metric, strip: bool, types: Option<Registry>, depth: nat)
    requires WfMetric(m) && Typed(m, strip, types) && |EncodeMetric(m, strip)| < TWO64
    ensures DecodeMetric(EncodeMetric(m, strip), types, depth) == Bounded(depth + NeedMetric(m), m)
    decreases m, 1
  {
    hide Decode.Run, Decode.FinishMetric, RawFull, Wire.Ser, Encode.MetricFields, Model.NeedSet, Model.NeedTemplate;
    if depth <= MAX_DEPTH {
      RunOfSer(types, depth, MetricAcc(RAW_METRIC), MetricFields(m, strip));
      MetricFold(m, strip, types, depth);
      ValueBack(m, strip, types, depth);
      FinishBack(m, strip, types, depth);
      MetricRun(m, strip, types, depth, EncodeMetric(m, strip));
    }
  }

  lemma {:induction false} ValueBack(m: Metric, strip: bool, types: Option<Registry>, depth: nat)
    requires depth <= MAX_DEPTH && WfMetric(m) && Typed(m, strip, types) && |EncodeMetric(m, strip)| < TWO64
    ensures MetricValueOf(types, depth, m.value.Type(), RawFull(m, strip)) ==
      Bounded(ValueLevel(m.value, depth), m.value)
    decreases m, 0
  {
    hide Decode.MetricValueOf, Decode.DecodeTemplate, Encode.EncodeTemplate, Encode.EncodeMetric, Model.NeedTemplate;
    MetricSizes(m, strip);
    var raw := RawHead(m, strip).(metadata := m.metadata, properties := m.properties);
    if m.value.TemplateV? {
      var t := m.value.template;
      TemplateBack(t, strip, types, depth + 1);
      TemplateValueOf(types, depth, RawFull(m, strip), EncodeTemplate(t, strip), t, depth + 1 + NeedTemplate(t));
    } else {
      FlatValueOf(types, depth, raw, m.value, strip);
    }
  }

  function TemplateOutcome(level: nat, t: Template): Result<Acc> {
    if level <= MAX_DEPTH then Ok(TemplateAcc(t)) else Err(RecursionLimit)
  }

  lemma MemberStep(types: Option<Registry>, depth: nat, t: Template, body: bytes, m: Metric, level: nat)
    requires depth <= MAX_DEPTH && DecodeMetric(body, types, depth + 1) == Bounded(level, m)
    ensures Step(types, depth, TemplateAcc(t), LenF(2, body)) == TemplateOutcome(level, t.(metrics := t.metrics + [m]))
  {
  }

  predicate TypedAll(ms: seq<Metric>, strip: bool, types: Option<Registry>) {
    forall m <- ms :: WfMetric(m) && Typed(m, strip, types)
  }

  lemma {:induction false} MembersFold(types: Option<Registry>, depth: nat, t: Template, ms: seq<Metric>, strip: bool)
    requires depth <= MAX_DEPTH && TypedAll(ms, strip, types) && |Ser(MetricList(ms, strip))| < TWO64
    ensures Fold(types, depth, TemplateAcc(t), MetricList(ms, strip))
            == TemplateOutcome(depth + NeedMetrics(ms), t.(metrics := t.metrics + ms))
    decreases ms, 2
  {
    hide Decode.Step, Decode.DecodeMetric, Encode.EncodeMetric, Model.WfMetric, Model.NeedMetric;
    if ms == [] {
      Units(t.metrics);
    } else {
      var body, rest := EncodeMetric(ms[0], strip), MetricList(ms[1..], strip);
      SerOfCons(LenF(2, body), rest);
      MetricBack(ms[0], strip, types, depth + 1);
      MemberStep(types, depth, t, body, ms[0], depth + 1 + NeedMetric(ms[0]));
      FoldCons(types, depth, TemplateAcc(t), LenF(2, body), rest);
      MembersFold(types, depth, t.(metrics := t.metrics + [ms[0]]), ms[1..], strip);
      Assoc(t.metrics, [ms[0]], ms[1..]);
      HeadTail(ms);
    }
  }

  lemma ParameterStepBack(types: Option<Registry>, depth: nat, t: Template, p: Parameter)
    requires depth <= MAX_DEPTH && p.WellFormed() && |Ser(ParameterFields(p))| < TWO64
    ensures Step(types, depth, TemplateAcc(t), LenF(3, Ser(ParameterFields(p))))
            == Ok(TemplateAcc(t.(parameters := t.parameters + [p])))
  {
    ParameterBack(p);
  }

  lemma {:induction false} ParametersFold(types: Option<Registry>, depth: nat, t: Template, ps: seq<Parameter>)
    requires depth <= MAX_DEPTH && (forall p <- ps :: p.WellFormed()) && |Ser(ParameterList(ps))| < TWO64
    ensures Fold(types, depth, TemplateAcc(t), ParameterList(ps)) ==
      Ok(TemplateAcc(t.(parameters := t.parameters + ps)))
    decreases |ps|
  {
    hide Decode.Step, Encode.ParameterFields;
    if ps == [] {
      Units(t.parameters);
    } else {
      var body, rest := Ser(ParameterFields(ps[0])), ParameterList(ps[1..]);
      SerOfCons(LenF(3, body), rest);
      ParameterStepBack(types, depth, t, ps[0]);
      FoldCons(types, depth, TemplateAcc(t), LenF(3, body), rest);
      ParametersFold(types, depth, t.(parameters := t.parameters + [ps[0]]), ps[1..]);
      Assoc(t.parameters, [ps[0]], ps[1..]);
      HeadTail(ps);
    }
  }

  lemma TemplateSizes(t: Template, strip: bool)
    requires |EncodeTemplate(t, strip)| < TWO64
    ensures |Ser(MetricList(t.metrics, strip))| < TWO64 && |Ser(ParameterList(t.parameters))| < TWO64
  {
    hide Wire.Ser;
    var a, b, c := OptBytes(1, t.version), MetricList(t.metrics, strip), ParameterList(t.parameters);
    var e, f := OptBytes(4, t.templateRef), [BoolF(5, t.isDefinition)];
    SerAppend(a + b + c + e, f);
    SerAppend(a + b + c, e);
    SerAppend(a + b, c);
    SerAppend(a, b);
  }

  lemma TemplateFold(types: Option<Registry>, depth: nat, t: Template, strip: bool)
    requires depth <= MAX_DEPTH && (forall p <- t.parameters :: p.WellFormed())
    requires |Ser(ParameterList(t.parameters))| < TWO64
    requires Fold(types, depth, TemplateAcc(NO_TEMPLATE.(version := t.version)), MetricList(t.metrics, strip))
             == TemplateOutcome(depth + NeedTemplate(t), NO_TEMPLATE.(version := t.version, metrics := [] + t.metrics))
    ensures Fold(types, depth, TemplateAcc(NO_TEMPLATE), TemplateFields(t, strip)) ==
      TemplateOutcome(depth + NeedTemplate(t), t)
  {
    hide Decode.Fold, Encode.MetricList, Encode.ParameterList, Model.NeedTemplate, Decode.DecodeMetric;
    hide Decode.DecodeParameter, Decode.DecodeSet, Decode.DecodeProperty, Decode.DecodeMetaData, Decode.DecodeCell;
    var d := TemplateAcc(NO_TEMPLATE);
    var a, b, c := OptBytes(1, t.version), MetricList(t.metrics, strip), ParameterList(t.parameters);
    var e, f := OptBytes(4, t.templateRef), [BoolF(5, t.isDefinition)];
    var t1 := NO_TEMPLATE.(version := t.version);
    var t2 := t1.(metrics := t.metrics);
    var t3 := t2.(parameters := t.parameters);
    Units(a);
    Units(t.metrics);
    Units(t.parameters);
    EmptyFold(types, depth, d);
    Extend(types, depth, d, [], a, d, TemplateAcc(t1));
    FoldAppend(types, depth, d, a, b);
    FoldAppend(types, depth, d, a + b, c);
    ParametersFold(types, depth, t2, t.parameters);
    TemplateTail(types, depth, d, t3, t, a + b + c);
  }

  lemma EmptyFold(types: Option<Registry>, depth: nat, acc: Acc)
    requires depth <= MAX_DEPTH
    ensures Fold(types, depth, acc, []) == Ok(acc)
  {
  }

  lemma TemplateTail(types: Option<Registry>, depth: nat, d: Acc, t3: Template, t: Template, a: seq<Field>)
    requires depth <= MAX_DEPTH && t == t3.(templateRef := t.templateRef, isDefinition := t.isDefinition)
    requires t3.templateRef == None
    requires Fold(types, depth, d, a).Ok? ==> Fold(types, depth, d, a) == Ok(TemplateAcc(t3))
    ensures Fold(types, depth, d, a + OptBytes(4, t.templateRef) + [BoolF(5, t.isDefinition)])
            == if Fold(types, depth, d, a).Ok? then Ok(TemplateAcc(t)) else Fold(types, depth, d, a)
  {
    hide Decode.Fold, Decode.DecodeMetric, Decode.DecodeParameter;
    var e, f := OptBytes(4, t.templateRef), [BoolF(5, t.isDefinition)];
    if Fold(types, depth, d, a).Ok? {
      var t4 := t3.(templateRef := t.templateRef);
      Extend(types, depth, d, a, e, TemplateAcc(t3), TemplateAcc(t4));
      Extend(types, depth, d, a + e, f, TemplateAcc(t4), TemplateAcc(t));
    } else {
      FoldAppend(types, depth, d, a, e);
      FoldAppend(types, depth, d, a + e, f);
    }
  }

  lemma {:induction false} TemplateBack(t: Template, strip: bool, types: Option<Registry>, depth: nat)
    requires WfTemplate(t) && TypedAll(t.metrics, strip, types) && |EncodeTemplate(t, strip)| < TWO64
    ensures DecodeTemplate(EncodeTemplate(t, strip), types, depth) == Bounded(depth + NeedTemplate(t), t)
    decreases t, 3
  {
    hide Decode.Fold, Wire.Ser, Encode.TemplateFields;
    if depth <= MAX_DEPTH {
      TemplateSizes(t, strip);
      MembersFold(types, depth, NO_TEMPLATE.(version := t.version), t.metrics, strip);
      TemplateFold(types, depth, t, strip);
      RunOfSer(types, depth, TemplateAcc(NO_TEMPLATE), TemplateFields(t, strip));
    }
  }
}
