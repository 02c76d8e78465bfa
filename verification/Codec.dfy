/** Laws of the codec as a whole (src/codec/mod.rs): what encode and decode promise each other. */
module Codec {
  import opened Base
  import opened Wire
  import opened Model
  import opened Alias
  import opened Arrays
  import opened Encode
  import opened Decode
  import opened RoundTripParts
  import opened RoundTrip
  import opened Sound

  /** No metric nests deeper than the decoder follows. */
  predicate WithinDepth(ms: seq<Metric>) {
    forall m <- ms :: NeedMetric(m) <= MAX_DEPTH
  }

  predicate TypedPayload(p: Payload, strip: bool, types: Option<Registry>) {
    strip ==> forall m <- p.metrics :: Recoverable(m, types)
  }

  // ---- Payload round trip ----

  function PayloadOutcome(within: bool, p: Payload): Result<Acc> {
    if within then Ok(PayloadAcc(p)) else Err(RecursionLimit)
  }

  lemma PayloadMetricStep(types: Option<Registry>, p: Payload, body: bytes, m: Metric)
    requires DecodeMetric(body, types, 0) == Bounded(NeedMetric(m), m)
    ensures Step(types, 0, PayloadAcc(p), LenF(2, body)) ==
      PayloadOutcome(NeedMetric(m) <= MAX_DEPTH, p.(metrics := p.metrics + [m]))
  {
  }

  lemma {:induction false} PayloadMetricsFold(types: Option<Registry>, p: Payload, ms: seq<Metric>, strip: bool)
    requires TypedAll(ms, strip, types) && |Ser(MetricList(ms, strip))| < TWO64
    ensures Fold(types, 0, PayloadAcc(p), MetricList(ms, strip)) ==
      PayloadOutcome(WithinDepth(ms), p.(metrics := p.metrics + ms))
    decreases |ms|
  {
    hide Decode.Step, Decode.DecodeMetric, Encode.EncodeMetric, Model.WfMetric, Model.NeedMetric;
    if ms == [] {
      Units(p.metrics);
    } else {
      var body, rest := EncodeMetric(ms[0], strip), MetricList(ms[1..], strip);
      SerOfCons(LenF(2, body), rest);
      MetricBack(ms[0], strip, types, 0);
      PayloadMetricStep(types, p, body, ms[0]);
      FoldCons(types, 0, PayloadAcc(p), LenF(2, body), rest);
      PayloadMetricsFold(types, p.(metrics := p.metrics + [ms[0]]), ms[1..], strip);
      Assoc(p.metrics, [ms[0]], ms[1..]);
      HeadTail(ms);
      assert WithinDepth(ms) <==> NeedMetric(ms[0]) <= MAX_DEPTH && WithinDepth(ms[1..]);
    }
  }

  lemma PayloadTail(types: Option<Registry>, p: Payload, a: seq<Field>, mid: Payload)
    requires p == mid.(seqNo := p.seqNo, uuid := p.uuid, body := p.body)
    requires mid.seqNo == None && mid.uuid == None && mid.body == None
    requires Fold(types, 0, PayloadAcc(NO_PAYLOAD), a) == Ok(PayloadAcc(mid))
    ensures Fold(types, 0, PayloadAcc(NO_PAYLOAD),
                 a + OptNum(3, Widen(p.seqNo)) + OptBytes(4, p.uuid) + OptBytes(5, p.body))
            == Ok(PayloadAcc(p))
  {
    hide Decode.Fold, Decode.DecodeMetric;
    var d := PayloadAcc(NO_PAYLOAD);
    var p3 := mid.(seqNo := p.seqNo);
    Extend(types, 0, d, a, OptNum(3, Widen(p.seqNo)), PayloadAcc(mid), PayloadAcc(p3));
    var a3 := a + OptNum(3, Widen(p.seqNo));
    var p4 := p3.(uuid := p.uuid);
    Extend(types, 0, d, a3, OptBytes(4, p.uuid), PayloadAcc(p3), PayloadAcc(p4));
    Extend(types, 0, d, a3 + OptBytes(4, p.uuid), OptBytes(5, p.body), PayloadAcc(p4), PayloadAcc(p));
  }

  lemma PayloadSizes(p: Payload, strip: bool)
    requires |EncodePayload(p, strip)| < TWO64
    ensures |Ser(MetricList(p.metrics, strip))| < TWO64
  {
    hide Wire.Ser;
    var a, b, c := OptNum(1, p.timestamp), MetricList(p.metrics, strip), OptNum(3, Widen(p.seqNo));
    SerAppend(a + b + c + OptBytes(4, p.uuid), OptBytes(5, p.body));
    SerAppend(a + b + c, OptBytes(4, p.uuid));
    SerAppend(a + b, c);
    SerAppend(a, b);
  }

  lemma PayloadFold(p: Payload, strip: bool, types: Option<Registry>)
    requires TypedAll(p.metrics, strip, types) && |EncodePayload(p, strip)| < TWO64
    ensures Fold(types, 0, PayloadAcc(NO_PAYLOAD), PayloadFields(p, strip)) == PayloadOutcome(WithinDepth(p.metrics), p)
  {
    hide Decode.Fold, Encode.MetricList, WithinDepth, Decode.DecodeMetric, TypedAll, Wire.Ser;
    var d := PayloadAcc(NO_PAYLOAD);
    var a, b, c := OptNum(1, p.timestamp), MetricList(p.metrics, strip), OptNum(3, Widen(p.seqNo));
    var p1 := NO_PAYLOAD.(timestamp := p.timestamp);
    Units(a);
    Units(p.metrics);
    EmptyFold(types, 0, d);
    Extend(types, 0, d, [], a, d, PayloadAcc(p1));
    PayloadSizes(p, strip);
    PayloadMetricsFold(types, p1, p.metrics, strip);
    FoldAppend(types, 0, d, a, b);
    if WithinDepth(p.metrics) {
      PayloadTail(types, p, a + b, p1.(metrics := p.metrics));
    } else {
      FoldAppend(types, 0, d, a + b, c);
      FoldAppend(types, 0, d, a + b + c, OptBytes(4, p.uuid));
      FoldAppend(types, 0, d, a + b + c + OptBytes(4, p.uuid), OptBytes(5, p.body));
    }
  }

  /**
   A well-formed payload whose datatypes are on the wire or recoverable decodes to itself within
   the depth limit, and to the recursion error beyond it.
   */
  lemma DecodeOfEncode(p: Payload, strip: bool, types: Option<Registry>)
    requires WfPayload(p) && TypedPayload(p, strip, types) && |EncodePayload(p, strip)| < TWO64
    ensures DecodePayload(EncodePayload(p, strip), types) ==
      if WithinDepth(p.metrics) then Ok(p) else Err(RecursionLimit)
  {
    hide Decode.Fold, Encode.PayloadFields, WithinDepth, Model.WfMetric, Recoverable;
    RunOfSer(types, 0, PayloadAcc(NO_PAYLOAD), PayloadFields(p, strip));
    PayloadFold(p, strip, types);
  }

  /**
   With datatypes on the wire: decoding what was encoded gives the payload back exactly when it
   is well-formed and within the depth limit; well-formed but deeper fails with the recursion error.
   */
  lemma BirthRoundTrip(p: Payload, types: Option<Registry>)
    requires |EncodePayload(p, false)| < TWO64
    ensures DecodePayload(EncodePayload(p, false), types) == Ok(p) <==> WfPayload(p) && WithinDepth(p.metrics)
    ensures WfPayload(p) && !WithinDepth(p.metrics) ==>
      DecodePayload(EncodePayload(p, false), types) == Err(RecursionLimit)
  {
    hide Decode.DecodePayload, Encode.EncodePayload;
    if DecodePayload(EncodePayload(p, false), types) == Ok(p) { DecodedPayloadFits(EncodePayload(p, false), types); }
    if WfPayload(p) { DecodeOfEncode(p, false, types); }
  }

  /**
   Arbitrary bytes that decode, under any registry: encoding the result and decoding again
   without a registry changes nothing.
   */
  lemma DecodingNormalises(b: bytes, types: Option<Registry>)
    requires DecodePayload(b, types).Ok? && |EncodePayload(DecodePayload(b, types).value, false)| < TWO64
    ensures DecodePayload(EncodePayload(DecodePayload(b, types).value, false), None) == DecodePayload(b, types)
  {
    hide Decode.DecodePayload, Encode.EncodePayload;
    DecodedPayloadFits(b, types);
    BirthRoundTrip(DecodePayload(b, types).value, None);
  }
}
