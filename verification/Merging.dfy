/**
 Concatenated and extended encodings: "Last One Wins" of the Protocol Buffers encoding guide,
 and fields the schema does not know.
 */
module Merging {
  import opened Base
  import opened Wire
  import opened Model
  import opened Alias
  import opened Decode
  import opened RoundTripParts

  // ---- Last one wins ----

  /** Metrics of both; every other field from `q` when it has it, else from `p`. */
  function Merge(p: Payload, q: Payload): Payload {
    Payload(Later(p.timestamp, q.timestamp), p.metrics + q.metrics, Later(p.seqNo, q.seqNo), Later(p.uuid, q.uuid),
            Later(p.body, q.body))
  }

  function Merged(p: Payload, r: Result<Acc>): Result<Acc> {
    match r
    case Ok(PayloadAcc(q)) => Ok(PayloadAcc(Merge(p, q)))
    case _ => r
  }

  lemma MergeStep(types: Option<Registry>, p: Payload, q: Payload, f: Field)
    ensures Step(types, 0, PayloadAcc(Merge(p, q)), f) == Merged(p, Step(types, 0, PayloadAcc(q), f))
  {
    hide Decode.DecodeMetric;
    if f.LenF? && f.num == 2 && DecodeMetric(f.body, types, 0).Ok? {
      Assoc(p.metrics, q.metrics, [DecodeMetric(f.body, types, 0).value]);
    }
  }

  lemma {:induction false} MergeFold(types: Option<Registry>, p: Payload, q: Payload, fs: seq<Field>)
    ensures Fold(types, 0, PayloadAcc(Merge(p, q)), fs) == Merged(p, Fold(types, 0, PayloadAcc(q), fs))
    decreases |fs|
  {
    hide Decode.Step, Merge;
    if fs != [] {
      MergeStep(types, p, q, fs[0]);
      match Step(types, 0, PayloadAcc(q), fs[0])
      case Err(_) =>
      case Ok(PayloadAcc(next)) => MergeFold(types, p, next, fs[1..]);
    }
  }

  /** When `a` decodes, `a + b` decodes to the two payloads merged, or fails as `b` fails. */
  lemma LastOneWins(a: bytes, b: bytes, types: Option<Registry>)
    requires DecodePayload(a, types).Ok?
    ensures DecodePayload(a + b, types) ==
            if DecodePayload(b, types).Ok? then Ok(Merge(DecodePayload(a, types).value, DecodePayload(b, types).value))
            else DecodePayload(b, types)
  {
    hide Decode.Fold, Wire.Tokens;
    var p := DecodePayload(a, types).value;
    TokensOfAppend(a, b);
    FoldAppend(types, 0, PayloadAcc(NO_PAYLOAD), Tokens(a).fields, Tokens(b).fields);
    Units(p.metrics);
    assert Merge(p, NO_PAYLOAD) == p;
    MergeFold(types, p, NO_PAYLOAD, Tokens(b).fields);
  }

  // ---- Fields the schema does not know ----

  /** The fields the loop over `acc` reads, by number and wire type. */
  predicate Known(acc: Acc, f: Field) {
    match acc
    case PayloadAcc(_) => if f.LenF? then f.num in {2, 4, 5} else f.VarintF? && f.num in {1, 3}
    case MetricAcc(_) =>
      match f {
        case LenF(n, _) => n in {1, 8, 9} || 15 <= n <= 18
        case VarintF(n, _) => 2 <= n <= 7 || n in {10, 11, 14}
        case I32F(n, _) => n == 12
        case I64F(n, _) => n == 13
      }
    case TemplateAcc(_) => if f.LenF? then 1 <= f.num <= 4 else f.VarintF? && f.num == 5
    case SetAcc(_, _) => f.LenF? && f.num in {1, 2}
    case ListAcc(_) => f.LenF? && f.num == 1
    case PropertyAcc(_) =>
      match f {
        case LenF(n, _) => 8 <= n <= 10
        case VarintF(n, _) => 1 <= n <= 4 || n == 7
        case I32F(n, _) => n == 5
        case I64F(n, _) => n == 6
      }
    case MetaAcc(_) => if f.LenF? then f.num == 2 || 5 <= f.num <= 8 else f.VarintF? && f.num in {1, 3, 4}
    case DataSetAcc(_, _, _) => if f.LenF? then 2 <= f.num <= 4 else f.VarintF? && f.num == 3
    case RowAcc(_, _) => f.LenF? && f.num == 1
    case CellAcc(_) =>
      match f {
        case LenF(n, _) => n == 6
        case VarintF(n, _) => n in {1, 2, 5}
        case I32F(n, _) => n == 3
        case I64F(n, _) => n == 4
      }
    case ParameterAcc(_) =>
      match f {
        case LenF(n, _) => n in {1, 8}
        case VarintF(n, _) => 2 <= n <= 4 || n == 7
        case I32F(n, _) => n == 5
        case I64F(n, _) => n == 6
      }
  }

  lemma UnknownStep(types: Option<Registry>, depth: nat, acc: Acc, f: Field)
    requires depth <= MAX_DEPTH && !Known(acc, f)
    ensures Step(types, depth, acc, f) == Ok(acc)
  {
    hide Decode.DecodeMetric, Decode.DecodeSet, Decode.DecodeProperty, Decode.DecodeParameter;
    hide Decode.DecodeMetaData, Decode.DecodeCell;
  }

  lemma KnownByKind(a: Acc, b: Acc, f: Field)
    requires a.Kind() == b.Kind()
    ensures Known(a, f) == Known(b, f)
  {
  }

  lemma {:induction false} UnknownsSkipped(types: Option<Registry>, depth: nat, acc: Acc, us: seq<Field>,
                                           gs: seq<Field>)
    requires depth <= MAX_DEPTH && forall f <- us :: !Known(acc, f)
    ensures Fold(types, depth, acc, us + gs) == Fold(types, depth, acc, gs)
    decreases |us|
  {
    hide Decode.Step, Decode.Fold, Known;
    if us == [] {
      Units(gs);
    } else {
      assert us[0] in us && forall f <- us[1..] :: f in us;
      HeadTail(us);
      Assoc([us[0]], us[1..], gs);
      UnknownStep(types, depth, acc, us[0]);
      FoldCons(types, depth, acc, us[0], us[1..] + gs);
      UnknownsSkipped(types, depth, acc, us[1..], gs);
    }
  }

  /**
   Any bytes that are whole fields unknown to a loop, in whatever encoding of tags, lengths and varints the
   reader accepts, put between two fields of its buffer change nothing: not the result, nor the error. This
   holds for every loop, so at every level of nesting.
   */
  lemma UnknownFieldsSkipped(types: Option<Registry>, depth: nat, acc: Acc, a: bytes, u: bytes, c: bytes)
    requires depth <= MAX_DEPTH && Tokens(a).error == None
    requires Tokens(u).error == None && forall f <- Tokens(u).fields :: !Known(acc, f)
    ensures Run(types, depth, acc, a + (u + c)) == Run(types, depth, acc, a + c)
  {
    hide Decode.Step, Decode.Fold, Known, Wire.Tokens;
    var fs, us, gs := Tokens(a).fields, Tokens(u).fields, Tokens(c).fields;
    TokensOfAppend(a, c);
    TokensOfAppend(u, c);
    TokensOfAppend(a, u + c);
    FoldAppend(types, depth, acc, fs, gs);
    FoldAppend(types, depth, acc, fs, us + gs);
    var mid := Fold(types, depth, acc, fs);
    if mid.Ok? {
      forall f | f in us ensures !Known(mid.value, f) { KnownByKind(acc, mid.value, f); }
      UnknownsSkipped(types, depth, mid.value, us, gs);
    }
  }

  /** In particular one such field in its canonical encoding. */
  lemma UnknownFieldSkipped(types: Option<Registry>, depth: nat, acc: Acc, a: bytes, f: Field, c: bytes)
    requires depth <= MAX_DEPTH && Tokens(a).error == None && f.Fits() && !Known(acc, f)
    ensures Run(types, depth, acc, a + (SerField(f) + c)) == Run(types, depth, acc, a + c)
  {
    hide Decode.Run, Known, Wire.SerField, Wire.Tokens;
    FieldTokens(f);
    UnknownFieldsSkipped(types, depth, acc, a, SerField(f), c);
  }

  lemma FieldTokens(f: Field)
    requires f.Fits()
    ensures Tokens(SerField(f)) == Parsed([f], None)
  {
    FieldRoundTrip(f, []);
    TokensStep(f, SerField(f), []);
    Units(SerField(f));
  }
}
