/**
 The null flag of a metric and of a property value in arbitrary bytes: false is as good as absent, any other number
 is true, and the last one decides (src/codec/decode.rs:93-121, src/codec/decode.rs:279-346).
 */
module NullFlags {
  import opened Base
  import opened Wire
  import opened Fields
  import opened Alias
  import opened Scalars
  import opened Decode
  import opened RoundTrip
  import opened Reading
  import opened Meaning

  // ---- Lookups over two parts ----

  lemma {:induction false} LastAppend(a: seq<Field>, b: seq<Field>, n: nat)
    ensures LastVarint(a + b, n) == Later(LastVarint(a, n), LastVarint(b, n))
    ensures LastLen(a + b, n) == Later(LastLen(a, n), LastLen(b, n))
    ensures LastI32(a + b, n) == Later(LastI32(a, n), LastI32(b, n))
    ensures LastI64(a + b, n) == Later(LastI64(a, n), LastI64(b, n))
    decreases |b|
  {
    if b == [] {
      Units(a);
    } else {
      assert Init(a + b) == a + Init(b);
      LastAppend(a, Init(b), n);
    }
  }

  lemma {:induction false} FaultAppend(types: Option<Registry>, depth: nat, acc: Acc, a: seq<Field>, b: seq<Field>)
    ensures FirstFault(types, depth, acc, a + b) ==
      if FirstFault(types, depth, acc, a).Some? then FirstFault(types, depth, acc, a)
      else FirstFault(types, depth, acc, b)
  {
    hide Fault;
    if a == [] {
      Units(b);
    } else {
      assert (a + b)[1..] == a[1..] + b;
      FaultAppend(types, depth, acc, a[1..], b);
    }
  }

  /** The two lists answer alike, but for varint number `k`, of which only whether the flag is up counts. */
  ghost predicate Agree(fs: seq<Field>, gs: seq<Field>, k: nat) {
    && (forall n :: n != k ==> LastVarint(fs, n) == LastVarint(gs, n))
    && (forall n :: LastLen(fs, n) == LastLen(gs, n))
    && (forall n :: LastI32(fs, n) == LastI32(gs, n))
    && (forall n :: LastI64(fs, n) == LastI64(gs, n))
    && (Flag(LastVarint(fs, k)) == Some(true) <==> Flag(LastVarint(gs, k)) == Some(true))
  }

  lemma SameSlots(base: nat, s: Slots, r: Slots, fs: seq<Field>, gs: seq<Field>, k: nat)
    requires SlotsAre(base, s, fs) && SlotsAre(base, r, gs) && Agree(fs, gs, k) && k < base
    ensures s == r
  {
    hide LastVarint, LastLen, LastI32, LastI64;
  }

  lemma SameMetric(types: Option<Registry>, depth: nat, a: bytes, b: bytes)
    requires Broken(types, depth, MetricAcc(RAW_METRIC), a) == Broken(types, depth, MetricAcc(RAW_METRIC), b)
    requires Agree(Tokens(a).fields, Tokens(b).fields, 7)
    ensures DecodeMetric(a, types, depth) == DecodeMetric(b, types, depth)
  {
    hide Decode.Run, Decode.Fold, Wire.Tokens, Broken, Decode.FinishMetric, SlotsAre, LastVarint, LastLen, Agree;
    hide Meaning.MetaDataAt, Meaning.SetAt;
    if depth <= MAX_DEPTH {
      var start, fs, gs := MetricAcc(RAW_METRIC), Tokens(a).fields, Tokens(b).fields;
      RunFails(types, depth, start, a);
      RunFails(types, depth, start, b);
      var x, y := Run(types, depth, start, a), Run(types, depth, start, b);
      if x.Ok? {
        MetricFolds(types, depth, fs);
        MetricFolds(types, depth, gs);
        SameSlots(10, x.value.metric.slots, y.value.metric.slots, fs, gs, 7);
        SameRaw(depth, x.value.metric, y.value.metric, fs, gs);
      }
    }
  }

  lemma SameRaw(depth: nat, x: RawMetric, y: RawMetric, fs: seq<Field>, gs: seq<Field>)
    requires HeadIs(depth, x, fs) && BodyIs(x, fs) && HeadIs(depth, y, gs) && BodyIs(y, gs)
    requires Agree(fs, gs, 7) && x.slots == y.slots
    ensures x == y
  {
    hide SlotsAre, LastVarint, LastLen, LastI32, LastI64, Meaning.MetaDataAt, Meaning.SetAt;
  }

  lemma SameProperty(depth: nat, a: bytes, b: bytes)
    requires Broken(None, depth, PropertyAcc(NO_PROPERTY), a) == Broken(None, depth, PropertyAcc(NO_PROPERTY), b)
    requires Agree(Tokens(a).fields, Tokens(b).fields, 2)
    ensures DecodeProperty(a, depth) == DecodeProperty(b, depth)
  {
    hide Decode.Run, Decode.Fold, Wire.Tokens, Broken, Decode.FinishProperty, SlotsAre, LastVarint, LastLen;
    if depth <= MAX_DEPTH {
      var start, fs, gs := PropertyAcc(NO_PROPERTY), Tokens(a).fields, Tokens(b).fields;
      RunFails(None, depth, start, a);
      RunFails(None, depth, start, b);
      var x, y := Run(None, depth, start, a), Run(None, depth, start, b);
      if x.Ok? {
        PropertyFolds(depth, fs);
        PropertyFolds(depth, gs);
        SameSlots(3, x.value.property.slots, y.value.property.slots, fs, gs, 2);
      }
    }
  }

  // ---- One flag between two parts ----

  /** One field, in whatever encoding. */
  predicate Just(u: bytes, f: Field) { Tokens(u) == Parsed([f], None) }

  lemma Between(types: Option<Registry>, depth: nat, acc: Acc, a: bytes, u: bytes, c: bytes, f: Field)
    requires Tokens(a).error.None? && Just(u, f) && Fault(types, depth, acc, f).None?
    ensures Tokens(a + (u + c)).fields == Tokens(a).fields + ([f] + Tokens(c).fields)
    ensures Tokens(a + c).fields == Tokens(a).fields + Tokens(c).fields
    ensures Broken(types, depth, acc, a + (u + c)) == Broken(types, depth, acc, a + c)
  {
    hide Wire.Tokens, Fault;
    var fs, gs := Tokens(a).fields, Tokens(c).fields;
    TokensOfAppend(u, c);
    TokensOfAppend(a, u + c);
    TokensOfAppend(a, c);
    FaultAppend(types, depth, acc, fs, [f] + gs);
    FaultAppend(types, depth, acc, fs, gs);
    FaultAppend(types, depth, acc, [f], gs);
    assert [f][1..] == [];
  }

  lemma FlagAt(fs: seq<Field>, gs: seq<Field>, k: u32, v: u64, n: nat)
    ensures var all := fs + ([VarintF(k, v)] + gs);
      && LastVarint(all, n) ==
           Later(LastVarint(fs, n), Later(if n == k then Some(v) else None, LastVarint(gs, n)))
      && LastLen(all, n) == LastLen(fs + gs, n)
      && LastI32(all, n) == LastI32(fs + gs, n) && LastI64(all, n) == LastI64(fs + gs, n)
    ensures LastVarint(fs + gs, n) == Later(LastVarint(fs, n), LastVarint(gs, n))
  {
    hide LastVarint, LastLen, LastI32, LastI64;
    LastAppend(fs, gs, n);
    LastAppend(fs, [VarintF(k, v)] + gs, n);
    LastAppend([VarintF(k, v)], gs, n);
    LastOne(k, v, n);
  }

  lemma LastOne(k: u32, v: u64, n: nat)
    ensures LastVarint([VarintF(k, v)], n) == if n == k then Some(v) else None
    ensures LastLen([VarintF(k, v)], n) == None && LastI32([VarintF(k, v)], n) == None
    ensures LastI64([VarintF(k, v)], n) == None
  {
    assert Init([VarintF(k, v)]) == [];
  }

  /** The flag may be left out: it is down with no other about, or a later one overrides it. */
  lemma FlagIdle(fs: seq<Field>, gs: seq<Field>, k: u32, v: u64)
    requires (v == 0 && LastVarint(fs, k).None?) || LastVarint(gs, k).Some?
    ensures Agree(fs + ([VarintF(k, v)] + gs), fs + gs, k)
  {
    hide LastVarint, LastLen, LastI32, LastI64;
    var all := fs + ([VarintF(k, v)] + gs);
    forall n: nat
      ensures n != k ==> LastVarint(all, n) == LastVarint(fs + gs, n)
      ensures LastLen(all, n) == LastLen(fs + gs, n)
      ensures LastI32(all, n) == LastI32(fs + gs, n) && LastI64(all, n) == LastI64(fs + gs, n)
    {
      FlagAt(fs, gs, k, v, n);
    }
    FlagAt(fs, gs, k, v, k);
  }

  /** Any two flags that are up are the same. */
  lemma FlagUp(fs: seq<Field>, gs: seq<Field>, k: u32, v: u64, w: u64)
    requires v != 0 && w != 0
    ensures Agree(fs + ([VarintF(k, v)] + gs), fs + ([VarintF(k, w)] + gs), k)
  {
    hide LastVarint, LastLen, LastI32, LastI64;
    var all, other := fs + ([VarintF(k, v)] + gs), fs + ([VarintF(k, w)] + gs);
    forall n: nat
      ensures n != k ==> LastVarint(all, n) == LastVarint(other, n)
      ensures LastLen(all, n) == LastLen(other, n)
      ensures LastI32(all, n) == LastI32(other, n) && LastI64(all, n) == LastI64(other, n)
    {
      FlagAt(fs, gs, k, v, n);
      FlagAt(fs, gs, k, w, n);
    }
    FlagAt(fs, gs, k, v, k);
    FlagAt(fs, gs, k, w, k);
  }

  /**
   A metric's null flag (field 7), in any encoding and anywhere in the buffer: zero with no flag before or after it
   reads as if it were absent, so does any flag that a later one follows, and any number but zero reads as one does.
   */
  lemma MetricNullFlag(types: Option<Registry>, depth: nat, a: bytes, u: bytes, c: bytes, v: u64)
    requires Tokens(a).error.None? && Just(u, VarintF(7, v))
    ensures v == 0 && LastVarint(Tokens(a).fields, 7).None? && LastVarint(Tokens(c).fields, 7).None? ==>
      DecodeMetric(a + (u + c), types, depth) == DecodeMetric(a + c, types, depth)
    ensures LastVarint(Tokens(c).fields, 7).Some? ==>
      DecodeMetric(a + (u + c), types, depth) == DecodeMetric(a + c, types, depth)
    ensures v != 0 ==>
      DecodeMetric(a + (u + c), types, depth) == DecodeMetric(a + ([0x38, 0x01] + c), types, depth)
  {
    hide Wire.Tokens, LastVarint, Decode.DecodeMetric, Broken, Agree, Fault;
    var fs, gs, acc := Tokens(a).fields, Tokens(c).fields, MetricAcc(RAW_METRIC);
    NoFault(types, depth, acc, VarintF(7, v));
    NoFault(types, depth, acc, VarintF(7, 1));
    Between(types, depth, acc, a, u, c, VarintF(7, v));
    if (v == 0 && LastVarint(fs, 7).None?) || LastVarint(gs, 7).Some? {
      FlagIdle(fs, gs, 7, v);
      SameMetric(types, depth, a + (u + c), a + c);
    }
    if v != 0 {
      FlagBytes();
      Between(types, depth, acc, a, [0x38, 0x01], c, VarintF(7, 1));
      FlagUp(fs, gs, 7, v, 1);
      SameMetric(types, depth, a + (u + c), a + ([0x38, 0x01] + c));
    }
  }

  lemma NoFault(types: Option<Registry>, depth: nat, acc: Acc, f: Field)
    requires f.VarintF? && ((acc.MetricAcc? && f.num == 7) || (acc.PropertyAcc? && f.num == 2))
    ensures Fault(types, depth, acc, f).None?
  {
  }

  /** The two flags as written. */
  lemma FlagBytes()
    ensures Just([0x38, 0x01], VarintF(7, 1)) && Just([0x10, 0x01], VarintF(2, 1))
  {
    Flagged(0x38, 7);
    Flagged(0x10, 2);
  }

  lemma Flagged(tag: byte, k: u32)
    requires tag == 8 * k && tag < 0x80
    ensures Just([tag, 0x01], VarintF(k, 1))
  {
    var b: bytes := [tag, 0x01];
    assert b[1..] == [0x01];
    assert Groups(b, 0) == Ok((tag as nat, 1)) && Groups(b[1..], 0) == Ok((1, 1));
    assert ReadField(b) == Ok((VarintF(k, 1), 2));
    assert b[2..] == [];
  }

  /** The same for a property value's null flag (field 2). */
  lemma PropertyNullFlag(depth: nat, a: bytes, u: bytes, c: bytes, v: u64)
    requires Tokens(a).error.None? && Just(u, VarintF(2, v))
    ensures v == 0 && LastVarint(Tokens(a).fields, 2).None? && LastVarint(Tokens(c).fields, 2).None? ==>
      DecodeProperty(a + (u + c), depth) == DecodeProperty(a + c, depth)
    ensures LastVarint(Tokens(c).fields, 2).Some? ==>
      DecodeProperty(a + (u + c), depth) == DecodeProperty(a + c, depth)
    ensures v != 0 ==> DecodeProperty(a + (u + c), depth) == DecodeProperty(a + ([0x10, 0x01] + c), depth)
  {
    hide Wire.Tokens, LastVarint, Decode.DecodeProperty, Broken, Agree, Fault;
    var fs, gs, acc := Tokens(a).fields, Tokens(c).fields, PropertyAcc(NO_PROPERTY);
    NoFault(None, depth, acc, VarintF(2, v));
    NoFault(None, depth, acc, VarintF(2, 1));
    Between(None, depth, acc, a, u, c, VarintF(2, v));
    if (v == 0 && LastVarint(fs, 2).None?) || LastVarint(gs, 2).Some? {
      FlagIdle(fs, gs, 2, v);
      SameProperty(depth, a + (u + c), a + c);
    }
    if v != 0 {
      FlagBytes();
      Between(None, depth, acc, a, [0x10, 0x01], c, VarintF(2, 1));
      FlagUp(fs, gs, 2, v, 1);
      SameProperty(depth, a + (u + c), a + ([0x10, 0x01] + c));
    }
  }
}
