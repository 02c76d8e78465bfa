/**
 Protobuf wire format as values (src/codec/wire.rs): varints, fields, and the split of a
 buffer into fields. The writer and the reader over buffers are in WireIO.
 */
module Wire {
  import opened Base

  // ---- Base 128 varints ----

  function Pow128(k: nat): (p: nat)
    ensures p > 0
  {
    if k == 0 then 1 else 128 * Pow128(k - 1)
  }

  lemma Pow128Ten()
    ensures Pow128(10) >= TWO64
  {
    assert Pow128(3) == 0x20_0000;
    assert Pow128(5) == 128 * 128 * Pow128(3) == 0x8_0000_0000;
    assert Pow128(7) == 128 * 128 * Pow128(5);
    assert Pow128(9) == 128 * 128 * Pow128(7);
  }

  /** The bytes of `v`: seven bits each, lowest first, the top bit set on all but the last. */
  function Varint(v: nat): (b: bytes)
    ensures |b| > 0
  {
    if v < 128 then [v] else [v % 128 + 128] + Varint(v / 128)
  }

  /**
   The groups of a varint from group `i` on: the sum of the seven-bit groups weighted by powers
   of 128, and the number of bytes read. An eleventh byte overflows before it is read.
   */
  function Groups(b: bytes, i: nat): (r: Result<(nat, nat)>)
    ensures r.Ok? ==> 1 <= r.value.1 <= |b| && i + r.value.1 <= 10
  {
    if i >= 10 then Err(VarintOverflow)
    else if b == [] then Err(Truncated)
    else if b[0] < 128 then Ok((b[0], 1))
    else
      match Groups(b[1..], i + 1)
      case Ok((sum, n)) => Ok((b[0] % 128 + 128 * sum, n + 1))
      case Err(e) => Err(e)
  }

  /** The value of the varint at the head of `b`, modulo 2^64, and its length. */
  function ReadVarint(b: bytes): (r: Result<(u64, nat)>)
    ensures r.Ok? ==> 1 <= r.value.1 <= |b| && r.value.1 <= 10
  {
    match Groups(b, 0)
    case Ok((sum, n)) => Ok((sum % TWO64, n))
    case Err(e) => Err(e)
  }

  lemma {:induction false} GroupsOfVarint(v: nat, i: nat, rest: bytes)
    requires i < 10 && v < Pow128(10 - i)
    ensures Groups(Varint(v) + rest, i) == Ok((v, |Varint(v)|))
  {
    var b := Varint(v) + rest;
    if v >= 128 {
      assert Pow128(10 - i) == 128 * Pow128(9 - i);
      assert Pow128(0) == 1;
      GroupsOfVarint(v / 128, i + 1, rest);
      assert b[1..] == Varint(v / 128) + rest;
    }
  }

  /** Every 64-bit value is read back from its varint, whatever follows, in at most ten bytes. */
  lemma VarintRoundTrip(v: u64, rest: bytes)
    ensures ReadVarint(Varint(v) + rest) == Ok((v, |Varint(v)|))
    ensures 1 <= |Varint(v)| <= 10
  {
    Pow128Ten();
    GroupsOfVarint(v, 0, rest);
  }

  /** The seven-bit groups of `b`, group `i` at weight 128^i. */
  function Weighted(b: bytes): nat {
    if b == [] then 0 else Weighted(b[..|b| - 1]) + (b[|b| - 1] % 128) * Pow128(|b| - 1)
  }

  lemma {:induction false} WeightedCons(x: byte, c: bytes)
    ensures Weighted([x] + c) == x % 128 + 128 * Weighted(c)
    decreases |c|
  {
    var b := [x] + c;
    if c == [] {
      assert b[..0] == [] && Pow128(0) == 1;
    } else {
      var d := c[..|c| - 1];
      assert b[..|b| - 1] == [x] + d && b[|b| - 1] == c[|c| - 1];
      WeightedCons(x, d);
      Scaled(c[|c| - 1] % 128, Pow128(|c| - 1));
    }
  }

  lemma Scaled(g: nat, p: nat)
    ensures g * (128 * p) == 128 * (g * p)
  {
  }

  lemma {:induction false} GroupsMean(b: bytes, i: nat)
    requires Groups(b, i).Ok?
    ensures var (sum, n) := Groups(b, i).value;
      && sum == Weighted(b[..n]) && b[n - 1] < 128
      && forall k :: 0 <= k < n - 1 ==> b[k] >= 128
    decreases |b|
  {
    var n := Groups(b, i).value.1;
    if b[0] < 128 {
      assert b[..1] == [b[0]] + [];
      WeightedCons(b[0], []);
    } else {
      GroupsMean(b[1..], i + 1);
      assert b[..n] == [b[0]] + b[1..][..n - 1];
      WeightedCons(b[0], b[1..][..n - 1]);
      forall k | 0 <= k < n - 1 ensures b[k] >= 128 {
        if k > 0 { assert b[k] == b[1..][k - 1]; }
      }
    }
  }

  /**
   Arbitrary bytes: a successful read takes the bytes up to the first without a top bit, at most ten, and
   gives the sum of their seven-bit groups at weights 128^i, modulo 2^64.
   */
  lemma VarintMeaning(b: bytes)
    requires ReadVarint(b).Ok?
    ensures var (v, n) := ReadVarint(b).value;
      && 1 <= n <= 10 && v == Weighted(b[..n]) % TWO64
      && b[n - 1] < 128 && forall k :: 0 <= k < n - 1 ==> b[k] >= 128
  {
    GroupsMean(b, 0);
  }

  // ---- Fields ----

  const WIRE_VARINT: nat := 0
  const WIRE_I64: nat := 1
  const WIRE_LEN: nat := 2
  const WIRE_I32: nat := 5

  /** One field: its number and the value its wire type announces. */
  datatype Field =
    | VarintF(num: u32, v: u64)
    | I64F(num: u32, bits: u64)
    | LenF(num: u32, body: bytes)
    | I32F(num: u32, word: u32)
  {
    function WireType(): nat {
      match this
      case VarintF(_, _) => WIRE_VARINT
      case I64F(_, _) => WIRE_I64
      case LenF(_, _) => WIRE_LEN
      case I32F(_, _) => WIRE_I32
    }

    /** A length prefix is 64 bits wide. */
    predicate Fits() { LenF? ==> |body| < TWO64 }
  }

  function SerValue(f: Field): bytes {
    match f
    case VarintF(_, v) => Varint(v)
    case I64F(_, v) => LeBytes(v, 8)
    case LenF(_, body) => Varint(|body| % TWO64) + body
    case I32F(_, v) => LeBytes(v, 4)
  }

  function SerField(f: Field): (b: bytes)
    ensures |b| > 0
  {
    Varint(f.num * 8 + f.WireType()) + SerValue(f)
  }

  function Ser(fs: seq<Field>): bytes {
    if fs == [] then [] else SerField(fs[0]) + Ser(fs[1..])
  }

  function ReadTag(b: bytes): (r: Result<((u32, nat), nat)>)
    ensures r.Ok? ==> 1 <= r.value.1 <= |b| && r.value.0.1 < 8
  {
    match ReadVarint(b)
    case Err(e) => Err(e)
    case Ok((key, n)) =>
      if key / 8 >= TWO32 then Err(InvalidWireType(0)) else Ok(((key / 8, key % 8), n))
  }

  function ReadFixed(b: bytes, w: nat): (r: Result<(nat, nat)>)
    ensures r.Ok? ==> r.value.1 == w <= |b| && r.value.0 < Pow256(w)
  {
    if |b| < w then Err(Truncated) else Ok((FromLe(b[..w]), w))
  }

  function ReadLen(b: bytes): (r: Result<(bytes, nat)>)
    ensures r.Ok? ==> 1 <= r.value.1 <= |b| && |r.value.0| < r.value.1 && |r.value.0| < TWO64
  {
    match ReadVarint(b)
    case Err(e) => Err(e)
    case Ok((len, n)) =>
      if n + len > |b| then Err(Truncated) else Ok((b[n..n + len], n + len))
  }

  function ReadValue(num: u32, wire: nat, b: bytes): (r: Result<(Field, nat)>)
    ensures r.Ok? ==> r.value.1 <= |b| && r.value.0.Fits() && r.value.0.num == num
  {
    if wire == WIRE_VARINT then
      match ReadVarint(b)
      case Ok((v, n)) => Ok((VarintF(num, v), n))
      case Err(e) => Err(e)
    else if wire == WIRE_I64 then
      Pow256Values();
      match ReadFixed(b, 8)
      case Ok((v, n)) => Ok((I64F(num, v), n))
      case Err(e) => Err(e)
    else if wire == WIRE_LEN then
      match ReadLen(b)
      case Ok((body, n)) => Ok((LenF(num, body), n))
      case Err(e) => Err(e)
    else if wire == WIRE_I32 then
      Pow256Values();
      match ReadFixed(b, 4)
      case Ok((v, n)) => Ok((I32F(num, v), n))
      case Err(e) => Err(e)
    else
      Err(InvalidWireType(wire))
  }

  /** A tag and the value its wire type announces, at the head of `b`. */
  function ReadField(b: bytes): (r: Result<(Field, nat)>)
    ensures r.Ok? ==> 1 <= r.value.1 <= |b| && r.value.0.Fits()
  {
    match ReadTag(b)
    case Err(e) => Err(e)
    case Ok(((num, wire), n)) =>
      match ReadValue(num, wire, b[n..])
      case Ok((f, m)) => Ok((f, n + m))
      case Err(e) => Err(e)
  }

  lemma FixedRoundTrip(v: nat, w: nat, rest: bytes)
    requires v < Pow256(w)
    ensures ReadFixed(LeBytes(v, w) + rest, w) == Ok((v, w))
  {
    FromLeInverts(v, w);
    assert (LeBytes(v, w) + rest)[..w] == LeBytes(v, w);
  }

  lemma LenRoundTrip(body: bytes, rest: bytes)
    requires |body| < TWO64
    ensures ReadLen(Varint(|body|) + body + rest) == Ok((body, |Varint(|body|) + body|))
  {
    var b := Varint(|body|) + (body + rest);
    VarintRoundTrip(|body|, body + rest);
    assert Varint(|body|) + body + rest == b;
    assert b[|Varint(|body|)|..|Varint(|body|)| + |body|] == body;
  }

  lemma ValueRoundTrip(f: Field, rest: bytes)
    requires f.Fits()
    ensures ReadValue(f.num, f.WireType(), SerValue(f) + rest) == Ok((f, |SerValue(f)|))
  {
    hide ReadVarint, ReadFixed, ReadLen, Varint, LeBytes;
    match f
    case VarintF(_, v) => VarintRoundTrip(v, rest);
    case I64F(_, v) => Pow256Values(); FixedRoundTrip(v, 8, rest);
    case LenF(_, body) => LenRoundTrip(body, rest);
    case I32F(_, v) => Pow256Values(); FixedRoundTrip(v, 4, rest);
  }

  lemma TagRoundTrip(num: u32, wire: nat, rest: bytes)
    requires wire < 8
    ensures ReadTag(Varint(num * 8 + wire) + rest) == Ok(((num, wire), |Varint(num * 8 + wire)|))
  {
    hide ReadVarint, Varint;
    KeyParts(num, wire);
    VarintRoundTrip(num * 8 + wire, rest);
  }

  lemma KeyParts(num: nat, wire: nat)
    requires wire < 8
    ensures (num * 8 + wire) / 8 == num && (num * 8 + wire) % 8 == wire
  {
  }

  lemma TagThenValue(f: Field, tag: bytes, value: bytes, rest: bytes)
    requires ReadTag(tag + (value + rest)) == Ok(((f.num, f.WireType()), |tag|))
    requires ReadValue(f.num, f.WireType(), value + rest) == Ok((f, |value|))
    ensures ReadField(tag + value + rest) == Ok((f, |tag + value|))
  {
    hide ReadTag, ReadValue;
    assert tag + value + rest == tag + (value + rest);
    assert (tag + (value + rest))[|tag|..] == value + rest;
  }

  /** Every field is read back from its bytes, whatever follows. */
  lemma FieldRoundTrip(f: Field, rest: bytes)
    requires f.Fits()
    ensures ReadField(SerField(f) + rest) == Ok((f, |SerField(f)|))
  {
    TagRoundTrip(f.num, f.WireType(), SerValue(f) + rest);
    ValueRoundTrip(f, rest);
    TagThenValue(f, Varint(f.num * 8 + f.WireType()), SerValue(f), rest);
  }

  // ---- Buffers as lists of fields ----

  /** The fields read before the end of the buffer or before the first malformed one. */
  datatype Parsed = Parsed(fields: seq<Field>, error: Option<Error>)

  function Tokens(b: bytes): (p: Parsed)
    decreases |b|
  {
    if b == [] then Parsed([], None)
    else
      match ReadField(b)
      case Err(e) => Parsed([], Some(e))
      case Ok((f, n)) =>
        var rest := Tokens(b[n..]);
        Parsed([f] + rest.fields, rest.error)
  }

  /** One step of the split. */
  lemma TokensStep(f: Field, head: bytes, rest: bytes)
    requires head != [] && ReadField(head + rest) == Ok((f, |head|))
    ensures Tokens(head + rest) == Parsed([f] + Tokens(rest).fields, Tokens(rest).error)
  {
    assert (head + rest)[|head|..] == rest;
  }

  /** Splitting a serialized field list gives the list back, and goes on with what follows. */
  lemma {:induction false} TokensOfSer(fs: seq<Field>, rest: bytes)
    requires forall f <- fs :: f.Fits()
    ensures Tokens(Ser(fs) + rest) == Parsed(fs + Tokens(rest).fields, Tokens(rest).error)
  {
    if fs == [] {
      Units(rest);
      Units(Tokens(rest).fields);
    } else {
      var head, tail := SerField(fs[0]), Ser(fs[1..]);
      TokensOfSer(fs[1..], rest);
      FieldRoundTrip(fs[0], tail + rest);
      TokensStep(fs[0], head, tail + rest);
      Assoc(head, tail, rest);
      Assoc([fs[0]], fs[1..], Tokens(rest).fields);
      HeadTail(fs);
    }
  }

  /** A buffer that splits without error can be prepended to any other. */
  lemma {:induction false} TokensOfAppend(a: bytes, b: bytes)
    requires Tokens(a).error == None
    ensures Tokens(a + b) == Parsed(Tokens(a).fields + Tokens(b).fields, Tokens(b).error)
    decreases |a|
  {
    if a == [] {
      Units(b);
      Units(Tokens(b).fields);
    } else {
      var (f, n) := ReadField(a).value;
      TokensOfAppend(a[n..], b);
      ReadFieldAppend(a, b);
      Cut(a, n);
      Assoc(a[..n], a[n..], b);
      TokensStep(f, a[..n], a[n..] + b);
      Assoc([f], Tokens(a[n..]).fields, Tokens(b).fields);
    }
  }

  lemma {:induction false} GroupsAppend(a: bytes, b: bytes, i: nat)
    requires Groups(a, i).Ok?
    ensures Groups(a + b, i) == Groups(a, i)
  {
    if a[0] >= 128 {
      GroupsAppend(a[1..], b, i + 1);
      assert (a + b)[1..] == a[1..] + b;
    }
  }

  lemma ReadValueAppend(num: u32, wire: nat, a: bytes, b: bytes)
    requires ReadValue(num, wire, a).Ok?
    ensures ReadValue(num, wire, a + b) == ReadValue(num, wire, a)
  {
    if wire == WIRE_VARINT {
      GroupsAppend(a, b, 0);
    } else if wire == WIRE_LEN {
      GroupsAppend(a, b, 0);
      var (len, k) := ReadVarint(a).value;
      assert (a + b)[k..k + len] == a[k..k + len];
    } else {
      var w := if wire == WIRE_I64 then 8 else 4;
      assert (a + b)[..w] == a[..w];
    }
  }

  lemma ReadFieldAppend(a: bytes, b: bytes)
    requires ReadField(a).Ok?
    ensures ReadField(a + b) == ReadField(a)
  {
    GroupsAppend(a, b, 0);
    var ((num, wire), n) := ReadTag(a).value;
    assert (a + b)[n..] == a[n..] + b;
    ReadValueAppend(num, wire, a[n..], b);
  }

  lemma {:induction false} SerAppend(a: seq<Field>, b: seq<Field>)
    ensures Ser(a + b) == Ser(a) + Ser(b)
  {
    if a == [] {
      Units(b);
      Units(Ser(b));
    } else {
      assert (a + b)[1..] == a[1..] + b;
      SerAppend(a[1..], b);
      Assoc(SerField(a[0]), Ser(a[1..]), Ser(b));
    }
  }

  /** Nested bodies are no longer than the buffer that holds them. */
  lemma {:induction false} BodyWithin(fs: seq<Field>, f: Field)
    requires f in fs && f.LenF?
    ensures |f.body| <= |Ser(fs)|
  {
    if f != fs[0] { BodyWithin(fs[1..], f); }
  }

  lemma AllFit(fs: seq<Field>)
    requires |Ser(fs)| < TWO64
    ensures forall f <- fs :: f.Fits()
  {
    forall f | f in fs ensures f.Fits() {
      if f.LenF? { BodyWithin(fs, f); }
    }
  }
}
