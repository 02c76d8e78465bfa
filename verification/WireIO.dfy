/** The growable writer and the positioned reader of src/codec/wire.rs. */
module WireIO {
  import opened Base
  import opened Wire

  // ---- Bit operations on unsigned words ----

  function Pow2(k: nat): (p: nat)
    ensures p > 0
  {
    if k == 0 then 1 else 2 * Pow2(k - 1)
  }

  /** Bitwise or. */
  function Or(a: nat, b: nat): nat {
    if a == 0 then b
    else if b == 0 then a
    else 2 * Or(a / 2, b / 2) + (if a % 2 == 1 || b % 2 == 1 then 1 else 0)
  }

  /** A 64-bit word shifted left: bits past the top are dropped. */
  function Shl64(x: nat, s: nat): u64 { x * Pow2(s) % TWO64 }

  /** Or-ing numbers with no bit in common adds them. */
  lemma {:induction false} OrIsSum(a: nat, b: nat, k: nat)
    requires a < Pow2(k)
    ensures Or(a, b * Pow2(k)) == a + b * Pow2(k)
  {
    if a > 0 && b > 0 {
      assert b * Pow2(k) == 2 * (b * Pow2(k - 1));
      OrIsSum(a / 2, b, k - 1);
    }
  }

  lemma {:induction false} Pow2Of7(i: nat)
    ensures Pow2(7 * i) == Pow128(i)
  {
    if i > 0 {
      Pow2Of7(i - 1);
      var k := 7 * (i - 1);
      assert Pow2(k + 2) == 4 * Pow2(k);
      assert Pow2(k + 4) == 4 * Pow2(k + 2);
      assert Pow2(k + 6) == 4 * Pow2(k + 4);
    }
  }

  const TWO63: nat := 0x8000_0000_0000_0000

  lemma Pow128Bound(i: nat)
    requires i <= 9
    ensures Pow128(9) == TWO63
    ensures i < 9 ==> Pow128(i + 1) <= TWO63
  {
    assert Pow128(3) == 0x20_0000;
    assert Pow128(6) == 128 * 128 * 128 * Pow128(3);
    assert Pow128(9) == 128 * 128 * 128 * Pow128(6);
    if i < 8 {
      Pow128Monotone(i + 1, 9);
    }
  }

  lemma {:induction false} Pow128Monotone(i: nat, j: nat)
    requires i <= j
    ensures Pow128(i) <= Pow128(j)
    decreases j - i
  {
    if i < j { Pow128Monotone(i + 1, j); }
  }

  /** A group whose weight keeps it below bit 63 is shifted without loss. */
  lemma LowGroup(partial: nat, group: nat, p: nat)
    requires partial < p && group < 128 && 128 * p <= TWO63
    ensures group * p % TWO64 == group * p
    ensures partial + group * p < 128 * p
    ensures (partial + group * p) % TWO64 == partial + group * p
  {
    WeightBound(group, p);
    Below(group * p);
    Below(partial + group * p);
  }

  lemma WeightBound(group: nat, p: nat)
    requires group < 128
    ensures group * p <= 127 * p
  {
  }

  lemma Below(x: nat)
    requires x < TWO64
    ensures x % TWO64 == x
  {
  }

  /** Of a group shifted by 63 only the lowest bit stays. */
  lemma HighGroup(partial: nat, group: nat)
    requires partial < TWO63 && group < 128
    ensures group * TWO63 % TWO64 == (group % 2) * TWO63
    ensures (partial + group * TWO63) % TWO64 == partial + (group % 2) * TWO63
  {
  }

  /** Shifting a seven-bit group into place and or-ing it in adds it at its weight modulo 2^64. */
  lemma GroupStep(partial: nat, group: nat, i: nat)
    requires i <= 9 && partial < Pow128(i) && group < 128
    ensures Or(partial, Shl64(group, 7 * i)) == (partial + group * Pow128(i)) % TWO64
    ensures i < 9 ==> Or(partial, Shl64(group, 7 * i)) == partial + group * Pow128(i) < Pow128(i + 1)
  {
    Pow2Of7(i);
    Pow128Bound(i);
    if i < 9 {
      LowGroup(partial, group, Pow128(i));
      OrIsSum(partial, group, 7 * i);
    } else {
      HighGroup(partial, group);
      OrIsSum(partial, group % 2, 7 * i);
    }
  }

  // ---- Writer ----

  class Writer {
    var buf: bytes
    ghost var fields: seq<Field>

    /** The buffer holds exactly the fields written so far. */
    ghost predicate Valid()
      reads this
    {
      buf == Ser(fields)
    }

    constructor ()
      ensures Valid() && fields == [] && buf == []
    {
      buf, fields := [], [];
    }

    method WriteVarint(value: u64)
      modifies this`buf
      ensures buf == old(buf) + Varint(value)
    {
      var rest: nat := value;
      while true
        invariant buf + Varint(rest) == old(buf) + Varint(value)
        decreases rest
      {
        var low: nat := rest % 128;
        ghost var was := rest;
        rest := rest / 128;
        if rest != 0 {
          OrIsSum(low, 1, 7);
          assert Pow2(7) == 128 by { Pow2Of7(1); }
          low := Or(low, 0x80);
        }
        Assoc(buf, [low], Varint(rest));
        buf := buf + [low];
        if rest == 0 { break; }
      }
    }

    method Tag(num: u32, wire: nat)
      requires wire < 8
      modifies this`buf
      ensures buf == old(buf) + Varint(num * 8 + wire)
    {
      WriteVarint(num * 8 + wire);
    }

    ghost method Wrote(f: Field)
      requires buf == Ser(fields) + SerField(f)
      modifies this`fields
      ensures Valid() && fields == old(fields) + [f]
    {
      SerAppend(fields, [f]);
      assert Ser([f]) == SerField(f) + Ser([]) == SerField(f);
      fields := fields + [f];
    }

    method UInt64Field(num: u32, value: u64)
      requires Valid()
      modifies this
      ensures Valid() && fields == old(fields) + [VarintF(num, value)]
    {
      Tag(num, WIRE_VARINT);
      WriteVarint(value);
      Assoc(Ser(fields), Varint(num * 8 + WIRE_VARINT), Varint(value));
      Wrote(VarintF(num, value));
    }

    method BoolField(num: u32, value: bool)
      requires Valid()
      modifies this
      ensures Valid() && fields == old(fields) + [VarintF(num, if value then 1 else 0)]
    {
      UInt64Field(num, if value then 1 else 0);
    }

    method FloatField(num: u32, value: u32)
      requires Valid()
      modifies this
      ensures Valid() && fields == old(fields) + [I32F(num, value)]
    {
      Tag(num, WIRE_I32);
      buf := buf + LeBytes(value, 4);
      Assoc(Ser(fields), Varint(num * 8 + WIRE_I32), LeBytes(value, 4));
      Wrote(I32F(num, value));
    }

    method DoubleField(num: u32, value: u64)
      requires Valid()
      modifies this
      ensures Valid() && fields == old(fields) + [I64F(num, value)]
    {
      Tag(num, WIRE_I64);
      buf := buf + LeBytes(value, 8);
      Assoc(Ser(fields), Varint(num * 8 + WIRE_I64), LeBytes(value, 8));
      Wrote(I64F(num, value));
    }

    method BytesField(num: u32, value: bytes)
      requires Valid()
      modifies this
      ensures Valid() && fields == old(fields) + [LenF(num, value)]
    {
      Tag(num, WIRE_LEN);
      WriteVarint(|value| % TWO64);
      buf := buf + value;
      ghost var tag, len := Varint(num * 8 + WIRE_LEN), Varint(|value| % TWO64);
      Assoc4(Ser(fields), tag, len, value);
      Assoc(tag, len, value);
      Wrote(LenF(num, value));
    }
  }

  // ---- Reader ----

  class Reader {
    const buf: bytes
    var pos: nat

    ghost predicate Valid()
      reads this
    {
      pos <= |buf|
    }

    /** What is still to be read. */
    ghost function Rest(): bytes
      requires Valid()
      reads this
    {
      buf[pos..]
    }

    constructor (buf: bytes)
      ensures this.buf == buf && pos == 0 && Valid() && Rest() == buf
    {
      this.buf, pos := buf, 0;
    }

    predicate IsEmpty()
      reads this
      ensures Valid() ==> (IsEmpty() <==> Rest() == [])
    {
      pos >= |buf|
    }

    method ReadByte() returns (r: Result<byte>)
      requires Valid()
      modifies this
      ensures Valid()
      ensures r == if old(pos) < |buf| then Ok(buf[old(pos)]) else Err(Truncated)
      ensures pos == old(pos) + (if r.Ok? then 1 else 0)
    {
      if pos >= |buf| { return Err(Truncated); }
      r := Ok(buf[pos]);
      pos := pos + 1;
    }

    method ReadVarint() returns (r: Result<u64>)
      requires Valid()
      modifies this
      ensures Valid() && Found(r, pos - old(pos), Wire.ReadVarint(old(Rest())))
    {
      var result: nat := 0;
      var shift := 0;
      ghost var i: nat := 0;
      while true
        invariant Valid() && i <= 10 && shift == 7 * i && pos == old(pos) + i
        invariant i <= 9 ==> result < Pow128(i)
        invariant Groups(old(Rest()), 0) == if i <= 9 then Lift(result, i, Groups(Rest(), i)) else Err(VarintOverflow)
        decreases 10 - i
      {
        if shift >= 64 { return Err(VarintOverflow); }
        ghost var rest := Rest();
        var b :- ReadByte();
        assert Rest() == rest[1..];
        if b < 128 {
          LastGroup(result, i, rest);
        } else if i < 9 {
          MidGroup(result, i, rest);
        } else {
          TenthGroup(result, rest);
        }
        result := Or(result, Shl64(b % 128, shift));
        if b < 128 { return Ok(result); }
        shift, i := shift + 7, i + 1;
      }
    }

    method ReadTag() returns (r: Result<(u32, nat)>)
      requires Valid()
      modifies this
      ensures Valid() && Found(r, pos - old(pos), Wire.ReadTag(old(Rest())))
    {
      var key :- ReadVarint();
      if key / 8 >= TWO32 { return Err(InvalidWireType(0)); }
      r := Ok((key / 8, key % 8));
    }

    method ReadFixed(w: nat) returns (r: Result<nat>)
      requires Valid()
      modifies this
      ensures Valid() && Found(r, pos - old(pos), Wire.ReadFixed(old(Rest()), w))
    {
      if pos + w > |buf| { return Err(Truncated); }
      assert Rest()[..w] == buf[pos..pos + w];
      r := Ok(FromLe(buf[pos..pos + w]));
      pos := pos + w;
    }

    method ReadLenSlice() returns (r: Result<bytes>)
      requires Valid()
      modifies this
      ensures Valid() && Found(r, pos - old(pos), Wire.ReadLen(old(Rest())))
    {
      ghost var start := pos;
      var len :- ReadVarint();
      if pos + len > |buf| { return Err(Truncated); }
      assert buf[start..][pos - start..pos - start + len] == buf[pos..pos + len];
      r := Ok(buf[pos..pos + len]);
      pos := pos + len;
    }

    /** The read of the arm that matches `wire` (or the skip, whose value the caller drops). */
    method ReadValue(num: u32, wire: nat) returns (r: Result<Field>)
      requires Valid()
      modifies this
      ensures Valid() && Found(r, pos - old(pos), Wire.ReadValue(num, wire, old(Rest())))
    {
      Pow256Values();
      if wire == WIRE_VARINT {
        var v :- ReadVarint();
        r := Ok(VarintF(num, v));
      } else if wire == WIRE_I64 {
        var v :- ReadFixed(8);
        r := Ok(I64F(num, v));
      } else if wire == WIRE_LEN {
        var v :- ReadLenSlice();
        r := Ok(LenF(num, v));
      } else if wire == WIRE_I32 {
        var v :- ReadFixed(4);
        r := Ok(I32F(num, v));
      } else {
        r := Err(InvalidWireType(wire));
      }
    }

    /** A tag, then the value its wire type announces. */
    method ReadField() returns (r: Result<Field>)
      requires Valid()
      modifies this
      ensures Valid() && Found(r, pos - old(pos), Wire.ReadField(old(Rest())))
      ensures r.Ok? ==> |Rest()| < |old(Rest())| && Rest() == old(Rest())[Wire.ReadField(old(Rest())).value.1..]
    {
      ghost var start := pos;
      var tag :- ReadTag();
      assert buf[start..][pos - start..] == Rest();
      r := ReadValue(tag.0, tag.1);
      assert r.Ok? ==> Rest() == buf[start..][pos - start..];
    }
  }

  /** `r` and the `n` bytes read are what `spec` finds at the head of the buffer. */
  predicate Found<T(==)>(r: Result<T>, n: int, spec: Result<(T, nat)>) {
    match spec
    case Ok((v, m)) => r == Ok(v) && n == m
    case Err(e) => r == Err(e)
  }

  /** The groups from `i` on, with the `i` groups worth `partial` put in front. */
  function Lift(partial: nat, i: nat, r: Result<(nat, nat)>): Result<(nat, nat)> {
    match r
    case Ok((sum, n)) => Ok((partial + sum * Pow128(i), i + n))
    case Err(e) => Err(e)
  }

  lemma Weights(p: nat, g: nat, sum: nat)
    ensures (g + 128 * sum) * p == g * p + sum * (128 * p)
  {
  }

  /** The last group, with the groups before it worth `result`. */
  lemma LastGroup(result: nat, i: nat, b: bytes)
    requires i <= 9 && result < Pow128(i) && b != [] && b[0] < 128
    ensures Or(result, Shl64(b[0] % 128, 7 * i)) == (result + b[0] * Pow128(i)) % TWO64
    ensures Lift(result, i, Groups(b, i)) == Ok((result + b[0] * Pow128(i), i + 1))
  {
    GroupStep(result, b[0], i);
    assert Groups(b, i) == Ok((b[0], 1));
  }

  /** A group with more to come, with the groups before it worth `result`. */
  lemma MidGroup(result: nat, i: nat, b: bytes)
    requires i < 9 && result < Pow128(i) && b != [] && b[0] >= 128
    ensures var next := Or(result, Shl64(b[0] % 128, 7 * i));
      && next < Pow128(i + 1) <= TWO63
      && Lift(result, i, Groups(b, i)) == Lift(next, i + 1, Groups(b[1..], i + 1))
  {
    GroupStep(result, b[0] % 128, i);
    Pow128Bound(i);
    if Groups(b[1..], i + 1).Ok? {
      Weights(Pow128(i), b[0] % 128, Groups(b[1..], i + 1).value.0);
    }
  }

  /** A tenth group with more to come overflows. */
  lemma TenthGroup(result: nat, b: bytes)
    requires b != [] && b[0] >= 128
    ensures Lift(result, 9, Groups(b, 9)) == Err(VarintOverflow)
  {
  }
}
