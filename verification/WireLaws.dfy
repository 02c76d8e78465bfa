/** Arbitrary bytes as fields: what fails, how, and that the writer wastes nothing (src/codec/wire.rs:35-210). */
module WireLaws {
  import opened Base
  import opened Wire
  import opened Decode

  // ---- Varints ----

  lemma {:induction false} WeightedBelow(b: bytes)
    ensures Weighted(b) < Pow128(|b|)
  {
    if b != [] {
      WeightedBelow(b[..|b| - 1]);
      var g, p := b[|b| - 1] % 128, Pow128(|b| - 1);
      Fits(g, p);
    }
  }

  lemma Fits(g: nat, p: nat)
    requires g < 128
    ensures g * p + p <= 128 * p
  {
  }

  lemma {:induction false} VarintLength(v: nat, n: nat)
    requires n > 0 && v < Pow128(n)
    ensures |Varint(v)| <= n
  {
    if v >= 128 {
      assert Pow128(0) == 1 && Pow128(n) == 128 * Pow128(n - 1);
      VarintLength(v / 128, n - 1);
    }
  }

  /** No bytes that read as a number are shorter than those written for it. */
  lemma VarintShortest(b: bytes)
    requires ReadVarint(b).Ok?
    ensures |Varint(ReadVarint(b).value.0)| <= ReadVarint(b).value.1
  {
    hide Weighted;
    VarintMeaning(b);
    var n := ReadVarint(b).value.1;
    WeightedBelow(b[..n]);
    Smaller(Weighted(b[..n]));
    VarintLength(ReadVarint(b).value.0, n);
  }

  lemma Smaller(x: nat)
    ensures x % TWO64 <= x
  {
  }

  lemma {:induction false} GroupsFail(b: bytes, i: nat)
    requires i <= 10
    ensures var n := if |b| < 10 - i then |b| else 10 - i;
      && (Groups(b, i).Err? <==> forall k :: 0 <= k < n ==> b[k] >= 128)
      && (Groups(b, i).Err? ==> Groups(b, i).error == if |b| < 10 - i then Truncated else VarintOverflow)
    decreases |b|
  {
    var n := if |b| < 10 - i then |b| else 10 - i;
    if n > 0 && b[0] >= 128 {
      GroupsFail(b[1..], i + 1);
      assert forall k :: 0 < k < n ==> b[k] == b[1..][k - 1];
      assert forall k :: 0 <= k < n - 1 ==> b[1..][k] == b[k + 1];
    }
  }

  /** Reading fails exactly when no byte ends the varint: ten without an end overflow, fewer are truncated. */
  lemma VarintFails(b: bytes)
    ensures var n := if |b| < 10 then |b| else 10;
      && (ReadVarint(b).Err? <==> forall k :: 0 <= k < n ==> b[k] >= 128)
      && (ReadVarint(b).Err? ==> ReadVarint(b).error == if |b| < 10 then Truncated else VarintOverflow)
  {
    GroupsFail(b, 0);
  }

  // ---- Fields ----

  /**
   A field of arbitrary bytes: the key gives number and wire type, three bits for the type and at most 32 for the
   number; groups and unknown types are refused; a fixed value needs its bytes, and a body all that its length says.
   */
  lemma FieldMeans(b: bytes, key: u64, n: nat)
    requires ReadVarint(b) == Ok((key, n))
    ensures var num, ty, rest, r := key / 8, key % 8, b[n..], ReadField(b);
      if num > 0xFFFF_FFFF then r == Err(InvalidWireType(0))
      else match ty {
        case 0 =>
          var v := ReadVarint(rest);
          if v.Err? then r == Err(v.error) else r == Ok((VarintF(num, v.value.0), n + v.value.1))
        case 1 =>
          if |rest| < 8 then r == Err(Truncated)
          else
            && r.Ok? && r.value.0.I64F? && r.value.0.num == num && r.value.1 == n + 8
            && r.value.0.bits == FromLe(rest[..8])
        case 2 =>
          var len := ReadVarint(rest);
          if len.Err? then r == Err(len.error)
          else
            var at := n + len.value.1;
            if |b| - at < len.value.0 then r == Err(Truncated)
            else r == Ok((LenF(num, b[at..at + len.value.0]), at + len.value.0))
        case 5 =>
          if |rest| < 4 then r == Err(Truncated)
          else
            && r.Ok? && r.value.0.I32F? && r.value.0.num == num && r.value.1 == n + 4
            && r.value.0.word == FromLe(rest[..4])
        case _ => r == Err(InvalidWireType(ty))
      }
  {
    hide ReadVarint, Base.FromLe;
    var rest := b[n..];
    if key % 8 == 2 && ReadVarint(rest).Ok? {
      var (len, k) := ReadVarint(rest).value;
      if n + k + len <= |b| { assert rest[k..k + len] == b[n + k..n + k + len]; }
    }
  }

  /** A field whose key cannot be read is not read. */
  lemma KeyFails(b: bytes)
    requires ReadVarint(b).Err?
    ensures ReadField(b) == Err(ReadVarint(b).error)
  {
    hide ReadVarint;
  }

  // ---- Packed type codes ----

  function Packed(codes: seq<u32>): bytes {
    if codes == [] then [] else Varint(codes[0]) + Packed(codes[1..])
  }

  /** Varints one after the other are read back as the codes they are. */
  lemma {:induction false} PackedBack(codes: seq<u32>)
    ensures TypeCodes(Packed(codes)) == Ok(codes)
  {
    hide ReadVarint, Varint;
    if codes != [] {
      var rest := Packed(codes[1..]);
      VarintRoundTrip(codes[0], rest);
      PackedBack(codes[1..]);
      assert (Varint(codes[0]) + rest)[|Varint(codes[0])|..] == rest;
      HeadTail(codes);
    }
  }
}
