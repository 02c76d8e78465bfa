/** Array packing into one bytes field (src/codec/arrays.rs; section 6.4.17 of Sparkplug 3.0.0). */
module Arrays {
  import opened Base
  import opened Model
  import opened WireIO

  // ---- Numeric arrays: fixed-width little-endian elements ----

  function PackNumbers(w: nat, xs: seq<int>): bytes {
    if xs == [] then [] else LeBytes(xs[0] % Pow256(w), w) + PackNumbers(w, xs[1..])
  }

  /** The whole `w`-byte chunks of `d`, as unsigned numbers. */
  function UnpackNumbers(w: nat, d: bytes): (xs: seq<nat>)
    decreases |d|
  {
    if w == 0 || |d| < w then [] else [FromLe(d[..w])] + UnpackNumbers(w, d[w..])
  }

  function Low(w: nat, x: int): nat { x % Pow256(w) }

  /** The elements of `xs` reduced to `w` bytes. */
  function Reduced(w: nat, xs: seq<int>): (us: seq<nat>)
    ensures |us| == |xs|
  {
    seq(|xs|, i requires 0 <= i < |xs| => Low(w, xs[i]))
  }

  lemma {:induction false} UnpackOfPack(w: nat, xs: seq<int>)
    requires w > 0
    ensures UnpackNumbers(w, PackNumbers(w, xs)) == Reduced(w, xs)
  {
    if xs == [] {
    } else {
      var head, tail := LeBytes(xs[0] % Pow256(w), w), PackNumbers(w, xs[1..]);
      assert (head + tail)[..w] == head && (head + tail)[w..] == tail;
      FromLeInverts(xs[0] % Pow256(w), w);
      UnpackOfPack(w, xs[1..]);
      assert Reduced(w, xs) == [Low(w, xs[0])] + Reduced(w, xs[1..]);
    }
  }

  lemma {:induction false} PackOfUnpack(w: nat, n: nat, d: bytes)
    requires w > 0 && |d| == w * n
    ensures PackNumbers(w, UnpackNumbers(w, d)) == d
    decreases n
  {
    if n == 0 {
    } else {
      Factor(w, n);
      PackOfUnpack(w, n - 1, d[w..]);
      LeBytesInverts(d[..w]);
      var us := UnpackNumbers(w, d);
      assert us[0] == FromLe(d[..w]) && us[1..] == UnpackNumbers(w, d[w..]);
      Small(FromLe(d[..w]), Pow256(w));
      Cut(d, w);
    }
  }

  lemma Factor(w: nat, n: nat)
    requires n > 0
    ensures w * n == w + w * (n - 1) && w * (n - 1) >= 0
  {
  }

  lemma Small(x: nat, m: nat)
    requires x < m
    ensures x % m == x
  {
  }

  /** Packing depends on the elements only up to their width. */
  lemma {:induction false} PackOfReduced(w: nat, xs: seq<int>, ys: seq<int>)
    requires |xs| == |ys| && forall i :: 0 <= i < |xs| ==> xs[i] % Pow256(w) == ys[i] % Pow256(w)
    ensures PackNumbers(w, xs) == PackNumbers(w, ys)
  {
    if xs != [] { PackOfReduced(w, xs[1..], ys[1..]); }
  }

  // The element casts of `pack` and `unpack`.

  function I8s(us: seq<nat>): seq<i8> { seq(|us|, i requires 0 <= i < |us| => AsI8(us[i])) }
  function I16s(us: seq<nat>): seq<i16> { seq(|us|, i requires 0 <= i < |us| => AsI16(us[i])) }
  function I32s(us: seq<nat>): seq<i32> { seq(|us|, i requires 0 <= i < |us| => AsI32(us[i])) }
  function I64s(us: seq<nat>): seq<i64> { seq(|us|, i requires 0 <= i < |us| => AsI64(us[i])) }
  function U8s(us: seq<nat>): seq<byte> { seq(|us|, i requires 0 <= i < |us| => us[i] % TWO8) }
  function U16s(us: seq<nat>): seq<u16> { seq(|us|, i requires 0 <= i < |us| => us[i] % TWO16) }
  function U32s(us: seq<nat>): seq<u32> { seq(|us|, i requires 0 <= i < |us| => AsU32(us[i])) }
  function U64s(us: seq<nat>): seq<u64> { seq(|us|, i requires 0 <= i < |us| => AsU64(us[i])) }

  // ---- Boolean arrays: a 32-bit count, then bits from the top of each byte ----

  function Bit(v: seq<bool>, i: nat): nat { if i < |v| && v[i] then 1 else 0 }

  /** Up to eight booleans in a byte, the first in the top bit. */
  function ByteOf(v: seq<bool>): byte {
    128 * Bit(v, 0) + 64 * Bit(v, 1) + 32 * Bit(v, 2) + 16 * Bit(v, 3)
    + 8 * Bit(v, 4) + 4 * Bit(v, 5) + 2 * Bit(v, 6) + Bit(v, 7)
  }

  /** Whether bit `i` of the byte is set, counting from the most significant. */
  predicate TestBit(b: byte, i: nat)
    requires i < 8
  {
    b / Pow2(7 - i) % 2 == 1
  }

  function PackBits(v: seq<bool>): bytes {
    if |v| == 0 then []
    else if |v| <= 8 then [ByteOf(v)]
    else [ByteOf(v[..8])] + PackBits(v[8..])
  }

  function UnpackBits(bits: bytes, count: nat): (v: seq<bool>)
    requires (count + 7) / 8 <= |bits|
  {
    seq(count, i requires 0 <= i < count => TestBit(bits[i / 8], i % 8))
  }

  lemma Pow2Small()
    ensures Pow2(0) == 1 && Pow2(1) == 2 && Pow2(2) == 4 && Pow2(3) == 8
    ensures Pow2(4) == 16 && Pow2(5) == 32 && Pow2(6) == 64 && Pow2(7) == 128
  {
    assert Pow2(2) == 4 && Pow2(4) == 16 && Pow2(6) == 64;
  }

  lemma EightBits(n: nat, b0: nat, b1: nat, b2: nat, b3: nat, b4: nat, b5: nat, b6: nat, b7: nat)
    requires b0 <= 1 && b1 <= 1 && b2 <= 1 && b3 <= 1 && b4 <= 1 && b5 <= 1 && b6 <= 1 && b7 <= 1
    requires n == 128 * b0 + 64 * b1 + 32 * b2 + 16 * b3 + 8 * b4 + 4 * b5 + 2 * b6 + b7
    ensures n / 128 % 2 == b0 && n / 64 % 2 == b1 && n / 32 % 2 == b2 && n / 16 % 2 == b3
    ensures n / 8 % 2 == b4 && n / 4 % 2 == b5 && n / 2 % 2 == b6 && n % 2 == b7
  {
    var h := 8 * b0 + 4 * b1 + 2 * b2 + b3;
    var l := 8 * b4 + 4 * b5 + 2 * b6 + b7;
    assert n == 16 * h + l && l < 16;
    assert n / 16 == h;
    assert n / 32 == h / 2 && n / 64 == h / 4 && n / 128 == h / 8;
    FourBits(b0, b1, b2, b3);
    FourBits(b4, b5, b6, b7);
    assert n / 2 == 8 * h + l / 2 && n / 4 == 4 * h + l / 4 && n / 8 == 2 * h + l / 8;
  }

  lemma FourBits(b0: nat, b1: nat, b2: nat, b3: nat)
    requires b0 <= 1 && b1 <= 1 && b2 <= 1 && b3 <= 1
    ensures var h := 8 * b0 + 4 * b1 + 2 * b2 + b3;
      h / 8 % 2 == b0 && h / 4 % 2 == b1 && h / 2 % 2 == b2 && h % 2 == b3
  {
  }

  lemma TestBitOfByte(v: seq<bool>, i: nat)
    requires |v| <= 8 && i < 8
    ensures TestBit(ByteOf(v), i) <==> i < |v| && v[i]
  {
    Pow2Small();
    EightBits(ByteOf(v), Bit(v, 0), Bit(v, 1), Bit(v, 2), Bit(v, 3), Bit(v, 4), Bit(v, 5), Bit(v, 6), Bit(v, 7));
    assert i == 0 || i == 1 || i == 2 || i == 3 || i == 4 || i == 5 || i == 6 || i == 7;
  }

  lemma {:induction false} PackBitsLength(v: seq<bool>)
    ensures |PackBits(v)| == (|v| + 7) / 8
  {
    if |v| > 8 { PackBitsLength(v[8..]); }
  }

  lemma {:induction false} PackBitsAt(v: seq<bool>, i: nat)
    requires i < |v|
    ensures i / 8 < |PackBits(v)| && (TestBit(PackBits(v)[i / 8], i % 8) <==> v[i])
  {
    PackBitsLength(v);
    if |v| <= 8 {
      TestBitOfByte(v, i);
    } else if i < 8 {
      TestBitOfByte(v[..8], i);
    } else {
      PackBitsAt(v[8..], i - 8);
      assert (i - 8) / 8 == i / 8 - 1 && (i - 8) % 8 == i % 8;
    }
  }

  lemma UnpackOfPackBits(v: seq<bool>)
    ensures |PackBits(v)| == (|v| + 7) / 8 && UnpackBits(PackBits(v), |v|) == v
  {
    PackBitsLength(v);
    forall i | 0 <= i < |v| ensures UnpackBits(PackBits(v), |v|)[i] == v[i] { PackBitsAt(v, i); }
  }

  // ---- String arrays: each string followed by a NUL ----

  function PackStrings(ss: seq<bytes>): bytes {
    if ss == [] then [] else ss[0] + [0] + PackStrings(ss[1..])
  }

  /** `slice::split` at NUL bytes: one segment more than there are NULs. */
  function SplitNul(d: bytes): (segs: seq<bytes>)
    ensures segs != []
    ensures forall s <- segs :: 0 !in s
  {
    if d == [] then [[]]
    else
      var rest := SplitNul(d[1..]);
      if d[0] == 0 then [[]] + rest else [[d[0]] + rest[0]] + rest[1..]
  }

  /** The segments that count as elements: a final NUL opens no new one. */
  function Segments(d: bytes): (segs: seq<bytes>)
    ensures forall s <- segs :: 0 !in s
  {
    if d == [] then []
    else if d[|d| - 1] == 0 then SplitNul(d)[..|SplitNul(d)| - 1]
    else SplitNul(d)
  }

  function ToStrs(segs: seq<bytes>): (r: Result<seq<Str>>)
    ensures r.Ok? ==> r.value == segs
  {
    if segs == [] then Ok([])
    else if !ValidUtf8(segs[0]) then Err(InvalidUtf8)
    else
      match ToStrs(segs[1..])
      case Ok(rest) => Ok([segs[0]] + rest)
      case Err(e) => Err(e)
  }

  lemma {:induction false} ToStrsValid(ss: seq<Str>)
    ensures ToStrs(ss) == Ok(ss)
  {
    if ss != [] { ToStrsValid(ss[1..]); }
  }

  lemma {:induction false} SplitAfter(s: bytes, d: bytes)
    requires 0 !in s
    ensures SplitNul(s + [0] + d) == [s] + SplitNul(d)
  {
    var b := s + [0] + d;
    if s == [] {
      assert b[1..] == d;
    } else {
      assert b[1..] == s[1..] + [0] + d;
      SplitAfter(s[1..], d);
      HeadTail(s);
      assert b[0] == s[0] != 0;
    }
  }

  lemma {:induction false} SplitOfPack(ss: seq<bytes>)
    requires forall s <- ss :: 0 !in s
    ensures SplitNul(PackStrings(ss)) == ss + [[]]
    ensures ss != [] ==> PackStrings(ss) != [] && PackStrings(ss)[|PackStrings(ss)| - 1] == 0
  {
    if ss != [] {
      SplitOfPack(ss[1..]);
      SplitAfter(ss[0], PackStrings(ss[1..]));
    }
  }

  /** Packing the segments of `d` restores `d`, with a final NUL. */
  lemma {:induction false} PackOfSplit(d: bytes)
    ensures PackStrings(SplitNul(d)) == d + [0]
  {
    if d == [] {
      assert PackStrings([]) == [];
    } else {
      PackOfSplit(d[1..]);
      var rest := SplitNul(d[1..]);
      HeadTail(rest);
      HeadTail(d);
      assert PackStrings(rest) == rest[0] + [0] + PackStrings(rest[1..]);
      if d[0] == 0 {
        assert ([[]] + rest)[1..] == rest;
      } else {
        var segs := [[d[0]] + rest[0]] + rest[1..];
        assert segs[1..] == rest[1..];
        assert [d[0]] + rest[0] + [0] + PackStrings(rest[1..]) == [d[0]] + (rest[0] + [0] + PackStrings(rest[1..]));
      }
    }
  }

  /** Dropping the last segment of a NUL-terminated buffer drops nothing but the terminator. */
  lemma {:induction false} PackOfSegments(d: bytes)
    ensures PackStrings(Segments(d)) == if d == [] || d[|d| - 1] == 0 then d else d + [0]
  {
    if d != [] && d[|d| - 1] == 0 {
      var c := d[..|d| - 1];
      assert d == c + [0];
      SplitTerminated(c);
      PackOfSplit(c);
    } else if d != [] {
      PackOfSplit(d);
    }
  }

  lemma {:induction false} SplitTerminated(c: bytes)
    ensures SplitNul(c + [0]) == SplitNul(c) + [[]]
  {
    if c == [] {
      assert (c + [0])[1..] == [];
    } else {
      assert (c + [0])[1..] == c[1..] + [0];
      SplitTerminated(c[1..]);
    }
  }

  // ---- Packing and unpacking ----

  function Pack(a: ArrayValue): bytes {
    match a
    case Int8Array(v) => PackNumbers(1, v)
    case Int16Array(v) => PackNumbers(2, v)
    case Int32Array(v) => PackNumbers(4, v)
    case Int64Array(v) => PackNumbers(8, v)
    case UInt8Array(v) => PackNumbers(1, v)
    case UInt16Array(v) => PackNumbers(2, v)
    case UInt32Array(v) => PackNumbers(4, v)
    case UInt64Array(v) => PackNumbers(8, v)
    case FloatArray(v) => PackNumbers(4, v)
    case DoubleArray(v) => PackNumbers(8, v)
    case DateTimeArray(v) => PackNumbers(8, v)
    case BooleanArray(v) => LeBytes(|v| % TWO32, 4) + PackBits(v)
    case StringArray(v) => PackStrings(v)
  }

  function Unpack(dt: DataType, d: bytes): (r: Result<ArrayValue>)
  {
    match dt
    case BooleanArray => UnpackBool(d)
    case StringArray => UnpackStrings(d)
    case _ => UnpackNumeric(dt, d)
  }

  function UnpackNumeric(dt: DataType, d: bytes): (r: Result<ArrayValue>)
  {
    var width := dt.ElementWidth();
    if width.None? then Err(ValueTypeMismatch)
    else if |d| % width.value != 0 then Err(ArrayLength(|d|, width.value))
    else
      var us := UnpackNumbers(width.value, d);
      match dt
      case Int8Array => Ok(Int8Array(I8s(us)))
      case Int16Array => Ok(Int16Array(I16s(us)))
      case Int32Array => Ok(Int32Array(I32s(us)))
      case Int64Array => Ok(Int64Array(I64s(us)))
      case UInt8Array => Ok(UInt8Array(U8s(us)))
      case UInt16Array => Ok(UInt16Array(U16s(us)))
      case UInt32Array => Ok(UInt32Array(U32s(us)))
      case UInt64Array => Ok(UInt64Array(U64s(us)))
      case FloatArray => Ok(FloatArray(U32s(us)))
      case DoubleArray => Ok(DoubleArray(U64s(us)))
      case DateTimeArray => Ok(DateTimeArray(I64s(us)))
      case _ => Err(ValueTypeMismatch)
  }

  function UnpackBool(d: bytes): (r: Result<ArrayValue>)
  {
    if |d| < 4 then Err(Truncated)
    else
      var count := FromLe(d[..4]);
      if |d| - 4 < (count + 7) / 8 then Err(Truncated)
      else Ok(BooleanArray(UnpackBits(d[4..], count)))
  }

  function UnpackStrings(d: bytes): (r: Result<ArrayValue>)
  {
    match ToStrs(Segments(d))
    case Ok(ss) => Ok(StringArray(ss))
    case Err(e) => Err(e)
  }

  // ---- The two directions ----

  lemma {:induction false} PackLength(w: nat, xs: seq<int>)
    ensures |PackNumbers(w, xs)| == w * |xs|
  {
    if xs != [] {
      PackLength(w, xs[1..]);
      Factor(w, |xs|);
    }
  }

  /** The chunks of packed numbers, and that their number is whole. */
  lemma NumbersBack(w: nat, xs: seq<int>)
    requires w == 1 || w == 2 || w == 4 || w == 8
    ensures |PackNumbers(w, xs)| % w == 0
    ensures UnpackNumbers(w, PackNumbers(w, xs)) == Reduced(w, xs)
  {
    PackLength(w, xs);
    UnpackOfPack(w, xs);
    Pow256Values();
  }

  lemma I8sBack(v: seq<i8>)
    ensures I8s(Reduced(1, v)) == v
  {
    Pow256Values();
  }

  lemma I8sKeep(us: seq<nat>)
    ensures PackNumbers(1, I8s(us)) == PackNumbers(1, us)
  {
    Pow256Values();
    PackOfReduced(1, I8s(us), us);
  }

  lemma I16sBack(v: seq<i16>)
    ensures I16s(Reduced(2, v)) == v
  {
    Pow256Values();
  }

  lemma I16sKeep(us: seq<nat>)
    ensures PackNumbers(2, I16s(us)) == PackNumbers(2, us)
  {
    Pow256Values();
    PackOfReduced(2, I16s(us), us);
  }

  lemma I32sBack(v: seq<i32>)
    ensures I32s(Reduced(4, v)) == v
  {
    Pow256Values();
  }

  lemma I32sKeep(us: seq<nat>)
    ensures PackNumbers(4, I32s(us)) == PackNumbers(4, us)
  {
    Pow256Values();
    PackOfReduced(4, I32s(us), us);
  }

  lemma I64sBack(v: seq<i64>)
    ensures I64s(Reduced(8, v)) == v
  {
    Pow256Values();
  }

  lemma I64sKeep(us: seq<nat>)
    ensures PackNumbers(8, I64s(us)) == PackNumbers(8, us)
  {
    Pow256Values();
    PackOfReduced(8, I64s(us), us);
  }

  lemma U8sBack(v: seq<byte>)
    ensures U8s(Reduced(1, v)) == v
  {
    Pow256Values();
  }

  lemma U8sKeep(us: seq<nat>)
    ensures PackNumbers(1, U8s(us)) == PackNumbers(1, us)
  {
    Pow256Values();
    PackOfReduced(1, U8s(us), us);
  }

  lemma U16sBack(v: seq<u16>)
    ensures U16s(Reduced(2, v)) == v
  {
    Pow256Values();
  }

  lemma U16sKeep(us: seq<nat>)
    ensures PackNumbers(2, U16s(us)) == PackNumbers(2, us)
  {
    Pow256Values();
    PackOfReduced(2, U16s(us), us);
  }

  lemma U32sBack(v: seq<u32>)
    ensures U32s(Reduced(4, v)) == v
  {
    Pow256Values();
  }

  lemma U32sKeep(us: seq<nat>)
    ensures PackNumbers(4, U32s(us)) == PackNumbers(4, us)
  {
    Pow256Values();
    PackOfReduced(4, U32s(us), us);
  }

  lemma U64sBack(v: seq<u64>)
    ensures U64s(Reduced(8, v)) == v
  {
    Pow256Values();
  }

  lemma U64sKeep(us: seq<nat>)
    ensures PackNumbers(8, U64s(us)) == PackNumbers(8, us)
  {
    Pow256Values();
    PackOfReduced(8, U64s(us), us);
  }

  predicate IsSigned(a: ArrayValue) {
    a.Int8Array? || a.Int16Array? || a.Int32Array? || a.Int64Array? || a.DateTimeArray?
  }

  lemma UnpackOfPackSigned(a: ArrayValue)
    requires IsSigned(a)
    ensures UnpackNumeric(a.Type(), Pack(a)) == Ok(a)
  {
    hide PackNumbers, UnpackNumbers, Reduced, I8s, I16s, I32s, I64s;
    match a
    case Int8Array(v) => NumbersBack(1, v); I8sBack(v);
    case Int16Array(v) => NumbersBack(2, v); I16sBack(v);
    case Int32Array(v) => NumbersBack(4, v); I32sBack(v);
    case Int64Array(v) => NumbersBack(8, v); I64sBack(v);
    case DateTimeArray(v) => NumbersBack(8, v); I64sBack(v);
    case _ =>
  }

  lemma UnpackOfPackUnsigned(a: ArrayValue)
    requires !IsSigned(a) && !a.BooleanArray? && !a.StringArray?
    ensures UnpackNumeric(a.Type(), Pack(a)) == Ok(a)
  {
    hide PackNumbers, UnpackNumbers, Reduced, U8s, U16s, U32s, U64s;
    match a
    case UInt8Array(v) => NumbersBack(1, v); U8sBack(v);
    case UInt16Array(v) => NumbersBack(2, v); U16sBack(v);
    case UInt32Array(v) => NumbersBack(4, v); U32sBack(v);
    case UInt64Array(v) => NumbersBack(8, v); U64sBack(v);
    case FloatArray(v) => NumbersBack(4, v); U32sBack(v);
    case DoubleArray(v) => NumbersBack(8, v); U64sBack(v);
    case _ =>
  }

  lemma UnpackOfParts(head: bytes, bits: bytes, v: seq<bool>)
    requires |head| == 4 && FromLe(head) == |v| && |bits| == (|v| + 7) / 8 && UnpackBits(bits, |v|) == v
    ensures UnpackBool(head + bits) == Ok(BooleanArray(v))
  {
    var d := head + bits;
    assert d[..4] == head && d[4..] == bits;
  }

  lemma CountBack(n: nat)
    requires n < TWO32
    ensures FromLe(LeBytes(n, 4)) == n
  {
    Pow256Values();
    FromLeInverts(n, 4);
  }

  lemma UnpackOfPackBool(v: seq<bool>)
    requires |v| < TWO32
    ensures UnpackBool(Pack(BooleanArray(v))) == Ok(BooleanArray(v))
  {
    var n := |v|;
    CountBack(n);
    UnpackOfPackBits(v);
    var head := LeBytes(n, 4);
    var bits := PackBits(v);
    UnpackOfParts(head, bits, v);
    assert Pack(BooleanArray(v)) == head + bits by { Small(n, TWO32); }
  }

  lemma UnpackOfPackStrings(ss: seq<Str>)
    requires forall s <- ss :: 0 !in s
    ensures UnpackStrings(PackStrings(ss)) == Ok(StringArray(ss))
  {
    SplitOfPack(ss);
    ToStrsValid(ss);
    var segs := SplitNul(PackStrings(ss));
    if ss == [] {
      assert Segments(PackStrings(ss)) == [];
    } else {
      assert segs[..|segs| - 1] == ss;
    }
  }

  lemma UnpackNumericType(dt: DataType, d: bytes)
    requires UnpackNumeric(dt, d).Ok?
    ensures UnpackNumeric(dt, d).value.Type() == dt && UnpackNumeric(dt, d).value.WellFormed()
  {
  }

  /** Unpacking yields well-formed arrays of the declared type. */
  lemma UnpackWellFormed(dt: DataType, d: bytes)
    requires Unpack(dt, d).Ok?
    ensures Unpack(dt, d).value.Type() == dt && Unpack(dt, d).value.WellFormed()
  {
    if dt.BooleanArray? {
      Pow256Values();
    } else if !dt.StringArray? {
      UnpackNumericType(dt, d);
    }
  }

  /** All thirteen array types: an array is restored from its packed form exactly when it is well-formed. */
  lemma ArrayRoundTrip(a: ArrayValue)
    ensures Unpack(a.Type(), Pack(a)) == Ok(a) <==> a.WellFormed()
  {
    if Unpack(a.Type(), Pack(a)) == Ok(a) { UnpackWellFormed(a.Type(), Pack(a)); }
    if a.WellFormed() {
      match a
      case BooleanArray(v) => UnpackOfPackBool(v);
      case StringArray(ss) => UnpackOfPackStrings(ss);
      case _ => if IsSigned(a) { UnpackOfPackSigned(a); } else { UnpackOfPackUnsigned(a); }
    }
  }

  /** Numbers cast from the chunks of `d` have those chunks as their low bytes. */
  lemma CastsKeepBytes(dt: DataType, d: bytes)
    requires UnpackNumeric(dt, d).Ok?
    ensures Pack(UnpackNumeric(dt, d).value) ==
      PackNumbers(dt.ElementWidth().value, UnpackNumbers(dt.ElementWidth().value, d))
  {
    var w := dt.ElementWidth().value;
    var us := UnpackNumbers(w, d);
    match dt
    case Int8Array => I8sKeep(us);
    case UInt8Array => U8sKeep(us);
    case Int16Array => I16sKeep(us);
    case UInt16Array => U16sKeep(us);
    case Int32Array => I32sKeep(us);
    case UInt32Array | FloatArray => U32sKeep(us);
    case Int64Array | DateTimeArray => I64sKeep(us);
    case UInt64Array | DoubleArray => U64sKeep(us);
    case _ =>
  }

  /**
   Repacking what was unpacked gives the bytes back: always for numeric arrays, and for string
   arrays exactly when the bytes are empty or end in NUL (a missing final NUL is put in).
   */
  lemma PackAfterUnpack(dt: DataType, d: bytes)
    requires Unpack(dt, d).Ok?
    ensures dt.ElementWidth().Some? ==> Pack(Unpack(dt, d).value) == d
    ensures dt.StringArray? ==> (Pack(Unpack(dt, d).value) == d <==> d == [] || d[|d| - 1] == 0)
  {
    hide PackNumbers, UnpackNumbers, PackStrings, SplitNul, Segments, ToStrs;
    if dt.StringArray? {
      PackOfSegments(d);
    } else if dt.ElementWidth().Some? {
      var w := dt.ElementWidth().value;
      CastsKeepBytes(dt, d);
      PackOfUnpack(w, |d| / w, d);
    }
  }
}
