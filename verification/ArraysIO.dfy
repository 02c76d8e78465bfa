/** The pack and unpack loops of src/codec/arrays.rs. */
module ArraysIO {
  import opened Base
  import opened Model
  import opened Arrays
  import opened WireIO

  /** Appends the numbers in order, each in little-endian form at the width of the element type. */
  method PutNumbers(w: nat, v: seq<int>) returns (buf: bytes)
    ensures buf == PackNumbers(w, v)
  {
    buf := [];
    for i := 0 to |v|
      invariant buf + PackNumbers(w, v[i..]) == PackNumbers(w, v)
    {
      Assoc(buf, LeBytes(v[i] % Pow256(w), w), PackNumbers(w, v[i + 1..]));
      buf := buf + LeBytes(v[i] % Pow256(w), w);
      assert v[i..][1..] == v[i + 1..];
    }
    Units(buf);
  }

  lemma BitTake(v: seq<bool>, i: nat, k: nat)
    requires i <= |v|
    ensures Bit(v[..i], k) == if k < i then Bit(v, k) else 0
  {
  }

  lemma BitsTake(v: seq<bool>, i: nat)
    requires i <= |v| <= 8
    ensures ByteOf(v[..i]) ==
      (if 0 < i then 128 * Bit(v, 0) else 0) + (if 1 < i then 64 * Bit(v, 1) else 0)
      + (if 2 < i then 32 * Bit(v, 2) else 0) + (if 3 < i then 16 * Bit(v, 3) else 0)
      + (if 4 < i then 8 * Bit(v, 4) else 0) + (if 5 < i then 4 * Bit(v, 5) else 0)
      + (if 6 < i then 2 * Bit(v, 6) else 0) + (if 7 < i then Bit(v, 7) else 0)
  {
    BitTake(v, i, 0); BitTake(v, i, 1); BitTake(v, i, 2); BitTake(v, i, 3);
    BitTake(v, i, 4); BitTake(v, i, 5); BitTake(v, i, 6); BitTake(v, i, 7);
  }

  /** The next bit, and that the bits before it are above it. */
  lemma NextBit(v: seq<bool>, i: nat) returns (high: nat)
    requires i < |v| <= 8
    ensures ByteOf(v[..i + 1]) == ByteOf(v[..i]) + (if v[i] then Pow2(7 - i) else 0)
    ensures ByteOf(v[..i]) == high * Pow2(8 - i)
  {
    hide ByteOf, Bit;
    Pow2Small();
    assert Pow2(8) == 2 * Pow2(7);
    BitsTake(v, i);
    BitsTake(v, i + 1);
    assert Bit(v, i) == (if v[i] then 1 else 0) by { BitHere(v, i); }
    high :=
      if i == 0 then 0
      else if i == 1 then Bit(v, 0)
      else if i == 2 then 2 * Bit(v, 0) + Bit(v, 1)
      else if i == 3 then 4 * Bit(v, 0) + 2 * Bit(v, 1) + Bit(v, 2)
      else if i == 4 then 8 * Bit(v, 0) + 4 * Bit(v, 1) + 2 * Bit(v, 2) + Bit(v, 3)
      else if i == 5 then 16 * Bit(v, 0) + 8 * Bit(v, 1) + 4 * Bit(v, 2) + 2 * Bit(v, 3) + Bit(v, 4)
      else if i == 6 then 32 * Bit(v, 0) + 16 * Bit(v, 1) + 8 * Bit(v, 2) + 4 * Bit(v, 3) + 2 * Bit(v, 4) + Bit(v, 5)
      else 64 * Bit(v, 0) + 32 * Bit(v, 1) + 16 * Bit(v, 2) + 8 * Bit(v, 3) + 4 * Bit(v, 4) + 2 * Bit(v, 5) + Bit(v, 6);
  }

  lemma BitHere(v: seq<bool>, i: nat)
    requires i < |v|
    ensures Bit(v, i) == if v[i] then 1 else 0
  {
  }

  lemma BitOr(v: seq<bool>, i: nat)
    requires i < |v| <= 8
    ensures (if v[i] then Or(ByteOf(v[..i]), Pow2(7 - i)) else ByteOf(v[..i])) == ByteOf(v[..i + 1])
  {
    hide ByteOf;
    var high := NextBit(v, i);
    if v[i] {
      OrIsSum(Pow2(7 - i), high, 8 - i);
      OrCommutes(Pow2(7 - i), high * Pow2(8 - i));
    }
  }

  lemma {:induction false} OrCommutes(a: nat, b: nat)
    ensures Or(a, b) == Or(b, a)
  {
    if a > 0 && b > 0 { OrCommutes(a / 2, b / 2); }
  }

  /** One byte of a boolean array: `byte |= 128 >> bit` for every set element of the chunk. */
  method PutBits(chunk: seq<bool>) returns (byte: nat)
    requires |chunk| <= 8
    ensures byte == ByteOf(chunk)
  {
    byte := 0;
    for i := 0 to |chunk|
      invariant byte == ByteOf(chunk[..i])
    {
      BitOr(chunk, i);
      if chunk[i] { byte := Or(byte, Pow2(7 - i)); }
    }
    assert chunk[..|chunk|] == chunk;
  }

  /** The count in four bytes, then one byte for every eight booleans, the last one padded with zero bits. */
  method PutBooleans(v: seq<bool>) returns (buf: bytes)
    ensures buf == LeBytes(|v| % TWO32, 4) + PackBits(v)
  {
    ghost var count := LeBytes(|v| % TWO32, 4);
    buf := LeBytes(|v| % TWO32, 4);
    var i := 0;
    Units(count);
    while i < |v|
      invariant 0 <= i <= |v|
      invariant buf + PackBits(v[i..]) == count + PackBits(v)
    {
      var end := if |v| - i < 8 then |v| else i + 8;
      var byte := PutBits(v[i..end]);
      ChunkStep(v[i..], end - i);
      assert v[i..][..end - i] == v[i..end] && v[i..][end - i..] == v[end..];
      Assoc(buf, [byte], PackBits(v[end..]));
      buf := buf + [byte];
      i := end;
    }
    Units(buf);
  }

  lemma ChunkStep(v: seq<bool>, n: nat)
    requires v != [] && n == (if |v| < 8 then |v| else 8)
    ensures PackBits(v) == [ByteOf(v[..n])] + PackBits(v[n..])
  {
    assert n == |v| ==> v[..n] == v;
  }

  method PutStrings(v: seq<Str>) returns (buf: bytes)
    ensures buf == PackStrings(v)
  {
    buf := [];
    for i := 0 to |v|
      invariant buf + PackStrings(v[i..]) == PackStrings(v)
    {
      Assoc(buf, v[i] + [0], PackStrings(v[i + 1..]));
      buf := buf + (v[i] + [0]);
      assert v[i..][1..] == v[i + 1..];
    }
    Units(buf);
  }

  method PackArray(a: ArrayValue) returns (b: bytes)
    ensures b == Pack(a)
  {
    match a {
      case Int8Array(v) => b := PutNumbers(1, v);
      case Int16Array(v) => b := PutNumbers(2, v);
      case Int32Array(v) => b := PutNumbers(4, v);
      case Int64Array(v) => b := PutNumbers(8, v);
      case UInt8Array(v) => b := PutNumbers(1, v);
      case UInt16Array(v) => b := PutNumbers(2, v);
      case UInt32Array(v) => b := PutNumbers(4, v);
      case UInt64Array(v) => b := PutNumbers(8, v);
      case FloatArray(v) => b := PutNumbers(4, v);
      case DoubleArray(v) => b := PutNumbers(8, v);
      case DateTimeArray(v) => b := PutNumbers(8, v);
      case BooleanArray(v) => b := PutBooleans(v);
      case StringArray(v) => b := PutStrings(v);
    }
  }

  // ---- Unpacking ----

  method TakeBooleans(d: bytes) returns (r: Result<ArrayValue>)
    ensures r == UnpackBool(d)
  {
    if |d| < 4 { return Err(Truncated); }
    var count := FromLe(d[..4]);
    var bits := d[4..];
    if |bits| < (count + 7) / 8 { return Err(Truncated); }
    var out: seq<bool> := [];
    for i := 0 to count
      invariant |out| == i && out == UnpackBits(bits, count)[..i]
    {
      var bit := TestBit(bits[i / 8], i % 8);
      assert UnpackBits(bits, count)[i] == bit;
      out := out + [bit];
    }
    assert UnpackBits(bits, count)[..count] == UnpackBits(bits, count);
    r := Ok(BooleanArray(out));
  }

  method TakeStrings(d: bytes) returns (r: Result<ArrayValue>)
    ensures r == UnpackStrings(d)
  {
    if d == [] { return Ok(StringArray([])); }
    var segments := SplitNul(d);
    if d[|d| - 1] == 0 { segments := segments[..|segments| - 1]; }
    var out: seq<Str> := [];
    PrependNone(ToStrs(segments));
    assert segments[0..] == segments;
    for i := 0 to |segments|
      invariant ToStrs(segments) == Prepend(out, ToStrs(segments[i..]))
    {
      ToStrsStep(out, segments[i..]);
      assert segments[i..][1..] == segments[i + 1..];
      if !ValidUtf8(segments[i]) { return Err(InvalidUtf8); }
      out := out + [segments[i]];
    }
    Units(out);
    r := Ok(StringArray(out));
  }

  function Prepend(out: seq<Str>, r: Result<seq<Str>>): Result<seq<Str>> {
    match r
    case Ok(rest) => Ok(out + rest)
    case Err(e) => Err(e)
  }

  lemma PrependNone(r: Result<seq<Str>>)
    ensures Prepend([], r) == r
  {
    if r.Ok? { Units(r.value); }
  }

  lemma ToStrsStep(out: seq<Str>, segs: seq<bytes>)
    requires segs != []
    ensures Prepend(out, ToStrs(segs)) ==
      if ValidUtf8(segs[0]) then Prepend(out + [segs[0]], ToStrs(segs[1..])) else Err(InvalidUtf8)
  {
    if ValidUtf8(segs[0]) && ToStrs(segs[1..]).Ok? {
      Assoc(out, [segs[0]], ToStrs(segs[1..]).value);
    }
  }

  method UnpackArray(dt: DataType, d: bytes) returns (r: Result<ArrayValue>)
    ensures r == Unpack(dt, d)
  {
    match dt {
      case BooleanArray => r := TakeBooleans(d);
      case StringArray => r := TakeStrings(d);
      case _ => r := UnpackNumeric(dt, d);
    }
  }
}
