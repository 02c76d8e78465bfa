/** Machine integers, bytes, text and results shared by every module. */
module Base {

  const TWO8: nat := 0x100
  const TWO16: nat := 0x1_0000
  const TWO32: nat := 0x1_0000_0000
  const TWO64: nat := 0x1_0000_0000_0000_0000

  type byte = x: int | 0 <= x < 0x100
  type u16 = x: int | 0 <= x < 0x1_0000
  type u32 = x: int | 0 <= x < 0x1_0000_0000
  type u64 = x: int | 0 <= x < 0x1_0000_0000_0000_0000
  type i8 = x: int | -0x80 <= x < 0x80
  type i16 = x: int | -0x8000 <= x < 0x8000
  type i32 = x: int | -0x8000_0000 <= x < 0x8000_0000
  type i64 = x: int | -0x8000_0000_0000_0000 <= x < 0x8000_0000_0000_0000

  type bytes = seq<byte>

  /** Well-formed UTF-8 byte sequences (RFC 3629, section 4). */
  predicate ValidUtf8(s: bytes)
    decreases |s|
  {
    if |s| == 0 then true
    else if s[0] < 0x80 then ValidUtf8(s[1..])
    else if |s| >= 2 && 0xC2 <= s[0] <= 0xDF && Tail(s[1]) then ValidUtf8(s[2..])
    else if |s| >= 3 && Lead3(s[0], s[1]) && Tail(s[2]) then ValidUtf8(s[3..])
    else if |s| >= 4 && Lead4(s[0], s[1]) && Tail(s[2]) && Tail(s[3]) then ValidUtf8(s[4..])
    else false
  }

  predicate Tail(b: byte) { 0x80 <= b <= 0xBF }

  predicate Lead3(a: byte, b: byte) {
    || (a == 0xE0 && 0xA0 <= b <= 0xBF)
    || ((0xE1 <= a <= 0xEC || 0xEE <= a <= 0xEF) && Tail(b))
    || (a == 0xED && 0x80 <= b <= 0x9F)
  }

  predicate Lead4(a: byte, b: byte) {
    || (a == 0xF0 && 0x90 <= b <= 0xBF)
    || (0xF1 <= a <= 0xF3 && Tail(b))
    || (a == 0xF4 && 0x80 <= b <= 0x8F)
  }

  /** A Rust `String`: bytes whose UTF-8 validity the type guarantees. */
  type Str = s: bytes | ValidUtf8(s) witness []

  datatype Option<+T> = None | Some(value: T)

  /** The error variants of `SparkplugError` (their message strings are not modelled). */
  datatype Error =
    | InvalidTopic
    | InvalidId
    | Truncated
    | VarintOverflow
    | InvalidWireType(wire: nat)
    | InvalidUtf8
    | UnknownDataType(code: u32)
    | MissingDataType
    | ArrayLength(len: nat, width: nat)
    | DataSetShape
    | ValueTypeMismatch
    | RecursionLimit
    | InvalidState
    | Transport

  datatype Result<+T> = Ok(value: T) | Err(error: Error) {
    predicate IsFailure() { Err? }

    function PropagateFailure<U>(): Result<U>
      requires Err?
    {
      Err(error)
    }

    function Extract(): T
      requires Ok?
    {
      value
    }
  }

  /** Bytes as text, when they are valid UTF-8. */
  function ToStr(s: bytes): (r: Result<Str>)
  {
    if ValidUtf8(s) then Ok(s) else Err(InvalidUtf8)
  }

  /** The value, or the mismatch error when there is none. */
  function OrMismatch<T>(o: Option<T>): Result<T> {
    if o.Some? then Ok(o.value) else Err(ValueTypeMismatch)
  }

  /** The later of two when it is there, else the earlier. */
  function Later<T>(earlier: Option<T>, later: Option<T>): Option<T> {
    if later.Some? then later else earlier
  }

  // Two's-complement casts (`as`): to an unsigned width, and back to a signed one.

  function AsU32(x: int): u32 { x % TWO32 }

  function AsU64(x: int): u64 { x % TWO64 }

  function AsI8(x: int): i8 { (x + 0x80) % TWO8 - 0x80 }

  function AsI16(x: int): i16 { (x + 0x8000) % TWO16 - 0x8000 }

  function AsI32(x: int): i32 { (x + 0x8000_0000) % TWO32 - 0x8000_0000 }

  function AsI64(x: int): i64 { (x + 0x8000_0000_0000_0000) % TWO64 - 0x8000_0000_0000_0000 }

  // Sequence facts, kept apart so that proofs about recursive functions need not search for them.

  lemma Assoc<T>(a: seq<T>, b: seq<T>, c: seq<T>)
    ensures (a + b) + c == a + (b + c)
  {
  }

  lemma Assoc4<T>(a: seq<T>, b: seq<T>, c: seq<T>, d: seq<T>)
    ensures ((a + b) + c) + d == a + (b + (c + d))
  {
  }

  lemma Units<T>(a: seq<T>)
    ensures [] + a == a && a + [] == a
  {
  }

  lemma HeadTail<T>(a: seq<T>)
    requires a != []
    ensures a == [a[0]] + a[1..]
  {
  }

  lemma Cut<T>(a: seq<T>, n: nat)
    requires n <= |a|
    ensures a == a[..n] + a[n..]
  {
  }

  function Max(a: nat, b: nat): nat { if a < b then b else a }

  // Fixed-width little-endian numbers.

  function Pow256(w: nat): (p: nat)
    ensures p > 0
  {
    if w == 0 then 1 else 256 * Pow256(w - 1)
  }

  lemma Pow256Values()
    ensures Pow256(1) == TWO8 && Pow256(2) == TWO16 && Pow256(4) == TWO32 && Pow256(8) == TWO64
  {
    assert Pow256(3) == 256 * TWO16 && Pow256(4) == TWO32;
    assert Pow256(5) == 256 * TWO32 && Pow256(6) == TWO16 * TWO32;
    assert Pow256(7) == 256 * TWO16 * TWO32 && Pow256(8) == TWO64;
  }

  function LeBytes(n: nat, w: nat): (b: bytes)
    ensures |b| == w
  {
    if w == 0 then [] else [n % 256] + LeBytes(n / 256, w - 1)
  }

  function FromLe(b: bytes): (n: nat)
    ensures n < Pow256(|b|)
  {
    if |b| == 0 then 0 else b[0] + 256 * FromLe(b[1..])
  }

  lemma {:induction false} FromLeInverts(n: nat, w: nat)
    requires n < Pow256(w)
    ensures FromLe(LeBytes(n, w)) == n
  {
    if w > 0 {
      FromLeInverts(n / 256, w - 1);
      assert LeBytes(n, w)[1..] == LeBytes(n / 256, w - 1);
    }
  }

  lemma {:induction false} LeBytesInverts(b: bytes)
    ensures LeBytes(FromLe(b), |b|) == b
  {
    if |b| > 0 {
      LeBytesInverts(b[1..]);
      var n := FromLe(b);
      assert n % 256 == b[0] && n / 256 == FromLe(b[1..]);
      assert LeBytes(n, |b|) == [b[0]] + b[1..];
    }
  }
}
