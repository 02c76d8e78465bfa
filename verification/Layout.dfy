/**
 The byte layout of packed arrays, element by element: little-endian numbers, booleans from the top bit after a
 32-bit count, strings each closed by a NUL (src/codec/arrays.rs; section 6.4.17 of Sparkplug 3.0.0).
 */
module Layout {
  import opened Base
  import opened Model
  import opened Arrays

  // ---- Numbers ----

  /** The base-256 digit of weight 256^k. */
  function Digit256(n: nat, k: nat): byte { if k == 0 then n % 256 else Digit256(n / 256, k - 1) }

  lemma {:induction false} LeDigit(n: nat, w: nat, k: nat)
    requires k < w
    ensures LeBytes(n, w)[k] == Digit256(n, k)
    decreases w
  {
    if k > 0 { LeDigit(n / 256, w - 1, k - 1); }
  }

  /** Element `i` stands in the bytes from `w * i` on, lowest digit first, modulo 256^w. */
  lemma {:induction false} NumberAt(w: nat, xs: seq<int>, i: nat, k: nat)
    requires w in {1, 2, 4, 8} && i < |xs| && k < w
    ensures |PackNumbers(w, xs)| == w * |xs| && 0 <= w * i + k < w * |xs|
    ensures PackNumbers(w, xs)[w * i + k] == Digit256(xs[i] % Pow256(w), k)
    decreases i
  {
    hide Digit256, Base.Pow256;
    assert w == 1 || w == 2 || w == 4 || w == 8;
    PackLength(w, xs);
    LeDigit(xs[i] % Pow256(w), w, k);
    if i > 0 {
      NumberAt(w, xs[1..], i - 1, k);
      assert w * (i - 1) + k == w * i + k - w;
    }
  }

  // ---- Booleans ----

  /** Bit `i` of a byte, the most significant first. */
  predicate TopBit(b: byte, i: nat)
    requires i < 8
  {
    b / [128, 64, 32, 16, 8, 4, 2, 1][i] % 2 == 1
  }

  lemma TopBits(b: byte, i: nat)
    requires i < 8
    ensures TestBit(b, i) <==> TopBit(b, i)
  {
    Pow2Small();
    assert i == 0 || i == 1 || i == 2 || i == 3 || i == 4 || i == 5 || i == 6 || i == 7;
  }

  /** The count in front, lowest byte first. */
  function Count(d: bytes): nat
    requires |d| >= 4
  {
    var a: nat, b: nat, c: nat, e: nat := d[0], d[1], d[2], d[3];
    a + 0x100 * b + 0x1_0000 * c + 0x100_0000 * e
  }

  lemma CountRead(d: bytes)
    requires |d| >= 4
    ensures FromLe(d[..4]) == Count(d)
  {
    var b := d[..4];
    assert b[1..] == d[1..4] && d[1..4][1..] == d[2..4] && d[2..4][1..] == d[3..4] && d[3..4][1..] == [];
    assert FromLe(d[3..4]) == d[3] as nat;
    assert FromLe(d[2..4]) == d[2] as nat + 256 * FromLe(d[3..4]);
    assert FromLe(d[1..4]) == d[1] as nat + 256 * FromLe(d[2..4]);
  }

  /**
   Bytes are a boolean array exactly when they hold the bits they count, each value being its bit from the top;
   whatever follows the last bit is ignored.
   */
  lemma BooleansMean(d: bytes, v: seq<bool>)
    ensures Unpack(DataType.BooleanArray, d) == Ok(ArrayValue.BooleanArray(v)) <==>
      && |d| >= 4 && |v| == Count(d) && 4 + (|v| + 7) / 8 <= |d|
      && forall i :: 0 <= i < |v| ==> (v[i] <==> TopBit(d[4 + i / 8], i % 8))
    ensures Unpack(DataType.BooleanArray, d).Err? ==> Unpack(DataType.BooleanArray, d).error == Truncated
  {
    hide TestBit, TopBit, Count, Base.FromLe;
    if |d| >= 4 {
      CountRead(d);
      var n := Count(d);
      if 4 + (n + 7) / 8 <= |d| {
        var got := UnpackBits(d[4..], n);
        forall i | 0 <= i < n ensures got[i] <==> TopBit(d[4 + i / 8], i % 8) { TopBits(d[4 + i / 8], i % 8); }
        if |v| == n && (forall i :: 0 <= i < |v| ==> (v[i] <==> TopBit(d[4 + i / 8], i % 8))) { assert v == got; }
      }
    }
  }

  // ---- Strings ----

  /** The strings one after the other, each closed by a NUL. */
  function Closed(ss: seq<bytes>): bytes {
    if ss == [] then [] else ss[0] + [0] + Closed(ss[1..])
  }

  lemma {:induction false} ClosedPacks(ss: seq<bytes>)
    ensures PackStrings(ss) == Closed(ss)
  {
    if ss != [] { ClosedPacks(ss[1..]); }
  }

  /**
   Bytes are a string array exactly when closing each of its strings, none of which holds a NUL, gives those bytes,
   or gives them with the last NUL put in.
   */
  lemma StringsMean(d: bytes, ss: seq<Str>)
    ensures Unpack(DataType.StringArray, d) == Ok(ArrayValue.StringArray(ss)) <==>
      && (forall s <- ss :: 0 !in s)
      && Closed(ss) == if d == [] || d[|d| - 1] == 0 then d else d + [0]
    ensures Unpack(DataType.StringArray, d).Err? ==> Unpack(DataType.StringArray, d).error == InvalidUtf8
  {
    hide PackStrings, SplitNul, Base.ValidUtf8;
    ClosedPacks(ss);
    PackOfSegments(d);
    if (forall s <- ss :: 0 !in s) && Closed(ss) == (if d == [] || d[|d| - 1] == 0 then d else d + [0]) {
      Reopened(d, ss);
      ToStrsValid(ss);
    }
    OnlyUtf8(Segments(d));
  }

  lemma {:induction false} OnlyUtf8(segs: seq<bytes>)
    ensures ToStrs(segs).Err? ==> ToStrs(segs).error == InvalidUtf8
  {
    hide Base.ValidUtf8;
    if segs != [] { OnlyUtf8(segs[1..]); }
  }

  lemma Reopened(d: bytes, ss: seq<bytes>)
    requires forall s <- ss :: 0 !in s
    requires PackStrings(ss) == if d == [] || d[|d| - 1] == 0 then d else d + [0]
    ensures Segments(d) == ss
  {
    hide PackStrings, SplitNul;
    SplitOfPack(ss);
    if d == [] {
      if ss != [] { assert false; }
    } else if d[|d| - 1] == 0 {
      assert (ss + [[]])[..|ss|] == ss;
    } else {
      SplitTerminated(d);
      assert (ss + [[]])[..|ss|] == ss && (SplitNul(d) + [[]])[..|SplitNul(d)|] == SplitNul(d);
    }
  }

  // ---- Any numeric array ----

  /** Bytes are a numeric array exactly when they are whole elements and packing the array gives them back. */
  lemma NumbersMean(a: ArrayValue, d: bytes)
    requires a.Type().ElementWidth().Some?
    ensures Unpack(a.Type(), d) == Ok(a) <==> Pack(a) == d
    ensures Unpack(a.Type(), d).Err? <==> |d| % a.Type().ElementWidth().value != 0
    ensures Unpack(a.Type(), d).Err? ==>
      Unpack(a.Type(), d).error == ArrayLength(|d|, a.Type().ElementWidth().value)
  {
    hide PackNumbers, UnpackNumbers;
    ArrayRoundTrip(a);
    if Unpack(a.Type(), d).Ok? { PackAfterUnpack(a.Type(), d); }
  }
}
