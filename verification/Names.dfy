/** Text helpers of the session layer: sorted name lists, splitting, ASCII text and UTF-8 text. */
module Names {
  import opened Base

  // ---- Sorted lists of names ----

  /** Lexicographic order by character. */
  predicate Before(a: string, b: string) {
    if b == [] then false
    else if a == [] then true
    else a[0] < b[0] || (a[0] == b[0] && Before(a[1..], b[1..]))
  }

  lemma {:induction false} BeforeTransitive(a: string, b: string, c: string)
    requires Before(a, b) && Before(b, c)
    ensures Before(a, c)
  {
    if a != [] && a[0] == b[0] && b[0] == c[0] { BeforeTransitive(a[1..], b[1..], c[1..]); }
  }

  lemma {:induction false} BeforeTotal(a: string, b: string)
    ensures a == b || Before(a, b) || Before(b, a)
    ensures !(Before(a, b) && Before(b, a)) && !Before(a, a)
  {
    if a != [] && b != [] {
      HeadTail(a);
      HeadTail(b);
      if a[0] == b[0] { BeforeTotal(a[1..], b[1..]); }
      BeforeTotal(a[1..], a[1..]);
    } else if a != [] {
      BeforeTotal(a[1..], a[1..]);
    }
  }

  ghost predicate Ascending(s: seq<string>) {
    forall i, j :: 0 <= i < j < |s| ==> Before(s[i], s[j])
  }

  /** `s` lists the names of the set, each once, in order. */
  ghost predicate Lists(s: seq<string>, names: set<string>) {
    Ascending(s) && forall n :: n in s <==> n in names
  }

  /** There is only one such list. */
  lemma {:induction false} ListingUnique(s: seq<string>, t: seq<string>, names: set<string>)
    requires Lists(s, names) && Lists(t, names)
    ensures s == t
  {
    assert s != [] ==> s[0] in names && s[0] in t;
    assert t != [] ==> t[0] in names && t[0] in s;
    if s != [] {
      FirstIsLeast(s, t[0]);
      FirstIsLeast(t, s[0]);
      BeforeTotal(s[0], t[0]);
      TailLists(s, names);
      TailLists(t, names);
      ListingUnique(s[1..], t[1..], names - {s[0]});
      HeadTail(s);
      HeadTail(t);
    }
  }

  lemma FirstIsLeast(s: seq<string>, n: string)
    requires s != [] && Ascending(s) && (n in s || n == s[0])
    ensures n == s[0] || Before(s[0], n)
  {
  }

  lemma TailLists(s: seq<string>, names: set<string>)
    requires s != [] && Lists(s, names)
    ensures Lists(s[1..], names - {s[0]})
  {
    forall n ensures n in s[1..] <==> n in names - {s[0]} {
      HeadTail(s);
      if n in s[1..] {
        var i :| 0 <= i < |s| - 1 && s[1..][i] == n;
        assert Before(s[0], s[i + 1]);
        BeforeTotal(s[0], n);
      }
    }
  }

  lemma InsertLists(s: seq<string>, names: set<string>, n: string, i: nat)
    requires Lists(s, names) && n !in names && i <= |s|
    requires forall k :: 0 <= k < i ==> Before(s[k], n)
    requires i < |s| ==> !Before(s[i], n)
    ensures Lists(s[..i] + [n] + s[i..], names + {n})
  {
    var t := s[..i] + [n] + s[i..];
    forall k | i <= k < |s| ensures Before(n, s[k]) {
      BeforeTotal(s[i], n);
      assert s[i] in s;
      if k > i { BeforeTransitive(n, s[i], s[k]); }
    }
    assert Ascending(t);
    forall m ensures m in t <==> m in names + {n} {
      Cut(s, i);
      assert m in s <==> m in s[..i] || m in s[i..];
    }
  }

  /** Where `n` belongs in the list: after every name before it. */
  function Position(s: seq<string>, n: string): (i: nat)
    ensures i <= |s|
    ensures forall k :: 0 <= k < i ==> Before(s[k], n)
    ensures i < |s| ==> !Before(s[i], n)
  {
    if s != [] && Before(s[0], n) then 1 + Position(s[1..], n) else 0
  }

  /** The names of the set, each once, in order. */
  ghost function Listing(names: set<string>): (s: seq<string>)
    ensures Lists(s, names)
  {
    if names == {} then []
    else
      var n :| n in names;
      var rest := Listing(names - {n});
      var i := Position(rest, n);
      InsertLists(rest, names - {n}, n, i);
      assert names - {n} + {n} == names;
      rest[..i] + [n] + rest[i..]
  }

  /** Collecting names in any order and sorting them. */
  method SortNames(names: set<string>) returns (s: seq<string>)
    ensures s == Listing(names)
  {
    s := [];
    var rest := names;
    while rest != {}
      invariant rest <= names && Lists(s, names - rest)
      decreases rest
    {
      var n :| n in rest;
      assert n !in s;
      var i := 0;
      while i < |s| && Before(s[i], n)
        invariant 0 <= i <= |s| && forall k :: 0 <= k < i ==> Before(s[k], n)
      {
        i := i + 1;
      }
      InsertLists(s, names - rest, n, i);
      assert names - rest + {n} == names - (rest - {n});
      s := s[..i] + [n] + s[i..];
      rest := rest - {n};
    }
    assert names - {} == names;
    ListingUnique(s, Listing(names), names);
  }

  // ---- Splitting at a character ----

  /** The parts between separators: one more than there are separators. */
  function Split(s: string, c: char): (parts: seq<string>)
    ensures parts != []
  {
    if s == [] then [[]]
    else
      var rest := Split(s[1..], c);
      if s[0] == c then [[]] + rest else [[s[0]] + rest[0]] + rest[1..]
  }

  lemma {:induction false} SplitPlain(s: string, c: char)
    requires c !in s
    ensures Split(s, c) == [s]
  {
    if s != [] {
      HeadTail(s);
      assert s[0] in s;
      SplitPlain(s[1..], c);
    }
  }

  lemma {:induction false} SplitAt(s: string, rest: string, c: char)
    requires c !in s
    ensures Split(s + [c] + rest, c) == [s] + Split(rest, c)
  {
    var b := s + [c] + rest;
    if s == [] {
      assert b[1..] == rest;
    } else {
      assert b[1..] == s[1..] + [c] + rest;
      SplitAt(s[1..], rest, c);
      HeadTail(s);
      assert b[0] == s[0];
    }
  }

  // ---- ASCII and UTF-8 text ----

  predicate Ascii(s: string) { forall c <- s :: c as int < 0x80 }

  function AsciiBytes(s: string): (b: bytes)
    requires Ascii(s)
    ensures |b| == |s| && forall x <- b :: x < 0x80
  {
    if s == [] then []
    else
      assert s[0] in s && forall c <- s[1..] :: c in s;
      [s[0] as int] + AsciiBytes(s[1..])
  }

  lemma {:induction false} AsciiValid(b: bytes)
    requires forall x <- b :: x < 0x80
    ensures ValidUtf8(b)
    decreases |b|
  {
    if b != [] {
      assert b[0] in b;
      assert forall x <- b[1..] :: x in b;
      AsciiValid(b[1..]);
    }
  }

  function AsciiStr(s: string): (b: Str)
    requires Ascii(s)
    ensures b == AsciiBytes(s)
  {
    AsciiValid(AsciiBytes(s));
    AsciiBytes(s)
  }

  /** Valid UTF-8 bytes as characters. */
  function Utf8Chars(s: bytes): string
    requires ValidUtf8(s)
    decreases |s|
  {
    if |s| == 0 then []
    else
      var a: int := s[0];
      if a < 0x80 then [a as char] + Utf8Chars(s[1..])
      else
        var b: int := s[1];
        if a <= 0xDF then [((a - 0xC0) * 0x40 + (b - 0x80)) as char] + Utf8Chars(s[2..])
        else
          var c: int := s[2];
          if a <= 0xEF then [((a - 0xE0) * 0x1000 + (b - 0x80) * 0x40 + (c - 0x80)) as char] + Utf8Chars(s[3..])
          else
            var d: int := s[3];
            [((a - 0xF0) * 0x4_0000 + (b - 0x80) * 0x1000 + (c - 0x80) * 0x40 + (d - 0x80)) as char] + Utf8Chars(s[4..])
  }

  lemma {:induction false} AsciiChars(s: string)
    requires Ascii(s)
    ensures Utf8Chars(AsciiStr(s)) == s
  {
    AsciiValid(AsciiBytes(s));
    if s != [] {
      assert s[0] in s && forall c <- s[1..] :: c in s;
      assert AsciiBytes(s)[1..] == AsciiBytes(s[1..]);
      AsciiChars(s[1..]);
      HeadTail(s);
    }
  }
}
