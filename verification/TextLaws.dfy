/** What arbitrary text reads as: STATE payloads, numbers, UTF-8 and the order of names (src/state.rs:48-95). */
module TextLaws {
  import opened Base
  import opened Names
  import opened HostState

  // ---- Numbers ----

  /** The value of decimal digits, by the last one. */
  function NumberOf(s: string): nat
    requires AllDigits(s)
    decreases |s|
  {
    if s == [] then 0
    else
      var init, d := s[..|s| - 1], s[|s| - 1];
      assert AllDigits(init) by { assert forall c <- init :: c in s; }
      assert d in s;
      10 * NumberOf(init) + (d as int - '0' as int)
  }

  lemma {:induction false} DigitsMean(s: string)
    requires AllDigits(s)
    ensures Digits(s, 0) == Some(NumberOf(s))
    decreases |s|
  {
    if s != [] {
      var init, c := s[..|s| - 1], s[|s| - 1];
      assert c in s && forall x <- init :: x in s;
      var d: nat := c as int - '0' as int;
      assert Digit(d) == c && s == init + [Digit(d)];
      DigitsMean(init);
      DigitsAppend(init, d, 0);
    }
  }

  lemma {:induction false} OnlyDigits(s: string, acc: nat)
    ensures Digits(s, acc).Some? <==> AllDigits(s)
  {
    if s != [] {
      OnlyDigits(s[1..], 10 * acc + (if '0' <= s[0] <= '9' then s[0] as int - '0' as int else 0));
      assert s[0] in s && forall c <- s[1..] :: c in s;
      HeadTail(s);
    }
  }

  /** What follows the sign. */
  function Unsigned(s: string): string { if s != [] && (s[0] == '-' || s[0] == '+') then s[1..] else s }

  /** A text is a number exactly when it is an optional sign and digits, at least one, whose value fits 64 bits. */
  lemma IntMeans(s: string, v: i64)
    ensures ParseInt(s) == Some(v) <==>
      && Unsigned(s) != [] && AllDigits(Unsigned(s))
      && v == if s[0] == '-' then -(NumberOf(Unsigned(s)) as int) else NumberOf(Unsigned(s))
  {
    var d := Unsigned(s);
    OnlyDigits(d, 0);
    if AllDigits(d) { DigitsMean(d); }
  }

  // ---- STATE payloads ----

  function KeyOf(part: string): Option<string> {
    if SplitOnce(part).Some? then Some(Unquote(Trim(SplitOnce(part).value.0))) else None
  }

  function ValueOf(part: string): string { if SplitOnce(part).Some? then Trim(SplitOnce(part).value.1) else "" }

  /** Blank, or a key and a value; the value of a known key must suit it. */
  predicate GoodPart(part: string) {
    || Blank(part)
    || (KeyOf(part).Some?
        && (KeyOf(part).value == "online" ==> ValueOf(part) in {"true", "false"})
        && (KeyOf(part).value == "timestamp" ==> ParseInt(ValueOf(part)).Some?))
  }

  /** The value of the last part with that key. */
  function LastValue(parts: seq<string>, key: string): Option<string>
    decreases |parts|
  {
    if parts == [] then None
    else
      var last := parts[|parts| - 1];
      if !Blank(last) && KeyOf(last) == Some(key) then Some(ValueOf(last)) else LastValue(parts[..|parts| - 1], key)
  }

  lemma {:induction false} BlankTrims(s: string)
    ensures Trim(s) == [] <==> Blank(s)
    decreases |s|
  {
    if s != [] {
      HeadTail(s);
      if IsSpace(s[0]) {
        BlankTrims(s[1..]);
        assert forall c <- s[1..] :: c in s;
        assert forall c <- s :: c == s[0] || c in s[1..];
      } else {
        assert s[0] in s;
        StopsAtSolid(s);
      }
    }
  }

  lemma {:induction false} StopsAtSolid(s: string)
    requires s != [] && !IsSpace(s[0])
    ensures TrimEnd(s) != []
    decreases |s|
  {
    if IsSpace(s[|s| - 1]) { StopsAtSolid(s[..|s| - 1]); }
  }

  lemma FieldMeans(found: Found, part: string)
    ensures Field(found, part).Ok? <==> GoodPart(part)
    ensures Field(found, part).Err? ==> Field(found, part).error == InvalidState
    ensures GoodPart(part) ==>
      var next := Field(found, part).value;
      if !Blank(part) && KeyOf(part) == Some("online") then next == found.(online := Some(ValueOf(part) == "true"))
      else if !Blank(part) && KeyOf(part) == Some("timestamp") then
        next == found.(timestamp := ParseInt(ValueOf(part)))
      else next == found
  {
    hide Trim, SplitOnce, Unquote, ParseInt, Blank;
    BlankTrims(part);
  }

  lemma {:induction false} FieldsAppend(found: Found, parts: seq<string>, last: string)
    ensures Fields(found, parts + [last]) ==
      if Fields(found, parts).Err? then Fields(found, parts) else Field(Fields(found, parts).value, last)
    decreases |parts|
  {
    hide Field;
    if parts == [] {
      assert [] + [last] == [last] && [last][1..] == [];
      OneField(found, last);
    } else {
      assert (parts + [last])[1..] == parts[1..] + [last];
      if Field(found, parts[0]).Ok? { FieldsAppend(Field(found, parts[0]).value, parts[1..], last); }
    }
  }

  lemma OneField(found: Found, last: string)
    ensures Fields(found, [last]) == Field(found, last)
  {
    hide Field;
    assert [last][1..] == [];
    if Field(found, last).Ok? { assert Fields(Field(found, last).value, []) == Ok(Field(found, last).value); }
  }

  lemma {:induction false} FieldsMean(parts: seq<string>)
    ensures var r := Fields(Found(None, None), parts);
      && (r.Ok? <==> forall p <- parts :: GoodPart(p))
      && (r.Err? ==> r.error == InvalidState)
      && (r.Ok? ==>
           && r.value.online ==
                (if LastValue(parts, "online").Some? then Some(LastValue(parts, "online").value == "true") else None)
           && r.value.timestamp ==
                (if LastValue(parts, "timestamp").Some? then ParseInt(LastValue(parts, "timestamp").value) else None))
      && (r.Ok? && LastValue(parts, "online").Some? ==> LastValue(parts, "online").value in {"true", "false"})
      && (r.Ok? && LastValue(parts, "timestamp").Some? ==> ParseInt(LastValue(parts, "timestamp").value).Some?)
    decreases |parts|
  {
    hide Field, GoodPart, Blank, KeyOf, ValueOf, ParseInt;
    if parts != [] {
      var init, last := parts[..|parts| - 1], parts[|parts| - 1];
      assert parts == init + [last];
      FieldsMean(init);
      FieldsAppend(Found(None, None), init, last);
      var r := Fields(Found(None, None), init);
      assert (forall p <- parts :: GoodPart(p)) <==> (forall p <- init :: GoodPart(p)) && GoodPart(last) by {
        assert forall p <- parts :: p in init || p == last;
        assert forall p <- init :: p in parts;
        assert last in parts;
      }
      if r.Ok? {
        FieldMeans(r.value, last);
        if GoodPart(last) && !Blank(last) && KeyOf(last).Some? { GoodValues(last); }
      }
    }
  }

  lemma GoodValues(part: string)
    requires GoodPart(part) && !Blank(part) && KeyOf(part).Some?
    ensures KeyOf(part).value == "online" ==> ValueOf(part) in {"true", "false"}
    ensures KeyOf(part).value == "timestamp" ==> ParseInt(ValueOf(part)).Some?
  {
    hide Blank, KeyOf, ValueOf, ParseInt;
  }

  /**
   A text is a STATE exactly when, trimmed, it stands in braces, every part between commas is blank or a key and a
   value that suits the key, and both keys are there; the last value of each counts. Every failure is the same error.
   */
  lemma StateMeans(json: string, s: StatePayload)
    ensures var t := Trim(json);
      var parts := if |t| >= 2 then Split(t[1..|t| - 1], ',') else [];
      ParseState(json) == Ok(s) <==>
        && |t| >= 2 && t[0] == '{' && t[|t| - 1] == '}' && (forall p <- parts :: GoodPart(p))
        && LastValue(parts, "online") == Some(if s.online then "true" else "false")
        && LastValue(parts, "timestamp").Some? && ParseInt(LastValue(parts, "timestamp").value) == Some(s.timestamp)
    ensures ParseState(json).Err? ==> ParseState(json).error == InvalidState
  {
    hide Fields, GoodPart, Trim, Names.Split, LastValue, ParseInt;
    var t := Trim(json);
    if |t| >= 2 { FieldsMean(Split(t[1..|t| - 1], ',')); }
  }

  // ---- Order of names ----

  /** One name comes before another where they first differ, or when it ends there. */
  lemma {:induction false} BeforeMeans(a: string, b: string)
    ensures Before(a, b) <==>
      exists i :: 0 <= i <= |a| && i < |b| && a[..i] == b[..i] && (i == |a| || a[i] < b[i])
  {
    if b != [] {
      if a == [] {
        assert a[..0] == b[..0];
      } else {
        BeforeMeans(a[1..], b[1..]);
        if Before(a, b) {
          if a[0] < b[0] {
            assert a[..0] == b[..0];
          } else {
            var c, d := a[1..], b[1..];
            var i :| 0 <= i <= |c| && i < |d| && c[..i] == d[..i] && (i == |c| || c[i] < d[i]);
            assert a[..i + 1] == [a[0]] + a[1..][..i] && b[..i + 1] == [b[0]] + b[1..][..i];
          }
        }
        if j :| 0 <= j <= |a| && j < |b| && a[..j] == b[..j] && (j == |a| || a[j] < b[j]) {
          if j > 0 {
            assert a[0] == a[..j][0] == b[..j][0] == b[0];
            assert a[1..][..j - 1] == a[..j][1..] && b[1..][..j - 1] == b[..j][1..];
          }
        }
      }
    }
  }

  // ---- UTF-8 ----

  /** The bytes of a character (RFC 3629, section 3). */
  function CharBytes(c: char): bytes {
    var n := c as int;
    if n < 0x80 then [n]
    else if n < 0x800 then [0xC0 + n / 0x40, 0x80 + n % 0x40]
    else if n < 0x1_0000 then [0xE0 + n / 0x1000, 0x80 + n / 0x40 % 0x40, 0x80 + n % 0x40]
    else [0xF0 + n / 0x4_0000, 0x80 + n / 0x1000 % 0x40, 0x80 + n / 0x40 % 0x40, 0x80 + n % 0x40]
  }

  function TextBytes(s: string): bytes { if s == [] then [] else CharBytes(s[0]) + TextBytes(s[1..]) }

  lemma OneByte(a: byte, c: char)
    requires a < 0x80
    ensures c as int == a <==> CharBytes(c) == [a]
  {
  }

  lemma TwoBytes(a: byte, b: byte, c: char)
    requires 0xC2 <= a <= 0xDF && Tail(b)
    ensures c as int == (a - 0xC0) * 0x40 + (b - 0x80) <==> CharBytes(c) == [a, b]
  {
  }

  lemma ThreeBytes(a: byte, b: byte, d: byte, c: char)
    requires Lead3(a, b) && Tail(d)
    ensures c as int == (a - 0xE0) * 0x1000 + (b - 0x80) * 0x40 + (d - 0x80) <==> CharBytes(c) == [a, b, d]
  {
  }

  lemma Sextets(n: nat, x: nat, y: nat, z: nat, w: nat)
    requires y < 0x40 && z < 0x40 && w < 0x40
    ensures n == x * 0x4_0000 + y * 0x1000 + z * 0x40 + w <==>
      n / 0x4_0000 == x && n / 0x1000 % 0x40 == y && n / 0x40 % 0x40 == z && n % 0x40 == w
  {
    var a := n / 0x40;
    var b := a / 0x40;
    assert n / 0x1000 == b && n / 0x4_0000 == b / 0x40;
  }

  lemma FourBytes(a: byte, b: byte, d: byte, e: byte, c: char)
    requires Lead4(a, b) && Tail(d) && Tail(e)
    ensures c as int == (a - 0xF0) * 0x4_0000 + (b - 0x80) * 0x1000 + (d - 0x80) * 0x40 + (e - 0x80) <==>
      CharBytes(c) == [a, b, d, e]
  {
    Sextets(c as int, a - 0xF0, b - 0x80, d - 0x80, e - 0x80);
  }

  /** The first `n` bytes of the text are its first character. */
  predicate Opens(b: bytes, n: nat) {
    hide CharBytes;
    && n <= |b| && ValidUtf8(b) && ValidUtf8(b[n..])
    && Utf8Chars(b) != [] && Utf8Chars(b)[1..] == Utf8Chars(b[n..]) && CharBytes(Utf8Chars(b)[0]) == b[..n]
  }

  lemma OpensOne(b: bytes)
    requires b != [] && ValidUtf8(b) && b[0] < 0x80
    ensures Opens(b, 1)
  {
    hide CharBytes;
    OneByte(b[0], Utf8Chars(b)[0]);
  }

  lemma OpensTwo(b: bytes)
    requires b != [] && ValidUtf8(b) && 0x80 <= b[0] <= 0xDF
    ensures Opens(b, 2)
  {
    hide CharBytes;
    TwoBytes(b[0], b[1], Utf8Chars(b)[0]);
  }

  lemma OpensThree(b: bytes)
    requires b != [] && ValidUtf8(b) && 0xE0 <= b[0] <= 0xEF
    ensures Opens(b, 3)
  {
    hide CharBytes;
    ThreeBytes(b[0], b[1], b[2], Utf8Chars(b)[0]);
  }

  lemma OpensFour(b: bytes)
    requires b != [] && ValidUtf8(b) && 0xF0 <= b[0]
    ensures Opens(b, 4)
  {
    hide CharBytes;
    FourBytes(b[0], b[1], b[2], b[3], Utf8Chars(b)[0]);
  }

  /** The bytes that count as text are those of characters, and the characters are read back from them. */
  lemma {:induction false} Utf8Means(b: bytes)
    requires ValidUtf8(b)
    ensures TextBytes(Utf8Chars(b)) == b
    decreases |b|
  {
    hide CharBytes;
    if b != [] {
      var n := if b[0] < 0x80 then 1 else if b[0] <= 0xDF then 2 else if b[0] <= 0xEF then 3 else 4;
      if b[0] < 0x80 {
        OpensOne(b);
      } else if b[0] <= 0xDF {
        OpensTwo(b);
      } else if b[0] <= 0xEF {
        OpensThree(b);
      } else {
        OpensFour(b);
      }
      Utf8Means(b[n..]);
      Cut(b, n);
    }
  }

  // ---- And back ----

  /** Bytes that are valid after a character's are valid with them, and the character comes first. */
  lemma CharFirst(c: char, rest: bytes)
    requires ValidUtf8(rest)
    ensures ValidUtf8(CharBytes(c) + rest) && Utf8Chars(CharBytes(c) + rest) == [c] + Utf8Chars(rest)
  {
    var b := CharBytes(c) + rest;
    var n := c as int;
    assert b[|CharBytes(c)|..] == rest;
    if n < 0x80 {
    } else if n < 0x800 {
      FirstTwo(c, b, rest);
    } else if n < 0x1_0000 {
      FirstThree(c, b, rest);
    } else {
      FirstFour(c, b, rest);
    }
  }

  lemma FirstTwo(c: char, b: bytes, rest: bytes)
    requires 0x80 <= c as int < 0x800 && |b| >= 2 && b[..2] == CharBytes(c) && b[2..] == rest && ValidUtf8(rest)
    ensures ValidUtf8(b) && Utf8Chars(b) == [c] + Utf8Chars(rest)
  {
    assert b[0] == b[..2][0] && b[1] == b[..2][1];
  }

  lemma FirstThree(c: char, b: bytes, rest: bytes)
    requires 0x800 <= c as int < 0x1_0000 && |b| >= 3 && b[..3] == CharBytes(c) && b[3..] == rest && ValidUtf8(rest)
    ensures ValidUtf8(b) && Utf8Chars(b) == [c] + Utf8Chars(rest)
  {
    assert b[0] == b[..3][0] && b[1] == b[..3][1] && b[2] == b[..3][2];
  }

  lemma FirstFour(c: char, b: bytes, rest: bytes)
    requires 0x1_0000 <= c as int && |b| >= 4 && b[..4] == CharBytes(c) && b[4..] == rest && ValidUtf8(rest)
    ensures ValidUtf8(b) && Utf8Chars(b) == [c] + Utf8Chars(rest)
  {
    assert b[0] == b[..4][0] && b[1] == b[..4][1] && b[2] == b[..4][2] && b[3] == b[..4][3];
    Sextets(c as int, b[0] - 0xF0, b[1] - 0x80, b[2] - 0x80, b[3] - 0x80);
  }

  /** The bytes of any text are valid and read back. */
  lemma {:induction false} Utf8Back(s: string)
    ensures ValidUtf8(TextBytes(s)) && Utf8Chars(TextBytes(s)) == s
  {
    hide CharBytes;
    if s != [] {
      Utf8Back(s[1..]);
      CharFirst(s[0], TextBytes(s[1..]));
      HeadTail(s);
    }
  }
}
