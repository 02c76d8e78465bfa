/** Host Application STATE payloads (src/state.rs). */
module HostState {
  import opened Base
  import opened Names

  datatype StatePayload = StatePayload(online: bool, timestamp: i64)

  // ---- Writing ----

  function Digit(d: nat): char
    requires d < 10
  {
    '0' + d as char
  }

  /** Decimal digits, without leading zeros. */
  function Decimal(n: nat): (s: string)
    ensures s != []
  {
    if n < 10 then [Digit(n)] else Decimal(n / 10) + [Digit(n % 10)]
  }

  function ShowInt(v: int): string {
    if v < 0 then "-" + Decimal(-v) else Decimal(v)
  }

  function ShowBool(b: bool): string { if b then "true" else "false" }

  function ToJson(s: StatePayload): string {
    "{\"online\":" + ShowBool(s.online) + ",\"timestamp\":" + ShowInt(s.timestamp) + "}"
  }

  // ---- Reading ----

  /** `char::is_whitespace`: the Unicode White_Space property. */
  predicate IsSpace(c: char) {
    || '\t' <= c <= '\r' || c == ' ' || c == '\U{85}' || c == '\U{A0}' || c == '\U{1680}'
    || '\U{2000}' <= c <= '\U{200A}' || c == '\U{2028}' || c == '\U{2029}' || c == '\U{202F}'
    || c == '\U{205F}' || c == '\U{3000}'
  }

  function TrimStart(s: string): string {
    if s != [] && IsSpace(s[0]) then TrimStart(s[1..]) else s
  }

  function TrimEnd(s: string): string {
    if s != [] && IsSpace(s[|s| - 1]) then TrimEnd(s[..|s| - 1]) else s
  }

  function Trim(s: string): string { TrimEnd(TrimStart(s)) }

  /** Without the quotes at either end. */
  function Unquote(s: string): string {
    if s != [] && s[0] == '\"' then Unquote(s[1..])
    else if s != [] && s[|s| - 1] == '\"' then Unquote(s[..|s| - 1])
    else s
  }

  /** What stands before and after the first colon. */
  function SplitOnce(s: string): (r: Option<(string, string)>)
  {
    if s == [] then None
    else if s[0] == ':' then Some(([], s[1..]))
    else
      match SplitOnce(s[1..])
      case None => None
      case Some((k, v)) => Some(([s[0]] + k, v))
  }

  function Digits(s: string, acc: nat): Option<nat> {
    if s == [] then Some(acc)
    else if '0' <= s[0] <= '9' then Digits(s[1..], 10 * acc + (s[0] as int - '0' as int))
    else None
  }

  /** `str::parse::<i64>`: an optional sign, at least one digit, and the value in range. */
  function ParseInt(s: string): Option<i64> {
    var negative := s != [] && s[0] == '-';
    var digits := if s != [] && (s[0] == '-' || s[0] == '+') then s[1..] else s;
    if digits == [] then None
    else
      match Digits(digits, 0)
      case None => None
      case Some(n) =>
        var v := if negative then -(n as int) else n as int;
        if -0x8000_0000_0000_0000 <= v < 0x8000_0000_0000_0000 then Some(v) else None
  }

  datatype Found = Found(online: Option<bool>, timestamp: Option<i64>)

  /** One `key:value` field; blank fields are passed over and unknown keys ignored. */
  function Field(found: Found, field: string): Result<Found> {
    if Trim(field) == [] then Ok(found)
    else
      match SplitOnce(field)
      case None => Err(InvalidState)
      case Some((k, v)) =>
        var key, value := Unquote(Trim(k)), Trim(v);
        if key == "online" then
          if value == "true" then Ok(found.(online := Some(true)))
          else if value == "false" then Ok(found.(online := Some(false)))
          else Err(InvalidState)
        else if key == "timestamp" then
          var n := ParseInt(value);
          if n.Some? then Ok(found.(timestamp := n)) else Err(InvalidState)
        else Ok(found)
  }

  function Fields(found: Found, fields: seq<string>): Result<Found>
    decreases |fields|
  {
    if fields == [] then Ok(found)
    else
      match Field(found, fields[0])
      case Err(e) => Err(e)
      case Ok(next) => Fields(next, fields[1..])
  }

  function ParseState(json: string): Result<StatePayload> {
    var t := Trim(json);
    if |t| < 2 || t[0] != '{' || t[|t| - 1] != '}' then Err(InvalidState)
    else Finish(Fields(Found(None, None), Split(t[1..|t| - 1], ',')))
  }

  function Finish(r: Result<Found>): Result<StatePayload> {
    match r
    case Err(e) => Err(e)
    case Ok(f) =>
      if f.online.Some? && f.timestamp.Some? then Ok(StatePayload(f.online.value, f.timestamp.value))
      else Err(InvalidState)
  }

  /** The loop over the fields, updating `online` and `timestamp`. */
  method Parse(json: string) returns (r: Result<StatePayload>)
    ensures r == ParseState(json)
  {
    var t := Trim(json);
    if |t| < 2 || t[0] != '{' || t[|t| - 1] != '}' { return Err(InvalidState); }
    var fields := Split(t[1..|t| - 1], ',');
    var online: Option<bool>, timestamp: Option<i64> := None, None;
    assert fields[0..] == fields;
    for i := 0 to |fields|
      invariant Fields(Found(None, None), fields) == Fields(Found(online, timestamp), fields[i..])
    {
      var field := fields[i];
      assert fields[i..][1..] == fields[i + 1..];
      if Trim(field) != [] {
        var split := SplitOnce(field);
        if split.None? { return Err(InvalidState); }
        var key, value := Unquote(Trim(split.value.0)), Trim(split.value.1);
        if key == "online" {
          if value == "true" { online := Some(true); }
          else if value == "false" { online := Some(false); }
          else { return Err(InvalidState); }
        } else if key == "timestamp" {
          timestamp := ParseInt(value);
          if timestamp.None? { return Err(InvalidState); }
        }
      }
    }
    if online.None? || timestamp.None? { return Err(InvalidState); }
    r := Ok(StatePayload(online.value, timestamp.value));
  }

  // ---- Integers ----

  predicate AllDigits(s: string) { forall c <- s :: '0' <= c <= '9' }

  lemma {:induction false} DecimalDigits(n: nat)
    ensures AllDigits(Decimal(n))
  {
    if n >= 10 { DecimalDigits(n / 10); }
  }

  lemma {:induction false} DigitsAppend(s: string, d: nat, acc: nat)
    requires AllDigits(s) && d < 10
    ensures Digits(s, acc).Some? && Digits(s + [Digit(d)], acc) == Some(10 * Digits(s, acc).value + d)
    decreases |s|
  {
    if s == [] {
      assert (s + [Digit(d)])[1..] == [];
    } else {
      assert s[0] in s;
      assert (s + [Digit(d)])[1..] == s[1..] + [Digit(d)];
      assert forall c <- s[1..] :: c in s;
      DigitsAppend(s[1..], d, 10 * acc + (s[0] as int - '0' as int));
    }
  }

  lemma {:induction false} DigitsOfDecimal(n: nat)
    ensures Digits(Decimal(n), 0) == Some(n)
  {
    if n >= 10 {
      DigitsOfDecimal(n / 10);
      DecimalDigits(n / 10);
      DigitsAppend(Decimal(n / 10), n % 10, 0);
    } else {
      assert Decimal(n)[1..] == [];
    }
  }

  lemma IntRoundTrip(v: i64)
    ensures ParseInt(ShowInt(v)) == Some(v)
    ensures ShowInt(v) != []
    ensures forall c <- ShowInt(v) :: c == '-' || '0' <= c <= '9'
  {
    var n: nat := if v < 0 then -(v as int) else v;
    DigitsOfDecimal(n);
    DecimalDigits(n);
    var d := Decimal(n);
    assert d[0] in d;
    if v < 0 { assert ("-" + d)[1..] == d; }
  }

  // ---- Blanks and splits ----

  predicate Blank(s: string) { forall c <- s :: IsSpace(c) }

  predicate Solid(s: string) { s != [] && !IsSpace(s[0]) && !IsSpace(s[|s| - 1]) }

  lemma {:induction false} TrimStartBlank(w: string, s: string)
    requires Blank(w) && s != [] && !IsSpace(s[0])
    ensures TrimStart(w + s) == s
  {
    if w == [] {
      Units(s);
    } else {
      assert w[0] in w;
      assert (w + s)[1..] == w[1..] + s;
      TrimStartBlank(w[1..], s);
    }
  }

  lemma {:induction false} TrimEndBlank(s: string, w: string)
    requires Blank(w) && s != [] && !IsSpace(s[|s| - 1])
    ensures TrimEnd(s + w) == s
    decreases |w|
  {
    if w == [] {
      Units(s);
    } else {
      var v := w[..|w| - 1];
      assert w[|w| - 1] in w;
      assert (s + w)[..|s + w| - 1] == s + v;
      TrimEndBlank(s, v);
    }
  }

  lemma TrimBlank(w: string, s: string, v: string)
    requires Blank(w) && Blank(v) && Solid(s)
    ensures Trim(w + s + v) == s
  {
    Assoc(w, s, v);
    TrimStartBlank(w, s + v);
    TrimEndBlank(s, v);
  }

  lemma {:induction false} SplitOnceAt(k: string, v: string)
    requires ':' !in k
    ensures SplitOnce(k + ":" + v) == Some((k, v))
  {
    var b := k + ":" + v;
    if k == [] {
      assert b[1..] == v;
    } else {
      assert b[1..] == k[1..] + ":" + v;
      SplitOnceAt(k[1..], v);
      HeadTail(k);
      assert b[0] == k[0];
    }
  }

  // ---- A field with blanks around its tokens ----

  /** `"key" : value` with the given blanks. */
  function Pair(w1: string, key: string, w2: string, w3: string, value: string, w4: string): string {
    w1 + ("\"" + key + "\"") + w2 + ":" + (w3 + value + w4)
  }

  predicate PlainKey(key: string) { key == "online" || key == "timestamp" }

  lemma QuotedKey(key: string)
    requires PlainKey(key)
    ensures Solid("\"" + key + "\"") && Unquote("\"" + key + "\"") == key
    ensures ':' !in key && ',' !in key
  {
    if key == "online" {
      UnquoteQuoted("online");
    } else {
      UnquoteQuoted("timestamp");
    }
  }

  lemma UnquoteQuoted(key: string)
    requires key != [] && key[0] != '\"' && key[|key| - 1] != '\"'
    ensures Unquote("\"" + key + "\"") == key
  {
    var q := "\"" + key + "\"";
    assert q[1..] == key + "\"";
    assert (key + "\"")[..|key|] == key;
    assert Unquote(key + "\"") == Unquote(key);
  }

  lemma PairRead(w1: string, key: string, w2: string, w3: string, value: string, w4: string)
    requires Blank(w1) && Blank(w2) && Blank(w3) && Blank(w4) && PlainKey(key) && Solid(value) && ',' !in value
    ensures var f := Pair(w1, key, w2, w3, value, w4);
      && Trim(f) != [] && ',' !in f
      && SplitOnce(f).Some?
      && Unquote(Trim(SplitOnce(f).value.0)) == key && Trim(SplitOnce(f).value.1) == value
  {
    hide Trim, SplitOnce, Unquote, Solid;
    QuotedKey(key);
    var quoted := "\"" + key + "\"";
    var k := w1 + quoted + w2;
    NoColon(w1, key, w2);
    SplitOnceAt(k, w3 + value + w4);
    TrimBlank(w1, quoted, w2);
    TrimBlank(w3, value, w4);
    var core := quoted + w2 + ":" + w3 + value;
    assert Pair(w1, key, w2, w3, value, w4) == w1 + core + w4;
    SolidCore(quoted, w2 + ":" + w3, value);
    assert core == quoted + (w2 + ":" + w3) + value;
    TrimBlank(w1, core, w4);
    NoComma(w1, key, w2, w3, value, w4);
  }

  lemma NoColon(w1: string, key: string, w2: string)
    requires Blank(w1) && Blank(w2) && ':' !in key
    ensures ':' !in w1 + ("\"" + key + "\"") + w2
  {
  }

  lemma NoComma(w1: string, key: string, w2: string, w3: string, value: string, w4: string)
    requires Blank(w1) && Blank(w2) && Blank(w3) && Blank(w4) && ',' !in key && ',' !in value
    ensures ',' !in Pair(w1, key, w2, w3, value, w4)
  {
  }

  lemma SolidCore(a: string, mid: string, b: string)
    requires Solid(a) && Solid(b)
    ensures Solid(a + mid + b)
  {
  }

  lemma BoolToken(b: bool)
    ensures Solid(ShowBool(b)) && ',' !in ShowBool(b)
  {
  }

  lemma IntToken(v: i64)
    ensures Solid(ShowInt(v)) && ',' !in ShowInt(v)
  {
    IntRoundTrip(v);
    var s := ShowInt(v);
    assert s[0] in s && s[|s| - 1] in s;
  }

  /** Two fields between braces, with blanks outside. */
  lemma ObjectRead(w1: string, f: string, g: string, w2: string)
    requires Blank(w1) && Blank(w2) && ',' !in f && ',' !in g
    ensures ParseState(w1 + ("{" + f + "," + g + "}") + w2) == Finish(Fields(Found(None, None), [f, g]))
  {
    var t := "{" + f + "," + g + "}";
    TrimBlank(w1, t, w2);
    assert t[1..|t| - 1] == f + "," + g;
    SplitAt(f, g, ',');
    SplitPlain(g, ',');
    assert [f] + [g] == [f, g];
  }

  lemma FieldsOfTwo(found: Found, f: string, g: string)
    requires Field(found, f).Ok?
    ensures Fields(found, [f, g]) == Field(Field(found, f).value, g)
  {
    assert [f, g][1..] == [g] && [g][1..] == [];
    var mid := Field(found, f).value;
    assert Fields(mid, [g]) == Field(mid, g);
  }

  /**
   A STATE is read back whatever the order of its keys and whatever blanks surround its tokens:
   `w` gives the blanks outside the braces, `o` and `n` those around the tokens of each field.
   */
  lemma StateReadsBack(s: StatePayload, swapped: bool, w: (string, string),
                       o: (string, string, string, string), n: (string, string, string, string))
    requires Blank(w.0) && Blank(w.1)
    requires Blank(o.0) && Blank(o.1) && Blank(o.2) && Blank(o.3)
    requires Blank(n.0) && Blank(n.1) && Blank(n.2) && Blank(n.3)
    ensures
      var online := Pair(o.0, "online", o.1, o.2, ShowBool(s.online), o.3);
      var timestamp := Pair(n.0, "timestamp", n.1, n.2, ShowInt(s.timestamp), n.3);
      var body := if swapped then timestamp + "," + online else online + "," + timestamp;
      ParseState(w.0 + ("{" + body + "}") + w.1) == Ok(s)
  {
    hide Pair, ParseState, Fields, ShowInt, ShowBool, Field, Blank, Solid;
    var online := Pair(o.0, "online", o.1, o.2, ShowBool(s.online), o.3);
    var timestamp := Pair(n.0, "timestamp", n.1, n.2, ShowInt(s.timestamp), n.3);
    OnlineRead(s.online, o);
    TimestampRead(s.timestamp, n);
    if swapped {
      assert "{" + (timestamp + "," + online) + "}" == "{" + timestamp + "," + online + "}";
      ObjectRead(w.0, timestamp, online, w.1);
      FieldsOfTwo(Found(None, None), timestamp, online);
    } else {
      assert "{" + (online + "," + timestamp) + "}" == "{" + online + "," + timestamp + "}";
      ObjectRead(w.0, online, timestamp, w.1);
      FieldsOfTwo(Found(None, None), online, timestamp);
    }
  }

  lemma OnlineRead(b: bool, o: (string, string, string, string))
    requires Blank(o.0) && Blank(o.1) && Blank(o.2) && Blank(o.3)
    ensures var f := Pair(o.0, "online", o.1, o.2, ShowBool(b), o.3);
      ',' !in f && forall found :: Field(found, f) == Ok(found.(online := Some(b)))
  {
    hide Pair, Trim, SplitOnce, Unquote, Blank, Solid;
    BoolToken(b);
    PairRead(o.0, "online", o.1, o.2, ShowBool(b), o.3);
  }

  lemma TimestampRead(v: i64, n: (string, string, string, string))
    requires Blank(n.0) && Blank(n.1) && Blank(n.2) && Blank(n.3)
    ensures var f := Pair(n.0, "timestamp", n.1, n.2, ShowInt(v), n.3);
      ',' !in f && forall found :: Field(found, f) == Ok(found.(timestamp := Some(v)))
  {
    hide Pair, Trim, SplitOnce, Unquote, Blank, Solid, ShowInt, ParseInt;
    IntToken(v);
    IntRoundTrip(v);
    PairRead(n.0, "timestamp", n.1, n.2, ShowInt(v), n.3);
  }

  /** The canonical form is read back, for both flags and every 64-bit timestamp. */
  lemma StateRoundTrip(s: StatePayload)
    ensures ParseState(ToJson(s)) == Ok(s)
  {
    hide ParseState, ShowInt, ShowBool, Pair;
    StateReadsBack(s, false, ("", ""), ("", "", "", ""), ("", "", "", ""));
    PlainPair("online", ShowBool(s.online));
    PlainPair("timestamp", ShowInt(s.timestamp));
    var b, n := ShowBool(s.online), ShowInt(s.timestamp);
    assert "\"" + "online" + "\":" == "\"online\":" && "\"" + "timestamp" + "\":" == "\"timestamp\":";
    assert "{\"online\":" + b + ",\"timestamp\":" + n + "}" ==
      "" + ("{" + ("\"online\":" + b + "," + ("\"timestamp\":" + n)) + "}") + "";
  }

  lemma PlainPair(key: string, value: string)
    ensures Pair("", key, "", "", value, "") == "\"" + key + "\":" + value
  {
  }
}
