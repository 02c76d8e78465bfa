/** The topic namespace (src/topic.rs; section 4 of Sparkplug 3.0.0). */
module Topic {
  import opened Base
  import opened Names

  const NAMESPACE: string := "spBv1.0"
  const STATE_TOKEN: string := "STATE"

  datatype MessageType = NBirth | NDeath | NData | NCmd | DBirth | DDeath | DData | DCmd | State {
    function Token(): string {
      match this
      case NBirth => "NBIRTH"
      case NDeath => "NDEATH"
      case NData => "NDATA"
      case NCmd => "NCMD"
      case DBirth => "DBIRTH"
      case DDeath => "DDEATH"
      case DData => "DDATA"
      case DCmd => "DCMD"
      case State => "STATE"
    }

    predicate HasDevice() { DBirth? || DDeath? || DData? || DCmd? }
  }

  function FromToken(s: string): Result<MessageType> {
    if s == "NBIRTH" then Ok(NBirth)
    else if s == "NDEATH" then Ok(NDeath)
    else if s == "NDATA" then Ok(NData)
    else if s == "NCMD" then Ok(NCmd)
    else if s == "DBIRTH" then Ok(DBirth)
    else if s == "DDEATH" then Ok(DDeath)
    else if s == "DDATA" then Ok(DData)
    else if s == "DCMD" then Ok(DCmd)
    else if s == "STATE" then Ok(State)
    else Err(InvalidTopic)
  }

  /** Non-empty and free of the reserved characters. */
  predicate ValidId(s: string) {
    s != "" && '+' !in s && '/' !in s && '#' !in s
  }

  /** A validated Group, Edge Node or Device identifier. */
  type Id = s: string | ValidId(s) witness "a"

  datatype SparkplugTopic =
    | Node(group: Id, edge: Id, ty: MessageType)
    | Device(group: Id, edge: Id, device: Id, ty: MessageType)
    | HostState(hostId: string)
  {
    /** The message type suits the constructor, and a host identifier is valid. */
    predicate Valid() {
      match this
      case Node(_, _, ty) => !ty.HasDevice() && ty != State
      case Device(_, _, _, ty) => ty.HasDevice()
      case HostState(host) => ValidId(host)
    }

    function Show(): string {
      match this
      case Node(g, e, ty) => NAMESPACE + "/" + g + "/" + ty.Token() + "/" + e
      case Device(g, e, d, ty) => NAMESPACE + "/" + g + "/" + ty.Token() + "/" + e + "/" + d
      case HostState(host) => NAMESPACE + "/" + STATE_TOKEN + "/" + host
    }
  }

  function Parse(topic: string): (r: Result<SparkplugTopic>)
  {
    var parts := Split(topic, '/');
    if parts[0] != NAMESPACE then Err(InvalidTopic)
    else if |parts| == 3 && parts[1] == STATE_TOKEN then
      if ValidId(parts[2]) then Ok(HostState(parts[2])) else Err(InvalidId)
    else if |parts| == 4 then ParseNode(parts[1], parts[2], parts[3])
    else if |parts| == 5 then ParseDevice(parts[1], parts[2], parts[3], parts[4])
    else Err(InvalidTopic)
  }

  function ParseNode(group: string, token: string, edge: string): (r: Result<SparkplugTopic>)
  {
    match FromToken(token)
    case Err(e) => Err(e)
    case Ok(ty) =>
      if ty.HasDevice() || ty == State then Err(InvalidTopic)
      else if !ValidId(group) || !ValidId(edge) then Err(InvalidId)
      else Ok(Node(group, edge, ty))
  }

  function ParseDevice(group: string, token: string, edge: string, device: string): (r: Result<SparkplugTopic>)
  {
    match FromToken(token)
    case Err(e) => Err(e)
    case Ok(ty) =>
      if !ty.HasDevice() then Err(InvalidTopic)
      else if !ValidId(group) || !ValidId(edge) || !ValidId(device) then Err(InvalidId)
      else Ok(Device(group, edge, device, ty))
  }

  // ---- Parsing what is shown ----

  lemma TokenRoundTrip(ty: MessageType, s: string)
    ensures FromToken(ty.Token()) == Ok(ty) && '/' !in ty.Token()
    ensures FromToken(s).Ok? ==> FromToken(s).value.Token() == s
  {
  }

  /** The parts of the split, joined again. */
  function Join(parts: seq<string>): string
    requires parts != []
  {
    if |parts| == 1 then parts[0] else parts[0] + "/" + Join(parts[1..])
  }

  lemma {:induction false} JoinOfSplit(s: string)
    ensures Join(Split(s, '/')) == s
  {
    if s != [] {
      JoinOfSplit(s[1..]);
      var rest := Split(s[1..], '/');
      HeadTail(s);
      if s[0] == '/' {
        assert ([[]] + rest)[1..] == rest;
      } else {
        assert ([[s[0]] + rest[0]] + rest[1..])[1..] == rest[1..];
        if |rest| > 1 {
          assert [s[0]] + (rest[0] + "/" + Join(rest[1..])) == [s[0]] + rest[0] + "/" + Join(rest[1..]);
        }
      }
    }
  }

  lemma Under(a: string, x: string, y: string)
    ensures a + "/" + x + y == a + "/" + (x + y)
  {
    Assoc(a + "/", x, y);
  }

  lemma SplitThree(a: string, b: string, c: string)
    requires '/' !in a && '/' !in b && '/' !in c
    ensures Split(a + "/" + b + "/" + c, '/') == [a, b, c]
  {
    hide Names.Split;
    SplitAt(a, b + "/" + c, '/');
    SplitAt(b, c, '/');
    SplitPlain(c, '/');
    Under(a, b, "/");
    Under(a, b + "/", c);
    assert [a] + ([b] + [c]) == [a, b, c];
  }

  lemma SplitFour(a: string, b: string, c: string, d: string)
    requires '/' !in a && '/' !in b && '/' !in c && '/' !in d
    ensures Split(a + "/" + b + "/" + c + "/" + d, '/') == [a, b, c, d]
  {
    hide Names.Split;
    SplitAt(a, b + "/" + c + "/" + d, '/');
    SplitThree(b, c, d);
    Under(a, b, "/");
    Under(a, b + "/", c);
    Under(a, b + "/" + c, "/");
    Under(a, b + "/" + c + "/", d);
    assert [a] + [b, c, d] == [a, b, c, d];
  }

  lemma SplitFive(a: string, b: string, c: string, d: string, e: string)
    requires '/' !in a && '/' !in b && '/' !in c && '/' !in d && '/' !in e
    ensures Split(a + "/" + b + "/" + c + "/" + d + "/" + e, '/') == [a, b, c, d, e]
  {
    hide Names.Split;
    SplitAt(a, b + "/" + c + "/" + d + "/" + e, '/');
    SplitFour(b, c, d, e);
    Under(a, b, "/");
    Under(a, b + "/", c);
    Under(a, b + "/" + c, "/");
    Under(a, b + "/" + c + "/", d);
    Under(a, b + "/" + c + "/" + d, "/");
    Under(a, b + "/" + c + "/" + d + "/", e);
    assert [a] + [b, c, d, e] == [a, b, c, d, e];
  }

  lemma JoinThree(a: string, b: string, c: string)
    ensures Join([a, b, c]) == a + "/" + b + "/" + c
  {
    assert [a, b, c][1..] == [b, c] && [b, c][1..] == [c];
    assert Join([b, c]) == b + "/" + c;
    assert a + "/" + (b + "/" + c) == a + "/" + b + "/" + c;
  }

  lemma JoinFour(a: string, b: string, c: string, d: string)
    ensures Join([a, b, c, d]) == a + "/" + b + "/" + c + "/" + d
  {
    assert [a, b, c, d][1..] == [b, c, d];
    JoinThree(b, c, d);
    assert a + "/" + (b + "/" + c + "/" + d) == a + "/" + b + "/" + c + "/" + d;
  }

  lemma JoinFive(a: string, b: string, c: string, d: string, e: string)
    ensures Join([a, b, c, d, e]) == a + "/" + b + "/" + c + "/" + d + "/" + e
  {
    assert [a, b, c, d, e][1..] == [b, c, d, e];
    JoinFour(b, c, d, e);
    assert a + "/" + (b + "/" + c + "/" + d + "/" + e) == a + "/" + b + "/" + c + "/" + d + "/" + e;
  }

  lemma ParsedShows(s: string)
    requires Parse(s).Ok?
    ensures Parse(s).value.Valid() && Parse(s).value.Show() == s
  {
    hide Names.Split, Join;
    JoinOfSplit(s);
    var p := Split(s, '/');
    if |p| == 3 {
      assert p == [p[0], p[1], p[2]];
      JoinThree(p[0], p[1], p[2]);
    } else if |p| == 4 {
      TokenRoundTrip(NBirth, p[2]);
      assert p == [p[0], p[1], p[2], p[3]];
      JoinFour(p[0], p[1], p[2], p[3]);
    } else {
      TokenRoundTrip(NBirth, p[2]);
      assert p == [p[0], p[1], p[2], p[3], p[4]];
      JoinFive(p[0], p[1], p[2], p[3], p[4]);
    }
  }

  lemma ShownParses(t: SparkplugTopic)
    requires t.Valid()
    ensures Parse(t.Show()) == Ok(t)
  {
    hide Names.Split;
    match t
    case Node(g, e, ty) => TokenRoundTrip(ty, ""); SplitFour(NAMESPACE, g, ty.Token(), e);
    case Device(g, e, d, ty) => TokenRoundTrip(ty, ""); SplitFive(NAMESPACE, g, ty.Token(), e, d);
    case HostState(host) => SplitThree(NAMESPACE, STATE_TOKEN, host);
  }

  /**
   Parsing and printing are inverse: every valid topic, and no other, parses back from its
   string, a group named STATE included; and a string that parses is the string of its topic.
   */
  lemma TopicRoundTrip(t: SparkplugTopic, s: string)
    ensures Parse(t.Show()) == Ok(t) <==> t.Valid()
    ensures Parse(s).Ok? ==> Parse(s).value.Show() == s
  {
    if t.Valid() { ShownParses(t); }
    if Parse(t.Show()) == Ok(t) { ParsedShows(t.Show()); }
    if Parse(s).Ok? { ParsedShows(s); }
  }

  /** The parts are those of a topic but for its identifiers. */
  predicate ShapedLikeTopic(parts: seq<string>) {
    && parts != [] && parts[0] == "spBv1.0"
    && (|| (|parts| == 3 && parts[1] == "STATE")
        || (|parts| == 4 && parts[2] in {"NBIRTH", "NDEATH", "NDATA", "NCMD"})
        || (|parts| == 5 && parts[2] in {"DBIRTH", "DDEATH", "DDATA", "DCMD"}))
  }

  /** A text of a topic's shape fails only for an identifier that is not valid, any other for its shape. */
  lemma ParseFails(topic: string)
    requires Parse(topic).Err?
    ensures Parse(topic).error == if ShapedLikeTopic(Split(topic, '/')) then InvalidId else InvalidTopic
  {
    hide Names.Split, ValidId;
  }
}
