/** What the engines exchange with an MQTT transport (src/transport.rs:14-85). */
module Messages {
  import opened Base
  import opened Names
  import S = HostState

  datatype Qos = AtMostOnce | AtLeastOnce

  datatype Message = Message(topic: string, payload: bytes)

  datatype Outbound = Outbound(message: Message, qos: Qos, retain: bool)

  /** Bytes below 0x80 as text. */
  function AsciiText(b: bytes): (s: Str)
    requires forall i :: 0 <= i < |b| ==> b[i] < 0x80
    ensures s == b
  {
    AsciiValid(b);
    b
  }

  const BDSEQ_BYTES: bytes := [98, 100, 83, 101, 113]

  const REBIRTH_BYTES: bytes := [78, 111, 100, 101, 32, 67, 111, 110, 116, 114, 111, 108, 47, 82, 101, 98, 105, 114,
                                 116, 104]

  /** The metric that carries the birth/death sequence number: `bdSeq` (src/lib.rs:75). */
  const BDSEQ: Str := AsciiText(BDSEQ_BYTES)

  /** The metric that requests a rebirth: `Node Control/Rebirth` (src/lib.rs:72). */
  const REBIRTH: Str := AsciiText(REBIRTH_BYTES)

  /** A STATE payload: text first, then its fields. */
  function ReadState(payload: bytes): Result<S.StatePayload> {
    if !ValidUtf8(payload) then Err(InvalidUtf8) else S.ParseState(Utf8Chars(payload))
  }

  /** Time between two instants, zero when the clock seems to run backwards. */
  function Elapsed(from: nat, to: nat): nat { if from <= to then to - from else 0 }
}
