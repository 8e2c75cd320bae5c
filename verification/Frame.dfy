/**
  Frames and their wire form (frame.py; section 4.2.3 of the AMQP 0-9-1 specification), and what `decode_frame`
  makes of a frame, of what follows it, and of less than a frame.
 */
module Frame {
  import opened Bytes
  import opened Spec

  datatype Frame =
    | MethodFrame(channel: int, command: Method)
    | HeaderFrame(channel: int, bodySize: int, properties: Properties)
    | BodyFrame(channel: int, fragment: bytes)
    | Heartbeat
    | ProtocolHeader(major: int, minor: int, revision: int)

  const AMQP: bytes := [0x41, 0x4D, 0x51, 0x50]

  function ChannelOf(f: Frame): int {
    if f.Heartbeat? || f.ProtocolHeader? then 0 else f.channel
  }

  predicate FrameWellFormed(f: Frame) {
    f.MethodFrame? ==> WellFormed(f.command)
  }

  // ---------- Marshalling ----------

  /** `Frame._marshal`: type, channel, size, payload, end octet. */
  function Envelope(frameType: byte, channel: int, payload: bytes): Result<bytes> {
    var c :- PackUnsigned(channel, 2);
    var size :- PackUnsigned(|payload|, 4);
    Ok([frameType] + c + size + payload + [FRAME_END])
  }

  function HeaderPrefix(bodySize: int): Result<bytes> {
    var size :- PackUnsigned(bodySize, 8);
    Ok(BigEndian(BASIC, 2) + [0, 0] + size)
  }

  function Payload(f: Frame): Result<bytes>
    requires !f.ProtocolHeader?
  {
    match f
    case MethodFrame(_, m) =>
      var arguments :- EncodeMethod(m);
      var id :- PackUnsigned(Index(m), 4);
      Ok(id + arguments)
    case HeaderFrame(_, bodySize, properties) =>
      var p :- EncodeProperties(properties);
      var prefix :- HeaderPrefix(bodySize);
      Ok(prefix + p)
    case BodyFrame(_, fragment) => Ok(fragment)
    case Heartbeat => Ok([])
  }

  function TypeOf(f: Frame): byte
    requires !f.ProtocolHeader?
  {
    match f
    case MethodFrame(_, _) => FRAME_METHOD
    case HeaderFrame(_, _, _) => FRAME_HEADER
    case BodyFrame(_, _) => FRAME_BODY
    case Heartbeat => FRAME_HEARTBEAT
  }

  function Marshal(f: Frame): Result<bytes> {
    match f
    case ProtocolHeader(major, minor, revision) =>
      if 0 <= major < 256 && 0 <= minor < 256 && 0 <= revision < 256
      then Ok(AMQP + [0, major, minor, revision])
      else Err(StructError)
    case _ =>
      var payload :- Payload(f);
      Envelope(TypeOf(f), ChannelOf(f), payload)
  }

  // ---------- decode_frame ----------

  /** The constructor's `value or default`. */
  function OrDefault(n: nat, default: nat): nat { if n == 0 then default else n }

  function DecodePayload(frameType: byte, channel: nat, payload: bytes): (r: Result<Frame>)
    ensures r.Ok? ==> FrameWellFormed(r.value)
  {
    if frameType == FRAME_METHOD then
      var id :- UnpackUnsigned(payload, 0, 4);
      var m :- DecodeMethod(id, payload, 4);
      Ok(MethodFrame(channel, m))
    else if frameType == FRAME_HEADER then
      if |payload| < 12 then Err(StructError)
      else if UnpackUnsigned(payload, 0, 2).value != BASIC then Err(KeyError)
      else
        var bodySize :- UnpackUnsigned(payload, 4, 8);
        var properties :- DecodeProperties(payload[12..], 0);
        Ok(HeaderFrame(channel, bodySize, properties))
    else if frameType == FRAME_BODY then Ok(BodyFrame(channel, payload))
    else if frameType == FRAME_HEARTBEAT then Ok(Heartbeat)
    else Err(InvalidFrame)
  }

  /** The bytes consumed and the frame; `(0, None)` when the data does not hold a whole frame yet. */
  function DecodeFrame(data: bytes): (r: Result<(nat, Option<Frame>)>)
    ensures r.Ok? && r.value.1.Some? ==> 8 <= r.value.0 <= |data| && FrameWellFormed(r.value.1.value)
    ensures r.Ok? && r.value.1.None? ==> r.value.0 == 0
  {
    if AMQP <= data then
      if |data| < 8 then Ok((0, None))
      else Ok((8, Some(ProtocolHeader(data[5], OrDefault(data[6], 9), OrDefault(data[7], 1)))))
    else if |data| < FRAME_HEADER_SIZE then Ok((0, None))
    else
      var channel := UnpackUnsigned(data, 1, 2).value;
      var size := UnpackUnsigned(data, 3, 4).value;
      var end := FRAME_HEADER_SIZE + size + FRAME_END_SIZE;
      if end > |data| then Ok((0, None))
      else if data[end - 1] != FRAME_END then Err(InvalidFrame)
      else
        var f :- DecodePayload(data[0], channel, data[FRAME_HEADER_SIZE..end - 1]);
        Ok((end, Some(f)))
  }

  predicate Incomplete(r: Result<(nat, Option<Frame>)>) { r.Ok? && r.value.1.None? }

  /** Once the data decides the outcome of `decode_frame`, later data does not change it. */
  lemma DecodeFrameStable(data: bytes, more: bytes)
    requires !Incomplete(DecodeFrame(data))
    ensures DecodeFrame(data + more) == DecodeFrame(data)
  {
    hide DecodePayload;
    var all := data + more;
    assert all[..|data|] == data;
    if AMQP <= data {
      assert AMQP <= all;
    } else {
      assert all[..4] == data[..4];
      assert all[1..3] == data[1..3] && all[3..7] == data[3..7];
      var end := FRAME_HEADER_SIZE + UnpackUnsigned(data, 3, 4).value + FRAME_END_SIZE;
      assert all[FRAME_HEADER_SIZE..end - 1] == data[FRAME_HEADER_SIZE..end - 1];
    }
  }

  // ---------- Round trip ----------

  function NormalFrame(f: Frame): Frame {
    match f
    case MethodFrame(channel, m) => MethodFrame(channel, NormalMethod(m))
    case HeaderFrame(channel, bodySize, p) => HeaderFrame(channel, bodySize, NormalProperties(p))
    case ProtocolHeader(major, minor, revision) =>
      ProtocolHeader(major, if minor == 0 then 9 else minor, if revision == 0 then 1 else revision)
    case _ => f
  }

  lemma HeaderPayloadRoundTrip(bodySize: int, p: Properties, payload: bytes)
    requires HeaderPrefix(bodySize).Ok? && EncodeProperties(p).Ok?
    requires payload == HeaderPrefix(bodySize).value + EncodeProperties(p).value
    ensures |payload| >= 12
    ensures UnpackUnsigned(payload, 0, 2) == Ok(BASIC)
    ensures UnpackUnsigned(payload, 4, 8) == Ok(bodySize)
    ensures DecodeProperties(payload[12..], 0) == Ok(NormalProperties(p))
  {
    hide EncodeProperties, DecodeProperties, NormalProperties, BigEndian, FromBigEndian;
    var size := PackUnsigned(bodySize, 8).value;
    assert Pow256(2) == 0x1_0000;
    assert payload[0..2] == PackUnsigned(BASIC, 2).value;
    assert payload[4..12] == size;
    UnpackPacked(payload, 0, BASIC, 2);
    UnpackPacked(payload, 4, bodySize, 8);
    assert payload[12..] == EncodeProperties(p).value;
    PropertiesRoundTrip(p, payload[12..], 0);
  }

  lemma PayloadRoundTrip(f: Frame)
    requires !f.ProtocolHeader? && FrameWellFormed(f) && Payload(f).Ok? && ChannelOf(f) >= 0
    ensures DecodePayload(TypeOf(f), ChannelOf(f), Payload(f).value) == Ok(NormalFrame(f))
  {
    hide EncodeMethod, DecodeMethod, NormalMethod, EncodeProperties, DecodeProperties, NormalProperties, WellFormed,
      Index, HeaderPrefix;
    var payload := Payload(f).value;
    match f
    case MethodFrame(_, m) =>
      var id := PackUnsigned(Index(m), 4).value;
      assert payload[0..4] == id && payload[4..] == EncodeMethod(m).value;
      UnpackPacked(payload, 0, Index(m), 4);
      MethodRoundTrip(m, payload, 4);
    case HeaderFrame(_, bodySize, p) =>
      HeaderPayloadRoundTrip(bodySize, p, payload);
    case _ =>
  }

  lemma EnvelopeDecodes(frameType: byte, channel: int, payload: bytes, rest: bytes)
    requires frameType != 0x41 && Envelope(frameType, channel, payload).Ok?
    ensures var b := Envelope(frameType, channel, payload).value;
            |b| == |payload| + 8
            && DecodeFrame(b + rest) == (var f :- DecodePayload(frameType, channel, payload); Ok((|b|, Some(f))))
  {
    hide DecodePayload, BigEndian, FromBigEndian;
    var data := Envelope(frameType, channel, payload).value + rest;
    assert data[1..3] == PackUnsigned(channel, 2).value;
    assert data[3..7] == PackUnsigned(|payload|, 4).value;
    UnpackPacked(data, 1, channel, 2);
    UnpackPacked(data, 3, |payload|, 4);
    assert data[7..7 + |payload|] == payload;
    assert data[0] == frameType;
  }

  /** A frame is decoded from its own bytes whatever follows them, and exactly those bytes are consumed. */
  lemma FrameRoundTrip(f: Frame, rest: bytes)
    requires FrameWellFormed(f) && Marshal(f).Ok?
    ensures DecodeFrame(Marshal(f).value + rest) == Ok((|Marshal(f).value|, Some(NormalFrame(f))))
  {
    hide DecodePayload, Payload, Envelope, FrameWellFormed;
    if f.ProtocolHeader? {
      assert AMQP <= Marshal(f).value + rest;
    } else {
      assert ChannelOf(f) >= 0 by { EnvelopeChannel(TypeOf(f), ChannelOf(f), Payload(f).value); }
      PayloadRoundTrip(f);
      EnvelopeDecodes(TypeOf(f), ChannelOf(f), Payload(f).value, rest);
    }
  }

  lemma EnvelopeChannel(frameType: byte, channel: int, payload: bytes)
    requires Envelope(frameType, channel, payload).Ok?
    ensures 0 <= channel < 0x1_0000
  {
    assert Pow256(2) == 0x1_0000;
  }

  /** No proper prefix of a frame is taken for a frame, nor for an error. */
  lemma PrefixIncomplete(f: Frame, k: nat)
    requires FrameWellFormed(f) && Marshal(f).Ok? && k < |Marshal(f).value|
    ensures Incomplete(DecodeFrame(Marshal(f).value[..k]))
  {
    hide Marshal, DecodeFrame, NormalFrame, FrameWellFormed;
    var b := Marshal(f).value;
    assert b[..k] + b[k..] == b == b + [];
    FrameRoundTrip(f, []);
    if !Incomplete(DecodeFrame(b[..k])) {
      DecodeFrameStable(b[..k], b[k..]);
    }
  }
}
