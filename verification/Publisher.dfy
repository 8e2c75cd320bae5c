/** Cutting a message into frames (connection.py). */
module Publisher {
  import opened Bytes
  import opened Spec
  import opened Frame
  import opened FrameCodec

  datatype Message = Message(command: Method, properties: Properties, body: bytes)

  /** The pieces of at most `max` bytes that a body is cut into. */
  function Fragments(body: bytes, max: nat): (parts: seq<bytes>)
    requires max >= 1
    decreases |body|
  {
    if body == [] then []
    else if |body| <= max then [body]
    else [body[..max]] + Fragments(body[max..], max)
  }

  /** The body frames for a limit as negotiated; a negative limit gives an empty range of chunks. */
  function BodyFrames(channel: int, body: bytes, max: int): seq<Frame>
    requires max != 0
  {
    if max < 0 then [] else BodyFramesOf(channel, Fragments(body, max))
  }

  function BodyFramesOf(channel: int, parts: seq<bytes>): (fs: seq<Frame>)
    ensures |fs| == |parts| && forall i :: 0 <= i < |parts| ==> fs[i] == BodyFrame(channel, parts[i])
  {
    if parts == [] then [] else [BodyFrame(channel, parts[0])] + BodyFramesOf(channel, parts[1..])
  }

  function ContentFrames(channel: int, m: Message): seq<Frame> {
    [MethodFrame(channel, m.command), HeaderFrame(channel, |m.body|, m.properties)]
  }

  function MarshalOne(f: Frame): Result<seq<bytes>> {
    var b :- Marshal(f);
    Ok([b])
  }

  function MarshalAll(fs: seq<Frame>): Result<seq<bytes>> {
    if fs == [] then Ok([]) else Append(MarshalOne(fs[0]), MarshalAll(fs[1..]))
  }

  lemma {:induction false} MarshalAllConcat(a: seq<Frame>, b: seq<Frame>)
    ensures MarshalAll(a + b) == Append(MarshalAll(a), MarshalAll(b))
  {
    hide MarshalOne;
    AppendAssociative(MarshalAll(b), Ok([]), Ok([]));
    if a == [] {
      assert a + b == b;
    } else {
      assert (a + b)[1..] == a[1..] + b;
      MarshalAllConcat(a[1..], b);
      AppendAssociative(MarshalOne(a[0]), MarshalAll(a[1..]), MarshalAll(b));
    }
  }

  lemma MarshalAllOne(f: Frame)
    ensures MarshalAll([f]) == MarshalOne(f)
  {
    hide MarshalOne;
    assert [f][1..] == [];
    AppendAssociative(MarshalOne(f), Ok([]), Ok([]));
  }

  /** What one call puts out: every frame of the message, or nothing and the first failure. */
  function SendMessageSpec(channel: int, m: Message, max: int): Result<seq<bytes>> {
    var content :- MarshalAll(ContentFrames(channel, m));
    if m.body == [] then Ok(content)
    else if max == 0 then Err(ZeroDivision)
    else
      var parts :- MarshalAll(BodyFrames(channel, m.body, max));
      Ok(content + parts)
  }

  function MinInt(a: int, b: int): int { if a < b then a else b }

  /** Where chunk `k` of the loop starts and ends. */
  lemma {:induction false} FragmentAt(body: bytes, max: nat, k: nat)
    requires max >= 1 && k * max < |body|
    ensures k < |Fragments(body, max)|
    ensures Fragments(body, max)[k] == body[k * max..MinInt((k + 1) * max, |body|)]
  {
    if k == 0 {
      assert k * max == 0 && (k + 1) * max == max;
    } else {
      assert k * max == (k - 1) * max + max;
      assert (k - 1) * max >= 0;
      assert |body| > max;
      var tail := body[max..];
      FragmentAt(tail, max, k - 1);
      assert ((k - 1) + 1) * max == k * max && (k + 1) * max == k * max + max;
      assert MinInt(k * max, |tail|) + max == MinInt((k + 1) * max, |body|);
      assert tail[(k - 1) * max..MinInt(k * max, |tail|)] == body[k * max..MinInt((k + 1) * max, |body|)];
    }
  }

  lemma {:induction false} FragmentCount(body: bytes, max: nat, chunks: nat)
    requires max >= 1 && |body| <= chunks * max && (chunks > 0 ==> (chunks - 1) * max < |body|)
    ensures |Fragments(body, max)| == chunks
  {
    if chunks == 0 {
    } else if chunks == 1 {
      assert chunks * max == max && (chunks - 1) * max == 0;
    } else {
      assert (chunks - 1) * max == (chunks - 2) * max + max && chunks * max == (chunks - 1) * max + max;
      assert (chunks - 2) * max >= 0;
      FragmentCount(body[max..], max, chunks - 1);
    }
  }

  /** `int(math.ceil(float(length) / max))` in exact arithmetic. */
  function CeilDiv(length: nat, max: int): (chunks: int)
    requires max != 0
    ensures max > 0 ==> chunks * max >= length && (chunks - 1) * max < length && chunks >= 0
    ensures max < 0 ==> chunks <= 0
  {
    if max > 0 then
      var q := length / max;
      assert length == q * max + length % max;
      if length % max == 0 then
        assert (q - 1) * max == q * max - max;
        q
      else
        assert (q + 1) * max == q * max + max;
        q + 1
    else
      0 - length / -max
  }

  method SendMessage(channel: int, m: Message, bodyMaxLength: int) returns (r: Result<seq<bytes>>)
    requires WellFormed(m.command)
    ensures r == SendMessageSpec(channel, m, bodyMaxLength)
  {
    hide Marshal, WellFormed, Fragments, W.FrameFits, W.FrameWire;
    var length := |m.body|;
    var marshaled: seq<bytes> := [];
    var frameMethod := MarshalFrame(MethodFrame(channel, m.command));
    var frameHeader;
    if frameMethod.Ok? {
      frameHeader := MarshalFrame(HeaderFrame(channel, length, m.properties));
    }
    ContentMarshals(channel, m);
    if frameMethod.Err? {
      return Err(frameMethod.error);
    }
    if frameHeader.Err? {
      return Err(frameHeader.error);
    }
    marshaled := [frameMethod.value, frameHeader.value];
    if m.body != [] {
      if bodyMaxLength == 0 {
        return Err(ZeroDivision);
      }
      var chunks := CeilDiv(length, bodyMaxLength);
      ghost var frames := BodyFrames(channel, m.body, bodyMaxLength);
      if bodyMaxLength > 0 {
        FragmentCount(m.body, bodyMaxLength, chunks);
      }
      assert frames[0..] == frames && MarshalAll(frames[..0]) == Ok([]);
      var chunk := 0;
      while chunk < chunks
        invariant 0 <= chunk && |frames| == if chunks > 0 then chunks else 0
        invariant chunk <= |frames|
        invariant MarshalAll(frames[..chunk]).Ok?
        invariant marshaled == [frameMethod.value, frameHeader.value] + MarshalAll(frames[..chunk]).value
      {
        var start := chunk * bodyMaxLength;
        ChunkStart(chunk, chunks, bodyMaxLength, length);
        var end := start + bodyMaxLength;
        if end > length {
          end := length;
        }
        FragmentAt(m.body, bodyMaxLength, chunk);
        assert (chunk + 1) * bodyMaxLength == start + bodyMaxLength;
        var frameBody := MarshalFrame(BodyFrame(channel, m.body[start..end]));
        assert frames[chunk] == BodyFrame(channel, m.body[start..end]);
        MarshalNext(frames, chunk);
        if frameBody.Err? {
          return Err(frameBody.error);
        }
        marshaled := marshaled + [frameBody.value];
        chunk := chunk + 1;
      }
      assert frames[..chunk] == frames;
    }
    return Ok(marshaled);
  }

  lemma ChunkStart(chunk: nat, chunks: int, max: int, length: nat)
    requires chunk < chunks && max != 0 && (max < 0 ==> chunks <= 0) && (chunks - 1) * max < length
    ensures max > 0 && chunk * max < length
  {
    assert chunk * max <= (chunks - 1) * max;
  }

  lemma ContentMarshals(channel: int, m: Message)
    ensures var a, b := Marshal(ContentFrames(channel, m)[0]), Marshal(ContentFrames(channel, m)[1]);
            MarshalAll(ContentFrames(channel, m))
            == if a.Err? then Err(a.error) else if b.Err? then Err(b.error) else Ok([a.value, b.value])
  {
    hide Marshal, MarshalAll;
    var fs := ContentFrames(channel, m);
    assert fs == [fs[0]] + [fs[1]];
    MarshalAllOne(fs[0]);
    MarshalAllOne(fs[1]);
    MarshalAllConcat([fs[0]], [fs[1]]);
    var a, b := Marshal(fs[0]), Marshal(fs[1]);
    if a.Ok? && b.Ok? {
      assert [a.value] + [b.value] == [a.value, b.value];
    }
  }

  lemma MarshalNext(fs: seq<Frame>, k: nat)
    requires k < |fs| && MarshalAll(fs[..k]).Ok?
    ensures Marshal(fs[k]).Ok? ==> MarshalAll(fs[..k + 1]) == Ok(MarshalAll(fs[..k]).value + [Marshal(fs[k]).value])
    ensures Marshal(fs[k]).Err? ==> MarshalAll(fs) == Err(Marshal(fs[k]).error)
  {
    hide Marshal, MarshalAll;
    assert fs[..k + 1] == fs[..k] + [fs[k]] && fs == fs[..k + 1] + fs[k + 1..];
    MarshalAllOne(fs[k]);
    MarshalAllConcat(fs[..k], [fs[k]]);
    MarshalAllConcat(fs[..k + 1], fs[k + 1..]);
  }

  // ---------- What a message's frames carry ----------

  /** The pieces are non-empty, no longer than the limit, and concatenate to the body. */
  lemma {:induction false} FragmentsCover(body: bytes, max: nat)
    requires max >= 1
    ensures Concat(Fragments(body, max)) == body
    ensures forall part :: part in Fragments(body, max) ==> 1 <= |part| <= max
    decreases |body|
  {
    if body == [] {
    } else if |body| <= max {
      assert [body][1..] == [] && body + [] == body;
    } else {
      FragmentsCover(body[max..], max);
    }
  }

  /** The body bytes in the frames that `decode_frame` finds in the pieces put out. */
  function BodyIn(pieces: seq<bytes>): bytes {
    if pieces == [] then []
    else
      var rest := BodyIn(pieces[1..]);
      match DecodeFrame(pieces[0])
      case Ok((_, Some(BodyFrame(_, fragment)))) => fragment + rest
      case _ => rest
  }

  lemma {:induction false} BodyInConcat(a: seq<bytes>, b: seq<bytes>)
    ensures BodyIn(a + b) == BodyIn(a) + BodyIn(b)
  {
    hide DecodeFrame;
    if a == [] {
      assert a + b == b;
    } else {
      assert (a + b)[1..] == a[1..] + b;
      BodyInConcat(a[1..], b);
    }
  }

  lemma BodyInOne(f: Frame)
    requires FrameWellFormed(f) && Marshal(f).Ok?
    ensures BodyIn([Marshal(f).value]) == if f.BodyFrame? then f.fragment else []
  {
    hide DecodeFrame, Marshal;
    FrameRoundTrip(f, []);
    var b := Marshal(f).value;
    var none: seq<bytes> := [];
    assert b + [] == b && [b][1..] == none;
    hide FrameWellFormed;
    assert BodyIn([b][1..]) == [];
    if f.BodyFrame? {
      assert f.fragment + [] == f.fragment;
    }
  }

  lemma {:induction false} BodyInFrames(channel: int, parts: seq<bytes>)
    requires MarshalAll(BodyFramesOf(channel, parts)).Ok?
    ensures BodyIn(MarshalAll(BodyFramesOf(channel, parts)).value) == Concat(parts)
  {
    hide DecodeFrame, Marshal;
    if parts != [] {
      var f, fs := BodyFrame(channel, parts[0]), BodyFramesOf(channel, parts[1..]);
      assert ([f] + fs)[1..] == fs;
      BodyInOne(f);
      BodyInFrames(channel, parts[1..]);
      BodyInConcat([Marshal(f).value], MarshalAll(fs).value);
    }
  }

  lemma BodyInContent(channel: int, m: Message)
    requires WellFormed(m.command) && MarshalAll(ContentFrames(channel, m)).Ok?
    ensures var pieces := MarshalAll(ContentFrames(channel, m)).value; |pieces| == 2 && BodyIn(pieces) == []
  {
    hide DecodeFrame, Marshal, MarshalAll, WellFormed, BodyIn;
    var fs := ContentFrames(channel, m);
    ContentMarshals(channel, m);
    assert FrameWellFormed(fs[0]) && FrameWellFormed(fs[1]);
    BodyInOne(fs[0]);
    BodyInOne(fs[1]);
    var a, b := Marshal(fs[0]).value, Marshal(fs[1]).value;
    BodyInConcat([a], [b]);
    assert [a] + [b] == [a, b];
  }

  /** With a positive limit, the pieces that go out for a message carry its body. */
  lemma SentWhole(channel: int, m: Message, max: nat)
    requires max >= 1 && WellFormed(m.command) && SendMessageSpec(channel, m, max).Ok?
    ensures BodyIn(SendMessageSpec(channel, m, max).value) == m.body
  {
    hide DecodeFrame, Marshal, MarshalAll, WellFormed, BodyIn, ContentFrames;
    BodyInContent(channel, m);
    if m.body != [] {
      var parts := Fragments(m.body, max);
      BodyInFrames(channel, parts);
      FragmentsCover(m.body, max);
      BodyInConcat(MarshalAll(ContentFrames(channel, m)).value, MarshalAll(BodyFramesOf(channel, parts)).value);
      assert [] + m.body == m.body;
    }
  }

  /** The frames of a message that is sent whole. */
  function MessageFrames(channel: int, m: Message, max: nat): seq<Frame>
    requires max >= 1
  {
    ContentFrames(channel, m) + BodyFrames(channel, m.body, max)
  }

  /** These are the frames that `_send_message` puts out. */
  lemma SendsMessageFrames(channel: int, m: Message, max: nat)
    requires max >= 1
    ensures SendMessageSpec(channel, m, max) == MarshalAll(MessageFrames(channel, m, max))
  {
    hide MarshalOne, ContentFrames;
    MarshalAllConcat(ContentFrames(channel, m), BodyFrames(channel, m.body, max));
    if m.body == [] {
      assert ContentFrames(channel, m) + [] == ContentFrames(channel, m);
    }
  }

  // ---------- Tuning ----------

  const FRAME_MIN_SIZE := 4096
  const FRAME_MAX_SIZE := 131072

  /** What the setter of `frame_max` accepts; it raises ValueError for anything else. */
  predicate Accepted(frameMax: int) { FRAME_MIN_SIZE <= frameMax <= FRAME_MAX_SIZE }

  /** `_negotiate_integer_value`: zero means no limit. */
  function Negotiate(client: int, server: int): int {
    if client == 0 || server == 0
    then if client > server then client else server
    else if client < server then client else server
  }

  /** `_on_connection_tune`: the frame size agreed on with the server, if it is accepted. */
  function Tune(client: int, server: int): Result<int> {
    var frameMax := Negotiate(client, server);
    if Accepted(frameMax) then Ok(frameMax) else Err(ValueError)
  }

  function BodyMaxLength(frameMax: int): int { frameMax - FRAME_HEADER_SIZE - FRAME_END_SIZE }

  /** Tuning succeeds exactly if the server sets no limit or one of at least 4096; the smaller limit then holds. */
  lemma TunesExactly(client: int, server: nat)
    requires Accepted(client)
    ensures Tune(client, server).Ok? <==> server == 0 || server >= FRAME_MIN_SIZE
    ensures Tune(client, server).Ok? ==>
              var frameMax := Tune(client, server).value;
              frameMax <= client && (server != 0 ==> frameMax <= server) && (frameMax == client || frameMax == server)
              && 4088 <= BodyMaxLength(frameMax) <= 131064
  {
  }

  /** No body frame on the wire is longer than the negotiated `frame_max`. */
  lemma BodyFramesFit(channel: int, body: bytes, frameMax: int, k: nat)
    requires BodyMaxLength(frameMax) >= 1
    requires k < |BodyFrames(channel, body, BodyMaxLength(frameMax))|
    requires Marshal(BodyFrames(channel, body, BodyMaxLength(frameMax))[k]).Ok?
    ensures |Marshal(BodyFrames(channel, body, BodyMaxLength(frameMax))[k]).value| <= frameMax
  {
    var parts := Fragments(body, BodyMaxLength(frameMax));
    FragmentsCover(body, BodyMaxLength(frameMax));
    assert parts[k] in parts;
    EnvelopeDecodes(FRAME_BODY, channel, parts[k], []);
  }

  lemma {:induction false} MarshalAllAt(fs: seq<Frame>, i: nat)
    requires MarshalAll(fs).Ok? && i < |MarshalAll(fs).value|
    ensures |MarshalAll(fs).value| == |fs| && Marshal(fs[i]).Ok? && MarshalAll(fs).value[i] == Marshal(fs[i]).value
  {
    hide Marshal;
    if |fs| > 1 {
      MarshalAllAt(fs[1..], if i > 0 then i - 1 else 0);
    }
  }

  lemma MessageFramesFit(channel: int, m: Message, frameMax: nat, f: Frame)
    requires BodyMaxLength(frameMax) >= 1 && f in MessageFrames(channel, m, BodyMaxLength(frameMax)) && f.BodyFrame?
    requires Marshal(f).Ok?
    ensures |Marshal(f).value| <= frameMax
  {
    var max := BodyMaxLength(frameMax);
    var all := MessageFrames(channel, m, max);
    hide Marshal, BodyFrames;
    var i :| 0 <= i < |all| && all[i] == f;
    BodyFramesFit(channel, m.body, frameMax, i - 2);
  }

  lemma PiecesFit(channel: int, m: Message, frameMax: nat, i: nat)
    requires BodyMaxLength(frameMax) >= 1 && MarshalAll(MessageFrames(channel, m, BodyMaxLength(frameMax))).Ok?
    requires 2 <= i < |MarshalAll(MessageFrames(channel, m, BodyMaxLength(frameMax))).value|
    ensures |MarshalAll(MessageFrames(channel, m, BodyMaxLength(frameMax))).value[i]| <= frameMax
  {
    hide Marshal, MarshalAll, BodyFrames;
    var max := BodyMaxLength(frameMax);
    MarshalAllAt(MessageFrames(channel, m, max), i);
    BodyFramesFit(channel, m.body, frameMax, i - 2);
  }

  /**
    On every tuned connection a message is sent whole or not at all: the only failure is that of a frame that
    cannot be marshalled, and the pieces carry the body in frames within the agreed size.
   */
  lemma TunedSendsWhole(client: int, server: nat, channel: int, m: Message)
    requires Accepted(client) && Tune(client, server).Ok? && WellFormed(m.command)
    ensures var frameMax := Tune(client, server).value;
            var max := BodyMaxLength(frameMax);
            var sent := SendMessageSpec(channel, m, max);
            max >= 1 && sent == MarshalAll(MessageFrames(channel, m, max))
            && (sent.Ok? ==>
                  BodyIn(sent.value) == m.body && forall i :: 2 <= i < |sent.value| ==> |sent.value[i]| <= frameMax)
  {
    TunesExactly(client, server);
    hide Marshal, MarshalAll, BodyIn, MessageFrames, SendMessageSpec, Tune, WellFormed;
    var frameMax := Tune(client, server).value;
    var max := BodyMaxLength(frameMax);
    SendsMessageFrames(channel, m, max);
    var sent := MarshalAll(MessageFrames(channel, m, max));
    if sent.Ok? {
      SentWhole(channel, m, max);
      forall i | 2 <= i < |sent.value| ensures |sent.value[i]| <= frameMax {
        PiecesFit(channel, m, frameMax, i);
      }
    }
  }

  /** The part of a connection that tunes and sends. */
  class Output {
    /** `params.frame_max` and `_body_max_length`, which is None before the first Tune. */
    var frameMax: int
    var bodyMaxLength: Option<int>

    ghost predicate Valid()
      reads this
    {
      Accepted(frameMax) && (bodyMaxLength.Some? ==> bodyMaxLength.value == BodyMaxLength(frameMax))
    }

    constructor ()
      ensures Valid() && frameMax == FRAME_MAX_SIZE && bodyMaxLength == None
    {
      frameMax, bodyMaxLength := FRAME_MAX_SIZE, None;
    }

    /** The setter of `frame_max`. */
    method SetFrameMax(value: int) returns (failure: Option<Error>)
      modifies `frameMax
      ensures failure == if Accepted(value) then None else Some(ValueError)
      ensures frameMax == if Accepted(value) then value else old(frameMax)
    {
      if value < FRAME_MIN_SIZE {
        return Some(ValueError);
      } else if value > FRAME_MAX_SIZE {
        return Some(ValueError);
      }
      frameMax := value;
      failure := None;
    }

    /** `_on_connection_tune`; a limit that is refused changes nothing. */
    method OnConnectionTune(server: nat) returns (failure: Option<Error>)
      requires Valid()
      modifies this
      ensures Valid() && (failure == None <==> server == 0 || server >= FRAME_MIN_SIZE)
      ensures failure == None ==>
                Ok(frameMax) == Tune(old(frameMax), server) && bodyMaxLength == Some(BodyMaxLength(frameMax))
      ensures failure != None ==> frameMax == old(frameMax) && bodyMaxLength == old(bodyMaxLength)
    {
      TunesExactly(frameMax, server);
      failure := SetFrameMax(Negotiate(frameMax, server));
      if failure == None {
        bodyMaxLength := Some(BodyMaxLength(frameMax));
      }
    }

    /** Sends a message on a tuned connection, whole or not at all. */
    method Send(channel: int, m: Message) returns (r: Result<seq<bytes>>)
      requires Valid() && bodyMaxLength.Some? && WellFormed(m.command)
      ensures r == SendMessageSpec(channel, m, BodyMaxLength(frameMax))
      ensures r.Ok? ==> BodyIn(r.value) == m.body && forall i :: 2 <= i < |r.value| ==> |r.value[i]| <= frameMax
    {
      hide MarshalAll, BodyIn;
      TunedSendsWhole(frameMax, 0, channel, m);
      r := SendMessage(channel, m, bodyMaxLength.value);
    }
  }
}
