/** From the messages sent to the messages received. */
module EndToEnd {
  import opened Bytes
  import opened Spec
  import opened Frame
  import opened Assembler
  import opened Publisher
  import opened Stream

  function AllFrames(channel: int, ms: seq<Message>, max: nat): seq<Frame>
    requires max >= 1
  {
    if ms == [] then [] else MessageFrames(channel, ms[0], max) + AllFrames(channel, ms[1..], max)
  }

  /** What the assembler yields for a message. */
  function Yield(channel: int, m: Message): Content {
    Content(Some(NormalFrame(MethodFrame(channel, m.command))),
            NormalFrame(HeaderFrame(channel, |m.body|, m.properties)), m.body)
  }

  function Yields(channel: int, ms: seq<Message>): seq<Content> {
    if ms == [] then [] else [Yield(channel, ms[0])] + Yields(channel, ms[1..])
  }

  function Normals(fs: seq<Frame>): seq<Frame> {
    if fs == [] then [] else [NormalFrame(fs[0])] + Normals(fs[1..])
  }

  lemma {:induction false} NormalsConcat(a: seq<Frame>, b: seq<Frame>)
    ensures Normals(a + b) == Normals(a) + Normals(b)
  {
    hide NormalFrame;
    if a == [] {
      assert a + b == b;
    } else {
      assert (a + b)[1..] == a[1..] + b;
      NormalsConcat(a[1..], b);
    }
  }

  // ---------- One channel ----------

  /** The channel takes its frames in turn; `None` if one of them raises. */
  function Take(box: Inbox, fs: seq<Frame>): Option<Inbox>
    decreases fs
  {
    if fs == [] then Some(box)
    else
      var (next, failure) := HandleContentFrame(box, fs[0]);
      if failure.Some? then None else Take(next, fs[1..])
  }

  lemma {:induction false} TakeConcat(box: Inbox, a: seq<Frame>, b: seq<Frame>)
    ensures Take(box, a + b) == if Take(box, a).Some? then Take(Take(box, a).value, b) else None
    decreases a
  {
    hide HandleContentFrame;
    if a == [] {
      assert a + b == b;
    } else {
      assert (a + b)[1..] == a[1..] + b;
      var (next, _) := HandleContentFrame(box, a[0]);
      TakeConcat(next, a[1..], b);
    }
  }

  lemma TakeNothing(box: Inbox)
    ensures Take(box, []) == Some(box) && Normals([]) == []
  {
  }

  lemma TakeFirst(box: Inbox, f: Frame, rest: seq<Frame>, next: Inbox)
    requires HandleContentFrame(box, f) == (next, None)
    ensures Take(box, [f] + rest) == Take(next, rest)
  {
    hide HandleContentFrame;
    assert ([f] + rest)[1..] == rest;
  }

  /** An inbox part way through a body: the header was taken and `seen` bytes of the body. */
  function Midway(contents: seq<Content>, methodFrame: Option<Frame>, header: Frame, seen: nat,
                  fragments: seq<bytes>): Inbox {
    Inbox(Partial(methodFrame, Some(header), seen, fragments), contents)
  }

  lemma TakeBodyFrame(contents: seq<Content>, mf: Frame, hf: Frame, seen: nat, fragments: seq<bytes>,
                      channel: int, part: bytes)
    requires hf.HeaderFrame? && seen + |part| <= hf.bodySize
    ensures HandleContentFrame(Midway(contents, Some(mf), hf, seen, fragments), BodyFrame(channel, part))
            == (if seen + |part| == hf.bodySize
                then Inbox(RESET, contents + [Content(Some(mf), hf, Concat(fragments + [part]))])
                else Midway(contents, Some(mf), hf, seen + |part|, fragments + [part]), None)
  {
  }

  lemma BodyNormals(channel: int, parts: seq<bytes>)
    requires parts != []
    ensures Normals(BodyFramesOf(channel, parts))
            == [BodyFrame(channel, parts[0])] + Normals(BodyFramesOf(channel, parts[1..]))
  {
    var f, rest := BodyFrame(channel, parts[0]), BodyFramesOf(channel, parts[1..]);
    assert NormalFrame(f) == f && ([f] + rest)[1..] == rest;
  }

  lemma NoBody(channel: int)
    ensures Normals(BodyFramesOf(channel, [])) == [] && Concat([]) == []
  {
  }

  /** The body frames complete the content that the method and header frames started. */
  lemma {:induction false} TakeBody(contents: seq<Content>, mf: Frame, hf: Frame, seen: nat, fragments: seq<bytes>,
                                    channel: int, parts: seq<bytes>)
    requires parts != [] && forall part :: part in parts ==> |part| >= 1
    requires hf.HeaderFrame? && hf.bodySize == seen + |Concat(parts)|
    ensures Take(Midway(contents, Some(mf), hf, seen, fragments), Normals(BodyFramesOf(channel, parts)))
            == Some(Inbox(RESET, contents + [Content(Some(mf), hf, Concat(fragments + parts))]))
    decreases parts
  {
    hide HandleContentFrame, Normals, BodyFramesOf, Take;
    var f, rest := BodyFrame(channel, parts[0]), Normals(BodyFramesOf(channel, parts[1..]));
    BodyNormals(channel, parts);
    TakeBodyFrame(contents, mf, hf, seen, fragments, channel, parts[0]);
    var box := Midway(contents, Some(mf), hf, seen, fragments);
    TakeFirst(box, f, rest, HandleContentFrame(box, f).0);
    if |parts| == 1 {
      TakeNothing(HandleContentFrame(box, f).0);
      assert Concat(parts[1..]) == [] && rest == [] by { assert parts[1..] == []; NoBody(channel); }
      assert fragments + parts == fragments + [parts[0]];
    } else {
      assert parts[1] in parts && parts[1..][0] == parts[1];
      assert |Concat(parts[1..])| >= |parts[1]|;
      assert fragments + parts == fragments + [parts[0]] + parts[1..];
      TakeBody(contents, mf, hf, seen + |parts[0]|, fragments + [parts[0]], channel, parts[1..]);
    }
  }

  lemma TakeMessage(contents: seq<Content>, channel: int, m: Message, max: nat)
    requires max >= 1 && HasContent(Index(m.command))
    ensures Take(Inbox(RESET, contents), Normals(MessageFrames(channel, m, max)))
            == Some(Inbox(RESET, contents + [Yield(channel, m)]))
  {
    hide NormalMethod, NormalProperties, Concat, Fragments, HasContent;
    var mf, hf := MethodFrame(channel, m.command), HeaderFrame(channel, |m.body|, m.properties);
    var box := Inbox(RESET, contents);
    var started := Inbox(Partial(Some(NormalFrame(mf)), None, 0, []), contents);
    assert HandleContentFrame(box, NormalFrame(mf)) == (started, None) by { NormalIndex(m.command); }
    TakeTwo(box, mf, hf, started);
    NormalsConcat(ContentFrames(channel, m), BodyFrames(channel, m.body, max));
    TakeConcat(box, Normals([mf, hf]), Normals(BodyFrames(channel, m.body, max)));
    var parts := Fragments(m.body, max);
    FragmentsCover(m.body, max);
    if m.body == [] {
      NoFragments(max);
    } else {
      assert parts != [] by { if parts == [] { EmptyConcat(); } }
      TakeBody(contents, NormalFrame(mf), NormalFrame(hf), 0, [], channel, parts);
      assert [] + parts == parts;
    }
  }

  lemma NormalIndex(m: Method)
    ensures Index(NormalMethod(m)) == Index(m)
  {
  }

  lemma NoFragments(max: nat)
    requires max >= 1
    ensures Fragments([], max) == [] && Concat([]) == []
  {
  }

  lemma EmptyConcat()
    ensures Concat([]) == []
  {
  }

  lemma TakeTwo(box: Inbox, a: Frame, b: Frame, mid: Inbox)
    requires HandleContentFrame(box, NormalFrame(a)) == (mid, None)
    ensures Take(box, Normals([a, b]))
            == var (end, failure) := HandleContentFrame(mid, NormalFrame(b)); if failure.Some? then None else Some(end)
  {
    hide HandleContentFrame, NormalFrame;
    assert [a, b][1..] == [b] && [b][1..] == [];
    assert Normals([b]) == [NormalFrame(b)] + Normals([]) == [NormalFrame(b)];
    assert Normals([a, b]) == [NormalFrame(a)] + Normals([b]) == [NormalFrame(a), NormalFrame(b)];
    assert Normals([a, b])[1..] == [NormalFrame(b)] && [NormalFrame(b)][1..] == [];
    assert Take(mid, [NormalFrame(b)])
           == var (end, failure) := HandleContentFrame(mid, NormalFrame(b)); if failure.Some? then None else Some(end);
  }

  /** Two runs of frames, each taken by itself and yielding some contents, are taken one after the other. */
  lemma TakeBoth(contents: seq<Content>, a: seq<Frame>, y: seq<Content>, b: seq<Frame>, z: seq<Content>)
    requires Take(Inbox(RESET, contents), Normals(a)) == Some(Inbox(RESET, contents + y))
    requires Take(Inbox(RESET, contents + y), Normals(b)) == Some(Inbox(RESET, contents + y + z))
    ensures Take(Inbox(RESET, contents), Normals(a + b)) == Some(Inbox(RESET, contents + (y + z)))
  {
    hide Take, Normals;
    NormalsConcat(a, b);
    TakeConcat(Inbox(RESET, contents), Normals(a), Normals(b));
    assert contents + y + z == contents + (y + z);
  }

  lemma {:induction false} TakeMessages(contents: seq<Content>, channel: int, ms: seq<Message>, max: nat)
    requires max >= 1 && forall m :: m in ms ==> HasContent(Index(m.command))
    ensures Take(Inbox(RESET, contents), Normals(AllFrames(channel, ms, max)))
            == Some(Inbox(RESET, contents + Yields(channel, ms)))
    decreases ms
  {
    hide MessageFrames, Yield, HasContent, Index, Take, Normals;
    if ms == [] {
      TakeNothing(Inbox(RESET, contents));
      assert contents + [] == contents;
    } else {
      var a, b := MessageFrames(channel, ms[0], max), AllFrames(channel, ms[1..], max);
      TakeMessage(contents, channel, ms[0], max);
      TakeMessages(contents + [Yield(channel, ms[0])], channel, ms[1..], max);
      TakeBoth(contents, a, [Yield(channel, ms[0])], b, Yields(channel, ms[1..]));
    }
  }

  // ---------- All channels ----------

  /** A method frame without content that no callback takes: the channel only logs it. */
  predicate Unexpected(f: Frame) {
    f.MethodFrame? && !HasContent(Index(f.command))
  }

  lemma UnexpectedIgnored(box: Inbox, f: Frame)
    requires Unexpected(f)
    ensures HandleContentFrame(box, NormalFrame(f)) == (box, None)
  {
    NormalIndex(f.command);
  }

  /**
    The frames that a channel's assembler is to use, in order: the channel's own, but for those that callbacks
    take and those that are unexpected; `n` frames came before.
   */
  function OnChannel(fs: seq<Frame>, channel: int, listening: nat -> Keys, n: nat): seq<Frame>
    decreases fs
  {
    if fs == [] then []
    else if ChannelOf(fs[0]) == channel && !Intercepts(listening(n), fs[0]) && !Unexpected(fs[0])
    then [fs[0]] + OnChannel(fs[1..], channel, listening, n + 1)
    else OnChannel(fs[1..], channel, listening, n + 1)
  }

  function DispatchAll(inboxes: map<int, Inbox>, fs: seq<Frame>, listening: nat -> Keys, n: nat)
    : Option<map<int, Inbox>>
    decreases fs
  {
    if fs == [] then Some(inboxes)
    else
      var (next, failure) := Dispatch(listening(n), inboxes, fs[0]);
      if failure.Some? then None else DispatchAll(next, fs[1..], listening, n + 1)
  }

  lemma NormalKeepsChannel(f: Frame, keys: Keys)
    ensures ChannelOf(NormalFrame(f)) == ChannelOf(f) && (Intercepts(keys, NormalFrame(f)) <==> Intercepts(keys, f))
  {
    if f.MethodFrame? {
      NormalIndex(f.command);
    }
  }

  /** However the channels' frames are interleaved, each channel sees its own frames and no others. */
  lemma {:induction false} ChannelsIndependent(inboxes: map<int, Inbox>, fs: seq<Frame>, listening: nat -> Keys, n: nat)
    requires forall c :: c in inboxes ==> c > 0 && Take(inboxes[c], Normals(OnChannel(fs, c, listening, n))).Some?
    ensures var end := DispatchAll(inboxes, Normals(fs), listening, n);
            end.Some? && end.value.Keys == inboxes.Keys
            && forall c :: c in inboxes ==>
               Some(end.value[c]) == Take(inboxes[c], Normals(OnChannel(fs, c, listening, n)))
    decreases fs
  {
    hide HandleContentFrame, NormalFrame, Intercepts, Unexpected;
    if fs != [] {
      var f, c := fs[0], ChannelOf(fs[0]);
      NormalKeepsChannel(f, listening(n));
      assert Normals(fs)[1..] == Normals(fs[1..]);
      var next := inboxes;
      if c in inboxes && !Intercepts(listening(n), f) && Unexpected(f) {
        UnexpectedIgnored(inboxes[c], f);
        assert inboxes[c := inboxes[c]] == inboxes;
      } else if c in inboxes && !Intercepts(listening(n), f) {
        var own := OnChannel(fs, c, listening, n);
        assert own[1..] == OnChannel(fs[1..], c, listening, n + 1);
        assert Normals(own)[1..] == Normals(own[1..]);
        next := inboxes[c := HandleContentFrame(inboxes[c], NormalFrame(f)).0];
      }
      assert Dispatch(listening(n), inboxes, NormalFrame(f)) == (next, None);
      forall d | d in next
        ensures d > 0 && Take(next[d], Normals(OnChannel(fs[1..], d, listening, n + 1)))
                         == Take(inboxes[d], Normals(OnChannel(fs, d, listening, n)))
      {
      }
      ChannelsIndependent(next, fs[1..], listening, n + 1);
      assert next.Keys == inboxes.Keys;
    }
  }

  /** A buffer that begins with a frame: that frame is taken off and processed. */
  lemma DrainFirst(r: Receiver, f: Frame, rest: bytes)
    requires FrameWellFormed(f) && Marshal(f).Ok? && r.buffer == Marshal(f).value + rest && Marshal(f).value != []
    ensures var (next, failure) := Advance(r, |Marshal(f).value|, NormalFrame(f));
            next.buffer == rest && Drain(r) == if failure.Some? then (next, failure) else Drain(next)
  {
    FrameRoundTrip(f, rest);
    hide Marshal, DecodeFrame, Dispatch, NormalFrame, FrameWellFormed;
    assert r.buffer[|Marshal(f).value|..] == rest;
  }

  lemma MarshalledNotEmpty(f: Frame)
    requires FrameWellFormed(f) && Marshal(f).Ok?
    ensures Marshal(f).value != []
  {
    FrameRoundTrip(f, []);
    hide Marshal, NormalFrame, FrameWellFormed;
    assert Marshal(f).value + [] == Marshal(f).value;
  }

  /** Draining a buffer that holds whole frames processes exactly those frames. */
  lemma {:induction false} DrainFrames(r: Receiver, fs: seq<Frame>)
    requires forall f :: f in fs ==> FrameWellFormed(f)
    requires MarshalAll(fs).Ok? && r.buffer == Concat(MarshalAll(fs).value)
    requires DispatchAll(r.inboxes, Normals(fs), r.listening, |r.log|).Some?
    ensures Drain(r)
            == (Receiver([], r.bytesReceived + |r.buffer|, r.framesReceived + Counted(Normals(fs)), r.log + Normals(fs),
                         DispatchAll(r.inboxes, Normals(fs), r.listening, |r.log|).value, r.listening), None)
    decreases fs
  {
    hide Marshal, MarshalAll, DecodeFrame, Dispatch, NormalFrame, FrameWellFormed, Drain, Normals, Concat;
    if fs == [] {
      assert r.log + [] == r.log;
      NothingToDrain(r);
    } else {
      var f, rest := fs[0], fs[1..];
      assert f in fs && forall g :: g in rest ==> g in fs;
      MarshalledFirst(fs);
      MarshalledNotEmpty(f);
      NormalsFirst(fs);
      DrainFirst(r, f, Concat(MarshalAll(rest).value));
      CountedConcat([NormalFrame(f)], Normals(rest));
      assert ([NormalFrame(f)] + Normals(rest))[1..] == Normals(rest);
      DrainFrames(Advance(r, |Marshal(f).value|, NormalFrame(f)).0, rest);
      ConcatAssociative(r.log, [NormalFrame(f)], Normals(rest));
    }
  }

  lemma NothingToDrain(r: Receiver)
    ensures MarshalAll([]) == Ok([]) && Concat([]) == [] && Normals([]) == []
    ensures r.buffer == [] ==> Drain(r) == (r, None)
  {
  }

  lemma MarshalledFirst(fs: seq<Frame>)
    requires fs != [] && MarshalAll(fs).Ok?
    ensures Marshal(fs[0]).Ok? && MarshalAll(fs[1..]).Ok?
    ensures Concat(MarshalAll(fs).value) == Marshal(fs[0]).value + Concat(MarshalAll(fs[1..]).value)
  {
    hide Marshal;
    var b, rest := Marshal(fs[0]).value, MarshalAll(fs[1..]).value;
    assert MarshalAll(fs).value == [b] + rest && ([b] + rest)[1..] == rest;
  }

  lemma NormalsFirst(fs: seq<Frame>)
    requires fs != []
    ensures Normals(fs) == [NormalFrame(fs[0])] + Normals(fs[1..])
  {
  }

  function FreshInboxes(channels: set<int>): map<int, Inbox> {
    map c | c in channels :: Inbox(RESET, [])
  }

  /**
    Messages go out on any number of channels, their frames interleaved in any way and mixed with heartbeats,
    with method frames that callbacks take and with unexpected ones, and the bytes arrive cut in any way. Then
    every channel's assembler yields exactly the messages of that channel, in order and once each, and is
    reset; nothing is left in the buffer.
   */
  lemma EndToEndDelivery(sent: map<int, seq<Message>>, max: nat, fs: seq<Frame>, chunks: seq<bytes>,
                         listening: nat -> Keys)
    requires max >= 1
    requires forall c :: c in sent ==> c > 0 && OnChannel(fs, c, listening, 0) == AllFrames(c, sent[c], max)
    requires forall c, m :: c in sent && m in sent[c] ==> HasContent(Index(m.command))
    requires forall f :: f in fs ==> FrameWellFormed(f)
    requires MarshalAll(fs).Ok? && Concat(chunks) == Concat(MarshalAll(fs).value)
    ensures var (end, failure) := Feed(Receiver([], 0, 0, [], FreshInboxes(sent.Keys), listening), chunks);
            failure.None? && end.buffer == [] && end.bytesReceived == |Concat(chunks)|
            && end.inboxes.Keys == sent.Keys
            && forall c :: c in sent ==> end.inboxes[c] == Inbox(RESET, Yields(c, sent[c]))
  {
    hide MarshalAll, AllFrames, Drain, Take, HasContent, Index, FrameWellFormed, Concat;
    var inboxes := FreshInboxes(sent.Keys);
    var start := Receiver([], 0, 0, [], inboxes, listening);
    forall c | c in sent
      ensures Take(inboxes[c], Normals(OnChannel(fs, c, listening, 0))) == Some(Inbox(RESET, Yields(c, sent[c])))
    {
      TakeMessages([], c, sent[c], max);
      assert [] + Yields(c, sent[c]) == Yields(c, sent[c]);
    }
    ChannelsIndependent(inboxes, fs, listening, 0);
    EmptySettled(start);
    CutsDoNotMatter(start, chunks);
    assert [] + Concat(chunks) == Concat(chunks);
    DrainFrames(start.(buffer := Concat(chunks)), fs);
  }

  lemma EmptySettled(r: Receiver)
    requires r.buffer == []
    ensures Settled(r)
  {
  }

  // ---------- On a tuned connection ----------

  /** The body limit of a tuned connection. */
  function TunedLimit(client: int, server: nat): (max: nat)
    requires Accepted(client) && Tune(client, server).Ok?
    ensures 4088 <= max <= 131064 && max == BodyMaxLength(Tune(client, server).value)
  {
    TunesExactly(client, server);
    BodyMaxLength(Tune(client, server).value)
  }

  lemma {:induction false} AllFramesFit(channel: int, ms: seq<Message>, frameMax: nat, f: Frame)
    requires BodyMaxLength(frameMax) >= 1 && f in AllFrames(channel, ms, BodyMaxLength(frameMax)) && f.BodyFrame?
    requires Marshal(f).Ok?
    ensures |Marshal(f).value| <= frameMax
    decreases ms
  {
    hide Marshal, MessageFrames;
    if f in MessageFrames(channel, ms[0], BodyMaxLength(frameMax)) {
      MessageFramesFit(channel, ms[0], frameMax, f);
    } else {
      AllFramesFit(channel, ms[1..], frameMax, f);
    }
  }

  lemma {:induction false} OnItsChannel(fs: seq<Frame>, f: Frame, listening: nat -> Keys, n: nat)
    requires f in fs && f.BodyFrame?
    ensures f in OnChannel(fs, f.channel, listening, n)
    decreases fs
  {
    if fs[0] != f {
      OnItsChannel(fs[1..], f, listening, n + 1);
    }
  }

  /**
    Delivery, for every frame size that a client and a server agree on: the body limit is the tuned one, and
    no body frame on the wire exceeds the frame size.
   */
  lemma TunedDelivery(sent: map<int, seq<Message>>, client: int, server: nat, fs: seq<Frame>, chunks: seq<bytes>,
                      listening: nat -> Keys)
    requires Accepted(client) && Tune(client, server).Ok?
    requires forall c :: c in sent ==>
               c > 0 && OnChannel(fs, c, listening, 0) == AllFrames(c, sent[c], TunedLimit(client, server))
    requires forall c, m :: c in sent && m in sent[c] ==> HasContent(Index(m.command))
    requires forall f :: f in fs ==> FrameWellFormed(f)
    requires MarshalAll(fs).Ok? && Concat(chunks) == Concat(MarshalAll(fs).value)
    ensures var (end, failure) := Feed(Receiver([], 0, 0, [], FreshInboxes(sent.Keys), listening), chunks);
            failure.None? && end.buffer == [] && end.inboxes.Keys == sent.Keys
            && forall c :: c in sent ==> end.inboxes[c] == Inbox(RESET, Yields(c, sent[c]))
    ensures forall f :: f in fs && f.BodyFrame? && f.channel in sent && Marshal(f).Ok? ==>
              |Marshal(f).value| <= Tune(client, server).value
  {
    var frameMax := Tune(client, server).value;
    EndToEndDelivery(sent, TunedLimit(client, server), fs, chunks, listening);
    hide Tune, TunedLimit, Feed, Marshal, MarshalAll, AllFrames, OnChannel;
    forall f | f in fs && f.BodyFrame? && f.channel in sent && Marshal(f).Ok?
      ensures |Marshal(f).value| <= frameMax
    {
      OnItsChannel(fs, f, listening, 0);
      AllFramesFit(f.channel, sent[f.channel], frameMax, f);
    }
  }
}
