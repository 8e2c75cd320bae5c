/** What input raises, and when. */
module StreamErrors {
  import opened Bytes
  import opened Spec
  import opened Frame
  import opened FieldWire
  import opened WireFormat
  import opened Assembler
  import opened Publisher
  import opened Stream
  import opened EndToEnd

  /** After whole frames that raise nothing, what follows is drained from the state that they lead to. */
  lemma DrainAfter(r: Receiver, fs: seq<Frame>, more: bytes)
    requires forall f :: f in fs ==> FrameWellFormed(f)
    requires MarshalAll(fs).Ok? && r.buffer == Concat(MarshalAll(fs).value) + more
    requires DispatchAll(r.inboxes, Normals(fs), r.listening, |r.log|).Some?
    ensures var inboxes := DispatchAll(r.inboxes, Normals(fs), r.listening, |r.log|).value;
            Drain(r)
            == Drain(Receiver(more, r.bytesReceived + |r.buffer| - |more|, r.framesReceived + Counted(Normals(fs)),
                              r.log + Normals(fs), inboxes, r.listening))
  {
    hide Marshal, MarshalAll, Drain, Normals, Concat, FrameWellFormed, DispatchAll, Counted;
    var whole := Concat(MarshalAll(fs).value);
    var first := r.(buffer := whole);
    DrainFrames(first, fs);
    DrainSplit(first, more);
    assert first.(buffer := first.buffer + more) == r;
    assert [] + more == more;
  }

  /** A frame that its channel refuses ends the reading with that exception; later bytes are left unread. */
  lemma FirstFailureStops(r: Receiver, fs: seq<Frame>, f: Frame, e: Error, rest: bytes)
    requires FrameWellFormed(f) && forall g :: g in fs ==> FrameWellFormed(g)
    requires MarshalAll(fs).Ok? && Marshal(f).Ok?
    requires r.buffer == Concat(MarshalAll(fs).value) + (Marshal(f).value + rest)
    requires DispatchAll(r.inboxes, Normals(fs), r.listening, |r.log|).Some?
    requires var inboxes := DispatchAll(r.inboxes, Normals(fs), r.listening, |r.log|).value;
             Dispatch(r.listening(|r.log + Normals(fs)|), inboxes, NormalFrame(f)).1 == Some(e)
    ensures var (d, failure) := Drain(r);
            failure == Some(e) && d.buffer == rest && d.log == r.log + Normals(fs) + [NormalFrame(f)]
  {
    hide Marshal, MarshalAll, DecodeFrame, Normals, Concat, FrameWellFormed, DispatchAll, Counted, Dispatch,
      NormalFrame, Drain;
    var more := Marshal(f).value + rest;
    DrainAfter(r, fs, more);
    MarshalledNotEmpty(f);
    var inboxes := DispatchAll(r.inboxes, Normals(fs), r.listening, |r.log|).value;
    DrainFirst(Receiver(more, r.bytesReceived + |r.buffer| - |more|, r.framesReceived + Counted(Normals(fs)),
                        r.log + Normals(fs), inboxes, r.listening), f, rest);
  }

  lemma DrainMalformed(r: Receiver, e: Error)
    requires r.buffer != [] && DecodeFrame(r.buffer) == Err(e)
    ensures Drain(r) == (r, Some(e))
  {
  }

  /** So do bytes that are no frame. */
  lemma MalformedStops(r: Receiver, fs: seq<Frame>, frameType: byte, channel: nat, payload: bytes, end: byte,
                       rest: bytes)
    requires forall f :: f in fs ==> FrameWellFormed(f)
    requires EnclosureFits(channel, payload) && frameType != 0x41 && (end != 206 || frameType !in {1, 2, 3, 8})
    requires MarshalAll(fs).Ok?
    requires r.buffer
             == Concat(MarshalAll(fs).value)
                + ([frameType] + Two(channel) + Four(|payload|) + payload + [end] + rest)
    requires DispatchAll(r.inboxes, Normals(fs), r.listening, |r.log|).Some?
    ensures var (d, failure) := Drain(r);
            failure == Some(InvalidFrame) && d.log == r.log + Normals(fs)
            && |d.buffer| == |payload| + 8 + |rest|
  {
    hide MarshalAll, DecodeFrame, Normals, Concat, DispatchAll, Counted, Two, Four, Drain, FrameWellFormed;
    var more := [frameType] + Two(channel) + Four(|payload|) + payload + [end] + rest;
    assert |more| == |payload| + 8 + |rest|;
    DrainAfter(r, fs, more);
    EnclosedDecodes(frameType, channel, payload, end, rest);
    var inboxes := DispatchAll(r.inboxes, Normals(fs), r.listening, |r.log|).value;
    DrainMalformed(Receiver(more, r.bytesReceived + |r.buffer| - |more|, r.framesReceived + Counted(Normals(fs)),
                            r.log + Normals(fs), inboxes, r.listening), InvalidFrame);
  }

  // ---------- What a channel refuses ----------

  /**
    Body frames after a method and a header: the content is complete when the announced length is reached,
    waits while it is not, and a longer body raises.
   */
  lemma BodyDecides(contents: seq<Content>, channel: int, m: Method, size: nat, p: Properties, parts: seq<bytes>,
                    last: bytes)
    requires HasContent(Index(m)) && |Concat(parts)| < size
    ensures var start := [MethodFrame(channel, m), HeaderFrame(channel, size, p)] + BodyFramesOf(channel, parts);
            var total := |Concat(parts)| + |last|;
            var box := Take(Inbox(RESET, contents), start);
            box.Some? && box.value.contents == contents
            && var (after, failure) := HandleContentFrame(box.value, BodyFrame(channel, last));
               if total > size then failure == Some(BodyTooLong) && after.contents == contents
               else failure == None
                    && after.contents == if total == size
                                         then contents + [Content(Some(MethodFrame(channel, m)),
                                                                  HeaderFrame(channel, size, p), Concat(parts) + last)]
                                         else contents
  {
    hide Concat, Take, HandleContentFrame, HasContent, Index;
    var mf, hf := MethodFrame(channel, m), HeaderFrame(channel, size, p);
    var bodies := BodyFramesOf(channel, parts);
    assert [mf, hf] + bodies == [mf] + ([hf] + bodies);
    var started := Inbox(Partial(Some(mf), None, 0, []), contents);
    StartsContent(contents, channel, m, size, p);
    TakeFirst(Inbox(RESET, contents), mf, [hf] + bodies, started);
    TakeFirst(started, hf, bodies, Midway(contents, Some(mf), hf, 0, []));
    assert [] + parts == parts;
    NothingJoined();
    TakePart(contents, mf, hf, [], channel, parts);
    LastDecides(contents, mf, hf, parts, channel, last);
  }

  lemma NothingJoined()
    ensures Concat([]) == []
  {
  }

  lemma StartsContent(contents: seq<Content>, channel: int, m: Method, size: nat, p: Properties)
    requires HasContent(Index(m)) && size > 0
    ensures var mf, hf := MethodFrame(channel, m), HeaderFrame(channel, size, p);
            var started := Inbox(Partial(Some(mf), None, 0, []), contents);
            HandleContentFrame(Inbox(RESET, contents), mf) == (started, None)
            && HandleContentFrame(started, hf) == (Midway(contents, Some(mf), hf, 0, []), None)
  {
  }

  lemma LastDecides(contents: seq<Content>, mf: Frame, hf: Frame, parts: seq<bytes>, channel: int, last: bytes)
    requires hf.HeaderFrame? && |Concat(parts)| < hf.bodySize
    ensures var total := |Concat(parts)| + |last|;
            var (after, failure) := HandleContentFrame(Midway(contents, Some(mf), hf, |Concat(parts)|, parts),
                                                       BodyFrame(channel, last));
            if total > hf.bodySize then failure == Some(BodyTooLong) && after.contents == contents
            else failure == None
                 && after.contents == if total == hf.bodySize
                    then contents + [Content(Some(mf), hf, Concat(parts) + last)]
                                      else contents
  {
    ConcatAppend(parts, [last]);
    ConcatOne(last);
    hide Concat;
  }

  lemma {:induction false} TakePart(contents: seq<Content>, mf: Frame, hf: Frame, before: seq<bytes>, channel: int,
                                    parts: seq<bytes>)
    requires hf.HeaderFrame? && |Concat(before + parts)| < hf.bodySize
    ensures Take(Midway(contents, Some(mf), hf, |Concat(before)|, before), BodyFramesOf(channel, parts))
            == Some(Midway(contents, Some(mf), hf, |Concat(before + parts)|, before + parts))
    decreases parts
  {
    hide HandleContentFrame, Concat, Take;
    var box := Midway(contents, Some(mf), hf, |Concat(before)|, before);
    if parts == [] {
      assert before + parts == before;
      TakeNothing(box);
    } else {
      var more := before + [parts[0]];
      assert before + parts == more + parts[1..];
      ConcatAppend(before, [parts[0]]);
      ConcatOne(parts[0]);
      ConcatAppend(more, parts[1..]);
      TakeBodyFrame(contents, mf, hf, |Concat(before)|, before, channel, parts[0]);
      TakeFirst(box, BodyFrame(channel, parts[0]), BodyFramesOf(channel, parts[1..]),
                Midway(contents, Some(mf), hf, |Concat(more)|, more));
      TakePart(contents, mf, hf, more, channel, parts[1..]);
    }
  }

  /** A body without a header raises, and so does an empty body that no method announced. */
  lemma MissingFramesRaise(contents: seq<Content>, channel: int, fragment: bytes, p: Properties)
    ensures HandleContentFrame(Inbox(RESET, contents), BodyFrame(channel, fragment)).1 == Some(AttributeError)
    ensures HandleContentFrame(Inbox(RESET, contents), HeaderFrame(channel, 0, p)).1 == Some(AttributeError)
  {
  }
}
