/** The inbound byte stream (`_on_data_available` and `_process_frame` in connection.py). */
module Stream {
  import opened Bytes
  import opened Spec
  import opened Frame
  import opened Assembler

  /** What one registered channel has received: the assembler's fields and the contents it completed. */
  datatype Inbox = Inbox(partial: Partial, contents: seq<Content>)

  /** The methods of channels for which callbacks are registered, which take the frame from the channel. */
  type Keys = set<(int, nat)>

  /**
    The receiving half of a connection. `log` lists the frames handed to `_process_frame`; callbacks come and
    go, and `listening` says which are registered when the frame after `n` others arrives.
   */
  datatype Receiver = Receiver(buffer: bytes, bytesReceived: nat, framesReceived: nat, log: seq<Frame>,
                               inboxes: map<int, Inbox>, listening: nat -> Keys)

  /** `Channel._handle_content_frame`: an unexpected frame is only logged, other errors propagate. */
  function HandleContentFrame(box: Inbox, f: Frame): (Inbox, Option<Error>) {
    var (p, r) := Assemble(box.partial, f);
    match r
    case Err(e) => (box.(partial := p), if e == UnexpectedFrame then None else Some(e))
    case Ok(None) => (box.(partial := p), None)
    case Ok(Some(content)) =>
      if content.methodFrame.None? then (box.(partial := p), Some(AttributeError))
      else (Inbox(p, box.contents + [content]), None)
  }

  /** `_process_callbacks` takes a method frame for which a callback is registered. */
  predicate Intercepts(keys: Keys, f: Frame) {
    f.MethodFrame? && (f.channel, Index(f.command)) in keys
  }

  /** `_process_frame`. */
  function Dispatch(keys: Keys, inboxes: map<int, Inbox>, f: Frame): (map<int, Inbox>, Option<Error>) {
    if !Intercepts(keys, f) && ChannelOf(f) > 0 && ChannelOf(f) in inboxes then
      var (box, failure) := HandleContentFrame(inboxes[ChannelOf(f)], f);
      (inboxes[ChannelOf(f) := box], failure)
    else (inboxes, None)
  }

  /** A frame of `n` bytes is taken off the buffer and processed. */
  function Advance(r: Receiver, n: nat, f: Frame): (Receiver, Option<Error>)
    requires n <= |r.buffer|
  {
    var (inboxes, failure) := Dispatch(r.listening(|r.log|), r.inboxes, f);
    (Receiver(r.buffer[n..], r.bytesReceived + n, r.framesReceived + Counted([f]), r.log + [f], inboxes, r.listening),
     failure)
  }

  /** `frames_received` counts every frame but protocol headers. */
  function Counted(fs: seq<Frame>): nat {
    if fs == [] then 0 else (if fs[0].ProtocolHeader? then 0 else 1) + Counted(fs[1..])
  }

  lemma CountedOne(f: Frame)
    ensures Counted([f]) == if f.ProtocolHeader? then 0 else 1
  {
    assert [f][1..] == [];
  }

  lemma {:induction false} CountedConcat(a: seq<Frame>, b: seq<Frame>)
    ensures Counted(a + b) == Counted(a) + Counted(b)
  {
    if a == [] {
      assert a + b == b;
    } else {
      assert (a + b)[1..] == a[1..] + b;
      CountedConcat(a[1..], b);
    }
  }

  /** The loop of `_on_data_available`: the state when it stops, and the exception if one stopped it. */
  function Drain(r: Receiver): (Receiver, Option<Error>)
    decreases |r.buffer|
  {
    if r.buffer == [] then (r, None)
    else match DecodeFrame(r.buffer)
      case Err(e) => (r, Some(e))
      case Ok((_, None)) => (r, None)
      case Ok((n, Some(f))) =>
        var (next, failure) := Advance(r, n, f);
        if failure.Some? then (next, failure) else Drain(next)
  }

  function OnData(r: Receiver, data: bytes): (Receiver, Option<Error>) {
    Drain(r.(buffer := r.buffer + data))
  }

  /** Chunk after chunk until an exception ends it. */
  function Feed(r: Receiver, chunks: seq<bytes>): (Receiver, Option<Error>)
    decreases chunks
  {
    if chunks == [] then (r, None)
    else
      var (next, failure) := OnData(r, chunks[0]);
      if failure.Some? then (next, failure) else Feed(next, chunks[1..])
  }

  /** Nothing in the buffer is left to decode. */
  ghost predicate Settled(r: Receiver) { Drain(r) == (r, None) }

  /** Data that is still to come: draining first and then again with it, or draining once with it. */
  lemma {:induction false} DrainSplit(r: Receiver, more: bytes)
    ensures var (mid, failure) := Drain(r);
            var whole := Drain(r.(buffer := r.buffer + more));
            if failure.Some? then whole == (mid.(buffer := mid.buffer + more), failure) else whole == OnData(mid, more)
    decreases |r.buffer|
  {
    hide DecodeFrame, Dispatch;
    if r.buffer != [] {
      var d := DecodeFrame(r.buffer);
      if !Incomplete(d) {
        DecodeFrameStable(r.buffer, more);
        if d.Ok? {
          var n := d.value.0;
          assert (r.buffer + more)[n..] == r.buffer[n..] + more;
          if d.value.1.Some? {
            DrainSplit(Advance(r, n, d.value.1.value).0, more);
          }
        }
      }
    }
  }

  lemma {:induction false} DrainSettles(r: Receiver)
    ensures Drain(r).1.None? ==> Settled(Drain(r).0)
    decreases |r.buffer|
  {
    hide DecodeFrame, Dispatch;
    if r.buffer != [] {
      var d := DecodeFrame(r.buffer);
      if d.Ok? && d.value.1.Some? {
        DrainSettles(Advance(r, d.value.0, d.value.1.value).0);
      }
    }
  }

  /**
    How the input is cut does not matter: fed in any chunks, the same frames are processed with the
    same effect as when it is fed whole, and an exception is raised after the same frames. What the
    exception leaves unread is the only difference.
   */
  lemma {:induction false} CutsDoNotMatter(r: Receiver, chunks: seq<bytes>)
    requires Settled(r)
    ensures var (cut, failure) := Feed(r, chunks);
            var (whole, failure') := OnData(r, Concat(chunks));
            failure == failure' && cut.buffer <= whole.buffer && cut.(buffer := whole.buffer) == whole
            && (failure.None? ==> cut == whole && Settled(cut))
    decreases chunks
  {
    hide Drain;
    if chunks == [] {
      assert r.buffer + [] == r.buffer;
    } else {
      var first := r.(buffer := r.buffer + chunks[0]);
      var rest := Concat(chunks[1..]);
      DrainSplit(first, rest);
      DrainSettles(first);
      assert first.buffer + rest == r.buffer + Concat(chunks);
      var (next, failure) := OnData(r, chunks[0]);
      if failure.None? {
        CutsDoNotMatter(next, chunks[1..]);
      }
    }
  }

  /**
    Every byte fed is either counted as received or still buffered, and every frame processed but protocol
    headers is counted.
   */
  lemma {:induction false} BytesConserved(r: Receiver)
    ensures var (after, _) := Drain(r);
            after.bytesReceived + |after.buffer| == r.bytesReceived + |r.buffer|
            && r.log <= after.log && after.framesReceived - r.framesReceived == Counted(after.log) - Counted(r.log)
    decreases |r.buffer|
  {
    hide DecodeFrame, Dispatch;
    if r.buffer != [] {
      var d := DecodeFrame(r.buffer);
      if d.Ok? && d.value.1.Some? {
        BytesConserved(Advance(r, d.value.0, d.value.1.value).0);
        CountedConcat(r.log, [d.value.1.value]);
      }
    }
  }

  /** The receiving half of `Connection`. */
  class Connection {
    var frameBuffer: bytes
    var bytesReceived: nat
    var framesReceived: nat
    const listening: nat -> Keys
    var inboxes: map<int, Inbox>
    var log: seq<Frame>

    ghost function State(): Receiver
      reads this
    {
      Receiver(frameBuffer, bytesReceived, framesReceived, log, inboxes, listening)
    }

    constructor (channels: set<int>, listening: nat -> Keys)
      ensures State() == Receiver([], 0, 0, [], map c | c in channels :: Inbox(RESET, []), listening)
    {
      frameBuffer, bytesReceived, framesReceived, log := [], 0, 0, [];
      this.listening := listening;
      inboxes := map c | c in channels :: Inbox(RESET, []);
    }

    method OnDataAvailable(dataIn: bytes) returns (failure: Option<Error>)
      modifies this
      ensures (State(), failure) == OnData(old(State()), dataIn)
      ensures bytesReceived + |frameBuffer| == old(bytesReceived + |frameBuffer|) + |dataIn|
    {
      hide DecodeFrame, Dispatch, Counted;
      frameBuffer := frameBuffer + dataIn;
      ghost var all := State();
      BytesConserved(all);
      while frameBuffer != []
        invariant Drain(all) == Drain(State())
        decreases |frameBuffer|
      {
        var decoded := DecodeFrame(frameBuffer);
        if decoded.Err? {
          return Some(decoded.error);
        }
        if decoded.value.1.None? {
          return None;
        }
        CountedOne(decoded.value.1.value);
        ghost var advanced := Advance(State(), decoded.value.0, decoded.value.1.value);
        TrimFrameBuffer(decoded.value.0);
        failure := ProcessFrame(decoded.value.1.value);
        assert (State(), failure) == advanced;
        if failure.Some? {
          return;
        }
      }
      return None;
    }

    method TrimFrameBuffer(byteCount: nat)
      requires byteCount <= |frameBuffer|
      modifies this
      ensures frameBuffer == old(frameBuffer)[byteCount..]
      ensures bytesReceived == old(bytesReceived) + byteCount
      ensures inboxes == old(inboxes) && log == old(log) && framesReceived == old(framesReceived)
    {
      frameBuffer := frameBuffer[byteCount..];
      bytesReceived := bytesReceived + byteCount;
    }

    method ProcessFrame(f: Frame) returns (failure: Option<Error>)
      modifies this
      ensures (inboxes, failure) == Dispatch(listening(|old(log)|), old(inboxes), f)
      ensures log == old(log) + [f]
      ensures framesReceived == old(framesReceived) + if f.ProtocolHeader? then 0 else 1
      ensures frameBuffer == old(frameBuffer) && bytesReceived == old(bytesReceived)
    {
      var keys := listening(|log|);
      log := log + [f];
      if f.ProtocolHeader? {
        return None;
      }
      framesReceived := framesReceived + 1;
      if f.MethodFrame? && (f.channel, Index(f.command)) in keys {
        return None;
      }
      if ChannelOf(f) > 0 && ChannelOf(f) in inboxes {
        var (box, e) := HandleContentFrame(inboxes[ChannelOf(f)], f);
        inboxes := inboxes[ChannelOf(f) := box];
        return e;
      }
      return None;
    }
  }
}
