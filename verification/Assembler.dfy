/** Reassembly of content from its frames (`ContentFrameAssembler` in channel.py). */
module Assembler {
  import opened Bytes
  import opened Spec
  import opened Frame

  /** The fields of a `ContentFrameAssembler`. */
  datatype Partial = Partial(methodFrame: Option<Frame>, headerFrame: Option<Frame>, seen: nat, fragments: seq<bytes>)

  /** The tuple that `_finish` returns; the method frame is missing if none arrived. */
  datatype Content = Content(methodFrame: Option<Frame>, headerFrame: Frame, body: bytes)

  const RESET := Partial(None, None, 0, [])

  /** One frame: the new fields, and the content if the frame completed one. */
  function Assemble(p: Partial, f: Frame): (Partial, Result<Option<Content>>) {
    match f
    case MethodFrame(_, m) =>
      if HasContent(Index(m)) then (p.(methodFrame := Some(f)), Ok(None)) else (p, Err(UnexpectedFrame))
    case HeaderFrame(_, bodySize, _) =>
      if bodySize == 0 then (RESET, Ok(Some(Content(p.methodFrame, f, Concat(p.fragments)))))
      else (p.(headerFrame := Some(f)), Ok(None))
    case BodyFrame(_, fragment) =>
      var q := p.(seen := p.seen + |fragment|, fragments := p.fragments + [fragment]);
      if p.headerFrame.None? || !p.headerFrame.value.HeaderFrame? then (q, Err(AttributeError))
      else if q.seen == p.headerFrame.value.bodySize then
        (RESET, Ok(Some(Content(p.methodFrame, p.headerFrame.value, Concat(q.fragments)))))
      else if q.seen > p.headerFrame.value.bodySize then (q, Err(BodyTooLong))
      else (q, Ok(None))
    case _ => (p, Err(UnexpectedFrame))
  }

  class ContentFrameAssembler {
    var methodFrame: Option<Frame>
    var headerFrame: Option<Frame>
    var seenSoFar: nat
    var bodyFragments: seq<bytes>

    function State(): Partial
      reads this
    {
      Partial(methodFrame, headerFrame, seenSoFar, bodyFragments)
    }

    constructor ()
      ensures State() == RESET
    {
      methodFrame, headerFrame, seenSoFar, bodyFragments := None, None, 0, [];
    }

    method Process(f: Frame) returns (r: Result<Option<Content>>)
      modifies this
      ensures (State(), r) == Assemble(old(State()), f)
    {
      if f.MethodFrame? && HasContent(Index(f.command)) {
        methodFrame := Some(f);
        r := Ok(None);
      } else if f.HeaderFrame? {
        headerFrame := Some(f);
        if f.bodySize == 0 {
          var content := Finish();
          r := Ok(Some(content));
        } else {
          r := Ok(None);
        }
      } else if f.BodyFrame? {
        r := HandleBodyFrame(f);
      } else {
        r := Err(UnexpectedFrame);
      }
    }

    method Finish() returns (content: Content)
      requires headerFrame.Some?
      modifies this
      ensures State() == RESET
      ensures content == old(Content(methodFrame, headerFrame.value, Concat(bodyFragments)))
    {
      content := Content(methodFrame, headerFrame.value, Concat(bodyFragments));
      Reset();
    }

    method HandleBodyFrame(f: Frame) returns (r: Result<Option<Content>>)
      requires f.BodyFrame?
      modifies this
      ensures (State(), r) == Assemble(old(State()), f)
    {
      seenSoFar := seenSoFar + |f.fragment|;
      bodyFragments := bodyFragments + [f.fragment];
      if headerFrame.None? || !headerFrame.value.HeaderFrame? {
        return Err(AttributeError);
      }
      if seenSoFar == headerFrame.value.bodySize {
        var content := Finish();
        return Ok(Some(content));
      } else if seenSoFar > headerFrame.value.bodySize {
        return Err(BodyTooLong);
      }
      return Ok(None);
    }

    method Reset()
      modifies this
      ensures State() == RESET
    {
      methodFrame, headerFrame, seenSoFar, bodyFragments := None, None, 0, [];
    }
  }
}
