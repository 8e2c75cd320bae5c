/** The plaintext transport (`_AsyncPlaintextTransport` in io_services_utils.py). */
module PlaintextTransport {
  import opened Bytes
  import opened TransportBase

  /** `write` asserts that its data is not empty. */
  type Chunk = data: bytes | data != [] witness [0]

  datatype UserOp = UserWrite(data: Chunk) | UserAbort

  /** What `recv` returns, empty at the end of the stream, and what the protocol does on receiving it. */
  datatype Receive = Receive(data: bytes, reaction: seq<UserOp>, raises: bool)

  /** Why `_consume` ended: by itself, or by an exception. */
  datatype Ending = Returned | Halted(halt: Halt) | AtEnd | Raised

  /** What `eof_received` does. */
  datatype EofReply = KeepOpen | CloseIt | EofRaises

  function Write(b: Base, data: Chunk): Base {
    if b.phase != Active then b
    else
      var d := BufferTxData(b, data);
      if b.count == 0 then d.(writing := true) else d
  }

  function React(b: Base, reaction: seq<UserOp>): Base
    decreases reaction
  {
    if reaction == [] then b
    else match reaction[0]
      case UserWrite(data) => React(Write(b, data), reaction[1..])
      case UserAbort => React(InitiateAbort(b, None), reaction[1..])
  }

  /** The protocol's `data_received` is called with `data`. */
  function Hear(b: Base, data: bytes): Base {
    b.(heard := b.heard + data)
  }

  /** `_consume`, entered with `bytes_consumed == consumed`; when `receives` is used up, `recv` raises `halt`. */
  function Consume(b: Base, receives: seq<Receive>, halt: Halt, consumed: nat): (Base, Ending)
    decreases |receives|
  {
    if b.phase != Active || consumed >= MAX_CONSUME_BYTES then (b, Returned)
    else if receives == [] then (b, Halted(halt))
    else if receives[0].data == [] then (b, AtEnd)
    else
      var d := React(Hear(b, receives[0].data), receives[0].reaction);
      if receives[0].raises then (d, Raised)
      else Consume(d, receives[1..], halt, consumed + |receives[0].data|)
  }

  function OnSocketReadable(b: Base, receives: seq<Receive>, halt: Halt, eof: EofReply): Base {
    if b.phase != Active then b
    else
      var (d, ending) := Consume(b, receives, halt, 0);
      match ending
      case Returned => d
      case AtEnd =>
        (match eof
         case KeepOpen => d.(reading := false)
         case CloseIt => InitiateAbort(d, None)
         case EofRaises => InitiateAbort(d, Some(CallbackRaised)))
      case Halted(why) => if why == WouldBlock then d else InitiateAbort(d, Some(SocketFailure))
      case Raised => InitiateAbort(d, Some(CallbackRaised))
  }

  /** What follows sending, which ended by `stop`: with nothing left the watcher is turned off, a failure aborts. */
  function AfterSending(b: Base, stop: Option<Halt>): Base {
    if stop == None then (if b.buffers == [] then b.(writing := false) else b)
    else if stop == Some(WouldBlock) then b
    else InitiateAbort(b, Some(SocketFailure))
  }

  function OnSocketWritable(b: Base, sends: seq<nat>, halt: Halt): Base {
    if b.phase != Active then b
    else
      var (d, stop) := ProduceAll(b.(sound := b.sound && b.buffers != []), sends, halt);
      AfterSending(d, stop)
  }

  datatype Event =
    | WriteData(data: Chunk)
    | Abort
    | Readable(receives: seq<Receive>, halt: Halt, eof: EofReply)
    | Writable(sends: seq<nat>, halt: Halt)
    | RunQueued(abortsInside: bool)

  function Step(b: Base, e: Event): Base {
    match e
    case WriteData(data) => Write(b, data)
    case Abort => InitiateAbort(b, None)
    case Readable(receives, halt, eof) => if b.reading then OnSocketReadable(b, receives, halt, eof) else b
    case Writable(sends, halt) => if b.writing then OnSocketWritable(b, sends, halt) else b
    case RunQueued(abortsInside) =>
      if b.queue == [] then b
      else if b.queue[0].TryRead? then b.(queue := b.queue[1..])
      else RunNotice(b, abortsInside)
  }

  const Start := Base(Active, [], 0, true, false, [], [], [], [], [], false, true)

  /** Writability is watched exactly while output is buffered. */
  ghost predicate Invariant(b: Base) {
    BaseInvariant(b) && (b.phase == Active ==> (b.writing <==> b.buffers != []))
  }

  lemma StartHolds()
    ensures Invariant(Start)
  {
  }

  lemma WriteKeeps(b: Base, data: Chunk)
    requires Invariant(b)
    ensures Invariant(Write(b, data)) && Write(b, data).phase == b.phase
  {
    if b.phase == Active {
      BufferConserves(b, data);
      CountZero(b);
    }
  }

  lemma {:induction false} ReactKeeps(b: Base, reaction: seq<UserOp>)
    requires Invariant(b) && b.phase !in {Failed, Completed}
    ensures Invariant(React(b, reaction)) && React(b, reaction).phase !in {Failed, Completed}
    decreases reaction
  {
    if reaction != [] {
      match reaction[0] {
        case UserWrite(data) =>
          WriteKeeps(b, data);
          ReactKeeps(Write(b, data), reaction[1..]);
        case UserAbort =>
          AbortKeeps(b, None);
          ReactKeeps(InitiateAbort(b, None), reaction[1..]);
      }
    }
  }

  lemma HearKeeps(b: Base, data: bytes)
    requires Invariant(b)
    ensures Invariant(Hear(b, data)) && Hear(b, data).phase == b.phase
  {
  }

  function DataOf(receives: seq<Receive>): bytes {
    if receives == [] then [] else receives[0].data + DataOf(receives[1..])
  }

  lemma {:induction false} ReactHearsNothing(b: Base, reaction: seq<UserOp>)
    ensures React(b, reaction).heard == b.heard
    decreases reaction
  {
    if reaction != [] {
      match reaction[0] {
        case UserWrite(data) => ReactHearsNothing(Write(b, data), reaction[1..]);
        case UserAbort => ReactHearsNothing(InitiateAbort(b, None), reaction[1..]);
      }
    }
  }

  /** How many of `receives` a call of `_consume` passes on. */
  function Heard(b: Base, receives: seq<Receive>, consumed: nat): (k: nat)
    ensures k <= |receives|
    decreases |receives|
  {
    if b.phase != Active || consumed >= MAX_CONSUME_BYTES || receives == [] || receives[0].data == [] then 0
    else if receives[0].raises then 1
    else 1 + Heard(React(Hear(b, receives[0].data), receives[0].reaction), receives[1..], consumed + |receives[0].data|)
  }

  /**
    The first `k` of `receives` were heard, after `before`, and nothing else; `k` is short of all of them only
    if the transport is not active any more, the limit was reached, the stream ended or the protocol raised.
   */
  ghost predicate HeardThrough(before: bytes, d: Base, ending: Ending, receives: seq<Receive>, k: nat, consumed: nat) {
    k <= |receives| && d.heard == before + DataOf(receives[..k])
    && match ending
       case Halted(_) => k == |receives|
       case AtEnd => k < |receives| && receives[k].data == []
       case Raised => k > 0 && receives[k - 1].raises
       case Returned => d.phase != Active || consumed + |DataOf(receives[..k])| >= MAX_CONSUME_BYTES
  }

  lemma DataOfPrefix(receives: seq<Receive>, k: nat)
    requires 0 < k <= |receives|
    ensures DataOf(receives[..k]) == receives[0].data + DataOf(receives[1..][..k - 1])
  {
    assert receives[..k][1..] == receives[1..][..k - 1];
  }

  lemma HeardOneMore(before: bytes, d: Base, ending: Ending, receives: seq<Receive>, k: nat, consumed: nat)
    requires receives != []
    requires HeardThrough(before + receives[0].data, d, ending, receives[1..], k, consumed + |receives[0].data|)
    ensures HeardThrough(before, d, ending, receives, k + 1, consumed)
  {
    DataOfPrefix(receives, k + 1);
    ConcatAssociative(before, receives[0].data, DataOf(receives[1..][..k]));
    hide DataOf;
  }

  lemma HeardNone(before: bytes, d: Base, ending: Ending, receives: seq<Receive>, consumed: nat)
    requires d.heard == before && !ending.Raised?
    requires ending.Halted? ==> receives == []
    requires ending.AtEnd? ==> receives != [] && receives[0].data == []
    requires ending.Returned? ==> d.phase != Active || consumed >= MAX_CONSUME_BYTES
    ensures HeardThrough(before, d, ending, receives, 0, consumed)
  {
    assert before + [] == before;
  }

  lemma HeardRaising(before: bytes, d: Base, receives: seq<Receive>, consumed: nat)
    requires receives != [] && receives[0].raises && d.heard == before + receives[0].data
    ensures HeardThrough(before, d, Raised, receives, 1, consumed)
  {
    DataOfPrefix(receives, 1);
    assert receives[0].data + [] == receives[0].data;
  }

  /** What the socket delivers reaches the protocol in order and once. */
  lemma {:induction false} ConsumeHears(b: Base, receives: seq<Receive>, halt: Halt, consumed: nat)
    ensures var (d, ending) := Consume(b, receives, halt, consumed);
            HeardThrough(b.heard, d, ending, receives, Heard(b, receives, consumed), consumed)
    decreases |receives|
  {
    hide HeardThrough, DataOf, React;
    var (d, ending) := Consume(b, receives, halt, consumed);
    if b.phase != Active || consumed >= MAX_CONSUME_BYTES || receives == [] || receives[0].data == [] {
      HeardNone(b.heard, d, ending, receives, consumed);
    } else {
      var heard := Hear(b, receives[0].data);
      ReactHearsNothing(heard, receives[0].reaction);
      if receives[0].raises {
        HeardRaising(b.heard, d, receives, consumed);
      } else {
        var next := React(heard, receives[0].reaction);
        ConsumeHears(next, receives[1..], halt, consumed + |receives[0].data|);
        HeardOneMore(b.heard, d, ending, receives, Heard(next, receives[1..], consumed + |receives[0].data|), consumed);
      }
    }
  }

  lemma {:induction false} ConsumeKeeps(b: Base, receives: seq<Receive>, halt: Halt, consumed: nat)
    requires Invariant(b) && b.phase !in {Failed, Completed}
    ensures var (d, ending) := Consume(b, receives, halt, consumed);
            Invariant(d) && d.phase !in {Failed, Completed}
            && (ending.Halted? || ending.AtEnd? ==> d.phase == Active)
    decreases |receives|
  {
    hide Invariant, React, Hear;
    if b.phase == Active && consumed < MAX_CONSUME_BYTES && receives != [] && receives[0].data != [] {
      HearKeeps(b, receives[0].data);
      ReactKeeps(Hear(b, receives[0].data), receives[0].reaction);
      ConsumeKeeps(React(Hear(b, receives[0].data), receives[0].reaction), receives[1..], halt,
                   consumed + |receives[0].data|);
    }
  }

  lemma ReadableKeeps(b: Base, receives: seq<Receive>, halt: Halt, eof: EofReply)
    requires Invariant(b) && b.reading
    ensures Invariant(OnSocketReadable(b, receives, halt, eof))
  {
    hide Consume, Conserved, InitiateAbort;
    if b.phase == Active {
      ConsumeKeeps(b, receives, halt, 0);
      var (d, ending) := Consume(b, receives, halt, 0);
      match ending {
        case Returned =>
        case AtEnd => AbortKeeps(d, None); AbortKeeps(d, Some(CallbackRaised)); KeepOpenKeeps(d);
        case Halted(why) => AbortKeeps(d, Some(SocketFailure));
        case Raised => AbortKeeps(d, Some(CallbackRaised));
      }
    }
  }

  lemma KeepOpenKeeps(b: Base)
    requires Invariant(b) && b.phase == Active
    ensures Invariant(b.(reading := false))
  {
  }

  lemma WritableKeeps(b: Base, sends: seq<nat>, halt: Halt)
    requires Invariant(b) && b.writing
    ensures Invariant(OnSocketWritable(b, sends, halt))
  {
    if b.phase == Active {
      ProduceConserves(b, sends, halt);
      var (d, stop) := ProduceAll(b, sends, halt);
      assert b.(sound := b.sound && b.buffers != []) == b;
      if stop != None && stop != Some(WouldBlock) {
        AbortKeeps(d, Some(SocketFailure));
      }
    }
  }

  /** Every step keeps the invariant, except an abort by the user after `connection_lost`, which fails an assertion. */
  lemma StepKeeps(b: Base, e: Event)
    requires Invariant(b)
    ensures Step(b, e).sound <==> !(e.Abort? && b.phase == Completed)
    ensures Step(b, e).sound ==> Invariant(Step(b, e))
  {
    hide Invariant, OnSocketReadable, OnSocketWritable, Write, Notices, Conserved;
    assert BaseInvariant(b) by { UnfoldInvariant(b); }
    match e {
      case WriteData(data) => WriteKeeps(b, data); UnfoldInvariant(Write(b, data));
      case Abort => if b.phase != Completed { AbortKeeps(b, None); FoldInactive(InitiateAbort(b, None)); }
      case Readable(receives, halt, eof) =>
        if b.reading {
          ReadableKeeps(b, receives, halt, eof);
          UnfoldInvariant(OnSocketReadable(b, receives, halt, eof));
        }
      case Writable(sends, halt) =>
        if b.writing { WritableKeeps(b, sends, halt); UnfoldInvariant(OnSocketWritable(b, sends, halt)); }
      case RunQueued(abortsInside) =>
        if b.queue != [] {
          if b.queue[0].Lost? {
            NoticeKeeps(b, abortsInside);
            FoldInactive(RunNotice(b, abortsInside));
          } else {
            PopKeeps(b);
          }
        }
    }
  }

  lemma UnfoldInvariant(b: Base)
    requires Invariant(b)
    ensures BaseInvariant(b) && b.sound && (b.phase == Active ==> (b.writing <==> b.buffers != []))
  {
  }

  lemma FoldInactive(b: Base)
    requires BaseInvariant(b) && b.phase != Active
    ensures Invariant(b)
  {
  }

  lemma PopKeeps(b: Base)
    requires Invariant(b) && b.queue != [] && b.queue[0].TryRead?
    ensures Invariant(b.(queue := b.queue[1..]))
  {
    NoticesHead(b.queue);
  }

  /** A run: the assertions hold as long as the user does not abort after `connection_lost`. */
  function Run(b: Base, es: seq<Event>): Base
    decreases es
  {
    if es == [] then b else Run(Step(b, es[0]), es[1..])
  }

  /** No event of the run is a user's abort of a completed transport. */
  ghost predicate NoLateAbort(b: Base, es: seq<Event>)
    decreases es
  {
    es == [] || (!(es[0].Abort? && b.phase == Completed) && NoLateAbort(Step(b, es[0]), es[1..]))
  }

  lemma {:induction false} RunKeeps(b: Base, es: seq<Event>)
    requires Invariant(b) && NoLateAbort(b, es)
    ensures Invariant(Run(b, es))
    decreases es
  {
    if es != [] {
      StepKeeps(b, es[0]);
      hide Step, Invariant;
      RunKeeps(Step(b, es[0]), es[1..]);
    }
  }

  /**
    In every run: while active nothing is lost or reordered between `write` and the socket, the counter
    is right, and writability is watched exactly while output waits.
   */
  lemma TransmitConservation(es: seq<Event>)
    requires NoLateAbort(Start, es)
    ensures var b := Run(Start, es);
            b.phase == Active ==> b.accepted + Concat(b.buffers) == b.written && b.count == |Concat(b.buffers)|
                                  && (b.writing <==> b.buffers != [])
    ensures Run(Start, es).sound
  {
    StartHolds();
    RunKeeps(Start, es);
    hide Run, Shutting, Concat;
  }

  /**
    In every run and phase the byte counter is what was written and not accepted. Shutting down clears the
    buffers and not the counter, so that after it the counter equals what is buffered exactly when everything
    written had been accepted.
   */
  lemma CounterInEveryPhase(es: seq<Event>)
    requires NoLateAbort(Start, es)
    ensures var b := Run(Start, es);
            b.accepted <= b.written && b.count == |b.written| - |b.accepted|
            && (b.phase != Active ==> b.buffers == [] && (b.count == |Concat(b.buffers)| <==> b.accepted == b.written))
  {
    StartHolds();
    RunKeeps(Start, es);
    hide Run, Start, Notices, Concat;
    if Run(Start, es).phase != Active {
      CountWhenInactive(Run(Start, es));
    }
  }

  /** In every run that ends inactive, running the queue tells the protocol exactly once. */
  lemma LostExactlyOnce(es: seq<Event>, abortsInside: bool)
    requires NoLateAbort(Start, es) && Run(Start, es).phase != Active
    ensures BaseInvariant(Run(Start, es))
    ensures var d := Drain(Run(Start, es), abortsInside);
            d.sound && |d.calls| == 1 && (d.calls[0].error == None <==> d.calls[0].userAborted)
            && (Run(Start, es).phase == AbortedByUser ==> d.calls[0].error == None)
  {
    StartHolds();
    RunKeeps(Start, es);
    hide Run;
    DrainTellsOnce(Run(Start, es), abortsInside);
  }

  /** A run in which the user aborts once too often: after `connection_lost`, an assertion fails. */
  lemma LateAbortOccurs()
    ensures Run(Start, [Abort, RunQueued(false)]).phase == Completed
    ensures !Run(Start, [Abort, RunQueued(false), Abort]).sound
  {
  }

  /** A run that leaves bytes in the counter and none in the buffers. */
  lemma CounterStaysBehind()
    ensures var b := Run(Start, [WriteData([1]), Abort]); b.count == 1 && b.buffers == []
  {
  }
}
