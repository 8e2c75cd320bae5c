/** The TLS transport (`_AsyncSSLTransport` in io_services_utils.py). */
module TlsTransport {
  import opened Bytes
  import opened TransportBase
  import opened PlaintextTransport

  /** What a readable or writable socket makes the transport do. */
  datatype Action = NoAction | Consuming | Producing

  datatype Tls = Tls(base: Base, readable: Action, writable: Action)

  // ---------- Operations ----------

  function WriteTls(s: Tls, data: Chunk): Tls {
    if s.base.phase != Active then s
    else
      var d := BufferTxData(s.base, data);
      if s.base.count == 0 && s.writable == NoAction
      then Tls(d.(writing := true), s.readable, Producing)
      else s.(base := d)
  }

  function ReactTls(s: Tls, reaction: seq<UserOp>): Tls
    decreases reaction
  {
    if reaction == [] then s
    else match reaction[0]
      case UserWrite(data) => ReactTls(WriteTls(s, data), reaction[1..])
      case UserAbort => ReactTls(s.(base := InitiateAbort(s.base, None)), reaction[1..])
  }

  function HearTls(s: Tls, data: bytes): Tls {
    s.(base := Hear(s.base, data))
  }

  /** The base class's `_consume`. */
  function ConsumeLoop(s: Tls, receives: seq<Receive>, halt: Halt, consumed: nat): (Tls, Ending)
    decreases |receives|
  {
    if s.base.phase != Active || consumed >= MAX_CONSUME_BYTES then (s, Returned)
    else if receives == [] then (s, Halted(halt))
    else if receives[0].data == [] then (s, AtEnd)
    else
      var d := ReactTls(HearTls(s, receives[0].data), receives[0].reaction);
      if receives[0].raises then (d, Raised)
      else ConsumeLoop(d, receives[1..], halt, consumed + |receives[0].data|)
  }

  /** The end of `_consume`: which readiness the next read waits for. */
  function AfterConsume(s: Tls, nextOnReadable: bool): Tls {
    var t :=
      if nextOnReadable then
        var reading := s.(base := s.base.(reading := s.base.reading || s.readable == NoAction), readable := Consuming);
        if s.writable == Consuming then reading.(base := reading.base.(writing := false), writable := NoAction)
          else reading
      else
        var writing := s.(base := s.base.(writing := s.base.writing || s.writable == NoAction), writable := Consuming);
        if s.readable != NoAction then writing.(base := writing.base.(reading := false), readable := NoAction)
          else writing;
    if t.base.buffers != [] && t.writable == NoAction
    then t.(base := t.base.(writing := true), writable := Producing)
    else t
  }

  function QueueRead(s: Tls): Tls {
    s.(base := s.base.(queue := s.base.queue + [TryRead]))
  }

  /** `_consume`; the second result is the exception raised, if any. */
  function Consume(s: Tls, receives: seq<Receive>, halt: Halt): (Tls, Option<Failure>) {
    var (d, ending) := ConsumeLoop(s, receives, halt, 0);
    match ending
    case Halted(why) =>
      if why == WantRead then (AfterConsume(d, true), None)
      else if why == WantWrite then (AfterConsume(d, false), None)
      else (d, Some(SocketFailure))
    case AtEnd => (d, Some(EndOfStream))
    case Raised => (d, Some(CallbackRaised))
    case Returned => if d.base.phase != Active then (d, None) else (AfterConsume(QueueRead(d), true), None)
  }

  /** The middle of `_produce`: which readiness the next send waits for, if there is more to send. */
  function AfterProduce(s: Tls, nextOnWritable: Option<bool>): Tls {
    if s.base.buffers != [] then
      var t := s.(base := s.base.(sound := s.base.sound && nextOnWritable != None));
      if nextOnWritable == Some(true) then
        var writing := t.(base := t.base.(writing := t.base.writing || t.writable == NoAction), writable := Producing);
        if t.readable == Producing then writing.(base := writing.base.(reading := false), readable := NoAction)
          else writing
      else
        var reading := t.(base := t.base.(reading := t.base.reading || t.readable == NoAction), readable := Producing);
        if t.writable != NoAction then reading.(base := reading.base.(writing := false), writable := NoAction)
          else reading
    else if s.readable == Producing then
      s.(base := s.base.(reading := false, sound := s.base.sound && s.writable != Producing), readable := NoAction)
    else
      s.(base := s.base.(writing := false, sound := s.base.sound && s.writable == Producing), writable := NoAction)
  }

  /** The end of `_produce`: reading goes on; `pending` says that decrypted input waits. */
  function ResumeConsumer(s: Tls, pending: bool): Tls {
    if s.readable == NoAction then QueueRead(s.(base := s.base.(reading := true), readable := Consuming))
    else if pending then QueueRead(s)
    else s
  }

  function Produce(s: Tls, sends: seq<nat>, halt: Halt, pending: bool): (Tls, Option<Failure>) {
    var (b, stop) := ProduceAll(s.base, sends, halt);
    var d := s.(base := b);
    if stop == None then
      (ResumeConsumer(AfterProduce(d.(base := b.(sound := b.sound && b.buffers == [])), None), pending), None)
    else if stop == Some(WantRead) then (ResumeConsumer(AfterProduce(d, Some(false)), pending), None)
    else if stop == Some(WantWrite) then (ResumeConsumer(AfterProduce(d, Some(true)), pending), None)
    else (d, Some(SocketFailure))
  }

  /** What the TLS library does while an action runs. */
  datatype Script = Script(receives: seq<Receive>, sends: seq<nat>, halt: Halt, pending: bool)

  /** Runs the action; an exception aborts the connection. */
  function Act(s: Tls, action: Action, script: Script): Tls {
    var (d, error) :=
      match action
      case NoAction => (s, None)
      case Consuming => Consume(s, script.receives, script.halt)
      case Producing => Produce(s, script.sends, script.halt, script.pending);
    if error == None then d else d.(base := InitiateAbort(d.base, error))
  }

  function OnSocketReadable(s: Tls, script: Script): Tls {
    if s.base.phase != Active then s else Act(s, s.readable, script)
  }

  function OnSocketWritable(s: Tls, script: Script): Tls {
    if s.base.phase != Active then s else Act(s, s.writable, script)
  }

  datatype TlsEvent =
    | WriteData(data: Chunk)
    | Abort
    | Readable(script: Script)
    | Writable(script: Script)
    | RunQueued(script: Script, abortsInside: bool)

  function Step(s: Tls, e: TlsEvent): Tls {
    match e
    case WriteData(data) => WriteTls(s, data)
    case Abort => s.(base := InitiateAbort(s.base, None))
    case Readable(script) => if s.base.reading then OnSocketReadable(s, script) else s
    case Writable(script) => if s.base.writing then OnSocketWritable(s, script) else s
    case RunQueued(script, abortsInside) =>
      if s.base.queue == [] then s
      else if s.base.queue[0].Lost? then s.(base := RunNotice(s.base, abortsInside))
      else OnSocketReadable(s.(base := s.base.(queue := s.base.queue[1..])), script)
  }

  const Start := Tls(Base(Active, [], 0, true, false, [TryRead], [], [], [], [], false, true), Consuming, NoAction)

  // ---------- The hand-over machine ----------

  /** The combinations of actions of an active transport between events, and what each says about the output. */
  ghost predicate HandOver(readable: Action, writable: Action, outputWaits: bool) {
    (readable == Consuming && writable == NoAction && !outputWaits)
    || (readable == Consuming && writable == Producing && outputWaits)
    || (readable == NoAction && writable == Consuming)
    || (readable == Producing && writable == NoAction && outputWaits)
  }

  /** Each direction is watched exactly when it has an action. */
  ghost predicate Watching(s: Tls) {
    (s.base.reading <==> s.readable != NoAction) && (s.base.writing <==> s.writable != NoAction)
  }

  ghost predicate Invariant(s: Tls) {
    BaseInvariant(s.base)
    && (s.base.phase == Active ==> Watching(s) && HandOver(s.readable, s.writable, s.base.buffers != []))
  }

  lemma StartHolds()
    ensures Invariant(Start)
  {
    assert Start.base.queue[1..] == [];
  }

  /** What `Invariant` says of an inactive transport does not depend on the actions. */
  lemma AbortTlsKeeps(s: Tls, error: Option<Failure>)
    requires BaseInvariant(s.base) && s.base.phase !in {Failed, Completed}
    ensures Invariant(s.(base := InitiateAbort(s.base, error)))
    ensures InitiateAbort(s.base, error).phase != Completed && InitiateAbort(s.base, error).phase != Active
    ensures error == None ==> InitiateAbort(s.base, error).phase == AbortedByUser
  {
    AbortKeeps(s.base, error);
  }

  lemma WriteKeeps(s: Tls, data: Chunk)
    requires Invariant(s)
    ensures Invariant(WriteTls(s, data)) && WriteTls(s, data).base.phase == s.base.phase
    ensures WriteTls(s, data).readable == s.readable
    ensures s.writable == Consuming ==> WriteTls(s, data).writable == Consuming
  {
    if s.base.phase == Active {
      BufferConserves(s.base, data);
      CountZero(s.base);
      hide Conserved, Concat, Notices;
    }
  }

  /** `_consume` runs as the action of one direction. */
  ghost predicate Consumes(s: Tls) {
    s.base.phase !in {Failed, Completed}
      && (s.base.phase == Active ==> s.readable == Consuming || s.writable == Consuming)
  }

  lemma {:induction false} ReactKeeps(s: Tls, reaction: seq<UserOp>)
    requires Invariant(s) && Consumes(s)
    ensures Invariant(ReactTls(s, reaction)) && Consumes(ReactTls(s, reaction))
    decreases reaction
  {
    if reaction != [] {
      match reaction[0] {
        case UserWrite(data) =>
          WriteKeeps(s, data);
          hide Invariant, WriteTls;
          ReactKeeps(WriteTls(s, data), reaction[1..]);
        case UserAbort =>
          AbortTlsKeeps(s, None);
          hide Invariant, InitiateAbort;
          ReactKeeps(s.(base := InitiateAbort(s.base, None)), reaction[1..]);
      }
    }
  }

  lemma HearKeepsTls(s: Tls, data: bytes)
    requires Invariant(s) && Consumes(s)
    ensures Invariant(HearTls(s, data)) && Consumes(HearTls(s, data)) && HearTls(s, data).base.phase == s.base.phase
  {
  }

  lemma {:induction false} ReactTlsHearsNothing(s: Tls, reaction: seq<UserOp>)
    ensures ReactTls(s, reaction).base.heard == s.base.heard
    decreases reaction
  {
    if reaction != [] {
      match reaction[0] {
        case UserWrite(data) => ReactTlsHearsNothing(WriteTls(s, data), reaction[1..]);
        case UserAbort => ReactTlsHearsNothing(s.(base := InitiateAbort(s.base, None)), reaction[1..]);
      }
    }
  }

  /** How many of `receives` a call of `_consume` passes on. */
  function HeardTls(s: Tls, receives: seq<Receive>, consumed: nat): (k: nat)
    ensures k <= |receives|
    decreases |receives|
  {
    if s.base.phase != Active || consumed >= MAX_CONSUME_BYTES || receives == [] || receives[0].data == [] then 0
    else if receives[0].raises then 1
    else 1 + HeardTls(ReactTls(HearTls(s, receives[0].data), receives[0].reaction), receives[1..],
                      consumed + |receives[0].data|)
  }

  /** As for the plaintext transport: what the TLS layer delivers reaches the protocol in order and once. */
  lemma {:induction false} ConsumeLoopHears(s: Tls, receives: seq<Receive>, halt: Halt, consumed: nat)
    ensures var (d, ending) := ConsumeLoop(s, receives, halt, consumed);
            HeardThrough(s.base.heard, d.base, ending, receives, HeardTls(s, receives, consumed), consumed)
    decreases |receives|
  {
    hide HeardThrough, DataOf, ReactTls;
    var (d, ending) := ConsumeLoop(s, receives, halt, consumed);
    if s.base.phase != Active || consumed >= MAX_CONSUME_BYTES || receives == [] || receives[0].data == [] {
      HeardNone(s.base.heard, d.base, ending, receives, consumed);
    } else {
      var heard := HearTls(s, receives[0].data);
      ReactTlsHearsNothing(heard, receives[0].reaction);
      if receives[0].raises {
        HeardRaising(s.base.heard, d.base, receives, consumed);
      } else {
        var next := ReactTls(heard, receives[0].reaction);
        ConsumeLoopHears(next, receives[1..], halt, consumed + |receives[0].data|);
        HeardOneMore(s.base.heard, d.base, ending, receives,
                     HeardTls(next, receives[1..], consumed + |receives[0].data|), consumed);
      }
    }
  }

  lemma {:induction false} ConsumeLoopKeeps(s: Tls, receives: seq<Receive>, halt: Halt, consumed: nat)
    requires Invariant(s) && Consumes(s)
    ensures var (d, ending) := ConsumeLoop(s, receives, halt, consumed);
            Invariant(d) && Consumes(d) && (ending.Halted? || ending.AtEnd? ==> d.base.phase == Active)
    decreases |receives|
  {
    hide Invariant, ReactTls, Consumes, HearTls;
    if s.base.phase == Active && consumed < MAX_CONSUME_BYTES && receives != [] && receives[0].data != [] {
      HearKeepsTls(s, receives[0].data);
      ReactKeeps(HearTls(s, receives[0].data), receives[0].reaction);
      ConsumeLoopKeeps(ReactTls(HearTls(s, receives[0].data), receives[0].reaction), receives[1..], halt,
                       consumed + |receives[0].data|);
    }
  }

  /** Changing watchers and queueing reads leaves the buffer and the shutdown alone. */
  lemma SameBase(b: Base, d: Base, more: bool)
    requires BaseInvariant(b) && b.phase == Active
    requires d == b.(reading := d.reading, writing := d.writing, queue := if more then b.queue + [TryRead] else b.queue)
    ensures BaseInvariant(d)
  {
    NoticesAppend(b.queue, TryRead);
    hide Notices, Concat;
  }

  lemma AfterConsumeKeeps(s: Tls, nextOnReadable: bool)
    requires Invariant(s) && Consumes(s) && s.base.phase == Active
    ensures Invariant(AfterConsume(s, nextOnReadable)) && AfterConsume(s, nextOnReadable).base.phase == Active
  {
    hide BaseInvariant;
    var d := AfterConsume(s, nextOnReadable);
    SameBase(s.base, d.base, false);
  }

  lemma QueueReadKeeps(s: Tls)
    requires Invariant(s) && s.base.phase == Active
    ensures Invariant(QueueRead(s))
  {
    hide BaseInvariant;
    SameBase(s.base, QueueRead(s).base, true);
  }

  lemma ConsumeKeeps(s: Tls, receives: seq<Receive>, halt: Halt)
    requires Invariant(s) && Consumes(s)
    ensures var (d, error) := Consume(s, receives, halt);
            Invariant(d) && d.base.phase !in {Failed, Completed}
  {
    hide Invariant, ConsumeLoop, AfterConsume;
    ConsumeLoopKeeps(s, receives, halt, 0);
    var (d, ending) := ConsumeLoop(s, receives, halt, 0);
    if d.base.phase == Active {
      AfterConsumeKeeps(d, true);
      AfterConsumeKeeps(d, false);
      QueueReadKeeps(d);
      AfterConsumeKeeps(QueueRead(d), true);
    }
  }

  /** `_produce` runs as the action of one direction, on output that waits. */
  ghost predicate Produces(s: Tls) {
    s.base.phase == Active && (s.readable == Producing || s.writable == Producing)
  }

  /** The registration machine of `_produce`: its assertions hold, whatever the socket did. */
  lemma AfterProduceKeeps(s: Tls, before: Tls, nextOnWritable: Option<bool>, pending: bool)
    requires Invariant(before) && Produces(before) && s.readable == before.readable && s.writable == before.writable
    requires BaseInvariant(s.base) && Watching(s) && s.base.phase == Active
    requires nextOnWritable == None <==> s.base.buffers == []
    ensures Invariant(ResumeConsumer(AfterProduce(s, nextOnWritable), pending))
    ensures ResumeConsumer(AfterProduce(s, nextOnWritable), pending).base.phase == Active
  {
    var middle := AfterProduce(s, nextOnWritable);
    hide Shutting, Conserved;
    assert middle.base.sound;
    SameBase(s.base, middle.base, false);
    var d := ResumeConsumer(middle, pending);
    SameBase(s.base, d.base, d.base.queue != s.base.queue);
    hide BaseInvariant;
  }

  lemma ProduceKeeps(s: Tls, sends: seq<nat>, halt: Halt, pending: bool)
    requires Invariant(s) && Produces(s)
    ensures var (d, error) := Produce(s, sends, halt, pending);
            (error == None ==> Invariant(d)) && BaseInvariant(d.base) && d.base.phase == Active
  {
    hide Concat, Notices;
    var (b, stop) := ProduceAll(s.base, sends, halt);
    ProduceConserves(s.base, sends, halt);
    var d := s.(base := b);
    assert BaseInvariant(b);
    hide BaseInvariant, AfterProduce, ResumeConsumer;
    if stop == None {
      assert b.(sound := b.sound && b.buffers == []) == b;
      AfterProduceKeeps(d, s, None, pending);
    } else {
      AfterProduceKeeps(d, s, Some(false), pending);
      AfterProduceKeeps(d, s, Some(true), pending);
    }
  }

  lemma ActKeeps(s: Tls, action: Action, script: Script)
    requires Invariant(s) && s.base.phase == Active && action in {s.readable, s.writable}
    ensures Invariant(Act(s, action, script))
  {
    hide BaseInvariant, Consume, Produce, InitiateAbort;
    assert BaseInvariant(s.base);
    match action {
      case NoAction =>
      case Consuming =>
        ConsumeKeeps(s, script.receives, script.halt);
        var (d, error) := Consume(s, script.receives, script.halt);
        AbortTlsKeeps(d, error);
      case Producing =>
        ProduceKeeps(s, script.sends, script.halt, script.pending);
        var (d, error) := Produce(s, script.sends, script.halt, script.pending);
        AbortTlsKeeps(d, error);
    }
  }

  lemma HandlersKeep(s: Tls, script: Script)
    requires Invariant(s)
    ensures Invariant(OnSocketReadable(s, script)) && Invariant(OnSocketWritable(s, script))
  {
    hide Invariant, Act;
    if s.base.phase == Active {
      ActKeeps(s, s.readable, script);
      ActKeeps(s, s.writable, script);
    }
  }

  lemma UnfoldInvariant(s: Tls)
    requires Invariant(s)
    ensures BaseInvariant(s.base) && s.base.sound
  {
  }

  lemma PopKeeps(s: Tls)
    requires Invariant(s) && s.base.queue != [] && s.base.queue[0].TryRead?
    ensures Invariant(s.(base := s.base.(queue := s.base.queue[1..])))
  {
    NoticesHead(s.base.queue);
    hide Notices, Concat;
  }

  lemma FoldInactive(s: Tls)
    requires BaseInvariant(s.base) && s.base.phase != Active
    ensures Invariant(s)
  {
  }

  /**
    Every step keeps the invariant and every assertion holds, except when the user aborts after
    `connection_lost`.
   */
  lemma StepKeeps(s: Tls, e: TlsEvent)
    requires Invariant(s)
    ensures Step(s, e).base.sound <==> !(e.Abort? && s.base.phase == Completed)
    ensures Step(s, e).base.sound ==> Invariant(Step(s, e))
  {
    hide Invariant, Act, WriteTls, BaseInvariant;
    UnfoldInvariant(s);
    match e {
      case WriteData(data) => WriteKeeps(s, data); UnfoldInvariant(WriteTls(s, data));
      case Abort =>
        if s.base.phase != Completed {
          AbortKeeps(s.base, None);
          FoldInactive(s.(base := InitiateAbort(s.base, None)));
          UnfoldInvariant(s.(base := InitiateAbort(s.base, None)));
        }
      case Readable(script) =>
        if s.base.reading && s.base.phase == Active {
          ActKeeps(s, s.readable, script);
          UnfoldInvariant(Act(s, s.readable, script));
        }
      case Writable(script) =>
        if s.base.writing && s.base.phase == Active {
          ActKeeps(s, s.writable, script);
          UnfoldInvariant(Act(s, s.writable, script));
        }
      case RunQueued(script, abortsInside) =>
        if s.base.queue != [] {
          QueuedKeeps(s, script, abortsInside);
          UnfoldInvariant(Step(s, e));
        }
    }
  }

  lemma QueuedKeeps(s: Tls, script: Script, abortsInside: bool)
    requires Invariant(s) && s.base.queue != []
    ensures Invariant(Step(s, TlsEvent.RunQueued(script, abortsInside)))
  {
    hide Invariant, Act, BaseInvariant, RunNotice;
    UnfoldInvariant(s);
    if s.base.queue[0].Lost? {
      NoticeKeeps(s.base, abortsInside);
      FoldInactive(s.(base := RunNotice(s.base, abortsInside)));
    } else {
      PopKeeps(s);
      var popped := s.(base := s.base.(queue := s.base.queue[1..]));
      if s.base.phase == Active {
        ActKeeps(popped, popped.readable, script);
      }
    }
  }

  // ---------- Runs ----------

  function Run(s: Tls, es: seq<TlsEvent>): Tls
    decreases es
  {
    if es == [] then s else Run(Step(s, es[0]), es[1..])
  }

  ghost predicate NoLateAbort(s: Tls, es: seq<TlsEvent>)
    decreases es
  {
    es == [] || (!(es[0].Abort? && s.base.phase == Completed) && NoLateAbort(Step(s, es[0]), es[1..]))
  }

  lemma {:induction false} RunKeeps(s: Tls, es: seq<TlsEvent>)
    requires Invariant(s) && NoLateAbort(s, es)
    ensures Invariant(Run(s, es))
    decreases es
  {
    hide Step, Invariant;
    if es != [] {
      StepKeeps(s, es[0]);
      RunKeeps(Step(s, es[0]), es[1..]);
    }
  }

  /**
    In every run, between events, an active transport is in one of the four combinations, watches
    exactly the directions that have an action, has lost no output, and has failed no assertion.
   */
  lemma FourCombinations(es: seq<TlsEvent>)
    requires NoLateAbort(Start, es)
    ensures var s := Run(Start, es);
            s.base.phase == Active ==>
              HandOver(s.readable, s.writable, s.base.buffers != []) && Watching(s)
              && s.base.accepted + Concat(s.base.buffers) == s.base.written && s.base.count == |Concat(s.base.buffers)|
    ensures Run(Start, es).base.sound
  {
    StartHolds();
    RunKeeps(Start, es);
    hide Run, Shutting, Concat, Start;
  }

  /**
    In every run and phase the byte counter is what was written and not accepted. Shutting down clears the
    buffers and not the counter, so that after it the counter equals what is buffered exactly when everything
    written had been accepted.
   */
  lemma CounterInEveryPhase(es: seq<TlsEvent>)
    requires NoLateAbort(Start, es)
    ensures var b := Run(Start, es).base;
            b.accepted <= b.written && b.count == |b.written| - |b.accepted|
            && (b.phase != Active ==> b.buffers == [] && (b.count == |Concat(b.buffers)| <==> b.accepted == b.written))
  {
    StartHolds();
    RunKeeps(Start, es);
    hide Run, Start, Notices, Concat;
    if Run(Start, es).base.phase != Active {
      CountWhenInactive(Run(Start, es).base);
    }
  }

  lemma LostExactlyOnce(es: seq<TlsEvent>, abortsInside: bool)
    requires NoLateAbort(Start, es) && Run(Start, es).base.phase != Active
    ensures BaseInvariant(Run(Start, es).base)
    ensures var d := Drain(Run(Start, es).base, abortsInside);
            d.sound && |d.calls| == 1 && (d.calls[0].error == None <==> d.calls[0].userAborted)
            && (Run(Start, es).base.phase == AbortedByUser ==> d.calls[0].error == None)
  {
    StartHolds();
    RunKeeps(Start, es);
    hide Run, Start;
    DrainTellsOnce(Run(Start, es).base, abortsInside);
  }

  /** Each of the four combinations does occur. */
  lemma EachCombinationOccurs()
    ensures var s := Run(Start, []); s.readable == Consuming && s.writable == NoAction
    ensures var s := Run(Start, [TlsEvent.WriteData([1])]); s.readable == Consuming && s.writable == Producing
    ensures var s := Run(Start, [TlsEvent.Readable(Script([], [], WantWrite, false))]);
            s.readable == NoAction && s.writable == Consuming
    ensures var s := Run(Start, [TlsEvent.WriteData([1]), TlsEvent.Writable(Script([], [], WantRead, false))]);
            s.readable == Producing && s.writable == NoAction
  {
  }

  /** A run in which the user aborts once too often: after `connection_lost`, an assertion fails. */
  lemma LateAbortOccurs()
    ensures var quiet := Script([], [], WantRead, false);
            !Run(Start, [TlsEvent.Abort, TlsEvent.RunQueued(quiet, false), TlsEvent.RunQueued(quiet, false),
                         TlsEvent.Abort]).base.sound
  {
    var next := TlsEvent.RunQueued(Script([], [], WantRead, false), false);
    var abort := TlsEvent.Abort;
    var first := Step(Start, abort);
    var second := Step(first, next);
    var third := Step(second, next);
    assert first.base.queue == [TryRead, Lost(None)];
    assert second.base.queue == [Lost(None)];
    assert third.base.phase == Completed;
    assert [abort, next, next, abort][1..] == [next, next, abort];
    assert [next, next, abort][1..] == [next, abort];
    assert [next, abort][1..] == [abort];
    RunStep(Start, [abort, next, next, abort]);
    RunStep(first, [next, next, abort]);
    RunStep(second, [next, abort]);
    RunStep(third, [abort]);
    assert [abort][1..] == [];
  }

  lemma RunStep(s: Tls, es: seq<TlsEvent>)
    requires es != []
    ensures Run(s, es) == Run(Step(s, es[0]), es[1..])
  {
  }
}
