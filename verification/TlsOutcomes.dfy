/** What each event does to a TLS transport. */
module TlsOutcomes {
  import opened Bytes
  import opened TransportBase
  import opened PlaintextTransport
  import opened T = TlsTransport
  import opened Outcomes
  import opened PlaintextOutcomes

  // ---------- Writing ----------

  /** An active transport takes what is written, behind what waits; another takes nothing. */
  lemma WriteTlsQueues(s: Tls, data: Chunk)
    requires T.Invariant(s)
    ensures var d := WriteTls(s, data);
            if s.base.phase != Active then d == s
            else StaysOpen(s.base, d.base) && d.base.written == s.base.written + data
                 && Concat(d.base.buffers) == Concat(s.base.buffers) + data
                 && d.base.accepted == s.base.accepted && d.base.heard == s.base.heard
                 && d.writable == (if s.readable == Consuming then Producing else s.writable)
                 && d.readable == s.readable
  {
    if s.base.phase == Active {
      CountZero(s.base);
      ConcatAppend(s.base.buffers, [data]);
      ConcatOne(data);
      hide Shutting, Concat;
    }
  }

  /** A reaction writes up to its first abort, which ends the connection. */
  lemma {:induction false} ReactionTlsDone(s: Tls, reaction: seq<UserOp>)
    requires T.Invariant(s) && Consumes(s) && s.base.phase == Active
    ensures var d := ReactTls(s, reaction);
            d.base.written == s.base.written + WrittenBy(reaction) && d.base.accepted == s.base.accepted
            && d.base.heard == s.base.heard
            && if OnlyWrites(reaction) then
                 StaysOpen(s.base, d.base) && Concat(d.base.buffers) == Concat(s.base.buffers) + WrittenBy(reaction)
               else Aborts(s.base, d.base)
    decreases reaction
  {
    if reaction == [] {
      assert s.base.written + [] == s.base.written && Concat(s.base.buffers) + [] == Concat(s.base.buffers);
    } else {
      assert reaction == [reaction[0]] + reaction[1..];
      match reaction[0] {
        case UserWrite(data) =>
          T.WriteKeeps(s, data);
          WriteTlsQueues(s, data);
          hide T.Invariant, Concat, WriteTls;
          ReactionTlsDone(WriteTls(s, data), reaction[1..]);
          ConcatAssociative(s.base.written, data, WrittenBy(reaction[1..]));
          ConcatAssociative(Concat(s.base.buffers), data, WrittenBy(reaction[1..]));
        case UserAbort =>
          AbortEnds(s.base, None);
          hide T.Invariant, Concat;
          AbortedTlsStays(s.(base := InitiateAbort(s.base, None)), reaction[1..]);
          assert s.base.written + [] == s.base.written;
          assert !OnlyWrites(reaction);
      }
    }
  }

  lemma {:induction false} AbortedTlsStays(s: Tls, reaction: seq<UserOp>)
    requires s.base.phase == AbortedByUser
    ensures ReactTls(s, reaction) == s
    decreases reaction
  {
    if reaction != [] {
      AbortedTlsStays(s, reaction[1..]);
    }
  }

  // ---------- Reading ----------

  /** The socket is ready in the direction that reading waits for. */
  function Reads(s: Tls, script: Script): Tls {
    if s.readable == Consuming then T.OnSocketReadable(s, script) else T.OnSocketWritable(s, script)
  }

  lemma ReadsConsumes(s: Tls, script: Script)
    requires Consumes(s) && s.base.phase == Active
    ensures var (d, error) := T.Consume(s, script.receives, script.halt);
            Reads(s, script) == if error == None then d else d.(base := InitiateAbort(d.base, error))
  {
  }

  function HearAllTls(s: Tls, receives: seq<Receive>): Tls
    decreases |receives|
  {
    if receives == [] then s
    else HearAllTls(ReactTls(HearTls(s, receives[0].data), receives[0].reaction), receives[1..])
  }

  /** Orderly data is heard, in order, and the transport stays open. */
  lemma {:induction false} ConsumeTlsOrderly(s: Tls, receives: seq<Receive>, more: seq<Receive>, halt: Halt,
                                             consumed: nat)
    requires T.Invariant(s) && Consumes(s) && s.base.phase == Active && AllOrderly(receives)
    requires consumed + |DataOf(receives)| < 102400
    ensures var d := HearAllTls(s, receives);
            T.Invariant(d) && Consumes(d) && StaysOpen(s.base, d.base)
            && d.base.heard == s.base.heard + DataOf(receives)
            && ConsumeLoop(s, receives + more, halt, consumed)
               == ConsumeLoop(d, more, halt, consumed + |DataOf(receives)|)
    decreases |receives|
  {
    hide Consumes;
    if receives == [] {
      assert [] + more == more && s.base.heard + [] == s.base.heard;
    } else {
      var r, rest := receives[0], receives[1..];
      assert Orderly(r);
      assert (receives + more)[1..] == rest + more && (receives + more)[0] == r;
      HearKeepsTls(s, r.data);
      var heard := HearTls(s, r.data);
      ReactionTlsDone(heard, r.reaction);
      T.ReactKeeps(heard, r.reaction);
      hide T.Invariant, ReactTls;
      ConsumeTlsOrderly(ReactTls(heard, r.reaction), rest, more, halt, consumed + |r.data|);
      ConcatAssociative(s.base.heard, r.data, DataOf(rest));
    }
  }

  /** What reading waits for next, with output waiting or not. */
  predicate AwaitsInput(d: Tls) {
    d.readable == Consuming && d.writable == if d.base.buffers != [] then Producing else NoAction
  }

  lemma ConsumedStays(s: Tls, nextOnReadable: bool)
    requires T.Invariant(s) && Consumes(s) && s.base.phase == Active
    ensures var d := AfterConsume(s, nextOnReadable);
            StaysOpen(s.base, d.base) && d.base.heard == s.base.heard
            && if nextOnReadable then AwaitsInput(d) else d.readable == NoAction && d.writable == Consuming
  {
    hide BaseInvariant;
  }

  /**
    When the TLS layer wants to read or write first, that direction is waited for; any other failure is one of the
    connection.
   */
  lemma TlsHalts(s: Tls, script: Script)
    requires T.Invariant(s) && Consumes(s) && s.base.phase == Active
    requires AllOrderly(script.receives) && |DataOf(script.receives)| < 102400
    ensures var d := Reads(s, script);
            d.base.heard == s.base.heard + DataOf(script.receives)
            && match script.halt
               case WantRead => StaysOpen(s.base, d.base) && AwaitsInput(d)
               case WantWrite => StaysOpen(s.base, d.base) && d.readable == NoAction && d.writable == Consuming
               case _ => Fails(s.base, d.base, SocketFailure)
  {
    hide T.Invariant, DataOf, AfterConsume, AwaitsInput, Consumes, Reads;
    ReadsConsumes(s, script);
    ConsumeTlsOrderly(s, script.receives, [], script.halt, 0);
    assert script.receives + [] == script.receives;
    var m := HearAllTls(s, script.receives);
    assert ConsumeLoop(m, [], script.halt, |DataOf(script.receives)|) == (m, Halted(script.halt));
    ConsumedStays(m, true);
    ConsumedStays(m, false);
    AbortEnds(m.base, Some(SocketFailure));
  }

  /** The end of the stream ends the connection. */
  lemma TlsEnds(s: Tls, script: Script, receives: seq<Receive>, end: Receive, more: seq<Receive>)
    requires T.Invariant(s) && Consumes(s) && s.base.phase == Active
    requires AllOrderly(receives) && |DataOf(receives)| < 102400
    requires script.receives == receives + ([end] + more) && end.data == []
    ensures var d := Reads(s, script);
            d.base.heard == s.base.heard + DataOf(receives) && Fails(s.base, d.base, EndOfStream)
  {
    hide T.Invariant, DataOf, Consumes, Reads;
    ReadsConsumes(s, script);
    ConsumeTlsOrderly(s, receives, [end] + more, script.halt, 0);
    var m := HearAllTls(s, receives);
    assert ConsumeLoop(m, [end] + more, script.halt, |DataOf(receives)|) == (m, AtEnd);
    AbortEnds(m.base, Some(EndOfStream));
  }

  lemma AbortOnce(b: Base, d: Base, f: Failure)
    requires Aborts(b, d)
    ensures Aborts(b, InitiateAbort(d, Some(f))) && InitiateAbort(d, Some(f)).heard == d.heard
  {
  }

  /** A protocol that raises has failed the connection, unless it has aborted it before. */
  lemma TlsRaises(s: Tls, script: Script, receives: seq<Receive>, last: Receive, more: seq<Receive>)
    requires T.Invariant(s) && Consumes(s) && s.base.phase == Active
    requires AllOrderly(receives) && |DataOf(receives)| < 102400
    requires script.receives == receives + ([last] + more) && last.data != [] && last.raises
    ensures var d := Reads(s, script);
            d.base.heard == s.base.heard + DataOf(receives) + last.data
            && if OnlyWrites(last.reaction) then Fails(s.base, d.base, CallbackRaised) else Aborts(s.base, d.base)
  {
    hide T.Invariant, DataOf, ReactTls, Consumes, Reads;
    ReadsConsumes(s, script);
    ConsumeTlsOrderly(s, receives, [last] + more, script.halt, 0);
    var m := HearAllTls(s, receives);
    var heard := HearTls(m, last.data);
    HearKeepsTls(m, last.data);
    ReactionTlsDone(heard, last.reaction);
    var n := ReactTls(heard, last.reaction);
    assert ConsumeLoop(m, [last] + more, script.halt, |DataOf(receives)|) == (n, Raised);
    if OnlyWrites(last.reaction) {
      AbortEnds(n.base, Some(CallbackRaised));
    } else {
      AbortOnce(s.base, n.base, CallbackRaised);
    }
  }

  /** Once the user aborts, the rest is left unread; once enough has been read, the next read is queued. */
  lemma TlsReadingStops(s: Tls, script: Script, receives: seq<Receive>, last: Receive, more: seq<Receive>)
    requires T.Invariant(s) && Consumes(s) && s.base.phase == Active
    requires AllOrderly(receives) && |DataOf(receives)| < 102400
    requires script.receives == receives + ([last] + more) && last.data != [] && !last.raises
    requires OnlyWrites(last.reaction) ==> |DataOf(receives)| + |last.data| >= 102400
    ensures var d := Reads(s, script);
            d.base.heard == s.base.heard + DataOf(receives) + last.data
            && if OnlyWrites(last.reaction) then
                 StaysOpen(s.base.(queue := s.base.queue + [TryRead]), d.base) && AwaitsInput(d)
               else Aborts(s.base, d.base)
  {
    hide T.Invariant, DataOf, ReactTls, Consumes, Reads, AfterConsume, AwaitsInput;
    ReadsConsumes(s, script);
    ConsumeTlsOrderly(s, receives, [last] + more, script.halt, 0);
    var m := HearAllTls(s, receives);
    var heard := HearTls(m, last.data);
    HearKeepsTls(m, last.data);
    ReactionTlsDone(heard, last.reaction);
    T.ReactKeeps(heard, last.reaction);
    var n := ReactTls(heard, last.reaction);
    assert ([last] + more)[1..] == more;
    assert ConsumeLoop(n, more, script.halt, |DataOf(receives)| + |last.data|) == (n, Returned);
    if OnlyWrites(last.reaction) {
      QueueReadKeeps(n);
      QueueReadConsumes(n);
      ConsumedStays(QueueRead(n), true);
    }
  }

  lemma QueueReadConsumes(s: Tls)
    requires Consumes(s)
    ensures Consumes(QueueRead(s))
  {
  }

  // ---------- Sending ----------

  /** The socket is ready in the direction that sending waits for. */
  function Sends(s: Tls, script: Script): Tls {
    if s.writable == Producing then T.OnSocketWritable(s, script) else T.OnSocketReadable(s, script)
  }

  lemma SendsProduces(s: Tls, script: Script)
    requires Produces(s)
    ensures var (d, error) := Produce(s, script.sends, script.halt, script.pending);
            Sends(s, script) == if error == None then d else d.(base := InitiateAbort(d.base, error))
  {
  }

  /** After sending: which direction the rest waits for, and whether a read is queued. */
  predicate SendsOn(s: Tls, d: Tls, readable: Action, writable: Action, readNext: bool) {
    d.readable == readable && d.writable == writable
    && StaysOpen(if readNext then s.base.(queue := s.base.queue + [TryRead]) else s.base, d.base)
  }

  lemma ProducedWaits(s: Tls, nextOnWritable: Option<bool>)
    requires HandOver(s.readable, s.writable, true) && Produces(s)
    requires nextOnWritable == None <==> s.base.buffers == []
    ensures var d := AfterProduce(s, nextOnWritable);
            d.base == s.base.(reading := d.base.reading, writing := d.base.writing, sound := d.base.sound)
            && d.readable == (if nextOnWritable == Some(false) then Producing
                              else if s.readable == Producing then NoAction else Consuming)
            && d.writable == (if nextOnWritable == Some(true) then Producing else NoAction)
  {
    match nextOnWritable
    case None =>
    case Some(true) =>
    case Some(false) =>
  }

  lemma Resumed(s: Tls, pending: bool)
    ensures var d := ResumeConsumer(s, pending);
            s.base.phase == Active ==>
              SendsOn(s, d, if s.readable == NoAction then Consuming else s.readable, s.writable,
                      s.readable == NoAction || pending)
    ensures var d := ResumeConsumer(s, pending);
            d.base == s.base.(reading := d.base.reading, queue := d.base.queue)
  {
  }

  lemma ProducedStays(s: Tls, nextOnWritable: Option<bool>, pending: bool)
    requires HandOver(s.readable, s.writable, true) && Produces(s)
    requires nextOnWritable == None <==> s.base.buffers == []
    ensures var d := ResumeConsumer(AfterProduce(s, nextOnWritable), pending);
            d.base.heard == s.base.heard && d.base.written == s.base.written && d.base.accepted == s.base.accepted
            && d.base.buffers == s.base.buffers
            && match nextOnWritable
               case None => SendsOn(s, d, Consuming, NoAction, s.readable == Producing || pending)
               case Some(true) => SendsOn(s, d, Consuming, Producing, s.readable == Producing || pending)
               case Some(false) => SendsOn(s, d, Producing, NoAction, pending)
  {
    ProducedWaits(s, nextOnWritable);
    hide AfterProduce;
    var m := AfterProduce(s, nextOnWritable);
    Resumed(m, pending);
    hide ResumeConsumer;
  }

  /**
    When everything has been sent, only reading is waited for; otherwise the rest waits for the direction that the
    TLS layer wants, or the connection has failed.
   */
  lemma TlsTakes(s: Tls, script: Script)
    requires T.Invariant(s) && Produces(s)
    ensures var d := Sends(s, script);
            d.base.written == s.base.written && s.base.accepted <= d.base.accepted <= d.base.written
            && d.base.heard == s.base.heard
            && d.base.accepted == ProduceAll(s.base, script.sends, script.halt).0.accepted
            && if d.base.accepted == d.base.written then
                 SendsOn(s, d, Consuming, NoAction, s.readable == Producing || script.pending)
               else match script.halt
                    case WantWrite => SendsOn(s, d, Consuming, Producing, s.readable == Producing || script.pending)
                    case WantRead => SendsOn(s, d, Producing, NoAction, script.pending)
                    case _ => Fails(s.base, d.base, SocketFailure)
  {
    hide Concat, Notices, Sends;
    SendsProduces(s, script);
    ProduceConserves(s.base, script.sends, script.halt);
    var (b, stop) := ProduceAll(s.base, script.sends, script.halt);
    ProducedMore(s.base, script.sends, script.halt);
    NothingLeft(b);
    AbortEnds(b, Some(SocketFailure));
    var d := s.(base := b);
    hide BaseInvariant, AfterProduce, ResumeConsumer, ProduceAll, SendsOn, Conserved;
    if stop == None {
      ProducedStays(d, None, script.pending);
      assert b.(sound := b.sound && b.buffers == []) == b;
      SentOn(s, d, Sends(s, script));
    } else {
      if script.halt == WantRead { ProducedStays(d, Some(false), script.pending); }
      if script.halt == WantWrite { ProducedStays(d, Some(true), script.pending); }
      SentOn(s, d, Sends(s, script));
    }
  }

  lemma SentOn(s: Tls, m: Tls, d: Tls)
    requires m == s.(base := s.base.(buffers := m.base.buffers, count := m.base.count, accepted := m.base.accepted))
    ensures forall readable, writable, readNext ::
              SendsOn(m, d, readable, writable, readNext) ==> SendsOn(s, d, readable, writable, readNext)
  {
  }

  // ---------- What the protocol is told ----------

  /** The failure is told, once, whether it was met in reading or in writing. */
  lemma TlsFailureTold(s: Tls, script: Script, abortsInside: bool)
    requires T.Invariant(s) && s.base.phase == Active && script.halt != WantRead && script.halt != WantWrite
    ensures Consumes(s) && AllOrderly(script.receives) && |DataOf(script.receives)| < 102400 ==>
              var d := Reads(s, script).base;
              BaseInvariant(d) && d.phase == Failed
              && Drain(d, abortsInside).calls == [Call(Some(SocketFailure), false)]
    ensures Produces(s) && Sends(s, script).base.accepted != s.base.written ==>
              var d := Sends(s, script).base;
              BaseInvariant(d) && d.phase == Failed
              && Drain(d, abortsInside).calls == [Call(Some(SocketFailure), false)]
  {
    hide T.Invariant, T.OnSocketReadable, T.OnSocketWritable, Drain, DataOf, Consumes, Produces, BaseInvariant;
    T.UnfoldInvariant(s);
    HandlersKeep(s, script);
    T.UnfoldInvariant(T.OnSocketReadable(s, script));
    T.UnfoldInvariant(T.OnSocketWritable(s, script));
    if Consumes(s) && AllOrderly(script.receives) && |DataOf(script.receives)| < 102400 {
      TlsHalts(s, script);
      EndingTold(s.base, Reads(s, script).base, abortsInside);
    }
    if Produces(s) && Sends(s, script).base.accepted != s.base.written {
      TlsTakes(s, script);
      EndingTold(s.base, Sends(s, script).base, abortsInside);
    }
  }
}
