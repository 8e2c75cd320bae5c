/** What each event does to a plaintext transport. */
module PlaintextOutcomes {
  import opened Bytes
  import opened TransportBase
  import opened PlaintextTransport
  import opened Outcomes

  // ---------- Writing ----------

  predicate OnlyWrites(reaction: seq<UserOp>) {
    forall i :: 0 <= i < |reaction| ==> reaction[i].UserWrite?
  }

  /** What is written before the first abort. */
  function WrittenBy(reaction: seq<UserOp>): bytes {
    if reaction == [] || reaction[0].UserAbort? then [] else reaction[0].data + WrittenBy(reaction[1..])
  }

  /** An active transport takes what is written, behind what waits, and watches for room; another takes nothing. */
  lemma WriteQueues(b: Base, data: Chunk)
    requires Invariant(b)
    ensures var d := Write(b, data);
            if b.phase != Active then d == b
            else StaysOpen(b, d) && d.written == b.written + data
                 && Concat(d.buffers) == Concat(b.buffers) + data && d.writing && d.reading == b.reading
                 && d.accepted == b.accepted && d.heard == b.heard
  {
    if b.phase == Active {
      CountZero(b);
      ConcatAppend(b.buffers, [data]);
      ConcatOne(data);
      hide Shutting, Concat;
    }
  }

  /** A reaction writes up to its first abort, which ends the connection. */
  lemma {:induction false} ReactionDone(b: Base, reaction: seq<UserOp>)
    requires Invariant(b) && b.phase == Active
    ensures var d := React(b, reaction);
            d.written == b.written + WrittenBy(reaction) && d.accepted == b.accepted && d.heard == b.heard
            && if OnlyWrites(reaction) then
                 StaysOpen(b, d) && d.reading == b.reading
                 && Concat(d.buffers) == Concat(b.buffers) + WrittenBy(reaction)
               else Aborts(b, d)
    decreases reaction
  {
    if reaction == [] {
      assert b.written + [] == b.written && Concat(b.buffers) + [] == Concat(b.buffers);
    } else {
      assert reaction == [reaction[0]] + reaction[1..];
      match reaction[0] {
        case UserWrite(data) =>
          WriteKeeps(b, data);
          WriteQueues(b, data);
          hide Invariant, Concat;
          ReactionDone(Write(b, data), reaction[1..]);
          ConcatAssociative(b.written, data, WrittenBy(reaction[1..]));
          ConcatAssociative(Concat(b.buffers), data, WrittenBy(reaction[1..]));
        case UserAbort =>
          AbortEnds(b, None);
          hide Invariant, Concat;
          AbortedStays(InitiateAbort(b, None), reaction[1..]);
          assert b.written + [] == b.written;
          assert !OnlyWrites(reaction);
      }
    }
  }

  lemma {:induction false} AbortedStays(b: Base, reaction: seq<UserOp>)
    requires b.phase == AbortedByUser
    ensures React(b, reaction) == b
    decreases reaction
  {
    if reaction != [] {
      AbortedStays(b, reaction[1..]);
    }
  }

  // ---------- Reading ----------

  /** Data that the protocol takes without giving the connection up. */
  predicate Orderly(r: Receive) {
    r.data != [] && OnlyWrites(r.reaction) && !r.raises
  }

  predicate AllOrderly(receives: seq<Receive>) {
    forall i :: 0 <= i < |receives| ==> Orderly(receives[i])
  }

  function HearAll(b: Base, receives: seq<Receive>): Base
    decreases |receives|
  {
    if receives == [] then b else HearAll(React(Hear(b, receives[0].data), receives[0].reaction), receives[1..])
  }

  /** Orderly data is heard, in order, and the transport stays open. */
  lemma {:induction false} ConsumeOrderly(b: Base, receives: seq<Receive>, more: seq<Receive>, halt: Halt,
                                          consumed: nat)
    requires Invariant(b) && b.phase == Active && AllOrderly(receives)
    requires consumed + |DataOf(receives)| < 102400
    ensures var d := HearAll(b, receives);
            Invariant(d) && StaysOpen(b, d) && d.heard == b.heard + DataOf(receives) && d.reading == b.reading
            && Consume(b, receives + more, halt, consumed) == Consume(d, more, halt, consumed + |DataOf(receives)|)
    decreases |receives|
  {
    if receives == [] {
      assert [] + more == more && b.heard + [] == b.heard;
    } else {
      var r, rest := receives[0], receives[1..];
      assert Orderly(r);
      assert (receives + more)[1..] == rest + more && (receives + more)[0] == r;
      HearKeeps(b, r.data);
      var heard := Hear(b, r.data);
      ReactionDone(heard, r.reaction);
      ReactKeeps(heard, r.reaction);
      hide Invariant, React;
      ConsumeOrderly(React(heard, r.reaction), rest, more, halt, consumed + |r.data|);
      ConcatAssociative(b.heard, r.data, DataOf(rest));
    }
  }

  /** When the socket has no more data it is waited for; when it fails, the connection has failed. */
  lemma SocketHalts(b: Base, receives: seq<Receive>, halt: Halt, eof: EofReply)
    requires Invariant(b) && b.phase == Active && AllOrderly(receives) && |DataOf(receives)| < 102400
    ensures var d := OnSocketReadable(b, receives, halt, eof);
            d.heard == b.heard + DataOf(receives)
            && if halt == WouldBlock then StaysOpen(b, d) && d.reading == b.reading else Fails(b, d, SocketFailure)
  {
    hide Invariant, DataOf;
    ConsumeOrderly(b, receives, [], halt, 0);
    assert receives + [] == receives;
    var m := HearAll(b, receives);
    assert Consume(m, [], halt, |DataOf(receives)|) == (m, Halted(halt));
    AbortEnds(m, Some(SocketFailure));
  }

  /** At the end of the stream the protocol decides. */
  lemma StreamEnds(b: Base, receives: seq<Receive>, end: Receive, more: seq<Receive>, halt: Halt, eof: EofReply)
    requires Invariant(b) && b.phase == Active && AllOrderly(receives) && |DataOf(receives)| < 102400
    requires end.data == []
    ensures var d := OnSocketReadable(b, receives + ([end] + more), halt, eof);
            d.heard == b.heard + DataOf(receives)
            && match eof
               case KeepOpen => StaysOpen(b, d) && !d.reading
               case CloseIt => Aborts(b, d)
               case EofRaises => Fails(b, d, CallbackRaised)
  {
    hide Invariant, DataOf;
    ConsumeOrderly(b, receives, [end] + more, halt, 0);
    var m := HearAll(b, receives);
    assert Consume(m, [end] + more, halt, |DataOf(receives)|) == (m, AtEnd);
    AbortEnds(m, Some(CallbackRaised));
    AbortEnds(m, None);
  }

  /** A protocol that raises has failed the connection, unless it has aborted it before. */
  lemma ProtocolRaises(b: Base, receives: seq<Receive>, last: Receive, more: seq<Receive>, halt: Halt, eof: EofReply)
    requires Invariant(b) && b.phase == Active && AllOrderly(receives) && |DataOf(receives)| < 102400
    requires last.data != [] && last.raises
    ensures var d := OnSocketReadable(b, receives + ([last] + more), halt, eof);
            d.heard == b.heard + DataOf(receives) + last.data
            && if OnlyWrites(last.reaction) then Fails(b, d, CallbackRaised) else Aborts(b, d)
  {
    hide Invariant, DataOf, React;
    ConsumeOrderly(b, receives, [last] + more, halt, 0);
    var m := HearAll(b, receives);
    HearKeeps(m, last.data);
    ReactionDone(Hear(m, last.data), last.reaction);
    var n := React(Hear(m, last.data), last.reaction);
    assert Consume(m, [last] + more, halt, |DataOf(receives)|) == (n, Raised);
    if OnlyWrites(last.reaction) {
      AbortEnds(n, Some(CallbackRaised));
    }
  }

  /** Once the user aborts, or enough has been read, the rest is left unread. */
  lemma ReadingStops(b: Base, receives: seq<Receive>, last: Receive, more: seq<Receive>, halt: Halt, eof: EofReply)
    requires Invariant(b) && b.phase == Active && AllOrderly(receives) && |DataOf(receives)| < 102400
    requires last.data != [] && !last.raises
    requires OnlyWrites(last.reaction) ==> |DataOf(receives)| + |last.data| >= 102400
    ensures var d := OnSocketReadable(b, receives + ([last] + more), halt, eof);
            d.heard == b.heard + DataOf(receives) + last.data
            && if OnlyWrites(last.reaction) then StaysOpen(b, d) && d.reading == b.reading else Aborts(b, d)
  {
    hide Invariant, DataOf, React;
    ConsumeOrderly(b, receives, [last] + more, halt, 0);
    var m := HearAll(b, receives);
    HearKeeps(m, last.data);
    ReactionDone(Hear(m, last.data), last.reaction);
    var n := React(Hear(m, last.data), last.reaction);
    assert ([last] + more)[1..] == more;
    assert Consume(n, more, halt, |DataOf(receives)| + |last.data|) == (n, Returned);
  }

  // ---------- Sending ----------

  /**
    When everything has been sent, room is watched for no more; otherwise it is waited for, or, when the socket
    fails, the connection has failed.
   */
  lemma SocketTakes(b: Base, sends: seq<nat>, halt: Halt)
    requires Invariant(b) && b.phase == Active && b.writing
    ensures var d := OnSocketWritable(b, sends, halt);
            d.written == b.written && b.accepted <= d.accepted <= d.written && d.heard == b.heard
            && if d.accepted == d.written then StaysOpen(b, d) && !d.writing && d.reading == b.reading
               else if halt == WouldBlock then
                 StaysOpen(b, d) && d.writing && d.reading == b.reading && d.accepted + Concat(d.buffers) == d.written
               else Fails(b, d, SocketFailure)
    ensures OnSocketWritable(b, sends, halt).accepted == ProduceAll(b, sends, halt).0.accepted
  {
    ProduceConserves(b, sends, halt);
    var (d, stop) := ProduceAll(b, sends, halt);
    assert b.(sound := b.sound && b.buffers != []) == b;
    ProducedMore(b, sends, halt);
    AbortEnds(d, Some(SocketFailure));
    NothingLeft(d);
    hide Shutting, Concat;
  }

  lemma NothingLeft(d: Base)
    requires Conserved(d) && d.phase == Active
    ensures d.buffers == [] <==> d.accepted == d.written
    ensures d.accepted <= d.written
  {
    CountZero(d);
  }

  lemma {:induction false} ProducedMore(b: Base, sends: seq<nat>, halt: Halt)
    ensures b.accepted <= ProduceAll(b, sends, halt).0.accepted
    decreases |sends|
  {
    if b.buffers != [] && sends != [] {
      ProducedMore(SendOnce(b, sends[0]), sends[1..], halt);
    }
  }

  // ---------- What the protocol is told ----------

  /** The failure of the socket is told, once, whether it was met in reading or in writing. */
  lemma SocketFailureTold(b: Base, receives: seq<Receive>, sends: seq<nat>, halt: Halt, eof: EofReply,
                          abortsInside: bool)
    requires Invariant(b) && b.phase == Active && halt != WouldBlock
    ensures b.reading && AllOrderly(receives) && |DataOf(receives)| < 102400 ==>
              var d := OnSocketReadable(b, receives, halt, eof);
              BaseInvariant(d) && d.phase == Failed
              && Drain(d, abortsInside).calls == [Call(Some(SocketFailure), false)]
    ensures b.writing && OnSocketWritable(b, sends, halt).accepted != b.written ==>
              var d := OnSocketWritable(b, sends, halt);
              BaseInvariant(d) && d.phase == Failed
              && Drain(d, abortsInside).calls == [Call(Some(SocketFailure), false)]
  {
    hide Invariant, OnSocketReadable, OnSocketWritable, Drain, DataOf;
    UnfoldInvariant(b);
    if b.reading && AllOrderly(receives) && |DataOf(receives)| < 102400 {
      var d := OnSocketReadable(b, receives, halt, eof);
      ReadableKeeps(b, receives, halt, eof);
      UnfoldInvariant(d);
      SocketHalts(b, receives, halt, eof);
      EndingTold(b, d, abortsInside);
    }
    if b.writing && OnSocketWritable(b, sends, halt).accepted != b.written {
      var d := OnSocketWritable(b, sends, halt);
      WritableKeeps(b, sends, halt);
      UnfoldInvariant(d);
      SocketTakes(b, sends, halt);
      EndingTold(b, d, abortsInside);
    }
  }
}
