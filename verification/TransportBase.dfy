/**
  What both stream transports share (`_AsyncTransportBase` in io_services_utils.py): the transmit buffer, with
  the conservation of the bytes in it, and the shutdown, with its notifications.
 */
module TransportBase {
  import opened Bytes

  datatype Phase = Active | Failed | AbortedByUser | Completed

  /** The exceptions that end a connection. */
  datatype Failure = SocketFailure | EndOfStream | CallbackRaised

  /** Callbacks handed to `add_callback_threadsafe` and not yet run. */
  datatype Queued = TryRead | Lost(error: Option<Failure>)

  /** A call of the protocol's `connection_lost`, and whether the user had aborted before it. */
  datatype Call = Call(error: Option<Failure>, userAborted: bool)

  /**
    `reading` and `writing` are the event loop's watchers of the socket. History: the bytes accepted by
    `write`, those taken by the socket, those passed to the protocol, whether the user aborted, and whether every
    assertion has held.
   */
  datatype Base = Base(phase: Phase, buffers: seq<bytes>, count: int, reading: bool, writing: bool,
                       queue: seq<Queued>, calls: seq<Call>,
                       written: bytes, accepted: bytes, heard: bytes, userAborted: bool, sound: bool)

  const MAX_CONSUME_BYTES := 1024 * 100

  /** How a run of socket calls ends, if not by running out of work. */
  datatype Halt = WouldBlock | WantRead | WantWrite | Broken

  /** `_buffer_tx_data` of an active transport. */
  function BufferTxData(b: Base, data: bytes): Base {
    b.(buffers := b.buffers + [data], count := b.count + |data|, written := b.written + data)
  }

  function Min(a: nat, b: nat): nat { if a < b then a else b }

  /** One `send` that takes up to `n` bytes of the first chunk. */
  function SendOnce(b: Base, n: nat): Base
    requires b.buffers != []
  {
    var chunk, rest := b.buffers[0], b.buffers[1..];
    var sent := Min(n, |chunk|);
    b.(buffers := if sent < |chunk| then [chunk[sent..]] + rest else rest,
       count := b.count - sent, accepted := b.accepted + chunk[..sent], sound := b.sound && b.count - sent >= 0)
  }

  /** `_produce`: the socket takes the numbers of bytes in `sends`, then raises `halt`. */
  function ProduceAll(b: Base, sends: seq<nat>, halt: Halt): (Base, Option<Halt>)
    decreases |sends|
  {
    if b.buffers == [] then (b, None)
    else if sends == [] then (b, Some(halt))
    else ProduceAll(SendOnce(b, sends[0]), sends[1..], halt)
  }

  function Deactivate(b: Base): Base {
    if b.phase == Active then b.(reading := false, writing := false, buffers := []) else b
  }

  /** `_initiate_abort`; `error` is None when the user aborts. */
  function InitiateAbort(b: Base, error: Option<Failure>): Base {
    if b.phase == Completed then b.(sound := false)
    else
      var d := Deactivate(b);
      if error == None then
        if d.phase == AbortedByUser then d
        else d.(phase := AbortedByUser, queue := d.queue + [Lost(error)], userAborted := true)
      else if d.phase != Active then d.(sound := d.sound && d.phase == AbortedByUser)
      else d.(phase := Failed, queue := d.queue + [Lost(error)])
  }

  /** `_connection_lost_notify_async`; `abortsInside` says that `connection_lost` calls `abort`. */
  function Notify(b: Base, error: Option<Failure>, abortsInside: bool): Base {
    if b.phase == Completed then b
    else if error != None && b.phase != Failed then b.(sound := b.sound && b.phase == AbortedByUser)
    else
      var told := b.(calls := b.calls + [Call(error, b.userAborted)]);
      (if abortsInside then InitiateAbort(told, None) else told).(phase := Completed)
  }

  // ---------- Conservation ----------

  /** While active, the output is either accepted or buffered; in every phase the counter is what was not accepted. */
  ghost predicate Conserved(b: Base) {
    (b.phase == Active ==>
       (forall i :: 0 <= i < |b.buffers| ==> b.buffers[i] != [])
       && b.count == |Concat(b.buffers)|
       && b.accepted + Concat(b.buffers) == b.written)
    && b.accepted <= b.written && b.count == |b.written| - |b.accepted|
  }

  lemma BufferConserves(b: Base, data: bytes)
    requires Conserved(b) && b.phase == Active && data != []
    ensures Conserved(BufferTxData(b, data))
  {
    ConcatAppend(b.buffers, [data]);
    ConcatOne(data);
    ConcatAssociative(b.accepted, Concat(b.buffers), data);
  }

  lemma SendConserves(b: Base, n: nat)
    requires Conserved(b) && b.phase == Active && b.buffers != []
    ensures Conserved(SendOnce(b, n)) && (b.sound ==> SendOnce(b, n).sound)
  {
    var chunk, rest := b.buffers[0], b.buffers[1..];
    var sent := Min(n, |chunk|);
    var d := SendOnce(b, n);
    assert chunk == chunk[..sent] + chunk[sent..];
    assert Concat(d.buffers) == chunk[sent..] + Concat(rest) by {
      if sent < |chunk| {
        assert ([chunk[sent..]] + rest)[1..] == rest;
      } else {
        assert chunk[sent..] == [];
      }
    }
    ConcatAssociative(chunk[..sent], chunk[sent..], Concat(rest));
    ConcatAssociative(b.accepted, chunk[..sent], chunk[sent..] + Concat(rest));
  }

  /** Partial sends and refused sends lose, repeat and reorder nothing, and the counter never underflows. */
  lemma {:induction false} ProduceConserves(b: Base, sends: seq<nat>, halt: Halt)
    requires Conserved(b) && b.phase == Active && b.sound
    ensures var (d, stop) := ProduceAll(b, sends, halt);
            Conserved(d) && d.sound && (stop == None <==> d.buffers == []) && (stop != None ==> stop == Some(halt))
            && d == b.(buffers := d.buffers, count := d.count, accepted := d.accepted)
    decreases |sends|
  {
    if b.buffers != [] && sends != [] {
      SendConserves(b, sends[0]);
      hide Conserved;
      ProduceConserves(SendOnce(b, sends[0]), sends[1..], halt);
    }
  }

  lemma CountZero(b: Base)
    requires Conserved(b) && b.phase == Active
    ensures b.count == 0 <==> b.buffers == []
  {
  }

  /** The buffers of an inactive transport are empty; its counter says so exactly when all output was accepted. */
  lemma CountWhenInactive(b: Base)
    requires Conserved(b) && b.phase != Active && b.buffers == []
    ensures b.count == |Concat(b.buffers)| <==> b.accepted == b.written
  {
    assert b.accepted <= b.written;
  }

  // ---------- Shutdown ----------

  /** The notifications among the queued callbacks. */
  function Notices(queue: seq<Queued>): seq<Option<Failure>> {
    if queue == [] then []
    else if queue[0].Lost? then [queue[0].error] + Notices(queue[1..])
    else Notices(queue[1..])
  }

  lemma {:induction false} NoticesAppend(queue: seq<Queued>, q: Queued)
    ensures Notices(queue + [q]) == Notices(queue) + if q.Lost? then [q.error] else []
  {
    if queue == [] {
      assert [q][1..] == [];
    } else {
      NoticesAppend(queue[1..], q);
      assert (queue + [q])[1..] == queue[1..] + [q];
    }
  }

  /**
    Until shutdown nothing is announced; then one notification is queued for the failure, the user's
    abort, or each of them in this order; in the end `connection_lost` has been called once.
   */
  ghost predicate Shutting(b: Base) {
    (b.phase != Active ==> !b.reading && !b.writing && b.buffers == [])
    && match b.phase
       case Active => b.calls == [] && !b.userAborted && Notices(b.queue) == []
       case Failed => b.calls == [] && !b.userAborted && |Notices(b.queue)| == 1 && Notices(b.queue)[0].Some?
       case AbortedByUser =>
         b.calls == [] && b.userAborted
         && (Notices(b.queue) == [None]
             || (|Notices(b.queue)| == 2 && Notices(b.queue)[0].Some? && Notices(b.queue)[1] == None))
       case Completed => |b.calls| == 1 && (b.calls[0].error == None <==> b.calls[0].userAborted)
  }

  ghost predicate BaseInvariant(b: Base) {
    Shutting(b) && Conserved(b) && b.sound
  }

  lemma AbortKeeps(b: Base, error: Option<Failure>)
    requires BaseInvariant(b) && b.phase != Completed && (error != None ==> b.phase != Failed)
    ensures BaseInvariant(InitiateAbort(b, error)) && InitiateAbort(b, error).phase !in {Active, Completed}
    ensures error == None ==> InitiateAbort(b, error).userAborted
  {
    NoticesAppend(b.queue, Lost(error));
  }

  lemma NoticesHead(queue: seq<Queued>)
    requires queue != []
    ensures Notices(queue) == (if queue[0].Lost? then [queue[0].error] else []) + Notices(queue[1..])
  {
  }

  /** The event loop runs the first queued callback, a notification. */
  function RunNotice(b: Base, abortsInside: bool): Base
    requires b.queue != [] && b.queue[0].Lost?
  {
    Notify(b.(queue := b.queue[1..]), b.queue[0].error, abortsInside)
  }

  lemma NoticeKeeps(b: Base, abortsInside: bool)
    requires BaseInvariant(b) && b.queue != [] && b.queue[0].Lost?
    ensures BaseInvariant(RunNotice(b, abortsInside)) && RunNotice(b, abortsInside).phase != Active
  {
    NoticesHead(b.queue);
    hide Concat, Notices;
    assert Notices(b.queue)[0] == b.queue[0].error;
    assert Notices(b.queue[1..]) == Notices(b.queue)[1..];
    assert b.phase == AbortedByUser && b.queue[0].error.Some? ==> Notices(b.queue)[1..] == [None];
  }

  /** Once shutdown has begun and no notification is left to run, `connection_lost` has been called exactly once. */
  lemma ToldExactlyOnce(b: Base)
    requires BaseInvariant(b) && b.phase != Active && forall i :: 0 <= i < |b.queue| ==> b.queue[i].TryRead?
    ensures b.phase == Completed && |b.calls| == 1
    ensures b.calls[0].error == None <==> b.calls[0].userAborted
  {
    NoNotices(b.queue);
  }

  lemma {:induction false} NoNotices(queue: seq<Queued>)
    requires forall i :: 0 <= i < |queue| ==> queue[i].TryRead?
    ensures Notices(queue) == []
  {
    if queue != [] {
      NoNotices(queue[1..]);
    }
  }

  /** The event loop runs the queue of an inactive transport until it is empty; reads are ignored by then. */
  function Drain(b: Base, abortsInside: bool): Base
    requires BaseInvariant(b) && b.phase != Active
    decreases if b.phase == Completed then 0 else 1, |b.queue|
  {
    if b.queue == [] then b
    else if b.queue[0].TryRead? then
      NoticesHead(b.queue);
      Drain(b.(queue := b.queue[1..]), abortsInside)
    else
      NoticeKeeps(b, abortsInside);
      Drain(RunNotice(b, abortsInside), abortsInside)
  }

  /**
    Draining the queue ends, and calls `connection_lost` exactly once: with None if and only if the user had
    aborted.
   */
  lemma {:induction false} DrainTellsOnce(b: Base, abortsInside: bool)
    requires BaseInvariant(b) && b.phase != Active
    ensures var d := Drain(b, abortsInside);
            d.queue == [] && d.phase == Completed && d.sound && |d.calls| == 1
            && (d.calls[0].error == None <==> d.calls[0].userAborted)
            && (b.phase == AbortedByUser ==> d.calls[0] == Call(None, true))
            && (b.calls != [] ==> d.calls == b.calls)
    decreases if b.phase == Completed then 0 else 1, |b.queue|
  {
    if b.queue == [] {
      ToldExactlyOnce(b);
    } else if b.queue[0].TryRead? {
      NoticesHead(b.queue);
      DrainTellsOnce(b.(queue := b.queue[1..]), abortsInside);
    } else {
      NoticesHead(b.queue);
      NoticeKeeps(b, abortsInside);
      DrainTellsOnce(RunNotice(b, abortsInside), abortsInside);
    }
  }
}
