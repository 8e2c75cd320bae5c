/** How the events of a transport end. */
module Outcomes {
  import opened Bytes
  import opened TransportBase

  // ---------- Endings ----------

  /** Nothing is announced. */
  predicate StaysOpen(b: Base, d: Base) {
    d.phase == Active && d.queue == b.queue && d.calls == b.calls && d.userAborted == b.userAborted
  }

  /** The connection is given up for this failure, which is to be announced. */
  predicate Fails(b: Base, d: Base, f: Failure) {
    d.phase == Failed && d.queue == b.queue + [Lost(Some(f))] && d.calls == b.calls && d.userAborted == b.userAborted
    && d.buffers == [] && !d.reading && !d.writing
  }

  /** The user has given it up. */
  predicate Aborts(b: Base, d: Base) {
    d.phase == AbortedByUser && d.queue == b.queue + [Lost(None)] && d.calls == b.calls && d.userAborted
    && d.buffers == [] && !d.reading && !d.writing
  }

  lemma AbortEnds(b: Base, error: Option<Failure>)
    requires b.phase == Active
    ensures error.Some? ==> Fails(b, InitiateAbort(b, error), error.value)
    ensures error.None? ==> Aborts(b, InitiateAbort(b, error))
  {
  }

  /** The only notice in the queue is told, once. */
  lemma {:induction false} DrainTells(b: Base, error: Option<Failure>, abortsInside: bool)
    requires BaseInvariant(b) && b.phase == (if error.Some? then Failed else AbortedByUser)
    requires Notices(b.queue) == [error] && b.calls == []
    ensures Drain(b, abortsInside).calls == [Call(error, error.None?)]
    decreases |b.queue|
  {
    NoticesNone();
    NoticesHead(b.queue);
    if b.queue[0].TryRead? {
      assert Notices(b.queue[1..]) == Notices(b.queue);
      DrainTells(b.(queue := b.queue[1..]), error, abortsInside);
    } else {
      NoticeKeeps(b, abortsInside);
      var d := RunNotice(b, abortsInside);
      assert b.queue[0].error == error;
      assert [] + [Call(error, b.userAborted)] == [Call(error, b.userAborted)];
      assert d.calls == [Call(error, error.None?)] && d.phase == Completed;
      DrainTellsOnce(d, abortsInside);
    }
  }

  lemma NoticesNone()
    ensures Notices([]) == []
  {
  }

  /** A failure is told to the protocol exactly once, and so is an abort, whatever else was queued. */
  lemma EndingTold(b: Base, d: Base, abortsInside: bool)
    requires BaseInvariant(b) && b.phase == Active && BaseInvariant(d)
    ensures forall f :: Fails(b, d, f) ==> Drain(d, abortsInside).calls == [Call(Some(f), false)]
    ensures Aborts(b, d) ==> Drain(d, abortsInside).calls == [Call(None, true)]
  {
    hide Conserved, Drain, Notices;
    forall f | Fails(b, d, f)
      ensures Drain(d, abortsInside).calls == [Call(Some(f), false)]
    {
      NoticesAppend(b.queue, Lost(Some(f)));
      assert [] + [Some(f)] == [Some(f)];
      DrainTells(d, Some(f), abortsInside);
    }
    if Aborts(b, d) {
      NoticesAppend(b.queue, Lost(None));
      var none: Option<Failure> := None;
      assert [] + [none] == [none];
      DrainTells(d, None, abortsInside);
    }
  }

  // ---------- Sending ----------

  function Sum(sends: seq<nat>): nat {
    if sends == [] then 0 else sends[0] + Sum(sends[1..])
  }

  /** A socket that takes at least a byte each time is sent as many bytes as there are calls, or everything. */
  lemma {:induction false} SendsProgress(b: Base, sends: seq<nat>, halt: Halt)
    requires Conserved(b) && b.phase == Active && b.sound && forall i :: 0 <= i < |sends| ==> sends[i] >= 1
    ensures var (d, stop) := ProduceAll(b, sends, halt);
            |d.accepted| <= |b.accepted| + Sum(sends)
            && (stop.None? || |d.accepted| >= |b.accepted| + |sends|)
    decreases |sends|
  {
    if b.buffers != [] && sends != [] {
      SendConserves(b, sends[0]);
      assert b.buffers[0] != [];
      SendsProgress(SendOnce(b, sends[0]), sends[1..], halt);
    }
  }

  /** One that takes less than the first chunk is sent the rest of the chunk next. */
  lemma {:induction false} SendsWithinChunk(b: Base, sends: seq<nat>, halt: Halt)
    requires b.buffers != [] && Sum(sends) < |b.buffers[0]|
    ensures var (d, stop) := ProduceAll(b, sends, halt);
            stop == Some(halt) && d.accepted == b.accepted + b.buffers[0][..Sum(sends)]
            && d.buffers == [b.buffers[0][Sum(sends)..]] + b.buffers[1..]
    decreases |sends|
  {
    var chunk := b.buffers[0];
    if sends == [] {
      assert chunk[0..] == chunk && [chunk] + b.buffers[1..] == b.buffers;
    } else {
      var d := SendOnce(b, sends[0]);
      assert d.buffers[1..] == b.buffers[1..];
      SendsWithinChunk(d, sends[1..], halt);
      assert chunk[sends[0]..][..Sum(sends[1..])] == chunk[sends[0]..Sum(sends)];
      assert chunk[..sends[0]] + chunk[sends[0]..Sum(sends)] == chunk[..Sum(sends)];
      ConcatAssociative(b.accepted, chunk[..sends[0]], chunk[sends[0]..Sum(sends)]);
    }
  }

  lemma SendsChunk(b: Base, n: nat)
    requires b.buffers != [] && n >= |b.buffers[0]|
    ensures SendOnce(b, n).accepted == b.accepted + b.buffers[0] && SendOnce(b, n).buffers == b.buffers[1..]
  {
    assert b.buffers[0][..|b.buffers[0]|] == b.buffers[0];
  }

  /** One that takes whole chunks is sent them in order. */
  lemma {:induction false} SendsWholeChunks(b: Base, sends: seq<nat>, halt: Halt)
    requires |sends| <= |b.buffers| && forall i :: 0 <= i < |sends| ==> sends[i] >= |b.buffers[i]|
    ensures var (d, stop) := ProduceAll(b, sends, halt);
            d.accepted == b.accepted + Concat(b.buffers[..|sends|]) && d.buffers == b.buffers[|sends|..]
            && stop == if |sends| == |b.buffers| then None else Some(halt)
    decreases |sends|
  {
    hide SendOnce, Concat;
    if sends == [] {
      NothingJoined();
      assert b.buffers[..0] == [] && b.buffers[0..] == b.buffers && b.accepted + [] == b.accepted;
    } else {
      var rest := b.buffers[1..];
      SendsChunk(b, sends[0]);
      SendsWholeChunks(SendOnce(b, sends[0]), sends[1..], halt);
      JoinedFirst(b.buffers, |sends|);
      ConcatAssociative(b.accepted, b.buffers[0], Concat(rest[..|sends| - 1]));
      assert rest[|sends| - 1..] == b.buffers[|sends|..];
    }
  }

  lemma NothingJoined()
    ensures Concat([]) == []
  {
  }

  lemma JoinedFirst(parts: seq<bytes>, k: nat)
    requires 0 < k <= |parts|
    ensures Concat(parts[..k]) == parts[0] + Concat(parts[1..][..k - 1])
  {
    assert parts[..k][1..] == parts[1..][..k - 1];
  }
}
