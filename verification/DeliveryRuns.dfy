/** Whole runs of a blocking channel. */
module DeliveryRuns {
  import opened Deliveries

  // ---------- Runs ----------

  lemma {:induction false} ReceiveAllRequests(s: State, frames: seq<Frame>)
    requires s.pending == [] || s.requested
    ensures ReceiveAll(s, frames).pending == [] || ReceiveAll(s, frames).requested
    decreases frames
  {
    if frames != [] {
      ReceiveAllRequests(Receive(s, frames[0]), frames[1..]);
    }
  }

  /** Pending events are never forgotten: a dispatch is requested for them. */
  lemma NestedRequests(s: State, call: Call)
    requires s.pending == [] || s.requested
    ensures Nested(s, call).pending == [] || Nested(s, call).requested
  {
    match call {
      case Consume(tag, autoAck, before, after) =>
        ReceiveAllRequests(StartConsuming(s, tag, autoAck), before + [ConsumeOk(tag)] + after);
      case Cancel(tag, before, after) =>
        if tag in s.infos {
          ReceiveAllRequests(StartCancelling(s, tag), before + [CancelOk(tag)] + after);
        }
      case Process(frames, script) => ReceiveAllRequests(s, frames);
    }
  }

  ghost predicate AtRest(s: State) {
    Settled(s) && (s.pending == [] || s.requested)
  }

  lemma StepKeeps(s: State, call: Call)
    requires AtRest(s)
    ensures AtRest(Step(s, call))
    ensures call.Process? ==> Step(s, call).pending == []
  {
    NestedKeeps(s, call);
    NestedRequests(s, call);
    if call.Process? {
      var t := ReceiveAll(s, call.frames);
      var cleared := t.(requested := false);
      SameButRequested(t, cleared);
      hide Settled, ReceiveAll, DispatchEvents;
      DispatchKeeps(cleared, call.script);
    } else {
      hide Settled, Nested;
    }
  }

  lemma SameButRequested(s: State, d: State)
    requires d == s.(requested := d.requested)
    ensures Settled(s) ==> Settled(d)
  {
    if Settled(s) {
      SameTags(s, d);
      SameQueue(s, d);
    }
  }

  function Run(s: State, calls: seq<Call>): State
    decreases calls
  {
    if calls == [] then s else Run(Step(s, calls[0]), calls[1..])
  }

  lemma {:induction false} RunKeeps(s: State, calls: seq<Call>)
    requires AtRest(s)
    ensures AtRest(Run(s, calls))
    decreases calls
  {
    hide AtRest, Step;
    if calls != [] {
      StepKeeps(s, calls[0]);
      RunKeeps(Step(s, calls[0]), calls[1..]);
    }
  }

  lemma StartRests()
    ensures AtRest(Start)
  {
  }

  lemma {:induction false} CountDistinct(ds: seq<Delivery>, below: nat, i: nat)
    requires Increasing(ds, below) && i < |ds|
    ensures Count(ds, ds[i]) == 1
  {
    var d := ds[i];
    assert ds == ds[..i] + [d] + ds[i + 1..];
    CountConcat(ds[..i] + [d], ds[i + 1..]);
    CountConcat(ds[..i], [d]);
    CountOne(d);
    CountAbsent(ds[..i], d);
    CountAbsent(ds[i + 1..], d);
  }

  lemma CountAbsent(ds: seq<Delivery>, d: Delivery)
    requires d !in ds
    ensures Count(ds, d) == 0
  {
  }

  lemma CountZeroOf(ds: seq<Delivery>, manual: bool, d: Delivery)
    requires AllManual(ds, manual) && d.manual != manual
    ensures Count(ds, d) == 0
  {
  }

  /**
    In every run, each delivery to a manual-acknowledge consumer is in exactly one place, once: handed to
    the callback, rejected, or pending. What was handed over and what is pending is in delivery order.
   */
  lemma DeliveryConservation(calls: seq<Call>, i: nat)
    requires i < |Run(Start, calls).delivered|
    ensures var s := Run(Start, calls);
            var d := s.delivered[i];
            (d.manual ==> Count(s.handed, d) + Count(s.rejected, d) + Count(Waiting(s.pending), d) == 1)
            && (!d.manual ==>
                  Count(s.handed, d) + Count(Waiting(s.pending), d) + Count(s.returned, d) + Count(s.dropped, d) == 1)
  {
    StartRests();
    RunKeeps(Start, calls);
    var s := Run(Start, calls);
    Unsettle(s);
    var d := s.delivered[i];
    CountDistinct(s.delivered, s.nextId, i);
    if d.manual {
      CountZeroOf(s.returned, false, d);
      CountZeroOf(s.dropped, false, d);
    } else {
      CountZeroOf(s.rejected, true, d);
    }
    hide Run, Count, Waiting, AtRest, Increasing, AllManual;
  }

  /** In every run, every assertion holds, and the deliveries handed over are in delivery order. */
  lemma HandedInOrder(calls: seq<Call>)
    ensures var s := Run(Start, calls);
            s.sound && forall i, j :: 0 <= i < j < |s.handed| ==> s.handed[i].id < s.handed[j].id
  {
    StartRests();
    RunKeeps(Start, calls);
    var s := Run(Start, calls);
    Unsettle(s);
    hide Run, AtRest, Waiting;
    var all := s.handed + Waiting(s.pending);
    assert forall i :: 0 <= i < |s.handed| ==> all[i] == s.handed[i];
  }

  /** In every run, `basic_cancel` leaves nothing of the consumer behind, even if a broker cancel races it. */
  lemma NothingPendingAfterCancel(calls: seq<Call>, tag: nat, before: seq<Frame>, after: seq<Frame>)
    ensures Gone(BasicCancel(Run(Start, calls), tag, before, after), tag)
  {
    StartRests();
    RunKeeps(Start, calls);
    hide Run, Settled;
    CancelKeeps(Run(Start, calls), tag, before, after);
  }

  // ---------- Cancelling an automatic consumer ----------

  /** Whether a delivery for a served consumer arrives before the broker stops serving it. */
  predicate Loses(frames: seq<Frame>, tag: nat, served: bool)
    decreases frames
  {
    if !served || frames == [] || frames[0] == BrokerCancel(tag) || frames[0] == CancelOk(tag) then false
    else frames[0] == Deliver(tag) || Loses(frames[1..], tag, served)
  }

  /** An automatic consumer is being cancelled, and no other. */
  ghost predicate Draining(s: State, tag: nat) {
    Good(s) && tag in s.infos && s.infos[tag] == Info(true, TearingDown) && s.cancelled <= {tag}
  }

  lemma {:induction false} MessagesAppend(pending: seq<Pending>, e: Pending, tag: nat)
    ensures Messages(pending + [e], tag)
            == Messages(pending, tag) + if e.Delivered? && e.d.tag == tag then [e.d] else []
  {
    if pending == [] {
      assert [e][1..] == [];
    } else {
      MessagesAppend(pending[1..], e, tag);
      assert (pending + [e])[1..] == pending[1..] + [e];
    }
  }

  lemma DrainReceive(s: State, f: Frame, tag: nat)
    requires Draining(s, tag)
    ensures var d := Receive(s, f);
            Draining(d, tag) && Messages(d.pending, tag) == Messages(s.pending, tag) && d.returned == s.returned
            && d.dropped == (if f == Deliver(tag) && tag in s.serving
                             then s.dropped + [Delivery(tag, s.nextId, false)] else s.dropped)
            && (tag in d.serving <==> tag in s.serving && f != BrokerCancel(tag) && f != CancelOk(tag))
  {
    ReceiveKeeps(s, f);
    assert TagOk(s, tag) && TagOk(s, f.tag);
    MessagesAppend(s.pending, Delivered(Delivery(f.tag, s.nextId, f.tag !in s.noAck)), tag);
    MessagesAppend(s.pending, Cancelled(f.tag), tag);
    hide Good, Messages;
  }

  lemma {:induction false} DrainAll(s: State, frames: seq<Frame>, tag: nat)
    requires Draining(s, tag)
    ensures var d := ReceiveAll(s, frames);
            Messages(d.pending, tag) == Messages(s.pending, tag) && d.returned == s.returned
              && |d.dropped| >= |s.dropped|
            && (d.dropped == s.dropped <==> !Loses(frames, tag, tag in s.serving))
    decreases frames
  {
    hide Draining, Receive, Messages;
    if frames != [] {
      DrainReceive(s, frames[0], tag);
      DrainAll(Receive(s, frames[0]), frames[1..], tag);
      if frames[0] == BrokerCancel(tag) || frames[0] == CancelOk(tag) {
        NotServedNotLost(frames[1..], tag);
      }
    }
  }

  lemma NotServedNotLost(frames: seq<Frame>, tag: nat)
    ensures !Loses(frames, tag, false)
  {
  }

  lemma {:induction false} LosesBeforeAnswer(before: seq<Frame>, after: seq<Frame>, tag: nat, served: bool)
    ensures Loses(before + [CancelOk(tag)] + after, tag, served) == Loses(before, tag, served)
    decreases before
  {
    var frames := before + [CancelOk(tag)] + after;
    if before != [] && served {
      LosesBeforeAnswer(before[1..], after, tag, served);
      assert frames[1..] == before[1..] + [CancelOk(tag)] + after;
    }
  }

  /**
    Cancelling an automatic consumer returns what was pending at the call; deliveries that arrive before
    the broker confirms are dropped, though the documentation of `basic_cancel` promises to return them.
    Nothing is lost if and only if none arrives while the broker still serves the consumer.
   */
  lemma AutomaticCancelReturns(s: State, tag: nat, before: seq<Frame>, after: seq<Frame>)
    requires Settled(s) && tag in s.infos && s.infos[tag].autoAck
    ensures var d := BasicCancel(s, tag, before, after);
            d.returned == s.returned + Messages(s.pending, tag)
            && (d.dropped == s.dropped <==> !Loses(before, tag, tag in s.serving))
  {
    NoneCancelled(s);
    StartCancellingKeeps(s, tag);
    var started := StartCancelling(s, tag);
    assert Draining(started, tag);
    hide Good, ReceiveAll, Messages, Without, Loses;
    DrainAll(started, before + [CancelOk(tag)] + after, tag);
    LosesBeforeAnswer(before, after, tag, tag in s.serving);
  }

  lemma NoneCancelled(s: State)
    requires Settled(s)
    ensures s.cancelled == {}
  {
    forall tag: nat ensures tag !in s.cancelled {
      assert TagOk(s, tag);
    }
  }

  /** A run in which a delivery to an automatic consumer is lost by cancelling it. */
  lemma AutomaticCancelLoses()
    ensures var s := BasicCancel(BasicConsume(Start, 0, true, [], []), 0, [Deliver(0)], []);
            s.delivered == [Delivery(0, 0, false)] && s.handed == [] && s.pending == [] && s.returned == []
  {
    assert [] + [ConsumeOk(0)] + [] == [ConsumeOk(0)];
    var started := StartConsuming(Start, 0, true);
    assert ReceiveAll(started, [ConsumeOk(0)]) == ReceiveAll(Receive(started, ConsumeOk(0)), []);
    var consuming := BasicConsume(Start, 0, true, [], []);
    var cancelling := StartCancelling(consuming, 0);
    assert [Deliver(0)] + [CancelOk(0)] + [] == [Deliver(0), CancelOk(0)];
    var once := Receive(cancelling, Deliver(0));
    assert [Deliver(0), CancelOk(0)][1..] == [CancelOk(0)];
    assert ReceiveAll(cancelling, [Deliver(0), CancelOk(0)]) == ReceiveAll(once, [CancelOk(0)]);
    assert ReceiveAll(once, [CancelOk(0)]) == ReceiveAll(Receive(once, CancelOk(0)), []);
  }
}
