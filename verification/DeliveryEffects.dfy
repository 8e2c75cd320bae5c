/** What each frame and call does to a blocking channel. */
module DeliveryEffects {
  import opened Bytes
  import opened Deliveries
  import opened DeliveryRuns

  // ---------- Frames ----------

  /** Where a delivery goes: to the queue, unless its consumer is being cancelled. */
  lemma DeliveryGoes(s: State, tag: nat)
    requires Good(s) && tag in s.serving
    ensures var m, d := Delivery(tag, s.nextId, tag !in s.infos || !s.infos[tag].autoAck), Receive(s, Deliver(tag));
            tag in s.infos && d.delivered == s.delivered + [m] && d.nextId == s.nextId + 1 && d.infos == s.infos
            && d.handed == s.handed && d.returned == s.returned
            && if s.infos[tag].phase != TearingDown then
                 d.pending == s.pending + [Delivered(m)] && d.requested
                 && d.rejected == s.rejected && d.dropped == s.dropped
               else if s.infos[tag].autoAck then
                 d.dropped == s.dropped + [m] && d.pending == s.pending && d.rejected == s.rejected
               else
                 d.rejected == s.rejected + [m] && d.pending == s.pending && d.dropped == s.dropped
  {
    assert TagOk(s, tag);
    hide QueueOk, Ledger;
  }

  /**
    A cancellation by the broker is queued for the user; the channel forgets a consumer that is not being
    cancelled.
   */
  lemma CancellationGoes(s: State, tag: nat)
    requires Good(s) && tag in s.serving
    ensures var d := Receive(s, BrokerCancel(tag));
            d.pending == s.pending + [Cancelled(tag)] && d.requested && d.serving == s.serving - {tag}
            && d.infos.Keys == s.infos.Keys && tag in s.infos && d.delivered == s.delivered
            && (forall t :: t in s.infos && t != tag ==> d.infos[t] == s.infos[t])
            && if s.infos[tag].phase == TearingDown then
                 d.infos[tag] == s.infos[tag] && d.consumers == s.consumers && d.cancelled == s.cancelled
               else
                 d.infos[tag] == Info(s.infos[tag].autoAck, CancelledByBroker)
                 && d.consumers == s.consumers - {tag} && d.noAck == s.noAck - {tag} && d.cancelled == s.cancelled
  {
    assert TagOk(s, tag);
    hide QueueOk, Ledger;
  }

  /** The broker's answers. */
  lemma AnswersTaken(s: State, tag: nat)
    ensures tag in s.consumeRequests ==>
              Receive(s, ConsumeOk(tag))
              == s.(serving := s.serving + {tag}, consumeRequests := s.consumeRequests - {tag})
    ensures tag in s.cancelRequests ==>
              var d := Receive(s, CancelOk(tag));
              d == s.(serving := s.serving - {tag}, cancelRequests := s.cancelRequests - {tag},
                      consumers := s.consumers - {tag}, noAck := s.noAck - {tag}, cancelled := s.cancelled - {tag})
  {
  }

  // ---------- Calls ----------

  /** `basic_consume` is waiting for the broker, which has not cancelled the consumer. */
  ghost predicate Waits(s: State, tag: nat, autoAck: bool, served: bool) {
    Good(s) && tag in s.infos && s.infos[tag] == Info(autoAck, SettingUp) && tag in s.consumers
    && (if served then tag in s.serving else tag in s.consumeRequests)
  }

  lemma WaitsOn(s: State, tag: nat, autoAck: bool, served: bool, f: Frame)
    requires Waits(s, tag, autoAck, served) && f != BrokerCancel(tag)
    ensures Waits(Receive(s, f), tag, autoAck, served || f == ConsumeOk(tag))
  {
    ReceiveKeeps(s, f);
    assert TagOk(s, tag) && TagOk(s, f.tag);
    hide Good;
  }

  lemma {:induction false} WaitsThrough(s: State, tag: nat, autoAck: bool, served: bool, frames: seq<Frame>)
    requires Waits(s, tag, autoAck, served) && BrokerCancel(tag) !in frames
    ensures Waits(ReceiveAll(s, frames), tag, autoAck, served || ConsumeOk(tag) in frames)
    decreases frames
  {
    hide Waits, Receive;
    if frames != [] {
      assert frames == [frames[0]] + frames[1..];
      WaitsOn(s, tag, autoAck, served, frames[0]);
      WaitsThrough(Receive(s, frames[0]), tag, autoAck, served || frames[0] == ConsumeOk(tag), frames[1..]);
    }
  }

  /** A new consumer is active, and the broker serves it, unless the broker cancels it meanwhile. */
  lemma ConsumerBecomesActive(s: State, tag: nat, autoAck: bool, before: seq<Frame>, after: seq<Frame>)
    requires Settled(s) && tag !in s.infos && BrokerCancel(tag) !in before && BrokerCancel(tag) !in after
    ensures var d := BasicConsume(s, tag, autoAck, before, after);
            tag in d.infos && d.infos[tag] == Info(autoAck, Active) && tag in d.consumers && tag in d.serving
            && (tag in d.noAck <==> autoAck)
  {
    assert TagOk(s, tag);
    ConsumeKeeps(s, tag, autoAck, before, after);
    var started, frames := StartConsuming(s, tag, autoAck), before + [ConsumeOk(tag)] + after;
    StartWaits(s, tag, autoAck);
    hide Good, ReceiveAll, StartConsuming;
    WaitsThrough(started, tag, autoAck, false, frames);
    var d := BasicConsume(s, tag, autoAck, before, after);
    ActiveTag(d, tag);
  }

  lemma StartWaits(s: State, tag: nat, autoAck: bool)
    requires Settled(s) && tag !in s.infos
    ensures tag !in s.consumers && tag !in s.cancelled && Waits(StartConsuming(s, tag, autoAck), tag, autoAck, false)
  {
    assert TagOk(s, tag);
    StartConsumingKeeps(s, tag, autoAck);
    hide Good;
  }

  lemma ActiveTag(d: State, tag: nat)
    requires Good(d) && tag in d.consumers
    ensures tag in d.infos && (tag in d.noAck <==> d.infos[tag].autoAck)
  {
    assert TagOk(d, tag);
    hide QueueOk, Ledger;
  }

  /** Cancelling rejects the pending deliveries of a manual consumer, and no others. */
  lemma CancelRejects(s: State, tag: nat)
    requires Settled(s) && tag in s.infos && !s.infos[tag].autoAck
    ensures var d := StartCancelling(s, tag);
            d.rejected == s.rejected + Messages(s.pending, tag) && d.pending == Without(s.pending, tag)
            && d.handed == s.handed && d.returned == s.returned && d.dropped == s.dropped
            && (tag in d.cancelRequests <==> tag in s.consumers)
  {
    assert TagOk(s, tag);
    hide QueueOk, Ledger;
  }

  // ---------- Dispatch ----------

  /** The consumers whose cancellation is pending. */
  function CancelledIn(pending: seq<Pending>): set<nat> {
    set e | e in pending && e.Cancelled? :: e.tag
  }

  lemma CancelledTail(pending: seq<Pending>)
    requires pending != []
    ensures CancelledIn(pending)
            == CancelledIn(pending[1..]) + if pending[0].Cancelled? then {pending[0].tag} else {}
  {
    assert pending == [pending[0]] + pending[1..];
    var all, rest := CancelledIn(pending), CancelledIn(pending[1..]);
    forall tag ensures tag in all <==> tag in rest || pending[0] == Cancelled(tag) {
      assert tag in all <==> Cancelled(tag) in pending;
      assert tag in rest <==> Cancelled(tag) in pending[1..];
    }
  }

  /**
    When the callbacks do nothing, dispatch hands over every delivery that waits, in order, and forgets the
    consumers that the broker has cancelled.
   */
  lemma {:induction false} DispatchHands(s: State)
    requires Settled(s)
    ensures var d := DispatchEvents(s, []);
            d.handed == s.handed + Waiting(s.pending) && d.pending == []
            && d.infos == s.infos - CancelledIn(s.pending)
            && d.rejected == s.rejected && d.returned == s.returned && d.dropped == s.dropped
    decreases |s.pending|
  {
    if s.pending == [] {
      assert s.handed + [] == s.handed;
      assert CancelledIn([]) == {};
      assert s.infos - {} == s.infos;
    } else {
      HandKeeps(s);
      HandSets(s);
      HandQueue(s) by { Unsettle(s); }
      CancelledTail(s.pending);
      hide Settled;
      DispatchHands(Hand(s));
      var e := s.pending[0];
      if e.Delivered? {
        ConcatAssociative(s.handed, [e.d], Waiting(s.pending[1..]));
        assert CancelledIn(s.pending) == CancelledIn(s.pending[1..]);
      } else {
        assert s.infos - {e.tag} - CancelledIn(s.pending[1..]) == s.infos - CancelledIn(s.pending);
      }
    }
  }

  /** A delivery to an active consumer is handed over by the next `process_data_events`. */
  lemma DeliveryHanded(s: State, tag: nat)
    requires AtRest(s) && s.pending == [] && tag in s.serving
    ensures var d := Step(s, Process([Deliver(tag)], []));
            tag in s.infos && d.handed == s.handed + [Delivery(tag, s.nextId, !s.infos[tag].autoAck)]
            && d.infos == s.infos
  {
    OneFrame(s, Deliver(tag));
    DeliveryGoes(s, tag);
    ServedIsActive(s, tag);
    var m := Delivery(tag, s.nextId, !s.infos[tag].autoAck);
    var t := Receive(s, Deliver(tag));
    FramesSettle(s, [Deliver(tag)]);
    SameButRequested(t, t.(requested := false));
    hide Settled, Receive, ReceiveAll, DispatchEvents;
    DispatchHands(t.(requested := false));
    assert [] + [Delivered(m)] == [Delivered(m)] && [Delivered(m)][1..] == [];
    assert Waiting([Delivered(m)]) == [m] + [] == [m];
    assert CancelledIn([Delivered(m)]) == {};
    assert s.infos - {} == s.infos;
  }

  /** A consumer that the broker cancels is gone after the next `process_data_events`. */
  lemma CancellationHanded(s: State, tag: nat)
    requires AtRest(s) && s.pending == [] && tag in s.serving
    ensures var d := Step(s, Process([BrokerCancel(tag)], []));
            d.infos.Keys == s.infos.Keys - {tag} && tag !in d.consumers && d.handed == s.handed
  {
    OneFrame(s, BrokerCancel(tag));
    CancellationGoes(s, tag);
    ServedIsActive(s, tag);
    var t := Receive(s, BrokerCancel(tag));
    FramesSettle(s, [BrokerCancel(tag)]);
    SameButRequested(t, t.(requested := false));
    hide Settled, Receive, ReceiveAll, DispatchEvents;
    DispatchHands(t.(requested := false));
    StepKeeps(s, Process([BrokerCancel(tag)], []));
    assert [] + [Cancelled(tag)] == [Cancelled(tag)] && [Cancelled(tag)][1..] == [];
    assert Waiting([Cancelled(tag)]) == [] && s.handed + [] == s.handed;
    assert CancelledIn([Cancelled(tag)]) == {tag} by { CancelledTail([Cancelled(tag)]); }
    NotConsuming(Step(s, Process([BrokerCancel(tag)], [])), tag);
  }

  lemma NotConsuming(s: State, tag: nat)
    requires AtRest(s) && tag !in s.infos
    ensures tag !in s.consumers
  {
    assert TagOk(s, tag);
    hide QueueOk, Ledger;
  }

  lemma OneFrame(s: State, f: Frame)
    ensures ReceiveAll(s, [f]) == Receive(s, f)
  {
    assert [f][1..] == [];
    assert ReceiveAll(Receive(s, f), []) == Receive(s, f);
  }

  lemma ServedIsActive(s: State, tag: nat)
    requires AtRest(s) && tag in s.serving
    ensures Good(s) && Settled(s) && tag in s.infos && s.infos[tag].phase == Active
  {
    assert TagOk(s, tag);
    hide QueueOk, Ledger;
  }

  /** A call made inside a callback is carried out: a consumer cancelled by its own callback is gone afterwards. */
  lemma CancelInsideCallback(s: State, tag: nat)
    requires AtRest(s) && s.pending == [] && tag in s.serving
    ensures var d := Step(s, Process([Deliver(tag)], [[Cancel(tag, [], [])]]));
            Gone(d, tag) && d.handed == s.handed + [Delivery(tag, s.nextId, tag !in s.noAck)]
  {
    OneFrame(s, Deliver(tag));
    DeliveryGoes(s, tag);
    ServedIsActive(s, tag);
    var t := Receive(s, Deliver(tag)).(requested := false);
    FramesSettle(s, [Deliver(tag)]);
    SameButRequested(Receive(s, Deliver(tag)), t);
    ServedTag(s, tag);
    var m := Delivery(tag, s.nextId, tag !in s.noAck);
    assert [] + [Delivered(m)] == [Delivered(m)] && [Delivered(m)][1..] == [];
    hide Settled, Receive, ReceiveAll, BasicCancel;
    HandKeeps(t);
    CancelKeeps(Hand(t), tag, [], []);
    OneCall(Hand(t), Cancel(tag, [], []));
    DispatchOne(t, [Cancel(tag, [], [])]);
    var d := BasicCancel(Hand(t), tag, [], []);
    QueueEmptied(Hand(t), tag);
    NothingToDispatch(d);
  }

  lemma DispatchOne(s: State, calls: seq<Call>)
    requires s.pending != []
    ensures DispatchEvents(s, [calls]) == DispatchEvents(NestedAll(Hand(s), calls), [])
  {
    hide NestedAll, Hand;
    assert [calls][1..] == [];
  }

  lemma ServedTag(s: State, tag: nat)
    requires AtRest(s) && tag in s.serving
    ensures tag in s.infos && (tag in s.noAck <==> s.infos[tag].autoAck)
  {
    assert TagOk(s, tag);
    hide QueueOk, Ledger;
  }

  lemma OneCall(s: State, call: Call)
    ensures NestedAll(s, [call]) == Nested(s, call)
  {
    hide Nested;
    assert [call][1..] == [];
    assert NestedAll(Nested(s, call), []) == Nested(s, call);
  }

  lemma NothingToDispatch(s: State)
    ensures s.pending == [] ==> DispatchEvents(s, []) == s
  {
  }

  /** Cancelling with an empty queue, and no frame but the answer, leaves it empty. */
  lemma QueueEmptied(s: State, tag: nat)
    requires Settled(s) && s.pending == []
    ensures var d := BasicCancel(s, tag, [], []); d.pending == [] && d.handed == s.handed
  {
    hide Settled;
    if tag in s.infos {
      var started := StartCancelling(s, tag);
      assert [] + [CancelOk(tag)] + [] == [CancelOk(tag)];
      OneFrame(started, CancelOk(tag));
    }
  }
}
