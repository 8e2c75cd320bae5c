/**
  The blocking channel as an object updated in place (blocking_connection.py), together with the consumer
  sets of the channel below it (channel.py). Each method is proved to change the fields exactly as the
  function of the same name in `Deliveries` says. `dispatchDepth` is the guard of the connection's event
  dispatcher; the broker's side is represented by what it serves and what it has still to answer.
 */
module BlockingChannelObject {
  import opened Bytes
  import D = Deliveries

  class BlockingChannel {
    /** The underlying channel's sets. */
    var consumers: set<nat>
    var consumersWithNoAck: set<nat>
    var cancelled: set<nat>
    /** The blocking channel's own fields, and the connection's request for a dispatch and its guard. */
    var consumerInfos: map<nat, D.Info>
    var pendingEvents: seq<D.Pending>
    var dispatchRequested: bool
    var dispatchDepth: nat
    /** The broker. */
    var serving: set<nat>
    var consumeRequests: set<nat>
    var cancelRequests: set<nat>
    var nextId: nat
    ghost var delivered: seq<D.Delivery>
    ghost var handed: seq<D.Delivery>
    ghost var rejected: seq<D.Delivery>
    ghost var returned: seq<D.Delivery>
    ghost var dropped: seq<D.Delivery>
    ghost var sound: bool

    ghost function View(): D.State
      reads this
    {
      D.State(consumers, consumersWithNoAck, cancelled, consumerInfos, pendingEvents, dispatchRequested,
              serving, consumeRequests, cancelRequests, nextId, delivered, handed, rejected, returned, dropped, sound)
    }

    constructor ()
      ensures View() == D.Start && dispatchDepth == 0
    {
      consumers, consumersWithNoAck, cancelled, consumerInfos, pendingEvents := {}, {}, {}, map[], [];
      dispatchRequested, dispatchDepth, serving, consumeRequests, cancelRequests, nextId := false, 0, {}, {}, {}, 0;
      delivered, handed, rejected, returned, dropped, sound := [], [], [], [], [], true;
    }

    method AddPendingEvent(e: D.Pending)
      modifies this
      ensures View() == D.AddPendingEvent(old(View()), e) && dispatchDepth == old(dispatchDepth)
    {
      pendingEvents := pendingEvents + [e];
      dispatchRequested := true;
    }

    method OnDeliver(tag: nat)
      modifies this
      ensures View() == D.OnDeliver(old(View()), tag) && dispatchDepth == old(dispatchDepth)
    {
      var d := D.Delivery(tag, nextId, tag !in consumersWithNoAck);
      nextId := nextId + 1;
      delivered := delivered + [d];
      if tag in cancelled {
        if tag !in consumersWithNoAck {
          rejected := rejected + [d];
        } else {
          dropped := dropped + [d];
        }
      } else if tag !in consumers || tag !in consumerInfos {
        sound := false;
      } else {
        AddPendingEvent(D.Delivered(d));
      }
    }

    method CleanupConsumerRef(tag: nat)
      modifies this
      ensures View() == D.Forget(old(View()), tag) && dispatchDepth == old(dispatchDepth)
    {
      consumersWithNoAck := consumersWithNoAck - {tag};
      consumers := consumers - {tag};
      cancelled := cancelled - {tag};
    }

    method OnConsumerCancelledByBroker(tag: nat)
      modifies this
      ensures View() == D.OnBrokerCancel(old(View()), tag) && dispatchDepth == old(dispatchDepth)
    {
      if tag !in cancelled {
        CleanupConsumerRef(tag);
      }
      if tag !in consumerInfos {
        sound := false;
        return;
      }
      if consumerInfos[tag].phase != D.TearingDown {
        consumerInfos := consumerInfos[tag := consumerInfos[tag].(phase := D.CancelledByBroker)];
      } else {
        assert consumerInfos == consumerInfos[tag := consumerInfos[tag]];
      }
      AddPendingEvent(D.Cancelled(tag));
    }

    method Receive(f: D.Frame)
      modifies this
      ensures View() == D.Receive(old(View()), f) && dispatchDepth == old(dispatchDepth)
    {
      match f {
        case Deliver(tag) =>
          if tag in serving {
            OnDeliver(tag);
          }
        case BrokerCancel(tag) =>
          if tag in serving {
            serving := serving - {tag};
            OnConsumerCancelledByBroker(tag);
          }
        case CancelOk(tag) =>
          if tag in cancelRequests {
            serving, cancelRequests := serving - {tag}, cancelRequests - {tag};
            CleanupConsumerRef(tag);
          }
        case ConsumeOk(tag) =>
          if tag in consumeRequests {
            serving, consumeRequests := serving + {tag}, consumeRequests - {tag};
          }
      }
    }

    /** Processes input while a call waits. */
    method FlushOutput(frames: seq<D.Frame>)
      modifies this
      ensures View() == D.ReceiveAll(old(View()), frames) && dispatchDepth == old(dispatchDepth)
    {
      hide D.Receive;
      ghost var before := View();
      var i := 0;
      while i < |frames|
        invariant 0 <= i <= |frames| && dispatchDepth == old(dispatchDepth)
        invariant D.ReceiveAll(before, frames) == D.ReceiveAll(View(), frames[i..])
      {
        assert frames[i..][1..] == frames[i + 1..];
        Receive(frames[i]);
        i := i + 1;
      }
    }

    /** Takes the deliveries of a consumer out of the queue, and discards its cancellation. */
    method RemovePendingDeliveries(tag: nat) returns (messages: seq<D.Delivery>)
      modifies this`pendingEvents
      ensures messages == D.Messages(old(pendingEvents), tag) && pendingEvents == D.Without(old(pendingEvents), tag)
    {
      var remaining: seq<D.Pending> := [];
      messages := [];
      while pendingEvents != []
        invariant D.Without(old(pendingEvents), tag) == remaining + D.Without(pendingEvents, tag)
        invariant D.Messages(old(pendingEvents), tag) == messages + D.Messages(pendingEvents, tag)
        decreases |pendingEvents|
      {
        var e, rest := pendingEvents[0], pendingEvents[1..];
        pendingEvents := rest;
        if e.Delivered? && e.d.tag == tag {
          ConcatAssociative(messages, [e.d], D.Messages(rest, tag));
          messages := messages + [e.d];
        } else if !(e.Cancelled? && e.tag == tag) {
          ConcatAssociative(remaining, [e], D.Without(rest, tag));
          remaining := remaining + [e];
        }
      }
      pendingEvents := remaining;
    }

    method BeginConsume(tag: nat, autoAck: bool)
      modifies this
      ensures View() == D.StartConsuming(old(View()), tag, autoAck) && dispatchDepth == old(dispatchDepth)
    {
      consumerInfos := consumerInfos[tag := D.Info(autoAck, D.SettingUp)];
      if autoAck {
        consumersWithNoAck := consumersWithNoAck + {tag};
      }
      consumers := consumers + {tag};
      consumeRequests := consumeRequests + {tag};
    }

    method EndConsume(tag: nat)
      modifies this`consumerInfos, this`sound
      ensures View() == D.Activate(old(View()), tag)
    {
      if tag !in consumerInfos {
        sound := false;
      } else if consumerInfos[tag].phase == D.SettingUp {
        consumerInfos := consumerInfos[tag := consumerInfos[tag].(phase := D.Active)];
      }
    }

    method BasicConsume(tag: nat, autoAck: bool, before: seq<D.Frame>, after: seq<D.Frame>)
      modifies this
      ensures View() == D.BasicConsume(old(View()), tag, autoAck, before, after) && dispatchDepth == old(dispatchDepth)
    {
      hide D.ReceiveAll, D.StartConsuming, D.Activate;
      if tag in consumerInfos || tag in consumers || tag in cancelled {
        return;
      }
      BeginConsume(tag, autoAck);
      FlushOutput(before + [D.ConsumeOk(tag)] + after);
      EndConsume(tag);
    }

    method TearDown(tag: nat)
      requires tag in consumerInfos
      modifies this`consumerInfos, this`sound
      ensures View() == D.TearDown(old(View()), tag)
    {
      var info := consumerInfos[tag];
      sound := sound && (info.phase == D.Active || info.phase == D.CancelledByBroker);
      sound := sound && (info.phase == D.CancelledByBroker || tag in consumers);
      consumerInfos := consumerInfos[tag := info.(phase := D.TearingDown)];
    }

    method RejectPending(tag: nat)
      modifies this`pendingEvents, this`rejected
      ensures View() == D.RejectPending(old(View()), tag)
    {
      var messages := RemovePendingDeliveries(tag);
      rejected := rejected + messages;
    }

    /** The underlying channel's `basic_cancel`. */
    method RequestCancel(tag: nat)
      modifies this`cancelled, this`cancelRequests
      ensures View() == D.RequestCancel(old(View()), tag)
    {
      if tag !in cancelled && tag in consumers {
        cancelled := cancelled + {tag};
        cancelRequests := cancelRequests + {tag};
      }
    }

    /** The part of `basic_cancel` before it waits. */
    method BeginCancel(tag: nat)
      requires tag in consumerInfos
      modifies this`consumerInfos, this`sound, this`pendingEvents, this`rejected, this`cancelled, this`cancelRequests
      ensures View() == D.StartCancelling(old(View()), tag)
    {
      var autoAck := consumerInfos[tag].autoAck;
      hide D.TearDown, D.RejectPending, D.RequestCancel;
      TearDown(tag);
      if !autoAck {
        RejectPending(tag);
      }
      RequestCancel(tag);
    }

    /** The part of `basic_cancel` after it has waited. */
    method EndCancel(tag: nat, autoAck: bool) returns (messages: seq<D.Delivery>)
      modifies this`pendingEvents, this`consumerInfos, this`returned, this`sound
      ensures View() == D.FinishCancelling(old(View()), tag, autoAck)
      ensures messages == if autoAck then D.Messages(old(pendingEvents), tag) else []
    {
      hide D.Messages, D.Without;
      var left := RemovePendingDeliveries(tag);
      messages := [];
      if autoAck {
        messages := left;
        returned := returned + left;
      } else {
        sound := sound && left == [];
      }
      consumerInfos := consumerInfos - {tag};
    }

    method BasicCancel(tag: nat, before: seq<D.Frame>, after: seq<D.Frame>) returns (messages: seq<D.Delivery>)
      modifies this
      ensures View() == D.BasicCancel(old(View()), tag, before, after) && dispatchDepth == old(dispatchDepth)
      ensures returned == old(returned) + messages
    {
      messages := [];
      if tag !in consumerInfos {
        return;
      }
      hide D.ReceiveAll, D.StartCancelling, D.Messages, D.Without;
      var autoAck := consumerInfos[tag].autoAck;
      KeepsReturned(View(), tag);
      BeginCancel(tag);
      KeepsReturnedAll(View(), before + [D.CancelOk(tag)] + after);
      FlushOutput(before + [D.CancelOk(tag)] + after);
      messages := EndCancel(tag, autoAck);
    }

    /** A call made inside a callback; the dispatcher is owned by a caller higher up, so nothing is dispatched. */
    method PerformNested(call: D.Call)
      requires dispatchDepth > 0
      modifies this
      ensures View() == D.Nested(old(View()), call) && dispatchDepth == old(dispatchDepth)
    {
      hide D.ReceiveAll, D.BasicConsume, D.BasicCancel;
      match call {
        case Consume(tag, autoAck, before, after) => BasicConsume(tag, autoAck, before, after);
        case Cancel(tag, before, after) => var _ := BasicCancel(tag, before, after);
        case Process(frames, _) =>
          dispatchDepth := dispatchDepth + 1;
          FlushOutput(frames);
          dispatchDepth := dispatchDepth - 1;
          if dispatchRequested {
            dispatchDepth := dispatchDepth + 1;
            assert dispatchDepth != 1;
            dispatchDepth := dispatchDepth - 1;
          }
      }
    }

    /** A user's callback runs. */
    method RunCallback(calls: seq<D.Call>)
      requires dispatchDepth > 0
      modifies this
      ensures View() == D.NestedAll(old(View()), calls) && dispatchDepth == old(dispatchDepth)
    {
      hide D.Nested;
      ghost var before := View();
      var i := 0;
      while i < |calls|
        invariant 0 <= i <= |calls| && dispatchDepth == old(dispatchDepth)
        invariant D.NestedAll(before, calls) == D.NestedAll(View(), calls[i..])
      {
        assert calls[i..][1..] == calls[i + 1..];
        PerformNested(calls[i]);
        i := i + 1;
      }
    }

    method HandOver()
      requires pendingEvents != []
      modifies this
      ensures View() == D.Hand(old(View())) && dispatchDepth == old(dispatchDepth)
      ensures pendingEvents == old(pendingEvents)[1..]
    {
      var e := pendingEvents[0];
      pendingEvents := pendingEvents[1..];
      if D.TagOf(e) !in consumerInfos {
        sound := false;
        return;
      }
      match e {
        case Delivered(d) => handed := handed + [d];
        case Cancelled(tag) => consumerInfos := consumerInfos - {tag};
      }
    }

    /** `_dispatch_events`; `script` says what the callbacks do. */
    method DispatchEvents(script: seq<seq<D.Call>>)
      requires dispatchDepth > 0
      modifies this
      ensures View() == D.DispatchEvents(old(View()), script) && dispatchDepth == old(dispatchDepth)
    {
      hide D.Hand, D.NestedAll;
      ghost var before := View();
      var i := 0;
      while pendingEvents != []
        invariant 0 <= i <= |script| && dispatchDepth == old(dispatchDepth)
        invariant D.DispatchEvents(before, script) == D.DispatchEvents(View(), script[i..])
        decreases |script| - i, |pendingEvents|
      {
        HandOver();
        if i < |script| {
          assert script[i..][1..] == script[i + 1..];
          RunCallback(script[i]);
          i := i + 1;
        }
      }
    }

    /** `_dispatch_channel_events`, called by no callback. */
    method DispatchChannelEvents(script: seq<seq<D.Call>>)
      requires dispatchDepth == 0
      modifies this
      ensures View() == (if old(dispatchRequested) then D.DispatchEvents(old(View()).(requested := false), script)
                         else old(View()))
      ensures dispatchDepth == 0
    {
      hide D.DispatchEvents;
      if !dispatchRequested {
        return;
      }
      dispatchDepth := dispatchDepth + 1;
      if dispatchDepth == 1 {
        dispatchRequested := false;
        DispatchEvents(script);
      }
      dispatchDepth := dispatchDepth - 1;
    }

    /** `process_data_events` from outside callbacks. */
    method ProcessDataEvents(frames: seq<D.Frame>, script: seq<seq<D.Call>>)
      requires dispatchDepth == 0
      modifies this
      ensures View() == D.Step(old(View()), D.Process(frames, script)) && dispatchDepth == 0
    {
      hide D.ReceiveAll, D.DispatchEvents;
      dispatchDepth := dispatchDepth + 1;
      FlushOutput(frames);
      dispatchDepth := dispatchDepth - 1;
      DispatchChannelEvents(script);
    }
  }

  lemma KeepsReturned(s: D.State, tag: nat)
    requires tag in s.infos
    ensures D.StartCancelling(s, tag).returned == s.returned
  {
  }

  lemma {:induction false} KeepsReturnedAll(s: D.State, frames: seq<D.Frame>)
    ensures D.ReceiveAll(s, frames).returned == s.returned
    decreases frames
  {
    if frames != [] {
      KeepsReturnedAll(D.Receive(s, frames[0]), frames[1..]);
    }
  }
}
