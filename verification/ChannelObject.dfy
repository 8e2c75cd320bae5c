/**
  The channel object (channel.py): each method updates the fields as the source does and is proved to have
  exactly the effect of the function of the same name in `ChannelModel`, so that what is proved of every run
  there holds of the object. The channel's own slice of the callback registry is a field; callbacks that have
  been selected and not yet called are in `todo`, in the order in which they will be called.
 */
module ChannelObject {
  import opened Bytes
  import opened Callbacks
  import M = ChannelModel
  import opened ChannelTheorems
  import R = ChannelRuns
  import C = ChannelCalls

  class Channel {
    var state: M.State
    var blocking: Option<M.Call>
    var blocked: seq<M.Request>
    var consumers: seq<string>
    var noAck: set<string>
    var cancelled: set<string>
    var closingReason: Option<M.Reason>
    var callbacks: M.Registry
    var sent: seq<M.Call>
    var closeOksSent: nat
    var todo: seq<M.Task>
    var registered: bool
    ghost var failed: bool
    ghost var issued: seq<M.Call>
    ghost var dropped: seq<M.Call>
    ghost var pending: Option<M.Request>
    ghost var closers: seq<nat>
    ghost var closeRuns: seq<Callback>
    ghost var transitions: nat

    ghost function View(): M.Channel
      reads this
    {
      M.Channel(state, blocking, blocked, consumers, noAck, cancelled, closingReason, callbacks, sent, closeOksSent,
                todo, registered, failed, issued, dropped, pending, closers, closeRuns, transitions)
    }

    /** The constructor, followed by `open`. */
    constructor ()
      ensures View() == M.Start() && Invariant(View())
    {
      R.StartInvariant();
      hide Invariant;
      state, blocking, blocked, consumers, noAck, cancelled := M.Opening, None, [], [], {}, {};
      closingReason, sent, closeOksSent, todo, registered := None, [], 0, [], true;
      callbacks := map[M.CANCEL := [Entry(OnCancel, false, None, None, 0)], M.CLOSE := [M.ARMED]];
      failed, issued, dropped, pending, closers, closeRuns, transitions := false, [], [], None, [], [], 0;
      new;
      Issue(M.OPEN_REQUEST);
    }

    method AddCallback(key: string, callback: Callback, oneShot: bool, onlyCaller: Option<nat>,
                       arguments: Option<Attributes>)
      modifies `callbacks
      ensures callbacks == M.Register(old(callbacks), key, callback, oneShot, onlyCaller, arguments)
    {
      callbacks := callbacks[key := AddTo(if key in callbacks then callbacks[key] else [], callback, oneShot,
                                          onlyCaller, arguments)];
    }

    method Rpc(r: M.Request)
      modifies this
      ensures View() == M.Rpc(old(View()), r)
    {
      hide M.Send;
      if state == M.Closed {
        failed := true;  // raises ChannelWrongStateError
      } else if blocking.Some? {
        blocked := blocked + [r];
      } else {
        Send(r);
      }
    }

    /** The part of `_rpc` that sends and, if a reply is expected, blocks and registers for it. */
    method Send(r: M.Request)
      modifies this
      ensures View() == M.Send(old(View()), r)
    {
      sent := sent + [r.call];
      if r.reply.Some? {
        Await(r);
      }
    }

    method Await(r: M.Request)
      requires r.reply.Some?
      modifies `blocking, `pending, `callbacks
      ensures blocking == Some(r.call) && pending == Some(r)
      ensures var key, arguments := r.reply.value.key, r.reply.value.arguments;
              var registry := M.Register(old(callbacks), key, Callback.OnSynchronousComplete, true, None, arguments);
              callbacks == if r.callback.Some? then M.Register(registry, key, r.callback.value, true, None, arguments)
                           else registry
    {
      hide M.Register;
      blocking := Some(r.call);
      pending := Some(r);
      AddCallback(r.reply.value.key, Callback.OnSynchronousComplete, true, None, r.reply.value.arguments);
      if r.callback.Some? {
        AddCallback(r.reply.value.key, r.callback.value, true, None, r.reply.value.arguments);
      }
    }

    /** `_rpc` as a public method calls it, after its own state check. */
    method Issue(r: M.Request)
      modifies this
      ensures View() == M.Issue(old(View()), r)
    {
      issued := issued + [r.call];
      Rpc(r);
    }

    method OnSynchronousComplete()
      modifies this
      ensures View() == M.Pump(old(View()).(blocking := None))
    {
      hide M.Rpc;
      blocking := None;
      while blocked != [] && blocking.None?
        invariant M.Pump(View()) == M.Pump(old(View()).(blocking := None))
        decreases |blocked|
      {
        var r := blocked[0];
        ghost var before := View();
        blocked := blocked[1..];
        assert View() == before.(blocked := before.blocked[1..]);
        Rpc(r);
      }
    }

    method OnOpenOk()
      modifies this
      ensures View() == M.RunCallback(old(View()), Callback.OnOpenOk, map[])
    {
      if state != M.Closing {
        state := M.Open;
      }
    }

    /** Asserts that the channel is not closed and that the reason is known. */
    method TransitionToClosed()
      modifies this
      ensures View() == M.Transition(old(View()))
    {
      hide Collect, Process, M.Tasks, M.ListOf;
      if state == M.Closed || closingReason.None? {
        failed := true;
        return;
      }
      state := M.Closed;
      var called := ProcessOnClose();
      todo := M.Tasks(called, map[]) + [M.Cleanup] + todo;
    }

    /** Selects the on-close callbacks. */
    method ProcessOnClose() returns (called: seq<Callback>)
      modifies `callbacks, `closeRuns, `transitions
      ensures var (called', left) := Process(M.ListOf(old(callbacks), M.ON_CHANNEL_CLOSE), M.CHANNEL, Some(map[]));
              called == called' && callbacks == old(callbacks)[M.ON_CHANNEL_CLOSE := left]
      ensures closeRuns == old(closeRuns) + called && transitions == old(transitions) + 1
    {
      hide Collect, Process, M.ListOf;
      var (called', left) := Process(M.ListOf(callbacks, M.ON_CHANNEL_CLOSE), M.CHANNEL, Some(map[]));
      called := called';
      callbacks := callbacks[M.ON_CHANNEL_CLOSE := left];
      closeRuns, transitions := closeRuns + called, transitions + 1;
    }

    method OnCloseMeta(reason: M.Reason)
      modifies this
      ensures View() == M.CloseMeta(old(View()), reason)
      ensures old(Invariant(View()) && todo == [] && reason == M.StreamLost) ==> Invariant(View())
    {
      hide Invariant;
      if Invariant(View()) && todo == [] && reason == M.StreamLost {
        R.LoseStreamKeeps(View());
      }
      if state != M.Closed {
        closingReason := Some(reason);
        TransitionToClosed();
      }
    }

    method DrainBlockedMethodsOnRemoteClose()
      requires closingReason.Some?
      modifies this
      ensures View() == M.Drain(old(View()))
    {
      hide M.Transition;
      while blocked != []
        invariant closingReason.Some? && M.Drain(View()) == M.Drain(old(View()))
        decreases |blocked|
      {
        ghost var before := View();
        var r := blocked[0];
        blocked := blocked[1..];
        dropped := dropped + [r.call];
        assert View() == before.(blocked := before.blocked[1..], dropped := before.dropped + [before.blocked[0].call]);
        if r.call == M.CloseCall {
          TransitionKeepsQueue(View().(reason := Some(closingReason.value)));
          OnCloseMeta(closingReason.value);
        }
      }
    }

    lemma TransitionKeepsQueue(c: M.Channel)
      ensures M.Transition(c).blocked == c.blocked && M.Transition(c).reason == c.reason
    {
    }

    method OnCloseFromBroker()
      modifies this
      ensures View() == M.CloseFromBroker(old(View()))
    {
      hide M.Drain, M.Transition;
      if state == M.Closed {
        failed := true;
        return;
      }
      closeOksSent := closeOksSent + 1;
      closingReason := Some(M.ClosedByBroker);
      if state == M.Closing {
        DrainBlockedMethodsOnRemoteClose();
      } else {
        TransitionToClosed();
      }
    }

    method CleanupConsumerRef(tag: string)
      modifies this
      ensures View() == M.ForgetConsumer(old(View()), tag)
    {
      noAck, cancelled := noAck - {tag}, cancelled - {tag};
      consumers := M.Without(consumers, tag);
    }

    method BasicCancel(tag: string, callback: Option<nat>)
      modifies this
      ensures View() == M.CancelConsumer(old(View()), tag, callback)
      ensures old(Invariant(View())) ==> Invariant(View())
    {
      hide Invariant;
      if Invariant(View()) {
        R.CancelKeeps(View(), tag, callback);
      }
      hide AddTo, M.Register, M.Issue, M.Without, M.CancelRequest;
      if state != M.Open || tag in cancelled || tag !in consumers {
        return;
      }
      ForgetOrListen(tag, callback);
      Issue(M.CancelRequest(tag, callback.Some?));
    }

    /** The consumer is marked; without a callback it is forgotten at once. */
    method ForgetOrListen(tag: string, callback: Option<nat>)
      modifies `consumers, `callbacks, `cancelled
      ensures cancelled == old(cancelled) + {tag}
      ensures consumers == if callback.None? then M.Without(old(consumers), tag) else old(consumers)
      ensures callbacks
              == if callback.Some?
                 then M.Register(old(callbacks), M.CANCEL_OK, User(callback.value), true, None, None)
                 else old(callbacks)
    {
      hide M.Register, M.Without;
      if callback.None? {
        consumers := M.Without(consumers, tag);
      } else {
        AddCallback(M.CANCEL_OK, User(callback.value), true, None, None);
      }
      cancelled := cancelled + {tag};
    }

    method BasicConsume(tag: string, autoAck: bool, callback: nat)
      modifies this
      ensures View() == M.Step(old(View()), M.BasicConsume(tag, autoAck, callback))
      ensures old(Invariant(View())) ==> Invariant(View())
      ensures old(Invariant(View()) && state == M.Open && tag !in consumers && tag !in cancelled) ==>
                consumers == old(consumers) + [tag]
                && C.Issued(old(View()), View(), M.ConsumeCall(tag), Some(User(callback)),
                            Some(M.Reply("Basic.ConsumeOk", Some(map["consumer_tag" := tag]))))
    {
      hide Invariant, C.Issued;
      if Invariant(View()) {
        R.StepKeeps(View(), M.BasicConsume(tag, autoAck, callback));
        C.ConsumeIssues(View(), tag, autoAck, callback);
      }
      if state != M.Open || tag in consumers || tag in cancelled {
        return;
      }
      if autoAck {
        noAck := noAck + {tag};
      }
      consumers := consumers + [tag];
      Issue(M.Request(M.ConsumeCall(tag), Some(User(callback)),
                      Some(M.Reply(M.CONSUME_OK, Some(map[M.CONSUMER_TAG := tag])))));
    }

    method Close()
      modifies this
      ensures View() == M.CloseByClient(old(View()))
      ensures old(Invariant(View())) ==> Invariant(View())
    {
      hide Invariant;
      if Invariant(View()) {
        R.CloseKeeps(View());
      }
      hide M.CancelConsumer;
      if state == M.Closed || state == M.Closing {
        return;
      }
      closingReason := Some(M.ClosedByClient);
      ghost var start := View();
      var tags := consumers;
      var i := 0;
      while i < |tags|
        invariant i <= |tags|
        invariant M.CancelAll(View(), tags[i..]) == M.CancelAll(start, tags)
      {
        assert tags[i..][1..] == tags[i + 1..];
        if tags[i] !in cancelled {
          BasicCancel(tags[i], None);
        }
        i := i + 1;
      }
      state := M.Closing;
      Issue(M.CLOSE_REQUEST);
    }

    /** The selection loop of `CallbackManager.process` for a method frame of this channel. */
    method OnMethodFrame(key: string, attributes: Attributes)
      requires todo == [] && key != M.ON_CHANNEL_CLOSE
      modifies this
      ensures View() == M.Select(old(View()), key, attributes)
      ensures old(Invariant(View())) ==> Invariant(View())
    {
      hide Invariant, Collect, Process, M.Tasks, M.ListOf, ArgumentsMatch;
      if Invariant(View()) {
        R.SelectKeeps(View(), key, attributes);
      }
      var (called, left) := Process(M.ListOf(callbacks, key), M.CONNECTION, Some(attributes));
      callbacks := callbacks[key := left];
      todo := M.Tasks(called, attributes);
      if pending.Some? && pending.value.reply.Some? && pending.value.reply.value.key == key
         && ArgumentsMatch(pending.value.reply.value.arguments, Some(attributes)) {
        pending := None;
      }
    }

    method CallBack(callback: Callback, attributes: Attributes)
      modifies this
      ensures View() == M.RunCallback(old(View()), callback, attributes)
    {
      hide M.Pump, M.Transition, M.CloseFromBroker, M.TagOf, M.ForgetConsumer;
      match callback {
        case User(_) =>
        case OnSynchronousComplete => OnSynchronousComplete();
        case OnOpenOk => OnOpenOk();
        case OnCloseOk => TransitionToClosed();
        case OnCancelOk => CleanupConsumerRef(M.TagOf(attributes));
        case OnCancel =>
          if M.TagOf(attributes) !in cancelled {
            CleanupConsumerRef(M.TagOf(attributes));
          }
        case OnCloseFromBroker => OnCloseFromBroker();
      }
    }

    /** Calls the next selected callback, or cleans up after the on-close callbacks. */
    method RunNext()
      requires todo != []
      modifies this
      ensures View() == M.RunNext(old(View()))
      ensures old(Invariant(View())) ==> Invariant(View())
    {
      hide Invariant;
      if Invariant(View()) {
        R.RunNextKeeps(View());
      }
      hide M.RunCallback;
      var task := todo[0];
      todo := todo[1..];
      match task {
        case Cleanup => registered, consumers, callbacks := false, [], map[];
        case Run(callback, attributes) => CallBack(callback, attributes);
      }
    }
  }
}
