/** What each call on a channel does. */
module ChannelCalls {
  import opened Bytes
  import opened Callbacks
  import opened ChannelModel
  import opened ChannelTheorems
  import opened ChannelRuns

  /** `callback` is registered under `key` for frames with `arguments`. */
  predicate Listens(r: Registry, key: string, callback: Callback, arguments: Option<Attributes>) {
    exists e :: e in ListOf(r, key) && e.callback == callback && e.onlyCaller == None && e.arguments == arguments
  }

  /** A request that expects a reply blocks the channel, which listens for the reply, once, and so does the caller. */
  predicate Awaited(d: Channel, call: Call, callback: Option<Callback>, reply: Option<Reply>) {
    match reply
    case None => d.blocking == None
    case Some(Reply(key, arguments)) =>
      d.blocking == Some(call)
      && Of(ListOf(d.callbacks, key), OnSynchronousComplete)
         == [Entry(OnSynchronousComplete, true, None, arguments, 1)]
      && (callback.Some? ==> Listens(d.callbacks, key, callback.value, arguments))
  }

  /** The call was issued: it was sent, or waits behind the others if the channel is blocked. */
  predicate Issued(c: Channel, d: Channel, call: Call, callback: Option<Callback>, reply: Option<Reply>) {
    d.issued == c.issued + [call]
    && if c.blocking.Some? then
         d.sent == c.sent && d.blocking == c.blocking && d.blocked == c.blocked + [Request(call, callback, reply)]
       else
         d.sent == c.sent + [call] && d.blocked == [] && Awaited(d, call, callback, reply)
  }

  lemma {:induction false} AddListens(es: seq<Entry>, callback: Callback, oneShot: bool, arguments: Option<Attributes>)
    ensures exists e :: e in AddTo(es, callback, oneShot, None, arguments) && e.callback == callback
                        && e.onlyCaller == None && e.arguments == arguments
  {
    var more := AddTo(es, callback, oneShot, None, arguments);
    if es == [] || Same(es[0], callback, None, arguments) {
      assert more[0] in more;
    } else {
      AddListens(es[1..], callback, oneShot, arguments);
      assert more == [es[0]] + AddTo(es[1..], callback, oneShot, None, arguments);
    }
  }

  lemma RegisterListens(r: Registry, key: string, callback: Callback, oneShot: bool, arguments: Option<Attributes>)
    ensures Listens(Register(r, key, callback, oneShot, None, arguments), key, callback, arguments)
  {
    hide AddTo;
    AddListens(ListOf(r, key), callback, oneShot, arguments);
  }

  lemma SendEffect(c: Channel, r: Request)
    requires Slots(c) && c.pending.None? && c.blocking.None? && Shape(r)
    ensures Send(c, r).sent == c.sent + [r.call] && Awaited(Send(c, r), r.call, r.callback, r.reply)
    ensures r.reply.Some? ==> Send(c, r).pending == Some(r)
  {
    hide Listens, AddTo, Of, Slot;
    if r.reply.Some? {
      var Reply(key, arguments) := r.reply.value;
      assert SlotsAt(c, key);
      SendSlot(c, r, key, OnSynchronousComplete);
      SlotIs(Send(c, r).callbacks, key, OnSynchronousComplete);
      if r.callback.Some? {
        var registry := Register(c.callbacks, key, OnSynchronousComplete, true, None, arguments);
        RegisterListens(registry, key, r.callback.value, true, arguments);
      }
    }
  }

  lemma SlotIs(r: Registry, key: string, callback: Callback)
    ensures Slot(r, key, callback) == Of(ListOf(r, key), callback)
  {
  }

  lemma IssueEffect(c: Channel, r: Request)
    requires Invariant(c) && c.state != Closed && Shape(r)
    ensures Issued(c, Issue(c, r), r.call, r.callback, r.reply)
    ensures var d := Issue(c, r);
            d.consumers == c.consumers && d.noAck == c.noAck && d.cancelled == c.cancelled && d.state == c.state
            && d.reason == c.reason
  {
    hide Shape, Slots, InOrder, CloseIsLast, Requests, Closers, TaskCount, Cleanups, Awaited, Send;
    var e := c.(issued := c.issued + [r.call]);
    if c.blocking.None? {
      SlotsOnly(c, e);
      PendingNone(c);
      SendEffect(e, r);
    }
    SendLeaves(e, r);
  }

  lemma SendLeaves(c: Channel, r: Request)
    ensures var d := Send(c, r);
            d.consumers == c.consumers && d.noAck == c.noAck && d.cancelled == c.cancelled && d.state == c.state
            && d.reason == c.reason && d.issued == c.issued && d.blocked == c.blocked
  {
  }

  /** A request of any method that a channel in OPEN accepts. */
  lemma CallIssues(c: Channel, name: string, callback: Option<nat>, reply: Option<Reply>)
    requires Invariant(c) && Enabled(c, CallMethod(name, callback, reply))
    ensures var d := Step(c, CallMethod(name, callback, reply));
            if c.state != Open then d == c
            else Issued(c, d, OtherCall(name), if callback.Some? then Some(User(callback.value)) else None, reply)
                 && d.consumers == c.consumers
  {
    hide Invariant, Issue, Issued;
    if c.state == Open {
      var r := Request(OtherCall(name), if callback.Some? then Some(User(callback.value)) else None, reply);
      assert Shape(r);
      IssueEffect(c, r);
    }
  }

  /** A consumer is recorded, and requested; its callback hears of the reply for its own tag. */
  lemma ConsumeIssues(c: Channel, tag: string, autoAck: bool, user: nat)
    requires Invariant(c)
    ensures var d := Step(c, BasicConsume(tag, autoAck, user));
            if c.state != Open || tag in c.consumers || tag in c.cancelled then d == c
            else Issued(c, d, ConsumeCall(tag), Some(User(user)),
                        Some(Reply("Basic.ConsumeOk", Some(map["consumer_tag" := tag]))))
                 && d.consumers == c.consumers + [tag] && d.cancelled == c.cancelled
                 && (tag in d.noAck <==> autoAck || tag in c.noAck) && d.noAck - {tag} == c.noAck - {tag}
  {
    hide Invariant, Issue, Issued;
    if c.state == Open && tag !in c.consumers && tag !in c.cancelled {
      var d := c.(noAck := if autoAck then c.noAck + {tag} else c.noAck, consumers := c.consumers + [tag]);
      ConsumersFree(c, d);
      var r := Request(ConsumeCall(tag), Some(User(user)), Some(Reply(CONSUME_OK, Some(map[CONSUMER_TAG := tag]))));
      assert Shape(r);
      IssueEffect(d, r);
      IssuedFrom(c, d, Issue(d, r), r);
    }
  }

  /** Whether a call was issued does not depend on the consumers. */
  lemma IssuedFrom(c: Channel, d: Channel, e: Channel, r: Request)
    requires d.issued == c.issued && d.sent == c.sent && d.blocking == c.blocking && d.blocked == c.blocked
    requires Issued(d, e, r.call, r.callback, r.reply)
    ensures Issued(c, e, r.call, r.callback, r.reply)
  {
    hide Awaited;
  }

  lemma {:induction false} WithoutContents(tags: seq<string>, tag: string, t: string)
    ensures t in Without(tags, tag) <==> t in tags && t != tag
  {
    if tags != [] {
      WithoutContents(tags[1..], tag, t);
      assert tags == [tags[0]] + tags[1..];
    }
  }

  /**
    A consumer is cancelled once. The reply is awaited if and only if the caller wants to hear of it; otherwise the
    consumer is forgotten at once.
   */
  lemma CancelIssues(c: Channel, tag: string, callback: Option<nat>)
    requires Invariant(c)
    ensures var d := Step(c, BasicCancel(tag, callback));
            if c.state != Open || tag in c.cancelled || tag !in c.consumers then d == c
            else d.cancelled == c.cancelled + {tag} && d.noAck == c.noAck && d.state == c.state && d.reason == c.reason
                 && (callback.Some? ==>
                       Issued(c, d, CancelCall(tag), Some(OnCancelOk),
                              Some(Reply("Basic.CancelOk", Some(map["consumer_tag" := tag]))))
                       && d.consumers == c.consumers
                       && Listens(d.callbacks, "Basic.CancelOk", User(callback.value), None))
                 && (callback.None? ==>
                       Issued(c, d, CancelCall(tag), None, None)
                       && forall t :: t in d.consumers <==> t in c.consumers && t != tag)
  {
    hide Invariant, Issue, Issued, Register, Without, Listens;
    if c.state == Open && tag !in c.cancelled && tag in c.consumers {
      var consumers := if callback.None? then Without(c.consumers, tag) else c.consumers;
      var d := c.(cancelled := c.cancelled + {tag}, consumers := consumers);
      ConsumersFree(c, d);
      if callback.Some? {
        RegisterKeeps(d, CANCEL_OK, User(callback.value), true, None);
        RegisterListens(d.callbacks, CANCEL_OK, User(callback.value), true, None);
        d := d.(callbacks := Register(d.callbacks, CANCEL_OK, User(callback.value), true, None, None));
      }
      var r := CancelRequest(tag, callback.Some?);
      assert Shape(r);
      IssueEffect(d, r);
      IssuedFrom(c, d, Issue(d, r), r);
      if callback.Some? {
        IssueKeepsListening(d, r, CANCEL_OK, User(callback.value), None);
      }
      forall t ensures t in Without(c.consumers, tag) <==> t in c.consumers && t != tag {
        WithoutContents(c.consumers, tag, t);
      }
    }
  }

  /** Registering one callback leaves the others registered. */
  lemma {:induction false} AddKeepsEntry(es: seq<Entry>, callback: Callback, arguments: Option<Attributes>, e: Entry)
    requires e in es
    ensures exists f :: f in AddTo(es, callback, true, None, arguments) && f.callback == e.callback
                        && f.onlyCaller == e.onlyCaller && f.arguments == e.arguments
  {
    var more := AddTo(es, callback, true, None, arguments);
    assert es == [es[0]] + es[1..];
    if e == es[0] {
      assert more[0] in more;
    } else if Same(es[0], callback, None, arguments) {
      assert e in es[1..] && e in more;
    } else {
      AddKeepsEntry(es[1..], callback, arguments, e);
      assert more == [es[0]] + AddTo(es[1..], callback, true, None, arguments);
    }
  }

  lemma RegisterKeepsListening(r: Registry, key: string, callback: Callback, arguments: Option<Attributes>, k: string,
                               b: Callback, expected: Option<Attributes>)
    requires Listens(r, k, b, expected)
    ensures Listens(Register(r, key, callback, true, None, arguments), k, b, expected)
  {
    hide AddTo;
    var e :| e in ListOf(r, k) && e.callback == b && e.onlyCaller == None && e.arguments == expected;
    if k == key {
      AddKeepsEntry(ListOf(r, key), callback, arguments, e);
    }
  }

  lemma IssueKeepsListening(c: Channel, r: Request, k: string, b: Callback, expected: Option<Attributes>)
    requires Listens(c.callbacks, k, b, expected)
    ensures Listens(Issue(c, r).callbacks, k, b, expected)
  {
    hide Listens, Register;
    if r.reply.Some? {
      var Reply(key, arguments) := r.reply.value;
      RegisterKeepsListening(c.callbacks, key, OnSynchronousComplete, arguments, k, b, expected);
      if r.callback.Some? {
        RegisterKeepsListening(Register(c.callbacks, key, OnSynchronousComplete, true, None, arguments), key,
                               r.callback.value, arguments, k, b, expected);
      }
    }
  }

  // ---------- Closing ----------

  /** One cancellation for each tag that is not cancelled yet. */
  function CancelCalls(tags: seq<string>, cancelled: set<string>): seq<Call> {
    if tags == [] then []
    else if tags[0] in cancelled then CancelCalls(tags[1..], cancelled)
    else [CancelCall(tags[0])] + CancelCalls(tags[1..], cancelled + {tags[0]})
  }

  lemma {:induction false} CancelCallsOnce(tags: seq<string>, cancelled: set<string>)
    ensures var calls := CancelCalls(tags, cancelled);
            (forall call :: call in calls <==> call.CancelCall? && call.tag in tags && call.tag !in cancelled)
            && forall i, j :: 0 <= i < j < |calls| ==> calls[i] != calls[j]
    decreases tags
  {
    if tags != [] {
      assert tags == [tags[0]] + tags[1..];
      CancelCallsOnce(tags[1..], cancelled);
      CancelCallsOnce(tags[1..], cancelled + {tags[0]});
    }
  }

  function Requested(calls: seq<Call>): seq<Request> {
    if calls == [] then [] else [Request(calls[0], None, None)] + Requested(calls[1..])
  }

  /** The loop of `close` issues them in order; none of them blocks. */
  lemma {:induction false} CancelAllIssues(c: Channel, tags: seq<string>)
    requires Invariant(c) && c.state == Open
    requires forall t :: t in tags ==> t in c.consumers || t in c.cancelled
    ensures var d, calls := CancelAll(c, tags), CancelCalls(tags, c.cancelled);
            Invariant(d) && d.state == Open && d.issued == c.issued + calls && d.blocking == c.blocking
            && d.reason == c.reason
            && (c.blocking.Some? ==> d.sent == c.sent && d.blocked == c.blocked + Requested(calls))
            && (c.blocking.None? ==> d.sent == c.sent + calls && d.blocked == [])
    decreases tags
  {
    hide Shape, InOrder, CloseIsLast, Requests, Closers, Todo, Slots, CancelConsumer, Awaited, Step;
    if tags == [] {
      assert c.issued + [] == c.issued && c.sent + [] == c.sent && c.blocked + [] == c.blocked;
    } else {
      assert tags == [tags[0]] + tags[1..];
      if tags[0] in c.cancelled {
        CancelAllIssues(c, tags[1..]);
      } else {
        var d := CancelConsumer(c, tags[0], None);
        CancelIssues(c, tags[0], None);
        CancelIsStep(c, tags[0]);
        CancelKeeps(c, tags[0], None);
        Unawaited(d, tags[0]);
        CancelAllIssues(d, tags[1..]);
        var first, rest := CancelCall(tags[0]), CancelCalls(tags[1..], d.cancelled);
        assert c.issued + [first] + rest == c.issued + ([first] + rest);
        assert c.sent + [first] + rest == c.sent + ([first] + rest);
        assert ([first] + rest)[1..] == rest;
        assert c.blocked + [Request(first, None, None)] + Requested(rest)
               == c.blocked + ([Request(first, None, None)] + Requested(rest));
      }
    }
  }

  lemma CancelIsStep(c: Channel, tag: string)
    ensures Step(c, BasicCancel(tag, None)) == CancelConsumer(c, tag, None)
  {
  }

  lemma Unawaited(d: Channel, tag: string)
    ensures Awaited(d, CancelCall(tag), None, None) ==> d.blocking == None
  {
  }

  lemma {:induction false} RequestedCalls(calls: seq<Call>)
    ensures Calls(Requested(calls)) == calls
  {
    if calls != [] {
      RequestedCalls(calls[1..]);
      assert Requested(calls)[1..] == Requested(calls[1..]);
    }
  }

  /** Each consumer is cancelled, once, and then `Channel.Close` goes out, or they wait in this order. */
  lemma CloseIssues(c: Channel)
    requires Invariant(c)
    ensures var d := Step(c, CloseChannel);
            if c.state == Closing || c.state == Closed then d == c
            else var calls := CancelCalls(c.consumers, c.cancelled) + [CloseCall];
                 d.state == Closing && d.reason == Some(ClosedByClient) && d.issued == c.issued + calls
                 && (c.blocking.Some? ==>
                       d.sent == c.sent && Calls(d.blocked) == Calls(c.blocked) + calls && d.blocking == c.blocking)
                 && (c.blocking.None? ==>
                       d.sent == c.sent + calls && d.blocked == []
                       && Awaited(d, CloseCall, Some(OnCloseOk), Some(Reply("Channel.CloseOk", None))))
  {
    hide Awaited, CancelAll, Issue, Shape, InOrder, CloseIsLast, Closers, Todo, Slots, CancelCalls, Requested, Calls,
      Requests;
    if c.state == Open || c.state == Opening {
      var e := c.(reason := Some(ClosedByClient));
      var calls := CancelCalls(c.consumers, c.cancelled);
      ReasonFree(c, e);
      if c.state == Open {
        CancelAllIssues(e, c.consumers);
      } else {
        NothingToCancel(e);
        assert e.issued + [] == e.issued && e.sent + [] == e.sent && e.blocked + [] == e.blocked;
      }
      var f := CancelAll(e, c.consumers);
      CloseEffect(f);
      assert c.issued + calls + [CloseCall] == c.issued + (calls + [CloseCall]);
      assert c.sent + calls + [CloseCall] == c.sent + (calls + [CloseCall]);
      RequestedCalls(calls);
      CallsConcat(c.blocked, Requested(calls));
      CallsConcat(c.blocked + Requested(calls), [CLOSE_REQUEST]);
      OneCall(CLOSE_REQUEST);
      assert Calls(c.blocked) + calls + [CloseCall] == Calls(c.blocked) + (calls + [CloseCall]);
    }
  }

  lemma OneCall(r: Request)
    ensures Calls([r]) == [r.call]
  {
    assert [r][1..] == [];
  }

  lemma NothingToCancel(c: Channel)
    requires Requests(c) && c.state == Opening
    ensures CancelAll(c, c.consumers) == c && CancelCalls(c.consumers, c.cancelled) == [] && Requested([]) == []
    ensures c.blocked == []
  {
  }

  /** The end of `close`. */
  lemma CloseEffect(c: Channel)
    requires Invariant(c) && (c.state == Open || c.state == Opening)
    ensures var d := Issue(c.(state := Closing), CLOSE_REQUEST);
            d.state == Closing && d.reason == c.reason
            && Issued(c, d, CloseCall, Some(OnCloseOk), Some(Reply("Channel.CloseOk", None)))
  {
    hide Shape, InOrder, CloseIsLast, Requests, Closers, TaskCount, Cleanups, Awaited, Send, Slots;
    var e := c.(state := Closing, issued := c.issued + [CloseCall]);
    if c.blocking.None? {
      SlotsOnly(c, e);
      PendingNone(c);
      assert Shape(CLOSE_REQUEST) by { CloseShape(); }
      SendEffect(e, CLOSE_REQUEST);
    }
    SendLeaves(e, CLOSE_REQUEST);
  }

  lemma CloseShape()
    ensures Shape(CLOSE_REQUEST)
  {
  }

  // ---------- The queue ----------

  /**
    When the channel is unblocked, the queue goes out in order up to and including the first request that expects
    a reply, which is then awaited.
   */
  lemma {:induction false} PumpSends(c: Channel, k: nat)
    requires Core(c) && c.state != Closed && c.blocking.None? && k <= |c.blocked|
    requires forall i :: 0 <= i < k ==> c.blocked[i].reply.None?
    requires k < |c.blocked| ==> c.blocked[k].reply.Some?
    ensures var d := Pump(c);
            if k == |c.blocked| then d.sent == c.sent + Calls(c.blocked) && d.blocked == [] && d.blocking.None?
            else d.sent == c.sent + Calls(c.blocked[..k + 1]) && d.blocked == c.blocked[k + 1..]
                 && Awaited(d, c.blocked[k].call, c.blocked[k].callback, c.blocked[k].reply)
    decreases |c.blocked|
  {
    hide Shape, InOrder, CloseIsLast, Closers, Slots, TaskCount, Cleanups, Send, Awaited, Requests;
    if c.blocked == [] {
      assert c.sent + [] == c.sent;
    } else {
      var r, rest := c.blocked[0], c.blocked[1..];
      var d := c.(blocked := rest);
      assert d.(blocked := [r] + d.blocked) == c by { assert [r] + rest == c.blocked; }
      Queued(c);
      SendKeeps(d, r);
      SlotsOnly(c, d);
      PendingNone(c);
      SendEffect(d, r);
      SendLeaves(d, r);
      AwaitedBlocks(Send(d, r), r.call, r.callback, r.reply);
      OneCall(r);
      if k == 0 {
        assert c.blocked[..1] == [r];
        PumpBlocked(Send(d, r));
      } else {
        PumpSends(Send(d, r), k - 1);
        ConcatAssociative(c.sent, [r.call], Calls(rest));
        if k < |c.blocked| {
          assert c.blocked[..k + 1] == [r] + rest[..k];
          CallsConcat([r], rest[..k]);
          ConcatAssociative(c.sent, [r.call], Calls(rest[..k]));
        }
      }
    }
  }

  /** So does a reply: `_on_synchronous_complete` unblocks the channel first. */
  lemma ReplySendsQueue(c: Channel, attributes: Attributes, k: nat)
    requires Invariant(c) && c.state != Closed && c.todo != [] && c.todo[0] == Run(OnSynchronousComplete, attributes)
    requires k <= |c.blocked| && forall i :: 0 <= i < k ==> c.blocked[i].reply.None?
    requires k < |c.blocked| ==> c.blocked[k].reply.Some?
    ensures var d := RunNext(c);
            if k == |c.blocked| then d.sent == c.sent + Calls(c.blocked) && d.blocked == [] && d.blocking.None?
            else d.sent == c.sent + Calls(c.blocked[..k + 1]) && d.blocked == c.blocked[k + 1..]
                 && Awaited(d, c.blocked[k].call, c.blocked[k].callback, c.blocked[k].reply)
  {
    hide Shape, InOrder, CloseIsLast, Requests, Closers, Slots, TaskCount, Cleanups, Pump, Awaited;
    var d := c.(todo := c.todo[1..]);
    Popped(c);
    PopTask(c);
    Reblocked(d, d.(blocking := None));
    PumpSends(d.(blocking := None), k);
  }

  /** A new channel has asked to be opened, and nothing else. */
  lemma StartOpens()
    ensures Start().state == Opening && Start().sent == [OpenCall] && Start().blocked == []
    ensures Awaited(Start(), OpenCall, Some(OnOpenOk), Some(Reply("Channel.OpenOk", None)))
    ensures Listens(Start().callbacks, "Channel.Close", OnCloseFromBroker, None)
    ensures Listens(Start().callbacks, "Basic.Cancel", OnCancel, None)
  {
    hide Slot, Of, AddTo, Listens;
    assert |CANCEL| != |CLOSE| && |CANCEL| != |OPEN_OK| && |CLOSE| != |OPEN_OK|;
    var c := Channel(Opening, None, [], [], {}, {}, None, INITIAL, [], 0, [], true, false, [OpenCall], [], None, [],
                     [], 0);
    assert [] + [OpenCall] == [OpenCall];
    assert Send(c, OPEN_REQUEST) == Start();
    forall key: string
      ensures SlotsAt(c, key)
    {
      InitialSlot(key, OnSynchronousComplete);
      InitialSlot(key, OnOpenOk);
      InitialSlot(key, OnCloseOk);
      InitialSlot(key, OnCloseFromBroker);
    }
    assert Shape(OPEN_REQUEST);
    SendEffect(c, OPEN_REQUEST);
    InitialListens(Start().callbacks);
  }

  lemma InitialListens(r: Registry)
    requires ListOf(r, CLOSE) == [ARMED] && ListOf(r, CANCEL) == [Entry(OnCancel, false, None, None, 0)]
    ensures Listens(r, "Channel.Close", OnCloseFromBroker, None) && Listens(r, "Basic.Cancel", OnCancel, None)
  {
    assert ARMED in ListOf(r, CLOSE) && Entry(OnCancel, false, None, None, 0) in ListOf(r, CANCEL);
  }

  /** An on-close callback that is added before the channel closes is called when it closes, after the earlier ones. */
  lemma CloserIsCalled(c: Channel, user: nat)
    requires Invariant(c) && c.state != Closed && c.todo == []
    ensures var d := Step(c, AddOnCloseCallback(user));
            d.closers == (if user in c.closers then c.closers else c.closers + [user]) && d.state == c.state
            && Step(d, LoseStream).todo == Tasks(Users(d.closers), map[]) + [Cleanup]
  {
    hide Shape, Slots, TaskCount, Cleanups, Transition, Register, Tasks, InOrder, CloseIsLast;
    var d := Step(c, AddOnCloseCallback(user));
    AddCloserKeeps(c, user);
    InOrderEquation(d);
    EmptyCounts();
    TransitionKeeps(d.(reason := Some(StreamLost)));
    assert Tasks(Users(d.closers), map[]) + [Cleanup] + [] == Tasks(Users(d.closers), map[]) + [Cleanup];
  }

  /** A callback that the application adds is called for every frame of its key. */
  lemma AddedIsCalled(c: Channel, key: string, user: nat, oneShot: bool, attributes: Attributes)
    requires Enabled(c, AddCallback(key, user, oneShot))
    ensures Run(User(user), attributes) in Select(Step(c, AddCallback(key, user, oneShot)), key, attributes).todo
  {
    hide Register, Select, Listens;
    RegisterListens(c.callbacks, key, User(user), oneShot, None);
    ListenerCalled(Step(c, AddCallback(key, user, oneShot)), key, attributes, User(user), None);
  }

  lemma Queued(c: Channel)
    requires Requests(c) && c.blocked != []
    ensures Shape(c.blocked[0]) && c.state != Opening
  {
  }

  lemma AwaitedBlocks(d: Channel, call: Call, callback: Option<Callback>, reply: Option<Reply>)
    requires Awaited(d, call, callback, reply)
    ensures d.blocking.Some? <==> reply.Some?
  {
  }

  lemma PumpBlocked(c: Channel)
    requires c.blocking.Some?
    ensures Pump(c) == c
  {
  }

  // ---------- Replies ----------

  lemma {:induction false} TasksOf(called: seq<Callback>, attributes: Attributes, callback: Callback)
    ensures Run(callback, attributes) in Tasks(called, attributes) <==> callback in called
  {
    if called != [] {
      TasksOf(called[1..], attributes, callback);
      assert called == [called[0]] + called[1..];
    }
  }

  /**
    A reply for something else, such as another consumer, leaves the channel blocked: the one-shot stays
    registered, nothing is sent, and `_on_synchronous_complete` is not called.
   */
  lemma OtherReplyIgnored(c: Channel, key: string, attributes: Attributes, expected: Attributes, k: string)
    requires Invariant(c) && c.state != Closed && c.todo == [] && key != ON_CHANNEL_CLOSE && c.pending.Some?
    requires c.pending.value.reply == Some(Reply(key, Some(expected)))
    requires k in expected && (k !in attributes || attributes[k] != expected[k])
    ensures var d := Select(c, key, attributes);
            d.blocking == c.blocking && d.blocked == c.blocked && d.sent == c.sent && d.pending == c.pending
            && Of(ListOf(d.callbacks, key), OnSynchronousComplete)
               == [Entry(OnSynchronousComplete, true, None, Some(expected), 1)]
            && TaskCount(d.todo, OnSynchronousComplete) == 0
            && !exists other :: Run(OnSynchronousComplete, other) in d.todo
  {
    hide Shape, TaskCount, Cleanups, InOrder, CloseIsLast, Closers, Collect, Of, Requests, Todo;
    assert SlotsAt(c, key);
    SelectSlot(c, key, attributes, OnSynchronousComplete);
    var d := Select(c, key, attributes);
    NotCounted(d.todo);
  }

  lemma {:induction false} NotCounted(ts: seq<Task>)
    requires TaskCount(ts, OnSynchronousComplete) == 0
    ensures !exists attributes :: Run(OnSynchronousComplete, attributes) in ts
  {
    if ts != [] {
      NotCounted(ts[1..]);
      assert ts == [ts[0]] + ts[1..];
    }
  }

  /**
    The reply that is awaited uses up the one-shot and has `_on_synchronous_complete` called, once, and every
    callback that listens for it.
   */
  lemma ReplyAnswers(c: Channel, key: string, attributes: Attributes, expected: Option<Attributes>, callback: Callback)
    requires Invariant(c) && c.state != Closed && c.todo == [] && key != ON_CHANNEL_CLOSE && c.pending.Some?
    requires c.pending.value.reply == Some(Reply(key, expected))
    requires expected.Some? ==> expected.value.Items <= attributes.Items
    ensures var d := Select(c, key, attributes);
            d.pending == None && Of(ListOf(d.callbacks, key), OnSynchronousComplete) == []
            && TaskCount(d.todo, OnSynchronousComplete) == 1
            && (Listens(c.callbacks, key, callback, expected) ==> Run(callback, attributes) in d.todo)
  {
    Included(expected, attributes);
    hide Shape, TaskCount, Cleanups, InOrder, CloseIsLast, Closers, Collect, Of, Requests, Todo, ArgumentsMatch;
    assert SlotsAt(c, key);
    SelectSlot(c, key, attributes, OnSynchronousComplete);
    if Listens(c.callbacks, key, callback, expected) {
      ListenerCalled(c, key, attributes, callback, expected);
    }
  }

  lemma Included(expected: Option<Attributes>, attributes: Attributes)
    requires expected.Some? ==> expected.value.Items <= attributes.Items
    ensures ArgumentsMatch(expected, Some(attributes))
  {
    if expected.Some? {
      forall k | k in expected.value
        ensures k in attributes && attributes[k] == expected.value[k]
      {
        assert (k, expected.value[k]) in expected.value.Items;
      }
    }
  }

  lemma {:induction false} MatchingHas(es: seq<Entry>, e: Entry, caller: nat, subject: Option<Attributes>)
    requires e in es && ShouldProcess(e, caller, subject)
    ensures e.callback in Matching(es, caller, subject)
  {
    assert es == [es[0]] + es[1..];
    if e != es[0] {
      MatchingHas(es[1..], e, caller, subject);
    }
  }

  /** A callback that listens for frames with these attributes is called with them. */
  lemma ListenerCalled(c: Channel, key: string, attributes: Attributes, callback: Callback,
                       expected: Option<Attributes>)
    requires Listens(c.callbacks, key, callback, expected)
    requires expected.Some? ==> expected.value.Items <= attributes.Items
    ensures Run(callback, attributes) in Select(c, key, attributes).todo
  {
    Included(expected, attributes);
    hide Collect, ArgumentsMatch;
    var es := ListOf(c.callbacks, key);
    var e :| e in es && e.callback == callback && e.onlyCaller == None && e.arguments == expected;
    ProcessCallsMatching(es, es, CONNECTION, Some(attributes));
    MatchingHas(es, e, CONNECTION, Some(attributes));
    TasksOf(Matching(es, CONNECTION, Some(attributes)), attributes, callback);
  }

  /**
    `_on_cancelok`, and `_on_cancel` for a consumer that is not being cancelled, forget the consumer of the tag
    alone.
   */
  lemma ConsumerForgotten(c: Channel, callback: Callback, attributes: Attributes, tag: string)
    requires c.todo != [] && c.todo[0] == Run(callback, attributes) && (callback == OnCancelOk || callback == OnCancel)
    requires "consumer_tag" in attributes && attributes["consumer_tag"] == tag
    ensures var d := RunNext(c);
            d == c.(todo := c.todo[1..], consumers := d.consumers, noAck := d.noAck, cancelled := d.cancelled)
            && if callback == OnCancel && tag in c.cancelled then d == c.(todo := c.todo[1..])
               else d.noAck == c.noAck - {tag} && d.cancelled == c.cancelled - {tag}
                    && forall t :: t in d.consumers <==> t in c.consumers && t != tag
  {
    hide Without;
    forall t ensures t in Without(c.consumers, tag) <==> t in c.consumers && t != tag {
      WithoutContents(c.consumers, tag, t);
    }
  }

  /** The clean-up forgets every consumer and callback, and the channel's number. */
  lemma CleanupClears(c: Channel)
    requires c.todo != [] && c.todo[0] == Cleanup
    ensures var d := RunNext(c);
            d.consumers == [] && (forall key :: ListOf(d.callbacks, key) == []) && !d.registered
            && d.state == c.state && d.sent == c.sent && d.blocked == c.blocked && d.todo == c.todo[1..]
  {
  }

  lemma {:induction false} TasksAt(called: seq<Callback>, attributes: Attributes)
    ensures |Tasks(called, attributes)| == |called|
    ensures forall i :: 0 <= i < |called| ==> Tasks(called, attributes)[i] == Run(called[i], attributes)
  {
    if called != [] {
      TasksAt(called[1..], attributes);
    }
  }

  /** The callbacks of a frame are called next, with its attributes, in the order in which they were selected. */
  lemma SelectedInOrder(c: Channel, key: string, attributes: Attributes)
    ensures var called, d := Process(ListOf(c.callbacks, key), CONNECTION, Some(attributes)).0,
            Select(c, key, attributes);
            |d.todo| == |called| && forall i :: 0 <= i < |called| ==> d.todo[i] == Run(called[i], attributes)
  {
    hide Process;
    TasksAt(Process(ListOf(c.callbacks, key), CONNECTION, Some(attributes)).0, attributes);
  }
}
