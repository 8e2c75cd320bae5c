/** Every event keeps the channel's invariant; what that says of whole runs. */
module ChannelRuns {
  import opened Bytes
  import opened Callbacks
  import opened ChannelModel
  import opened ChannelTheorems

  // ---------- Selected callbacks ----------

  /** Taking a task off the list. */
  lemma PopTask(c: Channel)
    requires c.todo != []
    ensures forall b: Callback ::
              TaskCount(c.todo, b) == TaskCount(c.todo[1..], b) + Is(c.todo[0].Run? && c.todo[0].callback == b)
    ensures Cleanups(c.todo) == Cleanups(c.todo[1..]) + Is(c.todo[0].Cleanup?)
  {
  }

  /** After the task is taken off, all but `Todo` still holds. */
  lemma Popped(c: Channel)
    requires Core(c) && c.todo != []
    ensures var d := c.(todo := c.todo[1..]);
            InOrder(d) && CloseIsLast(d) && Requests(d) && Closers(d) && (d.state != Closed ==> Slots(d))
  {
    hide Shape, TaskCount, Cleanups, Todo, Slots, SlotsAt;
    if c.state != Closed {
      SlotsOnly(c, c.(todo := c.todo[1..]));
    }
  }

  lemma SyncKeeps(c: Channel, attributes: Attributes)
    requires Invariant(c) && c.todo != [] && c.todo[0] == Run(OnSynchronousComplete, attributes)
    ensures Invariant(RunNext(c)) && RunNext(c).state == c.state
  {
    hide Shape, InOrder, CloseIsLast, Requests, Closers, Slots, TaskCount, Cleanups, Pump;
    var d := c.(todo := c.todo[1..]);
    Popped(c);
    PopTask(c);
    var e := d.(blocking := None);
    assert Core(e) by {
      Reblocked(d, e);
      assert Todo(e);
    }
    PumpKeeps(e);
  }

  /** Only `Todo` speaks of `blocking`. */
  lemma Reblocked(d: Channel, e: Channel)
    requires e == d.(blocking := e.blocking)
    ensures InOrder(d) ==> InOrder(e)
    ensures CloseIsLast(d) ==> CloseIsLast(e)
    ensures Requests(d) ==> Requests(e)
    ensures Closers(d) ==> Closers(e)
    ensures Slots(d) ==> Slots(e)
  {
    hide Shape, SlotsAt;
    if Slots(d) {
      SlotsOnly(d, e);
    }
  }

  lemma OpenOkKeeps(c: Channel, attributes: Attributes)
    requires Invariant(c) && c.todo != [] && c.todo[0] == Run(OnOpenOk, attributes)
    ensures Invariant(RunNext(c))
    ensures RunNext(c).state == if c.state == Closing then Closing else Open
    ensures c.state == Opening || c.state == Closing
  {
    hide Shape, SlotsAt, TaskCount, Cleanups;
    Popped(c);
    PopTask(c);
    SlotsOnly(c, RunNext(c));
  }

  lemma CloseOkKeeps(c: Channel, attributes: Attributes)
    requires Invariant(c) && c.todo != [] && c.todo[0] == Run(OnCloseOk, attributes)
    ensures Invariant(RunNext(c)) && c.state == Closing && RunNext(c).state == Closed
  {
    hide Shape, Slots, TaskCount, Cleanups, Transition;
    Popped(c);
    PopTask(c);
    CloseSentOnce(c);
    TransitionKeeps(c.(todo := c.todo[1..]));
  }

  /** The last of `a + b`, found nowhere before, is the last of `b` if there is one, and of `a` otherwise. */
  lemma LastOfConcat(all: seq<Call>, a: seq<Call>, b: seq<Call>, last: Call)
    requires all == a + b && all != [] && all[|all| - 1] == last && last !in all[..|all| - 1]
    ensures b != [] ==> b[|b| - 1] == last
    ensures last !in b[..if |b| == 0 then 0 else |b| - 1]
    ensures b != [] <==> last !in a
  {
    assert forall i :: 0 <= i < |b| ==> b[i] == all[|a| + i];
    assert forall i :: 0 <= i < |a| ==> a[i] == all[i];
    assert forall i :: 0 <= i < |all| - 1 ==> all[..|all| - 1][i] == all[i];
  }

  /** In CLOSING, whatever is queued ends with the only `Channel.Close`. */
  lemma QueuedCloseIsLast(c: Channel)
    requires InOrder(c) && CloseIsLast(c) && c.state == Closing
    ensures c.blocked != [] ==> c.blocked[|c.blocked| - 1].call == CloseCall
    ensures CloseCall !in Calls(c.blocked)[..if |c.blocked| == 0 then 0 else |c.blocked| - 1]
    ensures c.blocked != [] <==> CloseCall !in c.sent
  {
    CallsLength(c.blocked);
    assert c.issued == c.sent + Calls(c.blocked) by { assert c.sent + [] == c.sent; }
    hide Calls, InOrder;
    LastOfConcat(c.issued, c.sent, Calls(c.blocked), CloseCall);
  }

  /** The state in which `_on_close_from_broker` drains or closes. */
  function RemotelyClosed(c: Channel): Channel
    requires c.todo != []
  {
    c.(todo := c.todo[1..], closeOksSent := c.closeOksSent + 1, reason := Some(ClosedByBroker))
  }

  lemma RemoteCloseReady(c: Channel, attributes: Attributes)
    requires Invariant(c) && c.todo != [] && c.todo[0] == Run(OnCloseFromBroker, attributes)
    ensures var d := RemotelyClosed(c);
            c.state != Closed && InOrder(d) && CloseIsLast(d) && Requests(d) && Closers(d) && Slots(d) && Todo(d)
              && Quiet(d)
  {
    hide Shape, Slots, TaskCount, Cleanups, InOrder, CloseIsLast, Closers;
    Popped(c);
    PopTask(c);
    SlotsOnlyIf(c, RemotelyClosed(c));
    Rereasoned(c.(todo := c.todo[1..]), RemotelyClosed(c));
  }

  lemma Rereasoned(c: Channel, d: Channel)
    requires d == c.(closeOksSent := d.closeOksSent, reason := d.reason)
    ensures InOrder(c) ==> InOrder(d)
    ensures CloseIsLast(c) ==> CloseIsLast(d)
    ensures Closers(c) ==> Closers(d)
  {
  }

  /** The queue, with the client's `Channel.Close` in it, is dropped and the channel closed. */
  lemma DrainCloses(d: Channel)
    requires !d.failed && d.state == Closing && d.reason.Some? && d.blocked != []
    requires InOrder(d) && CloseIsLast(d) && Requests(d) && Closers(d) && Quiet(d)
    ensures Invariant(Drain(d)) && Drain(d).state == Closed && Drain(d).blocked == []
    ensures Drain(d).closeOksSent == d.closeOksSent && Drain(d).reason == d.reason && Drain(d).sent == d.sent
  {
    hide Shape, Slots, TaskCount, Cleanups, Transition, Drain;
    QueuedCloseIsLast(d);
    DrainEffect(d);
    var e := d.(blocked := [], dropped := d.dropped + Calls(d.blocked));
    assert d.sent + ([] + Calls(d.blocked)) + Calls([]) == d.sent + Calls(d.blocked);
    assert d.sent + [] + Calls(d.blocked) == d.sent + Calls(d.blocked);
    TransitionFields(e);
    TransitionKeeps(e);
  }

  /**
    A remote close finishes at once exactly when the client was not closing, or its own
    `Channel.Close` was still queued; otherwise `CloseOk` is awaited. It is acknowledged either way.
   */
  lemma RemoteClose(c: Channel, attributes: Attributes)
    requires Invariant(c) && c.todo != [] && c.todo[0] == Run(OnCloseFromBroker, attributes)
    ensures Invariant(RunNext(c)) && c.state != Closed
    ensures RunNext(c).state == Closed <==> c.state != Closing || CloseCall !in c.sent
    ensures RunNext(c).state != Closed ==> RunNext(c).state == Closing && RunNext(c).blocked == []
    ensures RunNext(c).closeOksSent == c.closeOksSent + 1 && RunNext(c).reason == Some(ClosedByBroker)
    ensures RunNext(c).sent == c.sent
  {
    hide Slots, TaskCount, Cleanups, Transition, Drain, InOrder, CloseIsLast, Closers, Todo, Quiet, Shape;
    var d := RemotelyClosed(c);
    RemoteCloseReady(c, attributes);
    TransitionFields(d);
    if c.state == Closing {
      QueuedCloseIsLast(d);
      if c.blocked != [] {
        DrainCloses(d);
      } else {
        DrainEmpty(d);
      }
    } else {
      InOrderEquation(d);
      TransitionKeeps(d);
    }
  }

  lemma DrainEmpty(d: Channel)
    requires d.blocked == [] && d.reason.Some?
    ensures Drain(d) == d
  {
  }

  lemma InOrderEquation(d: Channel)
    requires InOrder(d)
    ensures d.issued == d.sent + d.dropped + Calls(d.blocked)
  {
  }

  lemma TransitionFields(c: Channel)
    ensures Transition(c).closeOksSent == c.closeOksSent && Transition(c).reason == c.reason
            && Transition(c).sent == c.sent
  {
  }

  lemma SlotsOnlyIf(c: Channel, d: Channel)
    requires d.callbacks == c.callbacks && d.pending == c.pending
    ensures Slots(c) ==> Slots(d)
  {
    if Slots(c) {
      SlotsOnly(c, d);
    }
  }

  lemma ForgetKeeps(c: Channel, tag: string)
    requires Invariant(c)
    ensures Invariant(ForgetConsumer(c, tag))
  {
    hide Shape, SlotsAt, TaskCount, Cleanups;
    SlotsOnlyIf(c, ForgetConsumer(c, tag));
  }

  /** Clean-up runs once, in the closed channel, and leaves no callback of the channel's own behind. */
  lemma CleanupKeeps(c: Channel)
    requires Invariant(c) && c.todo != [] && c.todo[0] == Cleanup
    ensures Invariant(RunNext(c)) && c.state == Closed && RunNext(c).state == Closed && !RunNext(c).registered
  {
    hide Shape, SlotsAt, TaskCount, Cleanups, InOrder;
    Popped(c);
    PopTask(c);
    var d := RunNext(c);
    assert InOrder(d) by { Retold(c, d); }
    forall key: string
      ensures NoneAt(d.callbacks, key)
    {
    }
  }

  lemma Retold(c: Channel, d: Channel)
    requires InOrder(c) && d.issued == c.issued && d.sent == c.sent && d.dropped == c.dropped && d.blocked == c.blocked
    requires d.state == c.state
    ensures InOrder(d)
  {
  }

  lemma IdleTaskKeeps(c: Channel)
    requires Invariant(c) && c.todo != [] && c.todo[0].Run?
    requires c.todo[0].callback.User? || c.todo[0].callback == OnCancel || c.todo[0].callback == OnCancelOk
    ensures Invariant(c.(todo := c.todo[1..]))
  {
    hide Shape, SlotsAt, TaskCount, Cleanups, InOrder, Slots;
    Popped(c);
    PopTask(c);
  }

  lemma RunNextKeeps(c: Channel)
    requires Invariant(c) && c.todo != []
    ensures Invariant(RunNext(c))
  {
    hide Invariant, Pump, CloseFromBroker, Transition, ForgetConsumer, TagOf;
    match c.todo[0]
    case Cleanup => CleanupKeeps(c);
    case Run(callback, attributes) =>
      match callback
      case User(_) => IdleTaskKeeps(c);
      case OnSynchronousComplete => SyncKeeps(c, attributes);
      case OnOpenOk => OpenOkKeeps(c, attributes);
      case OnCloseOk => CloseOkKeeps(c, attributes);
      case OnCancelOk =>
        IdleTaskKeeps(c);
        ForgetKeeps(c.(todo := c.todo[1..]), TagOf(attributes));
      case OnCancel =>
        IdleTaskKeeps(c);
        ForgetKeeps(c.(todo := c.todo[1..]), TagOf(attributes));
      case OnCloseFromBroker => RemoteClose(c, attributes);
  }

  // ---------- Calls by the application ----------

  lemma RegisterKeeps(c: Channel, key: string, callback: Callback, oneShot: bool, onlyCaller: Option<nat>)
    requires Invariant(c) && callback.User? && key != ON_CHANNEL_CLOSE
    ensures Invariant(c.(callbacks := Register(c.callbacks, key, callback, oneShot, onlyCaller, None)))
  {
    hide Shape, SlotsAt, TaskCount, Cleanups, Register, AddTo;
    var d := c.(callbacks := Register(c.callbacks, key, callback, oneShot, onlyCaller, None));
    RegisterElsewhere(c.callbacks, key, callback, oneShot, onlyCaller);
    if c.state != Closed {
      RegisterOther(c, d, key, callback, oneShot, onlyCaller, None);
    } else if Cleanups(c.todo) == 0 {
      RegisterNone(c.callbacks, key, callback, oneShot, onlyCaller);
    }
  }

  lemma RegisterElsewhere(r: Registry, key: string, callback: Callback, oneShot: bool, onlyCaller: Option<nat>)
    ensures forall k :: k != key ==> ListOf(Register(r, key, callback, oneShot, onlyCaller, None), k) == ListOf(r, k)
  {
  }

  lemma RegisterNone(r: Registry, key: string, callback: Callback, oneShot: bool, onlyCaller: Option<nat>)
    requires callback.User? && forall k: string :: NoneAt(r, k)
    ensures forall k: string :: NoneAt(Register(r, key, callback, oneShot, onlyCaller, None), k)
  {
    forall k: string
      ensures NoneAt(Register(r, key, callback, oneShot, onlyCaller, None), k)
    {
      assert NoneAt(r, k);
      RegisterSlot(r, key, callback, oneShot, onlyCaller, None, k, OnSynchronousComplete);
      RegisterSlot(r, key, callback, oneShot, onlyCaller, None, k, OnOpenOk);
      RegisterSlot(r, key, callback, oneShot, onlyCaller, None, k, OnCloseOk);
      RegisterSlot(r, key, callback, oneShot, onlyCaller, None, k, OnCloseFromBroker);
    }
  }

  lemma AddCloserKeeps(c: Channel, id: nat)
    requires Invariant(c)
    ensures Invariant(AddCloser(c, id))
  {
    hide Shape, SlotsAt, TaskCount, Cleanups, AddTo, Slots;
    AddCloserEntry(c.closers, id);
    var d := AddCloser(c, id);
    if c.state != Closed {
      RegisterOther(c, d, ON_CHANNEL_CLOSE, User(id), false, Some(CHANNEL), None);
    } else if Cleanups(c.todo) == 0 {
      RegisterNone(c.callbacks, ON_CHANNEL_CLOSE, User(id), false, Some(CHANNEL));
    }
  }

  /** Fields that the invariant does not speak of. */
  lemma ConsumersFree(c: Channel, d: Channel)
    requires Invariant(c) && c.state != Opening && c.state != Closing
    requires d == c.(consumers := d.consumers, noAck := d.noAck, cancelled := d.cancelled)
    ensures Invariant(d)
  {
    hide Shape, SlotsAt, TaskCount, Cleanups;
    SlotsOnlyIf(c, d);
  }

  lemma CancelKeeps(c: Channel, tag: string, callback: Option<nat>)
    requires Invariant(c)
    ensures var d := CancelConsumer(c, tag, callback);
            Invariant(d) && d.state == c.state && d.todo == c.todo && d.reason == c.reason
  {
    hide Invariant, Issue, Register, Without;
    if c.state == Open && tag !in c.cancelled && tag in c.consumers {
      var consumers := if callback.None? then Without(c.consumers, tag) else c.consumers;
      var d := c.(cancelled := c.cancelled + {tag}, consumers := consumers);
      ConsumersFree(c, d);
      if callback.Some? {
        RegisterKeeps(d, CANCEL_OK, User(callback.value), true, None);
        d := d.(callbacks := Register(d.callbacks, CANCEL_OK, User(callback.value), true, None, None));
      }
      var r := CancelRequest(tag, callback.Some?);
      assert Shape(r);
      IssueKeeps(d, r, Open);
      assert d.(state := Open) == d;
    }
  }

  lemma {:induction false} CancelAllKeeps(c: Channel, tags: seq<string>)
    requires Invariant(c)
    ensures var d := CancelAll(c, tags); Invariant(d) && d.state == c.state && d.todo == c.todo && d.reason == c.reason
    decreases tags
  {
    hide Invariant, CancelConsumer;
    if tags != [] {
      CancelKeeps(c, tags[0], None);
      CancelAllKeeps(if tags[0] in c.cancelled then c else CancelConsumer(c, tags[0], None), tags[1..]);
    }
  }

  lemma ReasonFree(c: Channel, d: Channel)
    requires Invariant(c) && c.state != Closing && d == c.(reason := d.reason)
    ensures Invariant(d)
  {
    hide Shape, SlotsAt, TaskCount, Cleanups;
    SlotsOnlyIf(c, d);
  }

  /** `close` is accepted in OPENING and OPEN, and then `Channel.Close` is the last call ever issued. */
  lemma CloseKeeps(c: Channel)
    requires Invariant(c)
    ensures var d := CloseByClient(c);
            Invariant(d) && d.todo == c.todo && (d.state == if c.state == Closed then Closed else Closing)
  {
    hide Invariant, CancelAll, Issue;
    if c.state == Open || c.state == Opening {
      var d := c.(reason := Some(ClosedByClient));
      ReasonFree(c, d);
      CancelAllKeeps(d, c.consumers);
      IssueKeeps(CancelAll(d, c.consumers), CLOSE_REQUEST, Closing);
    }
  }

  // ---------- Frames ----------

  lemma {:induction false} TasksCount(called: seq<Callback>, attributes: Attributes, b: Callback)
    ensures TaskCount(Tasks(called, attributes), b) == Count(called, b)
    ensures Cleanups(Tasks(called, attributes)) == 0
  {
    if called != [] {
      var rest := Tasks(called[1..], attributes);
      assert ([Run(called[0], attributes)] + rest)[1..] == rest;
      TasksCount(called[1..], attributes, b);
    }
  }

  /** How a one-shot of the channel's own, alone for its callback, fares when its key is processed. */
  lemma SelectSlot(c: Channel, key: string, attributes: Attributes, b: Callback)
    requires var slot := Slot(c.callbacks, key, b);
             slot == [] || (|slot| == 1 && slot[0] == Entry(b, true, None, slot[0].arguments, 1))
    ensures var slot, d := Slot(c.callbacks, key, b), Select(c, key, attributes);
            var hit := slot != [] && ArgumentsMatch(slot[0].arguments, Some(attributes));
            Slot(d.callbacks, key, b) == (if hit then [] else slot)
            && TaskCount(d.todo, b) == Is(hit) && Cleanups(d.todo) == 0
            && forall k :: k != key ==> ListOf(d.callbacks, k) == ListOf(c.callbacks, k)
  {
    hide ArgumentsMatch, Of, Count, Tasks, UseOneShot;
    var es, slot := ListOf(c.callbacks, key), Slot(c.callbacks, key, b);
    var (called, left) := Process(es, CONNECTION, Some(attributes));
    ProcessOf(es, es, CONNECTION, Some(attributes), b);
    TasksCount(called, attributes, b);
    if slot != [] && ArgumentsMatch(slot[0].arguments, Some(attributes)) {
      SingleUse(slot[0], CONNECTION, Some(attributes));
      assert slot == [slot[0]];
    } else if slot != [] {
      assert slot == [slot[0]] && slot[1..] == [];
    }
  }

  lemma SelectKeepsOpen(c: Channel, key: string, attributes: Attributes)
    requires Invariant(c) && c.todo == [] && key != ON_CHANNEL_CLOSE && c.state != Closed
    ensures Invariant(Select(c, key, attributes))
  {
    hide ArgumentsMatch, Slot, Tasks, Process, Shape, TaskCount, Cleanups, InOrder, CloseIsLast;
    var d := Select(c, key, attributes);
    assert SlotsAt(c, key);
    SelectSlot(c, key, attributes, OnSynchronousComplete);
    SelectSlot(c, key, attributes, OnOpenOk);
    SelectSlot(c, key, attributes, OnCloseOk);
    SelectSlot(c, key, attributes, OnCloseFromBroker);
    EmptyCounts();
    if c.pending.Some? {
      ReplyNotClose(c.pending.value);
    }
    forall k: string
      ensures SlotsAt(d, k)
    {
      assert SlotsAt(c, k);
      if k != key {
        SameSlot(c.callbacks, d.callbacks, k, OnSynchronousComplete);
        SameSlot(c.callbacks, d.callbacks, k, OnOpenOk);
        SameSlot(c.callbacks, d.callbacks, k, OnCloseOk);
        SameSlot(c.callbacks, d.callbacks, k, OnCloseFromBroker);
      }
    }
    assert InOrder(d) by { Retold(c, d); }
    assert CloseIsLast(d) by { ReplyIndependent(c, d); }
  }

  lemma SameSlot(r: Registry, s: Registry, k: string, b: Callback)
    requires ListOf(r, k) == ListOf(s, k)
    ensures Slot(r, k, b) == Slot(s, k, b)
  {
  }

  lemma ReplyNotClose(r: Request)
    requires Shape(r)
    ensures r.reply.Some? ==> r.reply.value.key != CLOSE
    ensures r.callback != Some(OnSynchronousComplete)
  {
  }

  lemma ReplyIndependent(c: Channel, d: Channel)
    requires CloseIsLast(c) && d.state == c.state && d.issued == c.issued
    ensures CloseIsLast(d)
  {
  }

  lemma EmptyCounts()
    ensures forall b: Callback :: TaskCount([], b) == 0
    ensures Cleanups([]) == 0
  {
  }

  lemma SelectKeepsClosed(c: Channel, key: string, attributes: Attributes)
    requires Invariant(c) && c.todo == [] && c.state == Closed
    ensures Invariant(Select(c, key, attributes))
  {
    hide ArgumentsMatch, Of, Tasks, Process, Shape, TaskCount, Cleanups, InOrder;
    var d := Select(c, key, attributes);
    EmptyCounts();
    assert NoneAt(c.callbacks, key);
    SelectSlot(c, key, attributes, OnSynchronousComplete);
    SelectSlot(c, key, attributes, OnOpenOk);
    SelectSlot(c, key, attributes, OnCloseOk);
    SelectSlot(c, key, attributes, OnCloseFromBroker);
    forall k: string
      ensures NoneAt(d.callbacks, k)
    {
      assert NoneAt(c.callbacks, k);
    }
    assert InOrder(d) by { Retold(c, d); }
  }

  lemma SelectKeeps(c: Channel, key: string, attributes: Attributes)
    requires Invariant(c) && c.todo == [] && key != ON_CHANNEL_CLOSE
    ensures Invariant(Select(c, key, attributes))
  {
    hide Invariant, Select;
    if c.state == Closed {
      SelectKeepsClosed(c, key, attributes);
    } else {
      SelectKeepsOpen(c, key, attributes);
    }
  }

  lemma LoseStreamKeeps(c: Channel)
    requires Invariant(c) && c.todo == []
    ensures Invariant(CloseMeta(c, StreamLost)) && CloseMeta(c, StreamLost).state == Closed
  {
    hide Shape, Slots, TaskCount, Cleanups, Transition;
    EmptyCounts();
    if c.state != Closed {
      TransitionKeeps(c.(reason := Some(StreamLost)));
    }
  }

  // ---------- Runs ----------

  lemma StepKeeps(c: Channel, e: Event)
    requires Invariant(c) && Enabled(c, e)
    ensures Invariant(Step(c, e))
  {
    hide Invariant, Issue, CancelConsumer, CloseByClient, AddCloser, Register, Select, RunNext, CloseMeta;
    match e
    case CallMethod(name, callback, reply) =>
      if c.state == Open {
        var r := Request(OtherCall(name), if callback.Some? then Some(User(callback.value)) else None, reply);
        assert Shape(r);
        IssueKeeps(c, r, Open);
        assert c.(state := Open) == c;
      }
    case BasicConsume(tag, autoAck, callback) =>
      if c.state == Open && tag !in c.consumers && tag !in c.cancelled {
        var d := c.(noAck := if autoAck then c.noAck + {tag} else c.noAck, consumers := c.consumers + [tag]);
        ConsumersFree(c, d);
        var r := Request(ConsumeCall(tag), Some(User(callback)),
                         Some(Reply(CONSUME_OK, Some(map[CONSUMER_TAG := tag]))));
        assert Shape(r);
        IssueKeeps(d, r, Open);
        assert d.(state := Open) == d;
      }
    case BasicCancel(tag, callback) => CancelKeeps(c, tag, callback);
    case CloseChannel => CloseKeeps(c);
    case AddOnCloseCallback(callback) => AddCloserKeeps(c, callback);
    case AddCallback(key, callback, oneShot) => RegisterKeeps(c, key, User(callback), oneShot, None);
    case MethodFrame(key, attributes) => SelectKeeps(c, key, attributes);
    case RunTask => RunNextKeeps(c);
    case LoseStream => LoseStreamKeeps(c);
  }

  lemma OfOne(e: Entry, b: Callback)
    ensures Of([e], b) == if e.callback == b then [e] else []
  {
    OfEmpty(b);
    OfCons(e, [], b);
    assert [e] + [] == [e];
  }

  const INITIAL: Registry := map[CANCEL := [Entry(OnCancel, false, None, None, 0)], CLOSE := [ARMED]]

  lemma InitialSlot(key: string, b: Callback)
    requires b != OnCancel
    ensures Slot(INITIAL, key, b) == if key == CLOSE && b == OnCloseFromBroker then [ARMED] else []
  {
    hide Of;
    assert |CANCEL| != |CLOSE|;
    OfEmpty(b);
    OfOne(Entry(OnCancel, false, None, None, 0), b);
    OfOne(ARMED, b);
  }

  lemma StartInvariant()
    ensures Invariant(Start())
  {
    hide Slot, Of, AddTo;
    var c := Channel(Opening, None, [], [], {}, {}, None, INITIAL, [], 0, [], true, false, [OpenCall], [], None, [],
                     [], 0);
    var d := Send(c, OPEN_REQUEST);
    assert d == Start() by { assert [] + [OpenCall] == [OpenCall]; }
    forall key: string
      ensures SlotsAt(c, key)
    {
      InitialSlot(key, OnSynchronousComplete);
      InitialSlot(key, OnOpenOk);
      InitialSlot(key, OnCloseOk);
      InitialSlot(key, OnCloseFromBroker);
    }
    assert Shape(OPEN_REQUEST);
    SendSlots(c, OPEN_REQUEST);
    assert |ON_CHANNEL_CLOSE| != |CLOSE| && |ON_CHANNEL_CLOSE| != |CANCEL|;
    assert Closers(c);
    SendClosers(c, OPEN_REQUEST);
    assert d.sent == [OpenCall] && d.sent + [] + [] == d.issued;
  }

  lemma {:induction false} RunKeeps(c: Channel, es: seq<Event>)
    requires Invariant(c) && Possible(c, es)
    ensures Invariant(Execute(c, es))
    decreases es
  {
    hide Invariant, Step, Enabled;
    if es != [] {
      StepKeeps(c, es[0]);
      RunKeeps(Step(c, es[0]), es[1..]);
    }
  }

  /**
    In every run, until the channel is closed: what was sent followed by what is queued is what was issued, in
    order.
   */
  lemma CallsSerialised(es: seq<Event>)
    requires Possible(Start(), es)
    ensures var c := Execute(Start(), es);
            !c.failed && (c.state != Closed ==> c.issued == c.sent + Calls(c.blocked))
            && (c.blocked != [] ==> c.blocking.Some?)
  {
    hide Shape, SlotsAt, TaskCount, Cleanups, Todo, Closers;
    StartInvariant();
    RunKeeps(Start(), es);
    var c := Execute(Start(), es);
    assert c.state != Closed ==> c.sent + [] == c.sent;
  }

  /**
    While the channel is not closed, it blocks exactly when one `_on_synchronous_complete` is either
    registered, for one call, under the reply that is awaited, or selected and about to be called;
    and there is none anywhere else.
   */
  lemma OneAwaitsReply(es: seq<Event>, key: string)
    requires Possible(Start(), es) && Execute(Start(), es).state != Closed
    ensures var c := Execute(Start(), es);
            Is(c.blocking.Some?) == Is(c.pending.Some?) + TaskCount(c.todo, OnSynchronousComplete)
            && Of(ListOf(c.callbacks, key), OnSynchronousComplete) == Expected(c.pending, key, OnSynchronousComplete)
  {
    hide Shape, TaskCount, Cleanups, InOrder, CloseIsLast, Closers;
    StartInvariant();
    RunKeeps(Start(), es);
    assert SlotsAt(Execute(Start(), es), key);
  }

  /** Once closing, `Channel.Close` is the last call queued, or the queue is empty and it is the last call sent. */
  lemma CloseIsLastCall(es: seq<Event>)
    requires Possible(Start(), es) && Execute(Start(), es).state == Closing
    ensures var c := Execute(Start(), es);
            if c.blocked != [] then c.blocked[|c.blocked| - 1].call == CloseCall && CloseCall !in c.sent
            else c.sent != [] && c.sent[|c.sent| - 1] == CloseCall
  {
    hide Shape, SlotsAt, TaskCount, Cleanups, Todo, Closers;
    StartInvariant();
    RunKeeps(Start(), es);
    var c := Execute(Start(), es);
    QueuedCloseIsLast(c);
    assert c.blocked == [] ==> c.issued == c.sent;
  }

  /** Closing is final: a channel that is closing never opens, late replies included, and a closed one stays closed. */
  lemma NeverReopens(c: Channel, e: Event)
    requires Invariant(c) && Enabled(c, e) && (c.state == Closing || c.state == Closed)
    ensures Step(c, e).state == Closed || (c.state == Closing && Step(c, e).state == Closing)
  {
    hide Invariant, Pump, Issue, Register, Process, CancelAll, CloseFromBroker;
    match e
    case CloseChannel =>
    case RunTask =>
      match c.todo[0] {
        case Cleanup => CleanupKeeps(c);
        case Run(callback, attributes) =>
          match callback {
            case OnSynchronousComplete => SyncKeeps(c, attributes);
            case OnOpenOk => OpenOkKeeps(c, attributes);
            case OnCloseOk => CloseOkKeeps(c, attributes);
            case OnCloseFromBroker => RemoteClose(c, attributes);
            case _ =>
          }
      }
    case LoseStream => LoseStreamKeeps(c);
    case _ =>
  }
}
