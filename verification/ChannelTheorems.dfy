/**
  What every run of a channel keeps: the invariant over its queue, its one-shots, its tasks and its on-close
  callbacks, and the lemmas that sending, queueing, pumping, closing and draining keep it. `ChannelRuns` puts
  these together for whole runs.
 */
module ChannelTheorems {
  import opened Bytes
  import opened Callbacks
  import opened ChannelModel

  // ---------- The invariant ----------

  function Calls(rs: seq<Request>): (calls: seq<Call>)
    ensures |calls| == |rs|
  {
    if rs == [] then [] else [rs[0].call] + Calls(rs[1..])
  }

  lemma {:induction false} CallsConcat(a: seq<Request>, b: seq<Request>)
    ensures Calls(a + b) == Calls(a) + Calls(b)
  {
    if a == [] {
      assert a + b == b;
    } else {
      assert (a + b)[1..] == a[1..] + b;
      CallsConcat(a[1..], b);
    }
  }

  /** The requests that pika makes: only opening and closing have the channel's own reply handlers for them. */
  predicate Shape(r: Request) {
    (r.callback.Some? ==>
       (r.reply.Some? && r.callback.value != OnSynchronousComplete && r.callback.value != OnCloseFromBroker))
    && (r.reply.Some? ==> r.reply.value.key != CLOSE && r.reply.value.key != ON_CHANNEL_CLOSE)
    && (r.callback == Some(OnOpenOk) || r.call == OpenCall ==> r == OPEN_REQUEST)
    && (r.callback == Some(OnCloseOk) || r.call == CloseCall ==> r == CLOSE_REQUEST)
  }

  /** Nothing that was issued is lost, reordered or repeated. */
  ghost predicate InOrder(c: Channel) {
    c.issued == c.sent + c.dropped + Calls(c.blocked)
    && (c.state != Closed ==> c.dropped == [])
  }

  /** `Channel.Close` is issued by closing only, and is the last call. */
  ghost predicate CloseIsLast(c: Channel) {
    match c.state
    case Closed => true
    case Closing => c.issued != [] && c.issued[|c.issued| - 1] == CloseCall && CloseCall !in c.issued[..|c.issued| - 1]
    case _ => CloseCall !in c.issued
  }

  ghost predicate Requests(c: Channel) {
    (forall r :: r in c.blocked ==> Shape(r) && r.call != OpenCall)
    && (c.pending.Some? ==> Shape(c.pending.value) && c.pending.value.reply.Some?)
    && (c.state == Opening ==> c.blocked == [] && c.consumers == [])
    && (c.state == Closing ==> c.reason.Some?)
  }

  function Slot(r: Registry, key: string, callback: Callback): seq<Entry> {
    Of(ListOf(r, key), callback)
  }

  function Expected(pending: Option<Request>, key: string, callback: Callback): seq<Entry> {
    if pending.Some? && pending.value.reply.Some? && pending.value.reply.value.key == key
       && (callback == OnSynchronousComplete || pending.value.callback == Some(callback))
    then [Entry(callback, true, None, pending.value.reply.value.arguments, 1)]
    else []
  }

  /**
    The channel's own one-shots in the registry: under the reply that is awaited, one
    `_on_synchronous_complete` and the request's handler, each for one call; nothing anywhere else.
   */
  ghost predicate Slots(c: Channel) {
    forall key: string :: SlotsAt(c, key)
  }

  ghost predicate SlotsAt(c: Channel, key: string) {
    Slot(c.callbacks, key, OnSynchronousComplete) == Expected(c.pending, key, OnSynchronousComplete)
    && Slot(c.callbacks, key, OnOpenOk) == Expected(c.pending, key, OnOpenOk)
    && Slot(c.callbacks, key, OnCloseOk) == Expected(c.pending, key, OnCloseOk)
    && (Slot(c.callbacks, key, OnCloseFromBroker) == []
        || (key == CLOSE && Slot(c.callbacks, key, OnCloseFromBroker) == [ARMED]))
  }

  ghost predicate NoneAt(r: Registry, key: string) {
    Slot(r, key, OnSynchronousComplete) == [] && Slot(r, key, OnOpenOk) == []
    && Slot(r, key, OnCloseOk) == [] && Slot(r, key, OnCloseFromBroker) == []
  }

  function Users(ids: seq<nat>): seq<Callback> {
    if ids == [] then [] else [User(ids[0])] + Users(ids[1..])
  }

  function CloserEntries(ids: seq<nat>): seq<Entry> {
    if ids == [] then [] else [Entry(User(ids[0]), false, Some(CHANNEL), None, 0)] + CloserEntries(ids[1..])
  }

  /** The on-close callbacks are called in one go, when the channel becomes closed. */
  ghost predicate Closers(c: Channel) {
    if c.state == Closed then c.transitions == 1 && c.closeRuns == Users(c.closers)
    else c.transitions == 0 && c.closeRuns == [] && ListOf(c.callbacks, ON_CHANNEL_CLOSE) == CloserEntries(c.closers)
  }

  function TaskCount(ts: seq<Task>, callback: Callback): nat {
    if ts == [] then 0 else (if ts[0].Run? && ts[0].callback == callback then 1 else 0) + TaskCount(ts[1..], callback)
  }

  function Cleanups(ts: seq<Task>): nat {
    if ts == [] then 0 else (if ts[0].Cleanup? then 1 else 0) + Cleanups(ts[1..])
  }

  function Is(b: bool): nat { if b then 1 else 0 }

  predicate Awaits(c: Channel, callback: Callback) {
    c.pending.Some? && c.pending.value.callback == Some(callback)
  }

  /** The callbacks selected but not yet called. While blocking, the one-shot is either registered or among them. */
  ghost predicate Todo(c: Channel) {
    var sync, openOks := TaskCount(c.todo, OnSynchronousComplete), TaskCount(c.todo, OnOpenOk);
    var closeOks, remote := TaskCount(c.todo, OnCloseOk), TaskCount(c.todo, OnCloseFromBroker);
    if c.state == Closed then
      openOks == 0 && closeOks == 0 && remote == 0
      && (sync > 0 ==> c.blocked == [])
      && Cleanups(c.todo) <= 1 && (Cleanups(c.todo) == 0 ==> forall key: string :: NoneAt(c.callbacks, key))
    else
      Cleanups(c.todo) == 0
      && sync + Is(c.pending.Some?) == Is(c.blocking.Some?)
      && openOks + Is(Awaits(c, OnOpenOk)) <= 1 && closeOks + Is(Awaits(c, OnCloseOk)) <= 1
      && (openOks > 0 || Awaits(c, OnOpenOk) ==> c.state != Open)
      && (closeOks > 0 || Awaits(c, OnCloseOk) ==> CloseCall in c.sent)
      && openOks + closeOks + remote <= 1 && (remote > 0 ==> sync == 0)
  }

  /** Everything but the link between the queue and `_blocking`, which the drain loop breaks and restores. */
  ghost predicate Core(c: Channel) {
    !c.failed && InOrder(c) && CloseIsLast(c) && Requests(c) && Closers(c) && Todo(c)
      && (c.state != Closed ==> Slots(c))
  }

  ghost predicate Invariant(c: Channel) {
    Core(c) && (c.blocked != [] ==> c.blocking.Some?)
  }

  // ---------- Sending ----------

  lemma RegisterSlot(r: Registry, key: string, callback: Callback, oneShot: bool, onlyCaller: Option<nat>,
                     arguments: Option<Attributes>, k: string, b: Callback)
    ensures Slot(Register(r, key, callback, oneShot, onlyCaller, arguments), k, b)
            == if k == key && b == callback then AddTo(Slot(r, k, b), callback, oneShot, onlyCaller, arguments)
               else Slot(r, k, b)
  {
    AddOf(ListOf(r, key), callback, oneShot, onlyCaller, arguments, b);
  }

  /** An application's callback leaves the channel's own entries alone. */
  lemma RegisterOther(c: Channel, d: Channel, key: string, callback: Callback, oneShot: bool, onlyCaller: Option<nat>,
                      arguments: Option<Attributes>)
    requires Slots(c) && (callback.User? || callback == OnCancelOk)
    requires d.callbacks == Register(c.callbacks, key, callback, oneShot, onlyCaller, arguments)
             && d.pending == c.pending
    ensures Slots(d)
  {
    forall k: string
      ensures SlotsAt(d, k)
    {
      assert SlotsAt(c, k);
      RegisterSlot(c.callbacks, key, callback, oneShot, onlyCaller, arguments, k, OnSynchronousComplete);
      RegisterSlot(c.callbacks, key, callback, oneShot, onlyCaller, arguments, k, OnOpenOk);
      RegisterSlot(c.callbacks, key, callback, oneShot, onlyCaller, arguments, k, OnCloseOk);
      RegisterSlot(c.callbacks, key, callback, oneShot, onlyCaller, arguments, k, OnCloseFromBroker);
    }
  }

  lemma SendSlots(c: Channel, r: Request)
    requires Slots(c) && c.pending.None? && Shape(r)
    ensures Slots(Send(c, r))
  {
    if r.reply.Some? {
      var Reply(key, arguments) := r.reply.value;
      var d := Send(c, r);
      forall k: string
        ensures SlotsAt(d, k)
      {
        assert SlotsAt(c, k);
        SendSlot(c, r, k, OnSynchronousComplete);
        SendSlot(c, r, k, OnOpenOk);
        SendSlot(c, r, k, OnCloseOk);
        SendSlot(c, r, k, OnCloseFromBroker);
      }
    } else {
      SlotsOnly(c, Send(c, r));
    }
  }

  lemma SendSlot(c: Channel, r: Request, k: string, b: Callback)
    requires r.reply.Some? && r.callback != Some(OnSynchronousComplete)
    requires b == OnSynchronousComplete || r.callback == Some(b) ==> Slot(c.callbacks, k, b) == []
    ensures Slot(Send(c, r).callbacks, k, b)
            == if b == OnSynchronousComplete || r.callback == Some(b) then Expected(Some(r), k, b)
              else Slot(c.callbacks, k, b)
  {
    hide AddTo, Of;
    var Reply(key, arguments) := r.reply.value;
    var registry := Register(c.callbacks, key, OnSynchronousComplete, true, None, arguments);
    RegisterSlot(c.callbacks, key, OnSynchronousComplete, true, None, arguments, k, b);
    AddToNothing(b, true, None, arguments);
    if r.callback.Some? {
      RegisterSlot(registry, key, r.callback.value, true, None, arguments, k, b);
    }
  }

  /** What sending the first queued call keeps, conjunct by conjunct. */
  lemma SendOrder(c: Channel, r: Request)
    requires InOrder(c.(blocked := [r] + c.blocked)) && CloseIsLast(c) && c.state != Closed
    ensures InOrder(Send(c, r)) && CloseIsLast(Send(c, r))
  {
    hide Register;
    assert ([r] + c.blocked)[1..] == c.blocked;
    ConcatAssociative(c.sent, [r.call], Calls(c.blocked));
    assert c.dropped == [] && c.sent + [] == c.sent && c.sent + [r.call] + [] == c.sent + [r.call];
  }

  lemma SendRequests(c: Channel, r: Request)
    requires Requests(c.(blocked := [r] + c.blocked)) && c.state != Opening
    ensures Requests(Send(c, r)) && Shape(r) && r.call != OpenCall
  {
    assert r in [r] + c.blocked;
    assert forall q :: q in c.blocked ==> q in [r] + c.blocked;
  }

  lemma SendClosers(c: Channel, r: Request)
    requires Shape(r) && Closers(c)
    ensures Closers(Send(c, r))
  {
  }

  lemma SendTodo(c: Channel, r: Request)
    requires Todo(c) && c.state != Closed && c.blocking.None? && Shape(r) && r.call != OpenCall && CloseCall !in c.sent
    ensures Todo(Send(c, r))
  {
    hide TaskCount, Cleanups, Register;
    assert r.call == CloseCall ==> r.call in c.sent + [r.call];
  }

  lemma SendKeeps(c: Channel, r: Request)
    requires Core(c.(blocked := [r] + c.blocked)) && c.state != Closed && c.state != Opening && c.blocking.None?
    ensures Core(Send(c, r))
    ensures Send(c, r).state == c.state && Send(c, r).todo == c.todo && Send(c, r).blocked == c.blocked
  {
    hide Slots, Shape, InOrder, CloseIsLast, Requests, Closers, Todo, Register;
    var before := c.(blocked := [r] + c.blocked);
    CloseSentOnce(before);
    Unqueued(c, before);
    SendOrder(c, r);
    SendRequests(c, r);
    SendClosers(c, r);
    SendTodo(c, r);
    SlotsOnly(before, c);
    PendingNone(c);
    SendSlots(c, r);
  }

  lemma Unqueued(c: Channel, before: Channel)
    requires before == c.(blocked := before.blocked) && c.state != Closed
    ensures CloseIsLast(before) ==> CloseIsLast(c)
    ensures Closers(before) ==> Closers(c)
    ensures Todo(before) ==> Todo(c)
  {
    hide TaskCount, Cleanups;
  }

  lemma PendingNone(c: Channel)
    requires Todo(c) && c.state != Closed && c.blocking.None?
    ensures c.pending.None?
  {
  }

  lemma SlotsOnly(c: Channel, d: Channel)
    requires Slots(c) && d.callbacks == c.callbacks && d.pending == c.pending
    ensures Slots(d)
  {
    forall k: string
      ensures SlotsAt(d, k)
    {
      assert SlotsAt(c, k);
    }
  }

  /**
    While the channel is not closed, a `Channel.Close` that was sent was the last call: nothing is queued behind
    it.
   */
  lemma CloseSentOnce(c: Channel)
    requires InOrder(c) && CloseIsLast(c) && c.state != Closed
    ensures CloseCall in c.sent ==> c.state == Closing && c.blocked == []
  {
    if c.state == Closing {
      LastOnly(c.issued, CloseCall);
    }
    if CloseCall in c.sent {
      var i :| 0 <= i < |c.sent| && c.sent[i] == CloseCall;
      assert c.issued == c.sent + Calls(c.blocked);
      assert c.issued[i] == CloseCall;
      if c.state == Closing {
        CallsLength(c.blocked);
      }
    }
  }

  lemma LastOnly(calls: seq<Call>, call: Call)
    requires calls != [] && call !in calls[..|calls| - 1]
    ensures forall i :: 0 <= i < |calls| && calls[i] == call ==> i == |calls| - 1
  {
    forall i | 0 <= i < |calls| - 1
      ensures calls[i] != call
    {
      assert calls[..|calls| - 1][i] == calls[i];
    }
  }

  lemma {:induction false} CallsLength(rs: seq<Request>)
    ensures |Calls(rs)| == |rs|
    ensures forall i :: 0 <= i < |rs| ==> Calls(rs)[i] == rs[i].call
  {
    if rs != [] {
      CallsLength(rs[1..]);
    }
  }

  /** The loop of `_on_synchronous_complete` sends queued calls until one of them blocks again. */
  lemma {:induction false} PumpKeeps(c: Channel)
    requires Core(c) && (c.state == Closed ==> c.blocked == [])
    ensures Invariant(Pump(c)) && Pump(c).state == c.state && Pump(c).todo == c.todo
    decreases |c.blocked|
  {
    hide InOrder, CloseIsLast, Closers, Todo, Slots, Shape, Send;
    if c.blocked != [] && c.blocking.None? {
      var r, d := c.blocked[0], c.(blocked := c.blocked[1..]);
      assert d.(blocked := [r] + d.blocked) == c by { assert [r] + c.blocked[1..] == c.blocked; }
      SendKeeps(d, r);
      PumpKeeps(Send(d, r));
    }
  }

  lemma EnqueueOrder(c: Channel, r: Request, to: State)
    requires InOrder(c) && CloseIsLast(c) && (c.state == Open || c.state == Opening)
    requires (to == Open && r.call != CloseCall) || (to == Closing && r.call == CloseCall)
    ensures var d := c.(state := to, issued := c.issued + [r.call], blocked := c.blocked + [r]);
            InOrder(d) && CloseIsLast(d)
  {
    CallsConcat(c.blocked, [r]);
    assert [r][1..] == [] && Calls([r]) == [r.call];
    assert c.sent + [] == c.sent;
    ConcatAssociative(c.sent, Calls(c.blocked), [r.call]);
    assert (c.issued + [r.call])[..|c.issued|] == c.issued;
  }

  lemma EnqueueTodo(c: Channel, r: Request, to: State)
    requires Todo(c) && Closers(c) && (c.state == Open || c.state == Opening)
    requires (to == Open == c.state) || to == Closing
    ensures var d := c.(state := to, issued := c.issued + [r.call], blocked := c.blocked + [r]); Todo(d) && Closers(d)
  {
    hide TaskCount, Cleanups;
  }

  /** A call joins the queue, perhaps with the change of state that `close` makes. */
  lemma EnqueueKeeps(c: Channel, r: Request, to: State)
    requires Invariant(c) && Shape(r) && r.call != OpenCall && (c.state == Open || c.state == Opening)
    requires (to == Open == c.state && r.call != CloseCall) || (to == Closing && r == CLOSE_REQUEST && c.reason.Some?)
    ensures Core(c.(state := to, issued := c.issued + [r.call], blocked := c.blocked + [r]))
  {
    hide Shape, InOrder, CloseIsLast, Closers, Todo, Slots;
    EnqueueOrder(c, r, to);
    EnqueueTodo(c, r, to);
    SlotsOnly(c, c.(state := to, issued := c.issued + [r.call], blocked := c.blocked + [r]));
  }

  /** A call is sent at once or queued. */
  lemma IssueKeeps(c: Channel, r: Request, to: State)
    requires Invariant(c) && Shape(r) && r.call != OpenCall && (c.state == Open || c.state == Opening)
    requires (to == Open == c.state && r.call != CloseCall) || (to == Closing && r == CLOSE_REQUEST && c.reason.Some?)
    ensures var d := Issue(c.(state := to), r);
            Invariant(d) && d.state == to && d.todo == c.todo && d.consumers == c.consumers
              && d.cancelled == c.cancelled
            && d.reason == c.reason
  {
    hide Shape, InOrder, CloseIsLast, Requests, Closers, Todo, Slots, Register;
    EnqueueKeeps(c, r, to);
    if c.blocking.None? {
      var e := c.(state := to, issued := c.issued + [r.call]);
      assert c.blocked == [] && [r] + [] == [r] == [] + [r];
      assert e.(blocked := [r] + e.blocked)
             == c.(state := to, issued := c.issued + [r.call], blocked := c.blocked + [r]);
      SendKeeps(e, r);
    }
  }

  // ---------- Closing ----------

  lemma {:induction false} ProcessClosers(ids: seq<nat>, live: seq<Entry>)
    ensures Collect(CloserEntries(ids), live, CHANNEL, Some(map[])) == (Users(ids), live)
  {
    if ids != [] {
      var e, rest := Entry(User(ids[0]), false, Some(CHANNEL), None, 0), CloserEntries(ids[1..]);
      assert CloserEntries(ids)[1..] == rest;
      ProcessClosers(ids[1..], live);
    }
  }

  lemma {:induction false} AddCloserEntry(ids: seq<nat>, id: nat)
    ensures AddTo(CloserEntries(ids), User(id), false, Some(CHANNEL), None)
            == CloserEntries(if id in ids then ids else ids + [id])
  {
    if ids == [] {
      assert [] + [id] == [id] && [id][1..] == [];
      assert CloserEntries([]) == [];
      AddToNothing(User(id), false, Some(CHANNEL), None);
    } else {
      assert CloserEntries(ids)[1..] == CloserEntries(ids[1..]);
      AddCloserEntry(ids[1..], id);
      assert ids[0] != id ==> (id in ids <==> id in ids[1..]);
      assert (ids + [id])[1..] == ids[1..] + [id];
    }
  }

  lemma {:induction false} UsersInternal(ids: seq<nat>, attributes: Attributes, c: Callback)
    requires !c.User?
    ensures TaskCount(Tasks(Users(ids), attributes), c) == 0 && Cleanups(Tasks(Users(ids), attributes)) == 0
  {
    if ids != [] {
      var rest := Tasks(Users(ids[1..]), attributes);
      assert Users(ids)[1..] == Users(ids[1..]);
      assert Tasks(Users(ids), attributes) == [Run(User(ids[0]), attributes)] + rest;
      assert ([Run(User(ids[0]), attributes)] + rest)[1..] == rest;
      UsersInternal(ids[1..], attributes, c);
    }
  }

  lemma {:induction false} TaskCountConcat(a: seq<Task>, b: seq<Task>, c: Callback)
    ensures TaskCount(a + b, c) == TaskCount(a, c) + TaskCount(b, c)
    ensures Cleanups(a + b) == Cleanups(a) + Cleanups(b)
  {
    if a == [] {
      assert a + b == b;
    } else {
      assert (a + b)[1..] == a[1..] + b;
      TaskCountConcat(a[1..], b, c);
    }
  }

  lemma ClosingTasks(ids: seq<nat>, rest: seq<Task>, c: Callback)
    requires !c.User?
    ensures var ts := Tasks(Users(ids), map[]) + [Cleanup] + rest;
            TaskCount(ts, c) == TaskCount(rest, c) && Cleanups(ts) == 1 + Cleanups(rest)
  {
    var own := Tasks(Users(ids), map[]);
    UsersInternal(ids, map[], c);
    TaskCountConcat(own + [Cleanup], rest, c);
    TaskCountConcat(own, [Cleanup], c);
    assert [Cleanup][1..] == [];
  }

  /** No internal one-shot other than `_on_synchronous_complete` is left to be called, and that has nothing to do. */
  predicate Quiet(c: Channel) {
    TaskCount(c.todo, OnOpenOk) == 0 && TaskCount(c.todo, OnCloseOk) == 0 && TaskCount(c.todo, OnCloseFromBroker) == 0
    && Cleanups(c.todo) == 0
    && (TaskCount(c.todo, OnSynchronousComplete) > 0 ==> c.blocked == [])
  }

  /** Closing calls every registered on-close callback, once, and then cleans up. */
  lemma TransitionKeeps(c: Channel)
    requires c.state != Closed && c.reason.Some? && !c.failed && Closers(c) && Quiet(c)
    requires c.issued == c.sent + c.dropped + Calls(c.blocked)
    requires forall r :: r in c.blocked ==> Shape(r) && r.call != OpenCall
    requires c.pending.Some? ==> Shape(c.pending.value) && c.pending.value.reply.Some?
    ensures var d := Transition(c);
            Core(d) && d.state == Closed && d.closeRuns == Users(c.closers) && d.reason == c.reason
            && d.blocked == c.blocked && d.blocking == c.blocking
            && d.todo == Tasks(Users(c.closers), map[]) + [Cleanup] + c.todo
  {
    hide Shape, TaskCount, Cleanups, Tasks, Collect;
    ProcessClosers(c.closers, CloserEntries(c.closers));
    ClosingTasks(c.closers, c.todo, OnOpenOk);
    ClosingTasks(c.closers, c.todo, OnCloseOk);
    ClosingTasks(c.closers, c.todo, OnCloseFromBroker);
    ClosingTasks(c.closers, c.todo, OnSynchronousComplete);
    assert [] + Users(c.closers) == Users(c.closers);
  }

  /**
    Draining on a remote close while the client is closing: with `Channel.Close` at the end of the
    queue the channel closes at once; with the queue empty, it was sent and its reply is awaited.
   */
  lemma {:induction false} DrainEffect(c: Channel)
    requires c.state == Closing && c.reason.Some?
    requires c.blocked != [] ==> c.blocked[|c.blocked| - 1].call == CloseCall
    requires CloseCall !in Calls(c.blocked)[..if |c.blocked| == 0 then 0 else |c.blocked| - 1]
    ensures Drain(c)
            == if c.blocked == [] then c
               else Transition(c.(blocked := [], dropped := c.dropped + Calls(c.blocked)))
    decreases |c.blocked|
  {
    hide Transition;
    if c.blocked != [] {
      var call, rest := c.blocked[0].call, c.blocked[1..];
      var d := c.(blocked := rest, dropped := c.dropped + [call]);
      CallsLength(c.blocked);
      CallsLength(rest);
      ConcatAssociative(c.dropped, [call], Calls(rest));
      if rest == [] {
        assert Calls(c.blocked) == [call] && c.dropped + [call] == c.dropped + Calls(c.blocked);
        assert c.(reason := Some(c.reason.value)) == c;
        DrainNothing(d);
      } else {
        assert Calls(c.blocked)[..|c.blocked| - 1][0] == call;
        assert Calls(rest)[..|rest| - 1] == Calls(c.blocked)[..|c.blocked| - 1][1..];
        DrainEffect(d);
      }
    }
  }

  lemma DrainNothing(d: Channel)
    requires d.blocked == [] && d.reason.Some? && d.state == Closing
    ensures CloseMeta(d, d.reason.value) == Transition(d)
    ensures Drain(Transition(d)) == Transition(d)
  {
    assert d.(reason := Some(d.reason.value)) == d;
    assert Transition(d).blocked == [];
  }
}
