/** The on-close callbacks, as they are called. */
module ChannelClosing {
  import opened Bytes
  import opened Callbacks
  import opened ChannelModel
  import opened ChannelTheorems
  import opened ChannelRuns

  /** The on-close callbacks still to be called: those before the clean-up, if it is still to come. */
  function Outstanding(todo: seq<Task>): seq<Callback> {
    if todo == [] || todo[0].Cleanup? || Cleanups(todo) == 0 then [] else [todo[0].callback] + Outstanding(todo[1..])
  }

  /** The on-close callback that the event calls, if it does. */
  function CalledBy(c: Channel, e: Event): seq<Callback> {
    if e.RunTask? && c.todo != [] && c.todo[0].Run? && Cleanups(c.todo) > 0 then [c.todo[0].callback] else []
  }

  /** The on-close callbacks called in the course of a run. */
  function CalledIn(c: Channel, es: seq<Event>): seq<Callback>
    requires Possible(c, es)
    decreases es
  {
    if es == [] then [] else CalledBy(c, es[0]) + CalledIn(Step(c, es[0]), es[1..])
  }

  lemma {:induction false} OutstandingTasks(called: seq<Callback>, rest: seq<Task>)
    ensures Outstanding(Tasks(called, map[]) + [Cleanup] + rest) == called
    ensures Cleanups(Tasks(called, map[]) + [Cleanup] + rest) >= 1
  {
    var todo := Tasks(called, map[]) + [Cleanup] + rest;
    if called == [] {
      assert todo[0] == Cleanup;
    } else {
      OutstandingTasks(called[1..], rest);
      assert todo[1..] == Tasks(called[1..], map[]) + [Cleanup] + rest;
      assert [called[0]] + called[1..] == called;
    }
  }

  lemma {:induction false} NothingOutstanding(todo: seq<Task>)
    requires Cleanups(todo) == 0
    ensures Outstanding(todo) == []
  {
  }

  // ---------- Becoming closed ----------

  /** If `d` has closed `c`, it is about to call the callbacks that were selected, and then to clean up. */
  ghost predicate Announces(c: Channel, d: Channel) {
    c.state != Closed && d.state == Closed && c.closeRuns == [] && !d.failed ==>
      d.todo == Tasks(d.closeRuns, map[]) + [Cleanup] + c.todo
  }

  lemma TransitionAnnounces(c: Channel)
    ensures Announces(c, Transition(c))
  {
    var (called, _) := Process(ListOf(c.callbacks, ON_CHANNEL_CLOSE), CHANNEL, Some(map[]));
    assert [] + called == called;
  }

  lemma {:induction false} DrainClosed(c: Channel)
    requires c.state == Closed && c.reason.Some?
    ensures Drain(c).state == Closed && Drain(c).todo == c.todo && Drain(c).closeRuns == c.closeRuns
            && Drain(c).failed == c.failed
    decreases |c.blocked|
  {
    if c.blocked != [] {
      DrainClosed(c.(blocked := c.blocked[1..], dropped := c.dropped + [c.blocked[0].call]));
    }
  }

  lemma {:induction false} DrainAnnounces(c: Channel)
    requires c.reason.Some?
    ensures Announces(c, Drain(c))
    decreases |c.blocked|
  {
    if c.blocked != [] && c.state != Closed {
      var d := c.(blocked := c.blocked[1..], dropped := c.dropped + [c.blocked[0].call]);
      if c.blocked[0].call == CloseCall {
        assert d.(reason := Some(d.reason.value)) == d;
        TransitionAnnounces(d);
        DrainClosed(Transition(d));
        hide Transition;
      } else {
        hide Transition;
        DrainAnnounces(d);
      }
    }
  }

  lemma RunNextAnnounces(c: Channel)
    requires Invariant(c) && c.todo != [] && c.state != Closed && RunNext(c).state == Closed
    ensures Announces(c.(todo := c.todo[1..]), RunNext(c))
  {
    var rest := c.(todo := c.todo[1..]);
    match c.todo[0] {
      case Cleanup => CleanupKeeps(c);
      case Run(callback, attributes) =>
        match callback {
          case OnSynchronousComplete => SyncKeeps(c, attributes);
          case OnOpenOk => OpenOkKeeps(c, attributes);
          case OnCloseOk => TransitionAnnounces(rest);
          case OnCloseFromBroker =>
            var d := rest.(closeOksSent := rest.closeOksSent + 1, reason := Some(ClosedByBroker));
            DrainAnnounces(d);
            TransitionAnnounces(d);
          case _ =>
        }
    }
    hide Invariant, Transition, Drain, Pump;
  }

  /** The step that closes the channel. */
  lemma StepCloses(c: Channel, e: Event)
    requires Invariant(c) && Enabled(c, e) && c.state != Closed && Step(c, e).state == Closed
    ensures Outstanding(Step(c, e).todo) == Step(c, e).closeRuns
  {
    StepKeeps(c, e);
    StaysClear(c);
    Clear(Step(c, e));
    hide Invariant, Issue, Register, Transition, RunNext, Select, CancelConsumer, CloseByClient, AddCloser;
    var d := Step(c, e);
    match e {
      case RunTask =>
        RunNextAnnounces(c);
        OutstandingTasks(d.closeRuns, c.todo[1..]);
      case LoseStream =>
        TransitionAnnounces(c.(reason := Some(StreamLost)));
        OutstandingTasks(d.closeRuns, c.todo);
      case _ => OtherwiseOpen(c, e);
    }
  }

  /** What the invariant says of an open channel's callbacks. */
  lemma StaysClear(c: Channel)
    requires Invariant(c) && c.state != Closed
    ensures c.closeRuns == [] && Cleanups(c.todo) == 0
  {
    hide InOrder, CloseIsLast, Requests, Slots, TaskCount, Cleanups;
  }

  lemma Clear(c: Channel)
    requires Invariant(c)
    ensures !c.failed && (c.state == Closed ==> c.closeRuns == Users(c.closers) && Cleanups(c.todo) <= 1)
  {
    hide InOrder, CloseIsLast, Requests, Slots, TaskCount, Cleanups, NoneAt;
  }

  /** No other event closes the channel. */
  lemma OtherwiseOpen(c: Channel, e: Event)
    requires Invariant(c) && Enabled(c, e) && c.state != Closed && !e.RunTask? && !e.LoseStream?
    ensures Step(c, e).state != Closed
  {
    hide Invariant, Register, Process, CancelAll;
    match e {
      case BasicCancel(tag, callback) => CancelKeeps(c, tag, callback);
      case CloseChannel => CloseKeeps(c);
      case _ =>
    }
  }

  // ---------- While closed ----------

  lemma CleanupsPop(todo: seq<Task>)
    requires todo != [] && todo[0].Run?
    ensures Outstanding(todo)
            == if Cleanups(todo) == 0 then [] else [todo[0].callback] + Outstanding(todo[1..])
    ensures Cleanups(todo) == Cleanups(todo[1..])
  {
  }

  /** Calling a callback of a closed channel changes nothing about what is still to be called. */
  lemma ClosedRunNext(c: Channel)
    requires Invariant(c) && c.todo != [] && c.state == Closed
    ensures RunNext(c).todo == c.todo[1..] && RunNext(c).state == Closed && RunNext(c).closeRuns == c.closeRuns
  {
    match c.todo[0] {
      case Cleanup =>
      case Run(callback, attributes) =>
        ClosedTask(c, callback);
        match callback {
          case OnSynchronousComplete => NothingToPump(c.(todo := c.todo[1..], blocking := None));
          case _ =>
        }
    }
    hide Invariant, Pump, CloseFromBroker, Transition;
  }

  lemma NothingToPump(c: Channel)
    ensures c.blocked == [] ==> Pump(c) == c
  {
  }

  lemma ClosedTask(c: Channel, callback: Callback)
    requires Invariant(c) && c.todo != [] && c.state == Closed && c.todo[0].Run? && c.todo[0].callback == callback
    ensures callback != OnOpenOk && callback != OnCloseOk && callback != OnCloseFromBroker
    ensures callback == OnSynchronousComplete ==> c.blocked == []
  {
    hide InOrder, CloseIsLast, Requests, Slots, Closers, NoneAt, Cleanups;
  }

  lemma {:induction false} NoCleanupSelected(called: seq<Callback>, attributes: Attributes)
    ensures Cleanups(Tasks(called, attributes)) == 0
  {
    if called != [] {
      NoCleanupSelected(called[1..], attributes);
      assert ([Run(called[0], attributes)] + Tasks(called[1..], attributes))[1..] == Tasks(called[1..], attributes);
    }
  }

  /** A step of a closed channel calls the next on-close callback, or leaves those still to be called alone. */
  lemma StepWhileClosed(c: Channel, e: Event)
    requires Invariant(c) && Enabled(c, e) && c.state == Closed
    ensures Step(c, e).state == Closed && Step(c, e).closeRuns == c.closeRuns
    ensures CalledBy(c, e) + Outstanding(Step(c, e).todo) == Outstanding(c.todo)
  {
    Clear(c);
    hide Invariant, Register, Process, RunNext, Collect;
    match e {
      case RunTask =>
        ClosedRunNext(c);
        if c.todo[0].Run? {
          CleanupsPop(c.todo);
          if Cleanups(c.todo) == 0 {
            NothingOutstanding(c.todo[1..]);
          }
        } else {
          NothingOutstanding(c.todo[1..]);
        }
      case MethodFrame(key, attributes) =>
        var (called, _) := Process(ListOf(c.callbacks, key), CONNECTION, Some(attributes));
        NoCleanupSelected(called, attributes);
        NothingOutstanding(Tasks(called, attributes));
      case _ =>
    }
  }

  /** In every run, the on-close callbacks called and those still to be called are those selected on closing. */
  lemma {:induction false} CalledOrOutstanding(c: Channel, es: seq<Event>)
    requires Invariant(c) && Possible(c, es)
    ensures var d := Execute(c, es);
            CalledIn(c, es) + Outstanding(d.todo)
            == Outstanding(c.todo) + if c.state != Closed && d.state == Closed then d.closeRuns else []
    ensures c.state == Closed ==> Execute(c, es).closeRuns == c.closeRuns && Execute(c, es).state == Closed
    decreases es
  {
    if es == [] {
      assert [] + Outstanding(c.todo) == Outstanding(c.todo) + [];
    } else {
      var e, d := es[0], Step(c, es[0]);
      StepKeeps(c, e);
      CalledOrOutstanding(d, es[1..]);
      if c.state == Closed {
        StepWhileClosed(c, e);
      } else {
        StaysClear(c);
        NothingOutstanding(c.todo);
        if d.state == Closed {
          StepCloses(c, e);
        } else {
          StaysClear(d);
          NothingOutstanding(d.todo);
        }
      }
      hide Invariant, Step, Enabled, Outstanding, CalledIn;
      CalledInStep(c, es);
      ConcatAssociative(CalledBy(c, e), CalledIn(d, es[1..]), Outstanding(Execute(c, es).todo));
    }
  }

  lemma CalledInStep(c: Channel, es: seq<Event>)
    requires Possible(c, es) && es != []
    ensures CalledIn(c, es) == CalledBy(c, es[0]) + CalledIn(Step(c, es[0]), es[1..])
  {
  }

  /**
    On every path to CLOSED the callbacks registered for it are called exactly once, all of them, in the order
    of registration: those that have been called followed by those still to be called are those registered.
    Before that none is called, and once the channel has been cleaned up all have been.
   */
  lemma OnCloseCalledOnce(es: seq<Event>)
    requires Possible(Start(), es)
    ensures var c := Execute(Start(), es);
            if c.state == Closed
            then c.transitions == 1 && c.closeRuns == Users(c.closers)
                 && CalledIn(Start(), es) + Outstanding(c.todo) == Users(c.closers)
                 && (c.todo == [] ==> CalledIn(Start(), es) == Users(c.closers))
            else c.transitions == 0 && c.closeRuns == [] && CalledIn(Start(), es) == []
  {
    StartInvariant();
    RunKeeps(Start(), es);
    var c := Execute(Start(), es);
    CalledOrOutstanding(Start(), es);
    hide Shape, SlotsAt, TaskCount, Cleanups, Todo, InOrder, CloseIsLast, Requests, Slots, Execute, CalledIn, Possible;
    assert Start().todo == [] && Start().state != Closed;
    assert [] + c.closeRuns == c.closeRuns;
    assert CalledIn(Start(), es) + [] == CalledIn(Start(), es);
  }
}
