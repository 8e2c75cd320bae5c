/**
  The timer as the event loop updates it in place (`_Timer` in select_connection.py). Each method is
  proved to change the fields exactly as the function of the same name in `Timer` says, so that what is
  proved there of every run holds of the object. `live` has the timeouts whose callback is not None; the
  ghost fields are history and are never read.
 */
module TimerObject {
  import opened Bytes
  import opened Heap
  import opened Timer

  class Timers {
    var timeoutHeap: seq<Timeout>
    var live: set<nat>
    var numCancellations: int
    var created: nat
    ghost var fired: seq<Firing>
    ghost var excess: nat

    ghost function View(): State
      reads this
    {
      State(timeoutHeap, live, numCancellations, created, fired, excess)
    }

    constructor ()
      ensures View() == Start
    {
      timeoutHeap, live, numCancellations, created := [], {}, 0, 0;
      fired, excess := [], 0;
    }

    /** `call_later`; a delay below zero, or a deadline below zero, is refused with ValueError. */
    method CallLater(delay: int, now: int) returns (timeout: Option<Timeout>)
      requires Ordered(timeoutHeap)
      modifies this
      ensures timeout.None? <==> delay < 0 || now + delay < 0
      ensures View() == if timeout.None? then old(View()) else Timer.CallLater(old(View()), delay, now)
      ensures timeout.Some? ==> timeout.value == Timeout(old(created), now + delay) && timeout.value.id in live
      ensures Elems(timeoutHeap)
              == if timeout.Some? then old(Elems(timeoutHeap)) + {timeout.value} else old(Elems(timeoutHeap))
    {
      if delay < 0 || now + delay < 0 {
        return None;
      }
      var t := Timeout(created, now + delay);
      created := created + 1;
      live := live + {t.id};
      timeoutHeap := Push(timeoutHeap, t);
      timeout := Some(t);
    }

    method RemoveTimeout(id: nat, ghost running: Option<nat>)
      modifies this
      ensures View() == Timer.RemoveTimeout(old(View()), id, running)
    {
      if id in live {
        live := live - {id};
        numCancellations := numCancellations + 1;
        if running == Some(id) {
          excess := excess + 1;
        }
      }
    }

    method GetRemainingInterval(now: int) returns (interval: Option<nat>)
      ensures interval == RemainingInterval(View(), now)
    {
      if timeoutHeap == [] {
        interval := None;
      } else {
        var left := timeoutHeap[0].deadline - now;
        interval := Some(if left > 0 then left else 0);
      }
    }

    /** Calls the callback of `t`, which does `ops`, and clears it. */
    method Invoke(t: Timeout, ops: seq<Op>, behaviour: Behaviour, ghost now: int)
      requires Ordered(timeoutHeap) && ops == ActionsOf(behaviour, t.id) && AddsAllowed(ops)
      modifies this
      ensures View() == Fire(old(View()), t, behaviour, now)
    {
      ghost var before := View();
      fired := fired + [Firing(t, now)];
      ghost var started := View();
      var i := 0;
      while i < |ops|
        invariant 0 <= i <= |ops| && Ordered(timeoutHeap)
        invariant PerformAll(started, ops, Some(t.id)) == PerformAll(View(), ops[i..], Some(t.id))
      {
        match ops[i] {
          case Add(delay, at) => var _ := CallLater(delay, at);
          case Cancel(id) => RemoveTimeout(id, Some(t.id));
        }
        i := i + 1;
      }
      live := live - {t.id};
    }

    /** The collection of the cancelled timeouts. */
    method Collect()
      modifies this
      ensures View() == CollectGarbage(old(View()))
    {
      if numCancellations >= GC_CANCELLATION_THRESHOLD && numCancellations > |timeoutHeap| / 2 {
        numCancellations, excess := 0, 0;
        var kept: seq<Timeout> := [];
        var i := 0;
        while i < |timeoutHeap|
          invariant 0 <= i <= |timeoutHeap|
          invariant KeepLive(timeoutHeap, live) == kept + KeepLive(timeoutHeap[i..], live)
        {
          var t := timeoutHeap[i];
          if t.id in live {
            assert [t] + KeepLive(timeoutHeap[i + 1..], live) == KeepLive(timeoutHeap[i..], live);
            assert kept + ([t] + KeepLive(timeoutHeap[i + 1..], live))
                   == kept + [t] + KeepLive(timeoutHeap[i + 1..], live);
            kept := kept + [t];
          }
          i := i + 1;
        }
        assert kept == KeepLive(timeoutHeap, live);
        timeoutHeap := Heapify(kept);
      }
    }

    /** Takes the ready timeouts off the heap before any callback runs. */
    method TakeDue(now: int) returns (ready: seq<Timeout>)
      requires Ordered(timeoutHeap) && Distinct(timeoutHeap)
      modifies this
      ensures (View(), ready) == TakeReady(old(View()), now, [])
    {
      hide Ordered, Distinct, TakeReady, Pop;
      ghost var before := View();
      ready := [];
      while timeoutHeap != [] && timeoutHeap[0].deadline <= now
        invariant Ordered(timeoutHeap) && Distinct(timeoutHeap)
        invariant TakeReady(View(), now, ready) == TakeReady(before, now, [])
        decreases |timeoutHeap|
      {
        TakeStep(View(), now, ready);
        var t := timeoutHeap[0];
        timeoutHeap := Pop(timeoutHeap);
        if t.id in live {
          ready := ready + [t];
        } else {
          numCancellations := numCancellations - 1;
        }
      }
      TakeEnd(View(), now, ready);
    }

    method InvokeReady(ready: seq<Timeout>, behaviour: Behaviour, ghost now: int)
      requires Ordered(timeoutHeap) && forall id :: id in behaviour ==> AddsAllowed(behaviour[id])
      modifies this
      ensures View() == FireAll(old(View()), ready, behaviour, now)
    {
      hide Ordered, Fire;
      ghost var taken := View();
      var i := 0;
      while i < |ready|
        invariant 0 <= i <= |ready| && Ordered(timeoutHeap)
        invariant FireAll(taken, ready, behaviour, now) == FireAll(View(), ready[i..], behaviour, now)
      {
        var t := ready[i];
        assert ready[i..][1..] == ready[i + 1..];
        if t.id !in live {
          numCancellations := numCancellations - 1;
        } else {
          var ops := ActionsOf(behaviour, t.id);
          Invoke(t, ops, behaviour, now);
        }
        i := i + 1;
      }
    }

    method ProcessTimeouts(behaviour: Behaviour, now: int)
      requires Ordered(timeoutHeap) && Distinct(timeoutHeap)
      requires forall id :: id in behaviour ==> AddsAllowed(behaviour[id])
      modifies this
      ensures View() == Process(old(View()), behaviour, now)
    {
      if timeoutHeap == [] {
        return;
      }
      hide Ordered, Distinct, TakeReady, FireAll, CollectGarbage;
      var ready := TakeDue(now);
      InvokeReady(ready, behaviour, now);
      Collect();
    }
  }

  lemma TakeStep(s: State, now: int, acc: seq<Timeout>)
    requires Ordered(s.heap) && Distinct(s.heap) && s.heap != [] && s.heap[0].deadline <= now
    ensures TakeReady(s, now, acc) == TakeReady(AfterPop(s), now, TakenAfterPop(s, acc))
  {
  }

  lemma TakeEnd(s: State, now: int, acc: seq<Timeout>)
    requires Ordered(s.heap) && Distinct(s.heap) && (s.heap == [] || s.heap[0].deadline > now)
    ensures TakeReady(s, now, acc) == (s, acc)
  {
  }

  /** Callbacks return normally, so none asks for a deadline below zero. */
  predicate AddsAllowed(ops: seq<Op>) {
    forall i :: 0 <= i < |ops| && ops[i].Add? ==> ops[i].now + ops[i].delay >= 0
  }
}
