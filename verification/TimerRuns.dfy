/** Passes of the timer, and whole runs. */
module TimerRuns {
  import opened Bytes
  import opened Heap
  import opened Timer

  // ---------- A whole pass ----------

  /** The timeouts due at `now`, each once, in deadline order. */
  ghost predicate DueList(s: State, now: int, ready: seq<Timeout>) {
    Elems(ready) == DueLive(s.heap, s.live, now) && Distinct(ready) && InDeadlineOrder(ready)
  }

  function ReadyOf(s: State, now: int): seq<Timeout>
    requires Ordered(s.heap) && Distinct(s.heap)
  {
    TakeReady(s, now, []).1
  }

  lemma AllDue(s: State, ready: seq<Timeout>, now: int)
    requires TakenSoFar(s, ready, now)
    ensures Due(s, ready, now, {}) && InDeadlineOrder(ready)
  {
  }

  lemma PassKeeps(s: State, behaviour: Behaviour, now: int)
    requires Invariant(s)
    ensures Ordered(s.heap) && Distinct(s.heap) && DueList(s, now, ReadyOf(s, now))
    ensures var (taken, ready) := TakeReady(s, now, []);
            var d := FireAll(taken, ready, behaviour, now);
            Invariant(d) && d.fired == s.fired + Firings(Survivors(ready, behaviour, {}), now)
            && NoRevival(s, d) && (SelfCancelFree(behaviour) ==> d.excess == s.excess)
  {
    hide During, Ordered, Distinct, DueLive, Later;
    TakeReadyTakes(s, now, []);
    var (taken, ready) := TakeReady(s, now, []);
    Orders(taken, ready, {});
    AllDue(taken, ready, now);
    FireAllFires(taken, ready, behaviour, now, {});
  }

  lemma {:induction false} IdsCount(ts: seq<Timeout>)
    requires Distinct(ts)
    ensures |Ids(ts)| == |ts|
  {
    if ts == [] {
      assert Ids(ts) == {};
    } else {
      IdsTail(ts);
      IdsCount(ts[1..]);
    }
  }

  lemma DeadComplement(heap: set<nat>, live: set<nat>)
    requires LiveWithin(live, heap, {}, {})
    ensures |heap| == Dead(heap, live) + |live|
  {
    assert heap == (heap - live) + live;
  }

  lemma IdsEmpty()
    ensures Ids([]) == {}
  {
  }

  lemma IdsKept(h: seq<Timeout>, live: set<nat>)
    requires Distinct(h)
    ensures var g := Heapify(KeepLive(h, live));
            (forall t: Timeout :: t in g <==> t in h && t.id in live) && Ids(g) == Ids(h) * live && Distinct(g)
              && Ordered(g)
  {
    KeptDistinct(h, live);
    var kept := KeepLive(h, live);
    var g := Heapify(kept);
    assert forall t :: t in g <==> t in Elems(g);
    assert forall t :: t in kept <==> t in Elems(kept);
    hide Distinct, Ordered;
  }

  lemma BooksKept(heap: set<nat>, live: set<nat>, cancellations: int, excess: nat, next: nat)
    requires Books(heap, {}, {}, live, cancellations, excess) && Apart(heap, {}, {}, next)
    ensures Dead(heap * live, live) == 0 && Books(heap * live, {}, {}, live, 0, 0) && Apart(heap * live, {}, {}, next)
  {
    assert heap * live - live == {} && {} - live == {};
  }

  lemma HistoryKept(fired: seq<Firing>, heap: set<nat>, live: set<nat>, next: nat)
    requires History(fired, heap, {}, next)
    ensures History(fired, heap * live, {}, next)
  {
  }

  lemma DeadOfNothing(live: set<nat>)
    ensures Dead({}, live) == 0
  {
    assert {} - live == {};
  }

  /** The dead entries that a pass may leave behind. */
  ghost predicate FewDead(s: State) {
    Dead(Ids(s.heap), s.live) <= if |s.live| > 1023 then |s.live| else 1023
  }

  /** When the collection runs. */
  lemma CollectNow(s: State)
    requires Invariant(s)
    ensures var d := s.(cancellations := 0, heap := Heapify(KeepLive(s.heap, s.live)), excess := 0);
            Invariant(d) && FewDead(d) && (forall t: Timeout :: t.id in s.live ==> (t in d.heap <==> t in s.heap))
  {
    hide Ordered, Distinct, Ids, Dead, Apart, Books, History, KeepLive, Heapify;
    IdsEmpty();
    IdsKept(s.heap, s.live);
    BooksKept(Ids(s.heap), s.live, s.cancellations, s.excess, s.nextId);
    HistoryKept(s.fired, Ids(s.heap), s.live, s.nextId);
  }

  /** When there is too little to collect. */
  lemma CollectLater(s: State)
    requires Invariant(s) && (s.cancellations < GC_CANCELLATION_THRESHOLD || s.cancellations <= |s.heap| / 2)
    ensures FewDead(s)
  {
    CounterCoversDead(s);
    IdsCount(s.heap);
    IdsEmpty();
    hide Ordered, Distinct, Ids, Dead, Apart, History, LiveWithin;
    DeadComplement(Ids(s.heap), s.live);
  }

  /** Collection keeps every live timeout and the heap order, and leaves few dead entries. */
  lemma CollectKeeps(s: State)
    requires Invariant(s)
    ensures var d := CollectGarbage(s);
            Invariant(d) && FewDead(d) && (forall t: Timeout :: t.id in s.live ==> (t in d.heap <==> t in s.heap))
            && d.live == s.live && d.fired == s.fired && d.nextId == s.nextId && d.excess <= s.excess
  {
    hide Invariant, FewDead, KeepLive, Heapify;
    if s.cancellations >= GC_CANCELLATION_THRESHOLD && s.cancellations > |s.heap| / 2 {
      CollectNow(s);
    } else {
      CollectLater(s);
    }
  }

  lemma EmptyHeap(s: State, now: int)
    requires s.heap == []
    ensures Ordered(s.heap) && Distinct(s.heap) && FewDead(s) && ReadyOf(s, now) == []
    ensures Survivors([], map[], {}) == []
  {
    IdsEmpty();
    DeadOfNothing(s.live);
  }

  /**
    A pass fires, in deadline order, exactly the due and live timeouts that no earlier callback of the
    pass cancelled; timeouts that the callbacks add wait. Few dead entries are left.
   */
  lemma ProcessFires(s: State, behaviour: Behaviour, now: int)
    requires Invariant(s)
    ensures Ordered(s.heap) && Distinct(s.heap) && DueList(s, now, ReadyOf(s, now))
    ensures var d := Process(s, behaviour, now);
            Invariant(d) && FewDead(d) && NoRevival(s, d)
            && d.fired == s.fired + Firings(Survivors(ReadyOf(s, now), behaviour, {}), now)
            && (SelfCancelFree(behaviour) ==> d.excess <= s.excess)
  {
    hide During, Ordered, Distinct, SelfCancelFree, DueList, FewDead, CollectGarbage, FireAll;
    PassKeeps(s, behaviour, now);
    if s.heap == [] {
      EmptyHeap(s, now);
      assert s.fired + [] == s.fired;
    } else {
      hide TakeReady, Survivors, Firings;
      var (taken, ready) := TakeReady(s, now, []);
      CollectKeeps(FireAll(taken, ready, behaviour, now));
    }
  }

  // ---------- Whole runs ----------

  datatype Event = Schedule(delay: nat, at: int) | Remove(id: nat) | Tick(behaviour: Behaviour, at: int)

  function Apply(s: State, e: Event): (r: State)
    requires Invariant(s)
    ensures Invariant(r)
  {
    match e
    case Schedule(delay, at) => CallLaterKeeps(s, delay, at, [], {}); CallLater(s, delay, at)
    case Remove(id) => RemoveKeeps(s, id, [], None); RemoveTimeout(s, id, None)
    case Tick(behaviour, at) => ProcessFires(s, behaviour, at); Process(s, behaviour, at)
  }

  function Run(s: State, es: seq<Event>): (r: State)
    requires Invariant(s)
    ensures Invariant(r)
    decreases es
  {
    if es == [] then s else Run(Apply(s, es[0]), es[1..])
  }

  lemma StartHolds()
    ensures Invariant(Start)
  {
    IdsEmpty();
    DeadOfNothing({});
  }

  /** `d` comes after `s`: what fired since then was live in `s`, or was scheduled since then. */
  ghost predicate FiresOnlyLive(s: State, d: State) {
    NoRevival(s, d) && |s.fired| <= |d.fired| && d.fired[..|s.fired|] == s.fired
    && forall i :: |s.fired| <= i < |d.fired| ==> (d.fired[i].timeout.id in s.live || d.fired[i].timeout.id >= s.nextId)
  }

  lemma {:induction false} SurvivorsAmong(ready: seq<Timeout>, behaviour: Behaviour, cancelled: set<nat>)
    ensures forall t :: t in Survivors(ready, behaviour, cancelled) ==> t in ready
    decreases ready
  {
    if ready != [] {
      SurvivorsAmong(ready[1..], behaviour, cancelled);
      SurvivorsAmong(ready[1..], behaviour, cancelled + CancelsIn(ActionsOf(behaviour, ready[0].id)));
      assert forall t :: t in ready[1..] ==> t in ready;
    }
  }

  lemma {:induction false} FiringsOf(ts: seq<Timeout>, now: int)
    ensures |Firings(ts, now)| == |ts| && forall i :: 0 <= i < |ts| ==> Firings(ts, now)[i].timeout == ts[i]
  {
    if ts != [] {
      FiringsOf(ts[1..], now);
    }
  }

  lemma ApplyFiresOnlyLive(s: State, e: Event)
    requires Invariant(s)
    ensures FiresOnlyLive(s, Apply(s, e))
    ensures (e.Tick? ==> SelfCancelFree(e.behaviour)) ==> Apply(s, e).excess <= s.excess
  {
    hide During, Ordered, Distinct, SelfCancelFree, DueList, Process, ReadyOf, Survivors, Firings, FewDead;
    match e {
      case Schedule(delay, at) =>
      case Remove(id) =>
      case Tick(behaviour, at) =>
        ProcessFires(s, behaviour, at);
        DueAreLive(s, at, ReadyOf(s, at));
        SurvivorsAmong(ReadyOf(s, at), behaviour, {});
        FiringsOf(Survivors(ReadyOf(s, at), behaviour, {}), at);
    }
  }

  lemma DueAreLive(s: State, now: int, ready: seq<Timeout>)
    requires DueList(s, now, ready)
    ensures forall t :: t in ready ==> t.id in s.live
  {
    assert forall t :: t in ready ==> t in Elems(ready);
  }

  /** In a run, a timeout that is not live any more (cancelled or fired) never fires again. */
  lemma {:induction false} NeverAfterCancellation(s: State, es: seq<Event>)
    requires Invariant(s)
    ensures FiresOnlyLive(s, Run(s, es))
    decreases es
  {
    hide During, Apply;
    if es != [] {
      ApplyFiresOnlyLive(s, es[0]);
      NeverAfterCancellation(Apply(s, es[0]), es[1..]);
    }
  }

  function RunFromStart(es: seq<Event>): (r: State)
    ensures Invariant(r)
  {
    StartHolds();
    Run(Start, es)
  }

  /** In every run each timeout fires at most once, and not before its deadline. */
  lemma FiresOnceNotEarly(es: seq<Event>)
    ensures var fired := RunFromStart(es).fired;
            (forall i :: 0 <= i < |fired| ==> fired[i].now >= fired[i].timeout.deadline)
            && (forall i, j :: 0 <= i < j < |fired| ==> fired[i].timeout.id != fired[j].timeout.id)
  {
    hide Shape, Books, RunFromStart;
  }

  /** The dead entries of the heap are never more than the counter says. */
  lemma CounterCoversDead(s: State)
    requires Invariant(s)
    ensures Dead(Ids(s.heap), s.live) + s.excess == s.cancellations
  {
    hide Ordered, Distinct, History, Apart, LiveWithin;
    IdsEmpty();
    DeadOfNothing(s.live);
  }

  /** The counter is exact in every run in which no callback cancels its own running timeout. */
  lemma {:induction false} CounterExactWithoutSelfCancels(s: State, es: seq<Event>)
    requires Invariant(s) && s.excess == 0
    requires forall i :: 0 <= i < |es| && es[i].Tick? ==> SelfCancelFree(es[i].behaviour)
    ensures var d := Run(s, es); d.cancellations == Dead(Ids(d.heap), d.live)
    decreases es
  {
    hide During, Apply, SelfCancelFree, Dead, Ids;
    if es == [] {
      CounterCoversDead(s);
    } else {
      ApplyFiresOnlyLive(s, es[0]);
      CounterExactWithoutSelfCancels(Apply(s, es[0]), es[1..]);
    }
  }

  /**
    The poller's sleep never passes the earliest live deadline, and it sleeps without limit only when nothing is
    live.
   */
  lemma IntervalNeverOvershoots(s: State, now: int)
    requires Invariant(s)
    ensures s.live == {} || RemainingInterval(s, now).Some?
    ensures RemainingInterval(s, now).Some? ==>
              exists t :: t in s.heap
                          && RemainingInterval(s, now).value == if t.deadline > now then t.deadline - now else 0
    ensures forall t :: t in s.heap ==>
              RemainingInterval(s, now).Some? && (RemainingInterval(s, now).value == 0
                                                  || now + RemainingInterval(s, now).value <= t.deadline)
  {
    hide Ordered, Distinct, History, Dead, Apart;
    Orders(s, [], {});
    FirstOfAll(s.heap);
    IdsEmpty();
    if s.heap == [] {
      assert s.live == {};
    } else {
      assert s.heap[0] in s.heap;
    }
  }

  /** Every live timeout is on the heap. */
  lemma LiveIsScheduled(s: State, id: nat)
    requires Invariant(s) && id in s.live
    ensures id in Ids(s.heap)
  {
    IdsEmpty();
    hide Ordered, Distinct, History, Dead, Apart, Ids;
  }
}
