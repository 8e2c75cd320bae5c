/** When timeouts fire, by what was asked for. */
module TimerRequests {
  import opened Bytes
  import opened Heap
  import opened Timer
  import opened TimerRuns

  /** A call of `call_later`: when it was made, and the delay asked for. */
  datatype Asked = Asked(at: int, delay: nat)

  /** The calls of `call_later` among a callback's actions. */
  function AskedIn(ops: seq<Op>): seq<Asked> {
    if ops == [] then []
    else (match ops[0] case Add(delay, now) => [Asked(now, delay)] case Cancel(_) => []) + AskedIn(ops[1..])
  }

  function AskedInAll(ts: seq<Timeout>, behaviour: Behaviour): seq<Asked> {
    if ts == [] then [] else AskedIn(ActionsOf(behaviour, ts[0].id)) + AskedInAll(ts[1..], behaviour)
  }

  /** The calls of `call_later` in an event, those of the callbacks of a pass included. */
  function AskedAt(s: State, e: Event): seq<Asked>
    requires Invariant(s)
  {
    match e
    case Schedule(delay, at) => [Asked(at, delay)]
    case Remove(_) => []
    case Tick(behaviour, at) =>
      ProcessFires(s, behaviour, at);
      AskedInAll(Survivors(ReadyOf(s, at), behaviour, {}), behaviour)
  }

  function AskedDuring(s: State, es: seq<Event>): seq<Asked>
    requires Invariant(s)
    decreases es
  {
    if es == [] then [] else AskedAt(s, es[0]) + AskedDuring(Apply(s, es[0]), es[1..])
  }

  /** The timeout is the answer to the call that has its number. */
  predicate Answers(t: Timeout, asked: seq<Asked>) {
    t.id < |asked| && t.deadline == asked[t.id].at + asked[t.id].delay
  }

  ghost predicate Answered(s: State, ready: seq<Timeout>, asked: seq<Asked>) {
    |asked| == s.nextId
    && (forall t :: t in s.heap ==> Answers(t, asked))
    && (forall t :: t in ready ==> Answers(t, asked))
    && forall i :: 0 <= i < |s.fired| ==> Answers(s.fired[i].timeout, asked)
  }

  lemma CallLaterAnswers(s: State, delay: nat, now: int, ready: seq<Timeout>, asked: seq<Asked>)
    requires Ordered(s.heap) && Answered(s, ready, asked)
    ensures Answered(CallLater(s, delay, now), ready, asked + [Asked(now, delay)])
  {
    var d := CallLater(s, delay, now);
    assert forall t :: t in d.heap <==> t in Elems(d.heap);
    assert forall t :: t in s.heap <==> t in Elems(s.heap);
    hide Ordered, Push;
  }

  lemma {:induction false} PerformAllAnswers(s: State, ops: seq<Op>, running: nat, ready: seq<Timeout>,
                                             asked: seq<Asked>)
    requires Ordered(s.heap) && Answered(s, ready, asked)
    ensures Answered(PerformAll(s, ops, Some(running)), ready, asked + AskedIn(ops))
    decreases ops
  {
    hide Ordered, Answered;
    if ops == [] {
      assert asked + [] == asked;
    } else {
      var d := Perform(s, ops[0], Some(running));
      match ops[0] {
        case Add(delay, now) =>
          CallLaterAnswers(s, delay, now, ready, asked);
          PerformAllAnswers(d, ops[1..], running, ready, asked + [Asked(now, delay)]);
          ConcatAssociative(asked, [Asked(now, delay)], AskedIn(ops[1..]));
        case Cancel(id) =>
          assert Answered(d, ready, asked) by { SameAnswers(s, d, ready, asked); }
          PerformAllAnswers(d, ops[1..], running, ready, asked);
          assert [] + AskedIn(ops[1..]) == AskedIn(ops[1..]);
      }
    }
  }

  lemma SameAnswers(s: State, d: State, ready: seq<Timeout>, asked: seq<Asked>)
    requires Answered(s, ready, asked) && d.heap == s.heap && d.fired == s.fired && d.nextId == s.nextId
    ensures Answered(d, ready, asked)
  {
  }

  lemma StartAnswers(s: State, ready: seq<Timeout>, now: int, asked: seq<Asked>)
    requires Answered(s, ready, asked) && ready != []
    ensures Answered(s.(fired := s.fired + [Firing(ready[0], now)]), ready[1..], asked)
    ensures Answered(s.(cancellations := s.cancellations - 1), ready[1..], asked)
  {
    hide Answers;
    assert ready[0] in ready;
    assert forall t :: t in ready[1..] ==> t in ready;
  }

  lemma FireAnswers(s: State, ready: seq<Timeout>, behaviour: Behaviour, now: int, asked: seq<Asked>)
    requires Ordered(s.heap) && Answered(s, ready, asked) && ready != []
    ensures Answered(Fire(s, ready[0], behaviour, now), ready[1..], asked + AskedIn(ActionsOf(behaviour, ready[0].id)))
  {
    hide Ordered, Answered, PerformAll, AskedIn, ActionsOf;
    var t := ready[0];
    StartAnswers(s, ready, now, asked);
    var started := s.(fired := s.fired + [Firing(t, now)]);
    PerformAllAnswers(started, ActionsOf(behaviour, t.id), t.id, ready[1..], asked);
    SameAnswers(PerformAll(started, ActionsOf(behaviour, t.id), Some(t.id)), Fire(s, t, behaviour, now), ready[1..],
                asked + AskedIn(ActionsOf(behaviour, t.id)));
  }

  lemma {:induction false} FireAllAnswers(s: State, ready: seq<Timeout>, behaviour: Behaviour, now: int,
                                          cancelled: set<nat>, asked: seq<Asked>)
    requires During(s, ready, {}) && Due(s, ready, now, cancelled) && Answered(s, ready, asked)
    ensures Ordered(s.heap)
    ensures Answered(FireAll(s, ready, behaviour, now), [],
                     asked + AskedInAll(Survivors(ready, behaviour, cancelled), behaviour))
    decreases ready
  {
    hide During, Due, CancelsIn, ActionsOf, Ordered, Answered, AskedIn;
    Orders(s, ready, {});
    if ready == [] {
      assert asked + [] == asked;
    } else {
      hide Fire;
      var t, rest := ready[0], ready[1..];
      FirstLive(s, ready, now, cancelled);
      if t.id !in s.live {
        DueAfterSkip(s, ready, now, cancelled);
        StartAnswers(s, ready, now, asked);
        FireAllAnswers(s.(cancellations := s.cancellations - 1), rest, behaviour, now, cancelled, asked);
      } else {
        DueAfterFire(s, ready, behaviour, now, cancelled);
        var next, own := cancelled + CancelsIn(ActionsOf(behaviour, t.id)), AskedIn(ActionsOf(behaviour, t.id));
        FireAnswers(s, ready, behaviour, now, asked);
        FireAllAnswers(Fire(s, t, behaviour, now), rest, behaviour, now, next, asked + own);
        AskedCons(t, Survivors(rest, behaviour, next), behaviour);
        ConcatAssociative(asked, own, AskedInAll(Survivors(rest, behaviour, next), behaviour));
      }
    }
  }

  lemma AskedCons(t: Timeout, rest: seq<Timeout>, behaviour: Behaviour)
    ensures AskedInAll([t] + rest, behaviour) == AskedIn(ActionsOf(behaviour, t.id)) + AskedInAll(rest, behaviour)
  {
    assert ([t] + rest)[1..] == rest;
  }

  lemma {:induction false} TakeReadyAnswers(s: State, now: int, acc: seq<Timeout>, asked: seq<Asked>)
    requires Ordered(s.heap) && Distinct(s.heap) && Answered(s, acc, asked)
    ensures Answered(TakeReady(s, now, acc).0, TakeReady(s, now, acc).1, asked)
    decreases |s.heap|
  {
    hide Ordered, Distinct, Answers, Pop;
    if s.heap != [] && s.heap[0].deadline <= now {
      var t, rest := s.heap[0], Pop(s.heap);
      assert t in s.heap;
      assert forall u :: u in rest <==> u in Elems(rest);
      assert forall u :: u in s.heap <==> u in Elems(s.heap);
      if t.id in s.live {
        TakeReadyAnswers(s.(heap := rest), now, acc + [t], asked);
      } else {
        TakeReadyAnswers(s.(heap := rest, cancellations := s.cancellations - 1), now, acc, asked);
      }
    }
  }

  lemma CollectAnswers(s: State, asked: seq<Asked>)
    requires Distinct(s.heap) && Answered(s, [], asked)
    ensures Answered(CollectGarbage(s), [], asked)
  {
    hide Distinct, Answers, Heapify, KeepLive;
    IdsKept(s.heap, s.live);
  }

  lemma ApplyAnswers(s: State, e: Event, asked: seq<Asked>)
    requires Invariant(s) && Answered(s, [], asked)
    ensures Answered(Apply(s, e), [], asked + AskedAt(s, e))
  {
    hide During, Answered, TakeReady, FireAll, CollectGarbage, Survivors, AskedInAll;
    Orders(s, [], {});
    match e {
      case Schedule(delay, at) => CallLaterAnswers(s, delay, at, [], asked);
      case Remove(id) =>
        SameAnswers(s, Apply(s, e), [], asked);
        assert asked + [] == asked;
      case Tick(behaviour, at) =>
        if s.heap == [] {
          EmptyHeap(s, at);
          NothingAsked(behaviour);
          assert asked + [] == asked;
        } else {
          PassAnswers(s, behaviour, at, asked);
        }
    }
  }

  lemma NoneTaken(s: State, now: int)
    ensures TakenSoFar(s, [], now)
  {
  }

  lemma NothingAsked(behaviour: Behaviour)
    ensures Survivors([], behaviour, {}) == [] && AskedInAll([], behaviour) == []
  {
  }

  lemma PassAnswers(s: State, behaviour: Behaviour, now: int, asked: seq<Asked>)
    requires Invariant(s) && Answered(s, [], asked) && s.heap != []
    ensures Ordered(s.heap) && Distinct(s.heap)
    ensures Answered(Process(s, behaviour, now), [],
                     asked + AskedInAll(Survivors(ReadyOf(s, now), behaviour, {}), behaviour))
  {
    hide During, Answered, Survivors, AskedInAll, DueLive, Later, InDeadlineOrder, CollectGarbage, FireAll, TakeReady,
      Distinct, Ordered;
    Orders(s, [], {});
    NoneTaken(s, now);
    var (taken, ready) := TakeReady(s, now, []);
    TakeReadyTakes(s, now, []);
    AllDue(taken, ready, now);
    Orders(taken, ready, {});
    TakeReadyAnswers(s, now, [], asked);
    FireAllAnswers(taken, ready, behaviour, now, {}, asked);
    FireAllFires(taken, ready, behaviour, now, {});
    var d := FireAll(taken, ready, behaviour, now);
    Orders(d, [], {});
    CollectAnswers(d, asked + AskedInAll(Survivors(ready, behaviour, {}), behaviour));
  }

  lemma {:induction false} RunAnswers(s: State, es: seq<Event>, asked: seq<Asked>)
    requires Invariant(s) && Answered(s, [], asked)
    ensures Answered(Run(s, es), [], asked + AskedDuring(s, es))
    decreases es
  {
    hide During, Answered, Apply, AskedAt;
    if es == [] {
      assert asked + [] == asked;
    } else {
      ApplyAnswers(s, es[0], asked);
      RunAnswers(Apply(s, es[0]), es[1..], asked + AskedAt(s, es[0]));
      ConcatAssociative(asked, AskedAt(s, es[0]), AskedDuring(Apply(s, es[0]), es[1..]));
    }
  }

  function AskedFromStart(es: seq<Event>): seq<Asked> {
    StartHolds();
    AskedDuring(Start, es)
  }

  lemma NothingAnswered()
    ensures Answered(Start, [], [])
  {
  }

  lemma AnsweredFromStart(es: seq<Event>)
    ensures Answered(RunFromStart(es), [], AskedFromStart(es))
  {
    hide During, Run, AskedDuring, Answered, Start;
    StartHolds();
    NothingAnswered();
    RunAnswers(Start, es, []);
    assert [] + AskedDuring(Start, es) == AskedDuring(Start, es);
  }

  /**
    In every run the timeout number `n` answers the `n`th call of `call_later`: it fires at most once, and not
    before the delay asked for has passed since that call; while it waits, it is due when it was asked to be.
   */
  lemma FiresAsAsked(es: seq<Event>)
    ensures var fired, asked := RunFromStart(es).fired, AskedFromStart(es);
            (forall i :: 0 <= i < |fired| ==>
               fired[i].timeout.id < |asked|
               && fired[i].now >= asked[fired[i].timeout.id].at + asked[fired[i].timeout.id].delay)
            && forall i, j :: 0 <= i < j < |fired| ==> fired[i].timeout.id != fired[j].timeout.id
    ensures forall t :: t in RunFromStart(es).heap ==> Answers(t, AskedFromStart(es))
  {
    hide RunFromStart, AskedFromStart, During;
    FiresOnceNotEarly(es);
    AnsweredFromStart(es);
  }

  // ---------- One timeout ----------

  lemma {:induction false} SurvivesUncancelled(ready: seq<Timeout>, behaviour: Behaviour, cancelled: set<nat>,
                                               t: Timeout)
    requires t in ready && t.id !in cancelled && forall id :: id in behaviour ==> t.id !in CancelsIn(behaviour[id])
    ensures t in Survivors(ready, behaviour, cancelled)
    decreases ready
  {
    hide CancelsIn;
    assert ready == [ready[0]] + ready[1..];
    if ready[0].id in cancelled {
      SurvivesUncancelled(ready[1..], behaviour, cancelled, t);
    } else if t != ready[0] {
      CancelsNothing();
      SurvivesUncancelled(ready[1..], behaviour, cancelled + CancelsIn(ActionsOf(behaviour, ready[0].id)), t);
    }
  }

  lemma CancelsNothing()
    ensures CancelsIn([]) == {}
  {
  }

  /**
    A new timeout is called by the first pass at or after its time, if no callback of the pass cancels it, and by
    no earlier pass.
   */
  lemma CalledWhenAsked(s: State, delay: nat, at: int, behaviour: Behaviour, now: int)
    requires Invariant(s)
    ensures var id := s.nextId;
            var d := Apply(Apply(s, Schedule(delay, at)), Tick(behaviour, now));
            (now >= at + delay && (forall b :: b in behaviour ==> id !in CancelsIn(behaviour[b])) ==>
               Firing(Timeout(id, at + delay), now) in d.fired)
            && (now < at + delay ==> forall f :: f in d.fired ==> f.timeout.id != id)
  {
    hide During, Process, DueList, ReadyOf, Survivors, Ordered, Distinct, FewDead, SelfCancelFree, Push, Firings,
      CancelsIn;
    Orders(s, [], {});
    var t := Timeout(s.nextId, at + delay);
    var m := Apply(s, Schedule(delay, at));
    assert t in Elems(m.heap) && t.id in m.live && m.fired == s.fired;
    ProcessFires(m, behaviour, now);
    var ready := ReadyOf(m, now);
    NotFiredYet(s);
    ReadyIsDue(m, now, ready, t);
    FiringsHave(Survivors(ready, behaviour, {}), now);
    if now >= at + delay && forall b :: b in behaviour ==> t.id !in CancelsIn(behaviour[b]) {
      SurvivesUncancelled(ready, behaviour, {}, t);
    }
    if now < at + delay {
      SurvivorsAmong(ready, behaviour, {});
    }
  }

  lemma NotFiredYet(s: State)
    requires Invariant(s)
    ensures forall f :: f in s.fired ==> f.timeout.id < s.nextId
  {
  }

  lemma ReadyIsDue(m: State, now: int, ready: seq<Timeout>, t: Timeout)
    requires DueList(m, now, ready) && Distinct(m.heap) && t in m.heap && t.id in m.live
    ensures t.deadline <= now ==> t in ready
    ensures t.deadline > now ==> forall u :: u in ready ==> u.id != t.id
  {
    assert forall u :: u in ready <==> u in Elems(ready);
    var i :| 0 <= i < |m.heap| && m.heap[i] == t;
    hide InDeadlineOrder;
  }

  lemma {:induction false} FiringsHave(ts: seq<Timeout>, now: int)
    ensures forall f :: f in Firings(ts, now) <==> f.now == now && f.timeout in ts
  {
    if ts != [] {
      FiringsHave(ts[1..], now);
      assert ts == [ts[0]] + ts[1..];
    }
  }

  /** A timeout that is cancelled before it fires never fires. */
  lemma CancelledNeverFires(s: State, id: nat, es: seq<Event>)
    requires Invariant(s) && id in s.live
    ensures var before, after := s.fired, Run(Apply(s, Remove(id)), es).fired;
            |before| <= |after| && after[..|before|] == before
            && forall i :: |before| <= i < |after| ==> after[i].timeout.id != id
  {
    LiveIsScheduled(s, id);
    var d := Apply(s, Remove(id));
    IdBelow(s, id);
    NeverAfterCancellation(d, es);
    hide During, Run;
  }

  lemma IdBelow(s: State, id: nat)
    requires Invariant(s) && id in Ids(s.heap)
    ensures id < s.nextId
  {
  }

  /** Cancelled timeouts are collected exactly when there are at least 1024 and more than half the heap. */
  lemma CollectsWhen(s: State)
    requires Invariant(s)
    ensures var d := CollectGarbage(s);
            if s.cancellations < 1024 || s.cancellations <= |s.heap| / 2 then d == s
            else d.cancellations == 0 && forall t :: t in d.heap <==> t in s.heap && t.id in s.live
  {
    hide Books, History, Apart, Heapify, KeepLive;
    IdsKept(s.heap, s.live);
  }
}
