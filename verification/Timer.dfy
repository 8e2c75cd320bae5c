/**
  Timers with lazy cancellation (`_Timer` in select_connection.py): the operations, the invariant over the heap,
  the ready list and the cancellation counter, and what one pass does. `TimerRuns` says what that means for
  whole passes, with their collection, and for whole runs.
 */
module Timer {
  import opened Bytes
  import opened Heap

  /** What a timeout's callback does when it runs: it may add timeouts and cancel any, its own included. */
  datatype Op = Add(delay: nat, now: int) | Cancel(id: nat)

  type Behaviour = map<nat, seq<Op>>

  function ActionsOf(behaviour: Behaviour, id: nat): seq<Op> {
    if id in behaviour then behaviour[id] else []
  }

  /** A callback that was called, and when. */
  datatype Firing = Firing(timeout: Timeout, now: int)

  /**
    `live` has the timeouts whose `callback` is not None; `cancellations` is `_num_cancellations`.
    History: the callbacks fired, and how many callbacks cancelled their own timeout since the last
    collection.
   */
  datatype State = State(heap: seq<Timeout>, live: set<nat>, cancellations: int, nextId: nat,
                         fired: seq<Firing>, excess: nat)

  const Start := State([], {}, 0, 0, [], 0)

  const GC_CANCELLATION_THRESHOLD := 1024

  function Ids(ts: seq<Timeout>): set<nat> {
    set t | t in ts :: t.id
  }

  // ---------- Operations ----------

  function CallLater(s: State, delay: nat, now: int): State
    requires Ordered(s.heap)
  {
    s.(heap := Push(s.heap, Timeout(s.nextId, now + delay)), live := s.live + {s.nextId}, nextId := s.nextId + 1)
  }

  /** `remove_timeout`; `running` is the timeout whose callback makes the call, if any. */
  function RemoveTimeout(s: State, id: nat, running: Option<nat>): State {
    if id !in s.live then s
    else s.(live := s.live - {id}, cancellations := s.cancellations + 1,
            excess := if running == Some(id) then s.excess + 1 else s.excess)
  }

  function RemainingInterval(s: State, now: int): Option<nat> {
    if s.heap == [] then None
    else Some(if s.heap[0].deadline - now > 0 then s.heap[0].deadline - now else 0)
  }

  function Perform(s: State, op: Op, running: Option<nat>): (r: State)
    requires Ordered(s.heap)
    ensures Ordered(r.heap)
  {
    match op
    case Add(delay, now) => CallLater(s, delay, now)
    case Cancel(id) => RemoveTimeout(s, id, running)
  }

  function PerformAll(s: State, ops: seq<Op>, running: Option<nat>): (r: State)
    requires Ordered(s.heap)
    ensures Ordered(r.heap)
    decreases ops
  {
    if ops == [] then s else PerformAll(Perform(s, ops[0], running), ops[1..], running)
  }

  /** The loop that takes ready timeouts off the heap, entered with `ready_timeouts == acc`. */
  function TakeReady(s: State, now: int, acc: seq<Timeout>): (r: (State, seq<Timeout>))
    requires Ordered(s.heap) && Distinct(s.heap)
    ensures Ordered(r.0.heap) && Distinct(r.0.heap)
    decreases |s.heap|
  {
    if s.heap == [] || s.heap[0].deadline > now then (s, acc)
    else
      var t := s.heap[0];
      var popped := s.(heap := Pop(s.heap));
      if t.id in s.live then TakeReady(popped, now, acc + [t])
      else TakeReady(popped.(cancellations := s.cancellations - 1), now, acc)
  }

  function Fire(s: State, t: Timeout, behaviour: Behaviour, now: int): (r: State)
    requires Ordered(s.heap)
    ensures Ordered(r.heap)
  {
    var ran := PerformAll(s.(fired := s.fired + [Firing(t, now)]), ActionsOf(behaviour, t.id), Some(t.id));
    ran.(live := ran.live - {t.id})
  }

  /** The loop that invokes the callbacks of the ready timeouts. */
  function FireAll(s: State, ready: seq<Timeout>, behaviour: Behaviour, now: int): (r: State)
    requires Ordered(s.heap)
    ensures Ordered(r.heap)
    decreases ready
  {
    if ready == [] then s
    else if ready[0].id !in s.live then FireAll(s.(cancellations := s.cancellations - 1), ready[1..], behaviour, now)
    else FireAll(Fire(s, ready[0], behaviour, now), ready[1..], behaviour, now)
  }

  function KeepLive(ts: seq<Timeout>, live: set<nat>): seq<Timeout> {
    if ts == [] then []
    else if ts[0].id in live then [ts[0]] + KeepLive(ts[1..], live)
    else KeepLive(ts[1..], live)
  }

  lemma {:induction false} KeptDistinct(ts: seq<Timeout>, live: set<nat>)
    requires Distinct(ts)
    ensures forall t :: t in KeepLive(ts, live) <==> t in ts && t.id in live
    ensures Distinct(KeepLive(ts, live))
  {
    if ts != [] {
      assert ts == [ts[0]] + ts[1..];
      KeptDistinct(ts[1..], live);
    }
  }

  /** Garbage collection of the cancelled timeouts. */
  function CollectGarbage(s: State): State {
    if s.cancellations >= GC_CANCELLATION_THRESHOLD && s.cancellations > |s.heap| / 2
    then s.(cancellations := 0, heap := Heapify(KeepLive(s.heap, s.live)), excess := 0)
    else s
  }

  function Process(s: State, behaviour: Behaviour, now: int): State
    requires Ordered(s.heap) && Distinct(s.heap)
  {
    if s.heap == [] then s
    else
      var (taken, ready) := TakeReady(s, now, []);
      CollectGarbage(FireAll(taken, ready, behaviour, now))
  }

  // ---------- The invariant ----------

  /** Timeouts on the heap, on the ready list and running are different timeouts, all numbered below `next`. */
  ghost predicate Apart(heap: set<nat>, ready: set<nat>, running: set<nat>, next: nat) {
    (forall id :: id in heap ==> id < next && id !in ready && id !in running)
    && (forall id :: id in ready ==> id < next && id !in running)
    && (forall id :: id in running ==> id < next)
  }

  ghost predicate Shape(s: State, ready: seq<Timeout>, running: set<nat>) {
    Ordered(s.heap) && Distinct(s.heap) && Distinct(ready)
    && Apart(Ids(s.heap), Ids(ready), running, s.nextId)
  }

  ghost predicate LiveWithin(live: set<nat>, heap: set<nat>, ready: set<nat>, running: set<nat>) {
    forall id :: id in live ==> id in heap || id in ready || id in running
  }

  function Dead(ids: set<nat>, live: set<nat>): nat {
    |ids - live|
  }

  /** The counter is exact, up to the callbacks that cancelled their own timeout. */
  ghost predicate Books(heap: set<nat>, ready: set<nat>, running: set<nat>, live: set<nat>, cancellations: int,
                        excess: nat) {
    LiveWithin(live, heap, ready, running) && cancellations == Dead(heap, live) + Dead(ready, live) + excess
  }

  /** What fired is over: not early, not scheduled any more, and no two firings of one timeout. */
  ghost predicate History(fired: seq<Firing>, heap: set<nat>, ready: set<nat>, next: nat) {
    (forall i :: 0 <= i < |fired| ==>
       (fired[i].now >= fired[i].timeout.deadline && fired[i].timeout.id < next
        && fired[i].timeout.id !in heap && fired[i].timeout.id !in ready))
    && (forall i, j :: 0 <= i < j < |fired| ==> fired[i].timeout.id != fired[j].timeout.id)
  }

  /** `ready` is what is left of the ready list, `running` holds the timeout whose callback is running. */
  ghost predicate During(s: State, ready: seq<Timeout>, running: set<nat>) {
    Shape(s, ready, running)
    && Books(Ids(s.heap), Ids(ready), running, s.live, s.cancellations, s.excess)
    && History(s.fired, Ids(s.heap), Ids(ready), s.nextId)
  }

  ghost predicate Invariant(s: State) { During(s, [], {}) }

  // ---------- Identities ----------

  lemma IdsPush(h: seq<Timeout>, g: seq<Timeout>, t: Timeout)
    requires Elems(g) == Elems(h) + {t}
    ensures Ids(g) == Ids(h) + {t.id}
  {
    assert forall u :: u in g <==> u in Elems(g);
    assert forall u :: u in h <==> u in Elems(h);
  }

  lemma IdsPop(h: seq<Timeout>)
    requires h != [] && Ordered(h) && Distinct(h)
    ensures Ids(Pop(h)) == Ids(h) - {h[0].id} && h[0].id in Ids(h)
  {
    var g := Pop(h);
    assert h[0] in h;
    assert forall u :: u in g <==> u in Elems(g);
    assert forall u :: u in h <==> u in Elems(h);
    assert forall u :: u in h && u != h[0] ==> u.id != h[0].id;
  }

  lemma IdsTail(ts: seq<Timeout>)
    requires ts != [] && Distinct(ts)
    ensures Ids(ts[1..]) == Ids(ts) - {ts[0].id} && ts[0].id in Ids(ts) && Distinct(ts[1..])
  {
    assert ts == [ts[0]] + ts[1..];
  }

  lemma IdsOf(ts: seq<Timeout>)
    ensures forall t :: t in ts ==> t.id in Ids(ts)
  {
  }

  // ---------- The dead entries ----------

  lemma DeadAfterNew(ids: set<nat>, live: set<nat>, id: nat)
    requires id !in ids
    ensures Dead(ids + {id}, live + {id}) == Dead(ids, live) && Dead(ids, live + {id}) == Dead(ids, live)
  {
    assert (ids + {id}) - (live + {id}) == ids - live;
    assert ids - (live + {id}) == ids - live;
  }

  lemma DeadAfterCancel(ids: set<nat>, live: set<nat>, id: nat)
    requires id in live
    ensures Dead(ids, live - {id}) == Dead(ids, live) + if id in ids then 1 else 0
  {
    if id in ids {
      assert ids - (live - {id}) == (ids - live) + {id};
    } else {
      assert ids - (live - {id}) == ids - live;
    }
  }

  lemma DeadWithout(ids: set<nat>, live: set<nat>, id: nat)
    requires id in ids
    ensures Dead(ids - {id}, live) == Dead(ids, live) - if id in live then 0 else 1
  {
    if id in live {
      assert (ids - {id}) - live == ids - live;
    } else {
      assert ids - live == ((ids - {id}) - live) + {id};
    }
  }

  lemma DeadWith(ids: set<nat>, live: set<nat>, id: nat)
    requires id in live
    ensures Dead(ids + {id}, live) == Dead(ids, live)
  {
    assert (ids + {id}) - live == ids - live;
  }

  // ---------- Adding and cancelling ----------

  lemma BooksAdd(heap: set<nat>, ready: set<nat>, running: set<nat>, live: set<nat>, cancellations: int, excess: nat,
                 id: nat)
    requires Books(heap, ready, running, live, cancellations, excess) && Apart(heap, ready, running, id)
    ensures Books(heap + {id}, ready, running, live + {id}, cancellations, excess)
    ensures Apart(heap + {id}, ready, running, id + 1)
  {
    hide Dead;
    DeadAfterNew(heap, live, id);
    DeadAfterNew(ready, live, id);
  }

  lemma BooksCancel(heap: set<nat>, ready: set<nat>, running: set<nat>, live: set<nat>, cancellations: int, excess: nat,
                    id: nat, next: nat)
    requires Books(heap, ready, running, live, cancellations, excess) && Apart(heap, ready, running, next) && id in live
    ensures Books(heap, ready, running, live - {id}, cancellations + 1, if id in running then excess + 1 else excess)
  {
    hide Dead;
    DeadAfterCancel(heap, live, id);
    DeadAfterCancel(ready, live, id);
  }

  lemma PushDistinct(h: seq<Timeout>, ready: set<nat>, running: set<nat>, id: nat, deadline: int)
    requires Ordered(h) && Distinct(h) && Apart(Ids(h), ready, running, id)
    ensures Ids(Push(h, Timeout(id, deadline))) == Ids(h) + {id} && Distinct(Push(h, Timeout(id, deadline)))
  {
    IdsOf(h);
    IdsPush(h, Push(h, Timeout(id, deadline)), Timeout(id, deadline));
  }

  lemma HistoryAdd(fired: seq<Firing>, heap: set<nat>, ready: set<nat>, next: nat)
    requires History(fired, heap, ready, next)
    ensures History(fired, heap + {next}, ready, next + 1)
  {
  }

  lemma CallLaterKeeps(s: State, delay: nat, now: int, ready: seq<Timeout>, running: set<nat>)
    requires During(s, ready, running)
    ensures During(CallLater(s, delay, now), ready, running)
  {
    hide Ordered, Distinct, Ids, Apart, Books, History;
    PushDistinct(s.heap, Ids(ready), running, s.nextId, now + delay);
    BooksAdd(Ids(s.heap), Ids(ready), running, s.live, s.cancellations, s.excess, s.nextId);
    HistoryAdd(s.fired, Ids(s.heap), Ids(ready), s.nextId);
  }

  function SetOf(running: Option<nat>): set<nat> {
    if running.Some? then {running.value} else {}
  }

  lemma RemoveKeeps(s: State, id: nat, ready: seq<Timeout>, running: Option<nat>)
    requires During(s, ready, SetOf(running))
    ensures During(RemoveTimeout(s, id, running), ready, SetOf(running))
  {
    hide Ordered, Distinct, Ids, Apart, Books, History;
    if id in s.live {
      BooksCancel(Ids(s.heap), Ids(ready), SetOf(running), s.live, s.cancellations, s.excess, id, s.nextId);
    }
  }

  // ---------- A callback ----------

  /** The timeouts that a callback cancels. */
  function CancelsIn(ops: seq<Op>): set<nat> {
    set op | op in ops && op.Cancel? :: op.id
  }

  lemma PerformKeeps(s: State, op: Op, ready: seq<Timeout>, running: nat)
    requires During(s, ready, {running})
    ensures var d := Perform(s, op, Some(running));
            During(d, ready, {running}) && d.fired == s.fired && d.nextId >= s.nextId
            && (forall id :: id < s.nextId ==> (id in d.live <==> id in s.live && op != Cancel(id)))
            && (op != Cancel(running) ==> d.excess == s.excess)
  {
    match op {
      case Add(delay, now) => CallLaterKeeps(s, delay, now, ready, {running});
      case Cancel(id) => RemoveKeeps(s, id, ready, Some(running));
    }
  }

  lemma CancelsCons(ops: seq<Op>)
    requires ops != []
    ensures forall id :: id in CancelsIn(ops) <==> (ops[0] == Cancel(id) || id in CancelsIn(ops[1..]))
  {
    assert ops == [ops[0]] + ops[1..];
    forall id ensures id in CancelsIn(ops) <==> (ops[0] == Cancel(id) || id in CancelsIn(ops[1..])) {
      assert id in CancelsIn(ops) <==> Cancel(id) in ops;
      assert id in CancelsIn(ops[1..]) <==> Cancel(id) in ops[1..];
    }
  }

  /** A callback's actions keep the books, and of the timeouts that existed before, cancel those it names. */
  lemma {:induction false} PerformAllKeeps(s: State, ops: seq<Op>, ready: seq<Timeout>, running: nat)
    requires During(s, ready, {running})
    ensures var d := PerformAll(s, ops, Some(running));
            During(d, ready, {running}) && d.fired == s.fired && d.nextId >= s.nextId
            && (forall id :: id < s.nextId ==> (id in d.live <==> id in s.live && id !in CancelsIn(ops)))
            && (running !in CancelsIn(ops) ==> d.excess == s.excess)
    decreases ops
  {
    assert Ordered(s.heap);
    hide Ordered, During, Perform;
    if ops != [] {
      PerformKeeps(s, ops[0], ready, running);
      CancelsCons(ops);
      PerformAllKeeps(Perform(s, ops[0], Some(running)), ops[1..], ready, running);
      hide CancelsIn;
    }
  }

  // ---------- The pass over the ready timeouts ----------

  lemma BooksStart(heap: set<nat>, ready: set<nat>, live: set<nat>, cancellations: int, excess: nat, next: nat, id: nat)
    requires Books(heap, ready, {}, live, cancellations, excess) && Apart(heap, ready, {}, next) && id in ready
    ensures id in live ==> Books(heap, ready - {id}, {id}, live, cancellations, excess)
    ensures id !in live ==> Books(heap, ready - {id}, {}, live, cancellations - 1, excess)
    ensures Apart(heap, ready - {id}, {id}, next) && Apart(heap, ready - {id}, {}, next)
  {
    hide Dead;
    DeadWithout(ready, live, id);
  }

  lemma HistoryStart(fired: seq<Firing>, heap: set<nat>, ready: set<nat>, next: nat, f: Firing)
    requires History(fired, heap, ready, next) && Apart(heap, ready, {}, next)
    requires f.timeout.id in ready && f.now >= f.timeout.deadline
    ensures History(fired + [f], heap, ready - {f.timeout.id}, next)
  {
  }

  lemma HistoryLess(fired: seq<Firing>, heap: set<nat>, ready: set<nat>, next: nat, id: nat)
    requires History(fired, heap, ready, next)
    ensures History(fired, heap, ready - {id}, next)
  {
  }

  /** The books when the callback of the first ready timeout starts. */
  lemma StartKeeps(s: State, ready: seq<Timeout>, now: int)
    requires During(s, ready, {}) && ready != [] && ready[0].id in s.live && ready[0].deadline <= now
    ensures During(s.(fired := s.fired + [Firing(ready[0], now)]), ready[1..], {ready[0].id})
  {
    IdsTail(ready);
    hide Ordered, Distinct, Ids, Apart, Books, History;
    BooksStart(Ids(s.heap), Ids(ready), s.live, s.cancellations, s.excess, s.nextId, ready[0].id);
    HistoryStart(s.fired, Ids(s.heap), Ids(ready), s.nextId, Firing(ready[0], now));
  }

  /** The books when a callback has returned and `timeout.callback` is set to None. */
  lemma ReturnKeeps(s: State, ready: seq<Timeout>, id: nat)
    requires During(s, ready, {id})
    ensures During(s.(live := s.live - {id}), ready, {})
  {
    hide Ordered, Distinct, Ids, History, Dead;
    if id in s.live {
      DeadAfterCancel(Ids(s.heap), s.live, id);
      DeadAfterCancel(Ids(ready), s.live, id);
    } else {
      assert s.live - {id} == s.live;
    }
  }

  lemma ReadyIds(s: State, ready: seq<Timeout>)
    requires During(s, ready, {}) && ready != []
    ensures forall t :: t in ready[1..] ==> t.id < s.nextId && t.id != ready[0].id
    ensures ready[0].id < s.nextId && Ordered(s.heap)
  {
    IdsTail(ready);
    IdsOf(ready[1..]);
    hide Ordered, Distinct, Ids, History, Books;
  }

  /** Firing one ready timeout. */
  lemma FireKeeps(s: State, ready: seq<Timeout>, behaviour: Behaviour, now: int)
    requires During(s, ready, {}) && ready != [] && ready[0].id in s.live && ready[0].deadline <= now
    ensures var d := Fire(s, ready[0], behaviour, now);
            During(d, ready[1..], {}) && d.fired == s.fired + [Firing(ready[0], now)] && d.nextId >= s.nextId
            && (forall id :: id < s.nextId && id != ready[0].id ==>
                  (id in d.live <==> id in s.live && id !in CancelsIn(ActionsOf(behaviour, ready[0].id))))
            && ready[0].id !in d.live
            && (ready[0].id !in CancelsIn(ActionsOf(behaviour, ready[0].id)) ==> d.excess == s.excess)
  {
    ReadyIds(s, ready);
    StartKeeps(s, ready, now);
    var t := ready[0];
    hide Ordered, During, PerformAll, CancelsIn;
    var started := s.(fired := s.fired + [Firing(t, now)]);
    PerformAllKeeps(started, ActionsOf(behaviour, t.id), ready[1..], t.id);
    ReturnKeeps(PerformAll(started, ActionsOf(behaviour, t.id), Some(t.id)), ready[1..], t.id);
  }

  lemma SkipKeeps(s: State, ready: seq<Timeout>)
    requires During(s, ready, {}) && ready != [] && ready[0].id !in s.live
    ensures During(s.(cancellations := s.cancellations - 1), ready[1..], {})
  {
    IdsTail(ready);
    hide Ordered, Distinct, Ids, Apart, Books, History;
    BooksStart(Ids(s.heap), Ids(ready), s.live, s.cancellations, s.excess, s.nextId, ready[0].id);
    HistoryLess(s.fired, Ids(s.heap), Ids(ready), s.nextId, ready[0].id);
  }

  /** The ready timeouts that no earlier callback of the pass has cancelled. */
  function Survivors(ready: seq<Timeout>, behaviour: Behaviour, cancelled: set<nat>): seq<Timeout>
    decreases ready
  {
    if ready == [] then []
    else if ready[0].id in cancelled then Survivors(ready[1..], behaviour, cancelled)
    else [ready[0]] + Survivors(ready[1..], behaviour, cancelled + CancelsIn(ActionsOf(behaviour, ready[0].id)))
  }

  function Firings(ts: seq<Timeout>, now: int): seq<Firing> {
    if ts == [] then [] else [Firing(ts[0], now)] + Firings(ts[1..], now)
  }

  ghost predicate SelfCancelFree(behaviour: Behaviour) {
    forall id :: id in behaviour ==> id !in CancelsIn(behaviour[id])
  }

  /** No timeout that was cancelled or has fired comes back. */
  ghost predicate NoRevival(s: State, d: State) {
    d.nextId >= s.nextId && forall id :: id < s.nextId && id in d.live ==> id in s.live
  }

  lemma FiringsCons(fired: seq<Firing>, t: Timeout, rest: seq<Timeout>, now: int)
    ensures fired + [Firing(t, now)] + Firings(rest, now) == fired + Firings([t] + rest, now)
  {
    assert ([t] + rest)[1..] == rest;
    assert fired + [Firing(t, now)] + Firings(rest, now) == fired + ([Firing(t, now)] + Firings(rest, now));
  }

  lemma SparesItself(behaviour: Behaviour, id: nat)
    ensures SelfCancelFree(behaviour) ==> id !in CancelsIn(ActionsOf(behaviour, id))
  {
  }

  /** Of the ready timeouts, all due, those in `cancelled` have been cancelled. */
  ghost predicate Due(s: State, ready: seq<Timeout>, now: int, cancelled: set<nat>) {
    forall t :: t in ready ==> t.deadline <= now && (t.id in s.live <==> t.id !in cancelled)
  }

  lemma DueAfterFire(s: State, ready: seq<Timeout>, behaviour: Behaviour, now: int, cancelled: set<nat>)
    requires During(s, ready, {}) && Due(s, ready, now, cancelled) && ready != [] && ready[0].id in s.live
    ensures Ordered(s.heap)
    ensures var d := Fire(s, ready[0], behaviour, now);
            During(d, ready[1..], {}) && d.fired == s.fired + [Firing(ready[0], now)] && NoRevival(s, d)
            && Due(d, ready[1..], now, cancelled + CancelsIn(ActionsOf(behaviour, ready[0].id)))
            && (SelfCancelFree(behaviour) ==> d.excess == s.excess)
  {
    hide During, Ordered, CancelsIn, Fire;
    ReadyIds(s, ready);
    assert ready[0] in ready && forall u :: u in ready[1..] ==> u in ready;
    FireKeeps(s, ready, behaviour, now);
    SparesItself(behaviour, ready[0].id);
    hide SelfCancelFree;
  }

  lemma DueAfterSkip(s: State, ready: seq<Timeout>, now: int, cancelled: set<nat>)
    requires During(s, ready, {}) && Due(s, ready, now, cancelled) && ready != [] && ready[0].id !in s.live
    ensures During(s.(cancellations := s.cancellations - 1), ready[1..], {})
    ensures Due(s.(cancellations := s.cancellations - 1), ready[1..], now, cancelled)
  {
    hide During;
    SkipKeeps(s, ready);
    assert forall u :: u in ready[1..] ==> u in ready;
  }

  /** The callbacks of the ready timeouts are called in order, but for those that an earlier one cancelled. */
  lemma {:induction false} FireAllFires(s: State, ready: seq<Timeout>, behaviour: Behaviour, now: int,
                                        cancelled: set<nat>)
    requires During(s, ready, {}) && Due(s, ready, now, cancelled)
    ensures var d := FireAll(s, ready, behaviour, now);
            During(d, [], {}) && d.fired == s.fired + Firings(Survivors(ready, behaviour, cancelled), now)
            && NoRevival(s, d) && (SelfCancelFree(behaviour) ==> d.excess == s.excess)
    decreases ready
  {
    hide During, Due, CancelsIn, ActionsOf, SelfCancelFree, Ordered;
    Orders(s, ready, {});
    if ready == [] {
      assert s.fired + [] == s.fired;
    } else {
      hide Fire;
      var t, rest := ready[0], ready[1..];
      FirstLive(s, ready, now, cancelled);
      if t.id !in s.live {
        DueAfterSkip(s, ready, now, cancelled);
        FireAllFires(s.(cancellations := s.cancellations - 1), rest, behaviour, now, cancelled);
      } else {
        DueAfterFire(s, ready, behaviour, now, cancelled);
        var next := cancelled + CancelsIn(ActionsOf(behaviour, t.id));
        FireAllFires(Fire(s, t, behaviour, now), rest, behaviour, now, next);
        FiringsCons(s.fired, t, Survivors(rest, behaviour, next), now);
      }
    }
  }

  lemma Orders(s: State, ready: seq<Timeout>, running: set<nat>)
    requires During(s, ready, running)
    ensures Ordered(s.heap) && Distinct(s.heap) && Distinct(ready)
  {
  }

  lemma FirstLive(s: State, ready: seq<Timeout>, now: int, cancelled: set<nat>)
    requires Due(s, ready, now, cancelled) && ready != []
    ensures ready[0].id in s.live <==> ready[0].id !in cancelled
  {
    assert ready[0] in ready;
  }

  // ---------- Taking the ready timeouts ----------

  ghost predicate InDeadlineOrder(ts: seq<Timeout>) {
    forall i, j :: 0 <= i < j < |ts| ==> ts[i].deadline <= ts[j].deadline
  }

  /** All of `acc` is live, due, and not later than anything on the heap. */
  ghost predicate TakenSoFar(s: State, acc: seq<Timeout>, now: int) {
    (forall a :: a in acc ==> a.id in s.live && a.deadline <= now) && InDeadlineOrder(acc)
    && forall a, t :: a in acc && t in s.heap ==> a.deadline <= t.deadline
  }

  /** The heap's first entry is taken off: dead ones are dropped from the books. */
  lemma PopKeeps(s: State, acc: seq<Timeout>)
    requires During(s, acc, {}) && s.heap != []
    ensures var t, popped := s.heap[0], s.(heap := Pop(s.heap));
            During(if t.id in s.live then popped else popped.(cancellations := s.cancellations - 1),
                   if t.id in s.live then acc + [t] else acc, {})
  {
    var t := s.heap[0];
    var h, a := Ids(s.heap), Ids(acc);
    IdsPop(s.heap);
    AppendDistinct(acc, t);
    BooksPop(h, a, s.live, s.cancellations, s.excess, s.nextId, t.id);
    HistoryPop(s.fired, h, a, s.nextId, t.id);
    hide Ordered, Distinct, Ids, Apart, Books, History;
  }

  lemma BooksPop(heap: set<nat>, ready: set<nat>, live: set<nat>, cancellations: int, excess: nat, next: nat, id: nat)
    requires Books(heap, ready, {}, live, cancellations, excess) && Apart(heap, ready, {}, next) && id in heap
    ensures id !in ready && Apart(heap - {id}, ready + {id}, {}, next) && Apart(heap - {id}, ready, {}, next)
    ensures id in live ==> Books(heap - {id}, ready + {id}, {}, live, cancellations, excess)
    ensures id !in live ==> Books(heap - {id}, ready, {}, live, cancellations - 1, excess)
  {
    hide Dead;
    DeadWithout(heap, live, id);
    if id in live {
      DeadWith(ready, live, id);
    }
  }

  lemma HistoryPop(fired: seq<Firing>, heap: set<nat>, ready: set<nat>, next: nat, id: nat)
    requires History(fired, heap, ready, next) && id in heap
    ensures History(fired, heap - {id}, ready + {id}, next) && History(fired, heap - {id}, ready, next)
  {
  }

  lemma AppendDistinct(acc: seq<Timeout>, t: Timeout)
    ensures Ids(acc + [t]) == Ids(acc) + {t.id}
    ensures Distinct(acc) && t.id !in Ids(acc) ==> Distinct(acc + [t])
  {
    IdsOf(acc);
    IdsPush(acc, acc + [t], t);
  }

  lemma FirstOfAll(h: seq<Timeout>)
    requires Ordered(h)
    ensures forall t :: t in h ==> h[0].deadline <= t.deadline
  {
    hide Ordered;
    forall t | t in h ensures h[0].deadline <= t.deadline {
      var i :| 0 <= i < |h| && h[i] == t;
      FirstIsEarliest(h, i);
    }
  }

  function DueLive(h: seq<Timeout>, live: set<nat>, now: int): set<Timeout> {
    set t | t in h && t.deadline <= now && t.id in live
  }

  function Later(h: seq<Timeout>, now: int): set<Timeout> {
    set t | t in h && t.deadline > now
  }

  function AfterPop(s: State): State
    requires s.heap != [] && Ordered(s.heap) && Distinct(s.heap)
  {
    if s.heap[0].id in s.live then s.(heap := Pop(s.heap))
    else s.(heap := Pop(s.heap), cancellations := s.cancellations - 1)
  }

  function TakenAfterPop(s: State, acc: seq<Timeout>): seq<Timeout>
    requires s.heap != []
  {
    if s.heap[0].id in s.live then acc + [s.heap[0]] else acc
  }

  lemma OrderAppend(acc: seq<Timeout>, t: Timeout)
    requires InDeadlineOrder(acc) && forall a :: a in acc ==> a.deadline <= t.deadline
    ensures InDeadlineOrder(acc + [t])
  {
    assert forall i :: 0 <= i < |acc| ==> acc[i] in acc;
  }

  lemma TakenAppend(s: State, acc: seq<Timeout>, now: int)
    requires s.heap != [] && Ordered(s.heap) && s.heap[0].deadline <= now && s.heap[0].id in s.live
    requires TakenSoFar(s, acc, now)
    ensures TakenSoFar(s, acc + [s.heap[0]], now)
  {
    var t := s.heap[0];
    FirstOfAll(s.heap);
    hide Ordered;
    assert t in s.heap;
    OrderAppend(acc, t);
    hide InDeadlineOrder;
    assert forall a :: a in acc + [t] ==> a in acc || a == t;
  }

  lemma TakenAfterPopHolds(s: State, acc: seq<Timeout>, now: int)
    requires s.heap != [] && Ordered(s.heap) && Distinct(s.heap) && s.heap[0].deadline <= now
    requires TakenSoFar(s, acc, now)
    ensures TakenSoFar(AfterPop(s), TakenAfterPop(s, acc), now)
  {
    hide Ordered, Distinct, InDeadlineOrder;
    if s.heap[0].id in s.live {
      TakenAppend(s, acc, now);
    }
    var d := AfterPop(s);
    hide Pop;
    assert forall t :: t in d.heap ==> t in Elems(d.heap);
    assert forall t :: t in d.heap ==> t in s.heap;
  }

  lemma DueAfterPop(s: State, acc: seq<Timeout>, now: int)
    requires s.heap != [] && Ordered(s.heap) && Distinct(s.heap) && s.heap[0].deadline <= now
    ensures Elems(acc) + DueLive(s.heap, s.live, now)
            == Elems(TakenAfterPop(s, acc)) + DueLive(AfterPop(s).heap, s.live, now)
    ensures Later(s.heap, now) == Later(AfterPop(s).heap, now)
  {
    var d := AfterPop(s).heap;
    assert forall t :: t in d <==> t in Elems(d);
    assert forall t :: t in s.heap <==> t in Elems(s.heap);
    hide Ordered, Distinct;
    assert forall t :: t in acc + [s.heap[0]] <==> t in acc || t == s.heap[0];
  }

  lemma NothingDue(h: seq<Timeout>, live: set<nat>, now: int)
    requires Ordered(h) && (h == [] || h[0].deadline > now)
    ensures DueLive(h, live, now) == {} && Later(h, now) == Elems(h)
  {
    FirstOfAll(h);
  }

  /** The ready list is exactly the due and live entries, in deadline order; the heap keeps exactly the later ones. */
  lemma {:induction false} TakeReadyTakes(s: State, now: int, acc: seq<Timeout>)
    requires During(s, acc, {}) && TakenSoFar(s, acc, now)
    ensures Ordered(s.heap) && Distinct(s.heap)
    ensures var (d, ready) := TakeReady(s, now, acc);
            During(d, ready, {}) && TakenSoFar(d, ready, now)
            && Elems(ready) == Elems(acc) + DueLive(s.heap, s.live, now) && Elems(d.heap) == Later(s.heap, now)
            && d.fired == s.fired && d.live == s.live && d.excess == s.excess && d.nextId == s.nextId
    decreases |s.heap|
  {
    hide During, Ordered, Distinct, TakenSoFar, DueLive, Later, Elems;
    Orders(s, acc, {});
    if s.heap == [] || s.heap[0].deadline > now {
      NothingDue(s.heap, s.live, now);
    } else {
      PopKeeps(s, acc);
      TakenAfterPopHolds(s, acc, now);
      DueAfterPop(s, acc, now);
      TakeReadyTakes(AfterPop(s), now, TakenAfterPop(s, acc));
    }
  }
}
