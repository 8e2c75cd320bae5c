/** How often counted one-shots are called (callback.py). */
module OneShots {
  import opened Bytes
  import opened Callbacks

  /** What tells the entries of a list apart. */
  datatype Key = Key(callback: Callback, onlyCaller: Option<nat>, arguments: Option<Attributes>)

  function KeyOf(e: Entry): Key { Key(e.callback, e.onlyCaller, e.arguments) }

  /** A call of `process` for the list: who fires the event, and its first argument. */
  datatype Event = Event(caller: nat, subject: Option<Attributes>)

  function Find(es: seq<Entry>, k: Key): Option<Entry> {
    if es == [] then None else if KeyOf(es[0]) == k then Some(es[0]) else Find(es[1..], k)
  }

  function After(es: seq<Entry>, ev: Event): seq<Entry> {
    Process(es, ev.caller, ev.subject).1
  }

  predicate Takes(e: Entry, ev: Event) {
    ShouldProcess(e, ev.caller, ev.subject)
  }

  /** How often the entry `k` is called in the course of the events. */
  function EntryCalls(es: seq<Entry>, k: Key, events: seq<Event>): nat
    decreases events
  {
    if events == [] then 0
    else
      (if Find(es, k).Some? && Takes(Find(es, k).value, events[0]) then 1 else 0)
      + EntryCalls(After(es, events[0]), k, events[1..])
  }

  /** The events that `e` is registered for. */
  function Matches(e: Entry, events: seq<Event>): nat
    decreases events
  {
    if events == [] then 0 else (if Takes(e, events[0]) then 1 else 0) + Matches(e, events[1..])
  }

  /** How often `e` should be called: by its first `calls` events, or by all of them if it is no one-shot. */
  function Due(e: Entry, events: seq<Event>): int {
    if e.oneShot && e.calls < Matches(e, events) then e.calls else Matches(e, events)
  }

  /** Some event calls `f` but not `e`: one from another caller, or one without any argument. */
  predicate CalledAlone(f: Entry, e: Entry) {
    (e.onlyCaller.Some? && e.onlyCaller != f.onlyCaller) || (e.arguments.Some? && f.arguments.None?)
  }

  /**
    Using up `f` removes `e` before its time: `remove` takes `e` along with `f`, and `f` has fewer calls or
    can be called without `e`.
   */
  predicate Undercuts(f: Entry, e: Entry) {
    KeyOf(f) != KeyOf(e) && f.oneShot && Removes(e, f.callback, f.arguments)
    && (!e.oneShot || f.calls < e.calls || CalledAlone(f, e))
  }

  /** One-shots have calls left. */
  ghost predicate Counted(es: seq<Entry>) {
    forall i :: 0 <= i < |es| && es[i].oneShot ==> es[i].calls >= 1
  }

  // ---------- Lists ----------

  lemma {:induction false} FindMember(es: seq<Entry>, e: Entry)
    ensures Find(es, KeyOf(e)) == Some(e) ==> e in es
    ensures Distinct(es) && e in es ==> Find(es, KeyOf(e)) == Some(e)
  {
    if es != [] {
      assert es == [es[0]] + es[1..];
      FindMember(es[1..], e);
      if Distinct(es) && e in es[1..] {
        var j :| 0 <= j < |es[1..]| && es[1..][j] == e;
        assert es[j + 1] == e && !Same(es[0], e.callback, e.onlyCaller, e.arguments);
      }
    }
  }

  lemma {:induction false} FindKey(es: seq<Entry>, k: Key)
    ensures Find(es, k).Some? ==> KeyOf(Find(es, k).value) == k
  {
    if es != [] {
      FindKey(es[1..], k);
    }
  }

  predicate RemovesKey(k: Key, f: Entry) {
    k.callback == f.callback
    && ArgumentsMatch(k.arguments, Some(if f.arguments.Some? then f.arguments.value else map[]))
  }

  lemma {:induction false} FindDiscard(es: seq<Entry>, f: Entry, k: Key)
    ensures Find(Discard(es, f.callback, f.arguments), k) == if RemovesKey(k, f) then None else Find(es, k)
  {
    if es != [] {
      FindDiscard(es[1..], f, k);
      var rest := Discard(es[1..], f.callback, f.arguments);
      assert ([es[0]] + rest)[1..] == rest;
    }
  }

  lemma {:induction false} FindSetCalls(es: seq<Entry>, f: Entry, calls: int, k: Key)
    ensures Find(SetCalls(es, f, calls), k)
            == if Find(es, k).Some? && k == KeyOf(f) then Some(Find(es, k).value.(calls := calls)) else Find(es, k)
  {
    if es != [] {
      FindSetCalls(es[1..], f, calls, k);
      var rest := SetCalls(es[1..], f, calls);
      assert ([es[0]] + rest)[1..] == rest;
      assert ([es[0].(calls := calls)] + rest)[1..] == rest;
    }
  }

  /** Some entry of the list is used up by the event and takes `k` along. */
  ghost predicate Removed(es: seq<Entry>, k: Key, ev: Event) {
    exists i :: 0 <= i < |es| && Takes(es[i], ev) && es[i].oneShot && es[i].calls <= 1 && RemovesKey(k, es[i])
  }

  lemma RemovedCons(es: seq<Entry>, k: Key, ev: Event)
    requires es != []
    ensures Removed(es, k, ev)
            <==> ((Takes(es[0], ev) && es[0].oneShot && es[0].calls <= 1 && RemovesKey(k, es[0]))
                  || Removed(es[1..], k, ev))
  {
    hide Takes, RemovesKey;
    assert es == [es[0]] + es[1..];
    if Removed(es[1..], k, ev) {
      var i :| 0 <= i < |es[1..]| && Takes(es[1..][i], ev) && es[1..][i].oneShot && es[1..][i].calls <= 1
               && RemovesKey(k, es[1..][i]);
      assert es[i + 1] == es[1..][i];
    }
  }

  /** An entry used by the event has one call less; it is none of the other entries' business unless they remove it. */
  function Used(left: Option<Entry>, listed: Option<Entry>, ev: Event): Option<Entry> {
    if left.Some? && listed.Some? && listed.value.oneShot && Takes(listed.value, ev)
    then Some(left.value.(calls := listed.value.calls - 1)) else left
  }

  lemma OwnRemoval(e: Entry)
    ensures RemovesKey(KeyOf(e), e)
  {
  }

  /** The first entry of a list is like none of the others. */
  lemma NoneSame(es: seq<Entry>)
    requires Distinct(es) && es != []
    ensures Distinct(es[1..]) && forall e :: e in es[1..] ==> KeyOf(e) != KeyOf(es[0])
  {
    assert es == [es[0]] + es[1..];
    forall e | e in es[1..] ensures KeyOf(e) != KeyOf(es[0]) {
      var j :| 0 <= j < |es[1..]| && es[1..][j] == e;
      assert es[j + 1] == e && !Same(es[0], e.callback, e.onlyCaller, e.arguments);
    }
  }

  lemma {:induction false} FindNone(es: seq<Entry>, k: Key)
    requires forall e :: e in es ==> KeyOf(e) != k
    ensures Find(es, k) == None
  {
    if es != [] {
      FindNone(es[1..], k);
    }
  }

  lemma DistinctTail(es: seq<Entry>)
    requires Distinct(es) && es != []
    ensures Distinct(es[1..]) && Find(es[1..], KeyOf(es[0])) == None
  {
    NoneSame(es);
    FindNone(es[1..], KeyOf(es[0]));
  }

  lemma DistinctCons(e: Entry, rest: seq<Entry>)
    requires Distinct(rest) && forall r :: r in rest ==> KeyOf(r) != KeyOf(e)
    ensures Distinct([e] + rest)
  {
    var es := [e] + rest;
    forall i, j | 0 <= i < j < |es| ensures !Same(es[i], es[j].callback, es[j].onlyCaller, es[j].arguments) {
      assert es[j] == rest[j - 1] && rest[j - 1] in rest;
      assert i > 0 ==> es[i] == rest[i - 1];
    }
  }

  /** What `process` leaves of the entry `k`. */
  lemma {:induction false} FindCollect(snapshot: seq<Entry>, live: seq<Entry>, k: Key, ev: Event)
    requires Distinct(snapshot)
    ensures Find(Collect(snapshot, live, ev.caller, ev.subject).1, k)
            == if Removed(snapshot, k, ev) then None else Used(Find(live, k), Find(snapshot, k), ev)
  {
    if snapshot != [] {
      var e := snapshot[0];
      var next := if Takes(e, ev) && e.oneShot then UseOneShot(live, e) else live;
      DistinctTail(snapshot);
      FindDiscard(live, e, k);
      FindSetCalls(live, e, e.calls - 1, k);
      OwnRemoval(e);
      RemovedCons(snapshot, k, ev);
      FindCollect(snapshot[1..], next, k, ev);
      hide Removed, RemovesKey, ShouldProcess, Distinct, Discard, SetCalls;
    }
  }

  lemma {:induction false} DiscardMembers(es: seq<Entry>, callback: Callback, arguments: Option<Attributes>)
    requires Distinct(es)
    ensures Distinct(Discard(es, callback, arguments)) && forall e :: e in Discard(es, callback, arguments) ==> e in es
  {
    if es != [] {
      NoneSame(es);
      DiscardMembers(es[1..], callback, arguments);
      DistinctCons(es[0], Discard(es[1..], callback, arguments));
    }
  }

  lemma {:induction false} SetCallsKeys(es: seq<Entry>, f: Entry, calls: int)
    ensures var d := SetCalls(es, f, calls);
            |d| == |es|
            && forall i :: 0 <= i < |es| ==> KeyOf(d[i]) == KeyOf(es[i]) && (d[i] == es[i] || d[i].calls == calls)
  {
    if es != [] {
      SetCallsKeys(es[1..], f, calls);
    }
  }

  lemma SameIsKey(a: Entry, b: Entry)
    ensures Same(a, b.callback, b.onlyCaller, b.arguments) <==> KeyOf(a) == KeyOf(b)
  {
  }

  lemma UseKeeps(live: seq<Entry>, e: Entry)
    requires Distinct(live) && Counted(live)
    ensures Distinct(UseOneShot(live, e)) && Counted(UseOneShot(live, e))
  {
    var d := UseOneShot(live, e);
    if e.calls - 1 <= 0 {
      DiscardMembers(live, e.callback, e.arguments);
      assert forall i :: 0 <= i < |d| ==> d[i] in live;
    } else {
      SetCallsKeys(live, e, e.calls - 1);
      forall i, j | 0 <= i < j < |d| ensures !Same(d[i], d[j].callback, d[j].onlyCaller, d[j].arguments) {
        SameIsKey(d[i], d[j]);
        SameIsKey(live[i], live[j]);
      }
    }
  }

  lemma {:induction false} CollectKeeps(snapshot: seq<Entry>, live: seq<Entry>, ev: Event)
    requires Distinct(live) && Counted(live)
    ensures var left := Collect(snapshot, live, ev.caller, ev.subject).1; Distinct(left) && Counted(left)
  {
    hide Distinct, Counted, UseOneShot;
    if snapshot != [] {
      var e := snapshot[0];
      UseKeeps(live, e);
      CollectKeeps(snapshot[1..], if Takes(e, ev) && e.oneShot then UseOneShot(live, e) else live, ev);
    }
  }

  // ---------- One event ----------

  lemma AfterKeeps(es: seq<Entry>, ev: Event)
    requires Distinct(es) && Counted(es)
    ensures Distinct(After(es, ev)) && Counted(After(es, ev))
  {
    CollectKeeps(es, es, ev);
  }

  lemma AfterFind(es: seq<Entry>, k: Key, ev: Event)
    requires Distinct(es)
    ensures Find(After(es, ev), k) == if Removed(es, k, ev) then None else Used(Find(es, k), Find(es, k), ev)
  {
    FindCollect(es, es, k, ev);
  }

  /** Unless `f` is called alone, an event that calls `f` calls what `f` removes. */
  lemma CalledTogether(f: Entry, e: Entry, ev: Event)
    requires Removes(e, f.callback, f.arguments) && Takes(f, ev) && !CalledAlone(f, e)
    ensures Takes(e, ev)
  {
  }

  /** Whoever removes a remover of `k` removes `k`. */
  lemma RemovesTransitive(k: Key, f: Entry, g: Entry)
    requires RemovesKey(k, f) && RemovesKey(KeyOf(f), g)
    ensures RemovesKey(k, g)
  {
  }

  // ---------- Without a pair that undercuts ----------

  ghost predicate Safe(es: seq<Entry>, e: Entry) {
    forall f :: f in es ==> !Undercuts(f, e)
  }

  /** An entry that nothing undercuts is removed by an event only if it is used up by it. */
  lemma NotRemoved(es: seq<Entry>, e: Entry, ev: Event)
    requires Safe(es, e) && Counted(es) && e in es && Distinct(es)
    requires !Takes(e, ev) || !e.oneShot || e.calls > 1
    ensures !Removed(es, KeyOf(e), ev)
  {
    forall f | f in es ensures !(Takes(f, ev) && f.oneShot && f.calls <= 1 && RemovesKey(KeyOf(e), f)) {
      if KeyOf(f) == KeyOf(e) {
        FindMember(es, f);
        FindMember(es, e);
      } else if f.oneShot && RemovesKey(KeyOf(e), f) && Takes(f, ev) && !CalledAlone(f, e) {
        assert !Undercuts(f, e);
        CalledTogether(f, e, ev);
        if e.oneShot {
          CallsPositive(es, e);
        }
      }
    }
    assert forall i :: 0 <= i < |es| ==> es[i] in es;
  }

  /** What an event leaves of an entry. */
  function Rest(e: Entry, ev: Event): Entry {
    if e.oneShot && Takes(e, ev) then e.(calls := e.calls - 1) else e
  }

  /** Every entry left by an event was listed before it. */
  lemma LeftFromListed(es: seq<Entry>, g: Entry, ev: Event)
    requires Distinct(es) && Counted(es) && g in After(es, ev)
    ensures exists f :: f in es && g == Rest(f, ev)
  {
    AfterKeeps(es, ev);
    FindMember(After(es, ev), g);
    AfterFind(es, KeyOf(g), ev);
    FindKey(es, KeyOf(g));
    var f := Find(es, KeyOf(g)).value;
    FindMember(es, f);
    assert f in es && g == Rest(f, ev);
  }

  lemma SafeAfter(es: seq<Entry>, e: Entry, ev: Event)
    requires Distinct(es) && Counted(es) && Safe(es, e)
    ensures Safe(After(es, ev), Rest(e, ev))
  {
    forall g | g in After(es, ev) ensures !Undercuts(g, Rest(e, ev)) {
      LeftFromListed(es, g, ev);
      var f :| f in es && g == Rest(f, ev);
      assert !Undercuts(f, e);
      if f.oneShot && Takes(f, ev) && Removes(e, f.callback, f.arguments) && KeyOf(f) != KeyOf(e) {
        CalledTogether(f, e, ev);
      }
    }
  }

  lemma {:induction false} NeverAgain(es: seq<Entry>, k: Key, events: seq<Event>)
    requires Distinct(es) && Counted(es) && Find(es, k) == None
    ensures EntryCalls(es, k, events) == 0
    decreases events
  {
    if events != [] {
      AfterKeeps(es, events[0]);
      AfterFind(es, k, events[0]);
      NeverAgain(After(es, events[0]), k, events[1..]);
    }
  }

  lemma {:induction false} RestMatches(e: Entry, ev: Event, events: seq<Event>)
    ensures Matches(Rest(e, ev), events) == Matches(e, events)
    decreases events
  {
    if events != [] {
      RestMatches(e, ev, events[1..]);
    }
  }

  /** Nothing undercuts `e`: it is called by its first `calls` events. */
  lemma {:induction false} CalledWhenDue(es: seq<Entry>, e: Entry, events: seq<Event>)
    requires Distinct(es) && Counted(es) && e in es && Safe(es, e)
    ensures EntryCalls(es, KeyOf(e), events) == Due(e, events)
    decreases events
  {
    FindMember(es, e);
    if e.oneShot {
      CallsPositive(es, e);
    }
    if events != [] {
      var ev := events[0];
      AfterKeeps(es, ev);
      AfterFind(es, KeyOf(e), ev);
      RestMatches(e, ev, events[1..]);
      if Takes(e, ev) && e.oneShot && e.calls <= 1 {
        assert Removed(es, KeyOf(e), ev) by { UsedUp(es, e, ev); }
        NeverAgain(After(es, ev), KeyOf(e), events[1..]);
      } else {
        NotRemoved(es, e, ev);
        SafeAfter(es, e, ev);
        FindMember(After(es, ev), Rest(e, ev));
        CalledWhenDue(After(es, ev), Rest(e, ev), events[1..]);
      }
      hide Distinct, Counted, Safe, After, Takes, Removed;
    }
  }

  lemma CallsPositive(es: seq<Entry>, e: Entry)
    requires Counted(es) && e in es && e.oneShot
    ensures e.calls >= 1
  {
    var i :| 0 <= i < |es| && es[i] == e;
  }

  lemma UsedUp(es: seq<Entry>, e: Entry, ev: Event)
    requires e in es && Takes(e, ev) && e.oneShot && e.calls <= 1
    ensures Removed(es, KeyOf(e), ev)
  {
    OwnRemoval(e);
    var i :| 0 <= i < |es| && es[i] == e;
  }

  // ---------- With a pair that undercuts ----------

  function Repeat(ev: Event, n: nat): seq<Event> {
    if n == 0 then [] else [ev] + Repeat(ev, n - 1)
  }

  /** Events that use up `f` remove `k`, if something else has not removed it before. */
  lemma {:induction false} Exhausted(es: seq<Entry>, f: Entry, k: Key, ev: Event, later: seq<Event>)
    requires Distinct(es) && Counted(es) && f in es && f.oneShot && f.calls >= 1 && Takes(f, ev) && RemovesKey(k, f)
    requires k != KeyOf(f)
    ensures EntryCalls(es, k, Repeat(ev, f.calls) + later) == EntryCalls(es, k, Repeat(ev, f.calls))
    decreases f.calls
  {
    FindMember(es, f);
    var all := Repeat(ev, f.calls) + later;
    assert all[1..] == Repeat(ev, f.calls - 1) + later && all[0] == ev;
    assert Repeat(ev, f.calls)[1..] == Repeat(ev, f.calls - 1);
    var left := After(es, ev);
    AfterKeeps(es, ev);
    AfterFind(es, k, ev);
    AfterFind(es, KeyOf(f), ev);
    if Find(left, k) == None {
      NeverAgain(left, k, Repeat(ev, f.calls - 1) + later);
      NeverAgain(left, k, Repeat(ev, f.calls - 1));
    } else {
      RemoverStays(es, f, k, ev);
      FindMember(left, Rest(f, ev));
      Exhausted(left, Rest(f, ev), k, ev, later);
    }
    hide Distinct, Counted, After, Takes, Removed, RemovesKey;
  }

  lemma RemoverStays(es: seq<Entry>, f: Entry, k: Key, ev: Event)
    requires f in es && f.oneShot && Takes(f, ev) && RemovesKey(k, f) && !Removed(es, k, ev)
    ensures !Removed(es, KeyOf(f), ev) && f.calls > 1
  {
    var j :| 0 <= j < |es| && es[j] == f;
    forall i | 0 <= i < |es| && RemovesKey(KeyOf(f), es[i]) ensures RemovesKey(k, es[i]) {
      RemovesTransitive(k, f, es[i]);
    }
  }

  lemma TakesKey(a: Entry, b: Entry, ev: Event)
    requires KeyOf(a) == KeyOf(b)
    ensures Takes(a, ev) == Takes(b, ev)
  {
  }

  /** An entry is called by events that it is registered for, if at all. */
  lemma {:induction false} CallsAmongMatches(es: seq<Entry>, e: Entry, events: seq<Event>)
    ensures EntryCalls(es, KeyOf(e), events) <= Matches(e, events)
    decreases events
  {
    if events != [] {
      CallsAmongMatches(After(es, events[0]), e, events[1..]);
      FindKey(es, KeyOf(e));
      if Find(es, KeyOf(e)).Some? {
        TakesKey(Find(es, KeyOf(e)).value, e, events[0]);
      }
    }
  }

  lemma {:induction false} RepeatMatches(e: Entry, ev: Event, n: nat, last: Event)
    ensures Matches(e, Repeat(ev, n)) == if Takes(e, ev) then n else 0
    ensures Matches(e, Repeat(ev, n) + [last]) == Matches(e, Repeat(ev, n)) + if Takes(e, last) then 1 else 0
  {
    if n == 0 {
      assert Repeat(ev, 0) + [last] == [last] && [last][1..] == [];
    } else {
      RepeatMatches(e, ev, n - 1, last);
      assert Repeat(ev, n)[1..] == Repeat(ev, n - 1);
      assert (Repeat(ev, n) + [last])[1..] == Repeat(ev, n - 1) + [last];
    }
  }

  /** An event that calls `f`: without `e` if that is possible. */
  function EventFor(f: Entry, e: Entry): Event {
    var other := if e.onlyCaller.Some? then e.onlyCaller.value + 1 else 0;
    var caller := if f.onlyCaller.Some? then f.onlyCaller.value else other;
    Event(caller, if f.arguments.None? && e.arguments.Some? then None
                  else Some(if f.arguments.Some? then f.arguments.value else map[]))
  }

  /** An event that calls `e`. */
  function EventOf(e: Entry): Event {
    Event(if e.onlyCaller.Some? then e.onlyCaller.value else 0,
          Some(if e.arguments.Some? then e.arguments.value else map[]))
  }

  lemma EventForCalls(f: Entry, e: Entry)
    requires Removes(e, f.callback, f.arguments)
    ensures Takes(f, EventFor(f, e)) && Takes(e, EventOf(e)) && (Takes(e, EventFor(f, e)) <==> !CalledAlone(f, e))
  {
  }

  /** The events by which `f` undercuts `e`: they use up `f`, and then call `e` once more. */
  function Losing(f: Entry, e: Entry): seq<Event>
    requires f.calls >= 0
  {
    Repeat(EventFor(f, e), f.calls) + [if CalledAlone(f, e) then EventOf(e) else EventFor(f, e)]
  }

  /** Something undercuts `e`: here are events in which `e` misses a call. */
  lemma MissesACall(es: seq<Entry>, f: Entry, e: Entry)
    requires Distinct(es) && Counted(es) && e in es && f in es && Undercuts(f, e)
    ensures f.calls >= 1 && EntryCalls(es, KeyOf(e), Losing(f, e)) < Due(e, Losing(f, e))
  {
    CallsPositive(es, f);
    if e.oneShot {
      CallsPositive(es, e);
    }
    EventForCalls(f, e);
    var ev := EventFor(f, e);
    var last := if CalledAlone(f, e) then EventOf(e) else ev;
    Exhausted(es, f, KeyOf(e), ev, [last]);
    CallsAmongMatches(es, e, Repeat(ev, f.calls));
    RepeatMatches(e, ev, f.calls, last);
    hide Distinct, Counted, EntryCalls, Takes, Removes, Repeat, EventFor, EventOf, Matches;
  }

  /**
    In a list of callbacks an entry is called by exactly the first `calls` of its events, whatever events
    occur, if and only if no one-shot of the same callback undercuts it.
   */
  lemma CalledWhenDueExactly(es: seq<Entry>, e: Entry)
    requires Distinct(es) && Counted(es) && e in es
    ensures (forall events :: EntryCalls(es, KeyOf(e), events) == Due(e, events))
            <==> (forall f :: f in es ==> !Undercuts(f, e))
  {
    hide Distinct, Counted, EntryCalls, Due, Undercuts, Losing;
    if forall f :: f in es ==> !Undercuts(f, e) {
      forall events ensures EntryCalls(es, KeyOf(e), events) == Due(e, events) {
        CalledWhenDue(es, e, events);
      }
    } else {
      var f :| f in es && Undercuts(f, e);
      MissesACall(es, f, e);
      assert EntryCalls(es, KeyOf(e), Losing(f, e)) != Due(e, Losing(f, e));
    }
  }

  // ---------- Counted registration ----------

  lemma {:induction false} AddNew(es: seq<Entry>, k: Key)
    requires forall f :: f in es ==> KeyOf(f) != k
    ensures AddTo(es, k.callback, true, k.onlyCaller, k.arguments)
            == es + [Entry(k.callback, true, k.onlyCaller, k.arguments, 1)]
  {
    if es != [] {
      AddNew(es[1..], k);
      SameIsKey(es[0], Entry(k.callback, true, k.onlyCaller, k.arguments, 1));
    }
  }

  lemma {:induction false} AddAgain(es: seq<Entry>, e: Entry)
    requires e.oneShot && forall f :: f in es ==> KeyOf(f) != KeyOf(e)
    ensures AddTo(es + [e], e.callback, true, e.onlyCaller, e.arguments) == es + [e.(calls := e.calls + 1)]
  {
    if es == [] {
      assert [] + [e] == [e] && [e][1..] == [];
    } else {
      AddAgain(es[1..], e);
      assert (es + [e])[1..] == es[1..] + [e];
      SameIsKey(es[0], e);
    }
  }

  lemma {:induction false} AddTimesAppends(es: seq<Entry>, k: Key, n: nat)
    requires n >= 1 && forall f :: f in es ==> KeyOf(f) != k
    ensures AddTimes(es, k.callback, k.onlyCaller, k.arguments, n)
            == es + [Entry(k.callback, true, k.onlyCaller, k.arguments, n)]
  {
    if n == 1 {
      AddNew(es, k);
      assert AddTimes(es, k.callback, k.onlyCaller, k.arguments, 0) == es;
    } else {
      AddTimesAppends(es, k, n - 1);
      AddAgain(es, Entry(k.callback, true, k.onlyCaller, k.arguments, n - 1));
    }
  }

  lemma DistinctAppend(es: seq<Entry>, e: Entry)
    requires Distinct(es) && forall f :: f in es ==> KeyOf(f) != KeyOf(e)
    ensures Distinct(es + [e])
  {
    var d := es + [e];
    forall i, j | 0 <= i < j < |d| ensures !Same(d[i], d[j].callback, d[j].onlyCaller, d[j].arguments) {
      assert d[i] == es[i] && es[i] in es;
      SameIsKey(d[i], d[j]);
      assert j < |es| ==> d[j] == es[j];
    }
  }

  /**
    A one-shot registered `n` times beside any other entries is called by exactly the first `n` of its
    events, whatever events occur, if and only if none of the others undercuts it.
   */
  lemma OneShotFiresCountedTimes(es: seq<Entry>, k: Key, n: nat)
    requires Distinct(es) && Counted(es) && n >= 1 && forall f :: f in es ==> KeyOf(f) != k
    ensures var e := Entry(k.callback, true, k.onlyCaller, k.arguments, n);
            var registered := AddTimes(es, k.callback, k.onlyCaller, k.arguments, n);
            (forall events ::
               EntryCalls(registered, k, events) == if n < Matches(e, events) then n else Matches(e, events))
            <==> (forall f :: f in es ==> !Undercuts(f, e))
  {
    var e := Entry(k.callback, true, k.onlyCaller, k.arguments, n);
    AddTimesAppends(es, k, n);
    DistinctAppend(es, e);
    assert Counted(es + [e]);
    assert KeyOf(e) == k && !Undercuts(e, e);
    hide Distinct, Counted, EntryCalls, Matches, Undercuts;
    assert forall f :: f in es + [e] <==> f in es || f == e;
    CalledWhenDueExactly(es + [e], e);
    assert forall events :: Due(e, events) == if n < Matches(e, events) then n else Matches(e, events);
  }
}
