/** The callback registry (callback.py). */
module Callbacks {
  import opened Bytes

  /** A registered callable: the application's, or one of the channel's own. */
  datatype Callback =
    | User(id: nat)
    | OnSynchronousComplete
    | OnOpenOk
    | OnCloseOk
    | OnCancelOk
    | OnCancel
    | OnCloseFromBroker

  type Attributes = map<string, string>

  /** A callback dictionary; `calls` is kept for one-shots only. */
  datatype Entry = Entry(callback: Callback, oneShot: bool, onlyCaller: Option<nat>, arguments: Option<Attributes>,
                         calls: int)

  // ---------- Matching ----------

  /** `_arguments_match`: `subject` has the attributes of the first argument, or is `None` when there is no argument. */
  predicate ArgumentsMatch(arguments: Option<Attributes>, subject: Option<Attributes>) {
    arguments.None?
    || (subject.Some?
        && forall k :: k in arguments.value ==> k in subject.value && subject.value[k] == arguments.value[k])
  }

  predicate ShouldProcess(e: Entry, caller: nat, subject: Option<Attributes>) {
    ArgumentsMatch(e.arguments, subject) && (e.onlyCaller.None? || e.onlyCaller.value == caller)
  }

  predicate Same(e: Entry, callback: Callback, onlyCaller: Option<nat>, arguments: Option<Attributes>) {
    e.callback == callback && e.arguments == arguments && e.onlyCaller == onlyCaller
  }

  // ---------- The list of one prefix and key ----------

  /** `add`: a duplicate one-shot counts one call more, any other duplicate changes nothing. */
  function AddTo(es: seq<Entry>, callback: Callback, oneShot: bool, onlyCaller: Option<nat>,
                 arguments: Option<Attributes>)
    : seq<Entry>
  {
    if es == [] then [Entry(callback, oneShot, onlyCaller, arguments, if oneShot then 1 else 0)]
    else if Same(es[0], callback, onlyCaller, arguments) then
      [if es[0].oneShot then es[0].(calls := es[0].calls + 1) else es[0]] + es[1..]
    else [es[0]] + AddTo(es[1..], callback, oneShot, onlyCaller, arguments)
  }

  /** The test by which `remove` with a callback selects what it deletes. */
  predicate Removes(e: Entry, callback: Callback, arguments: Option<Attributes>) {
    e.callback == callback && ArgumentsMatch(e.arguments, Some(if arguments.Some? then arguments.value else map[]))
  }

  function Discard(es: seq<Entry>, callback: Callback, arguments: Option<Attributes>): seq<Entry> {
    if es == [] then []
    else if Removes(es[0], callback, arguments) then Discard(es[1..], callback, arguments)
    else [es[0]] + Discard(es[1..], callback, arguments)
  }

  /** Writes the call counter of the dictionary that `e` describes, if it is still listed. */
  function SetCalls(es: seq<Entry>, e: Entry, calls: int): seq<Entry> {
    if es == [] then []
    else
      [if Same(es[0], e.callback, e.onlyCaller, e.arguments) then es[0].(calls := calls) else es[0]]
      + SetCalls(es[1..], e, calls)
  }

  /** `_use_one_shot_callback`. */
  function UseOneShot(live: seq<Entry>, e: Entry): seq<Entry> {
    if e.calls - 1 <= 0 then Discard(live, e.callback, e.arguments) else SetCalls(live, e, e.calls - 1)
  }

  /**
    The first loop of `process`: over a snapshot of the list, which callbacks to call, in order,
    and what is left of the live list.
   */
  function Collect(snapshot: seq<Entry>, live: seq<Entry>, caller: nat, subject: Option<Attributes>)
    : (seq<Callback>, seq<Entry>)
  {
    if snapshot == [] then ([], live)
    else
      var e := snapshot[0];
      if !ShouldProcess(e, caller, subject) then Collect(snapshot[1..], live, caller, subject)
      else
        var (called, left) := Collect(snapshot[1..], if e.oneShot then UseOneShot(live, e) else live, caller, subject);
        ([e.callback] + called, left)
  }

  function Process(es: seq<Entry>, caller: nat, subject: Option<Attributes>): (seq<Callback>, seq<Entry>) {
    Collect(es, es, caller, subject)
  }

  // ---------- What processing calls ----------

  function Matching(es: seq<Entry>, caller: nat, subject: Option<Attributes>): seq<Callback> {
    if es == [] then []
    else if ShouldProcess(es[0], caller, subject) then [es[0].callback] + Matching(es[1..], caller, subject)
    else Matching(es[1..], caller, subject)
  }

  /** Every matching callback is called once, in the order of registration, whatever the one-shots remove meanwhile. */
  lemma {:induction false} ProcessCallsMatching(snapshot: seq<Entry>, live: seq<Entry>, caller: nat,
                                                subject: Option<Attributes>)
    ensures Collect(snapshot, live, caller, subject).0 == Matching(snapshot, caller, subject)
  {
    if snapshot != [] {
      var e := snapshot[0];
      var next := if ShouldProcess(e, caller, subject) && e.oneShot then UseOneShot(live, e) else live;
      ProcessCallsMatching(snapshot[1..], next, caller, subject);
    }
  }

  /** No dictionary is listed twice. */
  ghost predicate Distinct(es: seq<Entry>) {
    forall i, j :: 0 <= i < j < |es| ==> !Same(es[i], es[j].callback, es[j].onlyCaller, es[j].arguments)
  }

  lemma {:induction false} AddKeepsDistinct(es: seq<Entry>, callback: Callback, oneShot: bool, onlyCaller: Option<nat>,
                                            arguments: Option<Attributes>)
    requires Distinct(es)
    ensures Distinct(AddTo(es, callback, oneShot, onlyCaller, arguments))
    ensures forall e :: e in AddTo(es, callback, oneShot, onlyCaller, arguments) ==>
              Same(e, callback, onlyCaller, arguments) || e in es
  {
    if es != [] && !Same(es[0], callback, onlyCaller, arguments) {
      var rest := AddTo(es[1..], callback, oneShot, onlyCaller, arguments);
      AddKeepsDistinct(es[1..], callback, oneShot, onlyCaller, arguments);
      forall j | 0 <= j < |rest|
        ensures !Same(es[0], rest[j].callback, rest[j].onlyCaller, rest[j].arguments)
      {
        assert rest[j] in rest;
        if rest[j] in es[1..] {
          var k :| 0 <= k < |es[1..]| && es[1..][k] == rest[j];
          assert es[k + 1] == rest[j];
        }
      }
    }
  }

  // ---------- Counted one-shots ----------

  /** The entries of one callback. */
  function Of(es: seq<Entry>, callback: Callback): seq<Entry> {
    if es == [] then []
    else if es[0].callback == callback then [es[0]] + Of(es[1..], callback)
    else Of(es[1..], callback)
  }

  lemma OfCons(e: Entry, es: seq<Entry>, c: Callback)
    ensures Of([e] + es, c) == if e.callback == c then [e] + Of(es, c) else Of(es, c)
    ensures ([e] + Of(es, c))[1..] == Of(es, c)
  {
    assert ([e] + es)[1..] == es;
  }

  lemma {:induction false} AddOf(es: seq<Entry>, callback: Callback, oneShot: bool, onlyCaller: Option<nat>,
                                 arguments: Option<Attributes>, c: Callback)
    ensures Of(AddTo(es, callback, oneShot, onlyCaller, arguments), c)
            == if callback == c then AddTo(Of(es, c), callback, oneShot, onlyCaller, arguments) else Of(es, c)
  {
    hide Of;
    if es == [] {
      OfEmpty(c);
      var e := Entry(callback, oneShot, onlyCaller, arguments, if oneShot then 1 else 0);
      OfCons(e, [], c);
      assert [e] + [] == [e];
      AddToNothing(callback, oneShot, onlyCaller, arguments);
    } else {
      var rest := es[1..];
      assert es == [es[0]] + rest;
      OfCons(es[0], rest, c);
      if Same(es[0], callback, onlyCaller, arguments) {
        OfCons(es[0].(calls := es[0].calls + 1), rest, c);
      } else {
        AddOf(rest, callback, oneShot, onlyCaller, arguments, c);
        OfCons(es[0], AddTo(rest, callback, oneShot, onlyCaller, arguments), c);
      }
    }
  }

  lemma OfEmpty(c: Callback)
    ensures Of([], c) == []
  {
  }

  lemma {:induction false} DiscardOf(es: seq<Entry>, callback: Callback, arguments: Option<Attributes>, c: Callback)
    ensures Of(Discard(es, callback, arguments), c)
            == if callback == c then Discard(Of(es, c), callback, arguments) else Of(es, c)
  {
    if es != [] {
      DiscardOf(es[1..], callback, arguments, c);
      OfCons(es[0], es[1..], c);
      OfCons(es[0], Discard(es[1..], callback, arguments), c);
    }
  }

  lemma {:induction false} SetCallsOf(es: seq<Entry>, e: Entry, calls: int, c: Callback)
    ensures Of(SetCalls(es, e, calls), c) == if e.callback == c then SetCalls(Of(es, c), e, calls) else Of(es, c)
  {
    if es != [] {
      SetCallsOf(es[1..], e, calls, c);
      OfCons(es[0], es[1..], c);
      OfCons(es[0], SetCalls(es[1..], e, calls), c);
      OfCons(es[0].(calls := calls), SetCalls(es[1..], e, calls), c);
    }
  }

  function Count(cs: seq<Callback>, c: Callback): nat {
    if cs == [] then 0 else (if cs[0] == c then 1 else 0) + Count(cs[1..], c)
  }

  /** The entries of one callback fare as if they were alone in the list. */
  lemma {:induction false} ProcessOf(snapshot: seq<Entry>, live: seq<Entry>, caller: nat, subject: Option<Attributes>,
                                     c: Callback)
    ensures var (called, left) := Collect(snapshot, live, caller, subject);
            var (called', left') := Collect(Of(snapshot, c), Of(live, c), caller, subject);
            Of(left, c) == left' && Count(called, c) == |called'|
  {
    hide UseOneShot, ShouldProcess;
    if snapshot != [] {
      var e := snapshot[0];
      var next := if ShouldProcess(e, caller, subject) && e.oneShot then UseOneShot(live, e) else live;
      ProcessOf(snapshot[1..], next, caller, subject, c);
      UseOneShotOf(live, e, c);
      OfCons(e, snapshot[1..], c);
      var (called, _) := Collect(snapshot[1..], next, caller, subject);
      assert ([e.callback] + called)[1..] == called;
    }
  }

  lemma UseOneShotOf(live: seq<Entry>, e: Entry, c: Callback)
    ensures Of(UseOneShot(live, e), c) == if e.callback == c then UseOneShot(Of(live, c), e) else Of(live, c)
  {
    DiscardOf(live, e.callback, e.arguments, c);
    SetCallsOf(live, e, e.calls - 1, c);
  }

  function AddTimes(es: seq<Entry>, callback: Callback, onlyCaller: Option<nat>, arguments: Option<Attributes>, k: nat)
    : seq<Entry>
  {
    if k == 0 then es
    else AddTo(AddTimes(es, callback, onlyCaller, arguments, k - 1), callback, true, onlyCaller, arguments)
  }

  /** How often `callback` is called when the key is processed `n` times. */
  function CallsIn(es: seq<Entry>, callback: Callback, caller: nat, subject: Option<Attributes>, n: nat): nat
    decreases n
  {
    if n == 0 then 0
    else
      var (called, left) := Process(es, caller, subject);
      Count(called, callback) + CallsIn(left, callback, caller, subject, n - 1)
  }

  lemma {:induction false} AddTimesOf(es: seq<Entry>, callback: Callback, onlyCaller: Option<nat>,
                                      arguments: Option<Attributes>,
                                      k: nat)
    requires Of(es, callback) == []
    ensures Of(AddTimes(es, callback, onlyCaller, arguments, k), callback)
            == if k == 0 then [] else [Entry(callback, true, onlyCaller, arguments, k)]
  {
    if k > 0 {
      AddTimesOf(es, callback, onlyCaller, arguments, k - 1);
      AddOf(AddTimes(es, callback, onlyCaller, arguments, k - 1), callback, true, onlyCaller, arguments, callback);
    }
  }

  lemma {:induction false} CountedCalls(es: seq<Entry>, callback: Callback, onlyCaller: Option<nat>,
                                        arguments: Option<Attributes>,
                                        k: nat, caller: nat, subject: Option<Attributes>, n: nat)
    requires Of(es, callback) == if k == 0 then [] else [Entry(callback, true, onlyCaller, arguments, k)]
    requires ArgumentsMatch(arguments, subject) && (onlyCaller.None? || onlyCaller.value == caller)
    ensures CallsIn(es, callback, caller, subject, n) == if n < k then n else k
    decreases n
  {
    hide Collect, Of, ShouldProcess;
    if n > 0 {
      var (called, left) := Process(es, caller, subject);
      ProcessOf(es, es, caller, subject, callback);
      if k > 0 {
        SingleUse(Entry(callback, true, onlyCaller, arguments, k), caller, subject);
        CountedCalls(left, callback, onlyCaller, arguments, k - 1, caller, subject, n - 1);
      } else {
        NothingToUse(caller, subject);
        CountedCalls(left, callback, onlyCaller, arguments, 0, caller, subject, n - 1);
      }
    }
  }

  lemma NothingToUse(caller: nat, subject: Option<Attributes>)
    ensures Collect([], [], caller, subject) == ([], [])
  {
  }

  lemma SingleUse(e: Entry, caller: nat, subject: Option<Attributes>)
    requires e.oneShot && e.calls >= 1 && ArgumentsMatch(e.arguments, subject)
    requires e.onlyCaller.None? || e.onlyCaller.value == caller
    ensures Process([e], caller, subject) == ([e.callback], if e.calls == 1 then [] else [e.(calls := e.calls - 1)])
  {
    assert [e][1..] == [];
    assert Collect([], UseOneShot([e], e), caller, subject) == ([], UseOneShot([e], e));
    assert [e.callback] + [] == [e.callback];
    assert SetCalls([e], e, e.calls - 1) == [e.(calls := e.calls - 1)] + [] == [e.(calls := e.calls - 1)];
    assert Discard([e], e.callback, e.arguments) == [] by {
      assert Removes(e, e.callback, e.arguments);
    }
  }

  /**
    A one-shot registered `k` times under a key where the callback has no other entry is called by
    exactly the first `k` matching events, whatever else is registered there.
   */
  lemma LoneOneShotFiresCountedTimes(es: seq<Entry>, callback: Callback, onlyCaller: Option<nat>,
                                     arguments: Option<Attributes>,
                                 k: nat, caller: nat, subject: Option<Attributes>, n: nat)
    requires Of(es, callback) == []
    requires ArgumentsMatch(arguments, subject) && (onlyCaller.None? || onlyCaller.value == caller)
    ensures CallsIn(AddTimes(es, callback, onlyCaller, arguments, k), callback, caller, subject, n)
            == if n < k then n else k
  {
    AddTimesOf(es, callback, onlyCaller, arguments, k);
    CountedCalls(AddTimes(es, callback, onlyCaller, arguments, k), callback, onlyCaller, arguments, k, caller, subject,
                 n);
  }

  /**
    With overlapping arguments the count does not hold: using up a one-shot that expects `{"a": "1"}`
    also removes the entry of the same callback that expects nothing, unused calls included.
   */
  lemma OverlapLosesCalls(n: nat)
    ensures var es := AddTimes(AddTimes([], User(0), None, None, 2), User(0), None, Some(map["a" := "1"]), 1);
            CallsIn(es, User(0), 0, Some(map["a" := "1"]), n + 1) == 2
  {
    var narrow, wide := Entry(User(0), true, None, Some(map["a" := "1"]), 1), Entry(User(0), true, None, None, 2);
    var es := [wide, narrow];
    var subject := Some(map["a" := "1"]);
    assert AddTimes([], User(0), None, None, 1) == [wide.(calls := 1)];
    assert AddTimes([], User(0), None, None, 2) == [wide];
    assert [wide][1..] == [] && [wide] + [narrow] == es;
    assert "a" in map["a" := "1"];
    assert !Same(wide, User(0), None, narrow.arguments);
    assert AddTimes([wide], User(0), None, narrow.arguments, 0) == [wide];
    assert AddTo([], User(0), true, None, narrow.arguments) == [narrow];
    assert AddTo([wide], User(0), true, None, narrow.arguments)
           == [wide] + AddTo([wide][1..], User(0), true, None, narrow.arguments);
    assert AddTimes([wide], User(0), None, narrow.arguments, 1) == es;
    assert es[1..] == [narrow] && [narrow][1..] == [];
    assert ShouldProcess(wide, 0, subject) && ShouldProcess(narrow, 0, subject);
    var live := SetCalls(es, wide, 1);
    assert live == [wide.(calls := 1), narrow] by {
      assert SetCalls([narrow], wide, 1) == [narrow];
    }
    assert Removes(wide.(calls := 1), User(0), narrow.arguments) && Removes(narrow, User(0), narrow.arguments);
    assert live[1..] == [narrow];
    assert Discard(live, User(0), narrow.arguments) == [] by {
      assert Discard([narrow], User(0), narrow.arguments) == [];
    }
    assert UseOneShot(live, narrow) == [];
    assert Collect([], [], 0, subject) == ([], []);
    assert [User(0)] + [] == [User(0)];
    assert Collect([narrow], live, 0, subject) == ([User(0)], []);
    assert [User(0)] + [User(0)] == [User(0), User(0)];
    assert UseOneShot(es, wide) == live;
    assert Process(es, 0, subject) == ([User(0), User(0)], []);
    assert [User(0), User(0)][1..] == [User(0)];
    assert Count([User(0), User(0)], User(0)) == 2 by { assert [User(0)][1..] == []; }
    NothingCalled(User(0), subject, n);
  }

  lemma {:induction false} NothingCalled(c: Callback, subject: Option<Attributes>, n: nat)
    ensures CallsIn([], c, 0, subject, n) == 0
  {
    if n > 0 {
      NothingCalled(c, subject, n - 1);
    }
  }

  lemma AddStep(es: seq<Entry>, i: nat, callback: Callback, oneShot: bool, onlyCaller: Option<nat>,
                arguments: Option<Attributes>)
    requires i < |es|
    ensures es[..i] + AddTo(es[i..], callback, oneShot, onlyCaller, arguments)
            == if Same(es[i], callback, onlyCaller, arguments)
               then (if es[i].oneShot then es[i := es[i].(calls := es[i].calls + 1)] else es)
               else es[..i + 1] + AddTo(es[i + 1..], callback, oneShot, onlyCaller, arguments)
  {
    assert es[i..][1..] == es[i + 1..];
  }

  lemma AddToNothing(callback: Callback, oneShot: bool, onlyCaller: Option<nat>, arguments: Option<Attributes>)
    ensures AddTo([], callback, oneShot, onlyCaller, arguments)
            == [Entry(callback, oneShot, onlyCaller, arguments, if oneShot then 1 else 0)]
  {
  }

  // ---------- The registry ----------

  type Stack = map<int, map<string, seq<Entry>>>

  function ListAt(stack: Stack, prefix: int, key: string): seq<Entry> {
    if prefix in stack && key in stack[prefix] then stack[prefix][key] else []
  }

  /** No empty dictionary or list stays behind. */
  ghost predicate Pruned(stack: Stack) {
    forall p :: p in stack ==> stack[p] != map[] && forall k :: k in stack[p] ==> stack[p][k] != []
  }

  function WithList(stack: Stack, prefix: int, key: string, es: seq<Entry>): (after: Stack)
    ensures ListAt(after, prefix, key) == es
    ensures forall p, k :: p != prefix || k != key ==> ListAt(after, p, k) == ListAt(stack, p, k)
    ensures es != [] && Pruned(stack) ==> Pruned(after)
  {
    var keys := if prefix in stack then stack[prefix] else map[];
    var after := stack[prefix := keys[key := es]];
    assert key in after[prefix];
    assert forall k :: k != key ==> (k in after[prefix] <==> k in keys);
    after
  }

  class CallbackManager {
    var stack: Stack

    constructor ()
      ensures stack == map[]
    {
      stack := map[];
    }

    method Add(prefix: int, key: string, callback: Callback, oneShot: bool, onlyCaller: Option<nat>,
               arguments: Option<Attributes>)
      modifies this
      ensures ListAt(stack, prefix, key)
              == AddTo(old(ListAt(stack, prefix, key)), callback, oneShot, onlyCaller, arguments)
      ensures forall p, k :: p != prefix || k != key ==> ListAt(stack, p, k) == old(ListAt(stack, p, k))
      ensures old(Pruned(stack)) ==> Pruned(stack)
    {
      hide AddTo;
      var es := ListAt(stack, prefix, key);
      assert es[..0] + es[0..] == es && [] + AddTo(es, callback, oneShot, onlyCaller, arguments)
             == AddTo(es, callback, oneShot, onlyCaller, arguments);
      var i := 0;
      while i < |es|
        invariant i <= |es| && stack == old(stack)
        invariant es[..i] + AddTo(es[i..], callback, oneShot, onlyCaller, arguments)
                  == AddTo(es, callback, oneShot, onlyCaller, arguments)
      {
        AddStep(es, i, callback, oneShot, onlyCaller, arguments);
        if Same(es[i], callback, onlyCaller, arguments) {
          if es[i].oneShot {
            es := es[i := es[i].(calls := es[i].calls + 1)];
          }
          Store(prefix, key, es);
          return;
        }
        i := i + 1;
      }
      assert es[..i] == es && es[i..] == [];
      AddToNothing(callback, oneShot, onlyCaller, arguments);
      Store(prefix, key, es + [Entry(callback, oneShot, onlyCaller, arguments, if oneShot then 1 else 0)]);
    }

    method Store(prefix: int, key: string, es: seq<Entry>)
      requires es != []
      modifies this
      ensures ListAt(stack, prefix, key) == es
      ensures forall p, k :: p != prefix || k != key ==> ListAt(stack, p, k) == old(ListAt(stack, p, k))
      ensures old(Pruned(stack)) ==> Pruned(stack)
    {
      stack := WithList(stack, prefix, key, es);
    }

    /** Selects the callbacks that `process` is about to call, and uses up one-shots. */
    method Fire(prefix: int, key: string, caller: nat, subject: Option<Attributes>) returns (called: seq<Callback>)
      modifies this
      ensures (called, ListAt(stack, prefix, key)) == Process(old(ListAt(stack, prefix, key)), caller, subject)
      ensures forall p, k :: p != prefix || k != key ==> ListAt(stack, p, k) == old(ListAt(stack, p, k))
      ensures old(Pruned(stack)) ==> Pruned(stack)
    {
      hide ShouldProcess, UseOneShot;
      called := [];
      var snapshot := ListAt(stack, prefix, key);
      var live := snapshot;
      assert snapshot[0..] == snapshot
             && [] + Process(snapshot, caller, subject).0 == Process(snapshot, caller, subject).0;
      var i := 0;
      while i < |snapshot|
        invariant i <= |snapshot|
        invariant Process(snapshot, caller, subject)
                  == var (c, l) := Collect(snapshot[i..], live, caller, subject); (called + c, l)
      {
        assert snapshot[i..][1..] == snapshot[i + 1..];
        var e := snapshot[i];
        if ShouldProcess(e, caller, subject) {
          if e.oneShot {
            live := UseOneShot(live, e);
          }
          var (c, l) := Collect(snapshot[i + 1..], live, caller, subject);
          assert called + ([e.callback] + c) == called + [e.callback] + c;
          called := called + [e.callback];
        }
        i := i + 1;
      }
      assert called + [] == called;
      SetList(prefix, key, live);
    }

    method Remove(prefix: int, key: string, callback: Option<Callback>, arguments: Option<Attributes>)
      modifies this
      ensures ListAt(stack, prefix, key)
              == (if callback.Some? then Discard(old(ListAt(stack, prefix, key)), callback.value, arguments)
                  else old(ListAt(stack, prefix, key)))
      ensures forall p, k :: p != prefix || k != key ==> ListAt(stack, p, k) == old(ListAt(stack, p, k))
      ensures old(Pruned(stack)) ==> Pruned(stack)
    {
      var es := ListAt(stack, prefix, key);
      if callback.Some? {
        es := Discard(es, callback.value, arguments);
      }
      SetList(prefix, key, es);
    }

    /** Stores a list and prunes what became empty (`_cleanup_callback_dict`). */
    method SetList(prefix: int, key: string, es: seq<Entry>)
      modifies this
      requires ListAt(stack, prefix, key) == [] ==> es == []
      ensures ListAt(stack, prefix, key) == es
      ensures forall p, k :: p != prefix || k != key ==> ListAt(stack, p, k) == old(ListAt(stack, p, k))
      ensures old(Pruned(stack)) ==> Pruned(stack)
    {
      if prefix !in stack || key !in stack[prefix] {
        return;
      }
      if es != [] {
        Store(prefix, key, es);
        return;
      }
      var keys := stack[prefix] - {key};
      assert forall k :: k != key ==> (k in keys <==> k in stack[prefix]);
      if keys == map[] {
        stack := stack - {prefix};
      } else {
        stack := stack[prefix := keys];
      }
    }

    method Cleanup(prefix: int) returns (removed: bool)
      modifies this
      ensures forall k :: ListAt(stack, prefix, k) == []
      ensures forall p, k :: p != prefix ==> ListAt(stack, p, k) == old(ListAt(stack, p, k))
      ensures old(Pruned(stack)) ==> Pruned(stack) && (removed <==> prefix in old(stack))
    {
      if prefix !in stack || stack[prefix] == map[] {
        return false;
      }
      stack := stack - {prefix};
      return true;
    }

    /** The number of entries, or `None` when the key is not listed. */
    method Pending(prefix: int, key: string) returns (n: Option<nat>)
      ensures Pruned(stack) ==>
                n == if ListAt(stack, prefix, key) == [] then None else Some(|ListAt(stack, prefix, key)|)
    {
      if prefix !in stack || key !in stack[prefix] {
        return None;
      }
      return Some(|stack[prefix][key]|);
    }
  }
}
