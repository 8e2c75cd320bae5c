/** Which events concern an entry. */
module CallbackMatching {
  import opened Bytes
  import opened Callbacks

  /** The event gives the entry something other than the value it expects for `k`. */
  predicate Contradicts(e: Entry, subject: Option<Attributes>, k: string) {
    e.arguments.Some? && k in e.arguments.value
    && (subject.None? || k !in subject.value || subject.value[k] != e.arguments.value[k])
  }

  /** `x`, with `e` put somewhere into it, is `y`. */
  ghost predicate Inserted(e: Entry, x: seq<Entry>, y: seq<Entry>) {
    exists i :: 0 <= i <= |x| && y == x[..i] + [e] + x[i..]
  }

  lemma InsertedFirst(e: Entry, first: Entry, x: seq<Entry>, y: seq<Entry>)
    requires Inserted(e, x, y)
    ensures Inserted(e, [first] + x, [first] + y)
  {
    var i :| 0 <= i <= |x| && y == x[..i] + [e] + x[i..];
    var longer := [first] + x;
    assert longer[..i + 1] + [e] + longer[i + 1..] == [first] + y;
  }

  lemma InsertedHere(e: Entry, x: seq<Entry>)
    ensures Inserted(e, x, [e] + x)
  {
    assert x[..0] + [e] + x[0..] == [e] + x;
  }

  lemma {:induction false} DiscardInserted(e: Entry, x: seq<Entry>, i: nat, callback: Callback,
                                           arguments: Option<Attributes>)
    requires i <= |x| && !Removes(e, callback, arguments)
    ensures Inserted(e, Discard(x, callback, arguments), Discard(x[..i] + [e] + x[i..], callback, arguments))
  {
    hide Removes, Inserted;
    var y := x[..i] + [e] + x[i..];
    if i == 0 {
      assert y == [e] + x && y[1..] == x;
      InsertedHere(e, Discard(x, callback, arguments));
    } else {
      assert y[0] == x[0] && y[1..] == x[1..][..i - 1] + [e] + x[1..][i - 1..];
      DiscardInserted(e, x[1..], i - 1, callback, arguments);
      InsertedFirst(e, x[0], Discard(x[1..], callback, arguments), Discard(y[1..], callback, arguments));
    }
  }

  lemma {:induction false} SetCallsInserted(e: Entry, x: seq<Entry>, i: nat, f: Entry, calls: int)
    requires i <= |x| && e.arguments != f.arguments
    ensures Inserted(e, SetCalls(x, f, calls), SetCalls(x[..i] + [e] + x[i..], f, calls))
  {
    hide Inserted;
    var y := x[..i] + [e] + x[i..];
    if i == 0 {
      assert y == [e] + x && y[1..] == x;
      InsertedHere(e, SetCalls(x, f, calls));
    } else {
      assert y[0] == x[0] && y[1..] == x[1..][..i - 1] + [e] + x[1..][i - 1..];
      SetCallsInserted(e, x[1..], i - 1, f, calls);
      InsertedFirst(e, SetCalls(x, f, calls)[0], SetCalls(x[1..], f, calls), SetCalls(y[1..], f, calls));
    }
  }

  /** Using up a one-shot that the event concerns leaves an entry alone that it does not concern. */
  lemma UseOneShotInserted(e: Entry, x: seq<Entry>, y: seq<Entry>, f: Entry, caller: nat, subject: Option<Attributes>,
                           k: string)
    requires Inserted(e, x, y) && ShouldProcess(f, caller, subject) && Contradicts(e, subject, k)
    ensures Inserted(e, UseOneShot(x, f), UseOneShot(y, f))
  {
    hide Discard, SetCalls;
    var i :| 0 <= i <= |x| && y == x[..i] + [e] + x[i..];
    if f.calls - 1 <= 0 {
      DiscardInserted(e, x, i, f.callback, f.arguments);
    } else {
      SetCallsInserted(e, x, i, f, f.calls - 1);
    }
  }

  lemma {:induction false} CollectAround(e: Entry, a: seq<Entry>, b: seq<Entry>, x: seq<Entry>, y: seq<Entry>,
                                         caller: nat, subject: Option<Attributes>, k: string)
    requires Inserted(e, x, y) && Contradicts(e, subject, k)
    ensures var (called, left) := Collect(a + b, x, caller, subject);
            var (called', left') := Collect(a + [e] + b, y, caller, subject);
            called' == called && Inserted(e, left, left')
    decreases |a| + |b|
  {
    hide UseOneShot, Inserted;
    if a == [] {
      assert [] + b == b && [] + [e] + b == [e] + b && ([e] + b)[1..] == b;
      CollectBeside(e, b, x, y, caller, subject, k);
    } else {
      assert (a + b)[1..] == a[1..] + b && (a + [e] + b)[1..] == a[1..] + [e] + b;
      if ShouldProcess(a[0], caller, subject) && a[0].oneShot {
        UseOneShotInserted(e, x, y, a[0], caller, subject, k);
        CollectAround(e, a[1..], b, UseOneShot(x, a[0]), UseOneShot(y, a[0]), caller, subject, k);
      } else {
        CollectAround(e, a[1..], b, x, y, caller, subject, k);
      }
    }
  }

  lemma {:induction false} CollectBeside(e: Entry, b: seq<Entry>, x: seq<Entry>, y: seq<Entry>, caller: nat,
                                         subject: Option<Attributes>, k: string)
    requires Inserted(e, x, y) && Contradicts(e, subject, k)
    ensures var (called, left) := Collect(b, x, caller, subject);
            var (called', left') := Collect(b, y, caller, subject);
            called' == called && Inserted(e, left, left')
  {
    hide UseOneShot, Inserted;
    if b != [] {
      if ShouldProcess(b[0], caller, subject) && b[0].oneShot {
        UseOneShotInserted(e, x, y, b[0], caller, subject, k);
        CollectBeside(e, b[1..], UseOneShot(x, b[0]), UseOneShot(y, b[0]), caller, subject, k);
      } else {
        CollectBeside(e, b[1..], x, y, caller, subject, k);
      }
    }
  }

  /**
    An event that contradicts what an entry expects passes it by: the others fare as if it were not listed, and
    it stays as it is, uncalled and uncounted.
   */
  lemma ContradictedIsPassedBy(a: seq<Entry>, e: Entry, b: seq<Entry>, caller: nat, subject: Option<Attributes>,
                               k: string)
    requires Contradicts(e, subject, k)
    ensures Process(a + [e] + b, caller, subject).0 == Process(a + b, caller, subject).0
    ensures Inserted(e, Process(a + b, caller, subject).1, Process(a + [e] + b, caller, subject).1)
  {
    assert (a + b)[..|a|] == a && (a + b)[|a|..] == b;
    assert Inserted(e, a + b, a + [e] + b);
    CollectAround(e, a, b, a + b, a + [e] + b, caller, subject, k);
  }

  /** So does one that another caller makes. */
  lemma OtherCallerIsNotHeard(a: seq<Entry>, e: Entry, b: seq<Entry>, caller: nat, subject: Option<Attributes>)
    requires e.onlyCaller.Some? && e.onlyCaller.value != caller
    ensures Process(a + [e] + b, caller, subject).0 == Process(a + b, caller, subject).0
  {
    MatchingConcat(a, b, caller, subject);
    MatchingConcat(a, [e], caller, subject);
    MatchingConcat(a + [e], b, caller, subject);
    assert [e][1..] == [] && Matching([e], caller, subject) == [];
    ProcessCallsMatching(a + b, a + b, caller, subject);
    ProcessCallsMatching(a + [e] + b, a + [e] + b, caller, subject);
    assert Matching(a, caller, subject) + [] == Matching(a, caller, subject);
  }

  lemma {:induction false} MatchingConcat(a: seq<Entry>, b: seq<Entry>, caller: nat, subject: Option<Attributes>)
    ensures Matching(a + b, caller, subject) == Matching(a, caller, subject) + Matching(b, caller, subject)
  {
    hide ShouldProcess;
    if a == [] {
      assert a + b == b;
    } else {
      assert (a + b)[1..] == a[1..] + b;
      MatchingConcat(a[1..], b, caller, subject);
    }
  }

  /** An entry all of whose expected attributes are there with equal values is called, in its place. */
  lemma ExpectedIsCalled(a: seq<Entry>, e: Entry, b: seq<Entry>, caller: nat, subject: Option<Attributes>)
    requires e.arguments.Some? ==> subject.Some? && e.arguments.value.Items <= subject.value.Items
    requires e.onlyCaller.Some? ==> e.onlyCaller.value == caller
    ensures Process(a + [e] + b, caller, subject).0
            == Process(a, caller, subject).0 + [e.callback] + Process(b, caller, subject).0
  {
    if e.arguments.Some? {
      forall k | k in e.arguments.value
        ensures k in subject.value && subject.value[k] == e.arguments.value[k]
      {
        assert (k, e.arguments.value[k]) in e.arguments.value.Items;
      }
    }
    assert ShouldProcess(e, caller, subject);
    MatchingConcat(a, [e], caller, subject);
    MatchingConcat(a + [e], b, caller, subject);
    assert [e][1..] == [] && Matching([e], caller, subject) == [e.callback];
    ProcessCallsMatching(a + [e] + b, a + [e] + b, caller, subject);
    ProcessCallsMatching(a, a, caller, subject);
    ProcessCallsMatching(b, b, caller, subject);
  }

  // ---------- Adding and removing ----------

  /** A callback that is not listed with these expectations is listed last. */
  lemma {:induction false} NewIsAppended(es: seq<Entry>, callback: Callback, oneShot: bool, onlyCaller: Option<nat>,
                                         arguments: Option<Attributes>)
    requires forall e :: e in es ==> e.callback != callback || e.onlyCaller != onlyCaller || e.arguments != arguments
    ensures AddTo(es, callback, oneShot, onlyCaller, arguments)
            == es + [Entry(callback, oneShot, onlyCaller, arguments, if oneShot then 1 else 0)]
  {
    if es == [] {
      AddToNothing(callback, oneShot, onlyCaller, arguments);
    } else {
      assert es == [es[0]] + es[1..];
      NewIsAppended(es[1..], callback, oneShot, onlyCaller, arguments);
    }
  }

  /** One that is listed gains a call if it is a one-shot, and nothing changes otherwise. */
  lemma {:induction false} KnownIsCounted(es: seq<Entry>, i: nat, oneShot: bool)
    requires i < |es| && Distinct(es)
    ensures AddTo(es, es[i].callback, oneShot, es[i].onlyCaller, es[i].arguments)
            == if es[i].oneShot then es[i := es[i].(calls := es[i].calls + 1)] else es
  {
    var e := es[i];
    if i == 0 {
      assert es == [es[0]] + es[1..];
    } else {
      assert !Same(es[0], e.callback, e.onlyCaller, e.arguments);
      KnownIsCounted(es[1..], i - 1, oneShot);
      assert es == [es[0]] + es[1..];
    }
  }

  /** `remove` deletes the callback's entries whose expected attributes are all among the given ones, and no others. */
  lemma {:induction false} RemovedExactly(es: seq<Entry>, callback: Callback, given: Attributes, e: Entry)
    ensures e in Discard(es, callback, Some(given))
            <==> e in es && !(e.callback == callback && (e.arguments.None? || e.arguments.value.Items <= given.Items))
    ensures e in Discard(es, callback, None)
            <==> e in es && !(e.callback == callback && (e.arguments.None? || e.arguments.value == map[]))
  {
    if es != [] {
      RemovedExactly(es[1..], callback, given, e);
      RemovesExactly(es[0], callback, given);
      assert es == [es[0]] + es[1..];
      hide Removes;
    }
  }

  lemma RemovesExactly(e: Entry, callback: Callback, given: Attributes)
    ensures Removes(e, callback, Some(given))
            <==> e.callback == callback && (e.arguments.None? || e.arguments.value.Items <= given.Items)
    ensures Removes(e, callback, None)
            <==> e.callback == callback && (e.arguments.None? || e.arguments.value == map[])
  {
    if e.arguments.Some? {
      var expected := e.arguments.value;
      forall k | k in expected ensures (k, expected[k]) in expected.Items {
      }
      assert forall k :: k in expected ==> ((k, expected[k]) in given.Items <==> k in given && given[k] == expected[k]);
      assert expected == map[] || exists k :: k in expected;
    }
  }
}
