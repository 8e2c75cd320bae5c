/** A workflow in which nothing succeeds. */
module WorkflowFails {
  import opened Bytes
  import opened Workflow

  /** No attempt connects, nor ends the workflow early. */
  ghost predicate Fruitless(w: World) {
    forall c, k, i ::
      w.connect(c, k, i) != Connected
      && !(w.untilFirstAmqpAttempt && w.connect(c, k, i).HandshakeFails?)
  }

  /** The hosts of the configurations from `from` up to, and not including, `to` are resolved in cycle `c`. */
  ghost predicate AllResolved(w: World, c: nat, from: nat, to: nat) {
    forall k :: from <= k < to ==> w.resolve(c, k).Resolved?
  }

  /** What a cycle is to do from configuration `from` on: a lookup that fails ends it. */
  ghost predicate InCycle(w: World, c: nat, from: nat, a: Action) {
    match a
    case Wait(_) => false
    case Lookup(cycle, k) => cycle == c && from <= k < w.configs && AllResolved(w, c, from, k)
    case Attempt(cycle, k, i) =>
      cycle == c && from <= k < w.configs && AllResolved(w, c, from, k) && w.resolve(c, k).Resolved?
      && i < w.resolve(c, k).addresses
  }

  /** The failure that an action meets. */
  ghost predicate Meets(w: World, a: Action, f: Failure) {
    match a
    case Wait(_) => false
    case Lookup(c, k) => w.resolve(c, k).DnsFails? && f == DnsFailure(c, k)
    case Attempt(c, k, i) => f == AttemptFailure(c, k, i, w.connect(c, k, i))
  }

  ghost predicate FailuresOf(w: World, trace: seq<Action>, f: Failure) {
    exists a :: a in trace && Meets(w, a, f)
  }

  /** The part goes on to the end of its loop, and collects the failures of what it did. */
  ghost predicate Collects(w: World, p: Part, errors: seq<Failure>) {
    forall f :: f in p.errors <==> f in errors || FailuresOf(w, p.trace, f)
  }

  lemma CollectsAfter(w: World, first: Part, p: Part, errors: seq<Failure>)
    requires Collects(w, first, errors) && Collects(w, p, first.errors)
    ensures Collects(w, After(first.trace, p), errors)
  {
    var all := first.trace + p.trace;
    forall f
      ensures FailuresOf(w, all, f) <==> FailuresOf(w, first.trace, f) || FailuresOf(w, p.trace, f)
    {
      assert forall a :: a in all <==> a in first.trace || a in p.trace;
    }
  }

  lemma CollectsOne(w: World, a: Action, errors: seq<Failure>, f: Failure)
    requires Meets(w, a, f) && forall g :: Meets(w, a, g) ==> g == f
    ensures Collects(w, Part([a], errors + [f], None), errors)
  {
    assert a in [a];
  }

  lemma CollectsNone(w: World, trace: seq<Action>, errors: seq<Failure>)
    requires forall a, f :: a in trace ==> !Meets(w, a, f)
    ensures Collects(w, Part(trace, errors, None), errors)
  {
  }

  lemma {:induction false} AddressesAllTried(w: World, c: nat, k: nat, i: nat, count: nat, errors: seq<Failure>)
    requires Fruitless(w) && i <= count
    ensures var p := LoopAddresses(w, c, k, i, count, errors);
            p.end == None && Collects(w, p, errors)
            && forall a :: a in p.trace <==> a.Attempt? && a.cycle == c && a.config == k && i <= a.address < count
    decreases count - i
  {
    if i < count {
      var outcome := w.connect(c, k, i);
      var failure := AttemptFailure(c, k, i, outcome);
      AddressesAllTried(w, c, k, i + 1, count, errors + [failure]);
      CollectsOne(w, Attempt(c, k, i), errors, failure);
      var q := LoopAddresses(w, c, k, i + 1, count, errors + [failure]);
      assert LoopAddresses(w, c, k, i, count, errors) == After([Attempt(c, k, i)], q);
      hide Collects, LoopAddresses, UseOutcome;
      CollectsAfter(w, Part([Attempt(c, k, i)], errors + [failure], None), q, errors);
    } else {
      CollectsNone(w, [], errors);
    }
  }

  lemma CycleHead(w: World, c: nat, k: nat, a: Action)
    requires k < w.configs
    ensures InCycle(w, c, k, a)
            <==> a == Lookup(c, k)
                 || (a.Attempt? && a.cycle == c && a.config == k && w.resolve(c, k).Resolved?
                     && a.address < w.resolve(c, k).addresses)
                 || (w.resolve(c, k).Resolved? && InCycle(w, c, k + 1, a))
  {
    match a
    case Wait(_) =>
    case Lookup(_, to) => ResolvedHead(w, c, k, to);
    case Attempt(_, to, _) => ResolvedHead(w, c, k, to);
  }

  lemma ResolvedHead(w: World, c: nat, k: nat, to: nat)
    ensures k < to ==> (AllResolved(w, c, k, to) <==> w.resolve(c, k).Resolved? && AllResolved(w, c, k + 1, to))
    ensures AllResolved(w, c, k, k)
  {
  }

  lemma {:induction false} ConfigsAllTried(w: World, c: nat, k: nat, errors: seq<Failure>)
    requires Fruitless(w)
    ensures var p := LoopConfigs(w, c, k, errors);
            p.end == None && Collects(w, p, errors) && forall a :: a in p.trace <==> InCycle(w, c, k, a)
    decreases w.configs - k
  {
    var p := LoopConfigs(w, c, k, errors);
    if k >= w.configs {
      CollectsNone(w, [], errors);
    } else {
      var look := Part([Lookup(c, k)], errors, None);
      forall a ensures InCycle(w, c, k, a)
                       <==> a == Lookup(c, k)
                            || (a.Attempt? && a.cycle == c && a.config == k && w.resolve(c, k).Resolved?
                                && a.address < w.resolve(c, k).addresses)
                            || (w.resolve(c, k).Resolved? && InCycle(w, c, k + 1, a)) {
        CycleHead(w, c, k, a);
      }
      match w.resolve(c, k) {
        case DnsFails =>
          CollectsOne(w, Lookup(c, k), errors, DnsFailure(c, k));
          assert [Lookup(c, k)] + [] == [Lookup(c, k)];
        case Resolved(count) =>
          AddressesAllTried(w, c, k, 0, count, errors);
          var q := LoopAddresses(w, c, k, 0, count, errors);
          ConfigsAllTried(w, c, k + 1, q.errors);
          var rest := LoopConfigs(w, c, k + 1, q.errors);
          CollectsNone(w, [Lookup(c, k)], errors);
          assert UseLookup(w, c, k, errors) == After(q.trace, rest);
          assert p == After([Lookup(c, k)], After(q.trace, rest));
          hide Collects, LoopAddresses, LoopConfigs, InCycle;
          CollectsAfter(w, q, rest, errors);
          CollectsAfter(w, look, After(q.trace, rest), errors);
      }
    }
  }

  function Pauses(trace: seq<Action>): seq<nat> {
    if trace == [] then []
    else if trace[0].Wait? then [trace[0].seconds] + Pauses(trace[1..])
    else Pauses(trace[1..])
  }

  lemma {:induction false} PausesConcat(a: seq<Action>, b: seq<Action>)
    ensures Pauses(a + b) == Pauses(a) + Pauses(b)
  {
    if a == [] {
      assert a + b == b;
    } else {
      assert (a + b)[1..] == a[1..] + b;
      PausesConcat(a[1..], b);
    }
  }

  lemma {:induction false} NoPauses(trace: seq<Action>)
    requires forall a :: a in trace ==> !a.Wait?
    ensures Pauses(trace) == []
  {
    if trace != [] {
      assert trace[0] in trace && forall a :: a in trace[1..] ==> a in trace;
      NoPauses(trace[1..]);
    }
  }

  /** What the cycles from `c` on do, pauses apart. */
  ghost predicate InCycles(w: World, c: nat, a: Action) {
    !a.Wait? && c <= a.cycle < w.attempts && InCycle(w, a.cycle, 0, a)
  }

  /** No pause before the first cycle, and the same before each of the others. */
  ghost predicate PausesAre(pauses: seq<nat>, w: World, c: nat) {
    |pauses| == (if c < w.attempts then w.attempts - c else 0)
    && forall j :: 0 <= j < |pauses| ==> pauses[j] == if c + j == 0 then 0 else w.retryDelay
  }

  lemma {:induction false} CyclesAllTried(w: World, c: nat, errors: seq<Failure>)
    requires Fruitless(w)
    ensures var p := LoopCycles(w, c, errors);
            p.end.Some? && p.end.value.WorkflowFailed?
            && (forall f :: f in p.end.value.errors <==> f in errors || FailuresOf(w, p.trace, f))
            && (forall a :: a in p.trace && !a.Wait? <==> InCycles(w, c, a))
            && PausesAre(Pauses(p.trace), w, c)
    decreases w.attempts - c
  {
    hide LoopConfigs, Fruitless, InCycle, FailuresOf, Pauses;
    if c < w.attempts {
      var wait, q := [Wait(if c == 0 then 0 else w.retryDelay)], LoopConfigs(w, c, 0, errors);
      ConfigsAllTried(w, c, 0, errors);
      CyclesAllTried(w, c + 1, q.errors);
      var later := LoopCycles(w, c + 1, q.errors);
      assert LoopCycles(w, c, errors) == After(wait + q.trace, later);
      hide LoopCycles;
      FailuresThree(w, wait, q.trace, later.trace);
      CyclesHead(w, c, q.trace, later.trace, wait);
      PausesHead(w, c, q.trace, later.trace);
    } else {
      NothingDone(w);
    }
  }

  lemma NothingDone(w: World)
    ensures Pauses([]) == [] && forall f :: !FailuresOf(w, [], f)
  {
  }

  lemma CyclesHead(w: World, c: nat, own: seq<Action>, later: seq<Action>, wait: seq<Action>)
    requires c < w.attempts && forall a :: a in wait ==> a.Wait?
    requires forall a :: a in own <==> InCycle(w, c, 0, a)
    requires forall a :: a in later && !a.Wait? <==> InCycles(w, c + 1, a)
    ensures forall a :: a in wait + own + later && !a.Wait? <==> InCycles(w, c, a)
  {
    forall a
      ensures a in wait + own + later && !a.Wait? <==> InCycles(w, c, a)
    {
      OfItsCycle(w, c, a);
      hide InCycle;
    }
  }

  lemma OfItsCycle(w: World, c: nat, a: Action)
    ensures InCycle(w, c, 0, a) ==> !a.Wait? && a.cycle == c
  {
  }

  lemma PausesHead(w: World, c: nat, own: seq<Action>, later: seq<Action>)
    requires c < w.attempts && PausesAre(Pauses(later), w, c + 1)
    requires forall a :: a in own <==> InCycle(w, c, 0, a)
    ensures PausesAre(Pauses([Wait(if c == 0 then 0 else w.retryDelay)] + own + later), w, c)
  {
    var wait := [Wait(if c == 0 then 0 else w.retryDelay)];
    forall a | a in own ensures !a.Wait? {
      OfItsCycle(w, c, a);
    }
    NoPauses(own);
    assert wait[1..] == [];
    assert Pauses(wait) == [wait[0].seconds] + [];
    hide Pauses, InCycle;
    PausesConcat(wait, own);
    PausesConcat(wait + own, later);
  }

  lemma FailuresThree(w: World, wait: seq<Action>, a: seq<Action>, b: seq<Action>)
    requires forall x :: x in wait ==> x.Wait?
    ensures forall f :: FailuresOf(w, wait + a + b, f) <==> FailuresOf(w, a, f) || FailuresOf(w, b, f)
  {
    forall f ensures FailuresOf(w, wait + a + b, f) <==> FailuresOf(w, a, f) || FailuresOf(w, b, f) {
      assert forall x :: x in wait + a + b <==> x in wait || x in a || x in b;
    }
  }

  /**
    If nothing succeeds, every host of every cycle is looked up until a lookup of the cycle fails, every address
    found is attempted, there is a pause before each cycle but the first, and the report has exactly the failures
    met.
   */
  lemma EverythingTried(w: World)
    requires Fruitless(w)
    ensures Consistent(Begin(w), w)
    ensures var r := Run(Begin(w), w);
            (forall a :: a in r.trace && !a.Wait? <==> InCycles(w, 0, a)) && PausesAre(Pauses(r.trace), w, 0)
            && |r.reports| == 1 && r.reports[0].WorkflowFailed?
            && forall f :: f in r.reports[0].errors <==> FailuresOf(w, r.trace, f)
  {
    hide Run, LoopCycles, Fruitless;
    RefinesNestedLoop(w);
    CyclesAllTried(w, 0, []);
  }
}
