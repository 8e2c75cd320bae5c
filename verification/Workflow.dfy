/** The connection workflow and its nested loop. */
module Workflow {
  import opened Bytes

  datatype Resolution = DnsFails | Resolved(addresses: nat)

  /** How an attempt at one address ends. */
  datatype Outcome = Connected | SocketFails | TransportFails | HandshakeFails(openAborted: bool)

  datatype Failure =
    | DnsFailure(cycle: nat, config: nat)
    | AttemptFailure(cycle: nat, config: nat, address: nat, outcome: Outcome)

  datatype Action =
    | Wait(seconds: nat)
    | Lookup(cycle: nat, config: nat)
    | Attempt(cycle: nat, config: nat, address: nat)

  /** `on_done`'s argument; `AbortedClass` is the exception class, which the code passes for an instance. */
  datatype Report = Success(cycle: nat, config: nat, address: nat) | WorkflowFailed(errors: seq<Failure>) | AbortedClass

  /** The configuration, and how every lookup and attempt would end. */
  datatype World = World(configs: nat, attempts: nat, retryDelay: nat, untilFirstAmqpAttempt: bool,
                         resolve: (nat, nat) -> Resolution, connect: (nat, nat, nat) -> Outcome)

  // ---------- The nested loop ----------

  /** What a part of the loop does: its actions, the errors collected, and the report if the workflow ends in it. */
  datatype Part = Part(trace: seq<Action>, errors: seq<Failure>, end: Option<Report>)

  function After(trace: seq<Action>, p: Part): Part {
    p.(trace := trace + p.trace)
  }

  /** for each resolved address: attempt, until one succeeds */
  function LoopAddresses(w: World, c: nat, k: nat, i: nat, count: nat, errors: seq<Failure>): Part
    decreases count - i, 1
  {
    if i >= count then Part([], errors, None) else After([Attempt(c, k, i)], UseOutcome(w, c, k, i, count, errors))
  }

  function UseOutcome(w: World, c: nat, k: nat, i: nat, count: nat, errors: seq<Failure>): Part
    requires i < count
    decreases count - i, 0
  {
    var outcome := w.connect(c, k, i);
    if outcome == Connected then Part([], errors, Some(Success(c, k, i)))
    else
      var more := errors + [AttemptFailure(c, k, i, outcome)];
      if w.untilFirstAmqpAttempt && outcome.HandshakeFails? then
        Part([], more, Some(if outcome.openAborted then AbortedClass else WorkflowFailed(more)))
      else LoopAddresses(w, c, k, i + 1, count, more)
  }

  /** for each config: resolve its host, then try the addresses; a failed resolution ends the cycle */
  function LoopConfigs(w: World, c: nat, k: nat, errors: seq<Failure>): Part
    decreases w.configs - k, 1
  {
    if k >= w.configs then Part([], errors, None) else After([Lookup(c, k)], UseLookup(w, c, k, errors))
  }

  function UseLookup(w: World, c: nat, k: nat, errors: seq<Failure>): Part
    requires k < w.configs
    decreases w.configs - k, 0
  {
    match w.resolve(c, k)
    case DnsFails => Part([], errors + [DnsFailure(c, k)], None)
    case Resolved(count) =>
      var p := LoopAddresses(w, c, k, 0, count, errors);
      if p.end.Some? then p else After(p.trace, LoopConfigs(w, c, k + 1, p.errors))
  }

  /** while attempts remain: a cycle over the configs, after the retry pause but for the first */
  function LoopCycles(w: World, c: nat, errors: seq<Failure>): Part
    decreases w.attempts - c
  {
    if c >= w.attempts then Part([], errors, Some(WorkflowFailed(errors)))
    else
      var p := After([Wait(if c == 0 then 0 else w.retryDelay)], LoopConfigs(w, c, 0, errors));
      if p.end.Some? then p else After(p.trace, LoopCycles(w, c + 1, p.errors))
  }

  // ---------- The machine ----------

  datatype Task = NoTask | StartCycle | TryConfig | Resolving | Connecting

  /** History: the actions begun, the cycles begun, and the calls of `on_done`. */
  datatype State = State(attemptsRemaining: nat, configIndex: Option<nat>, addresses: nat, nextAddress: nat,
                         errors: seq<Failure>, task: Task, trace: seq<Action>, cycle: nat, reports: seq<Report>)

  /** `start`, in its initial state and with at least one configuration. */
  function Begin(w: World): State {
    State(w.attempts, None, 0, 0, [], StartCycle, [], 0, [])
  }

  function ReportCompletion(s: State, r: Report): State {
    s.(task := NoTask, reports := s.reports + [r])
  }

  function StartNewCycle(s: State, w: World, first: bool): State {
    if s.attemptsRemaining == 0 then ReportCompletion(s, WorkflowFailed(s.errors))
    else s.(attemptsRemaining := s.attemptsRemaining - 1, configIndex := None, task := TryConfig,
            trace := s.trace + [Wait(if first then 0 else w.retryDelay)], cycle := if first then 0 else s.cycle + 1)
  }

  function TryNextConfig(s: State, w: World): State {
    var k := if s.configIndex == None then 0 else s.configIndex.value + 1;
    if k >= w.configs then StartNewCycle(s.(configIndex := Some(k)), w, false)
    else s.(configIndex := Some(k), task := Resolving, trace := s.trace + [Lookup(s.cycle, k)])
  }

  function TryNextResolvedAddress(s: State, w: World): State
    requires s.configIndex.Some?
  {
    if s.nextAddress >= s.addresses then TryNextConfig(s, w)
    else s.(nextAddress := s.nextAddress + 1, task := Connecting,
            trace := s.trace + [Attempt(s.cycle, s.configIndex.value, s.nextAddress)])
  }

  function OnGetaddrinfoDone(s: State, w: World): State
    requires s.configIndex.Some?
  {
    match w.resolve(s.cycle, s.configIndex.value)
    case DnsFails => StartNewCycle(s.(errors := s.errors + [DnsFailure(s.cycle, s.configIndex.value)]), w, false)
    case Resolved(count) => TryNextResolvedAddress(s.(addresses := count, nextAddress := 0), w)
  }

  function OnConnectorDone(s: State, w: World): State
    requires s.configIndex.Some? && s.nextAddress > 0
  {
    var k, i := s.configIndex.value, s.nextAddress - 1;
    var outcome := w.connect(s.cycle, k, i);
    if outcome == Connected then ReportCompletion(s, Success(s.cycle, k, i))
    else
      var t := s.(errors := s.errors + [AttemptFailure(s.cycle, k, i, outcome)]);
      if w.untilFirstAmqpAttempt && outcome.HandshakeFails? then
        ReportCompletion(t, if outcome.openAborted then AbortedClass else WorkflowFailed(t.errors))
      else TryNextResolvedAddress(t, w)
  }

  /** The pending task completes. */
  function Step(s: State, w: World): State
    requires Consistent(s, w) && s.task != NoTask
  {
    match s.task
    case StartCycle => StartNewCycle(s, w, true)
    case TryConfig => TryNextConfig(s, w)
    case Resolving => OnGetaddrinfoDone(s, w)
    case Connecting => OnConnectorDone(s, w)
  }

  ghost predicate Consistent(s: State, w: World) {
    (s.task == NoTask <==> s.reports != []) && |s.reports| <= 1
    && match s.task
       case NoTask => true
       case StartCycle => s == Begin(w)
       case TryConfig => s.configIndex == None && s.cycle + 1 + s.attemptsRemaining == w.attempts
       case Resolving => s.configIndex.Some? && s.configIndex.value < w.configs
         && s.cycle + 1 + s.attemptsRemaining == w.attempts
       case Connecting =>
         s.configIndex.Some? && s.configIndex.value < w.configs && s.cycle + 1 + s.attemptsRemaining == w.attempts
         && 0 < s.nextAddress <= s.addresses && w.resolve(s.cycle, s.configIndex.value) == Resolved(s.addresses)
  }

  function AttemptsLeft(s: State): nat {
    if s.task == NoTask then 0 else if s.task == StartCycle then s.attemptsRemaining + 1 else s.attemptsRemaining
  }

  function ConfigsLeft(s: State, w: World): nat {
    if s.task == NoTask then 0
    else
      var done := if s.configIndex == None then 0 else s.configIndex.value + 1;
      if done >= w.configs then 0 else w.configs - done
  }

  /** The addresses left to try for the configuration at hand; a lookup stands for the addresses it will bring. */
  function AddressesLeft(s: State, w: World): nat {
    match s.task
    case NoTask => 0
    case StartCycle => 0
    case TryConfig => 1
    case Resolving =>
      if s.configIndex.Some? && w.resolve(s.cycle, s.configIndex.value).Resolved?
      then w.resolve(s.cycle, s.configIndex.value).addresses + 2 else 2
    case Connecting => if s.addresses >= s.nextAddress then s.addresses - s.nextAddress + 1 else 1
  }

  // ---------- Every step ----------

  /** The lexicographic measure goes down from `s` to `d`. */
  ghost predicate Descends(s: State, d: State, w: World) {
    AttemptsLeft(d) < AttemptsLeft(s)
    || (AttemptsLeft(d) == AttemptsLeft(s)
        && (ConfigsLeft(d, w) < ConfigsLeft(s, w)
            || (ConfigsLeft(d, w) == ConfigsLeft(s, w) && AddressesLeft(d, w) < AddressesLeft(s, w))))
  }

  /** A completed task leads to a consistent state, nearer to the end in attempts, configurations and addresses left. */
  lemma StepDescends(s: State, w: World)
    requires Consistent(s, w) && s.task != NoTask
    ensures Consistent(Step(s, w), w) && Descends(s, Step(s, w), w)
  {
  }

  /** Runs the workflow to its end. */
  function Run(s: State, w: World): (r: State)
    requires Consistent(s, w)
    decreases AttemptsLeft(s), ConfigsLeft(s, w), AddressesLeft(s, w)
  {
    if s.task == NoTask then s
    else
      StepDescends(s, w);
      Run(Step(s, w), w)
  }

  // ---------- Refinement ----------

  /** What is left of a cycle after the addresses of configuration `k`. */
  function FinishConfigs(w: World, p: Part, c: nat, k: nat): Part {
    if p.end.Some? then p else After(p.trace, LoopConfigs(w, c, k + 1, p.errors))
  }

  /** What is left of the loop after the configurations of cycle `c`. */
  function FinishCycle(w: World, p: Part, c: nat): Part {
    if p.end.Some? then p else After(p.trace, LoopCycles(w, c + 1, p.errors))
  }

  /** What the nested loop still does from a state of the machine. */
  function Rest(s: State, w: World): Part
    requires Consistent(s, w)
  {
    match s.task
    case NoTask => Part([], s.errors, Some(s.reports[0]))
    case StartCycle => LoopCycles(w, 0, s.errors)
    case TryConfig => FinishCycle(w, LoopConfigs(w, s.cycle, 0, s.errors), s.cycle)
    case Resolving => FinishCycle(w, UseLookup(w, s.cycle, s.configIndex.value, s.errors), s.cycle)
    case Connecting =>
      var k := s.configIndex.value;
      var p := UseOutcome(w, s.cycle, k, s.nextAddress - 1, s.addresses, s.errors);
      FinishCycle(w, FinishConfigs(w, p, s.cycle, k), s.cycle)
  }

  /** From `trace`, the part `p` does what is done in `d` and what is left there. */
  ghost predicate Continues(trace: seq<Action>, p: Part, d: State, w: World)
    requires Consistent(d, w)
  {
    trace + p.trace == d.trace + Rest(d, w).trace && p.end == Rest(d, w).end
  }

  lemma NewCycleContinues(s: State, w: World, first: bool)
    requires s.reports == [] && (if first then 0 else s.cycle + 1) + s.attemptsRemaining == w.attempts
    ensures Consistent(StartNewCycle(s, w, first), w)
    ensures Continues(s.trace, LoopCycles(w, if first then 0 else s.cycle + 1, s.errors), StartNewCycle(s, w, first), w)
  {
    var c := if first then 0 else s.cycle + 1;
    var d := StartNewCycle(s, w, first);
    if s.attemptsRemaining > 0 {
      var p := LoopConfigs(w, c, 0, s.errors);
      var wait := [Wait(if c == 0 then 0 else w.retryDelay)];
      ConcatAssociative(s.trace, wait, Rest(d, w).trace);
      if p.end == None {
        ConcatAssociative(wait, p.trace, LoopCycles(w, c + 1, p.errors).trace);
      }
      hide LoopConfigs;
    }
  }

  lemma AfterFinishCycle(w: World, first: seq<Action>, p: Part, c: nat)
    ensures FinishCycle(w, After(first, p), c) == After(first, FinishCycle(w, p, c))
  {
    hide LoopCycles;
    if p.end == None {
      ConcatAssociative(first, p.trace, LoopCycles(w, c + 1, p.errors).trace);
    }
  }

  lemma NextConfigContinues(s: State, w: World)
    requires s.reports == [] && s.cycle + 1 + s.attemptsRemaining == w.attempts
    ensures Consistent(TryNextConfig(s, w), w)
    ensures var k := if s.configIndex == None then 0 else s.configIndex.value + 1;
            Continues(s.trace, FinishCycle(w, LoopConfigs(w, s.cycle, k, s.errors), s.cycle), TryNextConfig(s, w), w)
  {
    var k := if s.configIndex == None then 0 else s.configIndex.value + 1;
    if k >= w.configs {
      NewCycleContinues(s.(configIndex := Some(k)), w, false);
      var later := LoopCycles(w, s.cycle + 1, s.errors);
      assert [] + later.trace == later.trace;
      hide LoopCycles, StartNewCycle;
    } else {
      var d := TryNextConfig(s, w);
      var look := [Lookup(s.cycle, k)];
      AfterFinishCycle(w, look, UseLookup(w, s.cycle, k, s.errors), s.cycle);
      hide UseLookup, LoopCycles, FinishCycle;
      ConcatAssociative(s.trace, look, Rest(d, w).trace);
    }
  }

  /** The parts after the addresses `i` and on, of configuration `k` in cycle `c`. */
  function FromAddress(w: World, c: nat, k: nat, i: nat, count: nat, errors: seq<Failure>): Part {
    FinishCycle(w, FinishConfigs(w, LoopAddresses(w, c, k, i, count, errors), c, k), c)
  }

  lemma AfterFinish(w: World, first: seq<Action>, p: Part, c: nat, k: nat)
    ensures FinishCycle(w, FinishConfigs(w, After(first, p), c, k), c)
            == After(first, FinishCycle(w, FinishConfigs(w, p, c, k), c))
  {
    hide LoopConfigs, LoopCycles;
    AfterFinishCycle(w, first, FinishConfigs(w, p, c, k), c);
    if p.end == None {
      ConcatAssociative(first, p.trace, LoopConfigs(w, c, k + 1, p.errors).trace);
    }
  }

  lemma NextAddressContinues(s: State, w: World)
    requires s.reports == [] && s.cycle + 1 + s.attemptsRemaining == w.attempts
    requires s.configIndex.Some? && s.configIndex.value < w.configs && s.nextAddress <= s.addresses
    requires w.resolve(s.cycle, s.configIndex.value) == Resolved(s.addresses)
    ensures Consistent(TryNextResolvedAddress(s, w), w)
    ensures Continues(s.trace, FromAddress(w, s.cycle, s.configIndex.value, s.nextAddress, s.addresses, s.errors),
                      TryNextResolvedAddress(s, w), w)
  {
    var c, k, i := s.cycle, s.configIndex.value, s.nextAddress;
    var d := TryNextResolvedAddress(s, w);
    if i >= s.addresses {
      NextConfigContinues(s, w);
      var p := LoopConfigs(w, c, k + 1, s.errors);
      assert [] + p.trace == p.trace;
      hide LoopConfigs, LoopCycles, TryNextConfig;
    } else {
      var attempt := [Attempt(c, k, i)];
      AfterFinish(w, attempt, UseOutcome(w, c, k, i, s.addresses, s.errors), c, k);
      hide FinishCycle, FinishConfigs, UseOutcome;
      ConcatAssociative(s.trace, attempt, Rest(d, w).trace);
    }
  }

  lemma UseLookupIs(s: State, w: World, count: nat)
    requires s.configIndex.Some? && s.configIndex.value < w.configs
             && w.resolve(s.cycle, s.configIndex.value) == Resolved(count)
    ensures UseLookup(w, s.cycle, s.configIndex.value, s.errors)
            == FinishConfigs(w, LoopAddresses(w, s.cycle, s.configIndex.value, 0, count, s.errors), s.cycle,
                             s.configIndex.value)
  {
  }

  lemma StepContinues(s: State, w: World)
    requires Consistent(s, w) && s.task != NoTask
    ensures Consistent(Step(s, w), w) && Continues(s.trace, Rest(s, w), Step(s, w), w)
  {
    match s.task {
      case StartCycle => NewCycleContinues(s, w, true);
      case TryConfig => NextConfigContinues(s, w);
      case Resolving => LookupContinues(s, w);
      case Connecting => OutcomeContinues(s, w);
    }
  }

  lemma LookupContinues(s: State, w: World)
    requires Consistent(s, w) && s.task == Resolving
    ensures Consistent(OnGetaddrinfoDone(s, w), w) && Continues(s.trace, Rest(s, w), OnGetaddrinfoDone(s, w), w)
  {
    var c, k := s.cycle, s.configIndex.value;
    match w.resolve(c, k) {
      case DnsFails =>
        var failed := s.(errors := s.errors + [DnsFailure(c, k)]);
        NewCycleContinues(failed, w, false);
        var later := LoopCycles(w, c + 1, failed.errors);
        assert [] + later.trace == later.trace;
        hide LoopCycles, StartNewCycle;
      case Resolved(count) =>
        NextAddressContinues(s.(addresses := count, nextAddress := 0), w);
        UseLookupIs(s, w, count);
        hide FinishCycle, FinishConfigs, TryNextResolvedAddress, UseLookup;
    }
  }

  lemma OutcomeContinues(s: State, w: World)
    requires Consistent(s, w) && s.task == Connecting
    ensures Consistent(OnConnectorDone(s, w), w) && Continues(s.trace, Rest(s, w), OnConnectorDone(s, w), w)
  {
    var c, k, i := s.cycle, s.configIndex.value, s.nextAddress - 1;
    var outcome := w.connect(c, k, i);
    if outcome != Connected && !(w.untilFirstAmqpAttempt && outcome.HandshakeFails?) {
      NextAddressContinues(s.(errors := s.errors + [AttemptFailure(c, k, i, outcome)]), w);
      hide FinishCycle, FinishConfigs, TryNextResolvedAddress;
    }
  }

  lemma {:induction false} RunFinishesRest(s: State, w: World)
    requires Consistent(s, w)
    ensures var r := Run(s, w);
            r.trace == s.trace + Rest(s, w).trace && |r.reports| == 1 && Some(r.reports[0]) == Rest(s, w).end
              && r.task == NoTask
    decreases AttemptsLeft(s), ConfigsLeft(s, w), AddressesLeft(s, w)
  {
    if s.task == NoTask {
      assert s.trace + [] == s.trace;
    } else {
      StepDescends(s, w);
      StepContinues(s, w);
      RunFinishesRest(Step(s, w), w);
      hide Step, Rest;
    }
  }

  /**
    The workflow does exactly what the nested loop does: the same pauses, lookups and attempts in the
    same order, then `on_done` is called exactly once, with the loop's result.
   */
  lemma RefinesNestedLoop(w: World)
    ensures Consistent(Begin(w), w)
    ensures var r := Run(Begin(w), w);
            |r.reports| == 1 && r.trace == LoopCycles(w, 0, []).trace && Some(r.reports[0]) == LoopCycles(w, 0, []).end
  {
    RunFinishesRest(Begin(w), w);
    assert [] + LoopCycles(w, 0, []).trace == LoopCycles(w, 0, []).trace;
  }

  // ---------- What the nested loop does ----------

  /** The place of an attempt: its cycle, configuration and address. */
  datatype Place = Place(cycle: nat, config: nat, address: nat)

  ghost predicate AtMost(a: Place, b: Place) {
    a.cycle < b.cycle || (a.cycle == b.cycle
                          && (a.config < b.config || (a.config == b.config && a.address <= b.address)))
  }

  /** The attempts are made in the order of their places, from `lo` on and before `hi`. */
  ghost predicate InOrder(trace: seq<Action>, lo: Place, hi: Place)
    decreases trace
  {
    if trace == [] then AtMost(lo, hi)
    else if !trace[0].Attempt? then InOrder(trace[1..], lo, hi)
    else
      var a := trace[0];
      AtMost(lo, Place(a.cycle, a.config, a.address))
        && InOrder(trace[1..], Place(a.cycle, a.config, a.address + 1), hi)
  }

  lemma {:induction false} InOrderConcat(a: seq<Action>, b: seq<Action>, lo: Place, mid: Place, hi: Place)
    requires InOrder(a, lo, mid) && InOrder(b, mid, hi)
    ensures InOrder(a + b, lo, hi)
    decreases a
  {
    if a == [] {
      assert a + b == b;
      InOrderWider(b, lo, mid, hi);
    } else {
      assert (a + b)[1..] == a[1..] + b;
      InOrderConcat(a[1..], b, if a[0].Attempt? then Place(a[0].cycle, a[0].config, a[0].address + 1) else lo, mid, hi);
    }
  }

  lemma {:induction false} InOrderWider(trace: seq<Action>, lo: Place, mid: Place, hi: Place)
    requires AtMost(lo, mid) && InOrder(trace, mid, hi)
    ensures InOrder(trace, lo, hi)
    decreases trace
  {
    if trace != [] && !trace[0].Attempt? {
      InOrderWider(trace[1..], lo, mid, hi);
    }
  }

  /** A success is reported for the last action, and no other attempt succeeds. */
  ghost predicate StopsAtSuccess(w: World, p: Part) {
    (forall j :: 0 <= j < |p.trace| && p.trace[j].Attempt? ==>
       (w.connect(p.trace[j].cycle, p.trace[j].config, p.trace[j].address) == Connected
        <==> j == |p.trace| - 1 && p.end == Some(Success(p.trace[j].cycle, p.trace[j].config, p.trace[j].address))))
    && (p.end.Some? && p.end.value.Success? ==>
          p.trace != [] && p.trace[|p.trace| - 1]
            == Attempt(p.end.value.cycle, p.end.value.config, p.end.value.address))
  }

  lemma StopsAtSuccessAfter(w: World, first: Part, p: Part)
    requires first.end == None && StopsAtSuccess(w, first) && StopsAtSuccess(w, p)
    ensures StopsAtSuccess(w, After(first.trace, p))
  {
    var trace := first.trace + p.trace;
    forall j | 0 <= j < |trace| && trace[j].Attempt?
      ensures w.connect(trace[j].cycle, trace[j].config, trace[j].address) == Connected
              <==> j == |trace| - 1 && p.end == Some(Success(trace[j].cycle, trace[j].config, trace[j].address))
    {
      if j < |first.trace| {
        assert trace[j] == first.trace[j];
        if p.trace == [] {
          assert p.end == None || !p.end.value.Success?;
        }
      } else {
        assert trace[j] == p.trace[j - |first.trace|];
      }
    }
  }

  lemma {:induction false} AddressesInOrder(w: World, c: nat, k: nat, i: nat, count: nat, errors: seq<Failure>)
    requires i <= count
    ensures var p := LoopAddresses(w, c, k, i, count, errors);
            InOrder(p.trace, Place(c, k, i), Place(c, k, count)) && StopsAtSuccess(w, p)
            && (p.end == None ==> |p.trace| == count - i)
    decreases count - i
  {
    if i < count {
      var outcome := w.connect(c, k, i);
      var p := UseOutcome(w, c, k, i, count, errors);
      if outcome != Connected && !(w.untilFirstAmqpAttempt && outcome.HandshakeFails?) {
        AddressesInOrder(w, c, k, i + 1, count, errors + [AttemptFailure(c, k, i, outcome)]);
        StopsAtSuccessAfter(w, Part([Attempt(c, k, i)], errors, None), p);
      }
      assert ([Attempt(c, k, i)] + p.trace)[1..] == p.trace;
    }
  }

  lemma {:induction false} ConfigsInOrder(w: World, c: nat, k: nat, errors: seq<Failure>)
    ensures var p := LoopConfigs(w, c, k, errors);
            InOrder(p.trace, Place(c, k, 0), Place(c + 1, 0, 0)) && StopsAtSuccess(w, p)
    decreases w.configs - k
  {
    if k < w.configs {
      var look := Part([Lookup(c, k)], errors, None);
      var rest := UseLookup(w, c, k, errors);
      match w.resolve(c, k) {
        case DnsFails =>
        case Resolved(count) =>
          AddressesInOrder(w, c, k, 0, count, errors);
          var p := LoopAddresses(w, c, k, 0, count, errors);
          assert InOrder([], Place(c, k, count), Place(c + 1, 0, 0));
          InOrderConcat(p.trace, [], Place(c, k, 0), Place(c, k, count), Place(c + 1, 0, 0));
          assert p.trace + [] == p.trace;
          if p.end == None {
            ConfigsInOrder(w, c, k + 1, p.errors);
            var q := LoopConfigs(w, c, k + 1, p.errors);
            InOrderWider(q.trace, Place(c, k, count), Place(c, k + 1, 0), Place(c + 1, 0, 0));
            InOrderConcat(p.trace, q.trace, Place(c, k, 0), Place(c, k, count), Place(c + 1, 0, 0));
            StopsAtSuccessAfter(w, p, q);
          }
      }
      StopsAtSuccessAfter(w, look, rest);
      assert ([Lookup(c, k)] + rest.trace)[1..] == rest.trace;
    }
  }

  lemma {:induction false} CyclesInOrder(w: World, c: nat, errors: seq<Failure>)
    requires c <= w.attempts
    ensures var p := LoopCycles(w, c, errors);
            InOrder(p.trace, Place(c, 0, 0), Place(w.attempts, 0, 0)) && StopsAtSuccess(w, p)
    decreases w.attempts - c
  {
    if c < w.attempts {
      var wait := [Wait(if c == 0 then 0 else w.retryDelay)];
      var q := LoopConfigs(w, c, 0, errors);
      ConfigsInOrder(w, c, 0, errors);
      StopsAtSuccessAfter(w, Part(wait, errors, None), q);
      var p := After(wait, q);
      assert p.trace[1..] == q.trace;
      assert InOrder([], Place(c + 1, 0, 0), Place(w.attempts, 0, 0));
      if p.end.Some? {
        InOrderConcat(p.trace, [], Place(c, 0, 0), Place(c + 1, 0, 0), Place(w.attempts, 0, 0));
        assert p.trace + [] == p.trace;
      } else {
        CyclesInOrder(w, c + 1, p.errors);
        var later := LoopCycles(w, c + 1, p.errors);
        InOrderConcat(p.trace, later.trace, Place(c, 0, 0), Place(c + 1, 0, 0), Place(w.attempts, 0, 0));
        StopsAtSuccessAfter(w, p, later);
      }
    }
  }

  /**
    Attempts are made in cycle, configuration and address order, each at most once, and the first success is the
    last.
   */
  lemma AttemptsInOrder(w: World)
    ensures Consistent(Begin(w), w)
    ensures var r := Run(Begin(w), w);
            InOrder(r.trace, Place(0, 0, 0), Place(w.attempts, 0, 0)) && |r.reports| == 1
            && StopsAtSuccess(w, Part(r.trace, r.errors, Some(r.reports[0])))
  {
    RefinesNestedLoop(w);
    CyclesInOrder(w, 0, []);
    hide Run, LoopCycles, InOrder;
  }

  // ---------- Stopping at the first AMQP attempt ----------

  function OutcomeOf(w: World, a: Action): Outcome
    requires a.Attempt?
  {
    w.connect(a.cycle, a.config, a.address)
  }

  /** The attempt got as far as the AMQP handshake. */
  predicate ReachesAmqp(o: Outcome) { o.Connected? || o.HandshakeFails? }

  predicate EndsAborted(w: World, trace: seq<Action>) {
    trace != [] && trace[|trace| - 1].Attempt? && OutcomeOf(w, trace[|trace| - 1]) == HandshakeFails(true)
  }

  /**
    If the workflow is to stop at the first AMQP attempt, only its last action is one; and the exception class
    is reported exactly when that attempt was aborted in its handshake.
   */
  ghost predicate StopsAtAmqp(w: World, p: Part) {
    (forall j :: 0 <= j < |p.trace| && p.trace[j].Attempt? ==>
       (w.untilFirstAmqpAttempt && ReachesAmqp(OutcomeOf(w, p.trace[j])) ==> j == |p.trace| - 1 && p.end.Some?))
    && (p.end == Some(AbortedClass) <==> w.untilFirstAmqpAttempt && EndsAborted(w, p.trace))
  }

  lemma StopsAtAmqpAfter(w: World, first: Part, p: Part)
    requires first.end == None && StopsAtAmqp(w, first) && StopsAtAmqp(w, p)
    ensures StopsAtAmqp(w, After(first.trace, p))
  {
    var trace := first.trace + p.trace;
    if p.trace == [] {
      assert trace == first.trace;
    } else {
      assert trace[|trace| - 1] == p.trace[|p.trace| - 1];
    }
    forall j | 0 <= j < |trace| && trace[j].Attempt?
      ensures w.untilFirstAmqpAttempt && ReachesAmqp(OutcomeOf(w, trace[j])) ==> j == |trace| - 1 && p.end.Some?
    {
      if j < |first.trace| {
        assert trace[j] == first.trace[j];
      } else {
        assert trace[j] == p.trace[j - |first.trace|];
      }
    }
  }

  lemma {:induction false} AddressesStopAtAmqp(w: World, c: nat, k: nat, i: nat, count: nat, errors: seq<Failure>)
    requires i <= count
    ensures StopsAtAmqp(w, LoopAddresses(w, c, k, i, count, errors))
    decreases count - i
  {
    if i < count {
      var outcome := w.connect(c, k, i);
      var p := UseOutcome(w, c, k, i, count, errors);
      if outcome != Connected && !(w.untilFirstAmqpAttempt && outcome.HandshakeFails?) {
        AddressesStopAtAmqp(w, c, k, i + 1, count, errors + [AttemptFailure(c, k, i, outcome)]);
        StopsAtAmqpAfter(w, Part([Attempt(c, k, i)], errors, None), p);
      } else {
        assert [Attempt(c, k, i)] + p.trace == [Attempt(c, k, i)];
      }
    }
  }

  lemma {:induction false} ConfigsStopAtAmqp(w: World, c: nat, k: nat, errors: seq<Failure>)
    ensures StopsAtAmqp(w, LoopConfigs(w, c, k, errors))
    decreases w.configs - k
  {
    if k < w.configs {
      match w.resolve(c, k) {
        case DnsFails =>
        case Resolved(count) =>
          AddressesStopAtAmqp(w, c, k, 0, count, errors);
          var p := LoopAddresses(w, c, k, 0, count, errors);
          if p.end == None {
            ConfigsStopAtAmqp(w, c, k + 1, p.errors);
            StopsAtAmqpAfter(w, p, LoopConfigs(w, c, k + 1, p.errors));
          }
      }
      StopsAtAmqpAfter(w, Part([Lookup(c, k)], errors, None), UseLookup(w, c, k, errors));
    }
  }

  lemma {:induction false} CyclesStopAtAmqp(w: World, c: nat, errors: seq<Failure>)
    ensures StopsAtAmqp(w, LoopCycles(w, c, errors))
    decreases w.attempts - c
  {
    if c < w.attempts {
      var wait := [Wait(if c == 0 then 0 else w.retryDelay)];
      var q := LoopConfigs(w, c, 0, errors);
      ConfigsStopAtAmqp(w, c, 0, errors);
      StopsAtAmqpAfter(w, Part(wait, errors, None), q);
      var p := After(wait, q);
      if p.end == None {
        CyclesStopAtAmqp(w, c + 1, p.errors);
        StopsAtAmqpAfter(w, p, LoopCycles(w, c + 1, p.errors));
      }
    }
  }

  /**
    `on_done` is given the exception class, and not an instance, if and only if the workflow was to stop at the
    first AMQP attempt and that attempt, its last action, was aborted during the handshake.
   */
  lemma AbortedClassExactly(w: World)
    ensures Consistent(Begin(w), w)
    ensures var r := Run(Begin(w), w);
            |r.reports| == 1
            && (r.reports[0] == AbortedClass <==> w.untilFirstAmqpAttempt && EndsAborted(w, r.trace))
            && (w.untilFirstAmqpAttempt ==>
                  forall j :: 0 <= j < |r.trace| - 1 && r.trace[j].Attempt? ==> !ReachesAmqp(OutcomeOf(w, r.trace[j])))
  {
    RefinesNestedLoop(w);
    CyclesStopAtAmqp(w, 0, []);
    hide Run, LoopCycles;
  }

  /** A workflow of one address whose handshake is aborted reports the class. */
  lemma AbortedClassOccurs()
    ensures var w := World(1, 1, 2, true, (c, k) => Resolved(1), (c, k, i) => HandshakeFails(true));
            Consistent(Begin(w), w) && Run(Begin(w), w).reports == [AbortedClass]
  {
    var w := World(1, 1, 2, true, (c, k) => Resolved(1), (c, k, i) => HandshakeFails(true));
    RefinesNestedLoop(w);
    assert UseOutcome(w, 0, 0, 0, 1, []).end == Some(AbortedClass);
    assert LoopAddresses(w, 0, 0, 0, 1, []).end == Some(AbortedClass);
    assert LoopConfigs(w, 0, 0, []).end == Some(AbortedClass);
    assert LoopCycles(w, 0, []).end == Some(AbortedClass);
    hide Run;
  }
}
