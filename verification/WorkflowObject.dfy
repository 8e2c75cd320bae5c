/**
  The connection workflow as an object whose callbacks update it (connection_workflow.py). Each callback is
  proved to change the fields exactly as the step of the same name in `Workflow` says; the results that the
  resolver and the connectors hand in are those of an arbitrary `World`. `RunWorkflow` completes the pending
  tasks one after the other, as the event loop does.
 */
module WorkflowObject {
  import opened Bytes
  import W = Workflow

  class AMQPConnectionWorkflow {
    const configs: nat
    const attempts: nat
    const retryDelay: nat
    const untilFirstAmqpAttempt: bool

    var attemptsRemaining: nat
    var currentConfigIndex: Option<nat>
    /** `_addrinfo_iter`: how many addresses there are, and how many have been taken. */
    var addresses: nat
    var taken: nat
    var connectionErrors: seq<W.Failure>
    /** What the event loop, the resolver or the connector will call back. */
    var task: W.Task
    var cycle: nat
    ghost var trace: seq<W.Action>
    ghost var reports: seq<W.Report>

    ghost predicate In(w: W.World) {
      w.configs == configs && w.attempts == attempts && w.retryDelay == retryDelay
      && w.untilFirstAmqpAttempt == untilFirstAmqpAttempt
    }

    ghost function View(): W.State
      reads this
    {
      W.State(attemptsRemaining, currentConfigIndex, addresses, taken, connectionErrors, task, trace, cycle, reports)
    }

    /** `start`: `connectionAttempts` and `retryDelay` are those of the last configuration. */
    constructor (configs: nat, connectionAttempts: nat, retryDelay: nat, untilFirst: bool, ghost w: W.World)
      requires w.configs == configs && w.attempts == connectionAttempts && w.retryDelay == retryDelay
      requires w.untilFirstAmqpAttempt == untilFirst
      ensures In(w) && View() == W.Begin(w)
    {
      this.configs, this.attempts := configs, connectionAttempts;
      this.retryDelay, this.untilFirstAmqpAttempt := retryDelay, untilFirst;
      attemptsRemaining, currentConfigIndex, addresses, taken := connectionAttempts, None, 0, 0;
      connectionErrors, task, cycle, trace, reports := [], W.StartCycle, 0, [], [];
    }

    method ReportCompletionAndCleanup(r: W.Report)
      modifies this
      ensures View() == W.ReportCompletion(old(View()), r)
    {
      task := W.NoTask;
      reports := reports + [r];
    }

    method StartNewCycleAsync(first: bool, ghost w: W.World)
      requires In(w)
      modifies this
      ensures View() == W.StartNewCycle(old(View()), w, first)
      ensures old(W.Consistent(View(), w) && task == W.StartCycle && first) ==>
                W.Consistent(View(), w) && W.Descends(old(View()), View(), w)
    {
      hide W.Consistent, W.Descends;
      if W.Consistent(View(), w) && task == W.StartCycle && first {
        W.StepDescends(View(), w);
      }
      if attemptsRemaining == 0 {
        ReportCompletionAndCleanup(W.WorkflowFailed(connectionErrors));
        return;
      }
      attemptsRemaining := attemptsRemaining - 1;
      currentConfigIndex := None;
      cycle := if first then 0 else cycle + 1;
      trace := trace + [W.Wait(if first then 0 else retryDelay)];
      task := W.TryConfig;
    }

    method TryNextConfigAsync(ghost w: W.World)
      requires In(w)
      modifies this
      ensures View() == W.TryNextConfig(old(View()), w)
      ensures old(W.Consistent(View(), w) && task == W.TryConfig) ==>
                W.Consistent(View(), w) && W.Descends(old(View()), View(), w)
    {
      hide W.Consistent, W.Descends;
      if W.Consistent(View(), w) && task == W.TryConfig {
        W.StepDescends(View(), w);
      }
      var index := if currentConfigIndex == None then 0 else currentConfigIndex.value + 1;
      currentConfigIndex := Some(index);
      if index >= configs {
        StartNewCycleAsync(false, w);
        return;
      }
      trace := trace + [W.Lookup(cycle, index)];
      task := W.Resolving;
    }

    method TryNextResolvedAddress(ghost w: W.World)
      requires In(w) && currentConfigIndex.Some?
      modifies this
      ensures View() == W.TryNextResolvedAddress(old(View()), w)
    {
      if taken >= addresses {
        TryNextConfigAsync(w);
        return;
      }
      trace := trace + [W.Attempt(cycle, currentConfigIndex.value, taken)];
      taken := taken + 1;
      task := W.Connecting;
    }

    method OnGetaddrinfoAsyncDone(resolution: W.Resolution, ghost w: W.World)
      requires In(w) && currentConfigIndex.Some? && resolution == w.resolve(cycle, currentConfigIndex.value)
      modifies this
      ensures View() == W.OnGetaddrinfoDone(old(View()), w)
      ensures old(W.Consistent(View(), w) && task == W.Resolving) ==>
                W.Consistent(View(), w) && W.Descends(old(View()), View(), w)
    {
      hide W.Consistent, W.Descends;
      if W.Consistent(View(), w) && task == W.Resolving {
        W.StepDescends(View(), w);
      }
      match resolution {
        case DnsFails =>
          connectionErrors := connectionErrors + [W.DnsFailure(cycle, currentConfigIndex.value)];
          StartNewCycleAsync(false, w);
        case Resolved(count) =>
          addresses, taken := count, 0;
          TryNextResolvedAddress(w);
      }
    }

    method OnConnectorDone(outcome: W.Outcome, ghost w: W.World)
      requires In(w) && currentConfigIndex.Some? && taken > 0
      requires outcome == w.connect(cycle, currentConfigIndex.value, taken - 1)
      modifies this
      ensures View() == W.OnConnectorDone(old(View()), w)
      ensures old(W.Consistent(View(), w) && task == W.Connecting) ==>
                W.Consistent(View(), w) && W.Descends(old(View()), View(), w)
    {
      hide W.Consistent, W.Descends;
      if W.Consistent(View(), w) && task == W.Connecting {
        W.StepDescends(View(), w);
      }
      if outcome == W.Connected {
        ReportCompletionAndCleanup(W.Success(cycle, currentConfigIndex.value, taken - 1));
        return;
      }
      connectionErrors := connectionErrors + [W.AttemptFailure(cycle, currentConfigIndex.value, taken - 1, outcome)];
      if untilFirstAmqpAttempt && outcome.HandshakeFails? {
        ReportCompletionAndCleanup(if outcome.openAborted then W.AbortedClass else W.WorkflowFailed(connectionErrors));
      } else {
        TryNextResolvedAddress(w);
      }
    }
  }

  /** The event loop runs a workflow to its end: it does what the nested loop does, and is told once. */
  method RunWorkflow(workflow: AMQPConnectionWorkflow, w: W.World)
    requires workflow.In(w) && workflow.View() == W.Begin(w)
    modifies workflow
    ensures workflow.trace == W.LoopCycles(w, 0, []).trace
    ensures |workflow.reports| == 1 && Some(workflow.reports[0]) == W.LoopCycles(w, 0, []).end
  {
    hide W.LoopCycles, W.StartNewCycle, W.TryNextConfig, W.OnGetaddrinfoDone, W.OnConnectorDone;
    W.RefinesNestedLoop(w);
    while workflow.task != W.NoTask
      invariant W.Consistent(workflow.View(), w) && W.Run(workflow.View(), w) == W.Run(W.Begin(w), w)
      decreases W.AttemptsLeft(workflow.View()), W.ConfigsLeft(workflow.View(), w), W.AddressesLeft(workflow.View(), w)
    {
      W.StepDescends(workflow.View(), w);
      match workflow.task {
        case StartCycle => workflow.StartNewCycleAsync(true, w);
        case TryConfig => workflow.TryNextConfigAsync(w);
        case Resolving =>
          workflow.OnGetaddrinfoAsyncDone(w.resolve(workflow.cycle, workflow.currentConfigIndex.value), w);
        case Connecting =>
          var outcome := w.connect(workflow.cycle, workflow.currentConfigIndex.value, workflow.taken - 1);
          workflow.OnConnectorDone(outcome, w);
      }
    }
  }
}
