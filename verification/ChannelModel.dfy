/**
  A channel's RPC serialiser and its shutdown (channel.py) as a state machine.

  One event is one uninterrupted piece of code: a public call by the application, a method frame
  from the broker (which only selects callbacks), one selected callback, or the loss of the stream.
  Application code, which callbacks may run, is any sequence of public calls between two events.
 */
module ChannelModel {
  import opened Bytes
  import opened Callbacks

  datatype State = Closed | Opening | Open | Closing

  datatype Call =
    | OpenCall
    | CloseCall
    | CancelCall(tag: string)
    | ConsumeCall(tag: string)
    | OtherCall(name: string)

  /** The reply that a request waits for: a method name and the arguments expected of it. */
  datatype Reply = Reply(key: string, arguments: Option<Attributes>)

  /** The arguments of `_rpc`; no request of pika accepts more than one kind of reply. */
  datatype Request = Request(call: Call, callback: Option<Callback>, reply: Option<Reply>)

  datatype Reason = ClosedByClient | ClosedByBroker | StreamLost

  /** A selected callback that is still to be called, or the clean-up after the on-close callbacks. */
  datatype Task = Run(callback: Callback, attributes: Attributes) | Cleanup

  const OPEN_OK := "Channel.OpenOk"
  const CLOSE := "Channel.Close"
  const CLOSE_OK := "Channel.CloseOk"
  const CANCEL := "Basic.Cancel"
  const CANCEL_OK := "Basic.CancelOk"
  const CONSUME_OK := "Basic.ConsumeOk"
  const CONSUMER_TAG := "consumer_tag"
  const ON_CHANNEL_CLOSE := "_on_channel_close"

  /** The `caller` arguments of `CallbackManager.process`. */
  const CHANNEL: nat := 0
  const CONNECTION: nat := 1

  type Registry = map<string, seq<Entry>>

  /**
    `sent` and `closeOksSent` are what went to the connection. The last five fields are history:
    the calls issued, those dropped from the queue, the request that awaits its reply, the on-close
    callbacks registered, and those called, with the number of transitions to CLOSED.
   */
  datatype Channel = Channel(
    state: State, blocking: Option<Call>, blocked: seq<Request>,
    consumers: seq<string>, noAck: set<string>, cancelled: set<string>, reason: Option<Reason>,
    callbacks: Registry, sent: seq<Call>, closeOksSent: nat, todo: seq<Task>, registered: bool, failed: bool,
    issued: seq<Call>, dropped: seq<Call>, pending: Option<Request>, closers: seq<nat>, closeRuns: seq<Callback>,
    transitions: nat)

  datatype Event =
    | CallMethod(name: string, callback: Option<nat>, reply: Option<Reply>)
    | BasicConsume(tag: string, autoAck: bool, user: nat)
    | BasicCancel(tag: string, callback: Option<nat>)
    | CloseChannel
    | AddOnCloseCallback(user: nat)
    | AddCallback(key: string, user: nat, oneShot: bool)
    | MethodFrame(key: string, attributes: Attributes)
    | RunTask
    | LoseStream

  // ---------- Registering and sending ----------

  function ListOf(r: Registry, key: string): seq<Entry> {
    if key in r then r[key] else []
  }

  function Register(r: Registry, key: string, callback: Callback, oneShot: bool, onlyCaller: Option<nat>,
                    arguments: Option<Attributes>): Registry
  {
    r[key := AddTo(ListOf(r, key), callback, oneShot, onlyCaller, arguments)]
  }

  /** The part of `_rpc` that sends. */
  function Send(c: Channel, r: Request): (d: Channel)
    ensures d.blocked == c.blocked
  {
    var s := c.(sent := c.sent + [r.call]);
    if r.reply.None? then s
    else
      var Reply(key, arguments) := r.reply.value;
      var registry := Register(s.callbacks, key, OnSynchronousComplete, true, None, arguments);
      s.(blocking := Some(r.call), pending := Some(r),
         callbacks := if r.callback.Some? then Register(registry, key, r.callback.value, true, None, arguments)
                      else registry)
  }

  /** `_rpc`; it raises when the channel is closed. */
  function Rpc(c: Channel, r: Request): (d: Channel)
    ensures c.blocking.None? ==> d.blocked == c.blocked
  {
    if c.state == Closed then c.(failed := true)
    else if c.blocking.Some? then c.(blocked := c.blocked + [r])
    else Send(c, r)
  }

  function Issue(c: Channel, r: Request): Channel {
    Rpc(c.(issued := c.issued + [r.call]), r)
  }

  /** The loop of `_on_synchronous_complete`. */
  function Pump(c: Channel): Channel
    decreases |c.blocked|
  {
    if c.blocked == [] || c.blocking.Some? then c
    else Pump(Rpc(c.(blocked := c.blocked[1..]), c.blocked[0]))
  }

  // ---------- Closing ----------

  function Tasks(called: seq<Callback>, attributes: Attributes): seq<Task> {
    if called == [] then [] else [Run(called[0], attributes)] + Tasks(called[1..], attributes)
  }

  /** `_transition_to_closed`: the on-close callbacks are called next, and then the clean-up. */
  function Transition(c: Channel): Channel {
    if c.state == Closed || c.reason.None? then c.(failed := true)
    else
      var (called, left) := Process(ListOf(c.callbacks, ON_CHANNEL_CLOSE), CHANNEL, Some(map[]));
      c.(state := Closed, callbacks := c.callbacks[ON_CHANNEL_CLOSE := left],
         todo := Tasks(called, map[]) + [Cleanup] + c.todo,
         closeRuns := c.closeRuns + called, transitions := c.transitions + 1)
  }

  function CloseMeta(c: Channel, reason: Reason): Channel {
    if c.state == Closed then c else Transition(c.(reason := Some(reason)))
  }

  /** `_drain_blocked_methods_on_remote_close`. */
  function Drain(c: Channel): Channel
    requires c.reason.Some?
    decreases |c.blocked|
  {
    if c.blocked == [] then c
    else
      var d := c.(blocked := c.blocked[1..], dropped := c.dropped + [c.blocked[0].call]);
      Drain(if c.blocked[0].call == CloseCall then CloseMeta(d, d.reason.value) else d)
  }

  function CloseFromBroker(c: Channel): Channel {
    if c.state == Closed then c.(failed := true)
    else
      var d := c.(closeOksSent := c.closeOksSent + 1, reason := Some(ClosedByBroker));
      if c.state == Closing then Drain(d) else Transition(d)
  }

  // ---------- Consumers ----------

  function Without(tags: seq<string>, tag: string): seq<string> {
    if tags == [] then []
    else if tags[0] == tag then Without(tags[1..], tag)
    else [tags[0]] + Without(tags[1..], tag)
  }

  function ForgetConsumer(c: Channel, tag: string): Channel {
    c.(consumers := Without(c.consumers, tag), noAck := c.noAck - {tag}, cancelled := c.cancelled - {tag})
  }

  function CancelConsumer(c: Channel, tag: string, callback: Option<nat>): Channel {
    if c.state != Open || tag in c.cancelled || tag !in c.consumers then c
    else
      var d := c.(cancelled := c.cancelled + {tag},
                  consumers := if callback.None? then Without(c.consumers, tag) else c.consumers,
                  callbacks := if callback.Some?
                               then Register(c.callbacks, CANCEL_OK, User(callback.value), true, None, None)
                               else c.callbacks);
      Issue(d, CancelRequest(tag, callback.Some?))
  }

  function CancelRequest(tag: string, wait: bool): Request {
    if wait then Request(CancelCall(tag), Some(OnCancelOk), Some(Reply(CANCEL_OK, Some(map[CONSUMER_TAG := tag]))))
    else Request(CancelCall(tag), None, None)
  }

  /** The loop of `close` over a copy of the consumer tags. */
  function CancelAll(c: Channel, tags: seq<string>): Channel
    decreases tags
  {
    if tags == [] then c
    else CancelAll(if tags[0] in c.cancelled then c else CancelConsumer(c, tags[0], None), tags[1..])
  }

  const CLOSE_REQUEST := Request(CloseCall, Some(OnCloseOk), Some(Reply(CLOSE_OK, None)))

  function CloseByClient(c: Channel): Channel {
    if c.state == Closed || c.state == Closing then c
    else Issue(CancelAll(c.(reason := Some(ClosedByClient)), c.consumers).(state := Closing), CLOSE_REQUEST)
  }

  // ---------- Events ----------

  function TagOf(attributes: Attributes): string {
    if CONSUMER_TAG in attributes then attributes[CONSUMER_TAG] else ""
  }

  function RunCallback(c: Channel, callback: Callback, attributes: Attributes): Channel {
    match callback
    case User(_) => c
    case OnSynchronousComplete => Pump(c.(blocking := None))
    case OnOpenOk => if c.state == Closing then c else c.(state := Open)
    case OnCloseOk => Transition(c)
    case OnCancelOk => ForgetConsumer(c, TagOf(attributes))
    case OnCancel => if TagOf(attributes) in c.cancelled then c else ForgetConsumer(c, TagOf(attributes))
    case OnCloseFromBroker => CloseFromBroker(c)
  }

  function RunNext(c: Channel): Channel
    requires c.todo != []
  {
    var rest := c.(todo := c.todo[1..]);
    match c.todo[0]
    case Run(callback, attributes) => RunCallback(rest, callback, attributes)
    case Cleanup => rest.(registered := false, consumers := [], callbacks := map[])
  }

  /** `CallbackManager.process` for a method frame: one-shots are used up, the callbacks are called next. */
  function Select(c: Channel, key: string, attributes: Attributes): Channel {
    var (called, left) := Process(ListOf(c.callbacks, key), CONNECTION, Some(attributes));
    var answered := c.pending.Some? && c.pending.value.reply.Some? && c.pending.value.reply.value.key == key
                    && ArgumentsMatch(c.pending.value.reply.value.arguments, Some(attributes));
    c.(callbacks := c.callbacks[key := left], todo := Tasks(called, attributes),
       pending := if answered then None else c.pending)
  }

  function AddCloser(c: Channel, callback: nat): Channel {
    c.(callbacks := Register(c.callbacks, ON_CHANNEL_CLOSE, User(callback), false, Some(CHANNEL), None),
       closers := if c.state == Closed || callback in c.closers then c.closers else c.closers + [callback])
  }

  /** The keys under which the application's requests and callbacks are registered. */
  predicate ApplicationKey(key: string) {
    key != OPEN_OK && key != CLOSE && key != CLOSE_OK && key != ON_CHANNEL_CLOSE
  }

  /** What the public interface and the connection let happen. */
  predicate Enabled(c: Channel, e: Event) {
    match e
    case CallMethod(_, callback, reply) =>
      (callback.Some? ==> reply.Some?) && (reply.Some? ==> ApplicationKey(reply.value.key))
    case AddCallback(key, _, _) => key != ON_CHANNEL_CLOSE
    case MethodFrame(key, _) => c.todo == [] && key != ON_CHANNEL_CLOSE
    case RunTask => c.todo != []
    case LoseStream => c.todo == []
    case _ => true
  }

  function Step(c: Channel, e: Event): Channel
    requires Enabled(c, e)
  {
    match e
    case CallMethod(name, callback, reply) =>
      if c.state != Open then c
      else Issue(c, Request(OtherCall(name), if callback.Some? then Some(User(callback.value)) else None, reply))
    case BasicConsume(tag, autoAck, callback) =>
      if c.state != Open || tag in c.consumers || tag in c.cancelled then c
      else Issue(c.(noAck := if autoAck then c.noAck + {tag} else c.noAck, consumers := c.consumers + [tag]),
                 Request(ConsumeCall(tag), Some(User(callback)),
                         Some(Reply(CONSUME_OK, Some(map[CONSUMER_TAG := tag])))))
    case BasicCancel(tag, callback) => CancelConsumer(c, tag, callback)
    case CloseChannel => CloseByClient(c)
    case AddOnCloseCallback(callback) => AddCloser(c, callback)
    case AddCallback(key, callback, oneShot) =>
      c.(callbacks := Register(c.callbacks, key, User(callback), oneShot, None, None))
    case MethodFrame(key, attributes) => Select(c, key, attributes)
    case RunTask => RunNext(c)
    case LoseStream => CloseMeta(c, StreamLost)
  }

  const ARMED := Entry(OnCloseFromBroker, true, None, None, 1)
  const OPEN_REQUEST := Request(OpenCall, Some(OnOpenOk), Some(Reply(OPEN_OK, None)))

  /** The channel after `Connection.channel` has called `open`. */
  function Start(): Channel {
    Issue(Channel(Opening, None, [], [], {}, {}, None,
                  map[CANCEL := [Entry(OnCancel, false, None, None, 0)], CLOSE := [ARMED]],
                  [], 0, [], true, false, [], [], None, [], [], 0),
          OPEN_REQUEST)
  }

  /** The events of a run in which each is enabled when it happens. */
  predicate Possible(c: Channel, es: seq<Event>)
    decreases es
  {
    es == [] || (Enabled(c, es[0]) && Possible(Step(c, es[0]), es[1..]))
  }

  function Execute(c: Channel, es: seq<Event>): Channel
    requires Possible(c, es)
    decreases es
  {
    if es == [] then c else Execute(Step(c, es[0]), es[1..])
  }
}
