/**
  Consumer deliveries of a blocking channel that stays open: the channel's consumer sets (channel.py), the
  queue of pending events in front of the user's callbacks (blocking_connection.py), and what the broker has
  still to answer. The invariant is kept by every frame, by every call and by dispatch; `DeliveryRuns` says
  what that means for whole runs.
 */
module Deliveries {
  import opened Bytes

  /** A delivery; `id` is its delivery tag, `manual` says that its consumer acknowledges by hand. */
  datatype Delivery = Delivery(tag: nat, id: nat, manual: bool)

  /** `_ConsumerDeliveryEvt` and `_ConsumerCancellationEvt`. */
  datatype Pending = Delivered(d: Delivery) | Cancelled(tag: nat)

  function TagOf(e: Pending): nat {
    match e
    case Delivered(d) => d.tag
    case Cancelled(tag) => tag
  }

  datatype Phase = SettingUp | Active | TearingDown | CancelledByBroker

  datatype Info = Info(autoAck: bool, phase: Phase)

  /**
    `consumers`, `noAck` and `cancelled` are the channel's sets, `infos`, `pending` and `requested` the
    blocking channel's. The broker: whom it serves, which requests it has not answered, and the next
    delivery tag. History: every delivery, and where it went.
   */
  datatype State = State(consumers: set<nat>, noAck: set<nat>, cancelled: set<nat>,
                         infos: map<nat, Info>, pending: seq<Pending>, requested: bool,
                         serving: set<nat>, consumeRequests: set<nat>, cancelRequests: set<nat>, nextId: nat,
                         delivered: seq<Delivery>, handed: seq<Delivery>, rejected: seq<Delivery>,
                         returned: seq<Delivery>, dropped: seq<Delivery>, sound: bool)

  // ---------- Frames from the broker ----------

  datatype Frame = Deliver(tag: nat) | BrokerCancel(tag: nat) | CancelOk(tag: nat) | ConsumeOk(tag: nat)

  /** `_add_pending_event`. */
  function AddPendingEvent(s: State, e: Pending): State {
    s.(pending := s.pending + [e], requested := true)
  }

  /** The channel's `_on_deliver`, then the blocking channel's. A missing consumer is an error. */
  function OnDeliver(s: State, tag: nat): State {
    var d := Delivery(tag, s.nextId, tag !in s.noAck);
    var t := s.(nextId := s.nextId + 1, delivered := s.delivered + [d]);
    if tag in s.cancelled then
      if d.manual then t.(rejected := s.rejected + [d]) else t.(dropped := s.dropped + [d])
    else if tag !in s.consumers || tag !in s.infos then t.(sound := false)
    else AddPendingEvent(t, Delivered(d))
  }

  function Forget(s: State, tag: nat): State {
    s.(consumers := s.consumers - {tag}, noAck := s.noAck - {tag}, cancelled := s.cancelled - {tag})
  }

  /** The channel's `_on_cancel`, then the blocking channel's `_on_consumer_cancelled_by_broker`. */
  function OnBrokerCancel(s: State, tag: nat): State {
    var t := if tag in s.cancelled then s else Forget(s, tag);
    if tag !in s.infos then t.(sound := false)
    else
      var info := s.infos[tag];
      var marked := if info.phase == TearingDown then info else info.(phase := CancelledByBroker);
      AddPendingEvent(t.(infos := t.infos[tag := marked]), Cancelled(tag))
  }

  /** A frame arrives; one that the broker would not send is none. */
  function Receive(s: State, f: Frame): State {
    match f
    case Deliver(tag) => if tag in s.serving then OnDeliver(s, tag) else s
    case BrokerCancel(tag) => if tag in s.serving then OnBrokerCancel(s.(serving := s.serving - {tag}), tag) else s
    case CancelOk(tag) =>
      if tag in s.cancelRequests
      then Forget(s.(serving := s.serving - {tag}, cancelRequests := s.cancelRequests - {tag}), tag) else s
    case ConsumeOk(tag) =>
      if tag in s.consumeRequests
      then s.(serving := s.serving + {tag}, consumeRequests := s.consumeRequests - {tag}) else s
  }

  function ReceiveAll(s: State, frames: seq<Frame>): State
    decreases frames
  {
    if frames == [] then s else ReceiveAll(Receive(s, frames[0]), frames[1..])
  }

  // ---------- Calls of the application ----------

  /** The deliveries of `tag` in a queue. */
  function Messages(pending: seq<Pending>, tag: nat): seq<Delivery> {
    if pending == [] then []
    else if pending[0].Delivered? && pending[0].d.tag == tag then [pending[0].d] + Messages(pending[1..], tag)
    else Messages(pending[1..], tag)
  }

  /** A queue without the events of `tag`. */
  function Without(pending: seq<Pending>, tag: nat): seq<Pending> {
    if pending == [] then []
    else if TagOf(pending[0]) == tag then Without(pending[1..], tag)
    else [pending[0]] + Without(pending[1..], tag)
  }

  /** `basic_consume`: the frames `before`, the broker's ConsumeOk and the frames `after` arrive while it waits. */
  function BasicConsume(s: State, tag: nat, autoAck: bool, before: seq<Frame>, after: seq<Frame>): State {
    if tag in s.infos || tag in s.consumers || tag in s.cancelled then s
    else Activate(ReceiveAll(StartConsuming(s, tag, autoAck), before + [ConsumeOk(tag)] + after), tag)
  }

  function StartConsuming(s: State, tag: nat, autoAck: bool): State {
    s.(infos := s.infos[tag := Info(autoAck, SettingUp)], consumers := s.consumers + {tag},
       noAck := if autoAck then s.noAck + {tag} else s.noAck, consumeRequests := s.consumeRequests + {tag})
  }

  function Activate(s: State, tag: nat): State {
    if tag in s.infos then
      if s.infos[tag].phase == SettingUp then s.(infos := s.infos[tag := s.infos[tag].(phase := Active)]) else s
    else s.(sound := false)
  }

  /** The assertions of `basic_cancel`, and the consumer's new phase. */
  function TearDown(s: State, tag: nat): State
    requires tag in s.infos
  {
    var info := s.infos[tag];
    var fine := (info.phase == Active || info.phase == CancelledByBroker)
                && (info.phase == CancelledByBroker || tag in s.consumers);
    s.(infos := s.infos[tag := info.(phase := TearingDown)], sound := s.sound && fine)
  }

  function RejectPending(s: State, tag: nat): State {
    s.(pending := Without(s.pending, tag), rejected := s.rejected + Messages(s.pending, tag))
  }

  /** The underlying channel's `basic_cancel`. */
  function RequestCancel(s: State, tag: nat): State {
    if tag in s.cancelled || tag !in s.consumers then s
    else s.(cancelled := s.cancelled + {tag}, cancelRequests := s.cancelRequests + {tag})
  }

  /** `basic_cancel` until it waits: pending deliveries of a manual consumer are rejected. */
  function StartCancelling(s: State, tag: nat): State
    requires tag in s.infos
  {
    var t := TearDown(s, tag);
    RequestCancel(if s.infos[tag].autoAck then t else RejectPending(t, tag), tag)
  }

  /** The end of `basic_cancel`. */
  function FinishCancelling(s: State, tag: nat, autoAck: bool): State {
    var messages := Messages(s.pending, tag);
    s.(pending := Without(s.pending, tag), infos := s.infos - {tag},
       returned := if autoAck then s.returned + messages else s.returned,
       sound := s.sound && (autoAck || messages == []))
  }

  /** `basic_cancel`: frames, among them the broker's CancelOk if it was asked, arrive while it waits. */
  function BasicCancel(s: State, tag: nat, before: seq<Frame>, after: seq<Frame>): State {
    if tag !in s.infos then s
    else FinishCancelling(ReceiveAll(StartCancelling(s, tag), before + [CancelOk(tag)] + after), tag,
                          s.infos[tag].autoAck)
  }

  datatype Call =
    | Consume(tag: nat, autoAck: bool, before: seq<Frame>, after: seq<Frame>)
    | Cancel(tag: nat, before: seq<Frame>, after: seq<Frame>)
    | Process(frames: seq<Frame>, script: seq<seq<Call>>)

  /** A call made inside a callback; `process_data_events` receives, but does not dispatch. */
  function Nested(s: State, call: Call): State {
    match call
    case Consume(tag, autoAck, before, after) => BasicConsume(s, tag, autoAck, before, after)
    case Cancel(tag, before, after) => BasicCancel(s, tag, before, after)
    case Process(frames, script) => ReceiveAll(s, frames)
  }

  function NestedAll(s: State, calls: seq<Call>): State
    decreases calls
  {
    if calls == [] then s else NestedAll(Nested(s, calls[0]), calls[1..])
  }

  /** The first pending event is taken off and handed to the user. */
  function Hand(s: State): State
    requires s.pending != []
  {
    var e, t := s.pending[0], s.(pending := s.pending[1..]);
    if TagOf(e) !in s.infos then t.(sound := false)
    else match e
      case Delivered(d) => t.(handed := s.handed + [d])
      case Cancelled(tag) => t.(infos := s.infos - {tag})
  }

  /** `_dispatch_events`; `script` says what each callback does. */
  function DispatchEvents(s: State, script: seq<seq<Call>>): State
    decreases |script|, |s.pending|
  {
    if s.pending == [] then s
    else if script == [] then DispatchEvents(Hand(s), [])
    else DispatchEvents(NestedAll(Hand(s), script[0]), script[1..])
  }

  /** A call made outside callbacks. */
  function Step(s: State, call: Call): State {
    match call
    case Process(frames, script) =>
      var t := ReceiveAll(s, frames);
      if t.requested then DispatchEvents(t.(requested := false), script) else t
    case _ => Nested(s, call)
  }

  const Start := State({}, {}, {}, map[], [], false, {}, {}, {}, 0, [], [], [], [], [], true)

  // ---------- The invariant ----------

  /** What the sets say about one consumer. */
  ghost predicate TagOk(s: State, tag: nat) {
    (tag in s.serving ==> tag in s.consumers && tag !in s.consumeRequests)
    && (tag in s.consumers ==> tag in s.infos && (tag in s.noAck <==> s.infos[tag].autoAck)
                               && s.infos[tag].phase != CancelledByBroker)
    && (tag in s.noAck ==> tag in s.consumers)
    && (tag in s.cancelled <==> tag in s.cancelRequests)
    && (tag in s.cancelled ==> tag in s.consumers && s.infos[tag].phase == TearingDown)
    && (tag in s.consumeRequests ==> tag in s.consumers && s.infos[tag].phase == SettingUp)
    && (tag in s.infos && (s.infos[tag].phase == Active || s.infos[tag].phase == SettingUp) ==> tag in s.consumers)
    && (tag in s.infos && s.infos[tag].phase == TearingDown && tag in s.consumers ==> tag in s.cancelled)
  }

  /** A pending event has a consumer; a cancelled manual consumer has no delivery left. */
  ghost predicate EventOk(s: State, e: Pending) {
    TagOf(e) in s.infos
    && match e
       case Delivered(d) => d.manual == !s.infos[d.tag].autoAck && (d.manual ==> s.infos[d.tag].phase != TearingDown)
       case Cancelled(tag) => tag !in s.serving && s.infos[tag].phase in {CancelledByBroker, TearingDown}
  }

  /** A consumer's cancellation is its last event. */
  ghost predicate CancellationsLast(pending: seq<Pending>) {
    forall i, j :: 0 <= i < j < |pending| && pending[i].Cancelled? ==> TagOf(pending[j]) != pending[i].tag
  }

  ghost predicate QueueOk(s: State) {
    (forall i :: 0 <= i < |s.pending| ==> EventOk(s, s.pending[i])) && CancellationsLast(s.pending)
  }

  /** The deliveries of a queue. */
  function Waiting(pending: seq<Pending>): seq<Delivery> {
    if pending == [] then []
    else if pending[0].Delivered? then [pending[0].d] + Waiting(pending[1..])
    else Waiting(pending[1..])
  }

  ghost predicate Increasing(ds: seq<Delivery>, below: nat) {
    (forall i, j :: 0 <= i < j < |ds| ==> ds[i].id < ds[j].id) && forall i :: 0 <= i < |ds| ==> ds[i].id < below
  }

  ghost predicate AllManual(ds: seq<Delivery>, manual: bool) {
    forall i :: 0 <= i < |ds| ==> ds[i].manual == manual
  }

  /** How often a delivery occurs in a list. */
  function Count(ds: seq<Delivery>, d: Delivery): nat {
    multiset(ds)[d]
  }

  /** Each delivery is in as many places as it was made: handed over, waiting, rejected, returned or dropped. */
  ghost predicate Placed(delivered: seq<Delivery>, handed: seq<Delivery>, waiting: seq<Delivery>,
                         rejected: seq<Delivery>,
                         returned: seq<Delivery>, dropped: seq<Delivery>) {
    forall d: Delivery ::
      Count(delivered, d) == Count(handed, d) + Count(waiting, d) + Count(rejected, d) + Count(returned, d)
        + Count(dropped, d)
  }

  /** Only manual deliveries are rejected, only automatic ones are returned or dropped; the others keep their order. */
  ghost predicate Ledger(s: State) {
    Placed(s.delivered, s.handed, Waiting(s.pending), s.rejected, s.returned, s.dropped)
    && Increasing(s.delivered, s.nextId) && Increasing(s.handed + Waiting(s.pending), s.nextId)
    && AllManual(s.rejected, true) && AllManual(s.returned, false) && AllManual(s.dropped, false)
  }

  ghost predicate SetsOk(s: State) {
    forall tag: nat :: TagOk(s, tag)
  }

  /** What holds even while a call waits; the code's assertions hold and no consumer is missed. */
  ghost predicate Good(s: State) {
    SetsOk(s) && QueueOk(s) && Ledger(s) && s.sound
  }

  /** No call is waiting. */
  ghost predicate Settled(s: State) {
    Good(s) && forall tag :: tag in s.infos ==> s.infos[tag].phase in {Active, CancelledByBroker}
  }

  // ---------- Queues ----------

  lemma {:induction false} WaitingAppend(pending: seq<Pending>, e: Pending)
    ensures Waiting(pending + [e]) == Waiting(pending) + if e.Delivered? then [e.d] else []
  {
    if pending == [] {
      assert [e][1..] == [];
    } else {
      WaitingAppend(pending[1..], e);
      assert (pending + [e])[1..] == pending[1..] + [e];
    }
  }

  lemma IncreasingAppend(ds: seq<Delivery>, below: nat, d: Delivery)
    requires Increasing(ds, below) && d.id == below
    ensures Increasing(ds + [d], below + 1)
  {
  }

  lemma IncreasingRaise(ds: seq<Delivery>, below: nat)
    requires Increasing(ds, below)
    ensures Increasing(ds, below + 1)
  {
  }

  // ---------- Frames ----------

  lemma CountConcat(a: seq<Delivery>, b: seq<Delivery>)
    ensures forall d :: Count(a + b, d) == Count(a, d) + Count(b, d)
  {
  }

  lemma CountOne(d: Delivery)
    ensures forall e :: Count([d], e) == if e == d then 1 else 0
  {
  }

  lemma PlacedMore(delivered: seq<Delivery>, handed: seq<Delivery>, waiting: seq<Delivery>, rejected: seq<Delivery>,
                   returned: seq<Delivery>, dropped: seq<Delivery>, d: Delivery)
    requires Placed(delivered, handed, waiting, rejected, returned, dropped)
    ensures Placed(delivered + [d], handed, waiting + [d], rejected, returned, dropped)
    ensures Placed(delivered + [d], handed, waiting, rejected + [d], returned, dropped)
    ensures Placed(delivered + [d], handed, waiting, rejected, returned, dropped + [d])
  {
    CountOne(d);
    CountConcat(delivered, [d]);
    CountConcat(waiting, [d]);
    CountConcat(rejected, [d]);
    CountConcat(dropped, [d]);
    hide Count;
  }

  lemma DeliverLedger(s: State, tag: nat)
    requires Ledger(s)
    ensures tag in s.cancelled || (tag in s.consumers && tag in s.infos) ==> Ledger(OnDeliver(s, tag))
  {
    var d := Delivery(tag, s.nextId, tag !in s.noAck);
    PlacedMore(s.delivered, s.handed, Waiting(s.pending), s.rejected, s.returned, s.dropped, d);
    IncreasingAppend(s.delivered, s.nextId, d);
    IncreasingRaise(s.handed + Waiting(s.pending), s.nextId);
    WaitingAppend(s.pending, Delivered(d));
    IncreasingAppend(s.handed + Waiting(s.pending), s.nextId, d);
    ConcatAssociative(s.handed, Waiting(s.pending), [d]);
    hide Increasing, Waiting, Placed;
  }

  lemma QueueAppend(s: State, e: Pending)
    requires QueueOk(s) && EventOk(s, e)
    requires forall i :: 0 <= i < |s.pending| && s.pending[i].Cancelled? ==> s.pending[i].tag != TagOf(e)
    ensures QueueOk(AddPendingEvent(s, e))
  {
    var d := AddPendingEvent(s, e);
    forall i | 0 <= i < |d.pending| ensures EventOk(d, d.pending[i]) {
      if i < |s.pending| {
        assert EventOk(s, s.pending[i]);
      } else {
        assert EventOk(s, e);
      }
    }
  }

  /** Nobody who is served has a cancellation pending. */
  lemma ServedNotCancelled(s: State, tag: nat)
    requires QueueOk(s) && tag in s.serving
    ensures forall i :: 0 <= i < |s.pending| && s.pending[i].Cancelled? ==> s.pending[i].tag != tag
  {
    forall i | 0 <= i < |s.pending| && s.pending[i].Cancelled? ensures s.pending[i].tag != tag {
      assert EventOk(s, s.pending[i]);
    }
  }

  lemma DeliverKeeps(s: State, tag: nat)
    requires Good(s) && tag in s.serving
    ensures Good(OnDeliver(s, tag))
  {
    assert TagOk(s, tag);
    DeliverLedger(s, tag);
    ServedNotCancelled(s, tag);
    var d := Delivery(tag, s.nextId, tag !in s.noAck);
    var t := s.(nextId := s.nextId + 1, delivered := s.delivered + [d]);
    assert QueueOk(t) by { SameQueue(s, t); }
    if tag in s.cancelled {
      SameQueue(t, OnDeliver(s, tag));
    } else {
      QueueAppend(t, Delivered(d));
    }
    hide Ledger, QueueOk;
    SameTags(s, OnDeliver(s, tag));
  }

  lemma SameQueue(s: State, d: State)
    requires QueueOk(s) && d.pending == s.pending && d.infos == s.infos && d.serving <= s.serving
    ensures QueueOk(d)
  {
    forall i | 0 <= i < |d.pending| ensures EventOk(d, d.pending[i]) {
      assert EventOk(s, s.pending[i]);
    }
  }

  lemma SameTags(s: State, d: State)
    requires SetsOk(s)
    requires d.consumers == s.consumers && d.noAck == s.noAck && d.cancelled == s.cancelled && d.infos == s.infos
    requires d.serving == s.serving && d.consumeRequests == s.consumeRequests && d.cancelRequests == s.cancelRequests
    ensures SetsOk(d)
  {
    forall tag: nat ensures TagOk(d, tag) {
      assert TagOk(s, tag);
    }
  }

  lemma BrokerCancelKeeps(s: State, tag: nat)
    requires Good(s) && tag in s.serving
    ensures Good(OnBrokerCancel(s.(serving := s.serving - {tag}), tag))
  {
    assert TagOk(s, tag);
    BrokerCancelSets(s, tag);
    BrokerCancelQueue(s, tag);
    hide QueueOk, SetsOk, Increasing, AllManual, TagOk;
    WaitingAppend(s.pending, Cancelled(tag));
    assert Waiting(s.pending) + [] == Waiting(s.pending);
    hide Waiting;
    var d := OnBrokerCancel(s.(serving := s.serving - {tag}), tag);
    assert Ledger(d);
    hide Ledger;
  }

  lemma BrokerCancelSets(s: State, tag: nat)
    requires SetsOk(s) && tag in s.serving
    ensures SetsOk(OnBrokerCancel(s.(serving := s.serving - {tag}), tag))
  {
    var d := OnBrokerCancel(s.(serving := s.serving - {tag}), tag);
    assert TagOk(s, tag);
    forall t: nat ensures TagOk(d, t) {
      assert TagOk(s, t);
    }
  }

  lemma BrokerCancelQueue(s: State, tag: nat)
    requires SetsOk(s) && QueueOk(s) && tag in s.serving
    ensures QueueOk(OnBrokerCancel(s.(serving := s.serving - {tag}), tag))
  {
    assert TagOk(s, tag);
    ServedNotCancelled(s, tag);
    var info := s.infos[tag];
    var marked := if info.phase == TearingDown then info else info.(phase := CancelledByBroker);
    var s0 := s.(serving := s.serving - {tag});
    var t := (if tag in s.cancelled then s0 else Forget(s0, tag)).(infos := s.infos[tag := marked]);
    forall i | 0 <= i < |t.pending| ensures EventOk(t, t.pending[i]) {
      assert EventOk(s, s.pending[i]);
    }
    assert QueueOk(t);
    assert EventOk(t, Cancelled(tag));
    QueueAppend(t, Cancelled(tag));
  }

  lemma CancelOkKeeps(s: State, tag: nat)
    requires Good(s) && tag in s.cancelRequests
    ensures Good(Receive(s, CancelOk(tag)))
    ensures tag !in Receive(s, CancelOk(tag)).cancelRequests && tag !in Receive(s, CancelOk(tag)).consumers
  {
    var d := Receive(s, CancelOk(tag));
    assert TagOk(s, tag);
    forall t: nat ensures TagOk(d, t) {
      assert TagOk(s, t);
    }
    SameQueue(s, d);
  }

  lemma ConsumeOkKeeps(s: State, tag: nat)
    requires Good(s) && tag in s.consumeRequests
    ensures Good(Receive(s, ConsumeOk(tag)))
  {
    var d := Receive(s, ConsumeOk(tag));
    assert TagOk(s, tag);
    forall t: nat ensures TagOk(d, t) {
      assert TagOk(s, t);
    }
    forall i | 0 <= i < |d.pending| ensures EventOk(d, d.pending[i]) {
      assert EventOk(s, s.pending[i]);
    }
  }

  /** What frames may change of the consumers: the broker may cancel one that is not being cancelled. */
  ghost predicate InfosFollow(s: State, d: State) {
    d.infos.Keys == s.infos.Keys && d.cancelRequests <= s.cancelRequests && d.consumeRequests <= s.consumeRequests
    && d.consumers <= s.consumers
    && forall tag :: tag in s.infos ==>
         d.infos[tag] == s.infos[tag]
         || (s.infos[tag].phase != TearingDown && d.infos[tag] == s.infos[tag].(phase := CancelledByBroker))
  }

  lemma Follows(s: State, f: Frame)
    requires SetsOk(s)
    ensures InfosFollow(s, Receive(s, f))
  {
    assert TagOk(s, f.tag);
    hide SetsOk, AddPendingEvent;
  }

  /** Every frame keeps the invariant. */
  lemma ReceiveKeeps(s: State, f: Frame)
    requires Good(s)
    ensures Good(Receive(s, f)) && InfosFollow(s, Receive(s, f))
  {
    Follows(s, f);
    match f {
      case Deliver(tag) => if tag in s.serving { DeliverKeeps(s, tag); }
      case BrokerCancel(tag) => if tag in s.serving { BrokerCancelKeeps(s, tag); }
      case CancelOk(tag) => if tag in s.cancelRequests { CancelOkKeeps(s, tag); }
      case ConsumeOk(tag) => if tag in s.consumeRequests { ConsumeOkKeeps(s, tag); }
    }
    hide Good, InfosFollow, OnDeliver, OnBrokerCancel, Forget;
  }

  lemma {:induction false} ReceiveAllKeeps(s: State, frames: seq<Frame>)
    requires Good(s)
    ensures Good(ReceiveAll(s, frames)) && InfosFollow(s, ReceiveAll(s, frames))
    decreases frames
  {
    hide Good, Receive;
    if frames != [] {
      ReceiveKeeps(s, frames[0]);
      var m := Receive(s, frames[0]);
      ReceiveAllKeeps(m, frames[1..]);
      var d := ReceiveAll(m, frames[1..]);
      forall tag | tag in s.infos
        ensures d.infos[tag] == s.infos[tag]
                || (s.infos[tag].phase != TearingDown && d.infos[tag] == s.infos[tag].(phase := CancelledByBroker))
      {
        assert tag in m.infos;
      }
    }
  }

  /** Waiting for an answer ends: it is no longer outstanding. */
  lemma {:induction false} ReceiveAllConcat(s: State, a: seq<Frame>, b: seq<Frame>)
    ensures ReceiveAll(s, a + b) == ReceiveAll(ReceiveAll(s, a), b)
    decreases a
  {
    if a == [] {
      assert a + b == b;
    } else {
      assert (a + b)[1..] == a[1..] + b;
      ReceiveAllConcat(Receive(s, a[0]), a[1..], b);
    }
  }

  lemma WaitEnds(s: State, before: seq<Frame>, answer: Frame, after: seq<Frame>)
    requires Good(s)
    ensures var d := ReceiveAll(s, before + [answer] + after);
            Good(d) && InfosFollow(s, d)
            && (answer.CancelOk? ==> answer.tag !in d.cancelRequests)
            && (answer.ConsumeOk? ==> answer.tag !in d.consumeRequests)
  {
    ReceiveAllKeeps(s, before + [answer] + after);
    ReceiveAllConcat(s, before + [answer], after);
    ReceiveAllConcat(s, before, [answer]);
    ReceiveAllKeeps(s, before);
    var waited := ReceiveAll(s, before);
    ReceiveKeeps(waited, answer);
    assert ReceiveAll(waited, [answer]) == ReceiveAll(Receive(waited, answer), []);
    var answered := Receive(waited, answer);
    ReceiveAllKeeps(answered, after);
    hide Good, ReceiveAll;
  }

  // ---------- Calls ----------

  lemma StartConsumingKeeps(s: State, tag: nat, autoAck: bool)
    requires Good(s) && tag !in s.infos && tag !in s.consumers && tag !in s.cancelled
    ensures Good(StartConsuming(s, tag, autoAck))
  {
    var d := StartConsuming(s, tag, autoAck);
    assert TagOk(s, tag);
    forall t: nat ensures TagOk(d, t) {
      assert TagOk(s, t);
    }
    forall i | 0 <= i < |d.pending| ensures EventOk(d, d.pending[i]) {
      assert EventOk(s, s.pending[i]);
    }
    hide TagOk, EventOk, Ledger;
  }

  lemma ActivateKeeps(s: State, tag: nat)
    requires Good(s) && tag in s.infos && tag !in s.consumeRequests
    ensures Good(Activate(s, tag))
  {
    var d := Activate(s, tag);
    assert TagOk(s, tag);
    forall t: nat ensures TagOk(d, t) {
      assert TagOk(s, t);
    }
    forall i | 0 <= i < |d.pending| ensures EventOk(d, d.pending[i]) {
      assert EventOk(s, s.pending[i]);
    }
    hide TagOk, EventOk, Ledger;
  }

  lemma ConsumeKeeps(s: State, tag: nat, autoAck: bool, before: seq<Frame>, after: seq<Frame>)
    requires Settled(s)
    ensures Settled(BasicConsume(s, tag, autoAck, before, after))
  {
    hide Good, ReceiveAll;
    if tag !in s.infos && tag !in s.consumers && tag !in s.cancelled {
      StartConsumingKeeps(s, tag, autoAck);
      var started := StartConsuming(s, tag, autoAck);
      WaitEnds(started, before, ConsumeOk(tag), after);
      var waited := ReceiveAll(started, before + [ConsumeOk(tag)] + after);
      ActivateKeeps(waited, tag);
      assert waited.infos[tag].phase in {SettingUp, CancelledByBroker};
    }
  }

  lemma {:induction false} WithoutIs(pending: seq<Pending>, tag: nat)
    ensures forall e :: e in Without(pending, tag) <==> e in pending && TagOf(e) != tag
    ensures CancellationsLast(pending) ==> CancellationsLast(Without(pending, tag))
    ensures forall d: Delivery ::
              Count(Waiting(pending), d) == Count(Waiting(Without(pending, tag)), d) + Count(Messages(pending, tag), d)
    ensures forall d :: d in Messages(pending, tag) <==> Delivered(d) in pending && d.tag == tag
  {
    if pending != [] {
      WithoutIs(pending[1..], tag);
    }
  }

  lemma IncreasingRemove(a: seq<Delivery>, d: Delivery, b: seq<Delivery>, below: nat)
    requires Increasing(a + [d] + b, below)
    ensures Increasing(a + b, below)
  {
    var with, without := a + [d] + b, a + b;
    assert forall i :: 0 <= i < |without| ==> without[i] == with[if i < |a| then i else i + 1];
  }

  lemma {:induction false} WithoutIncreasing(a: seq<Delivery>, pending: seq<Pending>, tag: nat, below: nat)
    requires Increasing(a + Waiting(pending), below)
    ensures Increasing(a + Waiting(Without(pending, tag)), below)
    decreases pending
  {
    hide Increasing;
    if pending != [] {
      var e, rest := pending[0], pending[1..];
      if e.Delivered? {
        ConcatAssociative(a, [e.d], Waiting(rest));
        if e.d.tag == tag {
          IncreasingRemove(a, e.d, Waiting(rest), below);
          WithoutIncreasing(a, rest, tag, below);
        } else {
          WithoutIncreasing(a + [e.d], rest, tag, below);
          ConcatAssociative(a, [e.d], Waiting(Without(rest, tag)));
          assert ([e] + Without(rest, tag))[1..] == Without(rest, tag);
        }
      } else {
        WithoutIncreasing(a, rest, tag, below);
        if e.tag != tag {
          assert ([e] + Without(rest, tag))[1..] == Without(rest, tag);
        }
      }
    }
  }

  lemma PlacedMoved(delivered: seq<Delivery>, handed: seq<Delivery>, pending: seq<Pending>, rejected: seq<Delivery>,
                    returned: seq<Delivery>, dropped: seq<Delivery>, tag: nat)
    requires Placed(delivered, handed, Waiting(pending), rejected, returned, dropped)
    ensures Placed(delivered, handed, Waiting(Without(pending, tag)), rejected + Messages(pending, tag), returned,
                   dropped)
    ensures Placed(delivered, handed, Waiting(Without(pending, tag)), rejected, returned + Messages(pending, tag),
                   dropped)
    ensures Messages(pending, tag) == [] ==>
            Placed(delivered, handed, Waiting(Without(pending, tag)), rejected, returned, dropped)
  {
    WithoutIs(pending, tag);
    CountConcat(rejected, Messages(pending, tag));
    CountConcat(returned, Messages(pending, tag));
    assert forall d: Delivery :: Count([], d) == 0;
    hide Count, Waiting, Without, Messages, CancellationsLast;
  }

  /** What a consumer's pending messages have in common. */
  lemma MessagesManual(s: State, tag: nat)
    requires QueueOk(s) && tag in s.infos
    ensures AllManual(Messages(s.pending, tag), !s.infos[tag].autoAck)
    ensures !s.infos[tag].autoAck && s.infos[tag].phase == TearingDown ==> Messages(s.pending, tag) == []
  {
    WithoutIs(s.pending, tag);
    var ms := Messages(s.pending, tag);
    forall i | 0 <= i < |ms|
      ensures ms[i].manual == !s.infos[tag].autoAck && (ms[i].manual ==> s.infos[tag].phase != TearingDown)
    {
      assert ms[i] in ms;
      var j :| 0 <= j < |s.pending| && s.pending[j] == Delivered(ms[i]);
      assert EventOk(s, s.pending[j]);
    }
    if ms != [] {
      assert ms[0].manual == !s.infos[tag].autoAck;
    }
  }

  lemma AllManualConcat(a: seq<Delivery>, b: seq<Delivery>, manual: bool)
    requires AllManual(a, manual) && AllManual(b, manual)
    ensures AllManual(a + b, manual)
  {
  }

  /** Rejecting the pending deliveries of a manual consumer. */
  lemma RejectLedger(s: State, tag: nat)
    requires Ledger(s) && QueueOk(s) && tag in s.infos && !s.infos[tag].autoAck
    ensures Ledger(s.(pending := Without(s.pending, tag), rejected := s.rejected + Messages(s.pending, tag)))
  {
    PlacedMoved(s.delivered, s.handed, s.pending, s.rejected, s.returned, s.dropped, tag);
    WithoutIncreasing(s.handed, s.pending, tag, s.nextId);
    MessagesManual(s, tag);
    AllManualConcat(s.rejected, Messages(s.pending, tag), true);
    hide Placed, Increasing, AllManual, Without, Messages, Waiting;
  }

  /** Returning the pending deliveries of an automatic consumer; a manual one has none by now. */
  lemma ReturnLedger(s: State, tag: nat)
    requires Ledger(s) && QueueOk(s) && tag in s.infos && s.infos[tag].phase == TearingDown
    ensures Ledger(s.(pending := Without(s.pending, tag),
                      returned := if s.infos[tag].autoAck then s.returned + Messages(s.pending, tag) else s.returned))
    ensures s.infos[tag].autoAck || Messages(s.pending, tag) == []
  {
    PlacedMoved(s.delivered, s.handed, s.pending, s.rejected, s.returned, s.dropped, tag);
    WithoutIncreasing(s.handed, s.pending, tag, s.nextId);
    MessagesManual(s, tag);
    if s.infos[tag].autoAck {
      AllManualConcat(s.returned, Messages(s.pending, tag), false);
    }
    hide Placed, Increasing, AllManual, Without, Messages, Waiting;
  }

  /** The events that are left after taking out those of `tag` do not depend on its consumer. */
  lemma WithoutEventsOk(s: State, d: State, tag: nat)
    requires QueueOk(s) && d.pending == Without(s.pending, tag) && d.serving == s.serving
             && d.infos - {tag} == s.infos - {tag}
    ensures QueueOk(d)
  {
    WithoutIs(s.pending, tag);
    hide CancellationsLast, Without;
    forall i | 0 <= i < |d.pending| ensures EventOk(d, d.pending[i]) {
      assert d.pending[i] in d.pending;
      var j :| 0 <= j < |s.pending| && s.pending[j] == d.pending[i];
      assert EventOk(s, s.pending[j]);
      var t := TagOf(s.pending[j]);
      assert t in s.infos - {tag};
      assert t in d.infos - {tag} && d.infos[t] == (d.infos - {tag})[t];
    }
  }

  lemma StartCancellingQueue(s: State, tag: nat)
    requires Settled(s) && tag in s.infos
    ensures QueueOk(StartCancelling(s, tag))
  {
    var d := StartCancelling(s, tag);
    assert d.infos - {tag} == s.infos - {tag};
    if s.infos[tag].autoAck {
      hide Ledger, SetsOk, CancellationsLast;
      forall i | 0 <= i < |d.pending| ensures EventOk(d, d.pending[i]) {
        assert EventOk(s, s.pending[i]);
      }
    } else {
      hide QueueOk, Ledger, SetsOk;
      WithoutEventsOk(s, d, tag);
    }
  }

  lemma StartCancellingKeeps(s: State, tag: nat)
    requires Settled(s) && tag in s.infos
    ensures Good(StartCancelling(s, tag))
    ensures tag in StartCancelling(s, tag).infos
            && StartCancelling(s, tag).infos[tag] == s.infos[tag].(phase := TearingDown)
  {
    var d := StartCancelling(s, tag);
    assert TagOk(s, tag);
    forall t: nat ensures TagOk(d, t) {
      assert TagOk(s, t);
    }
    StartCancellingQueue(s, tag);
    if !s.infos[tag].autoAck {
      RejectLedger(s, tag);
    }
    assert Ledger(d);
    hide TagOk, QueueOk, Ledger;
  }

  lemma FinishCancellingSets(s: State, tag: nat)
    requires SetsOk(s) && tag in s.infos && s.infos[tag].phase == TearingDown && tag !in s.cancelRequests
    ensures SetsOk(FinishCancelling(s, tag, s.infos[tag].autoAck))
  {
    var d := FinishCancelling(s, tag, s.infos[tag].autoAck);
    assert TagOk(s, tag);
    forall t: nat ensures TagOk(d, t) {
      assert TagOk(s, t);
    }
  }

  lemma FinishCancellingKeeps(s: State, tag: nat)
    requires Good(s) && tag in s.infos && s.infos[tag].phase == TearingDown && tag !in s.cancelRequests
    ensures Good(FinishCancelling(s, tag, s.infos[tag].autoAck))
  {
    var d := FinishCancelling(s, tag, s.infos[tag].autoAck);
    hide SetsOk, QueueOk, Ledger, Without, Messages;
    FinishCancellingSets(s, tag);
    ReturnLedger(s, tag);
    SameLedger(s, d, tag);
    assert d.infos - {tag} == s.infos - {tag};
    WithoutEventsOk(s, d, tag);
  }

  lemma SameLedger(s: State, d: State, tag: nat)
    requires d == FinishCancelling(s, tag, if tag in s.infos then s.infos[tag].autoAck else false)
    requires tag in s.infos
    requires Ledger(s.(pending := Without(s.pending, tag),
                       returned := if s.infos[tag].autoAck then s.returned + Messages(s.pending, tag) else s.returned))
    ensures Ledger(d)
  {
  }

  /** Nothing of a consumer is left once `basic_cancel` has returned. */
  ghost predicate Gone(s: State, tag: nat) {
    tag !in s.infos && tag !in s.consumers && tag !in s.cancelled
    && forall i :: 0 <= i < |s.pending| ==> TagOf(s.pending[i]) != tag
  }

  lemma CancelKeeps(s: State, tag: nat, before: seq<Frame>, after: seq<Frame>)
    requires Settled(s)
    ensures Settled(BasicCancel(s, tag, before, after)) && Gone(BasicCancel(s, tag, before, after), tag)
  {
    if tag in s.infos {
      hide SetsOk, QueueOk, Ledger, ReceiveAll;
      StartCancellingKeeps(s, tag);
      var started := StartCancelling(s, tag);
      WaitEnds(started, before, CancelOk(tag), after);
      var waited := ReceiveAll(started, before + [CancelOk(tag)] + after);
      hide StartCancelling;
      FinishCancellingKeeps(waited, tag);
      GoneAfter(waited, tag);
    } else {
      GoneAlready(s, tag);
    }
  }

  lemma GoneAlready(s: State, tag: nat)
    requires Good(s) && tag !in s.infos
    ensures Gone(s, tag)
  {
    assert TagOk(s, tag);
    forall i | 0 <= i < |s.pending| ensures TagOf(s.pending[i]) != tag {
      assert EventOk(s, s.pending[i]);
    }
  }

  lemma GoneAfter(s: State, tag: nat)
    requires Good(s) && tag in s.infos && s.infos[tag].phase == TearingDown && tag !in s.cancelRequests
    ensures Gone(FinishCancelling(s, tag, s.infos[tag].autoAck), tag)
  {
    FinishCancellingKeeps(s, tag);
    GoneAlready(FinishCancelling(s, tag, s.infos[tag].autoAck), tag);
  }

  // ---------- Dispatch ----------

  lemma HandLedger(s: State)
    requires Ledger(s) && s.pending != []
    ensures TagOf(s.pending[0]) in s.infos ==> Ledger(Hand(s))
  {
    var e := s.pending[0];
    if e.Delivered? {
      var rest := Waiting(s.pending[1..]);
      ConcatAssociative(s.handed, [e.d], rest);
      CountConcat(s.handed, [e.d]);
      CountConcat([e.d], rest);
      hide Count, Increasing, AllManual;
    }
  }

  lemma HandSets(s: State)
    requires Settled(s) && s.pending != []
    ensures SetsOk(Hand(s)) && TagOf(s.pending[0]) in s.infos
  {
    assert EventOk(s, s.pending[0]);
    var d := Hand(s);
    hide Ledger, QueueOk;
    forall t: nat ensures TagOk(d, t) {
      assert TagOk(s, t);
    }
  }

  lemma HandQueue(s: State)
    requires QueueOk(s) && s.pending != []
    ensures QueueOk(Hand(s)) && Hand(s).pending == s.pending[1..]
  {
    var d := Hand(s);
    forall i | 0 <= i < |d.pending| ensures EventOk(d, d.pending[i]) {
      assert d.pending[i] == s.pending[i + 1];
      assert EventOk(s, s.pending[i + 1]);
      assert EventOk(s, s.pending[0]);
    }
  }

  lemma HandKeeps(s: State)
    requires Settled(s) && s.pending != []
    ensures Settled(Hand(s))
  {
    HandSets(s);
    HandQueue(s);
    HandLedger(s);
    hide SetsOk, QueueOk, Ledger;
  }

  lemma FramesSettle(s: State, frames: seq<Frame>)
    requires Settled(s)
    ensures Settled(ReceiveAll(s, frames))
  {
    hide Good, ReceiveAll;
    ReceiveAllKeeps(s, frames);
  }

  lemma NestedKeeps(s: State, call: Call)
    requires Settled(s)
    ensures Settled(Nested(s, call))
  {
    hide Settled, ReceiveAll, BasicConsume, BasicCancel;
    match call {
      case Consume(tag, autoAck, before, after) => ConsumeKeeps(s, tag, autoAck, before, after);
      case Cancel(tag, before, after) => CancelKeeps(s, tag, before, after);
      case Process(frames, script) => FramesSettle(s, frames);
    }
  }

  lemma {:induction false} NestedAllKeeps(s: State, calls: seq<Call>)
    requires Settled(s)
    ensures Settled(NestedAll(s, calls))
    decreases calls
  {
    hide Settled, Nested;
    if calls != [] {
      NestedKeeps(s, calls[0]);
      NestedAllKeeps(Nested(s, calls[0]), calls[1..]);
    }
  }

  /** Dispatching empties the queue, whatever the callbacks do. */
  lemma {:induction false} DispatchKeeps(s: State, script: seq<seq<Call>>)
    requires Settled(s)
    ensures Settled(DispatchEvents(s, script)) && DispatchEvents(s, script).pending == []
    decreases |script|, |s.pending|
  {
    hide Settled, NestedAll;
    if s.pending != [] {
      HandKeeps(s);
      if script == [] {
        HandQueue(s) by { Unsettle(s); }
        hide Hand;
        DispatchKeeps(Hand(s), []);
      } else {
        hide Hand;
        NestedAllKeeps(Hand(s), script[0]);
        DispatchKeeps(NestedAll(Hand(s), script[0]), script[1..]);
      }
    }
  }

  lemma Unsettle(s: State)
    requires Settled(s)
    ensures QueueOk(s) && Ledger(s) && s.sound
  {
  }
}
