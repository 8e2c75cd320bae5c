/** Closing a connection with channels (connection.py), over the channels of `ChannelModel`. */
module ConnectionModel {
  import opened Bytes
  import M = ChannelModel
  import T = ChannelTheorems
  import R = ChannelRuns

  datatype ConnectionState = Connecting | Established | Closing | Closed

  /**
    `handshakeDone` (`_opened`) is set once the handshake is over; `closesSent` counts the `Connection.Close`
    methods sent, `streamAborts` the calls of `_terminate_stream` by `close`.
   */
  datatype Connection = Connection(
    state: ConnectionState, handshakeDone: bool, channels: map<int, M.Channel>, channelMax: nat, closesSent: nat,
    streamAborts: nat)

  datatype Event =
    | OpenOk
    | AddChannel
    | ChannelEvent(number: int, event: M.Event)
    | Close
    | Terminate

  // ---------- Channel numbers ----------

  /** The first free number from `num` to `|channels|`, or else the one after. */
  function FirstFree(channels: set<int>, num: nat): nat
    decreases |channels| + 1 - num
  {
    if num > |channels| || num !in channels then num else FirstFree(channels, num + 1)
  }

  const MAX_CHANNELS := 65535

  function Limit(channelMax: nat): nat { if channelMax == 0 then MAX_CHANNELS else channelMax }

  /** `_next_channel_number`; `None` stands for `NoFreeChannels`. */
  function NextChannelNumber(channels: set<int>, channelMax: nat): Option<nat> {
    if |channels| >= Limit(channelMax) then None else Some(FirstFree(channels, 1))
  }

  function UpTo(n: nat): (s: set<int>)
    ensures |s| == n && forall i :: i in s <==> 1 <= i <= n
  {
    if n == 0 then {} else UpTo(n - 1) + {n}
  }

  lemma {:induction false} FirstFreeIsFree(channels: set<int>, num: nat)
    requires 1 <= num <= |channels| + 1 && forall i :: 1 <= i < num ==> i in channels
    ensures num <= FirstFree(channels, num) <= |channels| + 1 && FirstFree(channels, num) !in channels
    ensures forall i :: 1 <= i < FirstFree(channels, num) ==> i in channels
    decreases |channels| + 1 - num
  {
    if num > |channels| {
      var all := UpTo(|channels|);
      assert all <= channels;
      SubsetOfSameSize(all, channels);
    } else if num in channels {
      FirstFreeIsFree(channels, num + 1);
    }
  }

  lemma {:induction false} SubsetOfSameSize(a: set<int>, b: set<int>)
    requires a <= b && |a| == |b|
    ensures a == b
  {
    assert |b - a| == |b| - |a|;
    assert b == (b - a) + a;
  }

  /** The number that is allocated is the lowest free one; allocation fails only when the limit is reached. */
  lemma AllocatedNumberIsFree(channels: set<int>, channelMax: nat)
    ensures var n := NextChannelNumber(channels, channelMax);
            (n.None? <==> |channels| >= Limit(channelMax))
            && (n.Some? ==> 1 <= n.value <= Limit(channelMax) && n.value !in channels
                            && forall i :: 1 <= i < n.value ==> i in channels)
  {
    if |channels| < Limit(channelMax) {
      FirstFreeIsFree(channels, 1);
    }
  }

  // ---------- Steps ----------

  /** `_on_close_ready`. */
  function CloseReady(c: Connection): Connection {
    if c.state == Closed then c else c.(closesSent := c.closesSent + 1)
  }

  /** `_on_channel_cleanup`. */
  function ChannelCleanup(c: Connection, number: int): Connection {
    var d := c.(channels := c.channels - {number});
    if d.state == Closing && d.channels == map[] then CloseReady(d) else d
  }

  function CloseChannels(channels: map<int, M.Channel>): map<int, M.Channel> {
    map n | n in channels :: M.CloseByClient(channels[n])
  }

  /** `close`; it raises when the connection is closing or closed. */
  function CloseConnection(c: Connection): Connection {
    if c.state == Closing || c.state == Closed then c
    else
      var d := c.(channels := CloseChannels(c.channels), state := Closing);
      if !c.handshakeDone then d.(streamAborts := d.streamAborts + 1)
      else if d.channels == map[] then CloseReady(d)
      else d
  }

  /** `_on_stream_terminated`: every channel left is closed. */
  function TerminateStream(c: Connection): Connection {
    c.(state := Closed, channels := map n | n in c.channels :: M.CloseMeta(c.channels[n], M.StreamLost))
  }

  predicate Enabled(c: Connection, e: Event) {
    match e
    case OpenOk => c.state == Connecting
    case ChannelEvent(n, event) => n in c.channels && event != M.LoseStream && M.Enabled(c.channels[n], event)
    case Terminate => forall n :: n in c.channels ==> c.channels[n].todo == []
    case _ => true
  }

  function Step(c: Connection, e: Event): Connection
    requires Enabled(c, e)
  {
    match e
    case OpenOk => c.(state := Established, handshakeDone := true)
    case AddChannel =>
      if c.state != Established || NextChannelNumber(c.channels.Keys, c.channelMax).None? then c
      else c.(channels := c.channels[NextChannelNumber(c.channels.Keys, c.channelMax).value := M.Start()])
    case ChannelEvent(n, event) =>
      var d := c.(channels := c.channels[n := M.Step(c.channels[n], event)]);
      if d.channels[n].registered then d else ChannelCleanup(d, n)
    case Close => CloseConnection(c)
    case Terminate => TerminateStream(c)
  }

  function Start(channelMax: nat): Connection { Connection(Connecting, false, map[], channelMax, 0, 0) }

  predicate Possible(c: Connection, es: seq<Event>)
    decreases es
  {
    es == [] || (Enabled(c, es[0]) && Possible(Step(c, es[0]), es[1..]))
  }

  function Execute(c: Connection, es: seq<Event>): Connection
    requires Possible(c, es)
    decreases es
  {
    if es == [] then c else Execute(Step(c, es[0]), es[1..])
  }

  // ---------- The invariant ----------

  /** A channel of a closing connection is CLOSING, or has closed and is about to be removed. */
  predicate Leaving(ch: M.Channel) { ch.state == M.Closing || ch.state == M.Closed }

  ghost predicate Invariant(c: Connection) {
    (forall n :: n in c.channels ==> T.Invariant(c.channels[n]) && c.channels[n].registered)
    && (c.state == Connecting ==> c.channels == map[] && !c.handshakeDone)
    && (c.state == Established ==> c.handshakeDone && c.closesSent == 0)
    && (c.state == Closing || c.state == Closed ==> forall n :: n in c.channels ==> Leaving(c.channels[n]))
    && c.closesSent <= 1
    && (c.closesSent == 1 ==> c.channels == map[])
    && (c.state == Closing && c.handshakeDone && c.channels == map[] ==> c.closesSent == 1)
    && (!c.handshakeDone ==> c.closesSent == 0 && c.channels == map[])
    && (c.handshakeDone || c.state == Connecting ==> c.streamAborts == 0)
    && (c.state == Closing && !c.handshakeDone ==> c.streamAborts == 1)
  }

  /** Only the clean-up task gives the channel's number back. */
  lemma RegisteredStays(ch: M.Channel, e: M.Event)
    requires M.Enabled(ch, e) && !(e.RunTask? && ch.todo[0].Cleanup?)
    ensures M.Step(ch, e).registered == ch.registered
  {
    hide M.Pump, M.Issue, M.CancelAll, M.Drain, M.Rpc, M.Register, M.Tasks, M.CancelConsumer, M.Without;
    IssueRegistered();
    if e.CloseChannel? {
      CancelAllRegistered(ch.(reason := Some(M.ClosedByClient)), ch.consumers);
    } else if e.BasicCancel? {
      CancelRegistered(ch, e.tag, e.callback);
    } else if e.RunTask? {
      var d := ch.(todo := ch.todo[1..]);
      PumpRegistered(d.(blocking := None));
      DrainRegistered(d.(closeOksSent := d.closeOksSent + 1, reason := Some(M.ClosedByBroker)));
    }
  }

  lemma IssueRegistered()
    ensures forall ch: M.Channel, r: M.Request :: M.Issue(ch, r).registered == ch.registered
  {
  }

  lemma CancelRegistered(ch: M.Channel, tag: string, callback: Option<nat>)
    ensures M.CancelConsumer(ch, tag, callback).registered == ch.registered
  {
  }

  lemma {:induction false} CancelAllRegistered(ch: M.Channel, tags: seq<string>)
    ensures M.CancelAll(ch, tags).registered == ch.registered
    decreases tags
  {
    hide M.CancelConsumer;
    if tags != [] {
      CancelRegistered(ch, tags[0], None);
      CancelAllRegistered(if tags[0] in ch.cancelled then ch else M.CancelConsumer(ch, tags[0], None), tags[1..]);
    }
  }

  lemma {:induction false} PumpRegistered(ch: M.Channel)
    ensures M.Pump(ch).registered == ch.registered
    decreases |ch.blocked|
  {
    if ch.blocked != [] && ch.blocking.None? {
      PumpRegistered(M.Rpc(ch.(blocked := ch.blocked[1..]), ch.blocked[0]));
    }
  }

  lemma {:induction false} DrainRegistered(ch: M.Channel)
    requires ch.reason.Some?
    ensures M.Drain(ch).registered == ch.registered
    decreases |ch.blocked|
  {
    if ch.blocked != [] {
      var d := ch.(blocked := ch.blocked[1..], dropped := ch.dropped + [ch.blocked[0].call]);
      DrainRegistered(if ch.blocked[0].call == M.CloseCall then M.CloseMeta(d, d.reason.value) else d);
    }
  }

  lemma ChannelEventKeeps(c: Connection, n: int, event: M.Event)
    requires Invariant(c) && Enabled(c, ChannelEvent(n, event))
    ensures Invariant(Step(c, ChannelEvent(n, event)))
  {
    hide T.Invariant, M.Step, M.Enabled;
    var ch := c.channels[n];
    R.StepKeeps(ch, event);
    if Leaving(ch) {
      R.NeverReopens(ch, event);
    }
    if !M.Step(ch, event).registered {
      var d := c.(channels := c.channels[n := M.Step(ch, event)]);
      assert d.channels - {n} == c.channels - {n};
      assert c.closesSent == 0;
    }
  }

  lemma CloseKeeps(c: Connection)
    requires Invariant(c)
    ensures Invariant(CloseConnection(c))
  {
    hide T.Invariant, M.CloseByClient;
    forall n | n in c.channels
      ensures T.Invariant(M.CloseByClient(c.channels[n])) && Leaving(M.CloseByClient(c.channels[n]))
      ensures M.CloseByClient(c.channels[n]).registered
    {
      R.CloseKeeps(c.channels[n]);
      RegisteredStays(c.channels[n], M.CloseChannel);
      CloseIsStep(c.channels[n]);
    }
    assert CloseChannels(c.channels) == map[] <==> c.channels == map[] by {
      assert CloseChannels(c.channels).Keys == c.channels.Keys;
    }
  }

  lemma CloseIsStep(ch: M.Channel)
    ensures M.Step(ch, M.CloseChannel) == M.CloseByClient(ch) && M.Enabled(ch, M.CloseChannel)
  {
  }

  lemma TerminateKeeps(c: Connection)
    requires Invariant(c) && Enabled(c, Terminate)
    ensures Invariant(TerminateStream(c))
  {
    hide T.Invariant, M.CloseMeta;
    forall n | n in c.channels
      ensures T.Invariant(M.CloseMeta(c.channels[n], M.StreamLost)) && Leaving(M.CloseMeta(c.channels[n], M.StreamLost))
      ensures M.CloseMeta(c.channels[n], M.StreamLost).registered
    {
      R.LoseStreamKeeps(c.channels[n]);
      LoseIsStep(c.channels[n]);
      RegisteredStays(c.channels[n], M.LoseStream);
    }
    assert TerminateStream(c).channels.Keys == c.channels.Keys;
  }

  lemma LoseIsStep(ch: M.Channel)
    requires ch.todo == []
    ensures M.Enabled(ch, M.LoseStream) && M.Step(ch, M.LoseStream) == M.CloseMeta(ch, M.StreamLost)
  {
  }

  lemma StepKeeps(c: Connection, e: Event)
    requires Invariant(c) && Enabled(c, e)
    ensures Invariant(Step(c, e))
  {
    hide T.Invariant, M.Step, M.Enabled, M.Start;
    match e
    case OpenOk =>
    case AddChannel =>
      R.StartInvariant();
      StartRegistered();
    case ChannelEvent(n, event) => ChannelEventKeeps(c, n, event);
    case Close => CloseKeeps(c);
    case Terminate => TerminateKeeps(c);
  }

  lemma StartRegistered()
    ensures M.Start().registered
  {
  }

  lemma {:induction false} RunKeeps(c: Connection, es: seq<Event>)
    requires Invariant(c) && Possible(c, es)
    ensures Invariant(Execute(c, es))
    decreases es
  {
    hide Invariant, Step, Enabled;
    if es != [] {
      StepKeeps(c, es[0]);
      RunKeeps(Step(c, es[0]), es[1..]);
    }
  }

  /**
    In every run: `Connection.Close` is sent at most once, never while a channel is left, and it has
    been sent as soon as an established connection is closing and its last channel is gone. A connection
    that was closed before its handshake was over terminates its stream instead, once.
   */
  lemma GracefulClose(channelMax: nat, es: seq<Event>)
    requires Possible(Start(channelMax), es)
    ensures var c := Execute(Start(channelMax), es);
            c.closesSent <= 1
            && (c.closesSent == 1 ==> c.channels == map[])
            && (c.state == Closing && c.handshakeDone && c.channels == map[] ==> c.closesSent == 1)
            && (c.state == Closing ==> forall n :: n in c.channels ==> Leaving(c.channels[n]))
            && (c.state == Closing ==> c.streamAborts == if c.handshakeDone then 0 else 1)
  {
    RunKeeps(Start(channelMax), es);
  }

  /** A closing connection gains no channel, and stays closing until the stream is gone. */
  lemma ClosingOnlyShrinks(c: Connection, e: Event)
    requires c.state == Closing && Enabled(c, e)
    ensures Step(c, e).channels.Keys <= c.channels.Keys
    ensures Step(c, e).state == if e.Terminate? then Closed else Closing
  {
    hide M.Step, M.CloseMeta;
  }
}
