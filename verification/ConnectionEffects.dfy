/** What a connection does to its channels. */
module ConnectionEffects {
  import opened Bytes
  import K = ChannelCalls
  import opened ConnectionModel

  /**
    When the stream is gone every channel that was not closed is, for that reason, and tells its on-close
    callbacks.
   */
  lemma EveryChannelTold(c: Connection, n: int)
    requires Invariant(c) && Enabled(c, Terminate) && n in c.channels
    ensures var ch, d := c.channels[n], Step(c, Terminate);
            d.state == Closed && d.channels.Keys == c.channels.Keys
            && if ch.state == M.Closed then d.channels[n] == ch
               else d.channels[n].state == M.Closed && d.channels[n].reason == Some(M.StreamLost)
                    && d.channels[n].todo == M.Tasks(T.Users(ch.closers), map[]) + [M.Cleanup]
  {
    hide T.Shape, T.Slots, T.TaskCount, T.Cleanups, M.Transition, M.Tasks, T.Users;
    var ch := c.channels[n];
    if ch.state != M.Closed {
      R.EmptyCounts();
      T.TransitionKeeps(ch.(reason := Some(M.StreamLost)));
      assert M.Tasks(T.Users(ch.closers), map[]) + [M.Cleanup] + []
             == M.Tasks(T.Users(ch.closers), map[]) + [M.Cleanup];
    }
  }

  /** Closing asks every channel that is open, or opening, to close, and leaves the others alone. */
  lemma EveryChannelAsked(c: Connection, n: int)
    requires Invariant(c) && n in c.channels
    ensures var ch, d := c.channels[n], Step(c, Close);
            d.channels.Keys == c.channels.Keys
            && if c.state == Closing || c.state == Closed || Leaving(ch) then d.channels[n] == ch
               else d.channels[n].state == M.Closing && d.channels[n].reason == Some(M.ClosedByClient)
                    && d.channels[n].issued
                       == ch.issued + K.CancelCalls(ch.consumers, ch.cancelled) + [M.CloseCall]
  {
    hide M.CloseByClient, T.Invariant, K.Awaited, K.CancelCalls, T.Calls;
    var ch := c.channels[n];
    K.CloseIssues(ch);
    CloseIsStep(ch);
    var calls := K.CancelCalls(ch.consumers, ch.cancelled);
    assert ch.issued + (calls + [M.CloseCall]) == ch.issued + calls + [M.CloseCall];
  }

  /** A new channel takes a number that was free; the others are left alone, and no other event adds one. */
  lemma ChannelAdded(c: Connection, e: Event)
    requires Enabled(c, e)
    ensures var d := Step(c, e);
            if e.AddChannel? && c.state == Established && |c.channels| < Limit(c.channelMax) then
              exists n :: 1 <= n <= Limit(c.channelMax) && n !in c.channels && d.channels == c.channels[n := M.Start()]
            else d.channels.Keys <= c.channels.Keys
  {
    hide M.Step, M.Start, M.CloseMeta, M.CloseByClient, FirstFree;
    assert |c.channels.Keys| == |c.channels|;
    AllocatedNumberIsFree(c.channels.Keys, c.channelMax);
    if e.AddChannel? && c.state == Established && |c.channels| < Limit(c.channelMax) {
      var n := NextChannelNumber(c.channels.Keys, c.channelMax).value;
      assert Step(c, e).channels == c.channels[n := M.Start()];
    }
  }

  /** What happens on one channel concerns no other; the channel is dropped when its clean-up has run. */
  lemma OtherChannelsUntouched(c: Connection, n: int, event: M.Event, m: int)
    requires Enabled(c, ChannelEvent(n, event)) && m in c.channels
    ensures var d := Step(c, ChannelEvent(n, event));
            if m != n then m in d.channels && d.channels[m] == c.channels[m]
            else if M.Step(c.channels[n], event).registered then
              n in d.channels && d.channels[n] == M.Step(c.channels[n], event)
            else n !in d.channels
  {
    hide M.Step, M.Enabled;
  }

  /** The end of the handshake establishes the connection, and nothing else does. */
  lemma OpenOkEstablishes(c: Connection, e: Event)
    requires Enabled(c, e)
    ensures e.OpenOk? ==>
              Step(c, e).state == Established && Step(c, e).handshakeDone && Step(c, e).channels == c.channels
    ensures !e.OpenOk? ==> (Step(c, e).state == Established ==> c.state == Established)
                           && Step(c, e).handshakeDone == c.handshakeDone
  {
    hide M.Step, M.CloseMeta, M.CloseByClient;
  }
}
