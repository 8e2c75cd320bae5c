/**
  The closing half of the connection object (connection.py). Each method is proved to change the fields
  exactly as the function of the same name in `ConnectionModel` says. A dictionary's keys are visited in an
  order that the caller supplies, any order of the keys; the channels are values of `ChannelModel`, for which
  every call on a channel is one of its functions.
 */
module ConnectionClose {
  import opened Bytes
  import M = ConnectionModel
  import C = ChannelModel

  class Connection {
    var state: M.ConnectionState
    var handshakeDone: bool
    var channels: map<int, C.Channel>
    var channelMax: nat
    var closesSent: nat
    var streamAborts: nat

    function View(): M.Connection
      reads this
    {
      M.Connection(state, handshakeDone, channels, channelMax, closesSent, streamAborts)
    }

    method NextChannelNumber() returns (number: Option<nat>)
      ensures number == M.NextChannelNumber(channels.Keys, channelMax)
    {
      var limit := if channelMax == 0 then M.MAX_CHANNELS else channelMax;
      assert |channels.Keys| == |channels|;
      if |channels| >= limit {
        return None;
      }
      for num := 1 to |channels| + 1
        invariant M.FirstFree(channels.Keys, 1) == M.FirstFree(channels.Keys, num)
      {
        if num !in channels {
          return Some(num);
        }
      }
      return Some(|channels| + 1);
    }

    /** `keys` is `dictkeys(self._channels)`: a list of the keys, in the dictionary's order. */
    ghost predicate IsKeyList(keys: seq<int>)
      reads this
    {
      (forall n :: n in channels ==> n in keys) && (forall i :: 0 <= i < |keys| ==> keys[i] in channels)
      && forall i, j :: 0 <= i < j < |keys| ==> keys[i] != keys[j]
    }

    method CloseChannels(keys: seq<int>)
      requires IsKeyList(keys)
      modifies `channels
      ensures channels == M.CloseChannels(old(channels))
    {
      hide C.CloseByClient;
      for i := 0 to |keys|
        invariant channels.Keys == old(channels).Keys && forall k :: 0 <= k < |keys| ==> keys[k] in channels
        invariant forall k :: i <= k < |keys| ==> channels[keys[k]] == old(channels)[keys[k]]
        invariant forall k :: 0 <= k < i ==> channels[keys[k]] == C.CloseByClient(old(channels)[keys[k]])
      {
        var ch := channels[keys[i]];
        if ch.state != C.Closing && ch.state != C.Closed {
          channels := channels[keys[i] := C.CloseByClient(ch)];
        } else {
          AlreadyLeaving(ch);
        }
      }
      forall n | n in channels
        ensures channels[n] == C.CloseByClient(old(channels)[n])
      {
        assert n in old(channels) && n in keys;
      }
    }

    lemma AlreadyLeaving(ch: C.Channel)
      requires ch.state == C.Closing || ch.state == C.Closed
      ensures C.CloseByClient(ch) == ch
    {
    }

    method Close(keys: seq<int>)
      requires IsKeyList(keys)
      modifies this
      ensures View() == M.CloseConnection(old(View()))
      ensures old(M.Invariant(View())) ==> M.Invariant(View())
    {
      hide M.Invariant;
      if M.Invariant(View()) {
        M.CloseKeeps(View());
      }
      hide M.CloseChannels;
      if state == M.Closing || state == M.Closed {
        return;
      }
      if channels != map[] {
        CloseChannels(keys);
      } else {
        NothingToClose();
      }
      state := M.Closing;
      if !handshakeDone {
        TerminateStream();
      } else if channels == map[] {
        OnCloseReady();
      }
    }

    /** `_terminate_stream`: asks the adapter to end the stream or the attempt to connect. */
    method TerminateStream()
      modifies `streamAborts
      ensures streamAborts == old(streamAborts) + 1
    {
      streamAborts := streamAborts + 1;
    }

    lemma NothingToClose()
      ensures M.CloseChannels(map[]) == map[]
    {
    }

    method OnChannelCleanup(number: int)
      modifies this
      ensures View() == M.ChannelCleanup(old(View()), number)
    {
      channels := channels - {number};
      if state == M.Closing && channels == map[] {
        OnCloseReady();
      }
    }

    method OnCloseReady()
      modifies `closesSent
      ensures View() == M.CloseReady(old(View()))
    {
      if state == M.Closed {
        return;
      }
      closesSent := closesSent + 1;
    }

    method OnStreamTerminated(keys: seq<int>)
      requires IsKeyList(keys)
      modifies this
      ensures View() == M.TerminateStream(old(View()))
      ensures old(M.Invariant(View()) && M.Enabled(View(), M.Terminate)) ==> M.Invariant(View())
    {
      hide M.Invariant;
      if M.Invariant(View()) && M.Enabled(View(), M.Terminate) {
        M.TerminateKeeps(View());
      }
      hide C.CloseMeta;
      state := M.Closed;
      for i := 0 to |keys|
        invariant channels.Keys == old(channels).Keys && forall k :: 0 <= k < |keys| ==> keys[k] in channels
        invariant forall k :: i <= k < |keys| ==> channels[keys[k]] == old(channels)[keys[k]]
        invariant forall k :: 0 <= k < i ==> channels[keys[k]] == C.CloseMeta(old(channels)[keys[k]], C.StreamLost)
        invariant state == M.Closed && handshakeDone == old(handshakeDone) && channelMax == old(channelMax)
        invariant closesSent == old(closesSent) && streamAborts == old(streamAborts)
      {
        channels := channels[keys[i] := C.CloseMeta(channels[keys[i]], C.StreamLost)];
      }
      forall n | n in channels
        ensures channels[n] == C.CloseMeta(old(channels)[n], C.StreamLost)
      {
        assert n in old(channels) && n in keys;
      }
    }
  }
}
