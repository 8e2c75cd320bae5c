/**
  The selector adapter (selector_ioloop_adapter.py) and the poller's tables (select_connection.py) as they
  are updated in place. Each method is proved to change the fields exactly as the function of the same name
  in `Watchers` says, to keep the tables in agreement, and to satisfy the assertions of the source. What a
  callback does when it is called is a list of the adapter's public operations.
 */
module WatcherObjects {
  import opened Bytes
  import W = Watchers

  class Adapter {
    var watchers: map<int, W.Slots>
    var fdHandlers: set<int>
    var readFds: set<int>
    var writeFds: set<int>
    var errorFds: set<int>
    var registered: map<int, W.Mask>
    var processing: map<int, W.Mask>
    var created: nat

    ghost function View(): W.State
      reads this
    {
      W.State(watchers, fdHandlers, readFds, writeFds, errorFds, registered, processing, created)
    }

    constructor ()
      ensures View() == W.Start
    {
      watchers, fdHandlers, registered, processing := map[], {}, map[], map[];
      readFds, writeFds, errorFds, created := {}, {}, {}, 0;
    }

    /** Records the events of a descriptor. */
    method SetHandlerEvents(fd: int, events: W.Mask)
      modifies this
      ensures View() == W.SetHandlerEvents(old(View()), fd, events)
    {
      readFds := if events.read then readFds + {fd} else readFds - {fd};
      writeFds := if events.write then writeFds + {fd} else writeFds - {fd};
      errorFds := if events.error then errorFds + {fd} else errorFds - {fd};
    }

    method AddHandler(fd: int, events: W.Mask)
      modifies this
      ensures View() == W.AddHandler(old(View()), fd, events)
    {
      fdHandlers := fdHandlers + {fd};
      SetHandlerEvents(fd, events);
      registered := registered[fd := events];
    }

    method UpdateHandler(fd: int, events: W.Mask)
      modifies this
      ensures View() == W.UpdateHandler(old(View()), fd, events)
    {
      SetHandlerEvents(fd, events);
      registered := registered[fd := events];
    }

    method RemoveHandler(fd: int)
      modifies this
      ensures View() == W.RemoveHandler(old(View()), fd)
    {
      processing := processing - {fd};
      SetHandlerEvents(fd, W.Mask(false, false, false));
      fdHandlers := fdHandlers - {fd};
      registered := registered - {fd};
    }

    method SetReader(fd: int, onReadable: nat)
      requires W.Agreement(View())
      modifies this
      ensures View() == W.SetReader(old(View()), fd, onReadable) && W.Agreement(View())
    {
      W.PerformKeeps(View(), W.PutReader(fd, onReadable));
      hide W.Agreement;
      if fd !in watchers {
        AddHandler(fd, W.READABLE);
        watchers := watchers[fd := W.Slots(Some(onReadable), None, created)];
        created := created + 1;
      } else {
        var callbacks := watchers[fd];
        if callbacks.reader == None {
          UpdateHandler(fd, W.BOTH);
        }
        watchers := watchers[fd := callbacks.(reader := Some(onReadable))];
      }
    }

    method SetWriter(fd: int, onWritable: nat)
      requires W.Agreement(View())
      modifies this
      ensures View() == W.SetWriter(old(View()), fd, onWritable) && W.Agreement(View())
    {
      W.PerformKeeps(View(), W.PutWriter(fd, onWritable));
      hide W.Agreement;
      if fd !in watchers {
        AddHandler(fd, W.WRITABLE);
        watchers := watchers[fd := W.Slots(None, Some(onWritable), created)];
        created := created + 1;
      } else {
        var callbacks := watchers[fd];
        if callbacks.writer == None {
          watchers := watchers[fd := callbacks.(writer := Some(onWritable))];
          UpdateHandler(fd, W.BOTH);
        } else {
          watchers := watchers[fd := callbacks.(writer := Some(onWritable))];
        }
      }
    }

    method RemoveReader(fd: int) returns (removed: bool)
      requires W.Agreement(View())
      modifies this
      ensures (View(), removed) == W.RemoveReader(old(View()), fd) && W.Agreement(View())
    {
      W.PerformKeeps(View(), W.DropReader(fd));
      if fd !in watchers {
        return false;
      }
      var callbacks := watchers[fd];
      if callbacks.reader == None {
        assert W.AgreeOn(View(), fd);
        assert callbacks.writer != None;
        return false;
      }
      hide W.Agreement;
      if callbacks.writer == None {
        watchers := watchers - {fd};
        RemoveHandler(fd);
      } else {
        watchers := watchers[fd := callbacks.(reader := None)];
        UpdateHandler(fd, W.WRITABLE);
      }
      removed := true;
    }

    method RemoveWriter(fd: int) returns (removed: bool)
      requires W.Agreement(View())
      modifies this
      ensures (View(), removed) == W.RemoveWriter(old(View()), fd) && W.Agreement(View())
    {
      W.PerformKeeps(View(), W.DropWriter(fd));
      if fd !in watchers {
        return false;
      }
      var callbacks := watchers[fd];
      if callbacks.writer == None {
        assert W.AgreeOn(View(), fd);
        assert callbacks.reader != None;
        return false;
      }
      hide W.Agreement;
      if callbacks.reader == None {
        watchers := watchers - {fd};
        RemoveHandler(fd);
      } else {
        watchers := watchers[fd := callbacks.(writer := None)];
        UpdateHandler(fd, W.READABLE);
      }
      removed := true;
    }

    /** A callback is called and does its operations. */
    method Invoke(callback: nat, behaviour: W.Behaviour)
      requires W.Agreement(View())
      modifies this
      ensures View() == W.Call(old(View()), callback, behaviour) && W.Agreement(View())
    {
      hide W.Agreement;
      ghost var before := View();
      var ops := W.ActionsOf(behaviour, callback);
      var i := 0;
      while i < |ops|
        invariant 0 <= i <= |ops| && W.Agreement(View())
        invariant W.PerformAll(before, ops) == W.PerformAll(View(), ops[i..])
      {
        assert ops[i..][1..] == ops[i + 1..];
        match ops[i] {
          case PutReader(fd, onReadable) => SetReader(fd, onReadable);
          case PutWriter(fd, onWritable) => SetWriter(fd, onWritable);
          case DropReader(fd) => var _ := RemoveReader(fd);
          case DropWriter(fd) => var _ := RemoveWriter(fd);
        }
        i := i + 1;
      }
    }

    /** `_on_reader_writer_fd_events`. */
    method OnReaderWriterFdEvents(fd: int, events: W.Mask, behaviour: W.Behaviour)
      returns (ghost moments: seq<W.Moment>)
      requires W.Agreement(View()) && fd in watchers
      modifies this
      ensures (View(), moments) == W.HandleEvents(old(View()), fd, events, behaviour) && W.Agreement(View())
    {
      hide W.Agreement, W.Call;
      moments := [];
      var callbacks := watchers[fd];
      if (events.write || events.error) && callbacks.writer != None {
        moments := [W.Moment(View(), fd, W.Writer, callbacks.writer.value)];
        Invoke(callbacks.writer.value, behaviour);
      }
      if events.read {
        var same := fd in watchers && watchers[fd].serial == callbacks.serial;
        var reader := if same then watchers[fd].reader else None;
        if reader != None {
          moments := moments + [W.Moment(View(), fd, W.Reader, reader.value)];
          Invoke(reader.value, behaviour);
        }
      }
    }

    method DispatchFdEvents(keys: seq<int>, reported: map<int, W.Mask>, behaviour: W.Behaviour)
      returns (ghost moments: seq<W.Moment>)
      requires W.Agreement(View())
      modifies this
      ensures (View(), moments) == W.Dispatch(old(View()), keys, reported, behaviour) && W.Agreement(View())
    {
      hide W.Agreement, W.HandleEvents;
      W.SetProcessing(View(), reported);
      processing := reported;
      ghost var start := View();
      moments := [];
      var i := 0;
      assert keys[0..] == keys;
      assert moments + W.Pass(start, keys, behaviour).1 == W.Pass(start, keys, behaviour).1;
      while i < |keys|
        invariant 0 <= i <= |keys| && W.Agreement(View())
        invariant W.Pass(start, keys, behaviour)
                  == (W.Pass(View(), keys[i..], behaviour).0, moments + W.Pass(View(), keys[i..], behaviour).1)
      {
        var fd := keys[i];
        assert keys[i..][1..] == keys[i + 1..];
        if fd in processing {
          var events := W.Mask(processing[fd].read && fd in readFds, processing[fd].write && fd in writeFds,
                               processing[fd].error && fd in errorFds);
          if events != W.Mask(false, false, false) {
            W.WatchedHasWatcher(View(), fd);
            ghost var more := OnReaderWriterFdEvents(fd, events, behaviour);
            ConcatAssociative(moments, more, W.Pass(View(), keys[i + 1..], behaviour).1);
            moments := moments + more;
          }
        }
        i := i + 1;
      }
      assert keys[i..] == [];
      assert moments + [] == moments;
    }
  }
}
