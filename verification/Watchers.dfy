/** The selector adapter's watcher map and the poller's tables, which must agree. */
module Watchers {
  import opened Bytes

  datatype Mask = Mask(read: bool, write: bool, error: bool)

  const READABLE := Mask(true, false, false)
  /** Errors are reported to the writer. */
  const WRITABLE := Mask(false, true, true)
  const BOTH := Mask(true, true, true)

  /** A `_FileDescriptorCallbacks` object; `serial` is its identity. */
  datatype Slots = Slots(reader: Option<nat>, writer: Option<nat>, serial: nat)

  /** `registered` is what the operating system's poller was last told about each descriptor. */
  datatype State = State(watchers: map<int, Slots>, handlers: set<int>,
                         readSet: set<int>, writeSet: set<int>, errorSet: set<int>,
                         registered: map<int, Mask>, processing: map<int, Mask>, created: nat)

  // ---------- The poller ----------

  function WithMember(fds: set<int>, fd: int, member: bool): set<int> {
    if member then fds + {fd} else fds - {fd}
  }

  function SetHandlerEvents(s: State, fd: int, events: Mask): State {
    s.(readSet := WithMember(s.readSet, fd, events.read), writeSet := WithMember(s.writeSet, fd, events.write),
       errorSet := WithMember(s.errorSet, fd, events.error))
  }

  function AddHandler(s: State, fd: int, events: Mask): State {
    SetHandlerEvents(s.(handlers := s.handlers + {fd}), fd, events).(registered := s.registered[fd := events])
  }

  function UpdateHandler(s: State, fd: int, events: Mask): State {
    SetHandlerEvents(s, fd, events).(registered := s.registered[fd := events])
  }

  function RemoveHandler(s: State, fd: int): State {
    SetHandlerEvents(s, fd, Mask(false, false, false))
      .(processing := s.processing - {fd}, handlers := s.handlers - {fd}, registered := s.registered - {fd})
  }

  // ---------- The adapter ----------

  function SetReader(s: State, fd: int, callback: nat): State {
    if fd !in s.watchers then
      AddHandler(s, fd, READABLE)
        .(watchers := s.watchers[fd := Slots(Some(callback), None, s.created)], created := s.created + 1)
    else
      var set_ := s.watchers[fd].(reader := Some(callback));
      (if s.watchers[fd].reader == None then UpdateHandler(s, fd, BOTH) else s).(watchers := s.watchers[fd := set_])
  }

  function SetWriter(s: State, fd: int, callback: nat): State {
    if fd !in s.watchers then
      AddHandler(s, fd, WRITABLE)
        .(watchers := s.watchers[fd := Slots(None, Some(callback), s.created)], created := s.created + 1)
    else
      var set_ := s.watchers[fd].(writer := Some(callback));
      (if s.watchers[fd].writer == None then UpdateHandler(s, fd, BOTH) else s).(watchers := s.watchers[fd := set_])
  }

  /** The second result says whether a reader was removed. */
  function RemoveReader(s: State, fd: int): (State, bool) {
    if fd !in s.watchers || s.watchers[fd].reader == None then (s, false)
    else if s.watchers[fd].writer == None then (RemoveHandler(s, fd).(watchers := s.watchers - {fd}), true)
    else (UpdateHandler(s, fd, WRITABLE).(watchers := s.watchers[fd := s.watchers[fd].(reader := None)]), true)
  }

  function RemoveWriter(s: State, fd: int): (State, bool) {
    if fd !in s.watchers || s.watchers[fd].writer == None then (s, false)
    else if s.watchers[fd].reader == None then (RemoveHandler(s, fd).(watchers := s.watchers - {fd}), true)
    else (UpdateHandler(s, fd, READABLE).(watchers := s.watchers[fd := s.watchers[fd].(writer := None)]), true)
  }

  datatype Op =
    | PutReader(fd: int, callback: nat)
    | PutWriter(fd: int, callback: nat)
    | DropReader(fd: int)
    | DropWriter(fd: int)

  function Perform(s: State, op: Op): State {
    match op
    case PutReader(fd, callback) => SetReader(s, fd, callback)
    case PutWriter(fd, callback) => SetWriter(s, fd, callback)
    case DropReader(fd) => RemoveReader(s, fd).0
    case DropWriter(fd) => RemoveWriter(s, fd).0
  }

  function PerformAll(s: State, ops: seq<Op>): State
    decreases ops
  {
    if ops == [] then s else PerformAll(Perform(s, ops[0]), ops[1..])
  }

  // ---------- Agreement ----------

  /** The tables agree about one descriptor. */
  ghost predicate AgreeOn(s: State, fd: int) {
    var reading := fd in s.watchers && s.watchers[fd].reader.Some?;
    var writing := fd in s.watchers && s.watchers[fd].writer.Some?;
    (fd in s.watchers <==> reading || writing)
    && (fd in s.handlers <==> fd in s.watchers) && (fd in s.registered <==> fd in s.watchers)
    && (fd in s.readSet <==> reading) && (fd in s.writeSet <==> writing) && (fd in s.errorSet <==> writing)
    && (fd in s.watchers ==> s.registered[fd] == Mask(reading, writing, writing) && s.watchers[fd].serial < s.created)
  }

  ghost predicate Agreement(s: State) {
    forall fd: int :: AgreeOn(s, fd)
  }

  const Start := State(map[], {}, {}, {}, {}, map[], map[], 0)

  lemma StartAgrees()
    ensures Agreement(Start)
  {
  }

  /** An operation on one descriptor leaves the others alone. */
  ghost predicate SameElsewhere(s: State, d: State, at: int) {
    d.created >= s.created
    && forall fd: int :: fd != at ==>
      SameAt(s, d, fd)
  }

  ghost predicate SameAt(s: State, d: State, fd: int) {
    (fd in d.watchers <==> fd in s.watchers) && (fd in s.watchers ==> d.watchers[fd] == s.watchers[fd])
    && (fd in d.handlers <==> fd in s.handlers)
    && (fd in d.readSet <==> fd in s.readSet) && (fd in d.writeSet <==> fd in s.writeSet)
    && (fd in d.errorSet <==> fd in s.errorSet)
    && (fd in d.registered <==> fd in s.registered) && (fd in s.registered ==> d.registered[fd] == s.registered[fd])
    && (fd in d.processing <==> fd in s.processing) && (fd in s.processing ==> d.processing[fd] == s.processing[fd])
  }

  lemma PerformLocal(s: State, op: Op)
    ensures SameElsewhere(s, Perform(s, op), op.fd)
  {
  }

  /** A descriptor's watcher object persists, or a later one has taken its place. */
  ghost predicate SameOrNewer(s: State, d: State, fd: int) {
    (fd in d.watchers ==> (fd in s.watchers && d.watchers[fd].serial == s.watchers[fd].serial)
                          || d.watchers[fd].serial >= s.created)
    && (fd in d.processing ==> fd in s.processing && d.processing[fd] == s.processing[fd])
    && (fd in d.processing && fd in s.watchers ==> fd in d.watchers && d.watchers[fd].serial == s.watchers[fd].serial)
  }

  lemma PerformAt(s: State, op: Op)
    requires AgreeOn(s, op.fd)
    ensures AgreeOn(Perform(s, op), op.fd) && SameOrNewer(s, Perform(s, op), op.fd)
  {
  }

  /** Every operation keeps the watcher map and the poller's tables in agreement. */
  lemma PerformKeeps(s: State, op: Op)
    requires Agreement(s)
    ensures Agreement(Perform(s, op))
    ensures forall fd: int :: SameOrNewer(s, Perform(s, op), fd)
    ensures Perform(s, op).created >= s.created
  {
    PerformLocal(s, op);
    assert AgreeOn(s, op.fd);
    PerformAt(s, op);
    var d := Perform(s, op);
    hide Perform;
    forall fd: int | fd != op.fd
      ensures AgreeOn(d, fd) && SameOrNewer(s, d, fd)
    {
      assert AgreeOn(s, fd) && SameAt(s, d, fd);
    }
  }

  lemma {:induction false} PerformAllKeeps(s: State, ops: seq<Op>)
    requires Agreement(s)
    ensures Agreement(PerformAll(s, ops))
    ensures forall fd: int :: SameOrNewer(s, PerformAll(s, ops), fd)
    ensures PerformAll(s, ops).created >= s.created
    decreases ops
  {
    hide Agreement, Perform;
    if ops != [] {
      PerformKeeps(s, ops[0]);
      var m := Perform(s, ops[0]);
      PerformAllKeeps(m, ops[1..]);
      var d := PerformAll(m, ops[1..]);
      forall fd: int ensures SameOrNewer(s, d, fd) {
        assert SameOrNewer(s, m, fd) && SameOrNewer(m, d, fd);
      }
    }
  }

  // ---------- A dispatch pass ----------

  datatype Kind = Reader | Writer

  /** A callback of `fd` is called, and the state at that time. */
  datatype Moment = Moment(at: State, fd: int, kind: Kind, callback: nat)

  /** What each callback does when it is called. */
  type Behaviour = map<nat, seq<Op>>

  function ActionsOf(behaviour: Behaviour, callback: nat): seq<Op> {
    if callback in behaviour then behaviour[callback] else []
  }

  function Call(s: State, callback: nat, behaviour: Behaviour): (r: State)
    requires Agreement(s)
    ensures Agreement(r)
  {
    PerformAllKeeps(s, ActionsOf(behaviour, callback));
    PerformAll(s, ActionsOf(behaviour, callback))
  }

  /** The reader of the `_FileDescriptorCallbacks` object `serial`; an object taken off the map has none. */
  function ReaderOf(s: State, fd: int, serial: nat): Option<nat> {
    if fd in s.watchers && s.watchers[fd].serial == serial then s.watchers[fd].reader else None
  }

  /** `_on_reader_writer_fd_events`: the writer first, then the reader if there still is one. */
  function HandleEvents(s: State, fd: int, events: Mask, behaviour: Behaviour): (r: (State, seq<Moment>))
    requires Agreement(s) && fd in s.watchers
    ensures Agreement(r.0)
  {
    var (w, written) := CallWriter(s, fd, events, behaviour);
    CallReader(w, fd, s.watchers[fd].serial, events, behaviour, written)
  }

  function CallWriter(s: State, fd: int, events: Mask, behaviour: Behaviour): (r: (State, seq<Moment>))
    requires Agreement(s) && fd in s.watchers
    ensures Agreement(r.0)
  {
    var writer := s.watchers[fd].writer;
    if (events.write || events.error) && writer.Some? then
      (Call(s, writer.value, behaviour), [Moment(s, fd, Writer, writer.value)])
    else (s, [])
  }

  function CallReader(s: State, fd: int, serial: nat, events: Mask, behaviour: Behaviour, earlier: seq<Moment>)
    : (r: (State, seq<Moment>))
    requires Agreement(s)
    ensures Agreement(r.0)
  {
    var reader := ReaderOf(s, fd, serial);
    if events.read && reader.Some? then
      (Call(s, reader.value, behaviour), earlier + [Moment(s, fd, Reader, reader.value)])
    else (s, earlier)
  }

  /** The reported events that are still watched. */
  function StillWatched(s: State, fd: int, events: Mask): Mask {
    Mask(events.read && fd in s.readSet, events.write && fd in s.writeSet, events.error && fd in s.errorSet)
  }

  lemma WatchedHasWatcher(s: State, fd: int)
    requires Agreement(s) && (fd in s.readSet || fd in s.writeSet || fd in s.errorSet)
    ensures fd in s.watchers && fd in s.handlers
  {
    assert AgreeOn(s, fd);
  }

  /** The loop of `_dispatch_fd_events` over the keys of the event map. */
  function Pass(s: State, keys: seq<int>, behaviour: Behaviour): (r: (State, seq<Moment>))
    requires Agreement(s)
    ensures Agreement(r.0)
    decreases keys
  {
    if keys == [] then (s, [])
    else
      var fd := keys[0];
      if fd !in s.processing || StillWatched(s, fd, s.processing[fd]) == Mask(false, false, false) then
        Pass(s, keys[1..], behaviour)
      else
        WatchedHasWatcher(s, fd);
        var (d, moments) := HandleEvents(s, fd, StillWatched(s, fd, s.processing[fd]), behaviour);
        var (e, more) := Pass(d, keys[1..], behaviour);
        (e, moments + more)
  }

  /** `_dispatch_fd_events`; `keys` lists the descriptors of `reported`. */
  function Dispatch(s: State, keys: seq<int>, reported: map<int, Mask>, behaviour: Behaviour): (State, seq<Moment>)
    requires Agreement(s)
  {
    SetProcessing(s, reported);
    Pass(s.(processing := reported), keys, behaviour)
  }

  lemma SetProcessing(s: State, reported: map<int, Mask>)
    requires Agreement(s)
    ensures Agreement(s.(processing := reported))
  {
    forall fd: int ensures AgreeOn(s.(processing := reported), fd) {
      assert AgreeOn(s, fd);
    }
  }

  /**
    A call in a pass that began in `start` with `reported`: the watcher has been on the map ever since,
    the callback is its present one, and the event was reported and is still watched for.
   */
  ghost predicate Justified(start: State, reported: map<int, Mask>, m: Moment) {
    m.fd in reported && m.fd in start.watchers && m.fd in m.at.watchers && m.fd in m.at.handlers
    && m.at.watchers[m.fd].serial == start.watchers[m.fd].serial
    && match m.kind
       case Reader => m.at.watchers[m.fd].reader == Some(m.callback) && reported[m.fd].read && m.fd in m.at.readSet
       case Writer =>
         m.at.watchers[m.fd].writer == Some(m.callback) && (reported[m.fd].write || reported[m.fd].error)
         && m.fd in m.at.writeSet && m.fd in m.at.errorSet
  }

  ghost predicate AllJustified(start: State, reported: map<int, Mask>, moments: seq<Moment>) {
    forall i :: 0 <= i < |moments| ==> Justified(start, reported, moments[i])
  }

  /** What a pass has reached: every descriptor's watcher is the one of the start, or newer. */
  ghost predicate Reached(start: State, s: State) {
    Agreement(s) && forall fd: int :: SameOrNewer(start, s, fd)
  }

  /** The watchers of the start are still below those that come later. */
  ghost predicate Begun(start: State) {
    Agreement(start) && forall fd :: fd in start.processing ==> fd in start.watchers
  }

  lemma CallReaches(start: State, s: State, callback: nat, behaviour: Behaviour)
    requires Begun(start) && Reached(start, s) && s.created >= start.created
    ensures Reached(start, Call(s, callback, behaviour)) && Call(s, callback, behaviour).created >= start.created
  {
    PerformAllKeeps(s, ActionsOf(behaviour, callback));
    var d := Call(s, callback, behaviour);
    hide PerformAll, Agreement;
    forall fd: int ensures SameOrNewer(start, d, fd) {
      assert SameOrNewer(start, s, fd) && SameOrNewer(s, d, fd);
    }
  }

  lemma HandleJustified(start: State, s: State, fd: int, behaviour: Behaviour)
    requires Begun(start) && Reached(start, s) && s.created >= start.created && fd in s.processing && fd in s.watchers
    ensures var (d, moments) := HandleEvents(s, fd, StillWatched(s, fd, s.processing[fd]), behaviour);
            AllJustified(start, start.processing, moments) && Reached(start, d) && d.created >= start.created
  {
    var events := StillWatched(s, fd, s.processing[fd]);
    assert AgreeOn(s, fd) && SameOrNewer(start, s, fd);
    var (w, written) := CallWriter(s, fd, events, behaviour);
    assert AllJustified(start, start.processing, written);
    if (events.write || events.error) && s.watchers[fd].writer.Some? {
      CallReaches(start, s, s.watchers[fd].writer.value, behaviour);
    }
    var reader := ReaderOf(w, fd, s.watchers[fd].serial);
    if events.read && reader.Some? {
      CallReaches(start, w, reader.value, behaviour);
      assert AgreeOn(w, fd);
    }
  }

  lemma {:induction false} PassJustified(start: State, s: State, keys: seq<int>, behaviour: Behaviour)
    requires Begun(start) && Reached(start, s) && s.created >= start.created
    ensures AllJustified(start, start.processing, Pass(s, keys, behaviour).1)
    decreases keys
  {
    hide Agreement, HandleEvents, Justified;
    if keys != [] {
      var fd := keys[0];
      if fd !in s.processing || StillWatched(s, fd, s.processing[fd]) == Mask(false, false, false) {
        PassJustified(start, s, keys[1..], behaviour);
      } else {
        WatchedHasWatcher(s, fd);
        HandleJustified(start, s, fd, behaviour);
        PassJustified(start, HandleEvents(s, fd, StillWatched(s, fd, s.processing[fd]), behaviour).0, keys[1..],
                      behaviour);
      }
    }
  }

  /**
    Whatever its callbacks change, a pass calls no callback of a watcher removed during the pass (even
    if the descriptor is watched again), nor one for an event that has been withdrawn.
   */
  lemma DispatchJustified(s: State, keys: seq<int>, reported: map<int, Mask>, behaviour: Behaviour)
    requires Agreement(s) && forall fd :: fd in reported ==> fd in s.watchers
    ensures AllJustified(s, reported, Dispatch(s, keys, reported, behaviour).1)
  {
    var start := s.(processing := reported);
    SetProcessing(s, reported);
    hide Agreement;
    PassJustified(start, start, keys, behaviour);
    assert forall m :: Justified(start, reported, m) <==> Justified(s, reported, m);
  }

  // ---------- No event is lost ----------

  /** The calls that the events `events` of a watcher call for. */
  function Served(slots: Slots, events: Mask): seq<(Kind, nat)> {
    (if (events.write || events.error) && slots.writer.Some? then [(Writer, slots.writer.value)] else [])
    + (if events.read && slots.reader.Some? then [(Reader, slots.reader.value)] else [])
  }

  function CallsOf(moments: seq<Moment>, fd: int): seq<(Kind, nat)> {
    if moments == [] then []
    else if moments[0].fd == fd then [(moments[0].kind, moments[0].callback)] + CallsOf(moments[1..], fd)
    else CallsOf(moments[1..], fd)
  }

  ghost predicate Untouched(behaviour: Behaviour, fd: int) {
    forall callback :: callback in behaviour ==>
      forall i :: 0 <= i < |behaviour[callback]| ==> behaviour[callback][i].fd != fd
  }

  lemma {:induction false} CallsOfAppend(a: seq<Moment>, b: seq<Moment>, fd: int)
    ensures CallsOf(a + b, fd) == CallsOf(a, fd) + CallsOf(b, fd)
  {
    if a == [] {
      assert a + b == b;
    } else {
      CallsOfAppend(a[1..], b, fd);
      assert (a + b)[1..] == a[1..] + b;
    }
  }

  lemma {:induction false} PerformAllElsewhere(s: State, ops: seq<Op>, fd: int)
    requires forall i :: 0 <= i < |ops| ==> ops[i].fd != fd
    ensures SameAt(s, PerformAll(s, ops), fd)
    decreases ops
  {
    hide Perform;
    if ops != [] {
      PerformLocal(s, ops[0]);
      var m := Perform(s, ops[0]);
      assert SameAt(s, m, fd);
      PerformAllElsewhere(m, ops[1..], fd);
    }
  }

  lemma CallElsewhere(s: State, callback: nat, behaviour: Behaviour, fd: int)
    requires Agreement(s) && Untouched(behaviour, fd)
    ensures SameAt(s, Call(s, callback, behaviour), fd)
  {
    PerformAllElsewhere(s, ActionsOf(behaviour, callback), fd);
  }

  /** Handling the events of `key` makes the calls for `key`, and changes nothing at `fd`. */
  lemma HandleServes(s: State, key: int, events: Mask, behaviour: Behaviour, fd: int)
    requires Agreement(s) && key in s.watchers && Untouched(behaviour, fd)
    ensures var (d, moments) := HandleEvents(s, key, events, behaviour);
            SameAt(s, d, fd) && CallsOf(moments, fd) == if key == fd then Served(s.watchers[fd], events) else []
  {
    hide Untouched, PerformAll;
    var (w, written) := CallWriter(s, key, events, behaviour);
    if (events.write || events.error) && s.watchers[key].writer.Some? {
      CallElsewhere(s, s.watchers[key].writer.value, behaviour, fd);
    }
    assert SameAt(s, w, fd);
    var reader := ReaderOf(w, key, s.watchers[key].serial);
    if events.read && reader.Some? {
      CallElsewhere(w, reader.value, behaviour, fd);
      CallsOfAppend(written, [Moment(w, key, Reader, reader.value)], fd);
    }
    hide Call;
    assert CallsOf([], fd) == [];
    assert [Moment(w, key, Reader, 0)][1..] == [];
  }

  lemma WatchedIsServed(s: State, fd: int, events: Mask)
    requires Agreement(s) && fd in s.watchers
    ensures Served(s.watchers[fd], StillWatched(s, fd, events)) == Served(s.watchers[fd], events)
  {
    assert AgreeOn(s, fd);
  }

  /** How often, and for what, a pass over `keys` calls the callbacks of `fd`. */
  function Due(s: State, keys: seq<int>, fd: int): seq<(Kind, nat)>
    decreases keys
  {
    if keys == [] then []
    else (if keys[0] == fd && fd in s.processing && fd in s.watchers then Served(s.watchers[fd], s.processing[fd])
          else [])
         + Due(s, keys[1..], fd)
  }

  lemma {:induction false} DueSame(s: State, d: State, keys: seq<int>, fd: int)
    requires SameAt(s, d, fd)
    ensures Due(s, keys, fd) == Due(d, keys, fd)
    decreases keys
  {
    if keys != [] {
      DueSame(s, d, keys[1..], fd);
    }
  }

  lemma NotWatchedNotServed(s: State, fd: int)
    requires Agreement(s) && fd in s.watchers && fd in s.processing
    requires StillWatched(s, fd, s.processing[fd]) == Mask(false, false, false)
    ensures Served(s.watchers[fd], s.processing[fd]) == []
  {
    WatchedIsServed(s, fd, s.processing[fd]);
  }

  lemma {:induction false} PassServes(s: State, keys: seq<int>, behaviour: Behaviour, fd: int)
    requires Agreement(s) && Untouched(behaviour, fd)
    ensures CallsOf(Pass(s, keys, behaviour).1, fd) == Due(s, keys, fd)
    decreases keys
  {
    hide Agreement, Untouched, HandleEvents, Served;
    if keys != [] {
      var key := keys[0];
      if key !in s.processing || StillWatched(s, key, s.processing[key]) == Mask(false, false, false) {
        PassServes(s, keys[1..], behaviour, fd);
        if key == fd && fd in s.processing && fd in s.watchers {
          NotWatchedNotServed(s, fd);
        }
      } else {
        WatchedHasWatcher(s, key);
        var events := StillWatched(s, key, s.processing[key]);
        HandleServes(s, key, events, behaviour, fd);
        WatchedIsServed(s, key, s.processing[key]);
        var (d, moments) := HandleEvents(s, key, events, behaviour);
        DueSame(s, d, keys[1..], fd);
        PassServes(d, keys[1..], behaviour, fd);
        CallsOfAppend(moments, Pass(d, keys[1..], behaviour).1, fd);
      }
    }
  }

  ghost predicate NoRepeats(keys: seq<int>) {
    forall i, j :: 0 <= i < j < |keys| ==> keys[i] != keys[j]
  }

  lemma {:induction false} DueOnce(s: State, keys: seq<int>, fd: int)
    requires NoRepeats(keys) && fd in s.processing && fd in s.watchers
    ensures Due(s, keys, fd) == if fd in keys then Served(s.watchers[fd], s.processing[fd]) else []
    decreases keys
  {
    if keys != [] {
      DueOnce(s, keys[1..], fd);
      assert keys == [keys[0]] + keys[1..];
    }
  }

  /** A descriptor that no callback changes gets exactly the calls that its reported events call for. */
  lemma DispatchServes(s: State, keys: seq<int>, reported: map<int, Mask>, behaviour: Behaviour, fd: int)
    requires Agreement(s) && NoRepeats(keys) && fd in keys && fd in reported && fd in s.watchers
             && Untouched(behaviour, fd)
    ensures CallsOf(Dispatch(s, keys, reported, behaviour).1, fd) == Served(s.watchers[fd], reported[fd])
  {
    var start := s.(processing := reported);
    SetProcessing(s, reported);
    PassServes(start, keys, behaviour, fd);
    DueOnce(start, keys, fd);
  }

  // ---------- Setting and removing callbacks ----------

  /** What the operation leaves at its descriptor: the callback set or removed, and the other as it was. */
  lemma PerformSets(s: State, op: Op)
    requires Agreement(s)
    ensures var d, fd := Perform(s, op), op.fd;
            var reader := if fd in s.watchers then s.watchers[fd].reader else None;
            var writer := if fd in s.watchers then s.watchers[fd].writer else None;
            var slots := match op
                         case PutReader(_, callback) => (Some(callback), writer)
                         case PutWriter(_, callback) => (reader, Some(callback))
                         case DropReader(_) => (None, writer)
                         case DropWriter(_) => (reader, None);
            (fd in d.watchers <==> slots != (None, None))
            && (fd in d.watchers ==> (d.watchers[fd].reader, d.watchers[fd].writer) == slots)
            && (fd in d.watchers && fd in s.watchers ==> d.watchers[fd].serial == s.watchers[fd].serial)
    ensures SameElsewhere(s, Perform(s, op), op.fd)
    ensures op.DropReader? ==> (RemoveReader(s, op.fd).1 <==> op.fd in s.watchers && s.watchers[op.fd].reader.Some?)
    ensures op.DropWriter? ==> (RemoveWriter(s, op.fd).1 <==> op.fd in s.watchers && s.watchers[op.fd].writer.Some?)
  {
    assert AgreeOn(s, op.fd);
    PerformLocal(s, op);
  }

  /** The callback set last is the one that the next event calls, and one removed is not called. */
  lemma LastSetIsCalled(s: State, op: Op, keys: seq<int>, reported: map<int, Mask>, behaviour: Behaviour, callback: nat)
    requires Agreement(s) && NoRepeats(keys) && op.fd in keys && op.fd in reported && Untouched(behaviour, op.fd)
    ensures Agreement(Perform(s, op))
    ensures var called := CallsOf(Dispatch(Perform(s, op), keys, reported, behaviour).1, op.fd);
            (op.PutReader? && reported[op.fd].read ==> ((Reader, callback) in called <==> callback == op.callback))
            && (op.PutWriter? && (reported[op.fd].write || reported[op.fd].error) ==>
                  ((Writer, callback) in called <==> callback == op.callback))
            && (op.DropReader? ==> (Reader, callback) !in called)
            && (op.DropWriter? ==> (Writer, callback) !in called)
  {
    PerformKeeps(s, op);
    PerformSets(s, op);
    var d := Perform(s, op);
    hide Agreement, Perform, Dispatch, NoRepeats, Untouched;
    if op.fd in d.watchers {
      DispatchServes(d, keys, reported, behaviour, op.fd);
    } else {
      UnwatchedNotServed(d, keys, reported, behaviour, op.fd);
    }
  }

  lemma {:induction false} DueUnwatched(s: State, keys: seq<int>, fd: int)
    requires fd !in s.watchers
    ensures Due(s, keys, fd) == []
  {
    if keys != [] {
      DueUnwatched(s, keys[1..], fd);
    }
  }

  lemma UnwatchedNotServed(s: State, keys: seq<int>, reported: map<int, Mask>, behaviour: Behaviour, fd: int)
    requires Agreement(s) && fd !in s.watchers && Untouched(behaviour, fd)
    ensures CallsOf(Dispatch(s, keys, reported, behaviour).1, fd) == []
  {
    var start := s.(processing := reported);
    SetProcessing(s, reported);
    PassServes(start, keys, behaviour, fd);
    DueUnwatched(start, keys, fd);
  }

  /** What a callback does is done: after a pass that calls one reader, its operations have been performed. */
  lemma ReaderPerforms(s: State, fd: int, reader: nat, behaviour: Behaviour)
    requires Agreement(s) && fd in s.watchers && s.watchers[fd].reader == Some(reader) && reader in behaviour
    ensures var reported := map[fd := Mask(true, false, false)];
            Dispatch(s, [fd], reported, behaviour).0 == PerformAll(s.(processing := reported), behaviour[reader])
  {
    hide PerformAll;
    var reported := map[fd := Mask(true, false, false)];
    var start := s.(processing := reported);
    SetProcessing(s, reported);
    assert AgreeOn(start, fd);
    assert [fd][1..] == [];
    var d := Call(start, reader, behaviour);
    assert Pass(d, [], behaviour) == (d, []);
  }

  lemma WriterPerforms(s: State, fd: int, writer: nat, behaviour: Behaviour)
    requires Agreement(s) && fd in s.watchers && s.watchers[fd].writer == Some(writer) && writer in behaviour
    ensures var reported := map[fd := Mask(false, true, false)];
            Dispatch(s, [fd], reported, behaviour).0 == PerformAll(s.(processing := reported), behaviour[writer])
  {
    hide PerformAll;
    var reported := map[fd := Mask(false, true, false)];
    var start := s.(processing := reported);
    SetProcessing(s, reported);
    assert AgreeOn(start, fd);
    assert [fd][1..] == [];
    var d := Call(start, writer, behaviour);
    assert Pass(d, [], behaviour) == (d, []);
  }

  // ---------- Runs ----------

  datatype Event = Operate(op: Op) | Poll(keys: seq<int>, reported: map<int, Mask>, behaviour: Behaviour)

  /** An operation, or a pass; a pass is entered with whatever map of events the poller returned. */
  function Apply(s: State, e: Event): State
    requires Agreement(s)
  {
    match e
    case Operate(op) => Perform(s, op)
    case Poll(keys, reported, behaviour) => Dispatch(s, keys, reported, behaviour).0
  }

  lemma ApplyKeeps(s: State, e: Event)
    requires Agreement(s)
    ensures Agreement(Apply(s, e))
  {
    hide Agreement, Perform, Pass;
    match e {
      case Operate(op) => PerformKeeps(s, op);
      case Poll(keys, reported, behaviour) => SetProcessing(s, reported);
    }
  }

  function Run(s: State, es: seq<Event>): State
    requires Agreement(s)
    decreases es
  {
    if es == [] then s
    else
      ApplyKeeps(s, es[0]);
      Run(Apply(s, es[0]), es[1..])
  }

  lemma {:induction false} RunKeeps(s: State, es: seq<Event>)
    requires Agreement(s)
    ensures Agreement(Run(s, es))
    decreases es
  {
    hide Agreement, Apply;
    if es != [] {
      ApplyKeeps(s, es[0]);
      RunKeeps(Apply(s, es[0]), es[1..]);
    }
  }

  /**
    After every run of operations and dispatch passes the tables agree, and the calls of a next pass over
    events of watched descriptors are justified.
   */
  lemma RunsAgree(es: seq<Event>, keys: seq<int>, reported: map<int, Mask>, behaviour: Behaviour)
    ensures Agreement(Start) && Agreement(Run(Start, es))
    ensures var s := Run(Start, es);
            (forall fd :: fd in reported ==> fd in s.watchers)
            ==> AllJustified(s, reported, Dispatch(s, keys, reported, behaviour).1)
  {
    StartAgrees();
    hide Agreement, Run, Dispatch, AllJustified;
    RunKeeps(Start, es);
    var s := Run(Start, es);
    if forall fd :: fd in reported ==> fd in s.watchers {
      DispatchJustified(s, keys, reported, behaviour);
    }
  }
}
