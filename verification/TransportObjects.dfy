/**
  The transports as objects updated in place (io_services_utils.py). `AsyncTransport` has the fields and
  methods of the base class; the two transports hold one and add their own. Each method is proved to change
  the fields exactly as the function of the same name in `TransportBase`, `PlaintextTransport` or
  `TlsTransport` says. The event loop is represented by the socket's two watchers and the callback queue.
 */
module TransportObjects {
  import opened Bytes
  import opened TransportBase
  import Plain = PlaintextTransport
  import Tls = TlsTransport

  class AsyncTransport {
    var state: Phase
    var txBuffers: seq<bytes>
    var txBufferedByteCount: int
    /** The event loop's side: the socket's watchers and the callbacks to run. */
    var reading: bool
    var writing: bool
    var queue: seq<Queued>
    ghost var calls: seq<Call>
    ghost var written: bytes
    ghost var accepted: bytes
    ghost var heard: bytes
    ghost var userAborted: bool
    ghost var sound: bool

    ghost function View(): Base
      reads this
    {
      Base(state, txBuffers, txBufferedByteCount, reading, writing, queue, calls, written, accepted, heard,
           userAborted, sound)
    }

    constructor ()
      ensures View() == Plain.Start.(reading := false)
    {
      state, txBuffers, txBufferedByteCount := Active, [], 0;
      reading, writing, queue := false, false, [];
      calls, written, accepted, heard, userAborted, sound := [], [], [], [], false, true;
    }

    method Buffer(data: bytes)
      modifies this
      ensures View() == BufferTxData(old(View()), data)
    {
      txBuffers := txBuffers + [data];
      txBufferedByteCount := txBufferedByteCount + |data|;
      written := written + data;
    }

    /** One call of `send`, which takes up to `n` bytes, and its accounting. */
    method Send(n: nat)
      requires txBuffers != []
      modifies this
      ensures View() == SendOnce(old(View()), n)
    {
      var chunk := txBuffers[0];
      var sent := Min(n, |chunk|);
      accepted := accepted + chunk[..sent];
      txBuffers := txBuffers[1..];
      if sent < |chunk| {
        txBuffers := [chunk[sent..]] + txBuffers;
      }
      txBufferedByteCount := txBufferedByteCount - sent;
      sound := sound && txBufferedByteCount >= 0;
    }

    /** `_produce`; the result is the exception that the socket raised, if any. */
    method Produce(sends: seq<nat>, halt: Halt) returns (stop: Option<Halt>)
      modifies this
      ensures (View(), stop) == ProduceAll(old(View()), sends, halt)
    {
      hide SendOnce;
      ghost var before := View();
      var i := 0;
      while txBuffers != []
        invariant 0 <= i <= |sends|
        invariant ProduceAll(before, sends, halt) == ProduceAll(View(), sends[i..], halt)
        decreases |sends| - i
      {
        if i == |sends| {
          return Some(halt);
        }
        Send(sends[i]);
        assert sends[i..][1..] == sends[i + 1..];
        i := i + 1;
      }
      stop := None;
    }

    method InitiateAbort(error: Option<Failure>)
      modifies this
      ensures View() == TransportBase.InitiateAbort(old(View()), error)
    {
      if state == Completed {
        sound := false;
        return;
      }
      if state == Active {
        reading, writing, txBuffers := false, false, [];
      }
      if error == None {
        if state == AbortedByUser {
          return;
        }
        state := AbortedByUser;
        userAborted := true;
      } else {
        if state != Active {
          sound := sound && state == AbortedByUser;
          return;
        }
        state := Failed;
      }
      queue := queue + [Lost(error)];
    }

    method ConnectionLostNotify(error: Option<Failure>, abortsInside: bool)
      modifies this
      ensures View() == Notify(old(View()), error, abortsInside)
    {
      if state == Completed {
        return;
      }
      if error != None && state != Failed {
        sound := sound && state == AbortedByUser;
        return;
      }
      calls := calls + [Call(error, userAborted)];
      if abortsInside {
        InitiateAbort(None);
      }
      state := Completed;
    }

    /** The event loop runs the first queued callback, a notification. */
    method RunNextNotice(abortsInside: bool)
      requires queue != [] && queue[0].Lost?
      modifies this
      ensures View() == RunNotice(old(View()), abortsInside)
    {
      var next := queue[0];
      queue := queue[1..];
      ConnectionLostNotify(next.error, abortsInside);
    }
  }

  class AsyncPlaintextTransport {
    const base: AsyncTransport

    constructor ()
      ensures fresh(base) && base.View() == Plain.Start
    {
      base := new AsyncTransport();
      new;
      base.reading := true;
    }

    method Write(data: Plain.Chunk)
      modifies base
      ensures base.View() == Plain.Write(old(base.View()), data)
      ensures old(Plain.Invariant(base.View())) ==> Plain.Invariant(base.View())
    {
      hide Plain.Invariant;
      if Plain.Invariant(base.View()) {
        Plain.WriteKeeps(base.View(), data);
      }
      if base.state != Active {
        return;
      }
      var wasEmpty := base.txBufferedByteCount == 0;
      base.Buffer(data);
      if wasEmpty {
        base.writing := true;
      }
    }

    /** The protocol's `data_received`, which writes and aborts. */
    method DataReceived(reaction: seq<Plain.UserOp>)
      modifies base
      ensures base.View() == Plain.React(old(base.View()), reaction)
    {
      ghost var before := base.View();
      var i := 0;
      while i < |reaction|
        invariant 0 <= i <= |reaction|
        invariant Plain.React(before, reaction) == Plain.React(base.View(), reaction[i..])
      {
        assert reaction[i..][1..] == reaction[i + 1..];
        match reaction[i] {
          case UserWrite(data) => Write(data);
          case UserAbort => base.InitiateAbort(None);
        }
        i := i + 1;
      }
    }

    method Consume(receives: seq<Plain.Receive>, halt: Halt) returns (ending: Plain.Ending)
      modifies base
      ensures (base.View(), ending) == Plain.Consume(old(base.View()), receives, halt, 0)
    {
      hide Plain.React;
      ghost var before := base.View();
      var consumed, i := 0, 0;
      while base.state == Active && consumed < MAX_CONSUME_BYTES
        invariant 0 <= i <= |receives| && consumed >= 0
        invariant Plain.Consume(before, receives, halt, 0) == Plain.Consume(base.View(), receives[i..], halt, consumed)
        decreases |receives| - i
      {
        if i == |receives| {
          return Plain.Halted(halt);
        }
        var data := receives[i].data;
        if data == [] {
          return Plain.AtEnd;
        }
        assert receives[i..][1..] == receives[i + 1..];
        consumed := consumed + |data|;
        base.heard := base.heard + data;
        DataReceived(receives[i].reaction);
        if receives[i].raises {
          return Plain.Raised;
        }
        i := i + 1;
      }
      ending := Plain.Returned;
    }

    method OnSocketReadable(receives: seq<Plain.Receive>, halt: Halt, eof: Plain.EofReply)
      modifies base
      ensures base.View() == Plain.OnSocketReadable(old(base.View()), receives, halt, eof)
      ensures old(Plain.Invariant(base.View()) && base.reading) ==> Plain.Invariant(base.View())
    {
      hide Plain.Invariant;
      if Plain.Invariant(base.View()) && base.reading {
        Plain.ReadableKeeps(base.View(), receives, halt, eof);
      }
      hide Plain.Consume;
      if base.state != Active {
        return;
      }
      var ending := Consume(receives, halt);
      match ending {
        case Returned =>
        case AtEnd =>
          match eof {
            case KeepOpen => base.reading := false;
            case CloseIt => base.InitiateAbort(None);
            case EofRaises => base.InitiateAbort(Some(CallbackRaised));
          }
        case Halted(why) =>
          if why != WouldBlock {
            base.InitiateAbort(Some(SocketFailure));
          }
        case Raised => base.InitiateAbort(Some(CallbackRaised));
      }
    }

    method OnSocketWritable(sends: seq<nat>, halt: Halt)
      modifies base
      ensures base.View() == Plain.OnSocketWritable(old(base.View()), sends, halt)
      ensures old(Plain.Invariant(base.View()) && base.writing) ==> Plain.Invariant(base.View())
    {
      hide ProduceAll, Plain.AfterSending, Plain.Invariant;
      if Plain.Invariant(base.View()) && base.writing {
        Plain.WritableKeeps(base.View(), sends, halt);
      }
      if base.state != Active {
        return;
      }
      base.sound := base.sound && base.txBuffers != [];
      var stop := base.Produce(sends, halt);
      EndSending(stop);
    }

    method EndSending(stop: Option<Halt>)
      modifies base
      ensures base.View() == Plain.AfterSending(old(base.View()), stop)
    {
      hide TransportBase.InitiateAbort;
      if stop == None {
        if base.txBuffers == [] {
          base.writing := false;
        }
      } else if stop != Some(WouldBlock) {
        base.InitiateAbort(Some(SocketFailure));
      }
    }
  }

  class AsyncSSLTransport {
    const base: AsyncTransport
    var sslReadableAction: Tls.Action
    var sslWritableAction: Tls.Action

    ghost function View(): Tls.Tls
      reads this, base
    {
      Tls.Tls(base.View(), sslReadableAction, sslWritableAction)
    }

    constructor ()
      ensures fresh(base) && View() == Tls.Start
    {
      base := new AsyncTransport();
      sslReadableAction, sslWritableAction := Tls.Consuming, Tls.NoAction;
      new;
      base.reading := true;
      base.queue := [TryRead];
    }

    method Write(data: Plain.Chunk)
      modifies this, base
      ensures View() == Tls.WriteTls(old(View()), data)
      ensures old(Tls.Invariant(View())) ==> Tls.Invariant(View())
    {
      hide Tls.Invariant;
      if Tls.Invariant(View()) {
        Tls.WriteKeeps(View(), data);
      }
      if base.state != Active {
        return;
      }
      var wasEmpty := base.txBufferedByteCount == 0;
      base.Buffer(data);
      if wasEmpty && sslWritableAction == Tls.NoAction {
        sslWritableAction := Tls.Producing;
        base.writing := true;
      }
    }

    method DataReceived(reaction: seq<Plain.UserOp>)
      modifies this, base
      ensures View() == Tls.ReactTls(old(View()), reaction)
    {
      ghost var before := View();
      var i := 0;
      while i < |reaction|
        invariant 0 <= i <= |reaction|
        invariant Tls.ReactTls(before, reaction) == Tls.ReactTls(View(), reaction[i..])
      {
        assert reaction[i..][1..] == reaction[i + 1..];
        match reaction[i] {
          case UserWrite(data) => Write(data);
          case UserAbort => base.InitiateAbort(None);
        }
        i := i + 1;
      }
    }

    /** The base class's `_consume`. */
    method ReceiveAll(receives: seq<Plain.Receive>, halt: Halt) returns (ending: Plain.Ending)
      modifies this, base
      ensures (View(), ending) == Tls.ConsumeLoop(old(View()), receives, halt, 0)
    {
      hide Tls.ReactTls;
      ghost var before := View();
      var consumed, i := 0, 0;
      while base.state == Active && consumed < MAX_CONSUME_BYTES
        invariant 0 <= i <= |receives| && consumed >= 0
        invariant Tls.ConsumeLoop(before, receives, halt, 0) == Tls.ConsumeLoop(View(), receives[i..], halt, consumed)
        decreases |receives| - i
      {
        if i == |receives| {
          return Plain.Halted(halt);
        }
        var data := receives[i].data;
        if data == [] {
          return Plain.AtEnd;
        }
        assert receives[i..][1..] == receives[i + 1..];
        consumed := consumed + |data|;
        base.heard := base.heard + data;
        DataReceived(receives[i].reaction);
        if receives[i].raises {
          return Plain.Raised;
        }
        i := i + 1;
      }
      ending := Plain.Returned;
    }

    method Consume(receives: seq<Plain.Receive>, halt: Halt) returns (error: Option<Failure>)
      modifies this, base
      ensures (View(), error) == Tls.Consume(old(View()), receives, halt)
    {
      hide Tls.ConsumeLoop;
      var nextOnReadable := true;
      var ending := ReceiveAll(receives, halt);
      match ending {
        case AtEnd => return Some(EndOfStream);
        case Raised => return Some(CallbackRaised);
        case Halted(why) =>
          if why == WantWrite {
            nextOnReadable := false;
          } else if why != WantRead {
            return Some(SocketFailure);
          }
        case Returned =>
          if base.state != Active {
            return None;
          }
          base.queue := base.queue + [TryRead];
      }
      UpdateAfterConsume(nextOnReadable);
      error := None;
    }

    method UpdateAfterConsume(nextOnReadable: bool)
      modifies this, base
      ensures View() == Tls.AfterConsume(old(View()), nextOnReadable)
    {
      if nextOnReadable {
        if sslReadableAction == Tls.NoAction {
          base.reading := true;
        }
        sslReadableAction := Tls.Consuming;
        if sslWritableAction == Tls.Consuming {
          base.writing := false;
          sslWritableAction := Tls.NoAction;
        }
      } else {
        if sslWritableAction == Tls.NoAction {
          base.writing := true;
        }
        sslWritableAction := Tls.Consuming;
        if sslReadableAction != Tls.NoAction {
          base.reading := false;
          sslReadableAction := Tls.NoAction;
        }
      }
      if base.txBuffers != [] && sslWritableAction == Tls.NoAction {
        sslWritableAction := Tls.Producing;
        base.writing := true;
      }
    }

    method Produce(sends: seq<nat>, halt: Halt, pending: bool) returns (error: Option<Failure>)
      modifies this, base
      ensures (View(), error) == Tls.Produce(old(View()), sends, halt, pending)
    {
      hide ProduceAll, Tls.AfterProduce, Tls.ResumeConsumer;
      var nextOnWritable: Option<bool> := None;
      var stop := base.Produce(sends, halt);
      if stop == Some(WantRead) {
        nextOnWritable := Some(false);
      } else if stop == Some(WantWrite) {
        nextOnWritable := Some(true);
      } else if stop != None {
        return Some(SocketFailure);
      } else {
        base.sound := base.sound && base.txBuffers == [];
      }
      UpdateAfterProduce(nextOnWritable);
      Resume(pending);
      error := None;
    }

    method Resume(pending: bool)
      modifies this, base
      ensures View() == Tls.ResumeConsumer(old(View()), pending)
    {
      if sslReadableAction == Tls.NoAction {
        sslReadableAction := Tls.Consuming;
        base.reading := true;
        base.queue := base.queue + [TryRead];
      } else if pending {
        base.queue := base.queue + [TryRead];
      }
    }

    method UpdateAfterProduce(nextOnWritable: Option<bool>)
      modifies this, base
      ensures View() == Tls.AfterProduce(old(View()), nextOnWritable)
    {
      if base.txBuffers != [] {
        base.sound := base.sound && nextOnWritable != None;
        if nextOnWritable == Some(true) {
          if sslWritableAction == Tls.NoAction {
            base.writing := true;
          }
          sslWritableAction := Tls.Producing;
          if sslReadableAction == Tls.Producing {
            base.reading := false;
            sslReadableAction := Tls.NoAction;
          }
        } else {
          if sslReadableAction == Tls.NoAction {
            base.reading := true;
          }
          sslReadableAction := Tls.Producing;
          if sslWritableAction != Tls.NoAction {
            base.writing := false;
            sslWritableAction := Tls.NoAction;
          }
        }
      } else if sslReadableAction == Tls.Producing {
        base.reading := false;
        sslReadableAction := Tls.NoAction;
        base.sound := base.sound && sslWritableAction != Tls.Producing;
      } else {
        base.sound := base.sound && sslWritableAction == Tls.Producing;
        sslWritableAction := Tls.NoAction;
        base.writing := false;
      }
    }

    method Act(action: Tls.Action, script: Tls.Script)
      modifies this, base
      ensures View() == Tls.Act(old(View()), action, script)
    {
      hide Tls.Consume, Tls.Produce;
      var error: Option<Failure> := None;
      match action {
        case NoAction =>
        case Consuming => error := Consume(script.receives, script.halt);
        case Producing => error := Produce(script.sends, script.halt, script.pending);
      }
      if error != None {
        base.InitiateAbort(error);
      }
    }

    method OnSocketReadable(script: Tls.Script)
      modifies this, base
      ensures View() == Tls.OnSocketReadable(old(View()), script)
      ensures old(Tls.Invariant(View())) ==> Tls.Invariant(View())
    {
      hide Tls.Invariant;
      if Tls.Invariant(View()) {
        Tls.HandlersKeep(View(), script);
      }
      if base.state == Active {
        Act(sslReadableAction, script);
      }
    }

    method OnSocketWritable(script: Tls.Script)
      modifies this, base
      ensures View() == Tls.OnSocketWritable(old(View()), script)
      ensures old(Tls.Invariant(View())) ==> Tls.Invariant(View())
    {
      hide Tls.Invariant;
      if Tls.Invariant(View()) {
        Tls.HandlersKeep(View(), script);
      }
      if base.state == Active {
        Act(sslWritableAction, script);
      }
    }
  }
}
