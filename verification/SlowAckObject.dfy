/**
  The slow-ack consumer's shared state as its critical sections update it (slow_ack_consumer.py). Each method is
  one atomic action of the dispatcher, of a worker or of the connection; it is proved to be the step of the same
  kind in `SlowAck`, and to keep the invariant of that module: the counter is exact and between 0 and `MAX_HELD`,
  and every delivery tag is in one place.
 */
module SlowAckObject {
  import S = SlowAck

  class Consumer {
    var heldCount: int
    var dispatcher: S.Dispatcher
    var sleeping: set<nat>
    var posted: set<nat>
    var done: set<nat>
    var callbacks: seq<nat>
    var isOpen: bool
    var nextTag: nat
    ghost var acked: seq<nat>
    ghost var ups: nat
    ghost var downs: nat

    ghost function View(): S.State
      reads this
    {
      S.State(heldCount, dispatcher, sleeping, posted, done, callbacks, isOpen, nextTag, acked, ups, downs)
    }

    constructor ()
      ensures View() == S.Start && S.Invariant(View())
    {
      S.StartHolds();
      hide S.Invariant;
      heldCount, dispatcher, sleeping, posted, done := 0, S.Idle, {}, {}, {};
      callbacks, isOpen, nextTag, acked, ups, downs := [], true, 0, [], 0, 0;
    }

    /** A message arrives; the first critical section of `on_message` reads the counter. */
    method CheckHeld()
      requires dispatcher == S.Idle
      requires S.Invariant(View())
      modifies this
      ensures View() == S.Do(old(View()), S.Message) && S.Invariant(View())
      ensures dispatcher.Checked? && dispatcher.current == heldCount
    {
      S.StepKeeps(View(), S.Message);
      dispatcher := S.Checked(nextTag, heldCount);
      nextTag := nextTag + 1;
    }

    /** `on_message` acknowledges at once, or goes on to hold the message. */
    method AckOrHold()
      requires dispatcher.Checked?
      requires S.Invariant(View())
      modifies this
      ensures View() == S.Do(old(View()), S.Decide) && S.Invariant(View())
      ensures if old(dispatcher.current) >= S.MAX_HELD then acked == old(acked) + [old(dispatcher.tag)]
              else dispatcher == S.Holding(old(dispatcher.tag)) && heldCount < S.MAX_HELD
    {
      S.StepKeeps(View(), S.Decide);
      if dispatcher.current >= S.MAX_HELD {
        acked := acked + [dispatcher.tag];
        dispatcher := S.Idle;
      } else {
        dispatcher := S.Holding(dispatcher.tag);
      }
    }

    /** The second critical section of `on_message`. */
    method IncrementHeld()
      requires dispatcher.Holding?
      requires S.Invariant(View())
      modifies this
      ensures View() == S.Do(old(View()), S.Count) && S.Invariant(View())
      ensures heldCount == old(heldCount) + 1 && 1 <= heldCount <= S.MAX_HELD
    {
      S.StepKeeps(View(), S.Count);
      heldCount := heldCount + 1;
      ups := ups + 1;
      dispatcher := S.Counted(dispatcher.tag);
    }

    method StartThread()
      requires dispatcher.Counted?
      requires S.Invariant(View())
      modifies this
      ensures View() == S.Do(old(View()), S.StartWorker) && S.Invariant(View())
    {
      S.StepKeeps(View(), S.StartWorker);
      sleeping := sleeping + {dispatcher.tag};
      dispatcher := S.Idle;
    }

    /** A worker has slept, and hands its acknowledgement to the connection. */
    method HoldAndAck(tag: nat)
      requires tag in sleeping
      requires S.Invariant(View())
      modifies this
      ensures View() == S.Do(old(View()), S.Wake(tag)) && S.Invariant(View())
    {
      S.StepKeeps(View(), S.Wake(tag));
      sleeping, posted := sleeping - {tag}, posted + {tag};
      callbacks := callbacks + [tag];
    }

    /** A worker's critical section. */
    method DecrementHeld(tag: nat)
      requires tag in posted
      requires S.Invariant(View())
      modifies this
      ensures View() == S.Do(old(View()), S.Release(tag)) && S.Invariant(View())
      ensures heldCount == old(heldCount) - 1 && 0 <= heldCount < S.MAX_HELD
    {
      S.StepKeeps(View(), S.Release(tag));
      posted, done := posted - {tag}, done + {tag};
      heldCount := heldCount - 1;
      downs := downs + 1;
    }

    /** The connection runs `ack_message`. */
    method AckMessage()
      requires dispatcher == S.Idle && callbacks != []
      requires S.Invariant(View())
      modifies this
      ensures View() == S.Do(old(View()), S.RunCallback) && S.Invariant(View())
      ensures isOpen ==> old(callbacks)[0] !in old(acked) && acked == old(acked) + [old(callbacks)[0]]
    {
      S.StepKeeps(View(), S.RunCallback);
      S.AcksOnce(View());
      hide S.Invariant;
      var tag := callbacks[0];
      callbacks := callbacks[1..];
      if isOpen {
        acked := acked + [tag];
      }
    }
  }
}
