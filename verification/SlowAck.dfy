/** The slow-ack consumer: one dispatcher that never re-enters, and any number of workers. */
module SlowAck {

  const MAX_HELD := 1000

  /** Where the dispatcher is in `on_message`. */
  datatype Dispatcher =
    | Idle
    | Checked(tag: nat, current: int)   // has read the counter
    | Holding(tag: nat)                 // has decided to hold, and has not counted it
    | Counted(tag: nat)                 // has counted it, and has not started the worker

  /**
    Workers sleep, have handed their acknowledgement to the connection (`posted`), or are done.
    `callbacks` is the connection's queue of acknowledgements. History: the tags acknowledged, and how many
    times the counter went up and down.
   */
  datatype State = State(held: int, dispatcher: Dispatcher, sleeping: set<nat>, posted: set<nat>, done: set<nat>,
                         callbacks: seq<nat>, open: bool, nextTag: nat, acked: seq<nat>, ups: nat, downs: nat)

  /**
    One atomic action: of the dispatcher, of the worker `tag`, or of the connection, which runs a callback
    under the guard of the same dispatcher (blocking_connection.py), so never inside `on_message`.
   */
  datatype Step = Message | Decide | Count | StartWorker | Wake(tag: nat) | Release(tag: nat) | RunCallback | Close

  function Do(s: State, step: Step): State {
    match step
    case Message =>
      if s.dispatcher != Idle then s else s.(dispatcher := Checked(s.nextTag, s.held), nextTag := s.nextTag + 1)
    case Decide =>
      if !s.dispatcher.Checked? then s
      else if s.dispatcher.current >= MAX_HELD then s.(acked := s.acked + [s.dispatcher.tag], dispatcher := Idle)
      else s.(dispatcher := Holding(s.dispatcher.tag))
    case Count =>
      if !s.dispatcher.Holding? then s
      else s.(held := s.held + 1, ups := s.ups + 1, dispatcher := Counted(s.dispatcher.tag))
    case StartWorker =>
      if !s.dispatcher.Counted? then s else s.(sleeping := s.sleeping + {s.dispatcher.tag}, dispatcher := Idle)
    case Wake(tag) =>
      if tag !in s.sleeping then s
      else s.(sleeping := s.sleeping - {tag}, posted := s.posted + {tag}, callbacks := s.callbacks + [tag])
    case Release(tag) =>
      if tag !in s.posted then s
      else s.(posted := s.posted - {tag}, done := s.done + {tag}, held := s.held - 1, downs := s.downs + 1)
    case RunCallback =>
      if s.dispatcher != Idle || s.callbacks == [] then s
      else s.(callbacks := s.callbacks[1..], acked := if s.open then s.acked + [s.callbacks[0]] else s.acked)
    case Close => s.(open := false)
  }

  const Start := State(0, Idle, {}, {}, {}, [], true, 0, [], 0, 0)

  // ---------- The counter ----------

  /** What the dispatcher's last look at the counter still says: workers can only have lowered it. */
  ghost predicate LookStands(s: State) {
    match s.dispatcher
    case Idle => true
    case Checked(_, current) => s.held <= current
    case Holding(_) => s.held < MAX_HELD
    case Counted(_) => true
  }

  /** The workers that have not released, and one more just before a worker starts. */
  function Unreleased(s: State): nat {
    |s.sleeping| + |s.posted| + if s.dispatcher.Counted? then 1 else 0
  }

  ghost predicate Counts(s: State) {
    s.held == Unreleased(s) && s.held == s.ups - s.downs && s.held <= MAX_HELD && LookStands(s)
  }

  // ---------- The tags ----------

  predicate InHand(d: Dispatcher, tag: nat) {
    d != Idle && d.tag == tag
  }

  ghost predicate NoRepeats(tags: seq<nat>) {
    forall i, j :: 0 <= i < j < |tags| ==> tags[i] != tags[j]
  }

  /** A tag is in one place: the dispatcher's hands, with a sleeping worker, in the callback queue, or acknowledged. */
  ghost predicate PlaceOk(s: State, tag: nat) {
    (tag in s.acked ==> tag < s.nextTag && tag !in s.callbacks && tag !in s.sleeping && !InHand(s.dispatcher, tag))
    && (tag in s.callbacks ==> tag < s.nextTag && tag !in s.sleeping && !InHand(s.dispatcher, tag))
    && (tag in s.sleeping ==> tag < s.nextTag && tag !in s.posted && tag !in s.done && !InHand(s.dispatcher, tag))
    && (tag in s.posted || tag in s.done ==> tag < s.nextTag && !InHand(s.dispatcher, tag))
    && (InHand(s.dispatcher, tag) ==> tag < s.nextTag)
  }

  ghost predicate Places(s: State) {
    NoRepeats(s.acked) && NoRepeats(s.callbacks) && forall tag: nat :: PlaceOk(s, tag)
  }

  /** While the channel is open, every message is in one of these places. */
  ghost predicate Complete(s: State) {
    s.open ==> |s.acked| + |s.callbacks| + |s.sleeping| + (if s.dispatcher == Idle then 0 else 1) == s.nextTag
  }

  ghost predicate Invariant(s: State) {
    Counts(s) && Places(s) && Complete(s)
  }

  lemma StartCounts()
    ensures Counts(Start)
  {
  }

  lemma StartPlaces()
    ensures Places(Start)
  {
  }

  lemma StartComplete()
    ensures Complete(Start)
  {
  }

  lemma StartHolds()
    ensures Invariant(Start)
  {
    hide Counts, Places, Complete;
    StartCounts();
    StartPlaces();
    StartComplete();
  }

  /** A worker that starts was not asleep before. */
  lemma StartsAnew(s: State)
    requires Places(s) && s.dispatcher != Idle
    ensures s.dispatcher.tag !in s.sleeping && s.dispatcher.tag !in s.acked && s.dispatcher.tag < s.nextTag
  {
    assert PlaceOk(s, s.dispatcher.tag);
  }

  /** A callback that is to run has not acknowledged yet. */
  lemma AcksOnce(s: State)
    requires Invariant(s) && s.callbacks != []
    ensures s.callbacks[0] !in s.acked
  {
    assert PlaceOk(s, s.callbacks[0]);
  }

  /** A worker that wakes has not posted before. */
  lemma WakesOnce(s: State, tag: nat)
    requires Places(s) && tag in s.sleeping
    ensures tag !in s.posted && tag !in s.callbacks
  {
    assert PlaceOk(s, tag);
  }

  /** The worker that the step concerns is where the step takes it from, and not where it takes it to. */
  ghost predicate Movable(s: State, step: Step) {
    (s.dispatcher != Idle ==> s.dispatcher.tag !in s.sleeping)
      && (step.Wake? && step.tag in s.sleeping ==> step.tag !in s.posted)
  }

  lemma IsMovable(s: State, step: Step)
    requires Places(s)
    ensures Movable(s, step)
  {
    if s.dispatcher != Idle {
      StartsAnew(s);
    }
    if step.Wake? && step.tag in s.sleeping {
      WakesOnce(s, step.tag);
    }
    hide Places;
  }

  lemma CountWith(tags: set<nat>, tag: nat)
    requires tag !in tags
    ensures |tags + {tag}| == |tags| + 1
  {
  }

  lemma CountWithout(tags: set<nat>, tag: nat)
    requires tag in tags
    ensures |tags - {tag}| == |tags| - 1
  {
    assert tags == (tags - {tag}) + {tag};
  }

  lemma UnreleasedFollows(s: State, step: Step)
    requires Movable(s, step)
    ensures Unreleased(Do(s, step)) == Unreleased(s) + Do(s, step).held - s.held
  {
    match step {
      case StartWorker =>
        if s.dispatcher.Counted? {
          CountWith(s.sleeping, s.dispatcher.tag);
        }
      case Wake(tag) =>
        if tag in s.sleeping {
          CountWithout(s.sleeping, tag);
          CountWith(s.posted, tag);
        }
      case Release(tag) =>
        if tag in s.posted {
          CountWithout(s.posted, tag);
        }
      case Message =>
      case Decide =>
      case Count =>
      case RunCallback =>
      case Close =>
    }
  }

  lemma LookKept(s: State, step: Step)
    requires LookStands(s) && s.held <= MAX_HELD && s.held == s.ups - s.downs
    ensures var d := Do(s, step); LookStands(d) && d.held <= MAX_HELD && d.held == d.ups - d.downs
  {
  }

  lemma CountsKept(s: State, step: Step)
    requires Counts(s) && Places(s)
    ensures Counts(Do(s, step))
  {
    hide Places, Unreleased, Movable, LookStands, Do;
    IsMovable(s, step);
    UnreleasedFollows(s, step);
    LookKept(s, step);
  }

  lemma NoRepeatsAppend(tags: seq<nat>, tag: nat)
    requires NoRepeats(tags) && tag !in tags
    ensures NoRepeats(tags + [tag])
  {
  }

  lemma NoRepeatsTail(tags: seq<nat>)
    requires NoRepeats(tags) && tags != []
    ensures NoRepeats(tags[1..]) && tags[0] !in tags[1..]
    ensures forall tag :: tag in tags <==> tag == tags[0] || tag in tags[1..]
  {
    assert tags == [tags[0]] + tags[1..];
  }

  lemma ListsKept(s: State, step: Step)
    requires Places(s)
    ensures NoRepeats(Do(s, step).acked) && NoRepeats(Do(s, step).callbacks)
  {
    match step {
      case Decide =>
        if s.dispatcher.Checked? {
          StartsAnew(s);
          NoRepeatsAppend(s.acked, s.dispatcher.tag);
        }
      case Wake(tag) =>
        if tag in s.sleeping {
          WakesOnce(s, tag);
          NoRepeatsAppend(s.callbacks, tag);
        }
      case RunCallback =>
        if s.callbacks != [] {
          NoRepeatsTail(s.callbacks);
          assert PlaceOk(s, s.callbacks[0]);
          NoRepeatsAppend(s.acked, s.callbacks[0]);
        }
      case Message =>
      case Count =>
      case StartWorker =>
      case Release(tag) =>
      case Close =>
    }
  }

  lemma PlaceKept(s: State, step: Step, tag: nat)
    requires PlaceOk(s, tag)
    requires step.RunCallback? && s.callbacks != [] ==>
               s.callbacks[0] !in s.callbacks[1..]
                 && (tag in s.callbacks <==> tag == s.callbacks[0] || tag in s.callbacks[1..])
    ensures PlaceOk(Do(s, step), tag)
  {
    match step {
      case Message =>
      case Decide =>
      case Count =>
      case StartWorker =>
      case Wake(t) =>
      case Release(t) =>
      case RunCallback =>
      case Close =>
    }
  }

  lemma PlacesKept(s: State, step: Step)
    requires Places(s)
    ensures Places(Do(s, step))
  {
    ListsKept(s, step);
    if s.callbacks != [] {
      NoRepeatsTail(s.callbacks);
    }
    hide NoRepeats, Do;
    forall tag: nat ensures PlaceOk(Do(s, step), tag) {
      assert PlaceOk(s, tag);
      hide PlaceOk;
      PlaceKept(s, step, tag);
    }
  }

  lemma CompleteKept(s: State, step: Step)
    requires Complete(s) && Movable(s, step)
    ensures Complete(Do(s, step))
  {
    match step {
      case StartWorker =>
        if s.dispatcher.Counted? {
          CountWith(s.sleeping, s.dispatcher.tag);
        }
      case Wake(tag) =>
        if tag in s.sleeping {
          CountWithout(s.sleeping, tag);
        }
      case Message =>
      case Decide =>
      case Count =>
      case Release(tag) =>
      case RunCallback =>
      case Close =>
    }
  }

  /** Every atomic action keeps the counter exact and within bounds, and every tag in one place. */
  lemma StepKeeps(s: State, step: Step)
    requires Invariant(s)
    ensures Invariant(Do(s, step))
  {
    CountsKept(s, step);
    PlacesKept(s, step);
    IsMovable(s, step);
    CompleteKept(s, step);
    hide Counts, Places, Complete, Do, Movable;
  }

  function Run(s: State, steps: seq<Step>): State
    decreases steps
  {
    if steps == [] then s else Run(Do(s, steps[0]), steps[1..])
  }

  lemma {:induction false} RunKeeps(s: State, steps: seq<Step>)
    requires Invariant(s)
    ensures Invariant(Run(s, steps))
    decreases steps
  {
    hide Invariant, Do;
    if steps != [] {
      StepKeeps(s, steps[0]);
      RunKeeps(Do(s, steps[0]), steps[1..]);
    }
  }

  lemma WithinBounds(s: State)
    requires Counts(s)
    ensures 0 <= s.held <= MAX_HELD && s.held == s.ups - s.downs && s.held == Unreleased(s)
  {
  }

  /**
    Under every interleaving the counter stays within 0 and MAX_HELD and equals the increments less the
    decrements, which is the number of workers that have not released (one more just before a worker starts).
   */
  lemma CounterBounded(steps: seq<Step>)
    ensures var s := Run(Start, steps);
            0 <= s.held <= MAX_HELD && s.held == s.ups - s.downs && s.held == Unreleased(s)
  {
    hide Run, Places, Complete, Counts, Start;
    StartHolds();
    RunKeeps(Start, steps);
    WithinBounds(Run(Start, steps));
  }

  /** Under every interleaving no delivery tag is acknowledged twice. */
  lemma NoDoubleAck(steps: seq<Step>)
    ensures NoRepeats(Run(Start, steps).acked)
  {
    hide Run, Counts, Complete, PlaceOk;
    StartHolds();
    RunKeeps(Start, steps);
  }

  /** A message that arrives while fewer than 1000 are held is held; otherwise it is acknowledged at once. */
  lemma MessageHandled(s: State)
    requires s.dispatcher == Idle
    ensures var d := Run(s, [Message, Decide, Count, StartWorker]);
            d.dispatcher == Idle && d.nextTag == s.nextTag + 1 && d.callbacks == s.callbacks && d.posted == s.posted
            && if s.held >= 1000 then d.acked == s.acked + [s.nextTag] && d.held == s.held && d.sleeping == s.sleeping
               else d.acked == s.acked && d.held == s.held + 1 && d.sleeping == s.sleeping + {s.nextTag}
  {
    RunFour(s, Message, Decide, Count, StartWorker);
  }

  /** A worker's message is acknowledged, if the channel is open, and no longer held. */
  lemma WorkerHandled(s: State, tag: nat)
    requires Invariant(s) && s.dispatcher == Idle && tag in s.sleeping && s.callbacks == []
    ensures var d := Run(s, [Wake(tag), Release(tag), RunCallback, RunCallback]);
            d.acked == (if s.open then s.acked + [tag] else s.acked) && d.held == s.held - 1
            && d.sleeping == s.sleeping - {tag} && d.posted == s.posted && d.callbacks == []
  {
    WakesOnce(s, tag);
    hide Invariant;
    RunFour(s, Wake(tag), Release(tag), RunCallback, RunCallback);
    assert [] + [tag] == [tag] && [tag][1..] == [];
    assert s.posted + {tag} - {tag} == s.posted;
  }

  lemma RunFour(s: State, a: Step, b: Step, c: Step, d: Step)
    ensures Run(s, [a, b, c, d]) == Do(Do(Do(Do(s, a), b), c), d)
  {
    hide Do;
    assert [a, b, c, d][1..] == [b, c, d] && [b, c, d][1..] == [c, d] && [c, d][1..] == [d] && [d][1..] == [];
    assert Run(Do(s, a), [b, c, d]) == Run(Do(Do(s, a), b), [c, d]);
    assert Run(Do(Do(s, a), b), [c, d]) == Run(Do(Do(Do(s, a), b), c), [d]);
    assert Run(Do(Do(Do(s, a), b), c), [d]) == Run(Do(Do(Do(Do(s, a), b), c), d), []);
  }

  function UpTo(n: nat): (r: set<nat>)
    ensures |r| == n && forall tag: nat :: tag in r <==> tag < n
  {
    if n == 0 then {} else UpTo(n - 1) + {n - 1}
  }

  function Members(tags: seq<nat>): (r: set<nat>)
    ensures forall tag :: tag in r <==> tag in tags
  {
    if tags == [] then {}
    else
      assert tags == [tags[0]] + tags[1..];
      {tags[0]} + Members(tags[1..])
  }

  lemma {:induction false} MembersCount(tags: seq<nat>)
    requires NoRepeats(tags)
    ensures |Members(tags)| == |tags|
  {
    if tags != [] {
      NoRepeatsTail(tags);
      MembersCount(tags[1..]);
    }
  }

  /** As many different tags as there are below `n` are all of them. */
  lemma AllTagsIn(tags: seq<nat>, n: nat)
    requires NoRepeats(tags) && |tags| == n && forall tag :: tag in tags ==> tag < n
    ensures forall tag: nat :: tag < n ==> tag in tags
  {
    MembersCount(tags);
    hide Members, UpTo, NoRepeats;
    SameSizeSubset(Members(tags), UpTo(n));
    forall tag: nat | tag < n ensures tag in tags {
      assert tag in UpTo(n);
    }
  }

  lemma SameSizeSubset(a: set<nat>, b: set<nat>)
    requires a <= b && |a| == |b|
    ensures a == b
  {
    assert b == a + (b - a);
    assert |b - a| == 0;
  }

  lemma QuietIsDone(s: State)
    requires Places(s) && Complete(s)
    ensures s.open && s.dispatcher == Idle && s.sleeping == {} && s.callbacks == [] ==>
              NoRepeats(s.acked) && |s.acked| == s.nextTag && forall tag: nat :: tag < s.nextTag ==> tag in s.acked
  {
    hide NoRepeats;
    if s.open && s.dispatcher == Idle && s.sleeping == {} && s.callbacks == [] {
      assert forall tag :: tag in s.acked ==> PlaceOk(s, tag);
      hide PlaceOk;
      AllTagsIn(s.acked, s.nextTag);
    }
  }

  /** When everything has come to rest on an open channel, every message has been acknowledged, exactly once. */
  lemma QuietMeansAllAcked(steps: seq<Step>)
    ensures var s := Run(Start, steps);
            s.open && s.dispatcher == Idle && s.sleeping == {} && s.callbacks == [] ==>
              NoRepeats(s.acked) && |s.acked| == s.nextTag && forall tag: nat :: tag < s.nextTag ==> tag in s.acked
  {
    hide Run, Counts, Places, Complete, NoRepeats;
    StartHolds();
    RunKeeps(Start, steps);
    QuietIsDone(Run(Start, steps));
  }
}
