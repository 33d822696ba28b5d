/**
 The bounded IQ queue between the socket reader and the DSP worker, as a value.
 A frame is named by its position in the order of acceptance. Frames leave the
 queue only at its old end, either into the callback or overwritten, so the
 waiting frames are always the newest ones.
 */
module SlotQueue {
  import opened Wrappers

  datatype Fate = Taken | Overwritten

  datatype Slots<T> = Slots(
    accepted: seq<T>,      // every frame stored so far, oldest first
    fates: seq<Fate>,      // what became of the frames no longer waiting, oldest first
    active: Option<nat>,   // the frame inside the callback
    finished: seq<nat>,    // frames whose callback has returned, in that order
    drops: nat)            // how many waiting frames were overwritten

  datatype Event<T> = Arrive(frame: T) | Take | Finish

  function Empty<T>(): Slots<T> {
    Slots([], [], None, [], 0)
  }

  /** Frames still queued, oldest first. */
  function Waiting<T>(q: Slots<T>): seq<T>
    requires |q.fates| <= |q.accepted|
  {
    q.accepted[|q.fates|..]
  }

  function Busy<T>(q: Slots<T>): int {
    |q.accepted| - |q.fates| + if q.active.Some? then 1 else 0
  }

  /** Nothing is waiting and no callback is running. */
  predicate Drained<T>(q: Slots<T>) {
    |q.accepted| == |q.fates| && q.active.None?
  }

  /** The reader stores one frame: in a free slot, else over the oldest waiting one. */
  function Push<T>(q: Slots<T>, capacity: nat, x: T): Slots<T> {
    if Busy(q) < capacity then
      q.(accepted := q.accepted + [x])
    else if |q.fates| < |q.accepted| then
      q.(accepted := q.accepted + [x], fates := q.fates + [Overwritten], drops := q.drops + 1)
    else
      q
  }

  predicate CanTake<T>(q: Slots<T>) {
    |q.fates| < |q.accepted| && q.active.None?
  }

  /** The worker removes the oldest waiting frame and enters the callback. */
  function TakeNext<T>(q: Slots<T>): Slots<T>
    requires CanTake(q)
  {
    q.(active := Some(|q.fates|), fates := q.fates + [Taken])
  }

  /** The callback returned: the slot is free again. */
  function Complete<T>(q: Slots<T>): Slots<T>
    requires q.active.Some?
  {
    q.(active := None, finished := q.finished + [q.active.value])
  }

  /** One locked region; a thread whose wait condition is false does not move. */
  function Step<T>(q: Slots<T>, capacity: nat, e: Event<T>): Slots<T> {
    match e
    case Arrive(x) => Push(q, capacity, x)
    case Take => if CanTake(q) then TakeNext(q) else q
    case Finish => if q.active.Some? then Complete(q) else q
  }

  function Run<T>(capacity: nat, events: seq<Event<T>>): Slots<T> {
    if events == [] then Empty()
    else Step(Run(capacity, events[..|events| - 1]), capacity, events[|events| - 1])
  }

  function Arrivals<T>(events: seq<Event<T>>): seq<T> {
    if events == [] then []
    else
      var last := events[|events| - 1];
      Arrivals(events[..|events| - 1]) + if last.Arrive? then [last.frame] else []
  }

  /** The positions in `fates` that entered the callback, oldest first. */
  function TakenPositions(fates: seq<Fate>): seq<nat> {
    if fates == [] then []
    else
      var n := |fates| - 1;
      TakenPositions(fates[..n]) + if fates[n].Taken? then [n] else []
  }

  /** Frames that entered the callback: those that returned, then the active one. */
  function Entered<T>(q: Slots<T>): seq<nat> {
    q.finished + if q.active.Some? then [q.active.value] else []
  }

  /**
   What every run keeps. The fates record is exact: the callback entered
   precisely the frames marked taken, in arrival order, and every other frame
   that left the queue was counted as a drop.
   */
  ghost predicate Sound<T>(q: Slots<T>, capacity: nat) {
    && |q.fates| <= |q.accepted|
    && Busy(q) <= capacity
    && Entered(q) == TakenPositions(q.fates)
    && q.drops + |Entered(q)| == |q.fates|
  }

  lemma TakenExtend(fates: seq<Fate>, f: Fate)
    ensures TakenPositions(fates + [f]) ==
            TakenPositions(fates) + if f.Taken? then [|fates|] else []
  {
    assert (fates + [f])[..|fates|] == fates;
  }

  lemma StepSound<T>(q: Slots<T>, capacity: nat, e: Event<T>)
    requires Sound(q, capacity) && capacity >= 2
    ensures Sound(Step(q, capacity, e), capacity)
    ensures Step(q, capacity, e).accepted == q.accepted + if e.Arrive? then [e.frame] else []
  {
    TakenExtend(q.fates, Taken);
    TakenExtend(q.fates, Overwritten);
  }

  /**
   Every interleaving of the reader and the worker: with the source's two or
   more slots the newest frame is always accepted, and the record stays exact.
   */
  lemma {:induction false} RunSound<T>(capacity: nat, events: seq<Event<T>>)
    requires capacity >= 2
    ensures Sound(Run(capacity, events), capacity)
    ensures Run(capacity, events).accepted == Arrivals(events)
  {
    if events != [] {
      RunSound(capacity, events[..|events| - 1]);
      StepSound(Run(capacity, events[..|events| - 1]), capacity, events[|events| - 1]);
    }
  }

  ghost predicate Increasing(s: seq<nat>) {
    forall i, j :: 0 <= i < j < |s| ==> s[i] < s[j]
  }

  lemma {:induction false} TakenPositionsExact(fates: seq<Fate>)
    ensures Increasing(TakenPositions(fates))
    ensures forall i :: i in TakenPositions(fates) <==> 0 <= i < |fates| && fates[i].Taken?
    ensures forall k :: 0 <= k < |TakenPositions(fates)| ==> TakenPositions(fates)[k] < |fates|
  {
    if fates != [] {
      TakenPositionsExact(fates[..|fates| - 1]);
    }
  }

  /**
   Over every run: the callbacks see distinct frames in the order they arrived,
   a frame still waiting or overwritten never enters one, and
   accepted = delivered + active + queued + dropped.
   */
  lemma DeliveredInOrder<T>(capacity: nat, events: seq<Event<T>>)
    requires capacity >= 2
    ensures var q := Run(capacity, events);
            && Increasing(Entered(q))
            && (forall i :: i in Entered(q) <==> 0 <= i < |q.fates| && q.fates[i].Taken?)
            && |q.fates| <= |q.accepted|
            && |Arrivals(events)| ==
               |q.finished| + (if q.active.Some? then 1 else 0) + |Waiting(q)| + q.drops
  {
    RunSound(capacity, events);
    TakenPositionsExact(Run(capacity, events).fates);
  }

  /** A drained queue has finished or dropped everything it accepted. */
  lemma DrainedTotal<T>(q: Slots<T>, capacity: nat)
    requires Sound(q, capacity) && Drained(q)
    ensures |q.finished| + q.drops == |q.accepted|
  {
    assert Entered(q) == q.finished;
  }

  /** In a drained queue the finished frames are exactly those that were not overwritten. */
  lemma DrainedAccounts<T>(q: Slots<T>, capacity: nat, i: nat)
    requires Sound(q, capacity) && Drained(q) && i < |q.accepted|
    ensures i in q.finished <==> q.fates[i].Taken?
  {
    TakenPositionsExact(q.fates);
    assert Entered(q) == q.finished;
  }

  lemma RunExtend<T>(capacity: nat, events: seq<Event<T>>, e: Event<T>)
    ensures Run(capacity, events + [e]) == Step(Run(capacity, events), capacity, e)
  {
    assert (events + [e])[..|events|] == events;
  }

  /**
   What one more arrival does, after every run: while a slot is free the frame joins
   the queue and nothing is lost. Only if every slot is occupied, by a waiting frame
   or inside the callback, is the oldest waiting frame given up for it.
   */
  lemma ArrivalExact<T>(capacity: nat, events: seq<Event<T>>, x: T)
    requires capacity >= 2
    ensures var q, r := Run(capacity, events), Run(capacity, events + [Arrive(x)]);
            && |q.fates| <= |q.accepted| && |r.fates| <= |r.accepted|
            && (var full := |Waiting(q)| + (if q.active.Some? then 1 else 0) == capacity;
                && r.drops == q.drops + (if full then 1 else 0)
                && (full ==> Waiting(q) != [])
                && Waiting(r) == (if full then Waiting(q)[1..] else Waiting(q)) + [x])
            && r.active == q.active && r.finished == q.finished
  {
    RunSound(capacity, events);
    RunExtend(capacity, events, Arrive(x));
  }

  /**
   What the worker's two regions do, after every run: it takes the oldest waiting
   frame exactly if it is in no callback, and a frame that it finishes frees its slot
   without touching the waiting ones.
   */
  lemma WorkerExact<T>(capacity: nat, events: seq<Event<T>>)
    requires capacity >= 2
    ensures var q, r := Run(capacity, events), Run(capacity, events + [Take]);
            && |q.fates| <= |q.accepted| && |r.fates| <= |r.accepted|
            && (if q.active.None? && Waiting(q) != [] then
                  && r.active.Some? && r.active.value < |r.accepted|
                  && r.accepted[r.active.value] == Waiting(q)[0]
                  && Waiting(r) == Waiting(q)[1..] && r.drops == q.drops
                else r == q)
    ensures var q, r := Run(capacity, events), Run(capacity, events + [Finish]);
            && |q.fates| <= |q.accepted| && |r.fates| <= |r.accepted|
            && Waiting(r) == Waiting(q) && r.active == None && r.drops == q.drops
            && r.finished == q.finished + (if q.active.Some? then [q.active.value] else [])
  {
    RunSound(capacity, events);
    RunExtend(capacity, events, Take);
    RunExtend(capacity, events, Finish);
  }

  /**
   One slot is not enough for that promise: the newest frame is refused exactly
   while the slot is inside a callback, and a run reaches that state.
   */
  lemma SingleSlotRefuses<T>(q: Slots<T>, x: T, y: T)
    requires Sound(q, 1)
    ensures Push(q, 1, x).accepted == q.accepted <==> q.active.Some?
    ensures Run(1, [Arrive(x)] + [Take] + [Arrive(y)]).accepted == [x]
  {
    RunExtend(1, [], Arrive(x));
    assert [] + [Arrive(x)] == [Arrive(x)];
    RunExtend(1, [Arrive(x)], Take);
    RunExtend(1, [Arrive(x)] + [Take], Arrive(y));
  }
}
