/**
 When the application is told to restart a lane, and when not, over every run of the
 callback ring; and what one more frame does to the ring.
 */
module StreamResets {
  import opened Wrappers
  import opened Word32
  import opened StreamRing

  /** No delivery on the lane has begun since the stream or the lane's last epoch started. */
  function Untouched<T>(capacity: nat, events: seq<Event<T>>, lane: Lane): bool
    requires capacity > 0
  {
    events == [] ||
    var before, last := events[..|events| - 1], events[|events| - 1];
    var r := Run(Trace(Fresh(), []), capacity, before).ring;
    if last == NewEpoch(lane) && r.active.None? then true
    else if last.Start? && CanBegin(r) && r.queue[0].lane == lane then false
    else Untouched(capacity, before, lane)
  }

  lemma {:induction false} SeenExact<T>(capacity: nat, events: seq<Event<T>>, lane: Lane)
    requires capacity > 0
    ensures Run(Trace(Fresh(), []), capacity, events).ring.On(lane).seen <==> !Untouched(capacity, events, lane)
  {
    if events != [] {
      SeenExact(capacity, events[..|events| - 1], lane);
    }
  }

  lemma RunNext<T>(t: Trace<T>, capacity: nat, events: seq<Event<T>>, e: Event<T>)
    requires capacity > 0
    ensures Run(t, capacity, events + [e]) == Step(Run(t, capacity, events), capacity, e)
  {
    assert (events + [e])[..|events|] == events;
  }

  /**
   When a delivery restarts its lane, after every run: exactly if its frame is marked,
   or the lane has no delivery since its epoch began, or the frame does not start at
   the sample where the lane's last callback ended.
   */
  lemma RestartExact<T>(capacity: nat, events: seq<Event<T>>)
    requires capacity > 0 && CanBegin(Run(Trace(Fresh(), []), capacity, events).ring)
    ensures var t := Run(Trace(Fresh(), []), capacity, events);
            var begun := Run(Trace(Fresh(), []), capacity, events + [Start]).ring.active;
            var f := t.ring.queue[0];
            && begun.Some? && begun.value.frame == f && begun.value.offset == 0 && begun.value.more
            && (begun.value.reset <==>
                f.reset || Untouched(capacity, events, f.lane) || LaneEnd(t.log, f.lane) != Some(f.first))
  {
    var t := Run(Trace(Fresh<T>(), []), capacity, events);
    LaneContinuity(capacity, events);
    assert LaneOk(t, t.ring.queue[0].lane);
    SeenExact(capacity, events, t.ring.queue[0].lane);
    RunNext(Trace(Fresh<T>(), []), capacity, events, Start);
  }

  /** A callback has a reset exactly if it does not start where its lane's last one ended. */
  ghost predicate ResetsExact<T>(log: seq<Callback<T>>) {
    forall k :: 0 <= k < |log| ==>
      (log[k].reset <==> LaneEnd(log[..k], log[k].lane) != Some(log[k].first))
  }

  ghost predicate PlainLane<T>(t: Trace<T>, lane: Lane) {
    if t.ring.active.Some? && t.ring.active.value.frame.lane == lane then
      var d := t.ring.active.value;
      d.more && d.offset == 0 ==> (d.reset <==> LaneEnd(t.log, lane) != Some(d.frame.first))
    else
      !t.ring.On(lane).seen ==> LaneEnd(t.log, lane) == None
  }

  /** What holds while no frame is marked and no epoch begins. */
  ghost predicate Plain<T>(t: Trace<T>) {
    && TraceOk(t) && PlainLane(t, LaneA) && PlainLane(t, LaneB)
    && (forall k :: 0 <= k < |t.ring.queue| ==> !t.ring.queue[k].reset)
    && ResetsExact(t.log)
  }

  lemma ResetsExtend<T>(log: seq<Callback<T>>, c: Callback<T>)
    requires ResetsExact(log) && (c.reset <==> LaneEnd(log, c.lane) != Some(c.first))
    ensures ResetsExact(log + [c])
  {
    var longer := log + [c];
    forall k | 0 <= k < |longer|
      ensures longer[k].reset <==> LaneEnd(longer[..k], longer[k].lane) != Some(longer[k].first)
    {
      assert longer[..k] == log[..k];
      assert k == |log| ==> log[..k] == log;
    }
  }

  lemma PlainCall<T>(t: Trace<T>, capacity: nat, limit: nat)
    requires capacity > 0 && Plain(t) && CanCall(t.ring, limit)
    ensures Plain(Step(t, capacity, Call(limit)))
  {
    var d := t.ring.active.value;
    assert LaneOk(t, d.frame.lane) && PlainLane(t, d.frame.lane);
    ResetsExtend(t.log, CallbackFor(d, limit));
    PlainCallLane(t, capacity, limit, LaneA);
    PlainCallLane(t, capacity, limit, LaneB);
    StepOk(t, capacity, Call(limit));
  }

  lemma PlainCallLane<T>(t: Trace<T>, capacity: nat, limit: nat, lane: Lane)
    requires capacity > 0 && LaneOk(t, lane) && PlainLane(t, lane) && CanCall(t.ring, limit)
    ensures PlainLane(Step(t, capacity, Call(limit)), lane)
  {
    LaneEndExtend(t.log, CallbackFor(t.ring.active.value, limit), lane);
  }

  lemma PlainStep<T>(t: Trace<T>, capacity: nat, e: Event<T>)
    requires capacity > 0 && Plain(t) && !e.NewEpoch? && (e.Queue? ==> !e.frame.reset)
    ensures Plain(Step(t, capacity, e))
  {
    if e.Call? {
      if CanCall(t.ring, e.limit) { PlainCall(t, capacity, e.limit); }
    } else {
      StepOk(t, capacity, e);
    }
  }

  /**
   In every run of unmarked frames within one epoch, whatever is evicted, cleared or
   split into chunks, a callback has a reset exactly if it does not continue its lane.
   */
  lemma {:induction false} ResetOnlyAtBreaks<T>(capacity: nat, events: seq<Event<T>>)
    requires capacity > 0
    requires forall k :: 0 <= k < |events| ==>
               !events[k].NewEpoch? && (events[k].Queue? ==> !events[k].frame.reset)
    ensures Plain(Run(Trace(Fresh(), []), capacity, events))
    ensures ResetsExact(Run(Trace(Fresh(), []), capacity, events).log)
  {
    if events != [] {
      var before := events[..|events| - 1];
      ResetOnlyAtBreaks(capacity, before);
      PlainStep(Run(Trace(Fresh<T>(), []), capacity, before), capacity, events[|events| - 1]);
    }
  }

  lemma {:induction false} RingBounded<T>(capacity: nat, events: seq<Event<T>>)
    requires capacity > 0
    ensures |Run(Trace(Fresh(), []), capacity, events).ring.queue| <= capacity
  {
    if events != [] {
      RingBounded(capacity, events[..|events| - 1]);
    }
  }

  /**
   What one more frame does, after every run: a paused ring ignores it; otherwise it
   is queued last with its own samples, and only if the ring is full is the oldest
   frame given up for it, which leaves exactly its marks behind.
   */
  lemma QueueExact<T>(capacity: nat, events: seq<Event<T>>, f: StreamFrame<T>)
    requires capacity > 0
    ensures var r := Run(Trace(Fresh(), []), capacity, events).ring;
            var after := Run(Trace(Fresh(), []), capacity, events + [Queue(f)]).ring;
            if r.paused then after == r
            else
              var full := |r.queue| == capacity;
              && after.drops == r.drops + (if full then 1 else 0)
              && |after.queue| == (if full then capacity else |r.queue| + 1)
              && (var n := |after.queue| - 1;
                  var last := after.queue[n];
                  && after.queue[..n] == r.queue[if full then 1 else 0..]
                  && last.lane == f.lane && last.data == f.data && last.first == f.first
                  && forall mark :: FrameHas(last, mark) <==>
                       FrameHas(f, mark) || (full && FrameHas(r.queue[0], mark)))
  {
    RingBounded(capacity, events);
    RunNext(Trace(Fresh<T>(), []), capacity, events, Queue(f));
  }
}
