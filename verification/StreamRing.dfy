/**
 The bounded ring between the DSP worker and the application callback thread, as
 a value: frames are queued, the oldest is evicted when the ring is full, and
 each frame reaches the application as one or more callbacks.
 */
module StreamRing {
  import opened Wrappers
  import opened Word32

  datatype Lane = LaneA | LaneB

  /** What the application is told about the start of a chunk. */
  datatype Mark = Restart | GainChanged | RfChanged | RateChanged

  datatype Flags = Flags(gr: bool, rf: bool, fs: bool) {
    function Or(other: Flags): Flags {
      Flags(gr || other.gr, rf || other.rf, fs || other.fs)
    }
  }

  const NO_FLAGS := Flags(false, false, false)

  datatype StreamFrame<T> =
    StreamFrame(lane: Lane, data: seq<T>, first: word, reset: bool, flags: Flags)

  /** One call of the application's stream callback. */
  datatype Callback<T> =
    Callback(lane: Lane, first: word, data: seq<T>, reset: bool, flags: Flags)

  predicate Marked(reset: bool, flags: Flags, mark: Mark) {
    match mark
    case Restart => reset
    case GainChanged => flags.gr
    case RfChanged => flags.rf
    case RateChanged => flags.fs
  }

  /** Where a lane's delivered samples ended, if any were delivered since the last epoch. */
  datatype LaneState = LaneState(seen: bool, next: word)

  /** The frame copied out for the application and how far it has been handed over. */
  datatype Delivery<T> =
    Delivery(frame: StreamFrame<T>, reset: bool, offset: nat, more: bool)

  datatype Ring<T> = Ring(
    queue: seq<StreamFrame<T>>,
    active: Option<Delivery<T>>,
    paused: bool,
    laneA: LaneState,
    laneB: LaneState,
    drops: nat)
  {
    function On(lane: Lane): LaneState {
      if lane.LaneB? then laneB else laneA
    }

    function With(lane: Lane, state: LaneState): Ring<T> {
      this.(laneA := if lane.LaneB? then laneA else state,
            laneB := if lane.LaneB? then state else laneB)
    }
  }

  function Fresh<T>(): Ring<T> {
    Ring([], None, false, LaneState(false, 0), LaneState(false, 0), 0)
  }

  /** `queue_stream_callback`: the marks of an evicted frame move to the new one. */
  function Enqueue<T>(r: Ring<T>, capacity: nat, f: StreamFrame<T>): Ring<T>
    requires capacity > 0
  {
    if r.paused then
      r
    else if |r.queue| < capacity then
      r.(queue := r.queue + [f])
    else
      var evicted := r.queue[0];
      var marked := f.(reset := f.reset || evicted.reset, flags := f.flags.Or(evicted.flags));
      r.(queue := r.queue[1..] + [marked], drops := r.drops + 1)
  }

  predicate CanBegin<T>(r: Ring<T>) {
    r.queue != [] && !r.paused && r.active.None?
  }

  /** The callback thread takes the oldest frame and decides whether it restarts its lane. */
  function Begin<T>(r: Ring<T>): Ring<T>
    requires CanBegin(r)
  {
    var f := r.queue[0];
    var lane := r.On(f.lane);
    var reset := f.reset || !lane.seen || f.first != lane.next;
    r.(queue := r.queue[1..], active := Some(Delivery(f, reset, 0, true)))
     .With(f.lane, LaneState(true, Wrap(f.first + |f.data|)))
  }

  predicate CanCall<T>(r: Ring<T>, limit: nat) {
    r.active.Some? && r.active.value.more && limit > 0 &&
    r.active.value.offset <= |r.active.value.frame.data|
  }

  function Chunk<T>(d: Delivery<T>, limit: nat): seq<T>
    requires d.offset <= |d.frame.data|
  {
    var left := |d.frame.data| - d.offset;
    d.frame.data[d.offset..d.offset + if left > limit then limit else left]
  }

  /** One application callback: the next chunk of at most `limit` samples. */
  function CallbackFor<T>(d: Delivery<T>, limit: nat): Callback<T>
    requires d.offset <= |d.frame.data|
  {
    var head := d.offset == 0;
    Callback(d.frame.lane, Wrap(d.frame.first + d.offset), Chunk(d, limit),
             head && d.reset, if head then d.frame.flags else NO_FLAGS)
  }

  function Advance<T>(d: Delivery<T>, limit: nat): Delivery<T>
    requires d.offset <= |d.frame.data|
  {
    var offset := d.offset + |Chunk(d, limit)|;
    d.(offset := offset, more := offset < |d.frame.data|)
  }

  predicate CanEnd<T>(r: Ring<T>) {
    r.active.Some? && !r.active.value.more
  }

  /** Forget where a lane ended: its next callback restarts it. */
  function Forget<T>(r: Ring<T>, lane: Lane): Ring<T> {
    r.With(lane, r.On(lane).(seen := false))
  }

  /** The ring together with every callback made so far. */
  datatype Trace<T> = Trace(ring: Ring<T>, log: seq<Callback<T>>)

  datatype Event<T> =
    | Queue(frame: StreamFrame<T>)
    | Start
    | Call(limit: nat)
    | Done
    | Pause
    | Clear
    | Unpause
    | NewEpoch(lane: Lane)

  /** One step of the worker, the callback thread or the API thread. */
  function Step<T>(t: Trace<T>, capacity: nat, e: Event<T>): Trace<T>
    requires capacity > 0
  {
    var r := t.ring;
    match e
    case Queue(f) => t.(ring := Enqueue(r, capacity, f))
    case Start => if CanBegin(r) then t.(ring := Begin(r)) else t
    case Call(limit) =>
      if CanCall(r, limit) then
        Trace(r.(active := Some(Advance(r.active.value, limit))),
              t.log + [CallbackFor(r.active.value, limit)])
      else t
    case Done => if CanEnd(r) then t.(ring := r.(active := None)) else t
    case Pause => t.(ring := r.(paused := true))
    case Clear => if r.active.None? then t.(ring := r.(queue := [])) else t
    case Unpause => t.(ring := r.(paused := false))
    case NewEpoch(lane) => if r.active.None? then t.(ring := Forget(r, lane)) else t
  }

  function Run<T>(t: Trace<T>, capacity: nat, events: seq<Event<T>>): Trace<T>
    requires capacity > 0
  {
    if events == [] then t
    else Step(Run(t, capacity, events[..|events| - 1]), capacity, events[|events| - 1])
  }

  // ---------------------------------------------------------------- continuity

  /** The sample after the last one the application received on a lane. */
  function LaneEnd<T>(log: seq<Callback<T>>, lane: Lane): Option<word> {
    if log == [] then None
    else
      var last := log[|log| - 1];
      if last.lane == lane then Some(Wrap(last.first + |last.data|))
      else LaneEnd(log[..|log| - 1], lane)
  }

  /** Every callback without reset starts where its lane's previous callback ended. */
  ghost predicate Continuous<T>(log: seq<Callback<T>>) {
    forall k :: 0 <= k < |log| && !log[k].reset ==>
      LaneEnd(log[..k], log[k].lane) == Some(log[k].first)
  }

  /** What the lane state promises about the log, between and inside deliveries. */
  ghost predicate LaneOk<T>(t: Trace<T>, lane: Lane) {
    var state := t.ring.On(lane);
    if t.ring.active.Some? && t.ring.active.value.frame.lane == lane then
      var d := t.ring.active.value;
      && d.offset <= |d.frame.data|
      && state == LaneState(true, Wrap(d.frame.first + |d.frame.data|))
      && (d.more ==> d.offset == 0 || d.offset < |d.frame.data|)
      && (!d.more ==> d.offset == |d.frame.data|)
      && (d.more && d.offset == 0 ==> d.reset || LaneEnd(t.log, lane) == Some(d.frame.first))
      && (!(d.more && d.offset == 0) ==>
          LaneEnd(t.log, lane) == Some(Wrap(d.frame.first + d.offset)))
    else
      state.seen ==> LaneEnd(t.log, lane) == Some(state.next)
  }

  ghost predicate TraceOk<T>(t: Trace<T>) {
    LaneOk(t, LaneA) && LaneOk(t, LaneB) && Continuous(t.log)
  }

  lemma LaneEndExtend<T>(log: seq<Callback<T>>, c: Callback<T>, lane: Lane)
    ensures LaneEnd(log + [c], lane) ==
            if c.lane == lane then Some(Wrap(c.first + |c.data|)) else LaneEnd(log, lane)
  {
    assert (log + [c])[..|log|] == log;
  }

  lemma ContinuousExtend<T>(log: seq<Callback<T>>, c: Callback<T>)
    requires Continuous(log)
    requires c.reset || LaneEnd(log, c.lane) == Some(c.first)
    ensures Continuous(log + [c])
  {
    var longer := log + [c];
    forall k | 0 <= k < |longer| && !longer[k].reset
      ensures LaneEnd(longer[..k], longer[k].lane) == Some(longer[k].first)
    {
      assert longer[..k] == log[..k];
      assert k == |log| ==> log[..k] == log;
    }
  }

  lemma CallOk<T>(t: Trace<T>, capacity: nat, limit: nat)
    requires capacity > 0 && TraceOk(t) && CanCall(t.ring, limit)
    ensures TraceOk(Step(t, capacity, Call(limit)))
  {
    var d := t.ring.active.value;
    var c := CallbackFor(d, limit);
    assert LaneOk(t, d.frame.lane);
    ContinuousExtend(t.log, c);
    CallLane(t, capacity, limit, LaneA);
    CallLane(t, capacity, limit, LaneB);
  }

  lemma CallLane<T>(t: Trace<T>, capacity: nat, limit: nat, lane: Lane)
    requires capacity > 0 && LaneOk(t, lane) && CanCall(t.ring, limit)
    ensures LaneOk(Step(t, capacity, Call(limit)), lane)
  {
    var d := t.ring.active.value;
    var c := CallbackFor(d, limit);
    LaneEndExtend(t.log, c, lane);
    WrapSum(d.frame.first + d.offset, |c.data|);
    assert d.frame.first + d.offset + |c.data| == d.frame.first + Advance(d, limit).offset;
  }

  lemma StartOk<T>(t: Trace<T>, capacity: nat)
    requires capacity > 0 && TraceOk(t) && CanBegin(t.ring)
    ensures TraceOk(Step(t, capacity, Start))
  {
    var f := t.ring.queue[0];
    assert LaneOk(t, f.lane);
  }

  lemma OtherOk<T>(t: Trace<T>, capacity: nat, e: Event<T>, lane: Lane)
    requires capacity > 0 && LaneOk(t, lane) && !e.Start? && !e.Call?
    ensures LaneOk(Step(t, capacity, e), lane) && Step(t, capacity, e).log == t.log
  {
  }

  lemma StepOk<T>(t: Trace<T>, capacity: nat, e: Event<T>)
    requires capacity > 0 && TraceOk(t)
    ensures TraceOk(Step(t, capacity, e))
  {
    if e.Call? {
      if CanCall(t.ring, e.limit) { CallOk(t, capacity, e.limit); }
    } else if e.Start? {
      if CanBegin(t.ring) { StartOk(t, capacity); }
    } else {
      OtherOk(t, capacity, e, LaneA);
      OtherOk(t, capacity, e, LaneB);
    }
  }

  /**
   Lane continuity: over every run, with evictions, pauses, restarts and any
   positive chunk sizes, a callback without reset starts exactly at the sample
   where its lane's previous callback ended, modulo 2^32.
   */
  lemma {:induction false} LaneContinuity<T>(capacity: nat, events: seq<Event<T>>)
    requires capacity > 0
    ensures TraceOk(Run(Trace(Fresh(), []), capacity, events))
    ensures Continuous(Run(Trace(Fresh(), []), capacity, events).log)
  {
    if events != [] {
      LaneContinuity<T>(capacity, events[..|events| - 1]);
      StepOk(Run(Trace(Fresh<T>(), []), capacity, events[..|events| - 1]), capacity,
             events[|events| - 1]);
    }
  }

  // --------------------------------------------------------- marks are not lost

  predicate FrameHas<T>(f: StreamFrame<T>, mark: Mark) {
    Marked(f.reset, f.flags, mark)
  }

  predicate CallHas<T>(c: Callback<T>, mark: Mark) {
    Marked(c.reset, c.flags, mark)
  }

  /** Some frame still to be handed over carries the mark. */
  ghost predicate Carries<T>(r: Ring<T>, mark: Mark) {
    || (exists k :: 0 <= k < |r.queue| && FrameHas(r.queue[k], mark))
    || (r.active.Some? && r.active.value.more && r.active.value.offset == 0 &&
        Marked(r.active.value.reset, r.active.value.frame.flags, mark))
  }

  ghost predicate Reported<T>(log: seq<Callback<T>>, from: nat, mark: Mark) {
    exists k :: from <= k < |log| && CallHas(log[k], mark)
  }

  lemma MarkStep<T>(t: Trace<T>, capacity: nat, e: Event<T>, from: nat, mark: Mark)
    requires capacity > 0 && from <= |t.log| && !e.Clear?
    requires Carries(t.ring, mark) || Reported(t.log, from, mark)
    ensures |t.log| <= |Step(t, capacity, e).log|
    ensures Carries(Step(t, capacity, e).ring, mark) || Reported(Step(t, capacity, e).log, from, mark)
  {
    var after := Step(t, capacity, e);
    assert t.log <= after.log;
    if Reported(t.log, from, mark) {
      var k :| from <= k < |t.log| && CallHas(t.log[k], mark);
      assert after.log[k] == t.log[k];
    } else if exists k :: 0 <= k < |t.ring.queue| && FrameHas(t.ring.queue[k], mark) {
      var k :| 0 <= k < |t.ring.queue| && FrameHas(t.ring.queue[k], mark);
      QueuedMarkStep(t, capacity, e, k, mark);
    } else if e.Call? && CanCall(t.ring, e.limit) {
      assert after.log[|t.log|] == CallbackFor(t.ring.active.value, e.limit);
    }
  }

  lemma QueuedMarkStep<T>(t: Trace<T>, capacity: nat, e: Event<T>, k: nat, mark: Mark)
    requires capacity > 0 && !e.Clear?
    requires k < |t.ring.queue| && FrameHas(t.ring.queue[k], mark)
    ensures Carries(Step(t, capacity, e).ring, mark)
  {
    var r, after := t.ring, Step(t, capacity, e).ring;
    if e.Queue? && !r.paused && |r.queue| >= capacity {
      if k == 0 {
        assert FrameHas(after.queue[|after.queue| - 1], mark);
      } else {
        assert after.queue[k - 1] == r.queue[k];
      }
    } else if e.Start? && CanBegin(r) {
      if k > 0 {
        assert after.queue[k - 1] == r.queue[k];
      }
    } else {
      assert after.queue[k] == r.queue[k];
    }
  }

  /**
   No reset or change mark is lost: once a queued frame carries it, every run
   that does not clear the ring either reports it in a callback or carries it
   still, whatever was evicted meanwhile.
   */
  lemma {:induction false} MarksNotLost<T>(
    t: Trace<T>, capacity: nat, events: seq<Event<T>>, mark: Mark)
    requires capacity > 0 && Carries(t.ring, mark) && Clear !in events
    ensures |t.log| <= |Run(t, capacity, events).log|
    ensures var after := Run(t, capacity, events);
            Carries(after.ring, mark) || Reported(after.log, |t.log|, mark)
  {
    if events != [] {
      var before := events[..|events| - 1];
      MarksNotLost(t, capacity, before, mark);
      MarkStep(Run(t, capacity, before), capacity, events[|events| - 1], |t.log|, mark);
    }
  }

  /** Every frame of the ring, and the one being delivered, belongs to one lane. */
  ghost predicate OnlyLane<T>(r: Ring<T>, lane: Lane) {
    && (forall k :: 0 <= k < |r.queue| ==> r.queue[k].lane == lane)
    && (r.active.Some? ==> r.active.value.frame.lane == lane)
  }

  lemma SingleLaneStep<T>(t: Trace<T>, capacity: nat, e: Event<T>, lane: Lane)
    requires capacity > 0 && OnlyLane(t.ring, lane)
    requires e.Queue? ==> e.frame.lane == lane
    ensures OnlyLane(Step(t, capacity, e).ring, lane)
    ensures Step(t, capacity, e).log == t.log ||
            exists c: Callback<T> :: c.lane == lane && Step(t, capacity, e).log == t.log + [c]
  {
    if e.Call? && CanCall(t.ring, e.limit) {
      assert CallbackFor(t.ring.active.value, e.limit).lane == lane;
    }
  }

  /** In single-tuner mode every later report is on the lane that the mark was put on. */
  lemma {:induction false} SingleLane<T>(
    t: Trace<T>, capacity: nat, events: seq<Event<T>>, lane: Lane)
    requires capacity > 0 && OnlyLane(t.ring, lane)
    requires forall k :: 0 <= k < |events| && events[k].Queue? ==> events[k].frame.lane == lane
    ensures OnlyLane(Run(t, capacity, events).ring, lane)
    ensures |t.log| <= |Run(t, capacity, events).log|
    ensures forall k :: |t.log| <= k < |Run(t, capacity, events).log| ==>
              Run(t, capacity, events).log[k].lane == lane
  {
    if events != [] {
      var before := events[..|events| - 1];
      SingleLane(t, capacity, before, lane);
      SingleLaneStep(Run(t, capacity, before), capacity, events[|events| - 1], lane);
    }
  }

  function Arrivals<T>(frames: seq<StreamFrame<T>>): (events: seq<Event<T>>)
    ensures |events| == |frames|
  {
    seq(|frames|, k requires 0 <= k < |frames| => Queue(frames[k]))
  }

  lemma ArrivalsNext<T>(t: Trace<T>, capacity: nat, frames: seq<StreamFrame<T>>, f: StreamFrame<T>)
    requires capacity > 0
    ensures Run(t, capacity, Arrivals(frames + [f])) == Step(Run(t, capacity, Arrivals(frames)), capacity, Queue(f))
  {
    assert Arrivals(frames + [f])[..|frames|] == Arrivals(frames);
  }

  /** Up to its capacity the ring holds the frames as they arrived. */
  lemma {:induction false} RingFills<T>(frames: seq<StreamFrame<T>>, capacity: nat)
    requires |frames| <= capacity && capacity > 0
    ensures Run(Trace(Fresh(), []), capacity, Arrivals(frames)) == Trace(Fresh().(queue := frames), [])
  {
    if frames == [] {
      assert Arrivals(frames) == [];
    } else {
      var n := |frames| - 1;
      RingFills(frames[..n], capacity);
      assert frames == frames[..n] + [frames[n]];
      ArrivalsNext(Trace(Fresh<T>(), []), capacity, frames[..n], frames[n]);
    }
  }

  /**
   In dual mode an eviction may move a mark to the other lane. For every capacity:
   if only the oldest frame of a full ring is marked, and lies on lane A, then after
   one more frame on lane B the mark is carried on lane B and no longer on lane A.
   */
  lemma EvictionCanChangeLane<T>(frames: seq<StreamFrame<T>>, f: StreamFrame<T>, mark: Mark)
    requires frames != [] && frames[0].lane == LaneA && FrameHas(frames[0], mark)
    requires forall k :: 1 <= k < |frames| ==> !FrameHas(frames[k], mark)
    requires f.lane == LaneB && !FrameHas(f, mark)
    ensures var r := Run(Trace(Fresh(), []), |frames|, Arrivals(frames + [f])).ring;
            && Carries(r, mark)
            && forall k :: 0 <= k < |r.queue| && FrameHas(r.queue[k], mark) ==> r.queue[k].lane == LaneB
  {
    RingFills(frames, |frames|);
    ArrivalsNext(Trace(Fresh<T>(), []), |frames|, frames, f);
    var r := Run(Trace(Fresh<T>(), []), |frames|, Arrivals(frames + [f])).ring;
    assert FrameHas(r.queue[|r.queue| - 1], mark);
  }

  /** A mark stays on its lane in an eviction exactly under this condition. */
  lemma EvictionKeepsLane<T>(r: Ring<T>, capacity: nat, f: StreamFrame<T>, mark: Mark)
    requires capacity > 0 && |r.queue| == capacity && !r.paused && !FrameHas(f, mark)
    ensures var last := Enqueue(r, capacity, f).queue[capacity - 1];
            (FrameHas(last, mark) ==> last.lane == r.queue[0].lane) <==>
            (r.queue[0].lane == f.lane || !FrameHas(r.queue[0], mark))
  {
  }
}
