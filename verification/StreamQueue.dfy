/**
 The array that carries the ring of module StreamRing, and the loop that hands
 one frame to the application. Each class method is one region held under
 `stream_callback_lock`.
 */
module StreamQueue {
  import opened Wrappers
  import opened Word32
  import opened StreamRing
  import opened Indices

  /** The frames of a ring window, oldest first. */
  function Contents<T>(slots: seq<StreamFrame<T>>, head: nat, count: nat): seq<StreamFrame<T>>
    requires head < |slots| && count <= |slots|
  {
    seq(count, k requires 0 <= k < count => slots[RingIndex(head, k, |slots|)])
  }

  lemma ContentsPop<T>(slots: seq<StreamFrame<T>>, head: nat, count: nat)
    requires head < |slots| && 0 < count <= |slots|
    ensures Contents(slots, head, count)[0] == slots[head]
    ensures Contents(slots, RingIndex(head, 1, |slots|), count - 1) ==
            Contents(slots, head, count)[1..]
  {
  }

  lemma ContentsAppend<T>(slots: seq<StreamFrame<T>>, head: nat, count: nat, f: StreamFrame<T>)
    requires head < |slots| && count < |slots|
    ensures var tail := RingIndex(head, count, |slots|);
            Contents(slots[tail := f], head, count + 1) == Contents(slots, head, count) + [f]
  {
  }

  class StreamQueue<T> {
    const capacity: nat
    const slots: array<StreamFrame<T>>
    var head: nat
    var count: nat
    var paused: bool
    var delivery: Option<Delivery<T>>
    var seen: bool
    var next: word
    var seenB: bool
    var nextB: word
    var dropCount: word
    ghost var drops: nat

    ghost predicate Valid()
      reads this
    {
      && 0 < capacity == slots.Length
      && head < capacity
      && count <= capacity
      && dropCount == Wrap(drops)
    }

    ghost function Value(): Ring<T>
      requires Valid()
      reads this, slots
    {
      Ring(Contents(slots[..], head, count), delivery, paused,
           LaneState(seen, next), LaneState(seenB, nextB), drops)
    }

    constructor (capacity: nat, blank: StreamFrame<T>)
      requires capacity > 0
      ensures Valid() && Value() == Fresh() && fresh(slots) && this.capacity == capacity
    {
      this.capacity := capacity;
      slots := new StreamFrame<T>[capacity](_ => blank);
      head, count, paused, delivery := 0, 0, false, None;
      seen, next, seenB, nextB, dropCount, drops := false, 0, false, 0, 0, 0;
    }

    method Append(f: StreamFrame<T>)
      requires Valid() && count < capacity
      modifies this`count, slots
      ensures Valid()
      ensures Value() == old(Value()).(queue := old(Value()).queue + [f])
    {
      ContentsAppend(slots[..], head, count, f);
      var tail := RingIndex(head, count, capacity);
      slots[tail] := f;
      assert slots[..] == old(slots[..])[tail := f];
      count := count + 1;
    }

    method Pop() returns (f: StreamFrame<T>)
      requires Valid() && count > 0
      modifies this`head, this`count
      ensures Valid()
      ensures [f] + Value().queue == old(Value()).queue
      ensures Value() == old(Value()).(queue := old(Value()).queue[1..])
    {
      ContentsPop(slots[..], head, count);
      f := slots[head];
      head := RingIndex(head, 1, capacity);
      count := count - 1;
    }

    method QueueStreamCallback(f: StreamFrame<T>)
      requires Valid()
      modifies this`head, this`count, this`dropCount, this`drops, slots
      ensures Valid()
      ensures Value() == Enqueue(old(Value()), capacity, f)
    {
      if paused {
        return;
      }
      var frame := f;
      if count == capacity {
        var evicted := Pop();
        frame := f.(reset := f.reset || evicted.reset, flags := f.flags.Or(evicted.flags));
        WrapSum(drops, 1);
        dropCount, drops := Wrap(dropCount + 1), drops + 1;
      }
      Append(frame);
    }

    /** The callback thread's first region: copy the oldest frame out. */
    method BeginDelivery()
      requires Valid() && CanBegin(Value())
      modifies this`head, this`count, this`delivery, this`seen, this`next, this`seenB, this`nextB
      ensures Valid()
      ensures Value() == Begin(old(Value()))
      ensures var f := old(Value()).queue[0];
              && delivery.Some? && delivery.value.frame == f && delivery.value.offset == 0
              && (delivery.value.reset <==>
                  f.reset || !old(Value().On(f.lane).seen) || f.first != old(Value().On(f.lane).next))
    {
      var f := Pop();
      var laneSeen := if f.lane.LaneB? then seenB else seen;
      var laneNext := if f.lane.LaneB? then nextB else next;
      delivery := Some(Delivery(f, f.reset || !laneSeen || f.first != laneNext, 0, true));
      if f.lane.LaneB? {
        seenB, nextB := true, Wrap(f.first + |f.data|);
      } else {
        seen, next := true, Wrap(f.first + |f.data|);
      }
    }

    /** The callback thread's second region. */
    method EndDelivery()
      requires Valid() && CanEnd(Value())
      modifies this`delivery
      ensures Valid()
      ensures Value() == old(Value()).(active := None)
    {
      delivery := None;
    }

    /** The region of `pause_stream_callbacks` before its wait, and the one after it. */
    method PauseThenWait()
      requires Valid()
      modifies this`paused
      ensures Valid()
      ensures Value() == old(Value()).(paused := true)
    {
      paused := true;
    }

    method ClearQueue()
      requires Valid() && delivery.None?
      modifies this`head, this`count
      ensures Valid()
      ensures Value() == old(Value()).(queue := [])
    {
      head, count := 0, 0;
    }

    method Resume()
      requires Valid()
      modifies this`paused
      ensures Valid()
      ensures Value() == old(Value()).(paused := false)
    {
      paused := false;
    }
  }

  /** What callback `k` of a frame must be when its samples lie between two cuts. */
  function Piece<T>(frame: StreamFrame<T>, reset: bool, k: nat, from: nat, to: nat): Callback<T>
    requires from <= to <= |frame.data|
  {
    Callback(frame.lane, Wrap(frame.first + from), frame.data[from..to],
             k == 0 && reset, if k == 0 then frame.flags else NO_FLAGS)
  }

  /** Callback `k` hands over the samples of the frame that end at `end`. */
  predicate EndsAt<T(==)>(c: Callback<T>, frame: StreamFrame<T>, reset: bool, k: nat, end: nat) {
    |c.data| <= end <= |frame.data| && c == Piece(frame, reset, k, end - |c.data|, end)
  }

  /**
   The callbacks cover the frame's first `end` samples: they follow one another
   without a gap, and only the first carries the reset and change marks.
   */
  predicate Covers<T(==)>(calls: seq<Callback<T>>, frame: StreamFrame<T>, reset: bool, end: nat) {
    if calls == [] then
      end == 0
    else
      var n := |calls| - 1;
      EndsAt(calls[n], frame, reset, n, end) && Covers(calls[..n], frame, reset, end - |calls[n].data|)
  }

  lemma PieceEndsAt<T>(frame: StreamFrame<T>, reset: bool, k: nat, from: nat, end: nat)
    requires from <= end <= |frame.data|
    ensures |Piece(frame, reset, k, from, end).data| == end - from
    ensures EndsAt(Piece(frame, reset, k, from, end), frame, reset, k, end)
  {
  }

  lemma CoversExtend<T>(calls: seq<Callback<T>>, frame: StreamFrame<T>, reset: bool, from: nat, end: nat)
    requires Covers(calls, frame, reset, from) && from <= end <= |frame.data|
    ensures Covers(calls + [Piece(frame, reset, |calls|, from, end)], frame, reset, end)
  {
    var longer := calls + [Piece(frame, reset, |calls|, from, end)];
    PieceEndsAt(frame, reset, |calls|, from, end);
    assert longer[..|calls|] == calls;
  }

  /** Callback sizes: within the limit read for that chunk, and empty only for an empty frame. */
  ghost predicate Sized<T>(calls: seq<Callback<T>>, frame: StreamFrame<T>, limit: nat -> nat) {
    forall k :: 0 <= k < |calls| ==>
      |calls[k].data| <= limit(k) && (calls[k].data == [] ==> frame.data == [])
  }

  lemma SizedExtend<T>(calls: seq<Callback<T>>, c: Callback<T>, frame: StreamFrame<T>, limit: nat -> nat)
    requires Sized(calls, frame, limit)
    requires |c.data| <= limit(|calls|) && (c.data == [] ==> frame.data == [])
    ensures Sized(calls + [c], frame, limit)
  {
  }

  /** A delivery that has handed over a prefix of its frame. */
  ghost predicate Handed<T>(d: Delivery<T>, calls: seq<Callback<T>>) {
    && d.offset <= |d.frame.data|
    && Covers(calls, d.frame, d.reset, d.offset)
    && (d.more && d.offset == 0 <==> calls == [])
    && (d.more ==> calls == [] || d.offset < |d.frame.data|)
    && (!d.more ==> d.offset == |d.frame.data|)
  }

  lemma HandOne<T>(d: Delivery<T>, calls: seq<Callback<T>>, size: nat)
    requires Handed(d, calls) && d.more && size > 0
    ensures Handed(Advance(d, size), calls + [CallbackFor(d, size)])
    ensures CallbackFor(d, size).data == [] ==> d.frame.data == []
    ensures |CallbackFor(d, size).data| <= size
    ensures Advance(d, size).more ==> d.frame.data != [] && Advance(d, size).offset > d.offset
  {
    var end := Advance(d, size).offset;
    assert CallbackFor(d, size) == Piece(d.frame, d.reset, |calls|, d.offset, end);
    CoversExtend(calls, d.frame, d.reset, d.offset, end);
  }

  /** What the chunk loop keeps: the delivery and the callbacks made so far. */
  ghost predicate Delivering<T>(
    d: Delivery<T>, calls: seq<Callback<T>>, frame: StreamFrame<T>, reset: bool, limit: nat -> nat)
  {
    && d.frame == frame && d.reset == reset
    && Handed(d, calls) && Sized(calls, frame, limit)
    && (frame.data == [] ==> |calls| == if d.more then 0 else 1)
  }

  /** One turn of the chunk loop. */
  lemma DeliverOne<T>(
    d: Delivery<T>, calls: seq<Callback<T>>, frame: StreamFrame<T>, reset: bool, limit: nat -> nat, size: nat)
    requires Delivering(d, calls, frame, reset, limit) && d.more && size == limit(|calls|) > 0
    ensures Delivering(Advance(d, size), calls + [CallbackFor(d, size)], frame, reset, limit)
    ensures Advance(d, size).more ==> Advance(d, size).offset > d.offset
  {
    HandOne(d, calls, size);
    SizedExtend(calls, CallbackFor(d, size), frame, limit);
  }

  /**
   The chunk loop, for any positive callback size that may change between
   chunks. It covers the whole frame; an empty frame still makes one callback.
   */
  method DeliverFrame<T>(frame: StreamFrame<T>, reset: bool, limit: nat -> nat)
    returns (calls: seq<Callback<T>>)
    requires forall i :: limit(i) > 0
    ensures Covers(calls, frame, reset, |frame.data|)
    ensures calls != [] && (frame.data == [] ==> |calls| == 1)
    ensures Sized(calls, frame, limit)
  {
    var d := Delivery(frame, reset, 0, true);
    calls := [];
    while d.more
      invariant Delivering(d, calls, frame, reset, limit)
      decreases d.more, |frame.data| - d.offset
    {
      var size := limit(|calls|);
      DeliverOne(d, calls, frame, reset, limit, size);
      calls, d := calls + [CallbackFor(d, size)], Advance(d, size);
    }
  }

  function Join<T>(calls: seq<Callback<T>>): seq<T> {
    if calls == [] then [] else Join(calls[..|calls| - 1]) + calls[|calls| - 1].data
  }

  /** Covering callbacks concatenate to the samples they cover. */
  lemma {:induction false} CoversJoin<T>(
    calls: seq<Callback<T>>, frame: StreamFrame<T>, reset: bool, end: nat)
    requires Covers(calls, frame, reset, end)
    ensures end <= |frame.data| && Join(calls) == frame.data[..end]
  {
    if calls != [] {
      var n := |calls| - 1;
      var from := end - |calls[n].data|;
      CoversJoin(calls[..n], frame, reset, from);
      assert frame.data[..end] == frame.data[..from] + frame.data[from..end];
    }
  }
}
