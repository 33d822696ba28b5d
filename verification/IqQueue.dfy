/**
 The slot array and the ring of slot numbers that carry the queue of module
 SlotQueue. Each method is one region held under `iq_lock`.
 */
module IqQueue {
  import opened Indices
  import opened Wrappers
  import opened Word32
  import opened SlotQueue

  datatype SlotState = Free | Queued | Active

  function Count(occupied: bool): nat {
    if occupied then 1 else 0
  }

  ghost predicate Distinct(s: seq<nat>) {
    forall i, j :: 0 <= i < j < |s| ==> s[i] != s[j]
  }

  function Members(s: seq<nat>): set<nat> {
    set x | x in s
  }

  function Below(n: nat): (r: set<nat>)
    ensures |r| == n && forall x :: x in r <==> 0 <= x < n
  {
    if n == 0 then {} else Below(n - 1) + {n - 1}
  }

  lemma {:induction false} DistinctSize(s: seq<nat>)
    requires Distinct(s)
    ensures |Members(s)| == |s|
  {
    if s != [] {
      var n := |s| - 1;
      DistinctSize(s[..n]);
      assert s[n] !in Members(s[..n]);
      assert Members(s) == Members(s[..n]) + {s[n]};
    }
  }

  /** Which slot states a ring window and an active slot account for. */
  ghost predicate Accounts(states: seq<SlotState>, window: seq<nat>, active: Option<nat>) {
    && Distinct(window)
    && (forall k :: 0 <= k < |window| ==> window[k] < |states|)
    && (active.Some? ==> active.value < |states|)
    && (forall s :: 0 <= s < |states| ==> (states[s] == Queued <==> s in window))
    && (forall s :: 0 <= s < |states| ==> (states[s] == Active <==> active == Some(s)))
  }

  lemma SubsetSize(part: set<nat>, whole: set<nat>)
    requires part <= whole
    ensures |part| <= |whole|
    ensures |part| == |whole| ==> part == whole
  {
    assert whole == part + (whole - part);
  }

  /** The slots that the window or the active slot occupies. */
  ghost function Occupied(window: seq<nat>, active: Option<nat>): set<nat> {
    if active.Some? then Members(window) + {active.value} else Members(window)
  }

  lemma OccupiedSize(states: seq<SlotState>, window: seq<nat>, active: Option<nat>)
    requires Accounts(states, window, active)
    ensures |Occupied(window, active)| == |window| + if active.Some? then 1 else 0
  {
    DistinctSize(window);
    if active.Some? {
      assert states[active.value] == Active;
      assert active.value !in Members(window);
    }
  }

  lemma OccupiedExactly(states: seq<SlotState>, window: seq<nat>, active: Option<nat>, s: nat)
    requires Accounts(states, window, active) && s < |states|
    ensures s in Occupied(window, active) <==> states[s] != Free
  {
  }

  lemma OccupiedBelow(states: seq<SlotState>, window: seq<nat>, active: Option<nat>)
    requires Accounts(states, window, active)
    ensures Occupied(window, active) <= Below(|states|)
  {
  }

  /** A slot is free exactly when the window and the active slot do not fill the array. */
  lemma FreeSlotExists(states: seq<SlotState>, window: seq<nat>, active: Option<nat>)
    requires Accounts(states, window, active)
    ensures |window| + (if active.Some? then 1 else 0) <= |states|
    ensures Free in states <==> |window| + (if active.Some? then 1 else 0) < |states|
  {
    var all, occupied := Below(|states|), Occupied(window, active);
    OccupiedSize(states, window, active);
    OccupiedBelow(states, window, active);
    SubsetSize(occupied, all);
    if Free in states {
      var s :| 0 <= s < |states| && states[s] == Free;
      OccupiedExactly(states, window, active, s);
      assert s in all;
    } else {
      forall s | s in all ensures s in occupied { OccupiedExactly(states, window, active, s); }
      assert occupied == all;
    }
  }

  /** The slots of a window hold the given frames. */
  ghost predicate Holds<T>(data: seq<T>, window: seq<nat>, frames: seq<T>) {
    && |window| == |frames|
    && forall k :: 0 <= k < |window| ==> window[k] < |data| && data[window[k]] == frames[k]
  }

  lemma HoldsAppend<T>(data: seq<T>, window: seq<nat>, frames: seq<T>, slot: nat, x: T)
    requires Holds(data, window, frames) && slot < |data| && slot !in window
    ensures Holds(data[slot := x], window + [slot], frames + [x])
  {
    forall k | 0 <= k < |window| ensures window[k] != slot { assert window[k] in window; }
  }

  /** The slots hold the frames of the queue: waiting ones in the window, the active one apart. */
  ghost predicate Carries<T>(data: seq<T>, window: seq<nat>, activeSlot: Option<nat>, q: Slots<T>) {
    && |q.fates| <= |q.accepted|
    && Holds(data, window, Waiting(q))
    && activeSlot.Some? == q.active.Some?
    && (q.active.Some? ==>
        && activeSlot.value < |data| && q.active.value < |q.accepted|
        && data[activeSlot.value] == q.accepted[q.active.value])
  }

  /** The queue after its oldest waiting frame was overwritten by `x`. */
  function Overwrite<T>(q: Slots<T>, x: T): Slots<T> {
    q.(accepted := q.accepted + [x], fates := q.fates + [Overwritten], drops := q.drops + 1)
  }

  lemma CarriesAppend<T>(
    data: seq<T>, window: seq<nat>, activeSlot: Option<nat>, q: Slots<T>, slot: nat, x: T)
    requires Carries(data, window, activeSlot, q)
    requires slot < |data| && slot !in window && activeSlot != Some(slot)
    ensures Carries(data[slot := x], window + [slot], activeSlot, q.(accepted := q.accepted + [x]))
  {
    HoldsAppend(data, window, Waiting(q), slot, x);
    assert Waiting(q.(accepted := q.accepted + [x])) == Waiting(q) + [x];
  }

  lemma CarriesOverwrite<T>(
    data: seq<T>, window: seq<nat>, activeSlot: Option<nat>, q: Slots<T>, x: T)
    requires Carries(data, window, activeSlot, q) && window != []
    requires window[0] !in window[1..] && activeSlot != Some(window[0])
    ensures Carries(data[window[0] := x], window[1..] + [window[0]], activeSlot, Overwrite(q, x))
  {
    HoldsAppend(data, window[1..], Waiting(q)[1..], window[0], x);
    assert Waiting(Overwrite(q, x)) == Waiting(q)[1..] + [x];
  }

  lemma AccountsAppend(states: seq<SlotState>, window: seq<nat>, active: Option<nat>, slot: nat)
    requires Accounts(states, window, active) && slot < |states| && states[slot] == Free
    ensures slot !in window && active != Some(slot)
    ensures Accounts(states[slot := Queued], window + [slot], active)
  {
    assert slot !in window;
  }

  lemma AccountsRotate(states: seq<SlotState>, window: seq<nat>, active: Option<nat>)
    requires Accounts(states, window, active) && window != []
    ensures window[0] < |states| && states[window[0] := Queued] == states
    ensures window[0] !in window[1..] && active != Some(window[0])
    ensures Accounts(states, window[1..] + [window[0]], active)
  {
    var turned := window[1..] + [window[0]];
    assert window == [window[0]] + window[1..];
    assert forall s :: s in turned <==> s in window;
    assert window[0] in window;
  }

  lemma AccountsTake(states: seq<SlotState>, window: seq<nat>)
    requires Accounts(states, window, None) && window != []
    ensures window[0] < |states|
    ensures Accounts(states[window[0] := Active], window[1..], Some(window[0]))
  {
    var taken := states[window[0] := Active];
    assert window == [window[0]] + window[1..];
    forall s | 0 <= s < |states| ensures taken[s] == Queued <==> s in window[1..] {
      assert s in window <==> s == window[0] || s in window[1..];
    }
  }

  class IqQueue<T(0)> {
    const capacity: nat
    const state: array<SlotState>
    const data: array<T>
    const ring: array<nat>
    var head: nat
    var count: nat
    var active: bool
    var dropCount: word
    var stop: bool
    ghost var q: Slots<T>
    ghost var window: seq<nat>
    ghost var activeSlot: Option<nat>

    ghost predicate Shape()
      reads this
    {
      && 0 < capacity == state.Length == data.Length == ring.Length
      && (state as object != data) && (state as object != ring) && (data as object != ring)
      && head < capacity
    }

    /**
     The ring window lists exactly the queued slots, without repeats and oldest
     first; at most one slot is active; the slots hold the frames they stand for.
     */
    ghost predicate Valid()
      reads this, state, data, ring
    {
      && Shape()
      && count == |window| <= capacity
      && (forall k :: 0 <= k < count ==> ring[RingIndex(head, k, capacity)] == window[k])
      && Accounts(state[..], window, activeSlot)
      && active == activeSlot.Some?
      && Carries(data[..], window, activeSlot, q)
      && dropCount == Wrap(q.drops)
    }

    constructor (capacity: nat)
      requires capacity > 0
      ensures Valid() && !stop && this.capacity == capacity && q == Empty()
      ensures fresh(state) && fresh(data) && fresh(ring)
    {
      this.capacity := capacity;
      state := new SlotState[capacity](_ => Free);
      data := new T[capacity];
      ring := new nat[capacity](_ => 0);
      head, count, active, dropCount, stop := 0, 0, false, 0, false;
      q, window, activeSlot := Empty(), [], None;
    }

    /** The scan for the first free slot; `capacity` when there is none. */
    method FindFree() returns (slot: nat)
      requires Valid()
      ensures slot <= capacity
      ensures slot < capacity <==> Busy(q) < capacity
      ensures slot < capacity ==> state[slot] == Free && forall s :: 0 <= s < slot ==> state[s] != Free
    {
      slot := 0;
      while slot < capacity && state[slot] != Free
        invariant slot <= capacity
        invariant forall s :: 0 <= s < slot ==> state[s] != Free
      {
        slot := slot + 1;
      }
      FreeSlotExists(state[..], window, activeSlot);
      assert slot < capacity ==> state[..][slot] == Free;
    }

    /** Fill a slot that no other part of the queue refers to and append it to the ring. */
    method Append(slot: nat, x: T)
      requires Shape() && count < capacity && |window| == count && slot < capacity
      requires forall k :: 0 <= k < count ==> ring[RingIndex(head, k, capacity)] == window[k]
      requires slot !in window
      modifies state, data, ring, `count, `window
      ensures count == old(count) + 1 && window == old(window) + [slot]
      ensures forall k :: 0 <= k < count ==> ring[RingIndex(head, k, capacity)] == window[k]
      ensures state[..] == old(state[..])[slot := Queued]
      ensures data[..] == old(data[..])[slot := x]
    {
      data[slot] := x;
      state[slot] := Queued;
      var tail := RingIndex(head, count, capacity);
      ring[tail] := slot;
      count := count + 1;
      window := window + [slot];
    }

    /** Remove the oldest entry of the ring window. */
    method PopOldest() returns (slot: nat)
      requires Shape() && 0 < count <= capacity && |window| == count
      requires forall k :: 0 <= k < count ==> ring[RingIndex(head, k, capacity)] == window[k]
      modifies `head, `count, `window
      ensures slot == old(window)[0] && Shape()
      ensures count == old(count) - 1 && window == old(window)[1..]
      ensures forall k :: 0 <= k < count ==> ring[RingIndex(head, k, capacity)] == window[k]
    {
      assert ring[RingIndex(head, 0, capacity)] == window[0];
      slot := ring[head];
      forall k | 0 <= k < count - 1
        ensures ring[RingIndex(RingIndex(head, 1, capacity), k, capacity)] == window[k + 1]
      {
        assert ring[RingIndex(head, k + 1, capacity)] == window[k + 1];
      }
      head := RingIndex(head, 1, capacity);
      count := count - 1;
      window := window[1..];
    }

    /** Move the oldest entry of the window to its end, holding a new frame. */
    method Recycle(x: T)
      requires Shape() && 0 < count <= capacity && |window| == count
      requires forall k :: 0 <= k < count ==> ring[RingIndex(head, k, capacity)] == window[k]
      requires window[0] < capacity && window[0] !in window[1..]
      modifies state, data, ring, `head, `count, `window
      ensures Shape() && count == old(count) && window == old(window[1..] + [window[0]])
      ensures forall k :: 0 <= k < count ==> ring[RingIndex(head, k, capacity)] == window[k]
      ensures state[..] == old(state[..])[old(window[0]) := Queued]
      ensures data[..] == old(data[..])[old(window[0]) := x]
    {
      var slot := PopOldest();
      Append(slot, x);
    }

    method StoreFree(slot: nat, x: T)
      requires Valid() && slot < capacity && state[slot] == Free && Busy(q) < capacity
      modifies this`count, this`q, this`window, state, data, ring
      ensures Valid()
      ensures q == old(q).(accepted := old(q).accepted + [x])
    {
      AccountsAppend(state[..], window, activeSlot, slot);
      CarriesAppend(data[..], window, activeSlot, q, slot, x);
      Append(slot, x);
      q := q.(accepted := q.accepted + [x]);
    }

    method OverwriteOldest(x: T)
      requires Valid() && count != 0
      modifies this`head, this`count, this`dropCount, this`q, this`window, state, data, ring
      ensures Valid()
      ensures q == Overwrite(old(q), x)
    {
      AccountsRotate(state[..], window, activeSlot);
      CarriesOverwrite(data[..], window, activeSlot, q, x);
      WrapSum(q.drops, 1);
      Recycle(x);
      dropCount := Wrap(dropCount + 1);
      q := Overwrite(q, x);
    }

    /**
     The region of `queue_iq` that stores a frame. The optional timed wait
     before it only lets the worker run and then repeats the scan.
     */
    method QueueIq(x: T)
      requires Valid()
      modifies this`head, this`count, this`dropCount, this`q, this`window, state, data, ring
      ensures Valid()
      ensures q == Push(old(q), capacity, x)
      ensures old(count) + Count(active) < capacity ==>
                count == old(count) + 1 && dropCount == old(dropCount) && Waiting(q) == old(Waiting(q)) + [x]
      ensures old(count) + Count(active) == capacity && old(count) > 0 ==>
                && count == old(count) && dropCount == Wrap(old(dropCount) + 1)
                && Waiting(q) == old(Waiting(q))[1..] + [x]
      ensures old(count) + Count(active) == capacity && old(count) == 0 ==>
                count == 0 && dropCount == old(dropCount) && q == old(q)
    {
      var slot := FindFree();
      if slot != capacity {
        StoreFree(slot, x);
      } else if count != 0 {
        OverwriteOldest(x);
      }
    }

    /** The worker's first region: the oldest waiting frame becomes the active one. */
    method Take() returns (slot: nat)
      requires Valid() && CanTake(q)
      modifies this`head, this`count, this`active, this`q, this`window, this`activeSlot, state
      ensures Valid()
      ensures q == TakeNext(old(q))
      ensures activeSlot == Some(slot) && data[slot] == q.accepted[q.active.value]
      ensures count == old(count) - 1 && active && data[slot] == old(Waiting(q))[0]
    {
      AccountsTake(state[..], window);
      slot := PopOldest();
      state[slot] := Active;
      assert state[..] == old(state[..])[slot := Active];
      active := true;
      q, activeSlot := TakeNext(q), Some(slot);
      assert Waiting(q) == old(Waiting(q))[1..];
    }

    /** The worker's second region: the callback has returned. */
    method Finish(slot: nat)
      requires Valid() && activeSlot == Some(slot)
      modifies this`active, this`q, this`activeSlot, state
      ensures Valid()
      ensures q == Complete(old(q))
      ensures count == old(count) && !active && Waiting(q) == old(Waiting(q))
    {
      state[slot] := Free;
      active := false;
      q, activeSlot := Complete(q), None;
    }

    /** The condition that ends `drain_iq_before_response` while the worker runs. */
    method IsDrained() returns (r: bool)
      requires Valid()
      ensures r <==> Drained(q)
    {
      r := count == 0 && !active;
    }

    /**
     Stopping the worker empties the ring without freeing the slots it listed,
     so the slot accounting survives exactly when nothing was queued.
     */
    method StopWorker()
      requires Valid()
      modifies this`stop, this`count, this`q, this`window
      ensures stop && count == 0
      ensures q == old(q).(accepted := old(q).accepted[..|old(q).fates|])
      ensures Valid() <==> old(count) == 0
    {
      assert count != 0 ==> state[..][window[0]] == Queued;
      stop := true;
      count := 0;
      q := q.(accepted := q.accepted[..|q.fates|]);
      window := [];
    }
  }
}
