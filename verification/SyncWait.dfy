/** Waiting for the boundaries of several categories and consuming them. */
module SyncWait {
  import opened Word32
  import opened SyncSlots

  /** `(int32_t)(candidate - target) > 0`. */
  predicate Later(candidate: word, target: word) {
    Wrap(candidate - target) != 0 && Reached(candidate, target)
  }

  function Pick(target: word, candidate: word): word {
    if Later(candidate, target) then candidate else target
  }

  /** How many samples after `current` the boundary asked for there lies, around the circle. */
  function Ahead(s: Slot, current: word): (a: nat)
    ensures a < MODULUS
  {
    var elapsed := Wrap(current - s.due);
    if s.period != 0 && Reached(current, s.due) then PastMultiple(elapsed, s.period) - elapsed
    else Wrap(s.due - current)
  }

  lemma NextIsAhead(s: Slot, current: word)
    ensures Wrap(Next(s, current).due - current) == Ahead(s, current)
  {
    if s.period != 0 && Reached(current, s.due) {
      var elapsed := Wrap(current - s.due);
      AheadOf(s.due, current, elapsed, PastMultiple(elapsed, s.period));
    }
  }

  /** The same as a signed number: positive ahead, negative behind. */
  function Signed(ahead: nat): (o: int)
    requires ahead < MODULUS
    ensures -HALF <= o < HALF
  {
    if ahead < HALF then ahead else ahead - MODULUS
  }

  /** Where the boundary lies, signed. It depends on the inputs alone. */
  function Offset(s: Slot, current: word): (o: int)
    ensures -HALF <= o < HALF
  {
    Signed(Ahead(s, current))
  }

  lemma AroundTheCircle(current: word, x: word)
    ensures Wrap(current + Wrap(x - current)) == x
    ensures Wrap(current + Signed(Wrap(x - current))) == x
  {
  }

  lemma OffsetOfNext(s: Slot, current: word)
    ensures Next(s, current).due == Wrap(current + Offset(s, current))
  {
    NextIsAhead(s, current);
    AroundTheCircle(current, Next(s, current).due);
  }

  /** A periodic boundary that is reached, or less than half a circle ahead, is then ahead. */
  lemma PeriodicAhead(s: Slot, current: word)
    requires 0 < s.period < HALF
    requires Reached(current, s.due) || Wrap(s.due - current) < HALF
    ensures 0 < Offset(s, current)
  {
  }

  lemma WrapDifference(current: word, r: int, o: int)
    ensures Wrap(Wrap(current + r) - Wrap(current + o)) == Wrap(r - o)
  {
  }

  lemma SmallWrap(d: int)
    requires -MODULUS < d < MODULUS
    ensures Wrap(d) == if d >= 0 then d else d + MODULUS
  {
  }

  /** The comparison `(int32_t)(a - b) >= 0` of two moments less than a whole turn apart. */
  lemma ReachedOffset(current: word, r: int, o: int)
    requires -MODULUS < r - o < MODULUS
    ensures Reached(Wrap(current + r), Wrap(current + o)) <==> 0 <= r - o < HALF || r - o < -HALF
  {
    WrapDifference(current, r, o);
    SmallWrap(r - o);
  }

  // -------------------------------------------------------------- one category

  lemma SingleOffset(current: word, o: int, r: int)
    requires -HALF <= o < HALF && 0 <= r < MODULUS
    requires Reached(Wrap(current + r), Pick(current, Wrap(current + o)))
    ensures Reached(Wrap(current + r), Wrap(current + o)) <==> o >= 0 || r - o < HALF
  {
    assert Wrap(current + 0) == current;
    PickIsOffset(current, 0, o);
    ReachedOffset(current, r, PickOffset(0, o));
    if o < 0 {
      BehindOffset(current, r, o);
    }
  }

  lemma BehindOffset(current: word, r: int, o: int)
    requires -HALF <= o < 0 <= r < HALF
    ensures Reached(Wrap(current + r), Wrap(current + o)) <==> r - o < HALF
  {
    ReachedOffset(current, r, o);
  }

  /**
   Waiting for one category. Whenever the wait ends, the category is due exactly if
   its boundary was not passed, or was passed less than half a circle before that.
   */
  lemma SingleDue(s: Slot, current: word, x: word)
    requires s.pending && Reached(x, Pick(current, Next(s, current).due))
    ensures IsDue(Next(s, current), x) <==>
            Offset(s, current) >= 0 || Wrap(x - current) - Offset(s, current) < HALF
  {
    OffsetOfNext(s, current);
    AroundTheCircle(current, x);
    SingleOffset(current, Offset(s, current), Wrap(x - current));
  }

  /** For a boundary that was passed, the wait may end where it is no longer due. */
  lemma SingleMissed(s: Slot, current: word) returns (x: word)
    requires s.pending && Offset(s, current) < 0
    ensures Reached(x, Pick(current, Next(s, current).due)) && !IsDue(Next(s, current), x)
  {
    var o := Offset(s, current);
    x := Wrap(current + HALF + o);
    OffsetOfNext(s, current);
    assert Wrap(current + 0) == current;
    ReachedOffset(current, o, 0);
    ReachedOffset(current, HALF + o, 0);
    ReachedOffset(current, HALF + o, o);
  }

  /** The wait makes the category due whenever it ends if and only if its boundary was not passed. */
  lemma SingleAlwaysDue(s: Slot, current: word)
    requires s.pending
    ensures (forall x: word :: Reached(x, Pick(current, Next(s, current).due)) ==> IsDue(Next(s, current), x))
            <==> Offset(s, current) >= 0
  {
    if Offset(s, current) >= 0 {
      forall x: word | Reached(x, Pick(current, Next(s, current).due)) ensures IsDue(Next(s, current), x) {
        SingleDue(s, current, x);
      }
    } else {
      var x := SingleMissed(s, current);
    }
  }

  /** A failing input: a boundary exactly 2^31 ahead ends the wait at once and is not due. */
  lemma HalfAheadNotDue()
    ensures var s := Slot(true, 0x8000_0000, 5);
            && Next(s, 0) == s && Pick(0, s.due) == 0
            && Reached(0, Pick(0, s.due)) && Consume(s, 0) == s
  {
  }

  // ------------------------------------------------------- several categories

  /** The furthest of the present and the selected offsets, ahead and behind. */
  function Highest(categories: set<Category>, offsets: seq<int>, n: nat): (h: int)
    requires n <= 3 == |offsets|
    ensures h >= 0
  {
    if n == 0 then 0
    else
      var before := Highest(categories, offsets, n - 1);
      if CategoryAt(n - 1) in categories && offsets[n - 1] > before then offsets[n - 1] else before
  }

  function Lowest(categories: set<Category>, offsets: seq<int>, n: nat): (l: int)
    requires n <= 3 == |offsets|
    ensures l <= 0
  {
    if n == 0 then 0
    else
      var before := Lowest(categories, offsets, n - 1);
      if CategoryAt(n - 1) in categories && offsets[n - 1] < before then offsets[n - 1] else before
  }

  /** The selected boundaries and the present lie within less than half a circle. */
  predicate Close(categories: set<Category>, offsets: seq<int>)
    requires |offsets| == 3
  {
    Highest(categories, offsets, 3) - Lowest(categories, offsets, 3) < HALF
  }

  lemma {:induction false} Bounds(categories: set<Category>, offsets: seq<int>, n: nat, c: Category)
    requires n <= 3 == |offsets| && c in categories && IndexFor(c) < n
    ensures Lowest(categories, offsets, n) <= offsets[IndexFor(c)] <= Highest(categories, offsets, n)
  {
    if IndexFor(c) < n - 1 {
      Bounds(categories, offsets, n - 1, c);
    }
  }

  lemma {:induction false} BoundsGrow(categories: set<Category>, offsets: seq<int>, n: nat)
    requires n <= 3 == |offsets|
    ensures Highest(categories, offsets, n) <= Highest(categories, offsets, 3)
    ensures Lowest(categories, offsets, n) >= Lowest(categories, offsets, 3)
    decreases 3 - n
  {
    if n < 3 {
      BoundsGrow(categories, offsets, n + 1);
    }
  }

  /** Which of two signed offsets the comparison of the source keeps. */
  function PickOffset(t: int, o: int): int {
    if 0 < o - t < HALF || o - t < -HALF then o else t
  }

  lemma PickIsOffset(current: word, t: int, o: int)
    requires -HALF <= t < HALF && -HALF <= o < HALF
    ensures Pick(Wrap(current + t), Wrap(current + o)) == Wrap(current + PickOffset(t, o))
  {
    ReachedOffset(current, o, t);
    WrapDifference(current, o, t);
    SmallWrap(o - t);
  }

  /** The offset kept after looking at the first `n` categories. */
  function Kept(categories: set<Category>, offsets: seq<int>, n: nat): int
    requires n <= 3 == |offsets|
  {
    if n == 0 then 0
    else
      var before := Kept(categories, offsets, n - 1);
      if CategoryAt(n - 1) in categories then PickOffset(before, offsets[n - 1]) else before
  }

  ghost predicate AllSigned(offsets: seq<int>) {
    |offsets| == 3 && forall i :: 0 <= i < 3 ==> -HALF <= offsets[i] < HALF
  }

  /** The dues of a scheduler and their signed offsets from the current sample. */
  ghost predicate Located(dues: seq<word>, offsets: seq<int>, current: word) {
    AllSigned(offsets) && |dues| == 3 && forall i :: 0 <= i < 3 ==> dues[i] == Wrap(current + offsets[i])
  }

  /** The boundary kept after looking at the first `n` categories. */
  function Choice(categories: set<Category>, dues: seq<word>, current: word, n: nat): word
    requires n <= 3 == |dues|
  {
    if n == 0 then current
    else
      var before := Choice(categories, dues, current, n - 1);
      if CategoryAt(n - 1) in categories then Pick(before, dues[n - 1]) else before
  }

  lemma {:induction false} ChoiceFrame(
    categories: set<Category>, dues: seq<word>, others: seq<word>, current: word, n: nat)
    requires n <= 3 == |dues| == |others| && dues[..n] == others[..n]
    ensures Choice(categories, dues, current, n) == Choice(categories, others, current, n)
  {
    if n > 0 {
      assert dues[n - 1] == dues[..n][n - 1] == others[n - 1];
      assert dues[..n - 1] == dues[..n][..n - 1] == others[..n - 1];
      ChoiceFrame(categories, dues, others, current, n - 1);
    }
  }

  lemma {:induction false} ChoiceIsKept(
    categories: set<Category>, dues: seq<word>, offsets: seq<int>, current: word, n: nat)
    requires n <= 3 && Located(dues, offsets, current)
    ensures -HALF <= Kept(categories, offsets, n) < HALF
    ensures Choice(categories, dues, current, n) == Wrap(current + Kept(categories, offsets, n))
  {
    if n > 0 {
      ChoiceIsKept(categories, dues, offsets, current, n - 1);
      PickIsOffset(current, Kept(categories, offsets, n - 1), offsets[n - 1]);
    }
  }

  lemma {:induction false} KeptIsHighest(categories: set<Category>, offsets: seq<int>, n: nat)
    requires n <= 3 && AllSigned(offsets) && Close(categories, offsets)
    ensures Kept(categories, offsets, n) == Highest(categories, offsets, n)
  {
    if n > 0 {
      KeptIsHighest(categories, offsets, n - 1);
      BoundsGrow(categories, offsets, n - 1);
      BoundsGrow(categories, offsets, n);
    }
  }

  /** If the selected boundaries are close, the target waited for is the latest of them. */
  lemma ChoiceIsLatest(categories: set<Category>, dues: seq<word>, offsets: seq<int>, current: word)
    requires Located(dues, offsets, current) && Close(categories, offsets)
    ensures Choice(categories, dues, current, 3) == Wrap(current + Highest(categories, offsets, 3))
  {
    ChoiceIsKept(categories, dues, offsets, current, 3);
    KeptIsHighest(categories, offsets, 3);
  }

  /** The boundaries that the wait finds, advanced category by category. */
  ghost predicate Advanced(categories: set<Category>, slots: seq<Slot>, dues: seq<word>, current: word) {
    && |slots| == |dues| == 3
    && forall i :: 0 <= i < 3 ==>
         dues[i] == if CategoryAt(i) in categories then Next(slots[i], current).due else slots[i].due
  }

  /** Offsets of the selected categories; the others do not matter. */
  function Offsets(categories: set<Category>, slots: seq<Slot>, current: word): (o: seq<int>)
    requires |slots| == 3
    ensures AllSigned(o)
    ensures forall i :: 0 <= i < 3 && CategoryAt(i) in categories ==> o[i] == Offset(slots[i], current)
  {
    seq(3, i requires 0 <= i < 3 =>
      if CategoryAt(i) in categories then Offset(slots[i], current) else Offset(slots[i].(period := 0), current))
  }

  lemma AdvancedLocated(categories: set<Category>, slots: seq<Slot>, dues: seq<word>, current: word)
    requires Advanced(categories, slots, dues, current)
    ensures Located(dues, Offsets(categories, slots, current), current)
  {
    forall i | 0 <= i < 3 ensures dues[i] == Wrap(current + Offsets(categories, slots, current)[i]) {
      OffsetOfNext(slots[i], current);
      OffsetOfNext(slots[i].(period := 0), current);
    }
  }

  /** The same on offsets. */
  lemma WaitOffset(
    categories: set<Category>, dues: seq<word>, offsets: seq<int>, current: word, r: int, c: Category)
    requires Located(dues, offsets, current) && Close(categories, offsets) && c in categories
    requires 0 <= r < MODULUS && Reached(Wrap(current + r), Choice(categories, dues, current, 3))
    ensures Reached(Wrap(current + r), dues[IndexFor(c)]) <==> r - offsets[IndexFor(c)] < HALF
  {
    ChoiceIsLatest(categories, dues, offsets, current);
    Bounds(categories, offsets, 3, c);
    ReachedOffset(current, r, Highest(categories, offsets, 3));
    ReachedOffset(current, r, offsets[IndexFor(c)]);
  }

  /**
   Waiting for several categories whose boundaries are close. Whenever the wait
   ends, a selected category is due exactly if that is less than half a circle
   after its boundary.
   */
  lemma WaitMakesDue(
    categories: set<Category>, slots: seq<Slot>, dues: seq<word>, current: word, x: word, c: Category)
    requires Advanced(categories, slots, dues, current) && c in categories
    requires slots[IndexFor(c)].pending && Close(categories, Offsets(categories, slots, current))
    requires Reached(x, Choice(categories, dues, current, 3))
    ensures var s := slots[IndexFor(c)];
            IsDue(Next(s, current), x) <==> Wrap(x - current) - Offset(s, current) < HALF
  {
    AdvancedLocated(categories, slots, dues, current);
    AroundTheCircle(current, x);
    assert CategoryAt(IndexFor(c)) == c;
    WaitOffset(categories, dues, Offsets(categories, slots, current), current, Wrap(x - current), c);
  }

  /** What one consume does to a category that is due. */
  predicate ConsumedOnce(before: Slot, after: Slot) {
    if before.period == 0 then after == before.(pending := false)
    else after == before.(due := Wrap(before.due + before.period))
  }

  /** A consume does that exactly if the category is due. */
  lemma DueIsConsumed(s: Slot, x: word)
    requires s.pending
    ensures ConsumedOnce(s, Consume(s, x)) <==> IsDue(s, x)
  {
  }

  /**
   The whole protocol, for boundaries that are close: whenever the wait ends, the
   consume at x retires a selected one-shot, or moves a selected periodic category
   by exactly one period, if and only if x lies less than half a circle after that
   category's boundary.
   */
  lemma WaitThenConsume(
    categories: set<Category>, slots: seq<Slot>, dues: seq<word>, current: word, x: word, c: Category)
    requires Advanced(categories, slots, dues, current) && c in categories
    requires slots[IndexFor(c)].pending && Close(categories, Offsets(categories, slots, current))
    requires Reached(x, Choice(categories, dues, current, 3))
    ensures var s := slots[IndexFor(c)];
            ConsumedOnce(Next(s, current), Consume(Next(s, current), x)) <==>
            Wrap(x - current) - Offset(s, current) < HALF
  {
    WaitMakesDue(categories, slots, dues, current, x, c);
    NextKeepsRest(slots[IndexFor(c)], current);
    DueIsConsumed(Next(slots[IndexFor(c)], current), x);
  }

  /**
   In particular: if every selected category is pending and has a boundary that is
   not passed and less than half a circle ahead, or a period below 2^31 and a
   boundary that is reached, then every consume less than half a circle after the
   start of the wait does so for all of them.
   */
  lemma TimelyConsumed(
    categories: set<Category>, slots: seq<Slot>, dues: seq<word>, current: word, x: word, c: Category)
    requires Advanced(categories, slots, dues, current) && c in categories
    requires AllTimely(categories, slots, current)
    requires Reached(x, Choice(categories, dues, current, 3)) && Wrap(x - current) < HALF
    ensures var next := Next(slots[IndexFor(c)], current);
            ConsumedOnce(next, Consume(next, x))
  {
    assert Timely(slots[IndexFor(c)], current);
    TimelyClose(categories, slots, current);
    TimelyAhead(slots[IndexFor(c)], current);
    WaitThenConsume(categories, slots, dues, current, x, c);
  }

  /** Both for all selected categories at once. */
  lemma UpdateConsumes(categories: set<Category>, slots: seq<Slot>, dues: seq<word>, current: word, x: word)
    requires Advanced(categories, slots, dues, current)
    requires forall c: Category :: c in categories ==> slots[IndexFor(c)].pending
    ensures Close(categories, Offsets(categories, slots, current)) &&
            Reached(x, Choice(categories, dues, current, 3)) ==>
              (forall c: Category :: c in categories ==>
                 (ConsumedOnce(Next(slots[IndexFor(c)], current), Consume(Next(slots[IndexFor(c)], current), x)) <==>
                  Wrap(x - current) - Offset(slots[IndexFor(c)], current) < HALF))
    ensures AllTimely(categories, slots, current) && Wrap(x - current) < HALF &&
            Reached(x, Choice(categories, dues, current, 3)) ==>
              (forall c: Category :: c in categories ==>
                 ConsumedOnce(Next(slots[IndexFor(c)], current), Consume(Next(slots[IndexFor(c)], current), x)))
  {
    if Reached(x, Choice(categories, dues, current, 3)) {
      forall c: Category | c in categories && Close(categories, Offsets(categories, slots, current))
        ensures ConsumedOnce(Next(slots[IndexFor(c)], current), Consume(Next(slots[IndexFor(c)], current), x)) <==>
                Wrap(x - current) - Offset(slots[IndexFor(c)], current) < HALF
      {
        WaitThenConsume(categories, slots, dues, current, x, c);
      }
      forall c: Category | c in categories && AllTimely(categories, slots, current) && Wrap(x - current) < HALF
        ensures ConsumedOnce(Next(slots[IndexFor(c)], current), Consume(Next(slots[IndexFor(c)], current), x))
      {
        TimelyConsumed(categories, slots, dues, current, x, c);
      }
    }
  }

  /** A pending category whose boundary is ahead, or reached and of a period below 2^31. */
  predicate Timely(s: Slot, current: word) {
    && s.pending
    && if s.period == 0 then Wrap(s.due - current) < HALF
       else s.period < HALF && (Reached(current, s.due) || Wrap(s.due - current) < HALF)
  }

  lemma TimelyAhead(s: Slot, current: word)
    requires Timely(s, current)
    ensures 0 <= Offset(s, current)
  {
    if s.period != 0 {
      PeriodicAhead(s, current);
    }
  }

  lemma TimelyClose(categories: set<Category>, slots: seq<Slot>, current: word)
    requires |slots| == 3 && AllTimely(categories, slots, current)
    ensures Close(categories, Offsets(categories, slots, current))
  {
    forall i | 0 <= i < 3 && CategoryAt(i) in categories ensures Offset(slots[i], current) >= 0 {
      assert IndexFor(CategoryAt(i)) == i;
      TimelyAhead(slots[i], current);
    }
    NoneBehind(categories, Offsets(categories, slots, current), 3);
  }

  lemma {:induction false} NoneBehind(categories: set<Category>, offsets: seq<int>, n: nat)
    requires n <= 3 && AllSigned(offsets)
    requires forall i :: 0 <= i < 3 && CategoryAt(i) in categories ==> offsets[i] >= 0
    ensures Lowest(categories, offsets, n) == 0 && Highest(categories, offsets, n) < HALF
  {
    if n > 0 {
      NoneBehind(categories, offsets, n - 1);
    }
  }

  // ------------------------------------------------------- the exact condition

  /** The earliest offset from the current sample at which the wait may end. */
  function Earliest(kept: int): int {
    if -HALF < kept < 0 then 0 else kept
  }

  ghost predicate AllDueAt(categories: set<Category>, offsets: seq<int>, r: int)
    requires |offsets| == 3
  {
    forall c: Category :: c in categories ==> DueAt(offsets[IndexFor(c)], r)
  }

  /** `Reached` on offsets. */
  predicate DueAt(o: int, r: int) {
    0 <= r - o < HALF || r - o < -HALF
  }

  /** A kept offset behind the present was picked over one ahead of it. */
  lemma {:induction false} KeptFrom(categories: set<Category>, offsets: seq<int>, n: nat) returns (c: Category)
    requires n <= 3 && AllSigned(offsets)
    ensures var kept := Kept(categories, offsets, n);
            || kept == 0
            || (kept > 0 && c in categories && IndexFor(c) < n && offsets[IndexFor(c)] == kept)
            || (kept < 0 && c in categories && IndexFor(c) < n && offsets[IndexFor(c)] > 0)
  {
    c := Gain;
    if n > 0 {
      c := KeptFrom(categories, offsets, n - 1);
      if CategoryAt(n - 1) in categories && Kept(categories, offsets, n) != Kept(categories, offsets, n - 1) &&
         Kept(categories, offsets, n) > 0 {
        c := CategoryAt(n - 1);
      }
    }
  }

  lemma {:induction false} Extremes(categories: set<Category>, offsets: seq<int>, n: nat)
    returns (high: Category, low: Category)
    requires n <= 3 && AllSigned(offsets)
    ensures Highest(categories, offsets, n) != 0 ==>
              high in categories && offsets[IndexFor(high)] == Highest(categories, offsets, n)
    ensures Lowest(categories, offsets, n) != 0 ==>
              low in categories && offsets[IndexFor(low)] == Lowest(categories, offsets, n)
  {
    high, low := Gain, Gain;
    if n > 0 {
      high, low := Extremes(categories, offsets, n - 1);
      if Highest(categories, offsets, n) != Highest(categories, offsets, n - 1) {
        high := CategoryAt(n - 1);
      }
      if Lowest(categories, offsets, n) != Lowest(categories, offsets, n - 1) {
        low := CategoryAt(n - 1);
      }
    }
  }

  lemma {:induction false} KeptSigned(categories: set<Category>, offsets: seq<int>, n: nat)
    requires n <= 3 && AllSigned(offsets)
    ensures -HALF <= Kept(categories, offsets, n) < HALF
  {
    if n > 0 {
      KeptSigned(categories, offsets, n - 1);
    }
  }

  lemma NotCloseNotDue(categories: set<Category>, offsets: seq<int>)
    requires AllSigned(offsets) && !Close(categories, offsets) && Kept(categories, offsets, 3) != -HALF
    ensures !AllDueAt(categories, offsets, Earliest(Kept(categories, offsets, 3)))
  {
    var kept := Kept(categories, offsets, 3);
    KeptSigned(categories, offsets, 3);
    var c := KeptFrom(categories, offsets, 3);
    var high, low := Extremes(categories, offsets, 3);
    if kept < 0 {
      assert !DueAt(offsets[IndexFor(c)], 0);
    } else if Highest(categories, offsets, 3) > kept {
      assert !DueAt(offsets[IndexFor(high)], kept);
    } else {
      assert !DueAt(offsets[IndexFor(low)], kept);
    }
  }

  /**
   The target lies exactly half a circle ahead, and every selected boundary is ahead:
   less than half a circle, or exactly half.
   */
  ghost predicate HalfAhead(categories: set<Category>, offsets: seq<int>)
    requires |offsets| == 3
  {
    && Kept(categories, offsets, 3) == -HALF
    && forall c: Category :: c in categories ==> offsets[IndexFor(c)] > 0 || offsets[IndexFor(c)] == -HALF
  }

  /** On offsets: everything is due at the earliest end exactly under this condition. */
  lemma EarliestOffsetDue(categories: set<Category>, offsets: seq<int>)
    requires AllSigned(offsets)
    ensures AllDueAt(categories, offsets, Earliest(Kept(categories, offsets, 3))) <==>
            Close(categories, offsets) || HalfAhead(categories, offsets)
  {
    var kept := Kept(categories, offsets, 3);
    if Close(categories, offsets) {
      KeptIsHighest(categories, offsets, 3);
      forall c: Category | c in categories ensures DueAt(offsets[IndexFor(c)], kept) {
        Bounds(categories, offsets, 3, c);
      }
    } else if kept != -HALF {
      NotCloseNotDue(categories, offsets);
    }
  }

  /**
   The exact condition, on the inputs: every selected category is due at the earliest
   end of the wait if and only if the selected boundaries and the present are close,
   or the target lies exactly half a circle ahead and no selected boundary is passed.
   */
  lemma EarliestEndDue(categories: set<Category>, slots: seq<Slot>, dues: seq<word>, current: word)
    requires Advanced(categories, slots, dues, current)
    requires forall c: Category :: c in categories ==> slots[IndexFor(c)].pending
    ensures var offsets := Offsets(categories, slots, current);
            var x := Wrap(current + Earliest(Kept(categories, offsets, 3)));
            && Reached(x, Choice(categories, dues, current, 3))
            && ((forall c: Category :: c in categories ==> IsDue(Next(slots[IndexFor(c)], current), x)) <==>
                Close(categories, offsets) || HalfAhead(categories, offsets))
  {
    var offsets := Offsets(categories, slots, current);
    var kept := Kept(categories, offsets, 3);
    var r := Earliest(kept);
    AdvancedLocated(categories, slots, dues, current);
    ChoiceIsKept(categories, dues, offsets, current, 3);
    ReachedOffset(current, r, kept);
    EarliestOffsetDue(categories, offsets);
    forall c: Category | c in categories
      ensures IsDue(Next(slots[IndexFor(c)], current), Wrap(current + r)) <==> DueAt(offsets[IndexFor(c)], r)
    {
      DueAtOffset(slots[IndexFor(c)], current, r);
    }
  }

  lemma DueAtOffset(s: Slot, current: word, r: int)
    requires s.pending && -HALF <= r < HALF
    ensures IsDue(Next(s, current), Wrap(current + r)) <==> DueAt(Offset(s, current), r)
  {
    OffsetOfNext(s, current);
    NextKeepsRest(s, current);
    ReachedOffset(current, r, Offset(s, current));
  }

  /**
   Of two boundaries, one of them exactly half a circle ahead, the order decides: it
   is waited for after one that lies ahead, and missed before it.
   */
  lemma HalfAheadOrder(near: word, other: word)
    requires 0 < near < HALF
    ensures var first, second := [near, HALF, other], [HALF, near, other];
            && Choice({Gain, Rf}, first, 0, 3) == HALF
            && Reached(HALF, near) && Reached(HALF, HALF)
            && Choice({Gain, Rf}, second, 0, 3) == near
            && !Reached(near, HALF)
  {
    var first, second := [near, HALF, other], [HALF, near, other];
    assert CategoryAt(2) !in {Gain, Rf};
    assert Choice({Gain, Rf}, first, 0, 1) == near && Choice({Gain, Rf}, second, 0, 1) == 0;
    assert Choice({Gain, Rf}, first, 0, 2) == HALF && Choice({Gain, Rf}, second, 0, 2) == near;
  }

  /**
   A failing input: at sample 0 the one-shot boundaries 0x6000_0000 and 0xc000_0000
   give a target that counts as reached while the first of them is not due.
   */
  lemma FarApartNotDue(other: word)
    ensures var dues := [0x6000_0000, 0xc000_0000, other];
            var target := Choice({Gain, Rf}, dues, 0, 3);
            && target == 0xc000_0000 && Reached(0, target)
            && !IsDue(Slot(true, 0x6000_0000, 0), 0)
  {
    var dues := [0x6000_0000, 0xc000_0000, other];
    assert Choice({Gain, Rf}, dues, 0, 1) == 0x6000_0000;
    assert Choice({Gain, Rf}, dues, 0, 2) == 0xc000_0000;
    assert CategoryAt(2) !in {Gain, Rf};
  }

  ghost predicate FirstReached(observed: seq<word>, target: word, k: nat) {
    && k < |observed| && Reached(observed[k], target)
    && forall j :: 0 <= j < k ==> !Reached(observed[j], target)
  }

  /** The boundaries after the choice of the target, and the target. */
  function DuesAfter(categories: set<Category>, slots: seq<Slot>, current: word): (dues: seq<word>)
    requires |slots| == 3
    ensures Advanced(categories, slots, dues, current)
  {
    seq(3, i requires 0 <= i < 3 =>
      if CategoryAt(i) in categories then Next(slots[i], current).due else slots[i].due)
  }

  function Target(categories: set<Category>, slots: seq<Slot>, current: word): word
    requires |slots| == 3
  {
    Choice(categories, DuesAfter(categories, slots, current), current, 3)
  }

  ghost predicate AllTimely(categories: set<Category>, slots: seq<Slot>, current: word)
    requires |slots| == 3
  {
    forall c: Category :: c in categories ==> Timely(slots[IndexFor(c)], current)
  }
}
