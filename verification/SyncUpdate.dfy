/** The scheduler of synchronised updates: pending categories, their boundaries and periods. */
module SyncUpdate {
  import opened Word32
  import opened SyncSlots
  import opened SyncWait

  class SyncUpdate {
    var pending: set<Category>
    const due: array<word>
    const period: array<word>

    ghost predicate Valid()
      reads this
    {
      due.Length == 3 && period.Length == 3 && due != period
    }

    ghost function Value(c: Category): Slot
      requires Valid()
      reads this, due, period
    {
      Slot(c in pending, due[IndexFor(c)], period[IndexFor(c)])
    }

    constructor ()
      ensures Valid() && fresh(due) && fresh(period)
      ensures forall c: Category :: Value(c) == Slot(false, 0, 0)
    {
      pending := {};
      due := new word[3](_ => 0);
      period := new word[3](_ => 0);
    }

    method Schedule(categories: set<Category>, sample: word, every: word)
      requires Valid()
      modifies this`pending, due, period
      ensures Valid()
      ensures forall c: Category :: Value(c) == Scheduled(old(Value(c)), c in categories, sample, every)
    {
      var index := 0;
      while index < 3
        invariant 0 <= index <= 3
        invariant forall c: Category :: Value(c) ==
                    if c in categories && IndexFor(c) < index then Slot(true, sample, every) else old(Value(c))
      {
        var c := CategoryAt(index);
        if c in categories {
          period[index] := every;
          due[index] := sample;
          pending := pending + {c};
        }
        index := index + 1;
      }
    }

    method Reset(categories: set<Category>)
      requires Valid()
      modifies this`pending, period
      ensures Valid()
      ensures forall c: Category :: Value(c) ==
                if c in categories then old(Value(c)).(pending := false, period := 0) else old(Value(c))
    {
      pending := pending - categories;
      var index := 0;
      while index < 3
        invariant 0 <= index <= 3
        invariant forall c: Category :: Value(c) ==
                    if c !in categories then old(Value(c))
                    else if IndexFor(c) < index then old(Value(c)).(pending := false, period := 0)
                    else old(Value(c)).(pending := false)
      {
        if CategoryAt(index) in categories {
          period[index] := 0;
        }
        index := index + 1;
      }
    }

    /** The arithmetic of the move, every operation in 32 bits. */
    static method Moved(target: word, elapsed: word, every: word) returns (r: word)
      requires every != 0
      ensures r == Wrap(target + PastMultiple(elapsed, every))
    {
      var e: int, p: int := elapsed, every;
      PastMultipleFormula(e, p);
      WrapSum(target, (e / p + 1) * p);
      r := Wrap(target + Wrap((e / p + 1) * p));
    }

    /** Where the next boundary lies, and whether it has to move there. */
    static method NextDue(target: word, every: word, current: word) returns (moves: bool, next: word)
      ensures moves <==> every != 0 && Reached(current, target)
      ensures next == Next(Slot(true, target, every), current).due
      ensures !moves ==> next == target
    {
      moves, next := every != 0 && Reached(current, target), target;
      if moves {
        next := Moved(target, Wrap(current - target), every);
      }
    }

    /** Writing one boundary changes that category alone. */
    method WriteDue(category: Category, target: word)
      requires Valid()
      modifies due
      ensures Valid() && Value(category) == old(Value(category)).(due := target)
      ensures forall c: Category :: c != category ==> Value(c) == old(Value(c))
    {
      due[IndexFor(category)] := target;
    }

    /** Fails, without a change, for a category that is not pending. */
    method NextBoundary(category: Category, current: word) returns (ok: bool, target: word)
      requires Valid()
      modifies due
      ensures Valid() && ok == old(Value(category)).pending
      ensures ok ==> Value(category) == Next(old(Value(category)), current) && target == Value(category).due
      ensures forall c: Category :: c != category || !ok ==> Value(c) == old(Value(c))
    {
      if category !in pending {
        return false, 0;
      }
      var index := IndexFor(category);
      var moves;
      moves, target := NextDue(due[index], period[index], current);
      NextKeepsRest(Value(category), current);
      if moves {
        WriteDue(category, target);
      }
      return true, target;
    }

    /** The categories due at a sample. */
    method DueCategories(sample: word) returns (result: set<Category>)
      requires Valid()
      ensures forall c: Category :: c in result <==> IsDue(Value(c), sample)
    {
      result := {};
      var index := 0;
      while index < 3
        invariant 0 <= index <= 3
        invariant forall c: Category :: c in result <==> IndexFor(c) < index && IsDue(Value(c), sample)
      {
        var c := CategoryAt(index);
        if c in pending && Reached(sample, due[index]) {
          result := result + {c};
        }
        index := index + 1;
      }
    }

    method ConsumeDue(categories: set<Category>, sample: word)
      requires Valid()
      modifies this`pending, due
      ensures Valid()
      ensures forall c: Category :: Value(c) ==
                if c in categories then Consume(old(Value(c)), sample) else old(Value(c))
    {
      var dueNow := DueCategories(sample);
      var chosen := categories * dueNow;
      var index := 0;
      while index < 3
        invariant 0 <= index <= 3
        invariant forall c: Category :: Value(c) ==
                    if c in categories && IndexFor(c) < index then Consume(old(Value(c)), sample) else old(Value(c))
      {
        var c := CategoryAt(index);
        if c in chosen {
          if period[index] != 0 {
            var boundary: int := due[index];
            due[index] := Wrap(boundary + period[index]);
          } else {
            pending := pending - {c};
          }
        }
        index := index + 1;
      }
    }

    /** One turn of the choice: advance the category if it is selected. */
    method Consider(index: nat, categories: set<Category>, current: word, target: word)
      returns (ok: bool, kept: word)
      requires Valid() && index < 3
      modifies due
      ensures ok <==> (CategoryAt(index) in categories ==> CategoryAt(index) in pending)
      ensures ok && CategoryAt(index) in categories ==>
                && due[..] == old(due[..])[index := Next(old(Value(CategoryAt(index))), current).due]
                && kept == Pick(target, due[index])
      ensures ok && CategoryAt(index) !in categories ==> due[..] == old(due[..]) && kept == target
      ensures !ok ==> due[..] == old(due[..])
    {
      var c := CategoryAt(index);
      ok, kept := true, target;
      if c in categories {
        var candidate;
        ok, candidate := NextBoundary(c, current);
        assert forall k :: 0 <= k < 3 ==> due[k] == Value(CategoryAt(k)).due;
        kept := Pick(target, candidate);
      }
    }

    /**
     The target choice of `wait_for_sync_boundary`: advance every selected
     category and keep the latest boundary; fails on a category not pending.
     */
    method LatestTarget(categories: set<Category>, current: word) returns (ok: bool, target: word)
      requires Valid()
      modifies due
      ensures Valid()
      ensures ok <==> forall c: Category :: c in categories ==> old(Value(c)).pending
      ensures ok ==> target == Choice(categories, due[..], current, 3)
      ensures ok ==> (forall c: Category ::
                        Value(c) == if c in categories then Next(old(Value(c)), current) else old(Value(c)))
      ensures !ok ==> (forall c: Category ::
                         Value(c) == old(Value(c)) ||
                         (c in categories && Value(c) == Next(old(Value(c)), current)))
    {
      target := current;
      var index := 0;
      while index < 3
        invariant 0 <= index <= 3 && Valid()
        invariant target == Choice(categories, due[..], current, index)
        invariant forall c: Category :: c in categories && IndexFor(c) < index ==> old(Value(c)).pending
        invariant forall c: Category :: Value(c) ==
                    if c in categories && IndexFor(c) < index then Next(old(Value(c)), current)
                    else old(Value(c))
      {
        ghost var before := due[..];
        ok, target := Consider(index, categories, current, target);
        if !ok {
          return;
        }
        ChoiceFrame(categories, before, due[..], current, index);
        index := index + 1;
      }
      ok := true;
    }

    /** The wait loop: the first sample number it reads that has reached the target, if any. */
    static method AwaitSample(target: word, observed: seq<word>) returns (found: bool, sample: word)
      ensures found <==> exists k :: 0 <= k < |observed| && Reached(observed[k], target)
      ensures found ==> exists k: nat :: FirstReached(observed, target, k) && sample == observed[k]
    {
      found, sample := false, 0;
      var index := 0;
      while index < |observed|
        invariant 0 <= index <= |observed|
        invariant !found && forall k :: 0 <= k < index ==> !Reached(observed[k], target)
      {
        if Reached(observed[index], target) {
          assert FirstReached(observed, target, index);
          return true, observed[index];
        }
        index := index + 1;
      }
    }

    ghost function Slots(): (slots: seq<Slot>)
      requires Valid()
      reads this, due, period
      ensures |slots| == 3
    {
      [Value(Gain), Value(Rf), Value(Fs)]
    }

    /**
     A synchronous update from end to end: choose the target, wait for it while the
     sample numbers `observed` go by, and consume at the sample number `last` read
     after the update. Without a pending boundary for every category, or when no
     sample reaches the target in time, nothing is consumed.
     */
    method WaitAndConsume(categories: set<Category>, current: word, observed: seq<word>, last: word)
      returns (ok: bool)
      requires Valid()
      modifies this`pending, due
      ensures Valid()
      ensures ok <==> && (forall c: Category :: c in categories ==> old(Value(c)).pending)
                      && exists k :: 0 <= k < |observed| &&
                           Reached(observed[k], Target(categories, old(Slots()), current))
      ensures ok ==> (forall c: Category ::
                        Value(c) == if c in categories then Consume(Next(old(Value(c)), current), last)
                                    else old(Value(c)))
      ensures !ok ==> (forall c: Category ::
                         Value(c) == old(Value(c)) ||
                         (c in categories && Value(c) == Next(old(Value(c)), current)))
      ensures ok && Close(categories, Offsets(categories, old(Slots()), current)) &&
              Reached(last, Target(categories, old(Slots()), current)) ==>
                (forall c: Category :: c in categories ==>
                   (ConsumedOnce(Next(old(Value(c)), current), Value(c)) <==>
                    Wrap(last - current) - Offset(old(Value(c)), current) < HALF))
      ensures ok && AllTimely(categories, old(Slots()), current) && Wrap(last - current) < HALF &&
              Reached(last, Target(categories, old(Slots()), current)) ==>
                (forall c: Category :: c in categories ==>
                   ConsumedOnce(Next(old(Value(c)), current), Value(c)))
    {
      ghost var slots := Slots();
      var target;
      ok, target := LatestTarget(categories, current);
      if !ok {
        return;
      }
      ghost var dues := due[..];
      assert dues == DuesAfter(categories, slots, current) by {
        assert forall i :: 0 <= i < 3 ==> dues[i] == Value(CategoryAt(i)).due;
      }
      var sample;
      ok, sample := AwaitSample(target, observed);
      if !ok {
        return;
      }
      UpdateConsumes(categories, slots, dues, current, last);
      ConsumeDue(categories, last);
    }
  }
}
