/** Boundaries of synchronised updates on the circle of 32-bit sample numbers, one category at a time. */
module SyncSlots {
  import opened Word32
  import Indices

  datatype Category = Gain | Rf | Fs

  function CategoryAt(index: nat): Category
    requires index < 3
  {
    if index == 0 then Gain else if index == 1 then Rf else Fs
  }

  function IndexFor(category: Category): (r: nat)
    ensures r < 3 && CategoryAt(r) == category
  {
    match category
    case Gain => 0
    case Rf => 1
    case Fs => 2
  }

  /** One category: whether a boundary is pending, where it lies, and its period (0: once). */
  datatype Slot = Slot(pending: bool, due: word, period: word)

  predicate IsDue(s: Slot, sample: word) {
    s.pending && Reached(sample, s.due)
  }

  /** The least multiple of the period that exceeds the elapsed samples. */
  function PastMultiple(elapsed: nat, period: nat): (r: nat)
    requires period > 0
    ensures elapsed < r <= elapsed + period
    ensures elapsed < period ==> r == period
  {
    if elapsed < period then period else period + PastMultiple(elapsed - period, period)
  }

  /** `openrsp_sync_update_next`: a reached periodic boundary moves past the current sample. */
  function Next(s: Slot, current: word): Slot {
    if s.period != 0 && Reached(current, s.due) then
      s.(due := Wrap(s.due + PastMultiple(Wrap(current - s.due), s.period)))
    else s
  }

  /** Asking for the next boundary changes nothing else of a category. */
  lemma NextKeepsRest(s: Slot, current: word)
    ensures Next(s, current) == s.(due := Next(s, current).due)
  {
  }

  /** `openrsp_sync_update_consume` for one category. */
  function Consume(s: Slot, sample: word): Slot {
    if !IsDue(s, sample) then s
    else if s.period != 0 then s.(due := Wrap(s.due + s.period))
    else s.(pending := false)
  }

  // --------------------------------------------------------------------- next

  /** A boundary on the grid of `period` through `start`. */
  ghost predicate OnGrid(due: int, start: int, period: int) {
    exists k: nat :: due == Wrap(start + k * period)
  }

  lemma GridWitness(due: int, start: int, period: int, k: nat)
    requires due == Wrap(start + k * period)
    ensures OnGrid(due, start, period)
  {
  }

  lemma QuotientStep(elapsed: nat, period: nat)
    requires 0 < period <= elapsed
    ensures elapsed / period == (elapsed - period) / period + 1
  {
    var q, r := (elapsed - period) / period, (elapsed - period) % period;
    assert elapsed - period == q * period + r;
    assert elapsed == (q + 1) * period + r;
    Indices.ModuloUnique(elapsed, q + 1, r, period);
  }

  /** It is the expression that the source computes. */
  lemma {:induction false} PastMultipleFormula(elapsed: nat, period: nat)
    requires period > 0
    ensures PastMultiple(elapsed, period) == (elapsed / period + 1) * period
  {
    if elapsed < period {
      Indices.ModuloUnique(elapsed, 0, elapsed, period);
    } else {
      PastMultipleFormula(elapsed - period, period);
      QuotientStep(elapsed, period);
    }
  }

  /**
   A reached boundary moves to a point of its grid that lies 1 to `period`
   samples after the current one, also across the wrap of the sample number.
   */
  lemma NextAdvances(s: Slot, current: word)
    requires s.period != 0 && Reached(current, s.due)
    ensures OnGrid(Next(s, current).due, s.due, s.period)
    ensures 1 <= Wrap(Next(s, current).due - current) <= s.period
  {
    var elapsed := Wrap(current - s.due);
    MoveOnGrid(s.due, elapsed, s.period);
    AheadOf(s.due, current, elapsed, PastMultiple(elapsed, s.period));
  }

  lemma MoveOnGrid(due: int, elapsed: nat, period: nat)
    requires period > 0
    ensures OnGrid(Wrap(due + PastMultiple(elapsed, period)), due, period)
  {
    PastMultipleFormula(elapsed, period);
    GridWitness(Wrap(due + PastMultiple(elapsed, period)), due, period, elapsed / period + 1);
  }

  /** Moving `step` past a boundary that lies `elapsed` behind ends `step - elapsed` ahead. */
  lemma AheadOf(due: word, current: word, elapsed: nat, step: nat)
    requires elapsed == Wrap(current - due) && elapsed <= step < elapsed + MODULUS
    ensures Wrap(Wrap(due + step) - current) == step - elapsed
  {
    assert Wrap(Wrap(due + step) - current) == Wrap(due + step - current);
  }

  /** A boundary that is not reached, or is not periodic, stays. */
  lemma NextOtherwiseStays(s: Slot, current: word)
    requires s.period == 0 || !Reached(current, s.due)
    ensures Next(s, current) == s
  {
  }

  lemma BehindHalf(ahead: int, current: word, due: word)
    requires ahead == Wrap(due - current) && ahead > 0
    ensures Reached(current, due) <==> ahead > HALF
  {
    assert Wrap(current - due) == MODULUS - ahead;
  }

  /**
   Asking again at the same sample changes nothing exactly if the boundary is not
   moved at all, or the period exceeds the elapsed samples by at most half the
   circle; for periods up to 2^31 that is always so.
   */
  lemma NextIdempotent(s: Slot, current: word)
    ensures Next(Next(s, current), current) == Next(s, current) <==>
            || s.period == 0 || !Reached(current, s.due)
            || s.period - Wrap(current - s.due) <= HALF
    ensures s.period <= HALF ==> Next(Next(s, current), current) == Next(s, current)
  {
    if s.period != 0 && Reached(current, s.due) {
      MovedAhead(s, current);
      NextStays(Next(s, current), current);
    }
  }

  /** How far ahead a moved boundary lies, compared with half the circle. */
  lemma MovedAhead(s: Slot, current: word)
    requires s.period != 0 && Reached(current, s.due)
    ensures 1 <= Wrap(Next(s, current).due - current) <= s.period
    ensures Wrap(Next(s, current).due - current) <= HALF <==> s.period - Wrap(current - s.due) <= HALF
  {
    var elapsed := Wrap(current - s.due);
    AheadOf(s.due, current, elapsed, PastMultiple(elapsed, s.period));
  }

  /** A periodic boundary stays exactly if it is at most half the circle ahead. */
  lemma NextStays(s: Slot, current: word)
    requires s.period != 0 && Wrap(s.due - current) > 0
    ensures Next(s, current) == s <==> Wrap(s.due - current) <= HALF
  {
    BehindHalf(Wrap(s.due - current), current, s.due);
    if Reached(current, s.due) {
      NextMoves(s, current);
    }
  }

  /** A failing input: with a period of 2^31 + 1 the second call moves the boundary again. */
  lemma NextMovesTwice()
    ensures var s := Slot(true, 0, 0x8000_0001);
            && Next(s, 0).due == 0x8000_0001
            && Next(Next(s, 0), 0).due == 2
  {
    assert PastMultiple(0, 0x8000_0001) == 0x8000_0001;
    assert PastMultiple(0x7fff_ffff, 0x8000_0001) == 0x8000_0001;
  }

  /** A move always changes the boundary: it is shorter than a whole turn. */
  lemma NextMoves(s: Slot, current: word)
    requires s.period != 0 && Reached(current, s.due)
    ensures Next(s, current).due != s.due
  {
    var step := PastMultiple(Wrap(current - s.due), s.period);
    assert 0 < step < MODULUS;
  }

  // ---------------------------------------------------------------------- grid

  datatype Op = Advance(at: word) | Take(sample: word)

  function RunOps(s: Slot, ops: seq<Op>): Slot {
    if ops == [] then s
    else
      var before := RunOps(s, ops[..|ops| - 1]);
      match ops[|ops| - 1]
      case Advance(at) => Next(before, at)
      case Take(sample) => Consume(before, sample)
  }

  lemma GridStep(due: word, start: int, period: word, later: word, more: nat)
    requires OnGrid(due, start, period) && later == Wrap(due + more * period)
    ensures OnGrid(later, start, period)
  {
    var k: nat :| due == Wrap(start + k * period);
    JoinMoves(start, k * period, more * period, due, later);
    SumOfProducts(k, more, period);
    GridWitness(later, start, period, k + more);
  }

  /** Two moves around the circle are one. */
  lemma JoinMoves(start: int, first: int, second: int, due: int, later: int)
    requires due == Wrap(start + first) && later == Wrap(due + second)
    ensures later == Wrap(start + (first + second))
  {
    WrapSum(start + first, second);
  }

  lemma SumOfProducts(k: int, more: int, period: int)
    ensures k * period + more * period == (k + more) * period
  {
  }

  lemma AdvanceOnGrid(s: Slot, at: word, start: int)
    requires s.period != 0 && OnGrid(s.due, start, s.period)
    ensures OnGrid(Next(s, at).due, start, s.period)
  {
    if Reached(at, s.due) {
      NextAdvances(s, at);
      var k: nat :| Next(s, at).due == Wrap(s.due + k * s.period);
      GridStep(s.due, start, s.period, Next(s, at).due, k);
    }
  }

  lemma ConsumeOnGrid(s: Slot, sample: word, start: int)
    requires s.period != 0 && OnGrid(s.due, start, s.period)
    ensures OnGrid(Consume(s, sample).due, start, s.period)
  {
    if IsDue(s, sample) {
      GridStep(s.due, start, s.period, Consume(s, sample).due, 1);
    }
  }

  /** However often a periodic boundary is advanced and consumed, it stays on its grid. */
  lemma {:induction false} GridKept(s: Slot, ops: seq<Op>)
    requires s.period != 0
    ensures RunOps(s, ops).period == s.period && RunOps(s, ops).pending == s.pending
    ensures OnGrid(RunOps(s, ops).due, s.due, s.period)
  {
    if ops == [] {
      GridWitness(s.due, s.due, s.period, 0);
    } else {
      var before := ops[..|ops| - 1];
      GridKept(s, before);
      match ops[|ops| - 1] {
        case Advance(at) => AdvanceOnGrid(RunOps(s, before), at, s.due);
        case Take(sample) => ConsumeOnGrid(RunOps(s, before), sample, s.due);
      }
    }
  }

  predicate Fires(op: Op, due: word) {
    op.Take? && Reached(op.sample, due)
  }

  /**
   A boundary without a period fires once: it stays where it is and stays pending
   until the first consume at or after it, and is never due again.
   */
  lemma {:induction false} OneShot(s: Slot, ops: seq<Op>)
    requires s.period == 0
    ensures RunOps(s, ops) == s.(pending := RunOps(s, ops).pending)
    ensures RunOps(s, ops).pending <==>
            s.pending && forall k :: 0 <= k < |ops| ==> !Fires(ops[k], s.due)
  {
    if ops != [] {
      OneShot(s, ops[..|ops| - 1]);
    }
  }

  /** What `openrsp_sync_update_schedule` makes of a category. */
  function Scheduled(s: Slot, named: bool, sample: word, every: word): Slot {
    if named then Slot(true, sample, every) else s
  }

  /**
   Scheduling always arms the named categories, a period of zero included: a named
   one is due exactly from the given sample on, the others as before.
   */
  lemma ScheduleArms(s: Slot, named: bool, sample: word, every: word, x: word)
    ensures IsDue(Scheduled(s, named, sample, every), x) <==>
            if named then Reached(x, sample) else IsDue(s, x)
  {
  }

  /** With a period of zero that boundary fires exactly once, whatever is asked in between. */
  lemma ScheduleZeroFiresOnce(s: Slot, sample: word, ops: seq<Op>, x: word)
    ensures var after := RunOps(Scheduled(s, true, sample, 0), ops);
            IsDue(after, x) <==>
            Reached(x, sample) && forall k :: 0 <= k < |ops| ==> !Fires(ops[k], sample)
  {
    OneShot(Scheduled(s, true, sample, 0), ops);
  }

  /** A consume at each of the first `n` boundaries of a schedule. */
  function Consumes(sample: word, every: word, n: nat): seq<Op> {
    if n == 0 then [] else Consumes(sample, every, n - 1) + [Take(Wrap(sample + (n - 1) * every))]
  }

  /**
   The period counts from the sample given: after a consume at each of the first `n`
   boundaries the next one is due exactly from sample + n * period on.
   */
  lemma {:induction false} ScheduleRepeats(s: Slot, sample: word, every: word, n: nat, x: word)
    requires every != 0
    ensures var after := RunOps(Scheduled(s, true, sample, every), Consumes(sample, every, n));
            && after == Slot(true, Wrap(sample + n * every), every)
            && (IsDue(after, x) <==> Reached(x, Wrap(sample + n * every)))
  {
    if n > 0 {
      var before := Consumes(sample, every, n - 1);
      ScheduleRepeats(s, sample, every, n - 1, x);
      var at := Wrap(sample + (n - 1) * every);
      assert (before + [Take(at)])[..|before|] == before;
      SumOfProducts(n - 1, 1, every);
      JoinMoves(sample, (n - 1) * every, every, at, Wrap(at + every));
    }
  }
}
