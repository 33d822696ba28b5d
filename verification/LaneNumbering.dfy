/**
 How the DSP worker numbers the frames of one lane: sequence gaps, sample
 numbers, the reset mark and the change flags of pending updates.
 */
module LaneNumbering {
  import opened Word32
  import opened Wrappers

  /** Updates acknowledged by the daemon that no frame has reported yet. */
  datatype Pending = Pending(gr: word, rf: word, fs: word)

  datatype Numbers = Numbers(
    lastSequence: word,
    sequenceSeen: bool,
    sampleNumber: word,
    firstCallback: bool,
    pending: Pending)

  /** What is submitted to the callback ring for a frame. */
  datatype Submission = Submission(first: word, reset: bool, gr: bool, rf: bool, fs: bool)

  function Fresh(): Numbers {
    Numbers(0, false, 0, true, Pending(0, 0, 0))
  }

  /** The sequence number expected after `last`. */
  function Expected(last: word): word {
    var x: int := last;
    Wrap(x + 1)
  }

  /** How far a sequence number lies after the expected one. */
  function Distance(sequence: word, last: word): word {
    Wrap(sequence - Expected(last))
  }

  predicate Gap(l: Numbers, sequence: word) {
    l.sequenceSeen && sequence != Expected(l.lastSequence)
  }

  /** Frames lost before this one; a backward jump counts as none. */
  function Missing(l: Numbers, sequence: word): word {
    if Gap(l, sequence) && Distance(sequence, l.lastSequence) < HALF then
      Distance(sequence, l.lastSequence)
    else 0
  }

  /** The number reached after the samples of missing frames. */
  function Resume(number: int, missing: int, samples: int): word {
    Wrap(number + Wrap(missing * samples))
  }

  function First(l: Numbers, sequence: word, samples: word): word {
    Resume(l.sampleNumber, Missing(l, sequence), samples)
  }

  /** `consume_one`. */
  function TakeOne(n: word): word {
    if n > 0 then n - 1 else 0
  }

  function AfterFrame(l: Numbers, sequence: word, samples: word): Numbers {
    Numbers(sequence, true, Wrap(First(l, sequence, samples) + samples), false,
            Pending(TakeOne(l.pending.gr), TakeOne(l.pending.rf), TakeOne(l.pending.fs)))
  }

  function Submit(l: Numbers, sequence: word, samples: word): Submission {
    Submission(First(l, sequence, samples), l.firstCallback || Gap(l, sequence),
               l.pending.gr > 0, l.pending.rf > 0, l.pending.fs > 0)
  }

  function AfterUpdate(l: Numbers, gr: bool, rf: bool, fs: bool): Numbers {
    l.(pending := Pending(if gr then Wrap(l.pending.gr + 1) else l.pending.gr,
                          if rf then Wrap(l.pending.rf + 1) else l.pending.rf,
                          if fs then Wrap(l.pending.fs + 1) else l.pending.fs))
  }

  // ------------------------------------------------------------ sample numbers

  /** A frame from the daemon; one that does not fit the buffers is noted but not submitted. */
  datatype Arrival = Arrival(sequence: word, fits: bool)

  function AfterArrival(l: Numbers, a: Arrival, samples: word): Numbers {
    if a.fits then AfterFrame(l, a.sequence, samples)
    else l.(lastSequence := a.sequence, sequenceSeen := true)
  }

  /** The state after frames that yield `n` samples each. */
  function AfterFrames(arrivals: seq<Arrival>, n: word): Numbers {
    if arrivals == [] then Fresh()
    else AfterArrival(AfterFrames(arrivals[..|arrivals| - 1], n), arrivals[|arrivals| - 1], n)
  }

  /** Every gap is forward by less than half the circle. */
  ghost predicate Forward(arrivals: seq<Arrival>) {
    forall k :: 0 < k < |arrivals| ==> Distance(arrivals[k].sequence, arrivals[k - 1].sequence) < HALF
  }

  lemma ForwardPrefix(arrivals: seq<Arrival>, k: nat)
    requires Forward(arrivals) && k <= |arrivals|
    ensures Forward(arrivals[..k])
  {
    var front := arrivals[..k];
    forall j | 0 < j < |front| ensures Distance(front[j].sequence, front[j - 1].sequence) < HALF {
      assert arrivals[j] == front[j] && arrivals[j - 1] == front[j - 1];
    }
  }

  /** Frames that the numbering passes over: those that do not fit, and the gaps before them. */
  function Lost(arrivals: seq<Arrival>): nat {
    if arrivals == [] then 0
    else
      var k := |arrivals| - 1;
      Lost(arrivals[..k]) +
      if arrivals[k].fits then 0
      else if k == 0 then 1
      else 1 + Distance(arrivals[k].sequence, arrivals[k - 1].sequence)
  }

  predicate AnyFits(arrivals: seq<Arrival>) {
    arrivals != [] && (arrivals[|arrivals| - 1].fits || AnyFits(arrivals[..|arrivals| - 1]))
  }

  /** The samples of k frames, counted one frame at a time. */
  function Scaled(n: int, k: int): int
    decreases if k < 0 then -k else k
  {
    if k == 0 then 0 else if k > 0 then Scaled(n, k - 1) + n else Scaled(n, k + 1) - n
  }

  lemma {:induction false} ScaledIsProduct(n: int, k: int)
    ensures Scaled(n, k) == n * k
    decreases if k < 0 then -k else k
  {
    if k > 0 {
      ScaledIsProduct(n, k - 1);
      Distribute(n, k - 1, 1);
    } else if k < 0 {
      ScaledIsProduct(n, k + 1);
      Distribute(n, k, 1);
    }
  }

  lemma Distribute(n: int, x: int, y: int)
    ensures n * x + n * y == n * (x + y)
  {
  }

  /** Products that agree modulo 2^32 may replace each other in a sum. */
  lemma SumOfWraps(known: int, exact: int, wrapped: int, total: int)
    requires Wrap(wrapped) == Wrap(exact) && known + exact == total
    ensures Wrap(Wrap(known) + Wrap(wrapped)) == Wrap(total)
  {
  }

  lemma MissingProduct(n: int, jump: int, missing: int)
    requires missing == Wrap(jump)
    ensures Wrap(missing * n) == Wrap(n * jump)
  {
    WrapProduct(n, jump);
    assert missing * n == n * Wrap(jump);
  }

  /** Adding the samples of the missing frames reaches the closed form. */
  lemma ClosedStep(n: int, before: int, jump: int, missing: int)
    requires missing == Wrap(jump)
    ensures Resume(Wrap(n * before), missing, n) == Wrap(n * (before + jump))
  {
    MissingProduct(n, jump, missing);
    Distribute(n, before, jump);
    SumOfWraps(n * before, n * jump, missing * n, n * (before + jump));
  }

  /** The same with the closed form in terms of sequence numbers. */
  lemma ClosedFirst(n: int, start: int, last: int, sequence: int, number: int, missing: int)
    requires missing == Wrap(sequence - last - 1) && number == Wrap(Scaled(n, last - start + 1))
    ensures Resume(number, missing, n) == Wrap(Scaled(n, sequence - start))
    ensures Wrap(Resume(number, missing, n) + n) == Wrap(Scaled(n, sequence - start + 1))
  {
    ClosedStep(n, last - start + 1, sequence - last - 1, missing);
    ScaledIsProduct(n, last - start + 1);
    ScaledIsProduct(n, sequence - start);
    ScaledIsProduct(n, sequence - start + 1);
    assert (last - start + 1) + (sequence - last - 1) == sequence - start;
    NextNumber(n, sequence - start);
  }

  lemma NextNumber(n: int, d: int)
    ensures Wrap(Wrap(n * d) + n) == Wrap(n * (d + 1))
  {
    Distribute(n, d, 1);
    WrapSum(n * d, n);
  }

  /** A forward distance is the whole gap, none included. */
  lemma MissingIsJump(l: Numbers, sequence: word)
    requires l.sequenceSeen && Distance(sequence, l.lastSequence) < HALF
    ensures Missing(l, sequence) == Wrap(sequence - l.lastSequence - 1)
  {
  }

  /** The lane has seen frames up to `lastSequence` and its numbers follow the closed form. */
  ghost predicate OnGrid(l: Numbers, base: int, n: word) {
    l.sequenceSeen && l.sampleNumber == Wrap(Scaled(n, l.lastSequence - base + 1))
  }

  /** One more frame continues the closed form. */
  lemma OneFrame(l: Numbers, base: int, sequence: word, n: word)
    requires OnGrid(l, base, n) && Distance(sequence, l.lastSequence) < HALF
    ensures OnGrid(AfterFrame(l, sequence, n), base, n)
    ensures Submit(l, sequence, n).first == Wrap(Scaled(n, sequence - base))
  {
    MissingIsJump(l, sequence);
    ClosedFirst(n, base, l.lastSequence, sequence, l.sampleNumber, Missing(l, sequence));
  }

  lemma FirstFrame(sequence: word, n: word)
    ensures OnGrid(AfterFrame(Fresh(), sequence, n), sequence, n)
    ensures Submit(Fresh(), sequence, n).first == 0
  {
    NoneMissing(0, n);
  }

  lemma TurnsProduct(n: int, x: int, turns: int)
    ensures Wrap(n * (x + turns * MODULUS)) == Wrap(n * x)
  {
    Distribute(n, x, turns * MODULUS);
    assert n * (turns * MODULUS) == (n * turns) * MODULUS;
    WrapTurns(n * x, n * turns);
  }

  /** A frame that does not fit moves the base of the closed form past it. */
  lemma OverlongFrame(n: int, base: int, last: word, sequence: word)
    ensures Wrap(Scaled(n, last - base + 1)) ==
            Wrap(Scaled(n, sequence - (base + 1 + Distance(sequence, last)) + 1))
  {
    var x := sequence - (base + 1 + Distance(sequence, last)) + 1;
    var turns := (last - base + 1 - x) / MODULUS;
    DistanceTurns(sequence, last);
    assert last - base + 1 == x + turns * MODULUS;
    TurnsProduct(n, x, turns);
    ScaledIsProduct(n, x);
    ScaledIsProduct(n, x + turns * MODULUS);
  }

  lemma DistanceTurns(sequence: word, last: word)
    ensures (Distance(sequence, last) + 1 - (sequence - last)) % MODULUS == 0
  {
  }

  /** The number that a frame's sequence number is measured from. */
  function Base(arrivals: seq<Arrival>): int
    requires arrivals != []
  {
    arrivals[0].sequence + Lost(arrivals)
  }

  lemma ArrivalOnGrid(l: Numbers, base: int, a: Arrival, n: word)
    requires OnGrid(l, base, n) && Distance(a.sequence, l.lastSequence) < HALF
    ensures OnGrid(AfterArrival(l, a, n),
                   base + if a.fits then 0 else 1 + Distance(a.sequence, l.lastSequence), n)
  {
    if a.fits {
      OneFrame(l, base, a.sequence, n);
    } else {
      OverlongFrame(n, base, l.lastSequence, a.sequence);
    }
  }

  lemma FirstArrivalOnGrid(a: Arrival, n: word)
    ensures OnGrid(AfterArrival(Fresh(), a, n), a.sequence + if a.fits then 0 else 1, n)
  {
    if a.fits {
      FirstFrame(a.sequence, n);
    } else {
      assert a.sequence - (a.sequence + 1) + 1 == 0;
    }
  }

  lemma {:induction false} StaysOnGrid(arrivals: seq<Arrival>, n: word)
    requires arrivals != [] && Forward(arrivals)
    ensures OnGrid(AfterFrames(arrivals, n), Base(arrivals), n)
    ensures AfterFrames(arrivals, n).lastSequence == arrivals[|arrivals| - 1].sequence
  {
    var k := |arrivals| - 1;
    if k == 0 {
      FirstArrivalOnGrid(arrivals[0], n);
    } else {
      ForwardPrefix(arrivals, k);
      StaysOnGrid(arrivals[..k], n);
      ArrivalOnGrid(AfterFrames(arrivals[..k], n), Base(arrivals[..k]), arrivals[k], n);
    }
  }

  lemma {:induction false} FirstCallbackPending(arrivals: seq<Arrival>, n: word)
    ensures AfterFrames(arrivals, n).firstCallback <==> !AnyFits(arrivals)
    ensures AfterFrames(arrivals, n).sequenceSeen <==> arrivals != []
  {
    if arrivals != [] {
      FirstCallbackPending(arrivals[..|arrivals| - 1], n);
    }
  }

  /**
   Closed form: if every frame yields n samples and gaps are forward, a frame's first
   sample number is n times the distance of its sequence number from the first one,
   less the frames lost because they did not fit, modulo 2^32. Exactly the first
   frame submitted and the gap frames carry reset.
   */
  lemma NumberingClosedForm(arrivals: seq<Arrival>, sequence: word, n: word)
    requires Forward(arrivals + [Arrival(sequence, true)])
    ensures var s := Submit(AfterFrames(arrivals, n), sequence, n);
            if arrivals == [] then s.first == 0 && s.reset
            else
              && s.first == Wrap(n * (sequence - arrivals[0].sequence - Lost(arrivals)))
              && (s.reset <==>
                  !AnyFits(arrivals) || sequence != Expected(arrivals[|arrivals| - 1].sequence))
  {
    FirstCallbackPending(arrivals, n);
    if arrivals == [] {
      FirstFrame(sequence, n);
    } else {
      var whole, k := arrivals + [Arrival(sequence, true)], |arrivals|;
      ForwardPrefix(whole, k);
      assert whole[..k] == arrivals && whole[k].sequence == sequence && whole[k - 1] == arrivals[k - 1];
      StaysOnGrid(arrivals, n);
      OneFrame(AfterFrames(arrivals, n), Base(arrivals), sequence, n);
      ScaledIsProduct(n, sequence - arrivals[0].sequence - Lost(arrivals));
      assert sequence - Base(arrivals) == sequence - arrivals[0].sequence - Lost(arrivals);
    }
  }

  /**
   A jump of half the circle or more is not counted: numbering goes on without a
   gap, and agrees with the closed form exactly when the skipped samples are a
   whole number of turns. The frame is still submitted with reset.
   */
  lemma BackwardJump(l: Numbers, sequence: word, n: word)
    requires l.sequenceSeen && Distance(sequence, l.lastSequence) >= HALF
    ensures Submit(l, sequence, n).first == l.sampleNumber && Submit(l, sequence, n).reset
    ensures var skipped := n * Distance(sequence, l.lastSequence);
            Submit(l, sequence, n).first == Wrap(l.sampleNumber + skipped) <==> Wrap(skipped) == 0
  {
    NoneMissing(l.sampleNumber, n);
    SameAfterTurns(l.sampleNumber, n * Distance(sequence, l.lastSequence));
  }

  /** No missing frames add no samples. */
  lemma NoneMissing(number: word, n: int)
    ensures Wrap(number + Wrap(0 * n)) == number
  {
  }

  lemma SameAfterTurns(number: word, skipped: int)
    ensures number == Wrap(number + skipped) <==> Wrap(skipped) == 0
  {
  }

  // -------------------------------------------------------------- change flags

  datatype Step = Frame(arrival: Arrival, samples: word) | Update(gr: bool, rf: bool, fs: bool)

  datatype Change = Gr | Rf | Fs

  function Waiting(p: Pending, c: Change): word {
    match c case Gr => p.gr case Rf => p.rf case Fs => p.fs
  }

  predicate Reports(s: Submission, c: Change) {
    match c case Gr => s.gr case Rf => s.rf case Fs => s.fs
  }

  predicate Adds(step: Step, c: Change) {
    step.Update? && match c case Gr => step.gr case Rf => step.rf case Fs => step.fs
  }

  /** The numbering state with counts of the changes of one kind added and reported so far. */
  datatype Tally = Tally(numbers: Numbers, added: nat, reported: nat)

  function NextTally(t: Tally, step: Step, c: Change): Tally {
    match step
    case Frame(a, samples) =>
      Tally(AfterArrival(t.numbers, a, samples), t.added,
            t.reported + if a.fits && Reports(Submit(t.numbers, a.sequence, samples), c) then 1 else 0)
    case Update(gr, rf, fs) =>
      Tally(AfterUpdate(t.numbers, gr, rf, fs), t.added + if Adds(step, c) then 1 else 0, t.reported)
  }

  function AfterSteps(steps: seq<Step>, c: Change): Tally {
    if steps == [] then Tally(Fresh(), 0, 0)
    else NextTally(AfterSteps(steps[..|steps| - 1], c), steps[|steps| - 1], c)
  }

  /** Added changes are reported or waiting, up to whole turns of the 32-bit counter. */
  ghost predicate Balanced(added: int, reported: int, waiting: word) {
    && (added - reported - waiting) % MODULUS == 0
    && reported + waiting <= added
    && (added < MODULUS ==> reported + waiting == added)
  }

  lemma AddBalances(added: nat, reported: nat, waiting: word)
    requires Balanced(added, reported, waiting)
    ensures Balanced(added + 1, reported, Wrap(waiting + 1))
  {
  }

  lemma ReportBalances(added: nat, reported: nat, waiting: word)
    requires Balanced(added, reported, waiting)
    ensures Balanced(added, reported + if waiting > 0 then 1 else 0, TakeOne(waiting))
  {
  }

  /** A frame takes a change of each kind if one waits, and reports it. */
  lemma FrameTakes(l: Numbers, a: Arrival, samples: word, c: Change)
    ensures Reports(Submit(l, a.sequence, samples), c) <==> Waiting(l.pending, c) > 0
    ensures Waiting(AfterArrival(l, a, samples).pending, c) ==
            if a.fits then TakeOne(Waiting(l.pending, c)) else Waiting(l.pending, c)
  {
  }

  lemma UpdateAdds(l: Numbers, step: Step, c: Change)
    requires step.Update?
    ensures Waiting(AfterUpdate(l, step.gr, step.rf, step.fs).pending, c) ==
            if Adds(step, c) then Wrap(Waiting(l.pending, c) + 1) else Waiting(l.pending, c)
  {
  }

  ghost predicate TallyOk(t: Tally, c: Change) {
    Balanced(t.added, t.reported, Waiting(t.numbers.pending, c))
  }

  lemma NextTallyOk(t: Tally, step: Step, c: Change)
    requires TallyOk(t, c)
    ensures TallyOk(NextTally(t, step, c), c)
  {
    match step
    case Frame(a, samples) =>
      FrameTakes(t.numbers, a, samples, c);
      ReportBalances(t.added, t.reported, Waiting(t.numbers.pending, c));
    case Update(_, _, _) =>
      UpdateAdds(t.numbers, step, c);
      AddBalances(t.added, t.reported, Waiting(t.numbers.pending, c));
  }

  /**
   Over every interleaving of updates and frames, the changes of a kind that were
   reported or are still waiting are those added, up to whole turns of the 32-bit
   counter; without 2^32 updates, exactly. No change is reported twice.
   */
  lemma {:induction false} FlagsConserved(steps: seq<Step>, c: Change)
    ensures var t := AfterSteps(steps, c);
            Balanced(t.added, t.reported, Waiting(t.numbers.pending, c))
  {
    if steps != [] {
      FlagsConserved(steps[..|steps| - 1], c);
      NextTallyOk(AfterSteps(steps[..|steps| - 1], c), steps[|steps| - 1], c);
    }
  }

  // --------------------------------------------------------------------- class

  /** The per-lane fields of the device context that the worker updates. */
  class LaneContext {
    var lastSequence: word
    var sequenceSeen: bool
    var sampleNumber: word
    var firstCallback: bool
    var pendingGr: word
    var pendingRf: word
    var pendingFs: word

    ghost function Value(): Numbers
      reads this
    {
      Numbers(lastSequence, sequenceSeen, sampleNumber, firstCallback,
              Pending(pendingGr, pendingRf, pendingFs))
    }

    constructor ()
      ensures Value() == Fresh()
    {
      lastSequence, sequenceSeen, sampleNumber, firstCallback := 0, false, 0, true;
      pendingGr, pendingRf, pendingFs := 0, 0, 0;
    }

    /** Frames lost before this one, and whether the sequence broke. */
    method CountMissing(sequence: word) returns (missing: word, discontinuity: bool)
      ensures missing == Missing(Value(), sequence) && discontinuity == Gap(Value(), sequence)
    {
      missing, discontinuity := 0, false;
      if sequenceSeen {
        var expected := Expected(lastSequence);
        if sequence != expected {
          var distance := Wrap(sequence - expected);
          discontinuity := true;
          if distance < HALF {
            missing := distance;
          }
        }
      }
    }

    /**
     The numbering part of `daemon_stream_callback`; `samples` counts the DSP's
     output. A frame too long for the buffers is noted but not submitted.
     */
    method NumberFrame(sequence: word, fits: bool, samples: word) returns (s: Option<Submission>)
      modifies this
      ensures Value() == AfterArrival(old(Value()), Arrival(sequence, fits), samples)
      ensures s == if fits then Some(Submit(old(Value()), sequence, samples)) else None
    {
      var missing, discontinuity := CountMissing(sequence);
      NoneMissing(sampleNumber, samples);
      lastSequence, sequenceSeen := sequence, true;
      if !fits {
        return None;
      }
      if missing != 0 {
        sampleNumber := Wrap(sampleNumber + Wrap(missing * samples));
      }
      var gr, rf, fs := pendingGr > 0, pendingRf > 0, pendingFs > 0;
      pendingGr, pendingRf, pendingFs := TakeOne(pendingGr), TakeOne(pendingRf), TakeOne(pendingFs);
      var first := sampleNumber;
      sampleNumber := Wrap(first + samples);
      s := Some(Submission(first, firstCallback || discontinuity, gr, rf, fs));
      firstCallback := false;
    }

    /** The acknowledged part of `Update`. */
    method NoteUpdate(gr: bool, rf: bool, fs: bool)
      modifies this`pendingGr, this`pendingRf, this`pendingFs
      ensures Value() == AfterUpdate(old(Value()), gr, rf, fs)
    {
      if fs { pendingFs := Wrap(pendingFs + 1); }
      if rf { pendingRf := Wrap(pendingRf + 1); }
      if gr { pendingGr := Wrap(pendingGr + 1); }
    }
  }
}
