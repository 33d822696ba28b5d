/** The promises of the IQ pipeline over every run. */
module PipelineTheorems {
  import opened Wrappers
  import opened Word32
  import opened Pipeline
  import opened PipelineSafety
  import SQ = SlotQueue
  import SR = StreamRing

  /**
   Swap epoch safety. In every interleaving with fewer than 2^32 requests,
   whatever times out or fails: the frame being handed to the application was
   computed only from samples of the epoch that the API shows, on a lane active
   in the shown configuration; every frame ever begun was so when it began; and
   the first frame begun on an active lane in each epoch carries reset.
   */
  lemma SwapEpochSafety(config: Config, actions: seq<Action>, k: Sizes)
    requires k.ring > 0 && Run(config, actions, k).nextSeq <= MODULUS
    ensures var s := Run(config, actions, k);
            && ActiveOk(s.ring.active, s.shown, s.config)
            && forall i :: 0 <= i < |s.log| ==> HeardOk(s.log, i)
  {
    RunSafe(config, actions, k);
  }

  /**
   The commit of a swap writes shared state without the locks of the worker and
   the reader. It is free of races: in every run, while the API thread is
   between the daemon's answer and its resume request, nothing is on either
   wire, queued, or inside the DSP, and the daemon does not stream.
   */
  lemma CommitIsAlone(config: Config, actions: seq<Action>, k: Sizes)
    requires k.ring > 0 && Run(config, actions, k).nextSeq <= MODULUS
    ensures var s := Run(config, actions, k); BetweenEpochs(s.api) ==> Calm(s)
  {
    RunSafe(config, actions, k);
  }

  /**
   A request succeeds only on the daemon's OK to that very request. A reply to
   an earlier request that timed out never completes a later one.
   */
  lemma OwnReplyOnly(config: Config, actions: seq<Action>, k: Sizes)
    requires k.ring > 0 && Run(config, actions, k).nextSeq <= MODULUS
    ensures var s := Run(config, actions, k);
            s.box.received && s.box.ok ==>
              && (s.api.SwapSent? ==> s.api.seqno in s.granted)
              && (s.api.ResumeSent? ==> s.api.seqno in s.granted)
              && (s.updater.Sent? ==> s.updater.seqno in s.granted)
  {
    RunSafe(config, actions, k);
  }

  /** A reply is matched exactly when it is a whole number of 2^32 requests old. */
  lemma ReplyMatches(s: State, r: Response)
    requires !s.box.received && r.seqno <= s.box.waiting
    ensures Deliver(s, r).box.received <==>
            exists turns: nat :: s.box.waiting == r.seqno + turns * MODULUS
  {
    if Wrap(r.seqno) == Wrap(s.box.waiting) {
      var turns := (s.box.waiting - r.seqno) / MODULUS;
      assert s.box.waiting == r.seqno + turns * MODULUS;
    }
    forall turns: nat | s.box.waiting == r.seqno + turns * MODULUS
      ensures Wrap(r.seqno) == Wrap(s.box.waiting)
    {
      WrapTurns(r.seqno, turns);
    }
  }

  // ----------------------------------------------------------- response barrier

  /**
   From position `at` in the order of all frames, the wire carries consecutive
   frames, each reply knows how many frames are ahead of it, and `end` frames
   have been written in all.
   */
  predicate Stamped(down: seq<Message>, at: nat, end: nat) {
    if down == [] then at == end
    else
      match down[0]
      case Iq(frame) => frame.id == at && Stamped(down[1..], at + 1, end)
      case Reply(response) => response.ahead == at && Stamped(down[1..], at, end)
  }

  lemma {:induction false} StampedAppend(down: seq<Message>, at: nat, end: nat, m: Message)
    requires Stamped(down, at, end)
    requires m.Iq? ==> m.frame.id == end
    requires m.Reply? ==> m.response.ahead == end
    ensures Stamped(down + [m], at, if m.Iq? then end + 1 else end)
  {
    if down != [] {
      StampedAppend(down[1..], if down[0].Iq? then at + 1 else at, end, m);
      assert (down + [m])[1..] == down[1..] + [m];
    }
  }

  ghost predicate NumberedFrom(frames: seq<Frame>) {
    forall i :: 0 <= i < |frames| ==> frames[i].id == i
  }

  /** Every written frame is on the wire, in the reader's hand, or accepted, in order. */
  ghost predicate Counted(s: State, k: Sizes) {
    && SQ.Sound(s.slots, k.slots)
    && NumberedFrom(s.slots.accepted)
    && Stamped(s.down, |s.slots.accepted| + (if s.reader.Holding? then 1 else 0), s.produced)
    && (s.reader.Holding? ==> s.reader.frame.id == |s.slots.accepted|)
    && (s.reader.Draining? ==> s.reader.response.ahead == |s.slots.accepted|)
  }

  predicate MovesFrames(a: Action) {
    || a.Produce? || a.Serve? || a.Receive? || a.StoreFrame? || a.Publish?
    || a.TakeFrame? || a.FinishFrame?
  }

  lemma SwapKeepsFrames(s: State, a: Action, k: Sizes)
    requires k.ring > 0 && Enabled(s, a) && SwapAction(a)
    ensures var t := Apply(s, a, k);
            t.down == s.down && t.reader == s.reader && t.slots == s.slots && t.produced == s.produced
  {
  }

  lemma CommitKeepsFrames(s: State, a: Action, k: Sizes)
    requires k.ring > 0 && Enabled(s, a) && CommitAction(a)
    ensures var t := Apply(s, a, k);
            t.down == s.down && t.reader == s.reader && t.slots == s.slots && t.produced == s.produced
  {
  }

  lemma OthersKeepFrames(s: State, a: Action, k: Sizes)
    requires k.ring > 0 && Enabled(s, a) && !ApiAction(a) && !MovesFrames(a)
    ensures var t := Apply(s, a, k);
            t.down == s.down && t.reader == s.reader && t.slots == s.slots && t.produced == s.produced
  {
  }

  lemma WriteCounted(s: State, a: Action, k: Sizes)
    requires k.ring > 0 && Counted(s, k) && Enabled(s, a) && (a.Produce? || a.Serve?)
    ensures Counted(Apply(s, a, k), k)
  {
    var at := |s.slots.accepted| + if s.reader.Holding? then 1 else 0;
    StampedAppend(s.down, at, s.produced, Apply(s, a, k).down[|s.down|]);
  }

  lemma ReadCounted(s: State, a: Action, k: Sizes)
    requires k.ring > 0 && Counted(s, k) && Enabled(s, a) && (a.Receive? || a.Publish?)
    ensures Counted(Apply(s, a, k), k)
  {
  }

  lemma StoreCounted(s: State, k: Sizes)
    requires k.ring > 0 && k.slots >= 2 && Counted(s, k) && Enabled(s, StoreFrame)
    ensures Counted(Apply(s, StoreFrame, k), k)
  {
    SQ.StepSound(s.slots, k.slots, SQ.Arrive(s.reader.frame));
  }

  lemma WorkerCounted(s: State, a: Action, k: Sizes)
    requires k.ring > 0 && k.slots >= 2 && Counted(s, k) && Enabled(s, a)
    requires a.TakeFrame? || a.FinishFrame?
    ensures Counted(Apply(s, a, k), k)
  {
    SQ.StepSound(s.slots, k.slots, if a.TakeFrame? then SQ.Take else SQ.Finish);
  }

  lemma StepCounted(s: State, a: Action, k: Sizes)
    requires k.ring > 0 && k.slots >= 2 && Counted(s, k)
    ensures Counted(Step(s, a, k), k)
  {
    if Enabled(s, a) {
      if a.Produce? || a.Serve? {
        WriteCounted(s, a, k);
      } else if a.Receive? || a.Publish? {
        ReadCounted(s, a, k);
      } else if a.StoreFrame? {
        StoreCounted(s, k);
      } else if MovesFrames(a) {
        WorkerCounted(s, a, k);
      } else if SwapAction(a) {
        SwapKeepsFrames(s, a, k);
      } else if CommitAction(a) {
        CommitKeepsFrames(s, a, k);
      } else {
        OthersKeepFrames(s, a, k);
      }
    }
  }

  lemma {:induction false} RunCounted(config: Config, actions: seq<Action>, k: Sizes)
    requires k.ring > 0 && k.slots >= 2
    ensures Counted(Run(config, actions, k), k)
  {
    if actions != [] {
      var before := actions[..|actions| - 1];
      RunCounted(config, before, k);
      StepCounted(Run(config, before, k), actions[|actions| - 1], k);
    }
  }

  /**
   Response barrier. Whenever the reader may publish a reply, every frame that
   the daemon wrote ahead of it has finished its DSP callback or been counted as
   dropped, and no later frame has been accepted.
   */
  lemma ResponseBarrier(config: Config, actions: seq<Action>, k: Sizes)
    requires k.ring > 0 && k.slots >= 2 && Enabled(Run(config, actions, k), Publish)
    ensures var s := Run(config, actions, k);
            var ahead := s.reader.response.ahead;
            && |s.slots.accepted| == |s.slots.fates| == ahead
            && |s.slots.finished| + s.slots.drops == ahead
            && forall id :: 0 <= id < ahead ==>
                 s.slots.accepted[id].id == id && (s.slots.fates[id].Taken? <==> id in s.slots.finished)
  {
    RunCounted(config, actions, k);
    var s := Run(config, actions, k);
    forall id | 0 <= id < |s.slots.accepted|
      ensures s.slots.fates[id].Taken? <==> id in s.slots.finished
    {
      SQ.DrainedAccounts(s.slots, k.slots, id);
    }
    SQ.DrainedTotal(s.slots, k.slots);
  }

  // ------------------------------------------------------------------ pause and resume

  /** The phases in which the callback thread may begin frames. */
  predicate Delivering(api: Api) {
    api.Ready? || api.Armed? || api.ResumeReady? || api.ResumeSent?
  }

  predicate PausedOk(s: State) {
    s.ring.paused <==> !Delivering(s.api)
  }

  lemma SwapPauses(s: State, a: Action, k: Sizes)
    requires k.ring > 0 && PausedOk(s) && Enabled(s, a) && SwapAction(a)
    ensures PausedOk(Apply(s, a, k))
  {
  }

  lemma CommitPauses(s: State, a: Action, k: Sizes)
    requires k.ring > 0 && PausedOk(s) && Enabled(s, a) && CommitAction(a)
    ensures PausedOk(Apply(s, a, k))
  {
  }

  lemma OthersKeepPause(s: State, a: Action, k: Sizes)
    requires k.ring > 0 && PausedOk(s) && Enabled(s, a) && !ApiAction(a)
    ensures PausedOk(Apply(s, a, k))
  {
  }

  /**
   Delivery is suspended exactly during a swap, over every run: from its first step
   until the new epoch is committed, or until it has failed and delivery is given back.
   */
  lemma {:induction false} PausedExactly(config: Config, actions: seq<Action>, k: Sizes)
    requires k.ring > 0
    ensures var s := Run(config, actions, k);
            s.ring.paused <==>
            !(s.api.Ready? || s.api.Armed? || s.api.ResumeReady? || s.api.ResumeSent?)
  {
    if actions != [] {
      var s, a := Run(config, actions[..|actions| - 1], k), actions[|actions| - 1];
      PausedExactly(config, actions[..|actions| - 1], k);
      if Enabled(s, a) {
        if SwapAction(a) {
          SwapPauses(s, a, k);
        } else if CommitAction(a) {
          CommitPauses(s, a, k);
        } else {
          OthersKeepPause(s, a, k);
        }
      }
    }
  }

  /** The frame was queued last, and with it at least these marks. */
  predicate AckLast(queue: seq<StreamFrame>, lane: Lane, at: word, marks: SR.Flags) {
    && queue != []
    && (var f := queue[|queue| - 1];
        f.lane == lane && f.data == [] && f.first == at && f.flags == marks.Or(f.flags))
  }

  lemma AckQueued(r: SR.Ring<Sample>, lane: Lane, at: word, marks: SR.Flags, capacity: nat)
    requires capacity > 0 && !r.paused
    ensures AckLast(SR.Enqueue(r, capacity, SR.StreamFrame(lane, [], at, false, marks)).queue, lane, at, marks)
  {
  }

  /**
   An update is acknowledged: in every reachable state in which the callbacks are not
   suspended, its marks are queued for the application on the lane and at the sample
   given, as a frame without samples.
   */
  lemma AckIsQueued(config: Config, actions: seq<Action>, lane: Lane, at: word, marks: SR.Flags, k: Sizes)
    requires k.ring > 0 && Enabled(Run(config, actions, k), QueueAck(lane, at, marks))
    requires Delivering(Run(config, actions, k).api)
    ensures AckLast(Run(config, actions + [QueueAck(lane, at, marks)], k).ring.queue, lane, at, marks)
  {
    var longer := actions + [QueueAck(lane, at, marks)];
    assert longer[..|actions|] == actions;
    PausedExactly(config, actions, k);
    AckQueued(Run(config, actions, k).ring, lane, at, marks, k.ring);
  }
}
