/**
 The path never blocks itself: from every reachable state with a ready API thread and
 a streaming daemon some continuation completes any valid swap, and some continuation
 makes the application hear further frames, also after refused swaps and updates.
 */
module PipelineProgress {
  import opened Wrappers
  import opened Word32
  import opened Pipeline
  import opened PipelineSafety
  import opened PipelineTheorems
  import SQ = SlotQueue
  import SR = StreamRing

  function RunFrom(s: State, actions: seq<Action>, k: Sizes): State
    requires k.ring > 0
  {
    if actions == [] then s
    else Step(RunFrom(s, actions[..|actions| - 1], k), actions[|actions| - 1], k)
  }

  lemma {:induction false} RunContinues(config: Config, first: seq<Action>, more: seq<Action>, k: Sizes)
    requires k.ring > 0
    ensures Run(config, first + more, k) == RunFrom(Run(config, first, k), more, k)
  {
    if more == [] {
      assert first + more == first;
    } else {
      var n := |more| - 1;
      RunContinues(config, first, more[..n], k);
      assert (first + more)[..|first| + n] == first + more[..n];
    }
  }

  ghost predicate Leads(s: State, t: State, k: Sizes)
    requires k.ring > 0
  {
    exists actions :: RunFrom(s, actions, k) == t
  }

  lemma Here(s: State, k: Sizes)
    requires k.ring > 0
    ensures Leads(s, s, k)
  {
    assert RunFrom(s, [], k) == s;
  }

  lemma On(s: State, t: State, a: Action, k: Sizes)
    requires k.ring > 0 && Leads(s, t, k) && Enabled(t, a)
    ensures Leads(s, Apply(t, a, k), k)
  {
    var actions :| RunFrom(s, actions, k) == t;
    var more := actions + [a];
    assert more[..|more| - 1] == actions;
    assert RunFrom(s, more, k) == Step(t, a, k);
  }

  // ------------------------------------------------------------- small invariants

  predicate DeliveryOk(active: Option<SR.Delivery<Sample>>) {
    active.Some? ==> active.value.offset <= |active.value.frame.data|
  }

  /** A stream is not started while one runs, and neither while a swap keeps it paused; only a thread is live. */
  predicate DaemonTidy(d: Daemon) {
    !(d.thread && d.start) && (d.paused ==> !d.thread && !d.start) && (d.live ==> d.thread)
  }

  /** A delivery is never past its end. */
  predicate Tidy(s: State) {
    DeliveryOk(s.ring.active) && DaemonTidy(s.daemon)
  }

  lemma SwapTidy(s: State, a: Action, k: Sizes)
    requires k.ring > 0 && Tidy(s) && Enabled(s, a) && SwapAction(a)
    ensures Tidy(Apply(s, a, k))
  {
  }

  lemma ResetTidy(s: State, a: Action, k: Sizes)
    requires k.ring > 0 && Tidy(s) && Enabled(s, a) && (a.SetConfig? || a.ResetRing? || a.ResetCounters?)
    ensures Tidy(Apply(s, a, k))
  {
  }

  lemma ResumeTidy(s: State, a: Action, k: Sizes)
    requires k.ring > 0 && Tidy(s) && Enabled(s, a)
    requires CommitAction(a) && !a.SetConfig? && !a.ResetRing? && !a.ResetCounters?
    ensures Tidy(Apply(s, a, k))
  {
  }

  lemma StreamTidy(s: State, a: Action, k: Sizes)
    requires k.ring > 0 && Tidy(s) && Enabled(s, a) && StreamAction(a)
    ensures Tidy(Apply(s, a, k))
  {
  }

  lemma OtherTidy(s: State, a: Action, k: Sizes)
    requires k.ring > 0 && Tidy(s) && Enabled(s, a) && !ApiAction(a) && !StreamAction(a)
    ensures Tidy(Apply(s, a, k))
  {
  }

  lemma {:induction false} RunTidy(config: Config, actions: seq<Action>, k: Sizes)
    requires k.ring > 0
    ensures Tidy(Run(config, actions, k))
  {
    if actions != [] {
      var s, a := Run(config, actions[..|actions| - 1], k), actions[|actions| - 1];
      RunTidy(config, actions[..|actions| - 1], k);
      if Enabled(s, a) {
        if SwapAction(a) {
          SwapTidy(s, a, k);
        } else if a.SetConfig? || a.ResetRing? || a.ResetCounters? {
          ResetTidy(s, a, k);
        } else if CommitAction(a) {
          ResumeTidy(s, a, k);
        } else if StreamAction(a) {
          StreamTidy(s, a, k);
        } else {
          OtherTidy(s, a, k);
        }
      }
    }
  }

  // --------------------------------------------------------------------- settling

  /** The API thread, the daemon and what the API shows; settling leaves them alone. */
  predicate SameControl(s: State, t: State) {
    && t.daemon == s.daemon && t.api == s.api && t.config == s.config && t.shown == s.shown
    && t.log == s.log && t.nextSeq == s.nextSeq && t.ring.paused == s.ring.paused
  }

  lemma EndUpdates(base: State, s: State, k: Sizes) returns (t: State)
    requires k.ring > 0 && Leads(base, s, k)
    ensures Leads(base, t, k) && t == s.(updater := Quiet)
  {
    t := s;
    if t.updater.Registered? || t.updater.Sent? {
      On(base, t, UpdateReturns, k);
      t := Apply(t, UpdateReturns, k);
    }
    if t.updater.Answered? {
      On(base, t, UpdateEnds, k);
      t := Apply(t, UpdateEnds, k);
    }
  }

  /** The application takes the rest of the frame in one callback. */
  lemma FinishDelivery(base: State, s: State, k: Sizes) returns (t: State)
    requires k.ring > 0 && Leads(base, s, k) && DeliveryOk(s.ring.active)
    ensures Leads(base, t, k) && t == s.(ring := s.ring.(active := None))
  {
    t := s;
    if t.ring.active.Some? && t.ring.active.value.more {
      var all := Callback(|t.ring.active.value.frame.data| + 1);
      On(base, t, all, k);
      t := Apply(t, all, k);
    }
    if t.ring.active.Some? {
      On(base, t, EndCallback, k);
      t := Apply(t, EndCallback, k);
    }
  }

  /** What the worker leaves alone. */
  predicate WorkerKeeps(s: State, t: State) {
    && SameControl(s, t) && t.up == s.up && t.down == s.down && t.reader == s.reader
    && t.updater == s.updater && t.ring.active == s.ring.active
    && t.slots.accepted == s.slots.accepted && t.slots.fates == s.slots.fates
  }

  /** The worker finishes the frame that it holds. */
  lemma FinishFilter(base: State, s: State, k: Sizes) returns (t: State)
    requires k.ring > 0 && Leads(base, s, k) && (s.worker.Entered? || s.worker.Routed?)
    ensures Leads(base, t, k) && WorkerKeeps(s, t) && t.worker.Filtered? && t.slots == s.slots
  {
    t := s;
    if t.worker.Entered? {
      On(base, t, RouteFrame, k);
      t := Apply(t, RouteFrame, k);
    }
    var filter := FilterFrame(false, 0, 0, SR.NO_FLAGS);
    On(base, t, filter, k);
    t := Apply(t, filter, k);
  }

  lemma FinishStored(base: State, s: State, k: Sizes) returns (t: State)
    requires k.ring > 0 && Leads(base, s, k) && !s.worker.Idle? && s.slots.active.Some?
    requires !s.worker.Entered? && !s.worker.Routed?
    ensures Leads(base, t, k) && WorkerKeeps(s, t) && t.worker.Idle? && t.slots.active.None?
  {
    t := s;
    if t.worker.Filtered? {
      On(base, t, QueueFrame, k);
      t := Apply(t, QueueFrame, k);
    }
    if t.worker.Stored? {
      On(base, t, ClearFirst, k);
      t := Apply(t, ClearFirst, k);
    }
    On(base, t, FinishFrame, k);
    t := Apply(t, FinishFrame, k);
  }

  lemma FinishWorker(base: State, s: State, k: Sizes) returns (t: State)
    requires k.ring > 0 && Leads(base, s, k) && (s.worker.Idle? <==> s.slots.active.None?)
    ensures Leads(base, t, k) && WorkerKeeps(s, t) && t.worker.Idle? && t.slots.active.None?
  {
    t := s;
    if t.worker.Entered? || t.worker.Routed? {
      t := FinishFilter(base, t, k);
    }
    if !t.worker.Idle? {
      t := FinishStored(base, t, k);
    }
  }

  /** The worker takes every waiting frame, so the drain before a reply comes to an end. */
  lemma {:induction false} DrainSlots(base: State, s: State, k: Sizes) returns (t: State)
    requires k.ring > 0 && Leads(base, s, k) && |s.slots.fates| <= |s.slots.accepted|
    requires s.worker.Idle? <==> s.slots.active.None?
    ensures Leads(base, t, k) && SameControl(s, t) && t.up == s.up && t.down == s.down
    ensures t.reader == s.reader && t.updater == s.updater && t.ring.active == s.ring.active
    ensures SQ.Drained(t.slots) && t.worker.Idle?
    decreases |s.slots.accepted| - |s.slots.fates|
  {
    t := FinishWorker(base, s, k);
    if |t.slots.fates| < |t.slots.accepted| {
      On(base, t, TakeFrame, k);
      var taken := Apply(t, TakeFrame, k);
      t := DrainSlots(base, taken, k);
    }
  }

  /** Everything between the daemon and the callback ring has come to rest. */
  predicate Still(s: State) {
    SQ.Drained(s.slots) && s.worker.Idle? && s.updater.Quiet? && s.ring.active.None?
  }

  /** What the reader holds is stored and processed, or published. */
  lemma FinishReader(base: State, s: State, k: Sizes) returns (t: State)
    requires k.ring > 0 && Leads(base, s, k) && Still(s)
    ensures Leads(base, t, k) && SameControl(s, t) && Still(t) && t.reader.Polling?
    ensures t.up == s.up && t.down == s.down
  {
    t := s;
    if t.reader.Holding? {
      On(base, t, StoreFrame, k);
      t := Apply(t, StoreFrame, k);
      t := DrainSlots(base, t, k);
    } else if t.reader.Draining? {
      On(base, t, Publish, k);
      t := Apply(t, Publish, k);
    }
  }

  /** The reader empties the wire. */
  lemma {:induction false} ReadAll(base: State, s: State, k: Sizes) returns (t: State)
    requires k.ring > 0 && Leads(base, s, k) && Still(s)
    ensures Leads(base, t, k) && SameControl(s, t) && Still(t) && t.reader.Polling?
    ensures t.up == s.up && t.down == []
    decreases |s.down|
  {
    t := FinishReader(base, s, k);
    if t.down != [] {
      On(base, t, Receive, k);
      var read := Apply(t, Receive, k);
      t := ReadAll(base, read, k);
    }
  }

  /** The daemon refuses what is left of earlier, timed-out requests. */
  lemma {:induction false} ServeAll(base: State, s: State, k: Sizes) returns (t: State)
    requires k.ring > 0 && Leads(base, s, k) && Still(s) && !s.daemon.start
    ensures Leads(base, t, k) && SameControl(s, t) && Still(t) && t.up == []
    decreases |s.up|
  {
    t := s;
    if s.up != [] {
      On(base, s, Serve(Rejected), k);
      t := ServeAll(base, Apply(s, Serve(Rejected), k), k);
    }
  }

  /** Nothing is in flight and the API thread may begin a swap. */
  predicate AtRest(s: State) {
    && Still(s) && s.up == [] && s.down == [] && s.reader.Polling? && s.api.Ready?
    && s.daemon.thread && !s.daemon.start && s.daemon.epoch == s.shown && s.daemon.config == s.config
  }

  lemma Settle(s: State, k: Sizes) returns (t: State)
    requires k.ring > 0 && Tidy(s) && |s.slots.fates| <= |s.slots.accepted|
    requires (s.worker.Idle? <==> s.slots.active.None?) && DaemonOk(s.daemon, s.shown, s.config)
    requires s.api.Ready? && s.daemon.thread
    ensures Leads(s, t, k) && SameControl(s, t) && AtRest(t)
  {
    Here(s, k);
    t := EndUpdates(s, s, k);
    t := FinishDelivery(s, t, k);
    t := DrainSlots(s, t, k);
    t := ServeAll(s, t, k);
    t := ReadAll(s, t, k);
  }

  // ------------------------------------------------------------------ the protocol

  lemma Quiesce(base: State, s: State, swap: Swap, k: Sizes) returns (t: State)
    requires k.ring > 0 && Leads(base, s, k) && AtRest(s) && ValidSwap(s.config, swap)
    ensures Leads(base, t, k)
    ensures t == s.(ring := s.ring.(paused := true, queue := []), api := Paused(swap))
  {
    On(base, s, BeginSwap(swap), k);
    t := Apply(s, BeginSwap(swap), k);
    On(base, t, PauseDone, k);
    t := Apply(t, PauseDone, k);
  }

  lemma Ask(base: State, s: State, swap: Swap, k: Sizes) returns (t: State)
    requires k.ring > 0 && Leads(base, s, k) && AtRest(s) && ValidSwap(s.config, swap)
    ensures Leads(base, t, k)
    ensures t == s.(up := [SwapReq(s.nextSeq, swap)], ring := s.ring.(paused := true, queue := []),
                    nextSeq := s.nextSeq + 1, box := ReplyBox(s.nextSeq, false, false, 0),
                    api := SwapSent(swap, s.nextSeq))
  {
    t := Quiesce(base, s, swap, k);
    On(base, t, RegisterSwap, k);
    t := Apply(t, RegisterSwap, k);
    On(base, t, SendSwap, k);
    t := Apply(t, SendSwap, k);
  }

  /** The daemon has accepted the swap and its reply was published. */
  function Answered(s: State, swap: Swap): State {
    s.(daemon := Daemon(s.shown + 1, swap.target, false, false, true, false),
       granted := s.granted + {s.nextSeq}, ring := s.ring.(paused := true, queue := []),
       nextSeq := s.nextSeq + 1, box := ReplyBox(s.nextSeq, true, true, s.shown + 1),
       api := SwapSent(swap, s.nextSeq))
  }

  lemma Answer(base: State, s: State, swap: Swap, k: Sizes)
    requires k.ring > 0 && Leads(base, s, k) && AtRest(s) && ValidSwap(s.config, swap)
    ensures Leads(base, Answered(s, swap), k)
  {
    var t := Ask(base, s, swap, k);
    On(base, t, Serve(Accepted), k);
    t := Apply(t, Serve(Accepted), k);
    On(base, t, Receive, k);
    t := Apply(t, Receive, k);
    On(base, t, Publish, k);
    t := Apply(t, Publish, k);
    assert t == Answered(s, swap);
  }

  lemma Configure(base: State, s: State, swap: Swap, k: Sizes) returns (t: State)
    requires k.ring > 0 && Leads(base, s, k) && AtRest(s) && ValidSwap(s.config, swap)
    ensures Leads(base, t, k)
    ensures t == Answered(s, swap).(
                   config := swap.target, shown := s.shown + 1, api := Configured(swap),
                   historyA := t.historyA, historyB := t.historyB)
    ensures ActiveLane(swap.target, SR.LaneA) ==> t.historyA == {}
    ensures ActiveLane(swap.target, SR.LaneB) ==> t.historyB == {}
  {
    Answer(base, s, swap, k);
    t := Answered(s, swap);
    On(base, t, SwapAnswered, k);
    t := Apply(t, SwapAnswered, k);
    On(base, t, Repause, k);
    t := Apply(t, Repause, k);
    On(base, t, RepauseDone, k);
    t := Apply(t, RepauseDone, k);
    On(base, t, SetConfig, k);
    t := Apply(t, SetConfig, k);
  }

  /** A lane of the new configuration starts afresh. */
  predicate LaneFresh(t: State, lane: Lane) {
    t.History(lane) == {} && t.First(lane)
  }

  /** The new epoch is committed, local delivery resumed, and nothing is in flight. */
  predicate Committed(s: State, t: State, swap: Swap) {
    && Still(t) && t.up == [] && t.down == [] && t.reader.Polling? && t.api.Armed?
    && t.daemon == Daemon(s.shown + 1, swap.target, false, false, true, false)
    && t.config == swap.target && t.shown == s.shown + 1 && t.log == s.log
    && t.ring.queue == [] && !t.ring.paused
    && LaneFresh(t, LaneFor(swap.target, SR.LaneA))
  }

  lemma Commit(base: State, s: State, swap: Swap, k: Sizes) returns (t: State)
    requires k.ring > 0 && Leads(base, s, k) && AtRest(s) && ValidSwap(s.config, swap)
    ensures Leads(base, t, k) && Committed(s, t, swap)
  {
    t := Configure(base, s, swap, k);
    On(base, t, ResetRing, k);
    t := Apply(t, ResetRing, k);
    On(base, t, ResetCounters, k);
    t := Apply(t, ResetCounters, k);
    On(base, t, ResumeLocal, k);
    t := Apply(t, ResumeLocal, k);
  }

  lemma AskResume(base: State, s: State, k: Sizes) returns (t: State)
    requires k.ring > 0 && Leads(base, s, k) && s.api.Armed? && s.up == []
    ensures Leads(base, t, k)
    ensures t == s.(up := [ResumeReq(s.nextSeq)], nextSeq := s.nextSeq + 1,
                    box := ReplyBox(s.nextSeq, false, false, 0), api := ResumeSent(s.nextSeq))
  {
    On(base, s, RegisterResume, k);
    t := Apply(s, RegisterResume, k);
    On(base, t, SendResume, k);
    t := Apply(t, SendResume, k);
  }

  /** The daemon streams the new epoch and the API call has returned. */
  predicate Resumed(t: State, epoch: nat, config: Config, log: seq<Heard>) {
    && Still(t) && t.down == [] && t.reader.Polling? && t.api.Ready?
    && t.daemon == Daemon(epoch, config, true, true, false, false)
    && t.config == config && t.shown == epoch && t.log == log
    && t.ring.queue == [] && !t.ring.paused
    && LaneFresh(t, LaneFor(config, SR.LaneA))
  }

  lemma Resume(base: State, s: State, swap: Swap, k: Sizes) returns (t: State)
    requires k.ring > 0 && Leads(base, s, k) && AtRest(s) && ValidSwap(s.config, swap)
    ensures Leads(base, t, k) && Resumed(t, s.shown + 1, swap.target, s.log)
  {
    t := Commit(base, s, swap, k);
    t := AskResume(base, t, k);
    On(base, t, Serve(Accepted), k);
    t := Apply(t, Serve(Accepted), k);
    On(base, t, StartStream, k);
    t := Apply(t, StartStream, k);
    On(base, t, Receive, k);
    t := Apply(t, Receive, k);
    On(base, t, Publish, k);
    t := Apply(t, Publish, k);
    On(base, t, ResumeReturns, k);
    t := Apply(t, ResumeReturns, k);
  }

  // -------------------------------------------------------------------- delivery

  /** Where the frames of wire lane A are delivered, and where they come from. */
  function MainLane(s: State): Lane {
    LaneFor(s.config, SR.LaneA)
  }

  function MainOrigin(s: State): Origin {
    Origin(s.shown, s.config, MainLane(s))
  }

  /** A live stream in the shown configuration, nothing in flight and nothing queued. */
  predicate Flowing(s: State) {
    && Still(s) && s.down == [] && s.reader.Polling? && s.api.Ready?
    && s.daemon.live && s.daemon.epoch == s.shown && s.daemon.config == s.config
    && s.ring.queue == [] && !s.ring.paused
  }

  /** What the worker has to do with a frame that it took while the stream was flowing. */
  predicate Working(s: State, t: State) {
    && SameControl(s, t) && t.slots.active.Some? && |t.slots.accepted| == |t.slots.fates|
    && t.down == [] && t.reader.Polling? && t.updater.Quiet?
    && t.First(MainLane(s)) == s.First(MainLane(s))
  }

  lemma ToWorker(base: State, s: State, k: Sizes) returns (t: State)
    requires k.ring > 0 && k.slots >= 2 && Leads(base, s, k) && Flowing(s)
    ensures Leads(base, t, k) && Working(s, t) && t.ring == s.ring
    ensures t.worker.Routed? && t.worker.lane == MainLane(s) && OriginOf(t.worker.frame) == MainOrigin(s)
    ensures t.historyA == s.historyA && t.historyB == s.historyB
  {
    On(base, s, Produce(SR.LaneA), k);
    t := Apply(s, Produce(SR.LaneA), k);
    On(base, t, Receive, k);
    t := Apply(t, Receive, k);
    On(base, t, StoreFrame, k);
    t := Apply(t, StoreFrame, k);
    On(base, t, TakeFrame, k);
    t := Apply(t, TakeFrame, k);
    On(base, t, RouteFrame, k);
    t := Apply(t, RouteFrame, k);
  }

  /** The frame that the worker puts into the ring. */
  function Output(s: State, first: word): StreamFrame {
    SR.StreamFrame(MainLane(s), [Sample(s.History(MainLane(s)) + {MainOrigin(s)})], first,
                   s.First(MainLane(s)), SR.NO_FLAGS)
  }

  lemma ToRing(base: State, s: State, first: word, k: Sizes) returns (t: State)
    requires k.ring > 0 && k.slots >= 2 && Leads(base, s, k) && Flowing(s)
    ensures Leads(base, t, k) && SameControl(s, t) && !t.First(MainLane(s))
    ensures t.ring == s.ring.(queue := [Output(s, first)])
    ensures SQ.Drained(t.slots) && t.worker.Idle? && t.down == [] && t.reader.Polling? && t.updater.Quiet?
  {
    t := ToWorker(base, s, k);
    var filter := FilterFrame(false, 1, first, SR.NO_FLAGS);
    On(base, t, filter, k);
    t := Apply(t, filter, k);
    assert t.worker.output.data == Output(s, first).data;
    On(base, t, QueueFrame, k);
    t := Apply(t, QueueFrame, k);
    On(base, t, ClearFirst, k);
    t := Apply(t, ClearFirst, k);
    On(base, t, FinishFrame, k);
    t := Apply(t, FinishFrame, k);
  }

  /** What the application hears of it. */
  function HeardOf(s: State, first: word): Heard {
    var lane := MainLane(s);
    Heard(lane, s.First(lane) || !s.ring.On(lane).seen || first != s.ring.On(lane).next, 1,
          s.History(lane) + {MainOrigin(s)}, s.shown, s.config)
  }

  /** One frame goes all the way, and the stream flows on. */
  lemma PassFrame(base: State, s: State, first: word, k: Sizes) returns (t: State)
    requires k.ring > 0 && k.slots >= 2 && Leads(base, s, k) && Flowing(s)
    ensures Leads(base, t, k) && Flowing(t) && t.config == s.config && t.shown == s.shown
    ensures t.log == s.log + [HeardOf(s, first)]
    ensures !t.First(MainLane(s)) && t.ring.On(MainLane(s)).seen
  {
    t := ToRing(base, s, first, k);
    var data := t.ring.queue[0].data;
    assert data[1..] == [];
    assert Sources(data) == data[0].sources;
    On(base, t, BeginCallback, k);
    t := Apply(t, BeginCallback, k);
    t := FinishDelivery(base, t, k);
  }

  /** The application takes every frame that is queued. */
  lemma {:induction false} EmptyRing(base: State, s: State, k: Sizes) returns (t: State)
    requires k.ring > 0 && Leads(base, s, k) && !s.ring.paused && s.ring.active.None?
    ensures Leads(base, t, k) && s.log <= t.log
    ensures t == s.(ring := t.ring, log := t.log)
    ensures t.ring.queue == [] && !t.ring.paused && t.ring.active.None?
    decreases |s.ring.queue|
  {
    t := s;
    if s.ring.queue != [] {
      On(base, s, BeginCallback, k);
      t := Apply(s, BeginCallback, k);
      t := FinishDelivery(base, t, k);
      t := EmptyRing(base, t, k);
    }
  }

  /** A swap is complete: its epoch is shown and its first frame was begun, with reset. */
  predicate Completes(t: State, epoch: nat, config: Config, log: seq<Heard>) {
    && t.api.Ready? && t.config == config && t.shown == epoch
    && t.log == log + [Heard(LaneFor(config, SR.LaneA), true, 1,
                             {Origin(epoch, config, LaneFor(config, SR.LaneA))}, epoch, config)]
  }

  /** The application has heard more, and last a frame of the active tuner without reset. */
  predicate HearsOn(s: State, t: State) {
    && t.api.Ready? && t.config == s.config && t.shown == s.shown
    && |s.log| + 2 <= |t.log| && s.log <= t.log
    && (var h := t.log[|t.log| - 1];
        h == Heard(LaneFor(s.config, SR.LaneA), false, 1, h.sources, s.shown, s.config))
  }

  /** Two frames in a row: the second continues the first. */
  lemma PassTwo(base: State, s: State, k: Sizes) returns (t: State)
    requires k.ring > 0 && k.slots >= 2 && Leads(base, s, k) && Flowing(s)
    ensures Leads(base, t, k) && HearsOn(s, t)
  {
    t := PassFrame(base, s, 0, k);
    t := PassFrame(base, t, t.ring.On(MainLane(t)).next, k);
  }

  lemma RestHeard(base: State, s: State, k: Sizes) returns (t: State)
    requires k.ring > 0 && k.slots >= 2 && Leads(base, s, k)
    requires AtRest(s) && s.daemon.live && !s.ring.paused
    ensures Leads(base, t, k) && HearsOn(s, t)
  {
    t := EmptyRing(base, s, k);
    t := PassTwo(base, t, k);
  }

  /** A swap request is on its way and the daemon can refuse it in this way. */
  predicate Refusable(s: State, outcome: Outcome) {
    && s.up != [] && s.up[0].SwapReq? && Enabled(s, Serve(outcome))
    && (outcome.Rejected? || outcome.RolledBack?)
  }

  /** The reader publishes a reply that is alone on the wire. */
  lemma ReadReply(base: State, s: State, k: Sizes) returns (t: State)
    requires k.ring > 0 && Leads(base, s, k) && SQ.Drained(s.slots) && s.reader.Polling?
    requires |s.down| == 1 && s.down[0].Reply?
    ensures Leads(base, t, k) && t == s.(down := [], box := t.box)
  {
    On(base, s, Receive, k);
    t := Apply(s, Receive, k);
    On(base, t, Publish, k);
    t := Apply(t, Publish, k);
  }

  /** The API thread notes the failure and gives delivery back. */
  lemma GiveBack(base: State, s: State, k: Sizes) returns (t: State)
    requires k.ring > 0 && Leads(base, s, k) && s.api.SwapSent?
    ensures Leads(base, t, k) && t == s.(ring := s.ring.(paused := false), api := Ready)
  {
    On(base, s, SwapFails, k);
    t := Apply(s, SwapFails, k);
    On(base, t, ResumeAfterFailure, k);
    t := Apply(t, ResumeAfterFailure, k);
  }

  /** What is left to do after the refusal. */
  lemma Refusal(base: State, s: State, k: Sizes) returns (t: State)
    requires k.ring > 0 && Leads(base, s, k) && Still(s) && s.reader.Polling? && s.api.SwapSent?
    requires |s.down| == 1 && s.down[0].Reply? && (s.daemon.live || s.daemon.start)
    requires s.daemon.epoch == s.shown && s.daemon.config == s.config && s.ring.queue == []
    ensures Leads(base, t, k) && Flowing(t)
    ensures t.config == s.config && t.shown == s.shown && t.log == s.log
  {
    t := ReadReply(base, s, k);
    if !t.daemon.live {
      On(base, t, StartStream, k);
      t := Apply(t, StartStream, k);
    }
    t := GiveBack(base, t, k);
  }

  lemma RefusalHeard(base: State, s: State, swap: Swap, outcome: Outcome, k: Sizes)
    returns (asked: State, t: State)
    requires k.ring > 0 && k.slots >= 2 && Leads(base, s, k)
    requires AtRest(s) && s.daemon.live && ValidSwap(s.config, swap)
    requires outcome.Rejected? || (outcome.RolledBack? && swap.modeSwap)
    ensures Leads(base, asked, k) && Refusable(asked, outcome)
    ensures Leads(Apply(asked, Serve(outcome), k), t, k) && HearsOn(s, t)
  {
    asked := Ask(base, s, swap, k);
    var served := Apply(asked, Serve(outcome), k);
    Here(served, k);
    t := Refusal(served, served, k);
    t := PassTwo(served, t, k);
  }

  /** An update request is on its way and the daemon can serve it and stream on. */
  predicate Updatable(s: State, outcome: Outcome) {
    && s.up != [] && s.up[0].UpdateReq? && Enabled(s, Serve(outcome))
    && (outcome.Accepted? || outcome.Rejected? || outcome.Restarted?)
  }

  lemma AskUpdate(base: State, s: State, k: Sizes) returns (t: State)
    requires k.ring > 0 && Leads(base, s, k) && AtRest(s)
    ensures Leads(base, t, k)
    ensures t == s.(up := [UpdateReq(s.nextSeq)], nextSeq := s.nextSeq + 1,
                    box := ReplyBox(s.nextSeq, false, false, 0), updater := Sent(s.nextSeq))
  {
    On(base, s, RegisterUpdate, k);
    t := Apply(s, RegisterUpdate, k);
    On(base, t, SendUpdate, k);
    t := Apply(t, SendUpdate, k);
  }

  /** What is left to do after the daemon has served it. */
  lemma Updated(base: State, s: State, k: Sizes) returns (t: State)
    requires k.ring > 0 && Leads(base, s, k) && Still(s.(updater := Quiet)) && s.reader.Polling? && s.api.Ready?
    requires |s.down| == 1 && s.down[0].Reply? && (s.daemon.live || s.daemon.start)
    requires s.daemon.epoch == s.shown && s.daemon.config == s.config && s.ring.queue == [] && !s.ring.paused
    ensures Leads(base, t, k) && Flowing(t)
    ensures t.config == s.config && t.shown == s.shown && t.log == s.log
  {
    t := ReadReply(base, s, k);
    if !t.daemon.live {
      On(base, t, StartStream, k);
      t := Apply(t, StartStream, k);
    }
    t := EndUpdates(base, t, k);
  }

  lemma UpdateHeard(base: State, s: State, outcome: Outcome, k: Sizes) returns (asked: State, t: State)
    requires k.ring > 0 && k.slots >= 2 && Leads(base, s, k)
    requires AtRest(s) && s.daemon.live && !s.ring.paused
    requires outcome.Accepted? || outcome.Rejected? || outcome.Restarted?
    ensures Leads(base, asked, k) && Updatable(asked, outcome)
    ensures Leads(Apply(asked, Serve(outcome), k), t, k) && HearsOn(s, t)
  {
    asked := EmptyRing(base, s, k);
    asked := AskUpdate(base, asked, k);
    var served := Apply(asked, Serve(outcome), k);
    Here(served, k);
    t := Updated(served, served, k);
    t := PassTwo(served, t, k);
  }

  lemma SwapHeard(base: State, s: State, swap: Swap, k: Sizes) returns (t: State)
    requires k.ring > 0 && k.slots >= 2 && Leads(base, s, k) && AtRest(s) && ValidSwap(s.config, swap)
    ensures Leads(base, t, k) && Completes(t, s.shown + 1, swap.target, s.log)
  {
    var resumed := Resume(base, s, swap, k);
    var lane := LaneFor(swap.target, SR.LaneA);
    assert resumed.History(lane) + {MainOrigin(resumed)} == {Origin(s.shown + 1, swap.target, lane)};
    t := PassFrame(base, resumed, 0, k);
  }

  // -------------------------------------------------------------------- theorems

  lemma LedTo(config: Config, actions: seq<Action>, t: State, k: Sizes) returns (more: seq<Action>)
    requires k.ring > 0 && Leads(Run(config, actions, k), t, k)
    ensures Run(config, actions + more, k) == t
  {
    more :| RunFrom(Run(config, actions, k), more, k) == t;
    RunContinues(config, actions, more, k);
  }

  /** Every reachable state with a ready API thread and a running stream thread can come to rest. */
  lemma RunSettles(config: Config, actions: seq<Action>, k: Sizes) returns (t: State)
    requires k.ring > 0 && k.slots >= 2 && Run(config, actions, k).nextSeq <= MODULUS
    requires Run(config, actions, k).api.Ready? && Run(config, actions, k).daemon.thread
    ensures Leads(Run(config, actions, k), t, k) && SameControl(Run(config, actions, k), t) && AtRest(t)
  {
    RunSafe(config, actions, k);
    RunTidy(config, actions, k);
    RunCounted(config, actions, k);
    t := Settle(Run(config, actions, k), k);
  }

  lemma RunSwaps(config: Config, actions: seq<Action>, swap: Swap, k: Sizes) returns (t: State)
    requires k.ring > 0 && k.slots >= 2 && Run(config, actions, k).nextSeq <= MODULUS
    requires Run(config, actions, k).api.Ready? && Run(config, actions, k).daemon.thread
    requires ValidSwap(Run(config, actions, k).config, swap)
    ensures var s := Run(config, actions, k);
            Leads(s, t, k) && Completes(t, s.shown + 1, swap.target, s.log)
  {
    var rest := RunSettles(config, actions, k);
    t := SwapHeard(Run(config, actions, k), rest, swap, k);
  }

  /**
   From every reachable state with a ready API thread and a running stream thread,
   whatever is in flight, there is a continuation in which the swap completes: the
   drain before a reply, the pause of the callbacks and the publication of replies
   cannot block each other.
   */
  lemma SwapAlwaysPossible(config: Config, actions: seq<Action>, swap: Swap, k: Sizes)
    requires k.ring > 0 && k.slots >= 2 && Run(config, actions, k).nextSeq <= MODULUS
    requires Run(config, actions, k).api.Ready? && Run(config, actions, k).daemon.thread
    requires ValidSwap(Run(config, actions, k).config, swap)
    ensures var s := Run(config, actions, k);
            exists more :: Completes(Run(config, actions + more, k), s.shown + 1, swap.target, s.log)
  {
    var t := RunSwaps(config, actions, swap, k);
    var more := LedTo(config, actions, t, k);
  }

  lemma RunHears(config: Config, actions: seq<Action>, k: Sizes) returns (t: State)
    requires k.ring > 0 && k.slots >= 2 && Run(config, actions, k).nextSeq <= MODULUS
    requires Run(config, actions, k).api.Ready? && Run(config, actions, k).daemon.live
    ensures Leads(Run(config, actions, k), t, k) && HearsOn(Run(config, actions, k), t)
  {
    RunTidy(config, actions, k);
    PausedExactly(config, actions, k);
    var rest := RunSettles(config, actions, k);
    t := RestHeard(Run(config, actions, k), rest, k);
  }

  /**
   Delivery never dries up: from every reachable state with a ready API thread and a
   live stream, also after swaps that failed, there is a continuation in which the
   application hears further frames of the shown epoch, and hears them without reset.
   */
  lemma StreamAlwaysHeard(config: Config, actions: seq<Action>, k: Sizes)
    requires k.ring > 0 && k.slots >= 2 && Run(config, actions, k).nextSeq <= MODULUS
    requires Run(config, actions, k).api.Ready? && Run(config, actions, k).daemon.live
    ensures exists more :: HearsOn(Run(config, actions, k), Run(config, actions + more, k))
  {
    var t := RunHears(config, actions, k);
    var more := LedTo(config, actions, t, k);
  }

  lemma RunThrough(config: Config, actions: seq<Action>, asked: State, a: Action, t: State, k: Sizes)
    returns (before: seq<Action>, after: seq<Action>)
    requires k.ring > 0 && Leads(Run(config, actions, k), asked, k) && Enabled(asked, a)
    requires Leads(Apply(asked, a, k), t, k)
    ensures Run(config, actions + before, k) == asked
    ensures Run(config, actions + before + [a] + after, k) == t
  {
    before := LedTo(config, actions, asked, k);
    var served := actions + before + [a];
    assert served[..|served| - 1] == actions + before;
    after := LedTo(config, served, t, k);
  }

  /**
   A refused swap does no harm: from every reachable state with a ready API thread and
   a live stream, a swap that the daemon then rejects or rolls back can end with the
   application hearing the old configuration on.
   */
  lemma RefusedSwapHarmless(config: Config, actions: seq<Action>, swap: Swap, outcome: Outcome, k: Sizes)
    requires k.ring > 0 && k.slots >= 2 && Run(config, actions, k).nextSeq <= MODULUS
    requires Run(config, actions, k).api.Ready? && Run(config, actions, k).daemon.live
    requires ValidSwap(Run(config, actions, k).config, swap)
    requires outcome.Rejected? || (outcome.RolledBack? && swap.modeSwap)
    ensures exists before, after ::
              && Refusable(Run(config, actions + before, k), outcome)
              && HearsOn(Run(config, actions, k), Run(config, actions + before + [Serve(outcome)] + after, k))
  {
    var s := Run(config, actions, k);
    RunTidy(config, actions, k);
    var rest := RunSettles(config, actions, k);
    var asked, t := RefusalHeard(s, rest, swap, outcome, k);
    assert HearsOn(s, t);
    var before, after := RunThrough(config, actions, asked, Serve(outcome), t, k);
  }

  /** The same for an update that the daemon accepts, rejects, or restarts the stream for. */
  lemma UpdateHarmless(config: Config, actions: seq<Action>, outcome: Outcome, k: Sizes)
    requires k.ring > 0 && k.slots >= 2 && Run(config, actions, k).nextSeq <= MODULUS
    requires Run(config, actions, k).api.Ready? && Run(config, actions, k).daemon.live
    requires outcome.Accepted? || outcome.Rejected? || outcome.Restarted?
    ensures exists before, after ::
              && Updatable(Run(config, actions + before, k), outcome)
              && HearsOn(Run(config, actions, k), Run(config, actions + before + [Serve(outcome)] + after, k))
  {
    var s := Run(config, actions, k);
    RunTidy(config, actions, k);
    PausedExactly(config, actions, k);
    var rest := RunSettles(config, actions, k);
    var asked, t := UpdateHeard(s, rest, outcome, k);
    assert HearsOn(s, t);
    var before, after := RunThrough(config, actions, asked, Serve(outcome), t, k);
  }

  /** In particular every valid swap can be completed from the start. */
  lemma SwapCompletes(config: Config, swap: Swap, k: Sizes)
    requires k.ring > 0 && k.slots >= 2 && ValidSwap(config, swap)
    ensures exists actions :: Completes(Run(config, actions, k), 1, swap.target, [])
  {
    SwapAlwaysPossible(config, [], swap, k);
    var more :| Completes(Run(config, [] + more, k), 1, swap.target, []);
    assert [] + more == more;
  }
}
