/**
 The whole IQ path as one transition system: daemon, both directions of the
 socket, socket reader, DSP worker, application callback thread, the API thread
 that swaps tuner or mode, and an updater (AGC or another API call). Every step
 is one region held under a lock or one unlocked access to shared state, so a
 run of steps is an arbitrary interleaving.
 */
module Pipeline {
  import opened Wrappers
  import opened Word32
  import SQ = SlotQueue
  import SR = StreamRing

  type Lane = SR.Lane

  /** The tuner mode that the API shows or that the daemon streams in. */
  datatype Config = Single(tuner: Lane) | Dual

  /** The lane on which a wire frame is delivered: in single-tuner mode always the active tuner. */
  function LaneFor(config: Config, wire: Lane): Lane {
    if config.Dual? then wire else config.tuner
  }

  predicate ActiveLane(config: Config, lane: Lane) {
    config.Dual? || config.tuner == lane
  }

  /** A frame as the daemon writes it: `id` counts frames written, `epoch` counts swaps. */
  datatype Frame = Frame(id: nat, epoch: nat, config: Config, wire: Lane)

  /** Where a raw sample came from: the swap epoch, its configuration and the receiving lane. */
  datatype Origin = Origin(epoch: nat, config: Config, lane: Lane)

  function OriginOf(f: Frame): Origin {
    Origin(f.epoch, f.config, LaneFor(f.config, f.wire))
  }

  /** An output sample, described by the origins of all raw samples it was computed from. */
  datatype Sample = Sample(sources: set<Origin>)

  type StreamFrame = SR.StreamFrame<Sample>

  datatype Swap = Swap(target: Config, modeSwap: bool)

  datatype Request =
    | SwapReq(seqno: nat, swap: Swap)
    | ResumeReq(seqno: nat)
    | UpdateReq(seqno: nat)

  /** `epoch` and `ahead` record, for the proofs, the daemon's state when it answered. */
  datatype Response = Response(seqno: nat, ok: bool, epoch: nat, ahead: nat)

  datatype Message = Iq(frame: Frame) | Reply(response: Response)

  datatype Daemon = Daemon(
    epoch: nat,
    config: Config,
    thread: bool,   // stream_thread_started
    live: bool,     // the stream thread still produces frames
    paused: bool,   // mode_swap_paused
    start: bool)    // a stream start is due after the response just written

  /**
   How the daemon serves a request. `Stopped` refuses it after the stream was
   stopped; `Halted` answers OK with the stream stopped and its recovery queued.
   */
  datatype Outcome = Accepted | Rejected | Stopped | RolledBack | Restarted | Halted

  datatype Reader = Polling | Holding(frame: Frame) | Draining(response: Response)

  datatype Worker =
    | Idle
    | Entered(frame: Frame)
    | Routed(frame: Frame, lane: Lane)
    | Filtered(output: StreamFrame)
    | Stored(lane: Lane)
    | Returning

  datatype Api =
    | Ready
    | Pausing(swap: Swap)
    | Paused(swap: Swap)
    | SwapReady(swap: Swap, seqno: nat)
    | SwapSent(swap: Swap, seqno: nat)
    | Swapped(swap: Swap, epoch: nat)
    | Repausing(swap: Swap, epoch: nat)
    | Repaused(swap: Swap, epoch: nat)
    | Configured(swap: Swap)
    | RingReset(swap: Swap)
    | Committed
    | Armed
    | ResumeReady(seqno: nat)
    | ResumeSent(seqno: nat)
    | Failed

  datatype Updater = Quiet | Registered(seqno: nat) | Sent(seqno: nat) | Answered

  /** The reply slot guarded by `response_lock`. */
  datatype ReplyBox = ReplyBox(waiting: nat, received: bool, ok: bool, epoch: nat)

  /** One frame begun by the callback thread, and what the API showed at that moment. */
  datatype Heard = Heard(
    lane: Lane, reset: bool, samples: nat, sources: set<Origin>, epoch: nat, config: Config)

  datatype Sizes = Sizes(slots: nat, ring: nat)

  datatype State = State(
    daemon: Daemon,
    produced: nat,
    up: seq<Request>,
    down: seq<Message>,
    granted: set<nat>,              // sequence numbers that the daemon answered with OK
    reader: Reader,
    slots: SQ.Slots<Frame>,
    worker: Worker,
    historyA: set<Origin>,          // origins present in the lane's filter state
    historyB: set<Origin>,
    firstA: bool,
    firstB: bool,
    ring: SR.Ring<Sample>,
    log: seq<Heard>,
    config: Config,                 // what the API shows
    shown: nat,                     // the swap epoch that it belongs to
    nextSeq: nat,
    box: ReplyBox,
    api: Api,
    updater: Updater)
  {
    function History(lane: Lane): set<Origin> {
      if lane.LaneB? then historyB else historyA
    }

    function First(lane: Lane): bool {
      if lane.LaneB? then firstB else firstA
    }
  }

  datatype Action =
    | Produce(wire: Lane) | StreamDies | Serve(outcome: Outcome) | StartStream
    | Receive | StoreFrame | Publish
    | TakeFrame | RouteFrame | FilterFrame(gap: bool, samples: nat, first: word, flags: SR.Flags)
    | QueueFrame | ClearFirst | FinishFrame
    | BeginCallback | Callback(limit: nat) | EndCallback
    | BeginSwap(swap: Swap) | PauseDone | RegisterSwap | SendSwap | SwapAnswered | SwapFails
    | Repause | RepauseDone | SetConfig | ResetRing | ResetCounters | ResumeLocal
    | RegisterResume | SendResume | ResumeReturns | ResumeAfterFailure
    | RegisterUpdate | SendUpdate | UpdateReturns | UpdateEnds
    | QueueAck(lane: Lane, at: word, marks: SR.Flags)

  /** Streaming in the given configuration, nothing in flight: the state after `Init`. */
  function Initial(config: Config): State {
    State(Daemon(0, config, true, true, false, false), 0, [], [], {}, Polling, SQ.Empty(), Idle,
          {}, {}, true, true, SR.Fresh(), [], config, 0, 1, ReplyBox(0, false, false, 0),
          Ready, Quiet)
  }

  // ------------------------------------------------------------------- daemon

  /** What the daemon does with the oldest request, if the outcome is possible. */
  predicate CanServe(d: Daemon, r: Request, outcome: Outcome) {
    match r
    case SwapReq(_, swap) =>
      (match outcome
       case Accepted => swap.modeSwap || d.config.Single?
       case Rejected => true
       case Stopped => true
       case RolledBack => swap.modeSwap && d.thread
       case Restarted => false
       case Halted => false)
    case ResumeReq(_) => (outcome.Accepted? && d.paused) || outcome.Rejected?
    case UpdateReq(_) =>
      || outcome.Accepted? || outcome.Rejected?
      || (d.thread && (outcome.Restarted? || outcome.Stopped? || outcome.Halted?))
  }

  function AfterServe(d: Daemon, r: Request, outcome: Outcome): Daemon
    requires CanServe(d, r, outcome)
  {
    match r
    case SwapReq(_, swap) =>
      (match outcome
       case Accepted => Daemon(d.epoch + 1, swap.target, false, false, d.thread, false)
       case Rejected => d
       case Stopped => d.(thread := false, live := false)
       case RolledBack => d.(thread := false, live := false, paused := false, start := true)
       case Restarted => d
       case Halted => d)
    case ResumeReq(_) => if outcome.Accepted? then d.(paused := false, start := true) else d
    case UpdateReq(_) =>
      if outcome.Restarted? then d.(thread := false, live := false, start := true)
      else if outcome.Stopped? || outcome.Halted? then d.(thread := false, live := false)
      else d
  }

  predicate Grants(outcome: Outcome) {
    outcome.Accepted? || outcome.Restarted? || outcome.Halted?
  }

  function ServeStep(s: State, outcome: Outcome): State
    requires s.up != [] && CanServe(s.daemon, s.up[0], outcome)
  {
    var r := s.up[0];
    var after := AfterServe(s.daemon, r, outcome);
    s.(daemon := after,
       up := s.up[1..],
       granted := if Grants(outcome) then s.granted + {r.seqno} else s.granted,
       down := s.down + [Reply(Response(r.seqno, Grants(outcome), after.epoch, s.produced))])
  }

  // --------------------------------------------------------- client components

  function Deliver(s: State, r: Response): State {
    s.(reader := Polling,
       box := if Wrap(r.seqno) == Wrap(s.box.waiting) then
                ReplyBox(s.box.waiting, true, r.ok, r.epoch)
              else s.box)
  }

  /** The DSP runs on the lane's filter state; its output depends on all it has seen. */
  function FilterStep(s: State, gap: bool, samples: nat, first: word, flags: SR.Flags): State
    requires s.worker.Routed?
  {
    var lane := s.worker.lane;
    var sources := s.History(lane) + {OriginOf(s.worker.frame)};
    var output := SR.StreamFrame(lane, seq(samples, _ => Sample(sources)), first,
                                 s.First(lane) || gap, flags);
    s.(worker := Filtered(output),
       historyA := if lane.LaneB? then s.historyA else sources,
       historyB := if lane.LaneB? then sources else s.historyB)
  }

  function Sources(data: seq<Sample>): set<Origin> {
    if data == [] then {} else data[0].sources + Sources(data[1..])
  }

  function BeginStep(s: State): State
    requires SR.CanBegin(s.ring)
  {
    var f, after := s.ring.queue[0], SR.Begin(s.ring);
    s.(ring := after,
       log := s.log + [Heard(f.lane, after.active.value.reset, |f.data|, Sources(f.data),
                             s.shown, s.config)])
  }

  /** The registration region of `async_request`. */
  function Register(s: State): State {
    s.(nextSeq := s.nextSeq + 1, box := ReplyBox(s.nextSeq, false, false, 0))
  }

  predicate ValidSwap(config: Config, swap: Swap) {
    if swap.modeSwap then config.Dual? != swap.target.Dual?
    else config.Single? && swap.target.Single? && swap.target != config
  }

  /** The API thread or the updater holds `hardware_lock`. */
  predicate ApiHoldsLock(api: Api) {
    !api.Ready? && !api.Pausing? && !api.Paused? && !api.Failed?
  }

  /** The lanes whose epoch a swap restarts: both for a mode swap, else the new tuner's. */
  predicate Restarts(swap: Swap, lane: Lane) {
    swap.modeSwap || ActiveLane(swap.target, lane)
  }

  /** Commit, first part: the shown configuration and freshly configured filters. */
  function SetConfigStep(s: State): State
    requires s.api.Repaused?
  {
    var target := s.api.swap.target;
    s.(config := target, shown := s.api.epoch, api := Configured(s.api.swap),
       historyA := if ActiveLane(target, SR.LaneA) then {} else s.historyA,
       historyB := if ActiveLane(target, SR.LaneB) then {} else s.historyB)
  }

  function ForgetRestarted(r: SR.Ring<Sample>, swap: Swap): SR.Ring<Sample> {
    var a := if Restarts(swap, SR.LaneA) then SR.Forget(r, SR.LaneA) else r;
    if Restarts(swap, SR.LaneB) then SR.Forget(a, SR.LaneB) else a
  }

  // -------------------------------------------------------------------- steps

  predicate Enabled(s: State, a: Action) {
    match a
    case Produce(wire) => s.daemon.live && (s.daemon.config.Single? ==> wire.LaneA?)
    case StreamDies => s.daemon.live
    case Serve(outcome) => s.up != [] && !s.daemon.start && CanServe(s.daemon, s.up[0], outcome)
    case StartStream => s.daemon.start
    case Receive => s.reader.Polling? && s.down != []
    case StoreFrame => s.reader.Holding?
    case Publish => s.reader.Draining? && SQ.Drained(s.slots)
    case TakeFrame => s.worker.Idle? && SQ.CanTake(s.slots)
    case RouteFrame => s.worker.Entered?
    case FilterFrame(_, _, _, _) => s.worker.Routed?
    case QueueFrame => s.worker.Filtered?
    case ClearFirst => s.worker.Stored?
    case FinishFrame => s.worker.Returning? && s.slots.active.Some?
    case BeginCallback => SR.CanBegin(s.ring)
    case Callback(limit) => SR.CanCall(s.ring, limit)
    case EndCallback => SR.CanEnd(s.ring)
    case BeginSwap(swap) => s.api.Ready? && ValidSwap(s.config, swap)
    case PauseDone => s.api.Pausing? && s.ring.active.None?
    case RegisterSwap => s.api.Paused? && s.updater.Quiet?
    case SendSwap => s.api.SwapReady?
    case SwapAnswered => s.api.SwapSent? && s.box.received && s.box.ok
    case SwapFails => s.api.SwapReady? || s.api.SwapSent?
    case Repause => s.api.Swapped?
    case RepauseDone => s.api.Repausing? && s.ring.active.None?
    case SetConfig => s.api.Repaused?
    case ResetRing => s.api.Configured?
    case ResetCounters => s.api.RingReset?
    case ResumeLocal => s.api.Committed?
    case RegisterResume => s.api.Armed?
    case SendResume => s.api.ResumeReady?
    case ResumeReturns => s.api.ResumeReady? || s.api.ResumeSent?
    case ResumeAfterFailure => s.api.Failed?
    case RegisterUpdate => s.updater.Quiet? && !ApiHoldsLock(s.api)
    case SendUpdate => s.updater.Registered?
    case UpdateReturns => s.updater.Registered? || s.updater.Sent?
    case UpdateEnds => s.updater.Answered?
    case QueueAck(_, _, _) => s.updater.Answered?
  }

  function Apply(s: State, a: Action, k: Sizes): State
    requires Enabled(s, a) && k.ring > 0
  {
    match a
    case Produce(wire) =>
      s.(produced := s.produced + 1,
         down := s.down + [Iq(Frame(s.produced, s.daemon.epoch, s.daemon.config, wire))])
    case StreamDies => s.(daemon := s.daemon.(live := false))
    case Serve(outcome) => ServeStep(s, outcome)
    case StartStream => s.(daemon := s.daemon.(start := false, thread := true, live := true))
    case Receive =>
      s.(down := s.down[1..],
         reader := match s.down[0]
                   case Iq(frame) => Holding(frame)
                   case Reply(response) => Draining(response))
    case StoreFrame => s.(slots := SQ.Push(s.slots, k.slots, s.reader.frame), reader := Polling)
    case Publish => Deliver(s, s.reader.response)
    case TakeFrame =>
      s.(worker := Entered(s.slots.accepted[|s.slots.fates|]), slots := SQ.TakeNext(s.slots))
    case RouteFrame =>
      s.(worker := Routed(s.worker.frame, LaneFor(s.config, s.worker.frame.wire)))
    case FilterFrame(gap, samples, first, flags) => FilterStep(s, gap, samples, first, flags)
    case QueueFrame =>
      s.(ring := SR.Enqueue(s.ring, k.ring, s.worker.output), worker := Stored(s.worker.output.lane))
    case ClearFirst =>
      s.(firstA := s.firstA && s.worker.lane.LaneB?,
         firstB := s.firstB && !s.worker.lane.LaneB?, worker := Returning)
    case FinishFrame => s.(slots := SQ.Complete(s.slots), worker := Idle)
    case BeginCallback => BeginStep(s)
    case Callback(limit) =>
      s.(ring := s.ring.(active := Some(SR.Advance(s.ring.active.value, limit))))
    case EndCallback => s.(ring := s.ring.(active := None))
    case BeginSwap(swap) => s.(ring := s.ring.(paused := true), api := Pausing(swap))
    case PauseDone => s.(ring := s.ring.(queue := []), api := Paused(s.api.swap))
    case RegisterSwap => Register(s).(api := SwapReady(s.api.swap, s.nextSeq))
    case SendSwap =>
      s.(up := s.up + [SwapReq(s.api.seqno, s.api.swap)], api := SwapSent(s.api.swap, s.api.seqno))
    case SwapAnswered => s.(api := Swapped(s.api.swap, s.box.epoch))
    case SwapFails => s.(api := Failed)
    case Repause =>
      s.(ring := s.ring.(paused := true), api := Repausing(s.api.swap, s.api.epoch))
    case RepauseDone =>
      s.(ring := s.ring.(queue := []), api := Repaused(s.api.swap, s.api.epoch))
    case SetConfig => SetConfigStep(s)
    case ResetRing =>
      s.(ring := ForgetRestarted(s.ring.(queue := []), s.api.swap), api := RingReset(s.api.swap))
    case ResetCounters =>
      s.(firstA := s.firstA || Restarts(s.api.swap, SR.LaneA),
         firstB := s.firstB || Restarts(s.api.swap, SR.LaneB), api := Committed)
    case ResumeLocal => s.(ring := s.ring.(paused := false), api := Armed)
    case RegisterResume => Register(s).(api := ResumeReady(s.nextSeq))
    case SendResume => s.(up := s.up + [ResumeReq(s.api.seqno)], api := ResumeSent(s.api.seqno))
    case ResumeReturns => s.(api := Ready)
    case ResumeAfterFailure => s.(ring := s.ring.(paused := false), api := Ready)
    case RegisterUpdate => Register(s).(updater := Registered(s.nextSeq))
    case SendUpdate =>
      s.(up := s.up + [UpdateReq(s.updater.seqno)], updater := Sent(s.updater.seqno))
    case UpdateReturns => s.(updater := Answered)
    case UpdateEnds => s.(updater := Quiet)
    case QueueAck(lane, at, marks) =>
      s.(ring := SR.Enqueue(s.ring, k.ring, SR.StreamFrame(lane, [], at, false, marks)))
  }

  /** A thread whose step is not possible does not move. */
  function Step(s: State, a: Action, k: Sizes): State
    requires k.ring > 0
  {
    if Enabled(s, a) then Apply(s, a, k) else s
  }

  function Run(config: Config, actions: seq<Action>, k: Sizes): State
    requires k.ring > 0
  {
    if actions == [] then Initial(config)
    else Step(Run(config, actions[..|actions| - 1], k), actions[|actions| - 1], k)
  }
}
