/** What every interleaving of the pipeline keeps, and the theorems that follow from it. */
module PipelineSafety {
  import opened Wrappers
  import opened Word32
  import opened Pipeline
  import SQ = SlotQueue
  import SR = StreamRing

  // --------------------------------------------------------------- invariants

  predicate FrameOk(f: Frame, shown: nat, config: Config) {
    f.epoch == shown && f.config == config
  }

  /** Every sample was computed from the shown epoch and from its own lane alone. */
  ghost predicate OutputOk(f: StreamFrame, shown: nat, config: Config) {
    && (forall k :: 0 <= k < |f.data| ==> f.data[k].sources == {Origin(shown, config, f.lane)})
    && (f.data != [] ==> ActiveLane(config, f.lane))
  }

  ghost predicate DownOk(down: seq<Message>, shown: nat, config: Config) {
    forall i :: 0 <= i < |down| && down[i].Iq? ==> FrameOk(down[i].frame, shown, config)
  }

  ghost predicate SlotsOk(slots: SQ.Slots<Frame>, shown: nat, config: Config) {
    forall i :: |slots.fates| <= i < |slots.accepted| ==> FrameOk(slots.accepted[i], shown, config)
  }

  ghost predicate WorkerOk(worker: Worker, shown: nat, config: Config) {
    match worker
    case Entered(f) => FrameOk(f, shown, config)
    case Routed(f, lane) => FrameOk(f, shown, config) && lane == LaneFor(config, f.wire)
    case Filtered(output) => OutputOk(output, shown, config)
    case _ => true
  }

  ghost predicate QueueOk(queue: seq<StreamFrame>, shown: nat, config: Config) {
    forall i :: 0 <= i < |queue| ==> OutputOk(queue[i], shown, config)
  }

  ghost predicate ActiveOk(active: Option<SR.Delivery<Sample>>, shown: nat, config: Config) {
    active.Some? ==> OutputOk(active.value.frame, shown, config)
  }

  predicate HistoryOk(historyA: set<Origin>, historyB: set<Origin>, shown: nat, config: Config) {
    && (ActiveLane(config, SR.LaneA) ==> historyA <= {Origin(shown, config, SR.LaneA)})
    && (ActiveLane(config, SR.LaneB) ==> historyB <= {Origin(shown, config, SR.LaneB)})
  }

  /** Everything in flight was produced in the epoch that the API shows. */
  ghost predicate FlightOk(s: State) {
    && DownOk(s.down, s.shown, s.config)
    && (s.reader.Holding? ==> FrameOk(s.reader.frame, s.shown, s.config))
    && SlotsOk(s.slots, s.shown, s.config)
    && WorkerOk(s.worker, s.shown, s.config)
    && QueueOk(s.ring.queue, s.shown, s.config)
    && ActiveOk(s.ring.active, s.shown, s.config)
    && HistoryOk(s.historyA, s.historyB, s.shown, s.config)
  }

  /** A daemon that streams, or is about to, streams the shown epoch. */
  predicate DaemonOk(d: Daemon, shown: nat, config: Config) {
    && (d.thread || d.start ==> d.epoch == shown && d.config == config)
    && (d.live ==> d.thread)
  }

  /** A resume request that the daemon has yet to see would start the shown epoch. */
  ghost predicate ResumeOk(up: seq<Request>, d: Daemon, shown: nat, config: Config) {
    forall i :: 0 <= i < |up| && up[i].ResumeReq? ==>
      i == 0 && d.epoch == shown && d.config == config
  }

  /** Pending requests carry increasing sequence numbers below `limit`. */
  ghost predicate UpOk(up: seq<Request>, limit: nat) {
    && (forall i :: 0 <= i < |up| ==> up[i].seqno < limit)
    && (forall i, j :: 0 <= i < j < |up| ==> up[i].seqno < up[j].seqno)
  }

  /** Replies in flight are older than `limit`, and an OK reply was granted. */
  predicate ReplyOk(r: Response, limit: nat, granted: set<nat>) {
    r.seqno < limit && (r.ok ==> r.seqno in granted)
  }

  ghost predicate RepliesOk(down: seq<Message>, reader: Reader, limit: nat, granted: set<nat>) {
    && (forall i :: 0 <= i < |down| && down[i].Reply? ==> ReplyOk(down[i].response, limit, granted))
    && (reader.Draining? ==> ReplyOk(reader.response, limit, granted))
  }

  /** The sequence number of a request that is registered but not yet written to the socket. */
  function Unsent(api: Api, updater: Updater): Option<nat> {
    if api.SwapReady? then Some(api.seqno)
    else if api.ResumeReady? then Some(api.seqno)
    else if updater.Registered? then Some(updater.seqno)
    else None
  }

  /** The smallest sequence number that the daemon has not answered. */
  function Oldest(up: seq<Request>, api: Api, updater: Updater, nextSeq: nat): nat {
    if up != [] then up[0].seqno
    else if Unsent(api, updater).Some? then Unsent(api, updater).value
    else nextSeq
  }

  ghost predicate SequenceOk(s: State) {
    && (Unsent(s.api, s.updater).Some? ==>
          Unsent(s.api, s.updater).value < s.nextSeq && UpOk(s.up, Unsent(s.api, s.updater).value))
    && UpOk(s.up, s.nextSeq)
    && RepliesOk(s.down, s.reader, Oldest(s.up, s.api, s.updater, s.nextSeq), s.granted)
    && s.box.waiting < s.nextSeq
    && (s.box.received && s.box.ok ==> s.box.waiting in s.granted)
  }

  /** The daemon finished a swap and will stay silent until it is asked to resume. */
  predicate Settled(d: Daemon, up: seq<Request>, swap: Swap, epoch: nat) {
    && up == []
    && !d.thread && !d.start
    && d.epoch == epoch && d.config == swap.target
  }

  /** Nothing moves between the daemon's stream and the callback ring. */
  predicate Calm(s: State) {
    && s.up == [] && s.down == [] && s.reader.Polling?
    && SQ.Drained(s.slots) && s.worker.Idle?
    && !s.daemon.thread && !s.daemon.start
  }

  predicate GrantsRequest(m: Message, q: nat) {
    m.Reply? && m.response.seqno == q && m.response.ok
  }

  /** The granted reply to request `q`, if it is on the wire, is the last message there. */
  ghost predicate WireEndsWith(
    down: seq<Message>, d: Daemon, up: seq<Request>, swap: Swap, q: nat)
  {
    forall i :: 0 <= i < |down| && GrantsRequest(down[i], q) ==>
      i == |down| - 1 && Settled(d, up, swap, down[i].response.epoch)
  }

  ghost predicate AwaitsSwap(s: State, swap: Swap, q: nat) {
    && s.box.waiting == q
    && (s.up != [] ==> s.up[|s.up| - 1] == SwapReq(q, swap) && !s.box.received)
    && WireEndsWith(s.down, s.daemon, s.up, swap, q)
    && (s.reader.Draining? && s.reader.response.seqno == q && s.reader.response.ok ==>
          s.down == [] && Settled(s.daemon, s.up, swap, s.reader.response.epoch))
    && (s.box.received && s.box.ok ==> Calm(s) && Settled(s.daemon, s.up, swap, s.box.epoch))
  }

  predicate Silenced(api: Api) {
    !api.Ready? && !api.Pausing? && !api.Armed? && !api.ResumeReady? && !api.ResumeSent?
  }

  /** The phases of a swap in which nothing is in flight. */
  predicate BetweenEpochs(api: Api) {
    || api.Swapped? || api.Repausing? || api.Repaused? || api.Configured? || api.RingReset?
    || api.Committed? || api.Armed? || api.ResumeReady?
  }

  /** What the API thread's position in a swap guarantees. */
  ghost predicate PhaseOk(s: State) {
    && (Silenced(s.api) ==> s.ring.paused && s.ring.queue == [] && s.ring.active.None?)
    && (s.api.Pausing? ==> s.ring.paused)
    && (ApiHoldsLock(s.api) ==> s.updater.Quiet?)
    && (s.worker.Idle? <==> s.slots.active.None?)
    && (BetweenEpochs(s.api) ==> Calm(s))
    && match s.api
       case SwapReady(_, q) => s.box.waiting == q && !s.box.received
       case SwapSent(swap, q) => AwaitsSwap(s, swap, q)
       case Swapped(swap, e) => Settled(s.daemon, s.up, swap, e)
       case Repausing(swap, e) => Settled(s.daemon, s.up, swap, e)
       case Repaused(swap, e) => Settled(s.daemon, s.up, swap, e)
       case Configured(swap) => Settled(s.daemon, s.up, swap, s.shown) && s.config == swap.target
       case RingReset(_) => s.daemon.epoch == s.shown && s.daemon.config == s.config
       case Committed => s.daemon.epoch == s.shown && s.daemon.config == s.config
       case Armed => s.daemon.epoch == s.shown && s.daemon.config == s.config
       case ResumeReady(q) =>
         s.daemon.epoch == s.shown && s.daemon.config == s.config && s.box.waiting == q
       case ResumeSent(q) => s.box.waiting == q
       case _ => true
  }

  predicate UpdaterOk(updater: Updater, box: ReplyBox) {
    match updater
    case Registered(q) => box.waiting == q
    case Sent(q) => box.waiting == q
    case _ => true
  }

  ghost predicate HeardBefore(log: seq<Heard>, k: nat, lane: Lane, epoch: nat) {
    exists j :: 0 <= j < k && j < |log| && log[j].lane == lane && log[j].epoch == epoch
  }

  /** A lane that needs no restart has already been heard in the shown epoch. */
  ghost predicate LaneSeenOk(
    lane: Lane, state: SR.LaneState, log: seq<Heard>, shown: nat, config: Config)
  {
    ActiveLane(config, lane) && state.seen ==> HeardBefore(log, |log|, lane, shown)
  }

  ghost predicate SeenOk(s: State) {
    !s.api.Configured? ==>
      && LaneSeenOk(SR.LaneA, s.ring.laneA, s.log, s.shown, s.config)
      && LaneSeenOk(SR.LaneB, s.ring.laneB, s.log, s.shown, s.config)
  }

  /** The samples begun came from the shown epoch and from their own, active lane alone. */
  predicate Pure(h: Heard) {
    h.samples > 0 ==>
      ActiveLane(h.config, h.lane) && h.sources == {Origin(h.epoch, h.config, h.lane)}
  }

  ghost predicate HeardOk(log: seq<Heard>, k: nat)
    requires k < |log|
  {
    var h := log[k];
    && Pure(h)
    && (ActiveLane(h.config, h.lane) && !h.reset ==> HeardBefore(log, k, h.lane, h.epoch))
  }

  ghost predicate LogOk(log: seq<Heard>) {
    forall k :: 0 <= k < |log| ==> HeardOk(log, k)
  }

  ghost predicate Safe(s: State) {
    && FlightOk(s)
    && DaemonOk(s.daemon, s.shown, s.config)
    && ResumeOk(s.up, s.daemon, s.shown, s.config)
    && SequenceOk(s)
    && PhaseOk(s)
    && UpdaterOk(s.updater, s.box)
    && SeenOk(s)
    && LogOk(s.log)
  }

  lemma InitialSafe(config: Config)
    ensures Safe(Initial(config))
  {
  }

  // ------------------------------------------------------- one lemma per step

  lemma ProduceSafe(s: State, k: Sizes, wire: Lane)
    requires k.ring > 0 && Safe(s) && Enabled(s, Produce(wire))
    ensures Safe(Apply(s, Produce(wire), k))
  {
  }

  lemma StreamDiesSafe(s: State, k: Sizes)
    requires k.ring > 0 && Safe(s) && Enabled(s, StreamDies)
    ensures Safe(Apply(s, StreamDies, k))
  {
  }

  lemma StartStreamSafe(s: State, k: Sizes)
    requires k.ring > 0 && Safe(s) && Enabled(s, StartStream)
    ensures Safe(Apply(s, StartStream, k))
  {
  }

  lemma ServeSequence(s: State, outcome: Outcome)
    requires Safe(s) && Enabled(s, Serve(outcome))
    ensures SequenceOk(ServeStep(s, outcome))
  {
    var t := ServeStep(s, outcome);
    assert s.up[0].seqno < Oldest(t.up, s.api, s.updater, s.nextSeq);
  }

  lemma ServePhase(s: State, outcome: Outcome)
    requires Safe(s) && Enabled(s, Serve(outcome))
    ensures PhaseOk(ServeStep(s, outcome))
  {
    if s.api.SwapSent? {
      var q := s.api.seqno;
      assert forall i :: 0 <= i < |s.down| ==> !GrantsRequest(s.down[i], q);
    }
  }

  lemma ServeSafe(s: State, k: Sizes, outcome: Outcome)
    requires k.ring > 0 && Safe(s) && Enabled(s, Serve(outcome))
    ensures Safe(Apply(s, Serve(outcome), k))
  {
    ServeSequence(s, outcome);
    ServePhase(s, outcome);
  }

  lemma ReceiveSafe(s: State, k: Sizes)
    requires k.ring > 0 && Safe(s) && Enabled(s, Receive)
    ensures Safe(Apply(s, Receive, k))
  {
  }

  lemma StoreFrameSafe(s: State, k: Sizes)
    requires k.ring > 0 && Safe(s) && Enabled(s, StoreFrame)
    ensures Safe(Apply(s, StoreFrame, k))
  {
  }

  lemma PublishSafe(s: State, k: Sizes)
    requires k.ring > 0 && Safe(s) && Enabled(s, Publish) && s.nextSeq <= MODULUS
    ensures Safe(Apply(s, Publish, k))
  {
  }

  lemma TakeFrameSafe(s: State, k: Sizes)
    requires k.ring > 0 && Safe(s) && Enabled(s, TakeFrame)
    ensures Safe(Apply(s, TakeFrame, k))
  {
  }

  lemma RouteFrameSafe(s: State, k: Sizes)
    requires k.ring > 0 && Safe(s) && Enabled(s, RouteFrame)
    ensures Safe(Apply(s, RouteFrame, k))
  {
  }

  /** The filter's output and its state depend on the shown epoch and the frame's lane alone. */
  lemma FilterOutput(s: State, gap: bool, samples: nat, first: word, flags: SR.Flags)
    requires s.worker.Routed? && WorkerOk(s.worker, s.shown, s.config)
    requires HistoryOk(s.historyA, s.historyB, s.shown, s.config)
    ensures var t := FilterStep(s, gap, samples, first, flags);
            WorkerOk(t.worker, t.shown, t.config) && HistoryOk(t.historyA, t.historyB, t.shown, t.config)
  {
    var lane := s.worker.lane;
    assert s.History(lane) + {OriginOf(s.worker.frame)} == {Origin(s.shown, s.config, lane)};
  }

  lemma FilterFrameSafe(s: State, k: Sizes, gap: bool, samples: nat, first: word, flags: SR.Flags)
    requires k.ring > 0 && Safe(s) && Enabled(s, FilterFrame(gap, samples, first, flags))
    ensures Safe(Apply(s, FilterFrame(gap, samples, first, flags), k))
  {
    FilterOutput(s, gap, samples, first, flags);
  }

  /** An eviction copies marks, not samples. */
  lemma EnqueueOk(r: SR.Ring<Sample>, capacity: nat, f: StreamFrame, shown: nat, config: Config)
    requires capacity > 0 && QueueOk(r.queue, shown, config) && OutputOk(f, shown, config)
    ensures QueueOk(SR.Enqueue(r, capacity, f).queue, shown, config)
  {
  }

  lemma QueueFrameSafe(s: State, k: Sizes)
    requires k.ring > 0 && Safe(s) && Enabled(s, QueueFrame)
    ensures Safe(Apply(s, QueueFrame, k))
  {
    EnqueueOk(s.ring, k.ring, s.worker.output, s.shown, s.config);
  }

  lemma ClearFirstSafe(s: State, k: Sizes)
    requires k.ring > 0 && Safe(s) && Enabled(s, ClearFirst)
    ensures Safe(Apply(s, ClearFirst, k))
  {
  }

  lemma FinishFrameSafe(s: State, k: Sizes)
    requires k.ring > 0 && Safe(s) && Enabled(s, FinishFrame)
    ensures Safe(Apply(s, FinishFrame, k))
  {
  }

  lemma {:induction false} SourcesEqual(data: seq<Sample>, origin: Origin)
    requires forall i :: 0 <= i < |data| ==> data[i].sources == {origin}
    ensures Sources(data) == if data == [] then {} else {origin}
  {
    if data != [] {
      SourcesEqual(data[1..], origin);
    }
  }

  lemma LogExtend(log: seq<Heard>, h: Heard)
    requires LogOk(log)
    requires Pure(h)
    requires ActiveLane(h.config, h.lane) && !h.reset ==> HeardBefore(log, |log|, h.lane, h.epoch)
    ensures LogOk(log + [h])
  {
    var longer := log + [h];
    forall k | 0 <= k < |longer| ensures HeardOk(longer, k) {
      var x := longer[k];
      if ActiveLane(x.config, x.lane) && !x.reset {
        assert k < |log| ==> HeardOk(log, k);
        var j :| 0 <= j < k && j < |log| && log[j].lane == x.lane && log[j].epoch == x.epoch;
        assert longer[j] == log[j];
      } else if k < |log| {
        assert HeardOk(log, k);
      }
    }
  }

  /** What was heard stays heard. */
  lemma HeardStays(log: seq<Heard>, h: Heard, lane: Lane, epoch: nat)
    ensures HeardBefore(log, |log|, lane, epoch) ==> HeardBefore(log + [h], |log + [h]|, lane, epoch)
    ensures h.lane == lane && h.epoch == epoch ==> HeardBefore(log + [h], |log + [h]|, lane, epoch)
  {
    var longer := log + [h];
    assert longer[|log|] == h;
    if HeardBefore(log, |log|, lane, epoch) {
      var j :| 0 <= j < |log| && log[j].lane == lane && log[j].epoch == epoch;
      assert longer[j] == log[j];
    }
  }

  lemma BeginCallbackHeard(s: State)
    requires SR.CanBegin(s.ring) && QueueOk(s.ring.queue, s.shown, s.config)
    requires !s.api.Configured? && SeenOk(s) && LogOk(s.log)
    ensures SeenOk(BeginStep(s)) && LogOk(BeginStep(s).log)
  {
    var f := s.ring.queue[0];
    var h := BeginStep(s).log[|s.log|];
    assert OutputOk(f, s.shown, s.config);
    SourcesEqual(f.data, Origin(s.shown, s.config, f.lane));
    LogExtend(s.log, h);
    HeardStays(s.log, h, SR.LaneA, s.shown);
    HeardStays(s.log, h, SR.LaneB, s.shown);
  }

  lemma BeginCallbackSafe(s: State, k: Sizes)
    requires k.ring > 0 && Safe(s) && Enabled(s, BeginCallback)
    ensures Safe(Apply(s, BeginCallback, k))
  {
    assert OutputOk(s.ring.queue[0], s.shown, s.config);
    BeginCallbackHeard(s);
  }

  lemma CallbackSafe(s: State, k: Sizes, limit: nat)
    requires k.ring > 0 && Safe(s) && Enabled(s, Callback(limit))
    ensures Safe(Apply(s, Callback(limit), k))
  {
  }

  lemma EndCallbackSafe(s: State, k: Sizes)
    requires k.ring > 0 && Safe(s) && Enabled(s, EndCallback)
    ensures Safe(Apply(s, EndCallback, k))
  {
  }

  lemma PauseDoneSafe(s: State, k: Sizes)
    requires k.ring > 0 && Safe(s) && Enabled(s, PauseDone)
    ensures Safe(Apply(s, PauseDone, k))
  {
  }

  lemma RegisterSwapSafe(s: State, k: Sizes)
    requires k.ring > 0 && Safe(s) && Enabled(s, RegisterSwap)
    ensures Safe(Apply(s, RegisterSwap, k))
  {
  }

  lemma SendSwapSafe(s: State, k: Sizes)
    requires k.ring > 0 && Safe(s) && Enabled(s, SendSwap)
    ensures Safe(Apply(s, SendSwap, k))
  {
  }

  lemma SwapAnsweredSafe(s: State, k: Sizes)
    requires k.ring > 0 && Safe(s) && Enabled(s, SwapAnswered)
    ensures Safe(Apply(s, SwapAnswered, k))
  {
  }

  lemma SwapFailsSafe(s: State, k: Sizes)
    requires k.ring > 0 && Safe(s) && Enabled(s, SwapFails)
    ensures Safe(Apply(s, SwapFails, k))
  {
  }

  lemma RepauseSafe(s: State, k: Sizes)
    requires k.ring > 0 && Safe(s) && Enabled(s, Repause)
    ensures Safe(Apply(s, Repause, k))
  {
  }

  lemma RepauseDoneSafe(s: State, k: Sizes)
    requires k.ring > 0 && Safe(s) && Enabled(s, RepauseDone)
    ensures Safe(Apply(s, RepauseDone, k))
  {
  }

  lemma SetConfigSafe(s: State, k: Sizes)
    requires k.ring > 0 && Safe(s) && Enabled(s, SetConfig)
    ensures Safe(Apply(s, SetConfig, k))
  {
  }

  lemma ResetRingSafe(s: State, k: Sizes)
    requires k.ring > 0 && Safe(s) && Enabled(s, ResetRing)
    ensures Safe(Apply(s, ResetRing, k))
  {
  }

  lemma ResetCountersSafe(s: State, k: Sizes)
    requires k.ring > 0 && Safe(s) && Enabled(s, ResetCounters)
    ensures Safe(Apply(s, ResetCounters, k))
  {
  }

  lemma ResumeLocalSafe(s: State, k: Sizes)
    requires k.ring > 0 && Safe(s) && Enabled(s, ResumeLocal)
    ensures Safe(Apply(s, ResumeLocal, k))
  {
  }

  lemma RegisterResumeSafe(s: State, k: Sizes)
    requires k.ring > 0 && Safe(s) && Enabled(s, RegisterResume)
    ensures Safe(Apply(s, RegisterResume, k))
  {
  }

  lemma SendResumeSafe(s: State, k: Sizes)
    requires k.ring > 0 && Safe(s) && Enabled(s, SendResume)
    ensures Safe(Apply(s, SendResume, k))
  {
  }

  lemma ResumeReturnsSafe(s: State, k: Sizes)
    requires k.ring > 0 && Safe(s) && Enabled(s, ResumeReturns)
    ensures Safe(Apply(s, ResumeReturns, k))
  {
  }

  lemma ResumeAfterFailureSafe(s: State, k: Sizes)
    requires k.ring > 0 && Safe(s) && Enabled(s, ResumeAfterFailure)
    ensures Safe(Apply(s, ResumeAfterFailure, k))
  {
  }

  lemma RegisterUpdateSafe(s: State, k: Sizes)
    requires k.ring > 0 && Safe(s) && Enabled(s, RegisterUpdate)
    ensures Safe(Apply(s, RegisterUpdate, k))
  {
  }

  lemma SendUpdateSafe(s: State, k: Sizes)
    requires k.ring > 0 && Safe(s) && Enabled(s, SendUpdate)
    ensures Safe(Apply(s, SendUpdate, k))
  {
  }

  lemma UpdateReturnsSafe(s: State, k: Sizes)
    requires k.ring > 0 && Safe(s) && Enabled(s, UpdateReturns)
    ensures Safe(Apply(s, UpdateReturns, k))
  {
  }

  lemma UpdateEndsSafe(s: State, k: Sizes)
    requires k.ring > 0 && Safe(s) && Enabled(s, UpdateEnds)
    ensures Safe(Apply(s, UpdateEnds, k))
  {
  }

  lemma BeginSwapSafe(s: State, k: Sizes, swap: Swap)
    requires k.ring > 0 && Safe(s) && Enabled(s, BeginSwap(swap))
    ensures Safe(Apply(s, BeginSwap(swap), k))
  {
  }

  lemma QueueAckSafe(s: State, k: Sizes, lane: Lane, at: word, marks: SR.Flags)
    requires k.ring > 0 && Safe(s) && Enabled(s, QueueAck(lane, at, marks))
    ensures Safe(Apply(s, QueueAck(lane, at, marks), k))
  {
    EnqueueOk(s.ring, k.ring, SR.StreamFrame(lane, [], at, false, marks), s.shown, s.config);
  }

  predicate StreamAction(a: Action) {
    || a.Produce? || a.StreamDies? || a.Serve? || a.StartStream? || a.Receive? || a.StoreFrame?
    || a.Publish? || a.TakeFrame?
  }

  lemma StreamActionSafe(s: State, a: Action, k: Sizes)
    requires k.ring > 0 && Safe(s) && s.nextSeq <= MODULUS && Enabled(s, a) && StreamAction(a)
    ensures Safe(Apply(s, a, k))
  {
    match a {
      case Produce(wire) => ProduceSafe(s, k, wire);
      case StreamDies => StreamDiesSafe(s, k);
      case Serve(outcome) => ServeSafe(s, k, outcome);
      case StartStream => StartStreamSafe(s, k);
      case Receive => ReceiveSafe(s, k);
      case StoreFrame => StoreFrameSafe(s, k);
      case Publish => PublishSafe(s, k);
      case TakeFrame => TakeFrameSafe(s, k);
    }
  }

  predicate CallbackAction(a: Action) {
    || a.RouteFrame? || a.FilterFrame? || a.QueueFrame? || a.ClearFirst? || a.FinishFrame?
    || a.BeginCallback? || a.Callback? || a.EndCallback?
  }

  lemma CallbackActionSafe(s: State, a: Action, k: Sizes)
    requires k.ring > 0 && Safe(s) && s.nextSeq <= MODULUS && Enabled(s, a) && CallbackAction(a)
    ensures Safe(Apply(s, a, k))
  {
    match a {
      case RouteFrame => RouteFrameSafe(s, k);
      case FilterFrame(gap, n, first, flags) => FilterFrameSafe(s, k, gap, n, first, flags);
      case QueueFrame => QueueFrameSafe(s, k);
      case ClearFirst => ClearFirstSafe(s, k);
      case FinishFrame => FinishFrameSafe(s, k);
      case BeginCallback => BeginCallbackSafe(s, k);
      case Callback(limit) => CallbackSafe(s, k, limit);
      case EndCallback => EndCallbackSafe(s, k);
    }
  }

  predicate SwapAction(a: Action) {
    || a.BeginSwap? || a.PauseDone? || a.RegisterSwap? || a.SendSwap? || a.SwapAnswered?
    || a.SwapFails? || a.Repause? || a.RepauseDone?
  }

  lemma SwapActionSafe(s: State, a: Action, k: Sizes)
    requires k.ring > 0 && Safe(s) && s.nextSeq <= MODULUS && Enabled(s, a) && SwapAction(a)
    ensures Safe(Apply(s, a, k))
  {
    match a {
      case BeginSwap(swap) => BeginSwapSafe(s, k, swap);
      case PauseDone => PauseDoneSafe(s, k);
      case RegisterSwap => RegisterSwapSafe(s, k);
      case SendSwap => SendSwapSafe(s, k);
      case SwapAnswered => SwapAnsweredSafe(s, k);
      case SwapFails => SwapFailsSafe(s, k);
      case Repause => RepauseSafe(s, k);
      case RepauseDone => RepauseDoneSafe(s, k);
    }
  }

  predicate CommitAction(a: Action) {
    || a.SetConfig? || a.ResetRing? || a.ResetCounters? || a.ResumeLocal? || a.RegisterResume?
    || a.SendResume? || a.ResumeReturns? || a.ResumeAfterFailure?
  }

  lemma CommitActionSafe(s: State, a: Action, k: Sizes)
    requires k.ring > 0 && Safe(s) && s.nextSeq <= MODULUS && Enabled(s, a) && CommitAction(a)
    ensures Safe(Apply(s, a, k))
  {
    match a {
      case SetConfig => SetConfigSafe(s, k);
      case ResetRing => ResetRingSafe(s, k);
      case ResetCounters => ResetCountersSafe(s, k);
      case ResumeLocal => ResumeLocalSafe(s, k);
      case RegisterResume => RegisterResumeSafe(s, k);
      case SendResume => SendResumeSafe(s, k);
      case ResumeReturns => ResumeReturnsSafe(s, k);
      case ResumeAfterFailure => ResumeAfterFailureSafe(s, k);
    }
  }

  predicate UpdateAction(a: Action) {
    || a.RegisterUpdate? || a.SendUpdate? || a.UpdateReturns? || a.UpdateEnds? || a.QueueAck?
  }

  lemma UpdateActionSafe(s: State, a: Action, k: Sizes)
    requires k.ring > 0 && Safe(s) && s.nextSeq <= MODULUS && Enabled(s, a) && UpdateAction(a)
    ensures Safe(Apply(s, a, k))
  {
    match a {
      case RegisterUpdate => RegisterUpdateSafe(s, k);
      case SendUpdate => SendUpdateSafe(s, k);
      case UpdateReturns => UpdateReturnsSafe(s, k);
      case UpdateEnds => UpdateEndsSafe(s, k);
      case QueueAck(lane, at, marks) => QueueAckSafe(s, k, lane, at, marks);
    }
  }

  lemma StepSafe(s: State, a: Action, k: Sizes)
    requires k.ring > 0 && Safe(s) && s.nextSeq <= MODULUS
    ensures Safe(Step(s, a, k))
  {
    if Enabled(s, a) {
      if StreamAction(a) {
        StreamActionSafe(s, a, k);
      } else if CallbackAction(a) {
        CallbackActionSafe(s, a, k);
      } else if SwapAction(a) {
        SwapActionSafe(s, a, k);
      } else if CommitAction(a) {
        CommitActionSafe(s, a, k);
      } else {
        UpdateActionSafe(s, a, k);
      }
    }
  }

  predicate ApiAction(a: Action) {
    SwapAction(a) || CommitAction(a)
  }

  lemma SwapRequestsGrow(s: State, a: Action, k: Sizes)
    requires k.ring > 0 && Enabled(s, a) && SwapAction(a)
    ensures s.nextSeq <= Apply(s, a, k).nextSeq
  {
  }

  lemma CommitRequestsGrow(s: State, a: Action, k: Sizes)
    requires k.ring > 0 && Enabled(s, a) && CommitAction(a)
    ensures s.nextSeq <= Apply(s, a, k).nextSeq
  {
  }

  lemma OtherRequestsGrow(s: State, a: Action, k: Sizes)
    requires k.ring > 0 && Enabled(s, a) && !ApiAction(a)
    ensures s.nextSeq <= Apply(s, a, k).nextSeq
  {
  }

  lemma RequestsOnlyGrow(s: State, a: Action, k: Sizes)
    requires k.ring > 0
    ensures s.nextSeq <= Step(s, a, k).nextSeq
  {
    if Enabled(s, a) {
      if SwapAction(a) {
        SwapRequestsGrow(s, a, k);
      } else if CommitAction(a) {
        CommitRequestsGrow(s, a, k);
      } else {
        OtherRequestsGrow(s, a, k);
      }
    }
  }

  lemma {:induction false} RunSafe(config: Config, actions: seq<Action>, k: Sizes)
    requires k.ring > 0 && Run(config, actions, k).nextSeq <= MODULUS
    ensures Safe(Run(config, actions, k))
  {
    if actions == [] {
      InitialSafe(config);
    } else {
      var before := actions[..|actions| - 1];
      RequestsOnlyGrow(Run(config, before, k), actions[|actions| - 1], k);
      RunSafe(config, before, k);
      StepSafe(Run(config, before, k), actions[|actions| - 1], k);
    }
  }
}
