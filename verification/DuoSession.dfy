/** The RSPduo master/slave session: who holds which tuner, as one of three shapes. */
module DuoSession {

  const NO_CLIENT: int := -1
  const TUNER_A: int := 1
  const TUNER_B: int := 2
  const ROLE_MASTER: int := 1
  const ROLE_SLAVE: int := 2
  const RATE_UNSPECIFIED: int := 0

  datatype Result = OK | StartPending | StopPending | Busy | Invalid

  datatype Kind =
    | MasterInitialised
    | SlaveAttached
    | SlaveDetached
    | SlaveInitialised
    | SlaveUninitialised
    | MasterDllDisappeared
    | SlaveDllDisappeared

  datatype Event = NoEvent | Event(kind: Kind, target: int, source: int, tuner: int)

  datatype Session =
    | Idle
    | MasterOnly(master: int, tuner: int, rate: int, running: bool)
    | Pair(master: int, tuner: int, rate: int, running: bool, slave: int, slaveRunning: bool)

  predicate ValidTuner(tuner: int) {
    tuner == TUNER_A || tuner == TUNER_B
  }

  predicate ValidRate(rate: int) {
    rate == 6000000 || rate == 8000000
  }

  function OtherTuner(tuner: int): int {
    if tuner == TUNER_A then TUNER_B else TUNER_A
  }

  /** Distinct descriptors, valid tuner and rate, and a running slave has a running master. */
  predicate WellFormed(s: Session) {
    match s
    case Idle => true
    case MasterOnly(m, t, r, _) => m >= 0 && ValidTuner(t) && ValidRate(r)
    case Pair(m, t, r, running, p, slaveRunning) =>
      m >= 0 && p >= 0 && m != p && ValidTuner(t) && ValidRate(r) && (slaveRunning ==> running)
  }

  predicate IsMaster(s: Session, fd: int) {
    !s.Idle? && s.master == fd
  }

  predicate IsSlave(s: Session, fd: int) {
    s.Pair? && s.slave == fd
  }

  datatype Outcome = Outcome(session: Session, result: Result, event: Event)

  function Refuse(s: Session, result: Result): Outcome {
    Outcome(s, result, NoEvent)
  }

  function AcquireMaster(s: Session, fd: int, tuner: int, rate: int): Outcome {
    if !ValidRate(rate) then Refuse(s, Invalid)
    else if s.Idle? then Outcome(MasterOnly(fd, tuner, rate, false), OK, NoEvent)
    else if s.master == fd && s.tuner == tuner && s.rate == rate then Refuse(s, OK)
    else Refuse(s, Busy)
  }

  function AcquireSlave(s: Session, fd: int, tuner: int, rate: int): Outcome {
    if s.Idle? || s.master == fd || s.tuner == tuner || (rate != RATE_UNSPECIFIED && rate != s.rate) then
      Refuse(s, Busy)
    else if s.Pair? then
      Refuse(s, if s.slave == fd then OK else Busy)
    else
      Outcome(Pair(s.master, s.tuner, s.rate, s.running, fd, false), OK,
              Event(SlaveAttached, s.master, fd, tuner))
  }

  function Acquire(s: Session, fd: int, role: int, tuner: int, rate: int): Outcome {
    if fd < 0 || (role != ROLE_MASTER && role != ROLE_SLAVE) || !ValidTuner(tuner) then
      Refuse(s, Invalid)
    else if role == ROLE_MASTER then AcquireMaster(s, fd, tuner, rate)
    else AcquireSlave(s, fd, tuner, rate)
  }

  function Initialise(s: Session, fd: int): Outcome {
    if fd < 0 then Refuse(s, Invalid)
    else if IsMaster(s, fd) then
      if s.running then Refuse(s, Busy)
      else
        Outcome(s.(running := true), OK,
                if s.Pair? then Event(MasterInitialised, s.slave, fd, OtherTuner(s.tuner))
                else NoEvent)
    else if !IsSlave(s, fd) then Refuse(s, Invalid)
    else if s.slaveRunning then Refuse(s, Busy)
    else if !s.running then Refuse(s, StartPending)
    else
      Outcome(s.(slaveRunning := true), OK,
              Event(SlaveInitialised, s.master, fd, OtherTuner(s.tuner)))
  }

  function Uninitialise(s: Session, fd: int): Outcome {
    if fd < 0 then Refuse(s, Invalid)
    else if IsMaster(s, fd) then
      if !s.running then Refuse(s, Invalid)
      else if s.Pair? && s.slaveRunning then Refuse(s, StopPending)
      else Outcome(s.(running := false), OK, NoEvent)
    else if !IsSlave(s, fd) || !s.slaveRunning then Refuse(s, Invalid)
    else
      Outcome(s.(slaveRunning := false), OK,
              Event(SlaveUninitialised, s.master, fd, OtherTuner(s.tuner)))
  }

  function WithoutSlave(s: Session): Session
    requires s.Pair?
  {
    MasterOnly(s.master, s.tuner, s.rate, s.running)
  }

  function Release(s: Session, fd: int): Outcome {
    if fd < 0 then Refuse(s, Invalid)
    else if IsMaster(s, fd) then
      if s.running then Refuse(s, Busy)
      else if s.Pair? then Refuse(s, StopPending)
      else Outcome(Idle, OK, NoEvent)
    else if !IsSlave(s, fd) then Refuse(s, Invalid)
    else if s.slaveRunning then Refuse(s, Busy)
    else
      Outcome(WithoutSlave(s), OK, Event(SlaveDetached, s.master, fd, OtherTuner(s.tuner)))
  }

  function Disconnect(s: Session, fd: int): Outcome {
    if fd < 0 then Refuse(s, Invalid)
    else if IsSlave(s, fd) then
      Outcome(WithoutSlave(s), OK, Event(SlaveDllDisappeared, s.master, fd, OtherTuner(s.tuner)))
    else if IsMaster(s, fd) then
      Outcome(Idle, OK,
              if s.Pair? then Event(MasterDllDisappeared, s.slave, fd, OtherTuner(s.tuner))
              else NoEvent)
    else Refuse(s, OK)
  }

  /** The descriptor that receives a lane, or NO_CLIENT. */
  function Route(s: Session, tuner: int): int {
    if !s.Idle? && s.running && s.tuner == tuner then s.master
    else if s.Pair? && s.slaveRunning && OtherTuner(s.tuner) == tuner then s.slave
    else NO_CLIENT
  }

  // ------------------------------------------------------------ every call kept

  datatype Call =
    | CallAcquire(role: int, tuner: int, rate: int)
    | CallInitialise
    | CallUninitialise
    | CallRelease
    | CallDisconnect

  function Serve(s: Session, fd: int, c: Call): Outcome {
    match c
    case CallAcquire(role, tuner, rate) => Acquire(s, fd, role, tuner, rate)
    case CallInitialise => Initialise(s, fd)
    case CallUninitialise => Uninitialise(s, fd)
    case CallRelease => Release(s, fd)
    case CallDisconnect => Disconnect(s, fd)
  }

  /** The session and the events it emitted, after a series of calls by any descriptors. */
  datatype Run = Run(session: Session, events: seq<Event>)

  function RunCalls(calls: seq<(int, Call)>): Run {
    if calls == [] then Run(Idle, [])
    else
      var before := RunCalls(calls[..|calls| - 1]);
      var (fd, c) := calls[|calls| - 1];
      var o := Serve(before.session, fd, c);
      Run(o.session, if o.event.NoEvent? then before.events else before.events + [o.event])
  }

  /** The live peer of a session member. */
  predicate LivePeer(s: Session, target: int, source: int) {
    s.Pair? && ((s.master == target && s.slave == source) || (s.slave == target && s.master == source))
  }

  /**
   Every call keeps the session well formed. An event accompanies only an OK
   result, goes to the peer that is alive when it is sent, never to its source,
   and names the slave's tuner; a call that is not OK changes nothing.
   */
  lemma ServeKeeps(s: Session, fd: int, c: Call)
    requires WellFormed(s)
    ensures var o := Serve(s, fd, c);
            && WellFormed(o.session)
            && (o.result != OK ==> o.session == s && o.event == NoEvent)
            && (o.event.Event? ==>
                  && o.event.source == fd && o.event.target != fd
                  && (LivePeer(s, o.event.target, fd) || LivePeer(o.session, o.event.target, fd))
                  && ValidTuner(o.event.tuner))
  {
  }

  predicate MasterOn(s: Session) {
    !s.Idle? && s.running
  }

  predicate SlaveOn(s: Session) {
    s.Pair? && s.slaveRunning
  }

  predicate Reports(e: Event, kind: Kind) {
    e.Event? && e.kind == kind
  }

  /** Each kind of event is emitted exactly when the change it names happened. */
  lemma EventNamesChange(s: Session, fd: int, c: Call)
    requires WellFormed(s)
    ensures var o := Serve(s, fd, c);
            var t := o.session;
            && (Reports(o.event, MasterInitialised) <==> s.Pair? && !MasterOn(s) && MasterOn(t))
            && (Reports(o.event, SlaveInitialised) <==> !SlaveOn(s) && SlaveOn(t))
            && (Reports(o.event, SlaveUninitialised) <==> SlaveOn(s) && t.Pair? && !SlaveOn(t))
            && (Reports(o.event, SlaveAttached) <==> !s.Pair? && t.Pair?)
            && (Reports(o.event, SlaveDetached) <==> s.Pair? && t.MasterOnly? && c.CallRelease?)
            && (Reports(o.event, SlaveDllDisappeared) <==>
                s.Pair? && t.MasterOnly? && c.CallDisconnect?)
            && (Reports(o.event, MasterDllDisappeared) <==> s.Pair? && t.Idle?)
  {
  }

  function Count(events: seq<Event>, kind: Kind): nat {
    if events == [] then 0
    else
      Count(events[..|events| - 1], kind) +
      var last := events[|events| - 1];
      if last.Event? && last.kind == kind then 1 else 0
  }

  function Arrivals(events: seq<Event>): nat {
    Count(events, SlaveAttached)
  }

  function Departures(events: seq<Event>): nat {
    Count(events, SlaveDetached) + Count(events, SlaveDllDisappeared) +
    Count(events, MasterDllDisappeared)
  }

  lemma CountAppend(events: seq<Event>, e: Event, kind: Kind)
    ensures Count(events + [e], kind) ==
            Count(events, kind) + if e.Event? && e.kind == kind then 1 else 0
  {
    assert (events + [e])[..|events|] == events;
  }

  predicate Arrives(e: Event) {
    e.Event? && e.kind.SlaveAttached?
  }

  predicate Departs(e: Event) {
    e.Event? && (e.kind.SlaveDetached? || e.kind.SlaveDllDisappeared? || e.kind.MasterDllDisappeared?)
  }

  lemma BalanceAppend(events: seq<Event>, e: Event)
    ensures Arrivals(events + [e]) == Arrivals(events) + if Arrives(e) then 1 else 0
    ensures Departures(events + [e]) == Departures(events) + if Departs(e) then 1 else 0
  {
    CountAppend(events, e, SlaveAttached);
    CountAppend(events, e, SlaveDetached);
    CountAppend(events, e, SlaveDllDisappeared);
    CountAppend(events, e, MasterDllDisappeared);
  }

  function Selected(s: Session): int {
    if s.Pair? then 1 else 0
  }

  /** One call selects a slave exactly when it reports an attach, and loses one exactly when it reports that. */
  lemma ServeBalances(s: Session, fd: int, c: Call)
    requires WellFormed(s)
    ensures var o := Serve(s, fd, c);
            Selected(o.session) ==
            Selected(s) + (if Arrives(o.event) then 1 else 0) - (if Departs(o.event) then 1 else 0)
  {
  }

  /**
   Event balance over every run: each attach is matched by one detach or
   disappearance, except the one of a slave that is still selected.
   */
  lemma {:induction false} EventBalance(calls: seq<(int, Call)>)
    ensures var r := RunCalls(calls);
            && WellFormed(r.session)
            && Arrivals(r.events) == Departures(r.events) + Selected(r.session)
  {
    if calls != [] {
      var before := calls[..|calls| - 1];
      EventBalance(before);
      var (fd, c) := calls[|calls| - 1];
      var r := RunCalls(before);
      ServeKeeps(r.session, fd, c);
      ServeBalances(r.session, fd, c);
      BalanceAppend(r.events, Serve(r.session, fd, c).event);
    }
  }

  /** Two lanes never reach one descriptor, and a routed descriptor is a running member. */
  lemma RoutesDistinct(s: Session, t: int, u: int)
    requires WellFormed(s) && ValidTuner(t) && ValidTuner(u) && t != u
    requires Route(s, t) != NO_CLIENT
    ensures Route(s, t) != Route(s, u)
    ensures IsMaster(s, Route(s, t)) || IsSlave(s, Route(s, t))
    ensures Route(s, t) >= 0
  {
  }

  /** A running member receives its own tuner's lane, and a lane is routed exactly while its member runs. */
  lemma RouteExact(s: Session, t: int)
    requires WellFormed(s) && ValidTuner(t)
    ensures MasterOn(s) ==> Route(s, s.tuner) == s.master
    ensures SlaveOn(s) ==> Route(s, OtherTuner(s.tuner)) == s.slave
    ensures Route(s, t) != NO_CLIENT <==> (MasterOn(s) && s.tuner == t) || (SlaveOn(s) && s.tuner != t)
  {
  }

  /** Member and lane: in every reachable state a lane goes to its running member and to nobody else. */
  lemma LanesFollowMembers(calls: seq<(int, Call)>, t: int)
    requires ValidTuner(t)
    ensures var s := RunCalls(calls).session;
            Route(s, t) == if MasterOn(s) && s.tuner == t then s.master
                           else if SlaveOn(s) && s.tuner != t then s.slave
                           else NO_CLIENT
  {
    EventBalance(calls);
    RouteExact(RunCalls(calls).session, t);
  }

  /** The four calls by which a master and then a slave come to run. */
  function Startup(m: int, p: int, tuner: int, rate: int, slaveRate: int): seq<(int, Call)> {
    [(m, CallAcquire(ROLE_MASTER, tuner, rate)), (m, CallInitialise),
     (p, CallAcquire(ROLE_SLAVE, OtherTuner(tuner), slaveRate)), (p, CallInitialise)]
  }

  lemma RunCall(calls: seq<(int, Call)>, fd: int, c: Call)
    ensures RunCalls(calls + [(fd, c)]).session == Serve(RunCalls(calls).session, fd, c).session
  {
    assert (calls + [(fd, c)])[..|calls|] == calls;
  }

  /**
   From every reachable idle session, any two clients can start a session on either
   tuner and at either rate, and then each receives its own lane.
   */
  lemma SessionStarts(calls: seq<(int, Call)>, m: int, p: int, tuner: int, rate: int, slaveRate: int)
    requires RunCalls(calls).session.Idle? && m >= 0 && p >= 0 && m != p
    requires tuner in {TUNER_A, TUNER_B} && rate in {6000000, 8000000}
    requires slaveRate == RATE_UNSPECIFIED || slaveRate == rate
    ensures var s := RunCalls(calls + Startup(m, p, tuner, rate, slaveRate)).session;
            && s == Pair(m, tuner, rate, true, p, true)
            && Route(s, tuner) == m && Route(s, OtherTuner(tuner)) == p
  {
    var start := Startup(m, p, tuner, rate, slaveRate);
    var one := calls + [start[0]];
    var two := one + [start[1]];
    var three := two + [start[2]];
    RunCall(calls, m, start[0].1);
    assert RunCalls(one).session == MasterOnly(m, tuner, rate, false);
    RunCall(one, m, start[1].1);
    assert RunCalls(two).session == MasterOnly(m, tuner, rate, true);
    RunCall(two, p, start[2].1);
    assert RunCalls(three).session == Pair(m, tuner, rate, true, p, false);
    RunCall(three, p, start[3].1);
    assert three + [start[3]] == calls + start;
  }

  /**
   Who is admitted, in every reachable state: a master to an idle session at a known
   rate, a slave beside a master on the other tuner at its rate, and either of them
   again, to no effect. Everybody else is told that the session is busy.
   */
  lemma AdmissionExact(calls: seq<(int, Call)>, fd: int, tuner: int, rate: int)
    requires fd >= 0 && ValidTuner(tuner)
    ensures var s := RunCalls(calls).session;
            var o := Acquire(s, fd, ROLE_MASTER, tuner, rate);
            && (o.result == OK <==>
                ValidRate(rate) && (s.Idle? || (IsMaster(s, fd) && s.tuner == tuner && s.rate == rate)))
            && (o.result == OK ==> IsMaster(o.session, fd) && o.session.tuner == tuner && o.session.rate == rate)
            && (o.result != OK ==> o.result == if ValidRate(rate) then Busy else Invalid)
            && (!s.Idle? ==> o.session == s)
    ensures var s := RunCalls(calls).session;
            var o := Acquire(s, fd, ROLE_SLAVE, tuner, rate);
            && (o.result == OK <==>
                && !s.Idle? && !IsMaster(s, fd) && s.tuner != tuner
                && (rate == RATE_UNSPECIFIED || rate == s.rate) && (s.Pair? ==> IsSlave(s, fd)))
            && (o.result == OK ==>
                && IsSlave(o.session, fd) && WithoutSlave(o.session) == if s.Pair? then WithoutSlave(s) else s)
            && (o.result != OK ==> o.result == Busy)
            && (s.Pair? ==> o.session == s)
  {
    EventBalance(calls);
  }

  /** A descriptor that disconnects holds no role and no lane afterwards. */
  lemma DisconnectClears(s: Session, fd: int)
    requires WellFormed(s) && fd >= 0
    ensures var after := Disconnect(s, fd).session;
            && !IsMaster(after, fd) && !IsSlave(after, fd)
            && forall tuner :: Route(after, tuner) != fd
  {
  }

  // ----------------------------------------------------------- ordered shutdown

  /** Stop a member if it runs, then release it. */
  function StopRelease(s: Session, fd: int, running: bool): Outcome {
    var stopped := if running then Uninitialise(s, fd) else Refuse(s, OK);
    if stopped.result != OK then stopped else Release(stopped.session, fd)
  }

  /** The slave leaves first, then the master. */
  function Shutdown(s: Session): Outcome {
    var first := if s.Pair? then StopRelease(s, s.slave, s.slaveRunning) else Refuse(s, OK);
    if first.result != OK || first.session.Idle? then first
    else StopRelease(first.session, first.session.master, first.session.running)
  }

  lemma SlaveLeaves(s: Session)
    requires WellFormed(s) && s.Pair?
    ensures StopRelease(s, s.slave, s.slaveRunning) ==
            Outcome(WithoutSlave(s), OK, Event(SlaveDetached, s.master, s.slave, OtherTuner(s.tuner)))
  {
    assert IsSlave(s, s.slave) && !IsMaster(s, s.slave);
  }

  lemma MasterLeaves(s: Session)
    requires WellFormed(s) && s.MasterOnly?
    ensures StopRelease(s, s.master, s.running) == Outcome(Idle, OK, NoEvent)
  {
    assert IsMaster(s, s.master);
  }

  /** From every reachable state the ordered shutdown succeeds and reaches Idle. */
  lemma {:induction false} ShutdownSucceeds(calls: seq<(int, Call)>)
    ensures var s := RunCalls(calls).session;
            Shutdown(s).result == OK && Shutdown(s).session == Idle
  {
    EventBalance(calls);
    var s := RunCalls(calls).session;
    if s.Pair? {
      SlaveLeaves(s);
      MasterLeaves(WithoutSlave(s));
    } else if s.MasterOnly? {
      MasterLeaves(s);
    }
  }

  /** The other order is refused exactly while a slave is selected. */
  lemma MasterFirstRefused(s: Session)
    requires WellFormed(s) && !s.Idle?
    ensures StopRelease(s, s.master, s.running).result == StopPending <==> s.Pair?
    ensures StopRelease(s, s.master, s.running).result == OK <==> s.MasterOnly?
  {
  }

  // --------------------------------------------------- the nine-field record

  /** The record that carries the session. */
  class DuoRecord {
    var masterFd: int
    var slaveFd: int
    var masterTuner: int
    var slaveTuner: int
    var sampleRate: int
    var masterSelected: bool
    var slaveSelected: bool
    var masterInitialised: bool
    var slaveInitialised: bool

    ghost function State(): Session
      reads this
    {
      if !masterSelected then Idle
      else if !slaveSelected then MasterOnly(masterFd, masterTuner, sampleRate, masterInitialised)
      else Pair(masterFd, masterTuner, sampleRate, masterInitialised, slaveFd, slaveInitialised)
    }

    /** The fields of an absent member are cleared, and the slave has the other tuner. */
    ghost predicate Valid()
      reads this
    {
      && WellFormed(State())
      && (!masterSelected ==>
            masterFd == NO_CLIENT && masterTuner == 0 && sampleRate == RATE_UNSPECIFIED &&
            !slaveSelected && !masterInitialised)
      && (!slaveSelected ==> slaveFd == NO_CLIENT && slaveTuner == 0 && !slaveInitialised)
      && (slaveSelected ==> slaveTuner == OtherTuner(masterTuner))
    }

    constructor ()
      ensures Valid() && State() == Idle
    {
      masterFd, slaveFd, masterTuner, slaveTuner := NO_CLIENT, NO_CLIENT, 0, 0;
      sampleRate := RATE_UNSPECIFIED;
      masterSelected, slaveSelected, masterInitialised, slaveInitialised := false, false, false, false;
    }

    method Clear()
      modifies this
      ensures Valid() && State() == Idle
    {
      masterFd, slaveFd, masterTuner, slaveTuner := NO_CLIENT, NO_CLIENT, 0, 0;
      sampleRate := RATE_UNSPECIFIED;
      masterSelected, slaveSelected, masterInitialised, slaveInitialised := false, false, false, false;
    }

    method ClearSlave()
      requires Valid() && slaveSelected
      modifies this
      ensures Valid() && State() == WithoutSlave(old(State()))
    {
      slaveFd, slaveTuner := NO_CLIENT, 0;
      slaveSelected, slaveInitialised := false, false;
    }

    method DoAcquire(fd: int, role: int, tuner: int, rate: int) returns (result: Result, event: Event)
      requires Valid()
      modifies this
      ensures Valid()
      ensures Outcome(State(), result, event) == Acquire(old(State()), fd, role, tuner, rate)
    {
      event := NoEvent;
      if fd < 0 || (role != ROLE_MASTER && role != ROLE_SLAVE) || !ValidTuner(tuner) {
        return Invalid, event;
      }
      if role == ROLE_MASTER {
        if !ValidRate(rate) {
          return Invalid, event;
        }
        if masterSelected {
          if masterFd == fd && masterTuner == tuner && sampleRate == rate {
            return OK, event;
          }
          return Busy, event;
        }
        if slaveSelected || (slaveTuner != 0 && slaveTuner == tuner) {
          return Busy, event;
        }
        masterFd, masterTuner, sampleRate := fd, tuner, rate;
        masterSelected, masterInitialised := true, false;
        return OK, event;
      }
      if !masterSelected || masterFd == fd || (rate != RATE_UNSPECIFIED && rate != sampleRate) {
        return Busy, event;
      }
      if tuner == masterTuner {
        return Busy, event;
      }
      if slaveSelected {
        if slaveFd == fd && slaveTuner == tuner {
          return OK, event;
        }
        return Busy, event;
      }
      slaveFd, slaveTuner := fd, tuner;
      slaveSelected, slaveInitialised := true, false;
      return OK, Event(SlaveAttached, masterFd, fd, tuner);
    }

    method DoInitialise(fd: int) returns (result: Result, event: Event)
      requires Valid()
      modifies this
      ensures Valid()
      ensures Outcome(State(), result, event) == Initialise(old(State()), fd)
    {
      event := NoEvent;
      if fd < 0 {
        return Invalid, event;
      }
      if masterSelected && masterFd == fd {
        if masterInitialised {
          return Busy, event;
        }
        masterInitialised := true;
        if slaveSelected {
          event := Event(MasterInitialised, slaveFd, fd, slaveTuner);
        }
        return OK, event;
      }
      if !(slaveSelected && slaveFd == fd) {
        return Invalid, event;
      }
      if slaveInitialised {
        return Busy, event;
      }
      if !masterInitialised {
        return StartPending, event;
      }
      slaveInitialised := true;
      return OK, Event(SlaveInitialised, masterFd, fd, slaveTuner);
    }

    method DoUninitialise(fd: int) returns (result: Result, event: Event)
      requires Valid()
      modifies this
      ensures Valid()
      ensures Outcome(State(), result, event) == Uninitialise(old(State()), fd)
    {
      event := NoEvent;
      if fd < 0 {
        return Invalid, event;
      }
      if masterSelected && masterFd == fd {
        if !masterInitialised {
          return Invalid, event;
        }
        if slaveInitialised {
          return StopPending, event;
        }
        masterInitialised := false;
        return OK, event;
      }
      if !(slaveSelected && slaveFd == fd) || !slaveInitialised {
        return Invalid, event;
      }
      slaveInitialised := false;
      return OK, Event(SlaveUninitialised, masterFd, fd, slaveTuner);
    }

    method DoRelease(fd: int) returns (result: Result, event: Event)
      requires Valid()
      modifies this
      ensures Valid()
      ensures Outcome(State(), result, event) == Release(old(State()), fd)
    {
      event := NoEvent;
      if fd < 0 {
        return Invalid, event;
      }
      if masterSelected && masterFd == fd {
        if masterInitialised {
          return Busy, event;
        }
        if slaveSelected {
          return StopPending, event;
        }
        Clear();
        return OK, event;
      }
      if !(slaveSelected && slaveFd == fd) {
        return Invalid, event;
      }
      if slaveInitialised {
        return Busy, event;
      }
      event := Event(SlaveDetached, masterFd, fd, slaveTuner);
      ClearSlave();
      return OK, event;
    }

    method DoDisconnect(fd: int) returns (result: Result, event: Event)
      requires Valid()
      modifies this
      ensures Valid()
      ensures Outcome(State(), result, event) == Disconnect(old(State()), fd)
    {
      event := NoEvent;
      if fd < 0 {
        return Invalid, event;
      }
      if slaveSelected && slaveFd == fd {
        event := Event(SlaveDllDisappeared, masterFd, fd, slaveTuner);
        ClearSlave();
        return OK, event;
      }
      if masterSelected && masterFd == fd {
        if slaveSelected {
          event := Event(MasterDllDisappeared, slaveFd, fd, slaveTuner);
        }
        Clear();
        return OK, event;
      }
      return OK, event;
    }

    /** `openrspd_duo_route`: -1 for an invalid tuner, else whether the lane is routable. */
    method DoRoute(tuner: int) returns (status: int, fd: int)
      requires Valid()
      ensures fd == if ValidTuner(tuner) then Route(State(), tuner) else NO_CLIENT
      ensures status == if !ValidTuner(tuner) then -1 else if fd == NO_CLIENT then 0 else 1
      ensures MasterOn(State()) && tuner == masterTuner ==> status == 1 && fd == masterFd
      ensures SlaveOn(State()) && tuner == slaveTuner ==> status == 1 && fd == slaveFd
      ensures status == 1 <==>
              (MasterOn(State()) && tuner == masterTuner) || (SlaveOn(State()) && tuner == slaveTuner)
    {
      if !ValidTuner(tuner) {
        return -1, NO_CLIENT;
      }
      if masterSelected && masterInitialised && masterTuner == tuner {
        return if masterFd >= 0 then 1 else 0, masterFd;
      }
      if slaveSelected && slaveInitialised && slaveTuner == tuner {
        return if slaveFd >= 0 then 1 else 0, slaveFd;
      }
      return 0, NO_CLIENT;
    }
  }
}
