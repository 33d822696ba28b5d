/** The session as the daemon's clients see it: events sent over whole runs, and the way out of a session. */
module DaemonEvents {
  import opened DuoSession
  import opened DaemonClaims

  /** The event that a step puts on a peer's socket: after a good answer, or for a client that left. */
  function Emitted(c: Claims, s: Step): Event {
    match s
    case Connection(_) => NoEvent
    case Request(slot, command, hw) =>
      if slot < |c.clients| && c.clients[slot] >= 0 then
        var a := Respond(c, c.clients[slot], command, hw);
        if a.status.Good? then a.event else NoEvent
      else NoEvent
    case Removal(slot) =>
      if slot < |c.clients| && c.clients[slot] >= 0 then Drop(c, c.clients[slot]).1 else NoEvent
  }

  function Sent(steps: seq<Step>): seq<Event> {
    if steps == [] then []
    else
      var before := steps[..|steps| - 1];
      var e := Emitted(After(before), steps[|steps| - 1]);
      if e.NoEvent? then Sent(before) else Sent(before) + [e]
  }

  /** A step selects a slave exactly if it reports an attach, and loses one exactly if it reports that. */
  predicate StepBalances(c: Claims, s: Step) {
    Selected(Next(c, s).session) ==
    Selected(c.session) + (if Arrives(Emitted(c, s)) then 1 else 0) - (if Departs(Emitted(c, s)) then 1 else 0)
  }

  /** An event is lost with a refused answer only if nothing happened that it would report. */
  lemma RequestBalances(c: Claims, slot: nat, command: Command, hw: Hardware)
    requires ClaimsOk(c)
    ensures StepBalances(c, Request(slot, command, hw))
  {
    if slot < |c.clients| && c.clients[slot] >= 0 {
      AnswerBalances(c, c.clients[slot], command, hw);
    }
  }

  lemma AnswerBalances(c: Claims, fd: int, command: Command, hw: Hardware)
    requires WellFormed(c.session) && (c.duoActive <==> !c.session.Idle?) && fd >= 0
    requires !(c.owner >= 0 && c.duoActive)
    ensures var a := Respond(c, fd, command, hw);
            var e := if a.status.Good? then a.event else NoEvent;
            Selected(a.claims.session) ==
            Selected(c.session) + (if Arrives(e) then 1 else 0) - (if Departs(e) then 1 else 0)
  {
  }

  lemma RemovalBalances(c: Claims, slot: nat)
    requires ClaimsOk(c)
    ensures StepBalances(c, Removal(slot))
  {
  }

  lemma NextBalances(c: Claims, s: Step)
    requires ClaimsOk(c)
    ensures StepBalances(c, s)
  {
    match s
    case Connection(_) =>
    case Request(slot, command, hw) => RequestBalances(c, slot, command, hw);
    case Removal(slot) => RemovalBalances(c, slot);
  }

  /**
   Event balance at the daemon's sockets: after every series of connections, requests
   and disconnects, with any hardware results, the attach events sent are matched by
   detach and disappearance events sent, except the one of a slave still selected.
   */
  lemma {:induction false} SentBalances(steps: seq<Step>)
    ensures Arrivals(Sent(steps)) == Departures(Sent(steps)) + Selected(After(steps).session)
  {
    if steps != [] {
      var before, last := steps[..|steps| - 1], steps[|steps| - 1];
      SentBalances(before);
      ClaimsAlwaysOk(before);
      NextBalances(After(before), last);
      BalanceAppend(Sent(before), Emitted(After(before), last));
    }
  }

  /** An answer's event goes to the caller's peer in the session. */
  lemma AnswerEventPeer(c: Claims, fd: int, command: Command, hw: Hardware)
    requires WellFormed(c.session) && (c.duoActive <==> !c.session.Idle?) && fd >= 0
    requires !(c.owner >= 0 && c.duoActive)
    ensures var e := Respond(c, fd, command, hw).event;
            e.Event? ==> HasRole(c.session, e.target) && e.source == fd && e.target != fd
  {
  }

  lemma DropEventPeer(c: Claims, fd: int)
    requires WellFormed(c.session) && fd >= 0
    ensures var e := Drop(c, fd).1;
            e.Event? ==> HasRole(c.session, e.target) && e.source == fd && e.target != fd
  {
  }

  /** An event sent goes to a connected descriptor other than the one that caused it. */
  lemma EventsReachPeers(steps: seq<Step>, s: Step)
    requires Emitted(After(steps), s).Event?
    ensures var c, e := After(steps), Emitted(After(steps), s);
            Connected(c, e.target) && e.target != e.source
  {
    ClaimsAlwaysOk(steps);
    var c := After(steps);
    match s
    case Connection(_) =>
    case Request(slot, command, hw) => AnswerEventPeer(c, c.clients[slot], command, hw);
    case Removal(slot) => DropEventPeer(c, c.clients[slot]);
  }

  // --------------------------------------------------------------- leaving a session

  lemma AfterNext(steps: seq<Step>, s: Step)
    ensures After(steps + [s]) == Next(After(steps), s)
  {
    assert (steps + [s])[..|steps|] == steps;
  }

  /** The requests by which one member stops, if it runs, and releases its role. */
  function Leave(slot: nat, running: bool, stop: Hardware, release: Hardware): seq<Step> {
    (if running then [Request(slot, DuoStop, stop)] else []) + [Request(slot, DuoRelease, release)]
  }

  /** The claims after a member's requests: a stop, if it runs, and a release. */
  function AfterLeave(c: Claims, slot: nat, running: bool, stop: Hardware, release: Hardware): Claims {
    Next(if running then Next(c, Request(slot, DuoStop, stop)) else c, Request(slot, DuoRelease, release))
  }

  lemma LeaveSteps(steps: seq<Step>, slot: nat, running: bool, stop: Hardware, release: Hardware)
    ensures After(steps + Leave(slot, running, stop, release)) ==
            AfterLeave(After(steps), slot, running, stop, release)
  {
    var last := Request(slot, DuoRelease, release);
    if running {
      var first := Request(slot, DuoStop, stop);
      AfterNext(steps, first);
      AfterNext(steps + [first], last);
      assert steps + Leave(slot, running, stop, release) == steps + [first] + [last];
    } else {
      AfterNext(steps, last);
      assert steps + Leave(slot, running, stop, release) == steps + [last];
    }
  }

  lemma SlaveStops(c: Claims, fd: int, hw: Hardware)
    requires WellFormed(c.session) && c.duoActive && IsSlave(c.session, fd) && c.session.slaveRunning
    ensures Respond(c, fd, DuoStop, hw).claims == c.(session := c.session.(slaveRunning := false))
  {
  }

  lemma SlaveReleases(c: Claims, fd: int, hw: Hardware)
    requires WellFormed(c.session) && c.duoActive && IsSlave(c.session, fd) && !c.session.slaveRunning
    ensures Respond(c, fd, DuoRelease, hw).claims == c.(session := WithoutSlave(c.session))
  {
  }

  lemma MasterStops(c: Claims, fd: int, hw: Hardware)
    requires WellFormed(c.session) && c.duoActive && IsMaster(c.session, fd)
    requires c.session.MasterOnly? && c.session.running
    ensures Respond(c, fd, DuoStop, hw).claims ==
            c.(session := MasterOnly(c.session.master, c.session.tuner, c.session.rate, false))
  {
  }

  lemma MasterReleases(c: Claims, fd: int, hw: Hardware)
    requires WellFormed(c.session) && c.duoActive && IsMaster(c.session, fd)
    requires c.session.MasterOnly? && !c.session.running
    ensures Respond(c, fd, DuoRelease, hw).claims == c.(session := Idle, duoActive := false)
  {
  }

  lemma SlaveLeave(c: Claims, slot: nat, stop: Hardware, release: Hardware)
    requires WellFormed(c.session) && c.duoActive && c.session.Pair?
    requires slot < |c.clients| && c.clients[slot] == c.session.slave
    ensures AfterLeave(c, slot, c.session.slaveRunning, stop, release) ==
            c.(session := WithoutSlave(c.session))
  {
    var fd, stopped := c.session.slave, c.(session := c.session.(slaveRunning := false));
    if c.session.slaveRunning {
      SlaveStops(c, fd, stop);
    }
    assert WithoutSlave(stopped.session) == WithoutSlave(c.session);
    SlaveReleases(stopped, fd, release);
  }

  lemma MasterLeave(c: Claims, slot: nat, stop: Hardware, release: Hardware)
    requires WellFormed(c.session) && c.duoActive && c.session.MasterOnly?
    requires slot < |c.clients| && c.clients[slot] == c.session.master
    ensures AfterLeave(c, slot, c.session.running, stop, release) ==
            c.(session := Idle, duoActive := false)
  {
    var fd := c.session.master;
    var stopped := c.(session := MasterOnly(fd, c.session.tuner, c.session.rate, false));
    if c.session.running {
      MasterStops(c, fd, stop);
    }
    MasterReleases(stopped, fd, release);
  }

  /** The slave can always leave; the master's session is untouched. */
  lemma SlaveMayLeave(steps: seq<Step>, slot: nat, stop: Hardware, release: Hardware)
    requires var c := After(steps);
             c.session.Pair? && slot < |c.clients| && c.clients[slot] == c.session.slave
    ensures var c := After(steps);
            var left := steps + Leave(slot, c.session.slaveRunning, stop, release);
            After(left) == c.(session := WithoutSlave(c.session))
  {
    var c := After(steps);
    ClaimsAlwaysOk(steps);
    LeaveSteps(steps, slot, c.session.slaveRunning, stop, release);
    SlaveLeave(c, slot, stop, release);
  }

  /** A master without a slave can always leave, which ends the session. */
  lemma MasterMayLeave(steps: seq<Step>, slot: nat, stop: Hardware, release: Hardware)
    requires var c := After(steps);
             c.session.MasterOnly? && slot < |c.clients| && c.clients[slot] == c.session.master
    ensures var c := After(steps);
            var left := steps + Leave(slot, c.session.running, stop, release);
            After(left) == c.(session := Idle, duoActive := false)
  {
    var c := After(steps);
    ClaimsAlwaysOk(steps);
    LeaveSteps(steps, slot, c.session.running, stop, release);
    MasterLeave(c, slot, stop, release);
  }

  /** What the daemon answers to the requests of a leaving member, given what the hardware does. */
  lemma LeaveAnswers(c: Claims, fd: int, stop: Hardware, release: Hardware)
    requires ClaimsOk(c) && HasRole(c.session, fd) && (IsMaster(c.session, fd) ==> c.session.MasterOnly?)
    ensures var running := if IsMaster(c.session, fd) then c.session.running else c.session.slaveRunning;
            var stopped := Respond(c, fd, DuoStop, stop);
            var released := Respond(if running then stopped.claims else c, fd, DuoRelease, release);
            && (running ==>
                  stopped.status == if IsMaster(c.session, fd) && !stop.reset then IoError else Good)
            && released.status == if IsMaster(c.session, fd) && !release.reset then IoError else Good
  {
  }

  /** The requests that take a session down in order: the slave leaves, then the master. */
  function Ending(c: Claims, master: nat, slave: nat, hw: seq<Hardware>): seq<Step>
    requires !c.session.Idle? && |hw| == 4
  {
    (if c.session.Pair? then Leave(slave, c.session.slaveRunning, hw[0], hw[1]) else [])
    + Leave(master, c.session.running, hw[2], hw[3])
  }

  /**
   From every reachable state of the daemon, whatever the hardware answers, the stop
   and release requests of the slave and then of the master end the session, leave
   every other claim as it was, and balance the events sent.
   */
  lemma SessionCanEnd(steps: seq<Step>, master: nat, slave: nat, hw: seq<Hardware>)
    requires var c := After(steps);
             && !c.session.Idle? && |hw| == 4
             && master < |c.clients| && c.clients[master] == c.session.master
             && (c.session.Pair? ==> slave < |c.clients| && c.clients[slave] == c.session.slave)
    ensures var c := After(steps);
            var ended := steps + Ending(c, master, slave, hw);
            && After(ended) == c.(session := Idle, duoActive := false)
            && Arrivals(Sent(ended)) == Departures(Sent(ended))
  {
    var c := After(steps);
    var alone := steps;
    if c.session.Pair? {
      SlaveMayLeave(steps, slave, hw[0], hw[1]);
      alone := steps + Leave(slave, c.session.slaveRunning, hw[0], hw[1]);
    }
    MasterMayLeave(alone, master, hw[2], hw[3]);
    var ended := steps + Ending(c, master, slave, hw);
    assert ended == alone + Leave(master, c.session.running, hw[2], hw[3]);
    SentBalances(ended);
  }

  /** The table always has the entries that those requests come from. */
  lemma MembersHaveEntries(steps: seq<Step>) returns (master: nat, slave: nat)
    requires !After(steps).session.Idle?
    ensures var c := After(steps);
            && master < |c.clients| && c.clients[master] == c.session.master
            && (c.session.Pair? ==> slave < |c.clients| && c.clients[slave] == c.session.slave)
  {
    var c := After(steps);
    ClaimsAlwaysOk(steps);
    master :| master < |c.clients| && c.clients[master] == c.session.master;
    slave := 0;
    if c.session.Pair? {
      slave :| slave < |c.clients| && c.clients[slave] == c.session.slave;
    }
  }
}
