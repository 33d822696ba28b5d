/**
 What the daemon grants and for how long: who gets the API-lock lease, the receiver
 or a lane, and that a grant stands until its holder gives it up or leaves.
 */
module DaemonGrants {
  import opened DuoSession
  import opened DaemonClaims
  import opened DaemonEvents

  /** A table entry of a connected client. */
  predicate Entry(c: Claims, slot: nat) {
    slot < |c.clients| && c.clients[slot] >= 0
  }

  /** The step is the removal of an entry, or this command from it. */
  predicate Leaves(s: Step, slot: nat, command: Command) {
    match s
    case Connection(_) => false
    case Request(from, asked, _) => from == slot && asked == command
    case Removal(removed) => removed == slot
  }

  lemma EntryStays(c: Claims, s: Step, slot: nat)
    requires ClaimsOk(c) && Entry(c, slot) && s != Removal(slot)
    ensures Entry(Next(c, s), slot) && Next(c, s).clients[slot] == c.clients[slot]
  {
    match s
    case Connection(fd) => FirstFreeIsFree(c.clients, 0);
    case Request(from, command, hw) =>
      if Entry(c, from) {
        RespondKeeps(c, c.clients[from], command, hw);
      }
    case Removal(_) =>
  }

  /** Entries tell clients apart. */
  lemma OneEntry(c: Claims, slot: nat, other: nat)
    requires EntriesDiffer(c.clients) && Entry(c, slot) && Entry(c, other)
    ensures c.clients[slot] == c.clients[other] <==> slot == other
  {
  }

  lemma AfterLast(steps: seq<Step>, more: seq<Step>)
    requires more != []
    ensures var rest := more[..|more| - 1];
            After(steps + more) == Next(After(steps + rest), more[|more| - 1])
  {
    assert (steps + more)[..|steps + more| - 1] == steps + more[..|more| - 1];
  }

  // ------------------------------------------------------------------------ lease

  /** In every reachable state the lease is granted exactly if it is free or the caller's own. */
  lemma LockAnswer(steps: seq<Step>, slot: nat, hw: Hardware)
    requires Entry(After(steps), slot)
    ensures var c := After(steps);
            var fd := c.clients[slot];
            var granted := c.apiLock == NOBODY || c.apiLock == fd;
            && Respond(c, fd, LockApi, hw).status == (if granted then Good else Occupied)
            && After(steps + [Request(slot, LockApi, hw)]) == (if granted then c.(apiLock := fd) else c)
  {
    ClaimsAlwaysOk(steps);
    AfterNext(steps, Request(slot, LockApi, hw));
  }

  predicate HoldsLease(c: Claims, slot: nat) {
    Entry(c, slot) && c.apiLock == c.clients[slot]
  }

  /** A held lease changes exactly with the holder's own unlock request or the end of its connection. */
  lemma LeaseStep(c: Claims, s: Step, slot: nat)
    requires ClaimsOk(c) && HoldsLease(c, slot)
    ensures Next(c, s).apiLock == if Leaves(s, slot, UnlockApi) then NOBODY else c.apiLock
  {
    match s
    case Connection(_) =>
    case Request(from, command, hw) =>
      if Entry(c, from) {
        OneEntry(c, slot, from);
        LeaseKeptByOthers(c, c.clients[from], command, hw);
      }
    case Removal(removed) =>
      if Entry(c, removed) {
        OneEntry(c, slot, removed);
      }
  }

  lemma LeaseStays(c: Claims, s: Step, slot: nat)
    requires ClaimsOk(c) && HoldsLease(c, slot) && !Leaves(s, slot, UnlockApi)
    ensures HoldsLease(Next(c, s), slot) && Next(c, s).apiLock == c.apiLock
  {
    LeaseStep(c, s, slot);
    EntryStays(c, s, slot);
  }

  /** No command but the two lock commands touches the lease. */
  lemma LeaseKeptByOthers(c: Claims, fd: int, command: Command, hw: Hardware)
    ensures !command.LockApi? && !command.UnlockApi? ==>
            Respond(c, fd, command, hw).claims.apiLock == c.apiLock
  {
  }

  /**
   A lease stands: after any steps, whatever the other clients ask for, the holder
   keeps it until its own unlock request or the end of its connection.
   */
  lemma {:induction false} LeaseStands(steps: seq<Step>, more: seq<Step>, slot: nat)
    requires HoldsLease(After(steps), slot)
    requires forall k :: 0 <= k < |more| ==> !Leaves(more[k], slot, UnlockApi)
    ensures HoldsLease(After(steps + more), slot)
    ensures After(steps + more).apiLock == After(steps).apiLock
  {
    if more == [] {
      assert steps + more == steps;
    } else {
      var rest := more[..|more| - 1];
      LeaseStands(steps, rest, slot);
      ClaimsAlwaysOk(steps + rest);
      AfterLast(steps, more);
      LeaseStays(After(steps + rest), more[|more| - 1], slot);
    }
  }

  /** Either of those steps frees it. */
  lemma LeaseEnds(steps: seq<Step>, s: Step, slot: nat)
    requires HoldsLease(After(steps), slot) && Leaves(s, slot, UnlockApi)
    ensures After(steps + [s]).apiLock == NOBODY
  {
    ClaimsAlwaysOk(steps);
    LeaseStep(After(steps), s, slot);
    AfterNext(steps, s);
  }

  // ------------------------------------------------------------------------ owner

  lemma AcquireAnswer(c: Claims, fd: int, hw: Hardware)
    requires ClaimsOk(c) && Connected(c, fd)
    ensures var a := Respond(c, fd, AcquireOwner, hw);
            && (a.status.Good? <==>
                c.owner == fd || (c.owner == NOBODY && !c.duoActive && hw.identityFound && hw.running))
            && (c.duoActive || (c.owner != NOBODY && c.owner != fd) ==> a.status.Occupied?)
            && a.claims == if a.status.Good? then c.(owner := fd) else c
  {
  }

  /** In every reachable state the receiver is granted exactly if nobody else has it and it can be opened. */
  lemma OwnerAnswer(steps: seq<Step>, slot: nat, hw: Hardware)
    requires Entry(After(steps), slot)
    ensures var c := After(steps);
            var fd := c.clients[slot];
            var a := Respond(c, fd, AcquireOwner, hw);
            && (a.status.Good? <==>
                c.owner == fd || (c.owner == NOBODY && !c.duoActive && hw.identityFound && hw.running))
            && (c.duoActive || (c.owner != NOBODY && c.owner != fd) ==> a.status.Occupied?)
            && a.claims == if a.status.Good? then c.(owner := fd) else c
  {
    ClaimsAlwaysOk(steps);
    AcquireAnswer(After(steps), After(steps).clients[slot], hw);
  }

  predicate Owns(c: Claims, slot: nat) {
    Entry(c, slot) && c.owner == c.clients[slot] && !c.duoActive
  }

  lemma OwnerStep(c: Claims, s: Step, slot: nat)
    requires ClaimsOk(c) && Owns(c, slot) && !Leaves(s, slot, ReleaseOwner)
    ensures Owns(Next(c, s), slot) && Next(c, s).owner == c.owner
  {
    EntryStays(c, s, slot);
    match s
    case Connection(_) =>
    case Request(from, command, hw) =>
      if Entry(c, from) {
        OneEntry(c, slot, from);
        if IsDuo(command) {
          OwnedNoSession(c, c.clients[from], command, hw);
        }
      }
    case Removal(removed) =>
      if Entry(c, removed) {
        OneEntry(c, slot, removed);
      }
  }

  /**
   The owner receives: once the receiver is granted, every frame of either tuner goes
   to that client until it releases the receiver or its connection ends.
   */
  lemma {:induction false} OwnerReceives(
    steps: seq<Step>, slot: nat, hw: Hardware, more: seq<Step>, tuner: int)
    requires Entry(After(steps), slot)
    requires Respond(After(steps), After(steps).clients[slot], AcquireOwner, hw).status.Good?
    requires forall k :: 0 <= k < |more| ==> !Leaves(more[k], slot, ReleaseOwner)
    ensures var after := After(steps + [Request(slot, AcquireOwner, hw)] + more);
            Owns(after, slot) && Target(after, tuner) == After(steps).clients[slot]
  {
    var acquired := steps + [Request(slot, AcquireOwner, hw)];
    if more == [] {
      ClaimsAlwaysOk(steps);
      OwnerAnswer(steps, slot, hw);
      AfterNext(steps, Request(slot, AcquireOwner, hw));
      assert acquired + more == acquired;
    } else {
      var rest := more[..|more| - 1];
      OwnerReceives(steps, slot, hw, rest, tuner);
      ClaimsAlwaysOk(acquired + rest);
      AfterLast(acquired, more);
      OwnerStep(After(acquired + rest), more[|more| - 1], slot);
    }
  }

  lemma OwnerLeaves(c: Claims, s: Step, slot: nat, hw: Hardware)
    requires ClaimsOk(c) && Owns(c, slot) && Leaves(s, slot, ReleaseOwner)
    ensures Respond(c, c.clients[slot], ReleaseOwner, hw).status.Good?
    ensures Next(c, s).owner == NOBODY && !Next(c, s).duoActive
  {
  }

  /** The owner's release is always granted, and either way of leaving frees the receiver. */
  lemma OwnershipEnds(steps: seq<Step>, s: Step, slot: nat, hw: Hardware, tuner: int)
    requires Owns(After(steps), slot) && Leaves(s, slot, ReleaseOwner)
    ensures Respond(After(steps), After(steps).clients[slot], ReleaseOwner, hw).status.Good?
    ensures After(steps + [s]).owner == NOBODY && Target(After(steps + [s]), tuner) == NOBODY
  {
    ClaimsAlwaysOk(steps);
    OwnerLeaves(After(steps), s, slot, hw);
    AfterNext(steps, s);
  }

  // ---------------------------------------------------------------------- session

  /** In every reachable state a lane goes to its running member, without a session to the owner, else nowhere. */
  lemma LaneTargets(steps: seq<Step>, tuner: int)
    requires ValidTuner(tuner)
    ensures var c := After(steps);
            Target(c, tuner) == if c.session.Idle? then c.owner
                                else if MasterOn(c.session) && c.session.tuner == tuner then c.session.master
                                else if SlaveOn(c.session) && c.session.tuner != tuner then c.session.slave
                                else NOBODY
  {
    ClaimsAlwaysOk(steps);
    RouteExact(After(steps).session, tuner);
  }

  /** Nothing in the way of a session: the device is found and opens, in every mode. */
  predicate Willing(hw: Hardware) {
    hw.identityFound && hw.sameIdentity && hw.prepared && hw.configured && hw.ready
  }

  /** The requests by which a master and then a slave come to run. */
  function Beginning(m: nat, p: nat, tuner: int, rate: int, hw: Hardware): seq<Step> {
    [Request(m, DuoAcquire(ROLE_MASTER, tuner, rate), hw), Request(m, DuoStart, hw),
     Request(p, DuoAcquire(ROLE_SLAVE, OtherTuner(tuner), RATE_UNSPECIFIED), hw), Request(p, DuoStart, hw)]
  }

  lemma MasterBegins(c: Claims, m: nat, tuner: int, rate: int, hw: Hardware)
    requires ClaimsOk(c) && c.session.Idle? && c.owner == NOBODY && Entry(c, m) && Willing(hw)
    requires ValidTuner(tuner) && ValidRate(rate)
    ensures Next(Next(c, Request(m, DuoAcquire(ROLE_MASTER, tuner, rate), hw)), Request(m, DuoStart, hw)) ==
            c.(session := MasterOnly(c.clients[m], tuner, rate, true), duoActive := true)
  {
    var acquired := Next(c, Request(m, DuoAcquire(ROLE_MASTER, tuner, rate), hw));
    assert acquired == c.(session := MasterOnly(c.clients[m], tuner, rate, false), duoActive := true);
  }

  lemma SlaveBegins(c: Claims, p: nat, hw: Hardware)
    requires ClaimsOk(c) && c.session.MasterOnly? && c.session.running && Entry(c, p) && Willing(hw)
    requires c.clients[p] != c.session.master
    ensures var s := c.session;
            var ask := DuoAcquire(ROLE_SLAVE, OtherTuner(s.tuner), RATE_UNSPECIFIED);
            Next(Next(c, Request(p, ask, hw)), Request(p, DuoStart, hw)) ==
            c.(session := Pair(s.master, s.tuner, s.rate, true, c.clients[p], true))
  {
    var s := c.session;
    var acquired := Next(c, Request(p, DuoAcquire(ROLE_SLAVE, OtherTuner(s.tuner), RATE_UNSPECIFIED), hw));
    assert acquired == c.(session := Pair(s.master, s.tuner, s.rate, true, c.clients[p], false));
  }

  lemma TwoSteps(steps: seq<Step>, x: Step, y: Step)
    ensures After(steps + [x, y]) == Next(Next(After(steps), x), y)
  {
    AfterNext(steps, x);
    AfterNext(steps + [x], y);
    assert steps + [x, y] == steps + [x] + [y];
  }

  lemma MasterHasBegun(steps: seq<Step>, m: nat, tuner: int, rate: int, hw: Hardware)
    requires var c := After(steps);
             c.session.Idle? && c.owner == NOBODY && Entry(c, m) && Willing(hw)
    requires ValidTuner(tuner) && ValidRate(rate)
    ensures var c, b := After(steps), Beginning(m, 0, tuner, rate, hw);
            After(steps + b[..2]) ==
            c.(session := MasterOnly(c.clients[m], tuner, rate, true), duoActive := true)
  {
    var b := Beginning(m, 0, tuner, rate, hw);
    ClaimsAlwaysOk(steps);
    MasterBegins(After(steps), m, tuner, rate, hw);
    TwoSteps(steps, b[0], b[1]);
    assert b[..2] == [b[0], b[1]];
  }

  lemma SlaveHasBegun(steps: seq<Step>, p: nat, hw: Hardware)
    requires var c := After(steps);
             && c.session.MasterOnly? && c.session.running && Entry(c, p) && Willing(hw)
             && c.clients[p] != c.session.master
    ensures var c := After(steps);
            var s, b := c.session, Beginning(0, p, c.session.tuner, c.session.rate, hw);
            After(steps + b[2..]) == c.(session := Pair(s.master, s.tuner, s.rate, true, c.clients[p], true))
  {
    var s := After(steps).session;
    var b := Beginning(0, p, s.tuner, s.rate, hw);
    ClaimsAlwaysOk(steps);
    SlaveBegins(After(steps), p, hw);
    TwoSteps(steps, b[2], b[3]);
    assert b[2..] == [b[2], b[3]];
  }

  /**
   From every reachable state without owner and session, any two clients can start a
   session on either tuner and at either rate, and each then receives its own lane.
   */
  lemma SessionCanBegin(steps: seq<Step>, m: nat, p: nat, tuner: int, rate: int, hw: Hardware)
    requires var c := After(steps);
             && c.session.Idle? && c.owner == NOBODY && Entry(c, m) && Entry(c, p) && m != p && Willing(hw)
    requires tuner in {TUNER_A, TUNER_B} && rate in {6000000, 8000000}
    ensures var c, after := After(steps), After(steps + Beginning(m, p, tuner, rate, hw));
            && after == c.(session := Pair(c.clients[m], tuner, rate, true, c.clients[p], true), duoActive := true)
            && Target(after, tuner) == c.clients[m] && Target(after, OtherTuner(tuner)) == c.clients[p]
  {
    var b := Beginning(m, p, tuner, rate, hw);
    ClaimsAlwaysOk(steps);
    OneEntry(After(steps), m, p);
    MasterHasBegun(steps, m, tuner, rate, hw);
    assert Beginning(m, 0, tuner, rate, hw)[..2] == b[..2];
    SlaveHasBegun(steps + b[..2], p, hw);
    assert Beginning(0, p, tuner, rate, hw)[2..] == b[2..];
    assert steps + b == steps + b[..2] + b[2..];
  }

  lemma RateSwapAnswer(c: Claims, fd: int, rate: int, hw: Hardware)
    requires ClaimsOk(c) && Connected(c, fd)
    ensures var a := Respond(c, fd, DuoSwapRate(rate), hw);
            && (a.status.Good? <==>
                && IsMaster(c.session, fd) && MasterOn(c.session) && !SlaveOn(c.session) && ValidRate(rate)
                && (rate == c.session.rate ||
                    (hw.prepared && hw.stopped && hw.preparedAtRate && hw.reset && hw.configured)))
            && (a.status.Good? ==> a.claims == c.(session := c.session.(rate := rate)))
            && (!a.status.Good? ==> a.claims == c)
  {
  }

  /**
   A change of rate is all or nothing, in every reachable state: only a running master
   without a running slave may ask, a good answer means that the session is at the
   rate asked for, and any other answer leaves every claim as it was.
   */
  lemma RateSwapExact(steps: seq<Step>, slot: nat, rate: int, hw: Hardware)
    requires Entry(After(steps), slot)
    ensures var c := After(steps);
            var fd := c.clients[slot];
            var a := Respond(c, fd, DuoSwapRate(rate), hw);
            && (a.status.Good? <==>
                && IsMaster(c.session, fd) && MasterOn(c.session) && !SlaveOn(c.session) && ValidRate(rate)
                && (rate == c.session.rate ||
                    (hw.prepared && hw.stopped && hw.preparedAtRate && hw.reset && hw.configured)))
            && (a.status.Good? ==> a.claims == c.(session := c.session.(rate := rate)))
            && (!a.status.Good? ==> a.claims == c)
  {
    ClaimsAlwaysOk(steps);
    RateSwapAnswer(After(steps), After(steps).clients[slot], rate, hw);
  }

  lemma StartAnswer(c: Claims, fd: int, hw: Hardware)
    requires ClaimsOk(c) && Connected(c, fd)
    ensures var s := c.session;
            var a := Respond(c, fd, DuoStart, hw);
            && (a.status.Good? <==>
                || (IsMaster(s, fd) && !MasterOn(s) && hw.prepared && hw.configured)
                || (IsSlave(s, fd) && MasterOn(s) && !SlaveOn(s) && hw.ready))
            && (a.status.Good? && IsMaster(s, fd) ==> a.claims == c.(session := s.(running := true)))
            && (a.status.Good? && IsSlave(s, fd) ==> a.claims == c.(session := s.(slaveRunning := true)))
            && (!a.status.Good? ==> a.claims == c)
  {
  }

  /** A start is granted exactly if the member is next in order and the radio follows; else nothing changes. */
  lemma StartExact(steps: seq<Step>, slot: nat, hw: Hardware)
    requires Entry(After(steps), slot)
    ensures var c := After(steps);
            var s, fd := c.session, c.clients[slot];
            var a := Respond(c, fd, DuoStart, hw);
            && (a.status.Good? <==>
                || (IsMaster(s, fd) && !MasterOn(s) && hw.prepared && hw.configured)
                || (IsSlave(s, fd) && MasterOn(s) && !SlaveOn(s) && hw.ready))
            && (a.status.Good? && IsMaster(s, fd) ==> a.claims == c.(session := s.(running := true)))
            && (a.status.Good? && IsSlave(s, fd) ==> a.claims == c.(session := s.(slaveRunning := true)))
            && (!a.status.Good? ==> a.claims == c)
  {
    ClaimsAlwaysOk(steps);
    StartAnswer(After(steps), After(steps).clients[slot], hw);
  }

  lemma WaitAnswer(c: Claims, fd: int, rate: int, hw: Hardware)
    requires ClaimsOk(c) && Connected(c, fd)
    ensures var s := c.session;
            && (Respond(c, fd, DuoStart, hw).status.StartWait? <==> IsSlave(s, fd) && !MasterOn(s))
            && (Respond(c, fd, DuoStop, hw).status.StopWait? <==> IsMaster(s, fd) && SlaveOn(s))
            && (Respond(c, fd, DuoRelease, hw).status.StopWait? <==> IsMaster(s, fd) && !MasterOn(s) && s.Pair?)
            && (Respond(c, fd, DuoSwapRate(rate), hw).status.StartWait? <==> IsMaster(s, fd) && !MasterOn(s))
            && (Respond(c, fd, DuoSwapRate(rate), hw).status.StopWait? <==>
                IsMaster(s, fd) && SlaveOn(s) && ValidRate(rate))
  {
  }

  /**
   Who is told to wait for the peer, in every reachable state: a slave that starts
   before its master, and a master that stops or changes the rate while its slave runs
   or releases while it has one.
   */
  lemma WaitAnswers(steps: seq<Step>, slot: nat, rate: int, hw: Hardware)
    requires Entry(After(steps), slot)
    ensures var c := After(steps);
            var s, fd := c.session, c.clients[slot];
            && (Respond(c, fd, DuoStart, hw).status.StartWait? <==> IsSlave(s, fd) && !MasterOn(s))
            && (Respond(c, fd, DuoStop, hw).status.StopWait? <==> IsMaster(s, fd) && SlaveOn(s))
            && (Respond(c, fd, DuoRelease, hw).status.StopWait? <==> IsMaster(s, fd) && !MasterOn(s) && s.Pair?)
            && (Respond(c, fd, DuoSwapRate(rate), hw).status.StartWait? <==> IsMaster(s, fd) && !MasterOn(s))
            && (Respond(c, fd, DuoSwapRate(rate), hw).status.StopWait? <==>
                IsMaster(s, fd) && SlaveOn(s) && ValidRate(rate))
  {
    ClaimsAlwaysOk(steps);
    WaitAnswer(After(steps), After(steps).clients[slot], rate, hw);
  }

  /** In every reachable state a new client is stored exactly if an entry is free, and disturbs nobody. */
  lemma ConnectExact(steps: seq<Step>, fd: int)
    requires fd >= 0 && fd !in After(steps).clients
    ensures var c, after := After(steps), After(steps + [Connection(fd)]);
            && (Connected(after, fd) <==> exists i :: 0 <= i < |c.clients| && c.clients[i] < 0)
            && after == c.(clients := after.clients)
            && forall slot: nat :: Entry(c, slot) ==> Entry(after, slot) && after.clients[slot] == c.clients[slot]
  {
    var c := After(steps);
    ClaimsAlwaysOk(steps);
    AfterNext(steps, Connection(fd));
    FirstFreeIsFree(c.clients, 0);
    var slot := FirstFree(c.clients, 0);
    if slot < |c.clients| {
      assert Connect(c, fd).clients[slot] == fd;
    }
  }
}
