/** Who may use the receiver: the daemon's single owner, duo session and API-lock lease. */
module DaemonClaims {
  import opened DuoSession

  const NOBODY: int := -1
  const MAX_CLIENTS: nat := 32

  datatype Status = Good | BadRequest | Unsupported | Occupied | IoError | StartWait | StopWait

  /** The descriptor table and every claim on the receiver. */
  datatype Claims = Claims(
    clients: seq<int>,
    owner: int,
    apiLock: int,
    session: Session,
    duoActive: bool)

  /** Results of calls into the hardware library, the device list and the shutdown flag. */
  datatype Hardware = Hardware(
    identityFound: bool,   // the requested device was resolved
    sameIdentity: bool,    // a slave names the device that the master acquired
    prepared: bool,        // the combined configuration of both tuners is valid
    preparedAtRate: bool,  // it is still valid at the requested rate
    stopped: bool,         // the stream stopped cleanly
    reset: bool,           // stream and radio were shut down cleanly
    configured: bool,      // the radio accepted the dual configuration
    ready: bool,           // a configured radio is open
    running: bool)         // the daemon is not shutting down

  datatype Command =
    | LockApi
    | UnlockApi
    | DuoAcquire(role: int, tuner: int, rate: int)
    | DuoStart
    | DuoStop
    | DuoRelease
    | DuoSwapRate(newRate: int)
    | AcquireOwner
    | ReleaseOwner
    | NoClaim(status: Status)   // commands that change no claim

  datatype Answer = Answer(claims: Claims, status: Status, event: Event)

  predicate HasRole(s: Session, fd: int) {
    IsMaster(s, fd) || IsSlave(s, fd)
  }

  function StatusOf(r: Result): Status {
    match r
    case OK => Good
    case StartPending => StartWait
    case StopPending => StopWait
    case Busy => Occupied
    case Invalid => BadRequest
  }

  function NoRole(c: Claims): Answer {
    Answer(c, if c.owner >= 0 then Occupied else Unsupported, NoEvent)
  }

  function Rejected(c: Claims, fd: int): Answer {
    Answer(c, if c.owner >= 0 && c.owner != fd then Occupied else Unsupported, NoEvent)
  }

  function ServeLock(c: Claims, fd: int): Answer {
    if c.apiLock >= 0 && c.apiLock != fd then Answer(c, Occupied, NoEvent)
    else Answer(c.(apiLock := fd), Good, NoEvent)
  }

  function ServeUnlock(c: Claims, fd: int): Answer {
    if c.apiLock == fd then Answer(FreeLease(c, fd), Good, NoEvent) else Rejected(c, fd)
  }

  /** `release_api_lock`: the lease of a descriptor that goes away is free. */
  function FreeLease(c: Claims, fd: int): Claims {
    c.(apiLock := if c.apiLock == fd then NOBODY else c.apiLock)
  }

  function ServeDuoAcquire(
    c: Claims, fd: int, role: int, tuner: int, rate: int, hw: Hardware): Answer
  {
    if c.owner >= 0 || (c.duoActive && role == ROLE_MASTER && !c.session.Idle?) then
      Answer(c, Occupied, NoEvent)
    else if role != ROLE_MASTER && role != ROLE_SLAVE then
      Answer(c, BadRequest, NoEvent)
    else if !hw.identityFound ||
            (role == ROLE_SLAVE && !(c.duoActive && !c.session.Idle? && hw.sameIdentity)) then
      Answer(c, BadRequest, NoEvent)
    else
      var o := Acquire(c.session, fd, role, tuner, rate);
      Answer(c.(session := o.session, duoActive := c.duoActive || o.result == OK),
             StatusOf(o.result), o.event)
  }

  /** A start that the radio does not follow is rolled back by clearing one flag of the session. */
  function ServeDuoStart(c: Claims, fd: int, hw: Hardware): Answer {
    var o := Initialise(c.session, fd);
    if o.result != OK then
      Answer(c, StatusOf(o.result), NoEvent)
    else if IsMaster(c.session, fd) then
      if !hw.prepared then Answer(c, BadRequest, NoEvent)
      else if !hw.configured then Answer(c, IoError, NoEvent)
      else Answer(c.(session := o.session), Good, o.event)
    else if !hw.ready then Answer(c, IoError, NoEvent)
    else Answer(c.(session := o.session), Good, o.event)
  }

  function ServeDuoStop(c: Claims, fd: int, hw: Hardware): Answer {
    var o := Uninitialise(c.session, fd);
    Answer(c.(session := o.session),
           if o.result == OK && IsMaster(c.session, fd) && !hw.reset then IoError
           else StatusOf(o.result),
           o.event)
  }

  function ServeDuoRelease(c: Claims, fd: int, hw: Hardware): Answer {
    var o := Release(c.session, fd);
    var last := o.result == OK && o.session.Idle?;
    Answer(c.(session := o.session, duoActive := c.duoActive && !last),
           if last && !hw.reset then IoError else StatusOf(o.result), o.event)
  }

  function ServeSwapRate(c: Claims, fd: int, rate: int, hw: Hardware): Answer
    requires HasRole(c.session, fd)
  {
    var s := c.session;
    if !IsMaster(s, fd) then Answer(c, BadRequest, NoEvent)
    else if !s.running then Answer(c, StartWait, NoEvent)
    else if !ValidRate(rate) then Answer(c, BadRequest, NoEvent)
    else if s.Pair? && s.slaveRunning then Answer(c, StopWait, NoEvent)
    else if rate == s.rate then Answer(c, Good, NoEvent)
    else if !hw.prepared then Answer(c, BadRequest, NoEvent)
    else if !hw.stopped then Answer(c, IoError, NoEvent)
    else if !hw.preparedAtRate then Answer(c, BadRequest, NoEvent)
    else if !hw.reset || !hw.configured then Answer(c, IoError, NoEvent)
    else Answer(c.(session := s.(rate := rate)), Good, NoEvent)
  }

  function ServeAcquire(c: Claims, fd: int, hw: Hardware): Answer {
    if c.duoActive then Answer(c, Occupied, NoEvent)
    else if c.owner >= 0 && c.owner != fd then Answer(c, Occupied, NoEvent)
    else if c.owner == fd then Answer(c, Good, NoEvent)
    else if !hw.identityFound then Answer(c, BadRequest, NoEvent)
    else if !hw.running then Answer(c, IoError, NoEvent)
    else Answer(c.(owner := fd), Good, NoEvent)
  }

  /** `release_client`: drop the descriptor's role in the session, else its ownership. */
  function Drop(c: Claims, fd: int): (Claims, Event) {
    if c.duoActive && HasRole(c.session, fd) then
      var o := Disconnect(c.session, fd);
      (c.(session := o.session, duoActive := !o.session.Idle?), o.event)
    else if c.owner == fd then (c.(owner := NOBODY), NoEvent)
    else (c, NoEvent)
  }

  /** The claims part of `serve_request`; an event is sent only with a Good status. */
  function Respond(c: Claims, fd: int, command: Command, hw: Hardware): Answer {
    match command
    case LockApi => ServeLock(c, fd)
    case UnlockApi => ServeUnlock(c, fd)
    case DuoAcquire(role, tuner, rate) => ServeDuoAcquire(c, fd, role, tuner, rate, hw)
    case DuoStart => if c.duoActive && HasRole(c.session, fd) then ServeDuoStart(c, fd, hw) else NoRole(c)
    case DuoStop => if c.duoActive && HasRole(c.session, fd) then ServeDuoStop(c, fd, hw) else NoRole(c)
    case DuoRelease =>
      if c.duoActive && HasRole(c.session, fd) then ServeDuoRelease(c, fd, hw) else NoRole(c)
    case DuoSwapRate(rate) =>
      if c.duoActive && HasRole(c.session, fd) then ServeSwapRate(c, fd, rate, hw) else NoRole(c)
    case AcquireOwner => ServeAcquire(c, fd, hw)
    case ReleaseOwner =>
      if c.owner == fd then Answer(Drop(c, fd).0, Good, NoEvent) else Rejected(c, fd)
    case NoClaim(status) => Answer(c, status, NoEvent)
  }

  /** `remove_client`: drop every claim of a table entry, then close it. */
  function Remove(c: Claims, slot: nat): Claims
    requires slot < |c.clients|
  {
    var fd := c.clients[slot];
    if fd < 0 then c
    else
      var dropped := FreeLease(Drop(c, fd).0, fd);
      dropped.(clients := dropped.clients[slot := NOBODY])
  }

  function FirstFree(clients: seq<int>, from: nat): nat
    requires from <= |clients|
    decreases |clients| - from
  {
    if from == |clients| || clients[from] < 0 then from else FirstFree(clients, from + 1)
  }

  /** A new connection takes the first free table entry; without one it is refused. */
  function Connect(c: Claims, fd: int): Claims {
    var slot := FirstFree(c.clients, 0);
    if slot < |c.clients| then c.(clients := c.clients[slot := fd]) else c
  }

  /** The descriptor that receives the IQ frames of a tuner, as `send_stream` chooses it. */
  function Target(c: Claims, tuner: int): int {
    if c.duoActive then Route(c.session, tuner) else c.owner
  }

  // ------------------------------------------------------------ every step kept

  ghost predicate Connected(c: Claims, fd: int) {
    fd >= 0 && fd in c.clients
  }

  ghost predicate EntriesDiffer(clients: seq<int>) {
    forall i, j :: 0 <= i < j < |clients| && clients[i] >= 0 ==> clients[i] != clients[j]
  }

  /** Session members are connected. */
  ghost predicate MembersConnected(c: Claims) {
    && (!c.session.Idle? ==> Connected(c, c.session.master))
    && (c.session.Pair? ==> Connected(c, c.session.slave))
  }

  ghost predicate ClaimsOk(c: Claims) {
    && EntriesDiffer(c.clients)
    && WellFormed(c.session)
    && (c.owner == NOBODY || Connected(c, c.owner))
    && (c.apiLock == NOBODY || Connected(c, c.apiLock))
    && MembersConnected(c)
    && (c.duoActive <==> !c.session.Idle?)
    && !(c.owner >= 0 && c.duoActive)
  }

  /** A change of the session keeps the claims if its members are the old ones or the caller. */
  lemma SessionKeeps(c: Claims, fd: int, s: Session)
    requires ClaimsOk(c) && Connected(c, fd) && c.owner < 0 && WellFormed(s)
    requires !s.Idle? ==> s.master == fd || (!c.session.Idle? && s.master == c.session.master)
    requires s.Pair? ==> s.slave == fd || (c.session.Pair? && s.slave == c.session.slave)
    ensures ClaimsOk(c.(session := s, duoActive := !s.Idle?))
  {
  }

  predicate IsDuo(command: Command) {
    || command.DuoAcquire? || command.DuoStart? || command.DuoStop? || command.DuoRelease?
    || command.DuoSwapRate?
  }

  /** A session command hands roles only to the caller and keeps the session well formed. */
  lemma DuoRespondSession(c: Claims, fd: int, command: Command, hw: Hardware)
    requires WellFormed(c.session) && (c.duoActive <==> !c.session.Idle?)
    requires fd >= 0 && c.owner < 0 && IsDuo(command)
    ensures var after := Respond(c, fd, command, hw).claims;
            var s := after.session;
            && WellFormed(s)
            && after == c.(session := s, duoActive := !s.Idle?)
            && (!s.Idle? ==> s.master == fd || (!c.session.Idle? && s.master == c.session.master))
            && (s.Pair? ==> s.slave == fd || (c.session.Pair? && s.slave == c.session.slave))
  {
  }

  /** While the receiver has a single owner no session command changes anything. */
  lemma OwnedNoSession(c: Claims, fd: int, command: Command, hw: Hardware)
    requires c.owner >= 0 && !c.duoActive && IsDuo(command)
    ensures Respond(c, fd, command, hw).claims == c
  {
  }

  /** A connected client's request keeps every claim with a connected descriptor. */
  lemma RespondKeeps(c: Claims, fd: int, command: Command, hw: Hardware)
    requires ClaimsOk(c) && Connected(c, fd)
    ensures ClaimsOk(Respond(c, fd, command, hw).claims)
    ensures Respond(c, fd, command, hw).claims.clients == c.clients
  {
    if IsDuo(command) {
      if c.owner < 0 {
        DuoRespondSession(c, fd, command, hw);
        SessionKeeps(c, fd, Respond(c, fd, command, hw).claims.session);
      } else {
        OwnedNoSession(c, fd, command, hw);
      }
    }
  }

  /** Closing a descriptor leaves it without owner, role, lease or IQ lane. */
  lemma RemoveClears(c: Claims, slot: nat)
    requires ClaimsOk(c) && slot < |c.clients| && c.clients[slot] >= 0
    ensures var after, fd := Remove(c, slot), c.clients[slot];
            && ClaimsOk(after)
            && !Connected(after, fd)
            && after.owner != fd && after.apiLock != fd && !HasRole(after.session, fd)
            && forall tuner :: Target(after, tuner) != fd
  {
    var after, fd := Remove(c, slot), c.clients[slot];
    assert after.clients == c.clients[slot := NOBODY];
    forall j | 0 <= j < |after.clients| ensures after.clients[j] != fd {
      assert j < slot ==> c.clients[j] != c.clients[slot];
    }
    OthersStay(c, slot);
    DisconnectClears(c.session, fd);
  }

  /** Closing one descriptor keeps the others connected. */
  lemma OthersStay(c: Claims, slot: nat)
    requires slot < |c.clients|
    ensures forall fd :: Connected(c, fd) && fd != c.clients[slot] ==>
              fd in c.clients[slot := NOBODY]
  {
    var after := c.clients[slot := NOBODY];
    forall fd | Connected(c, fd) && fd != c.clients[slot] ensures fd in after {
      var j :| 0 <= j < |c.clients| && c.clients[j] == fd;
      assert after[j] == fd;
    }
  }

  lemma {:induction false} FirstFreeIsFree(clients: seq<int>, from: nat)
    requires from <= |clients|
    ensures from <= FirstFree(clients, from) <= |clients|
    ensures FirstFree(clients, from) < |clients| ==> clients[FirstFree(clients, from)] < 0
    ensures forall i :: from <= i < FirstFree(clients, from) ==> clients[i] >= 0
    decreases |clients| - from
  {
    if from < |clients| && clients[from] >= 0 {
      FirstFreeIsFree(clients, from + 1);
    }
  }

  lemma ConnectKeeps(c: Claims, fd: int)
    requires ClaimsOk(c) && fd >= 0 && fd !in c.clients
    ensures ClaimsOk(Connect(c, fd))
  {
    var slot := FirstFree(c.clients, 0);
    FirstFreeIsFree(c.clients, 0);
    if slot < |c.clients| {
      var after := Connect(c, fd).clients;
      forall x | x >= 0 && x in c.clients ensures x in after {
        var j :| 0 <= j < |c.clients| && c.clients[j] == x;
        assert after[j] == x;
      }
    }
  }

  datatype Step =
    | Connection(fd: int)
    | Request(slot: nat, command: Command, hw: Hardware)
    | Removal(slot: nat)

  /** The operating system hands out a descriptor that is not open; requests come from open ones. */
  function Next(c: Claims, s: Step): Claims {
    match s
    case Connection(fd) => if fd >= 0 && fd !in c.clients then Connect(c, fd) else c
    case Request(slot, command, hw) =>
      if slot < |c.clients| && c.clients[slot] >= 0 then
        Respond(c, c.clients[slot], command, hw).claims
      else c
    case Removal(slot) => if slot < |c.clients| then Remove(c, slot) else c
  }

  function Started(): Claims {
    Claims(seq(MAX_CLIENTS, _ => NOBODY), NOBODY, NOBODY, Idle, false)
  }

  function After(steps: seq<Step>): Claims {
    if steps == [] then Started()
    else Next(After(steps[..|steps| - 1]), steps[|steps| - 1])
  }

  /**
   Daemon claims: after every series of connections, requests and disconnects,
   with any hardware results, the owner, both session members and the lease
   holder are unset or connected; an owner and a session never coexist; and the
   daemon is in session mode exactly when a master is selected.
   */
  lemma {:induction false} ClaimsAlwaysOk(steps: seq<Step>)
    ensures ClaimsOk(After(steps))
  {
    if steps != [] {
      var before := steps[..|steps| - 1];
      ClaimsAlwaysOk(before);
      var c := After(before);
      match steps[|steps| - 1] {
        case Connection(fd) => if fd >= 0 && fd !in c.clients { ConnectKeeps(c, fd); }
        case Request(slot, command, hw) =>
          if slot < |c.clients| && c.clients[slot] >= 0 {
            RespondKeeps(c, c.clients[slot], command, hw);
          }
        case Removal(slot) =>
          if slot < |c.clients| && c.clients[slot] >= 0 { RemoveClears(c, slot); }
      }
    }
  }

  /** In every reachable state the descriptor chosen for a frame is connected or nobody, and lanes differ. */
  lemma TargetsConnected(steps: seq<Step>, t: int, u: int)
    requires ValidTuner(t) && ValidTuner(u) && t != u
    ensures var c := After(steps);
            && (Target(c, t) == NOBODY || Connected(c, Target(c, t)))
            && (c.duoActive && Target(c, t) != NOBODY ==> Target(c, t) != Target(c, u))
  {
    ClaimsAlwaysOk(steps);
    var c := After(steps);
    if c.duoActive && Route(c.session, t) != NO_CLIENT {
      RoutesDistinct(c.session, t, u);
    }
  }

  // ------------------------------------------------------------ one poll cycle

  /** All hang-ups of a poll cycle are cleaned up before any request is served. */
  function RemoveAll(c: Claims, slots: seq<nat>): Claims
    requires forall k :: 0 <= k < |slots| ==> slots[k] < |c.clients|
    decreases |slots|
  {
    if slots == [] then c
    else
      var first := Remove(c, slots[0]);
      assert |first.clients| == |c.clients|;
      RemoveAll(first, slots[1..])
  }

  lemma {:induction false} LeaseFreed(c: Claims, slots: seq<nat>)
    requires ClaimsOk(c)
    requires forall k :: 0 <= k < |slots| ==> slots[k] < |c.clients|
    requires c.apiLock == NOBODY || exists k :: 0 <= k < |slots| && c.clients[slots[k]] == c.apiLock
    ensures RemoveAll(c, slots).apiLock == NOBODY
    decreases |slots|
  {
    if slots != [] {
      var first := Remove(c, slots[0]);
      if c.clients[slots[0]] >= 0 {
        RemoveClears(c, slots[0]);
      }
      if first.apiLock != NOBODY {
        var k :| 0 <= k < |slots| && c.clients[slots[k]] == c.apiLock;
        assert k > 0 && slots[1..][k - 1] == slots[k];
        assert first.clients[slots[k]] == first.apiLock;
      }
      LeaseFreed(first, slots[1..]);
    }
  }

  /**
   A contender whose request is ready in the same poll cycle as the hang-up of
   the crashed lease holder gets the lease.
   */
  lemma CrashedHolderYields(c: Claims, hangups: seq<nat>, fd: int, hw: Hardware)
    requires ClaimsOk(c)
    requires forall k :: 0 <= k < |hangups| ==> hangups[k] < |c.clients|
    requires exists k :: 0 <= k < |hangups| && c.clients[hangups[k]] == c.apiLock
    ensures var a := Respond(RemoveAll(c, hangups), fd, LockApi, hw);
            a.status == Good && a.claims.apiLock == fd
  {
    LeaseFreed(c, hangups);
  }
}
