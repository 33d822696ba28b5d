/** The daemon's mutable state behind module DaemonClaims: client table, owner, lease, session. */
module DaemonState {
  import opened DuoSession
  import opened DaemonClaims

  class DaemonState {
    const clients: array<int>
    const duo: DuoRecord
    var owner: int
    var apiLock: int
    var duoActive: bool

    ghost predicate Valid()
      reads this, clients, duo
    {
      duo.Valid() && ClaimsOk(Value())
    }

    ghost function Value(): Claims
      reads this, clients, duo
    {
      Claims(clients[..], owner, apiLock, duo.State(), duoActive)
    }

    constructor ()
      ensures Valid() && Value() == Started()
      ensures fresh(clients) && fresh(duo)
    {
      clients := new int[MAX_CLIENTS](_ => NOBODY);
      duo := new DuoRecord();
      owner, apiLock, duoActive := NOBODY, NOBODY, false;
      new;
      assert clients[..] == Started().clients;
    }

    method HandleLock(fd: int, hw: Hardware) returns (status: Status)
      requires Valid() && Connected(Value(), fd)
      modifies this`apiLock
      ensures Valid()
      ensures Answer(Value(), status, NoEvent) == Respond(old(Value()), fd, LockApi, hw)
      ensures status == if old(apiLock) == NOBODY || old(apiLock) == fd then Good else Occupied
      ensures apiLock == if status.Good? then fd else old(apiLock)
    {
      RespondKeeps(Value(), fd, LockApi, hw);
      if apiLock >= 0 && apiLock != fd {
        return Occupied;
      }
      apiLock := fd;
      return Good;
    }

    method ReleaseApiLock(fd: int)
      modifies this`apiLock
      ensures Value() == FreeLease(old(Value()), fd)
    {
      if apiLock == fd {
        apiLock := NOBODY;
      }
    }

    method HandleDuoAcquire(fd: int, role: int, tuner: int, rate: int, hw: Hardware)
      returns (status: Status, event: Event)
      requires Valid() && Connected(Value(), fd)
      modifies this`duoActive, duo
      ensures Valid()
      ensures Answer(Value(), status, event) ==
              Respond(old(Value()), fd, DuoAcquire(role, tuner, rate), hw)
    {
      RespondKeeps(Value(), fd, DuoAcquire(role, tuner, rate), hw);
      event := NoEvent;
      if owner >= 0 || (duoActive && role == ROLE_MASTER && duo.masterSelected) {
        return Occupied, event;
      }
      if role != ROLE_MASTER && role != ROLE_SLAVE {
        return BadRequest, event;
      }
      if !hw.identityFound {
        return BadRequest, event;
      }
      if role == ROLE_SLAVE && !(duoActive && duo.masterSelected && hw.sameIdentity) {
        return BadRequest, event;
      }
      var result;
      result, event := duo.DoAcquire(fd, role, tuner, rate);
      if result == OK {
        duoActive := true;
      }
      return StatusOf(result), event;
    }

    /** The daemon takes back the master's start by writing one flag of the record. */
    method UndoMasterStart()
      requires duo.Valid() && duo.masterInitialised && !duo.slaveInitialised
      modifies duo
      ensures duo.Valid() && !duo.State().Idle? && !duo.State().running
      ensures old(duo.State()) == duo.State().(running := true)
    {
      duo.masterInitialised := false;
    }

    method UndoSlaveStart()
      requires duo.Valid() && duo.slaveInitialised
      modifies duo
      ensures duo.Valid() && !duo.State().Idle? && duo.State().Pair? && !duo.State().slaveRunning
      ensures old(duo.State()) == duo.State().(slaveRunning := true)
    {
      duo.slaveInitialised := false;
    }

    /** The start of a lane, with the flag written back when the radio does not follow. */
    method HandleDuoStart(fd: int, hw: Hardware) returns (status: Status, event: Event)
      requires Valid() && Connected(Value(), fd)
      modifies duo
      ensures Valid()
      ensures Answer(Value(), status, event) == Respond(old(Value()), fd, DuoStart, hw)
    {
      RespondKeeps(Value(), fd, DuoStart, hw);
      event := NoEvent;
      var master := duo.masterSelected && duo.masterFd == fd;
      var slave := duo.slaveSelected && duo.slaveFd == fd;
      if !duoActive || !(master || slave) {
        return if owner >= 0 then Occupied else Unsupported, event;
      }
      var result;
      result, event := duo.DoInitialise(fd);
      if result != OK {
        return StatusOf(result), event;
      }
      if master {
        if !hw.prepared {
          UndoMasterStart();
          return BadRequest, NoEvent;
        }
        if !hw.configured {
          UndoMasterStart();
          return IoError, NoEvent;
        }
      } else if !hw.ready {
        UndoSlaveStart();
        return IoError, NoEvent;
      }
      return Good, event;
    }

    method HandleDuoStop(fd: int, hw: Hardware) returns (status: Status, event: Event)
      requires Valid() && Connected(Value(), fd)
      modifies duo
      ensures Valid()
      ensures Answer(Value(), status, event) == Respond(old(Value()), fd, DuoStop, hw)
    {
      RespondKeeps(Value(), fd, DuoStop, hw);
      event := NoEvent;
      var master := duo.masterSelected && duo.masterFd == fd;
      var slave := duo.slaveSelected && duo.slaveFd == fd;
      if !duoActive || !(master || slave) {
        return if owner >= 0 then Occupied else Unsupported, event;
      }
      var result;
      result, event := duo.DoUninitialise(fd);
      if result == OK && master && !hw.reset {
        return IoError, event;
      }
      return StatusOf(result), event;
    }

    method HandleDuoRelease(fd: int, hw: Hardware) returns (status: Status, event: Event)
      requires Valid() && Connected(Value(), fd)
      modifies this`duoActive, duo
      ensures Valid()
      ensures Answer(Value(), status, event) == Respond(old(Value()), fd, DuoRelease, hw)
    {
      RespondKeeps(Value(), fd, DuoRelease, hw);
      event := NoEvent;
      var master := duo.masterSelected && duo.masterFd == fd;
      var slave := duo.slaveSelected && duo.slaveFd == fd;
      if !duoActive || !(master || slave) {
        return if owner >= 0 then Occupied else Unsupported, event;
      }
      var result;
      result, event := duo.DoRelease(fd);
      status := StatusOf(result);
      if result == OK && !duo.masterSelected && !duo.slaveSelected {
        status := if hw.reset then Good else IoError;
        duoActive := false;
      }
    }

    /** The direct rate write, undone when the radio cannot be reconfigured. */
    method HandleSwapRate(fd: int, rate: int, hw: Hardware) returns (status: Status)
      requires Valid() && Connected(Value(), fd)
      modifies duo
      ensures Valid()
      ensures Answer(Value(), status, NoEvent) == Respond(old(Value()), fd, DuoSwapRate(rate), hw)
    {
      RespondKeeps(Value(), fd, DuoSwapRate(rate), hw);
      var master := duo.masterSelected && duo.masterFd == fd;
      var slave := duo.slaveSelected && duo.slaveFd == fd;
      if !duoActive || !(master || slave) {
        return if owner >= 0 then Occupied else Unsupported;
      }
      if !master {
        return BadRequest;
      }
      if !duo.masterInitialised {
        return StartWait;
      }
      if !ValidRate(rate) {
        return BadRequest;
      }
      if duo.slaveInitialised {
        return StopWait;
      }
      if rate == duo.sampleRate {
        return Good;
      }
      if !hw.prepared {
        return BadRequest;
      }
      if !hw.stopped {
        return IoError;
      }
      var saved := duo.sampleRate;
      duo.sampleRate := rate;
      if !hw.preparedAtRate {
        duo.sampleRate := saved;
        return BadRequest;
      }
      if !hw.reset || !hw.configured {
        duo.sampleRate := saved;
        return IoError;
      }
      return Good;
    }

    method HandleAcquire(fd: int, hw: Hardware) returns (status: Status)
      requires Valid() && Connected(Value(), fd)
      modifies this`owner
      ensures Valid()
      ensures Answer(Value(), status, NoEvent) == Respond(old(Value()), fd, AcquireOwner, hw)
    {
      RespondKeeps(Value(), fd, AcquireOwner, hw);
      if duoActive {
        return Occupied;
      }
      if owner >= 0 && owner != fd {
        return Occupied;
      }
      if owner == fd {
        return Good;
      }
      if !hw.identityFound {
        return BadRequest;
      }
      if !hw.running {
        return IoError;
      }
      owner := fd;
      return Good;
    }

    /** `release_client`. */
    method ReleaseClient(fd: int) returns (event: Event)
      requires Valid() && fd >= 0
      modifies this`owner, this`duoActive, duo
      ensures duo.Valid() && (Value(), event) == Drop(old(Value()), fd)
    {
      event := NoEvent;
      var master := duo.masterSelected && duo.masterFd == fd;
      var slave := duo.slaveSelected && duo.slaveFd == fd;
      if duoActive && (master || slave) {
        var result;
        result, event := duo.DoDisconnect(fd);
        if !duo.masterSelected && !duo.slaveSelected {
          duoActive := false;
        }
        return;
      }
      if owner != fd {
        return;
      }
      owner := NOBODY;
    }

    /** `remove_client`. */
    method RemoveClient(slot: nat)
      requires Valid() && slot < clients.Length
      modifies this`owner, this`apiLock, this`duoActive, duo, clients
      ensures Valid()
      ensures Value() == Remove(old(Value()), slot)
    {
      var fd := clients[slot];
      if fd < 0 {
        return;
      }
      RemoveClears(Value(), slot);
      var _ := ReleaseClient(fd);
      ReleaseApiLock(fd);
      clients[slot] := NOBODY;
      assert clients[..] == old(clients[..])[slot := NOBODY];
    }

    /** The table part of `accept_clients`. */
    method AcceptClient(fd: int) returns (stored: bool)
      requires Valid() && fd >= 0 && fd !in clients[..]
      modifies clients
      ensures Valid()
      ensures Value() == Connect(old(Value()), fd)
      ensures stored <==> exists i :: 0 <= i < clients.Length && old(clients[i]) < 0
    {
      ConnectKeeps(Value(), fd);
      FirstFreeIsFree(clients[..], 0);
      stored := false;
      var index := 0;
      while index < clients.Length
        invariant index <= clients.Length && !stored
        invariant clients[..] == old(clients[..])
        invariant forall i :: 0 <= i < index ==> clients[i] >= 0
      {
        if clients[index] < 0 {
          assert index == FirstFree(old(clients[..]), 0);
          clients[index] := fd;
          assert clients[..] == old(clients[..])[index := fd];
          stored := true;
          return;
        }
        index := index + 1;
      }
    }

    /** The target choice of `send_stream`. */
    method StreamTarget(tuner: int) returns (fd: int)
      requires Valid() && ValidTuner(tuner)
      ensures fd == Target(Value(), tuner)
      ensures fd == NOBODY || Connected(Value(), fd)
    {
      if duoActive {
        var status;
        status, fd := duo.DoRoute(tuner);
        if fd != NO_CLIENT {
          RoutesDistinct(duo.State(), tuner, OtherTuner(tuner));
        }
      } else {
        fd := owner;
      }
    }
  }
}
