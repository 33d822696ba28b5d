/**
 The stream thread beside the daemon's main loop. It chooses the descriptor of a
 frame and writes to it later, without a lock in between, while the main loop may
 close descriptors. Some commands join the thread first and so wait for its write.
 */
module StreamWrites {
  import opened Wrappers
  import opened DuoSession
  import opened DaemonClaims

  /** A descriptor picked for a frame, and the connection that it stood for at that moment. */
  datatype Choice = Choice(fd: int, id: nat, slave: bool, closed: bool)

  /** A write: the connection chosen and the one, if any, that the descriptor stands for now. */
  datatype Written = Written(choice: Choice, reached: Option<nat>)

  datatype State = State(
    claims: Claims,
    ids: map<int, nat>,        // the connection behind each open descriptor
    nextId: nat,
    streaming: bool,           // the stream thread exists
    choice: Option<Choice>,    // it stands between choosing and writing
    log: seq<Written>)

  datatype Action =
    | Open(fd: int)
    | Serve(slot: nat, command: Command, hw: Hardware)
    | Close(slot: nat)
    | StartStream
    | Choose(tuner: int)
    | Write

  function Initial(): State {
    State(Started(), map[], 0, false, None, [])
  }

  /** Requests that stop the stream and so join its thread. */
  predicate Joins(c: Claims, fd: int, command: Command) {
    match command
    case ReleaseOwner => c.owner == fd
    case DuoStop => c.duoActive && IsMaster(c.session, fd) && Uninitialise(c.session, fd).result == OK
    case DuoRelease =>
      c.duoActive && HasRole(c.session, fd) && Release(c.session, fd).session.Idle?
    case _ => false
  }

  /** Closing the owner or the master joins the thread; closing a slave does not. */
  predicate JoinsOnClose(c: Claims, fd: int) {
    if c.duoActive && HasRole(c.session, fd) then Disconnect(c.session, fd).session.Idle? else c.owner == fd
  }

  /** The main loop's step waits while the thread it joins is before its write. */
  predicate Enabled(s: State, a: Action) {
    match a
    case Open(fd) => fd >= 0 && fd !in s.claims.clients
    case Serve(slot, command, _) =>
      && slot < |s.claims.clients| && s.claims.clients[slot] >= 0
      && (Joins(s.claims, s.claims.clients[slot], command) ==> s.choice.None?)
    case Close(slot) =>
      && slot < |s.claims.clients| && s.claims.clients[slot] >= 0
      && (JoinsOnClose(s.claims, s.claims.clients[slot]) ==> s.choice.None?)
    case StartStream => !s.streaming
    case Choose(_) => s.streaming && s.choice.None?
    case Write => s.choice.Some?
  }

  function Lookup(ids: map<int, nat>, fd: int): Option<nat> {
    if fd in ids then Some(ids[fd]) else None
  }

  function Apply(s: State, a: Action): State
    requires Enabled(s, a)
  {
    match a
    case Open(fd) =>
      var after := Connect(s.claims, fd);
      if after == s.claims then s
      else s.(claims := after, ids := s.ids[fd := s.nextId], nextId := s.nextId + 1)
    case Serve(slot, command, hw) =>
      var fd := s.claims.clients[slot];
      s.(claims := Respond(s.claims, fd, command, hw).claims,
         streaming := s.streaming && !Joins(s.claims, fd, command))
    case Close(slot) =>
      var fd := s.claims.clients[slot];
      s.(claims := Remove(s.claims, slot), ids := s.ids - {fd},
         streaming := s.streaming && !JoinsOnClose(s.claims, fd),
         choice := if s.choice.Some? && s.choice.value.fd == fd then
                     Some(s.choice.value.(closed := true))
                   else s.choice)
    case StartStream => s.(streaming := true)
    case Choose(tuner) =>
      var fd := Target(s.claims, tuner);
      if fd < 0 || fd !in s.ids then s
      else s.(choice := Some(Choice(fd, s.ids[fd], s.claims.duoActive && IsSlave(s.claims.session, fd), false)))
    case Write =>
      s.(choice := None, log := s.log + [Written(s.choice.value, Lookup(s.ids, s.choice.value.fd))])
  }

  function Step(s: State, a: Action): State {
    if Enabled(s, a) then Apply(s, a) else s
  }

  function Run(actions: seq<Action>): State {
    if actions == [] then Initial() else Step(Run(actions[..|actions| - 1]), actions[|actions| - 1])
  }

  // ----------------------------------------------------------------- invariant

  /** Open descriptors are those of the table, and connections are told apart. */
  ghost predicate IdsOk(c: Claims, ids: map<int, nat>, nextId: nat) {
    && (forall fd :: fd in ids <==> Connected(c, fd))
    && (forall fd :: fd in ids ==> ids[fd] < nextId)
  }

  predicate Holds(c: Claims, fd: int) {
    c.owner == fd || IsMaster(c.session, fd)
  }

  /**
   A choice reaches its connection exactly while that was not closed. The owner and
   the master keep their claim, and so their connection, until the thread is joined.
   */
  predicate ChoiceOk(c: Claims, ids: map<int, nat>, nextId: nat, x: Choice) {
    && x.fd >= 0 && x.id < nextId
    && (x.closed <==> Lookup(ids, x.fd) != Some(x.id))
    && (!x.slave ==> !x.closed && Holds(c, x.fd))
  }

  predicate WrittenOk(w: Written) {
    && (w.reached == Some(w.choice.id) <==> !w.choice.closed)
    && (w.choice.closed ==> w.choice.slave)
  }

  ghost predicate LogOk(log: seq<Written>) {
    forall k :: 0 <= k < |log| ==> WrittenOk(log[k])
  }

  ghost predicate Safe(s: State) {
    && ClaimsOk(s.claims)
    && IdsOk(s.claims, s.ids, s.nextId)
    && (s.choice.Some? ==> ChoiceOk(s.claims, s.ids, s.nextId, s.choice.value))
    && LogOk(s.log)
  }

  /** A request that does not join the thread takes nobody's ownership or master role away. */
  lemma HolderStays(c: Claims, fd: int, command: Command, hw: Hardware, holder: int)
    requires ClaimsOk(c) && Connected(c, fd) && holder >= 0 && Holds(c, holder) && !Joins(c, fd, command)
    ensures Holds(Respond(c, fd, command, hw).claims, holder)
  {
  }

  lemma HolderStaysOnClose(c: Claims, slot: nat, holder: int)
    requires ClaimsOk(c) && slot < |c.clients| && c.clients[slot] >= 0
    requires holder >= 0 && Holds(c, holder) && !JoinsOnClose(c, c.clients[slot])
    ensures Holds(Remove(c, slot), holder) && c.clients[slot] != holder
  {
  }

  lemma OpenSafe(s: State, fd: int)
    requires Safe(s) && Enabled(s, Open(fd))
    ensures Safe(Apply(s, Open(fd)))
  {
    var slot := FirstFree(s.claims.clients, 0);
    ConnectKeeps(s.claims, fd);
    FirstFreeIsFree(s.claims.clients, 0);
    if slot < |s.claims.clients| {
      EntryAdded(s.claims.clients, slot, fd);
    }
  }

  /** Filling a free entry adds one descriptor to the table. */
  lemma EntryAdded(clients: seq<int>, slot: nat, fd: int)
    requires slot < |clients| && clients[slot] < 0 && fd >= 0
    ensures forall x :: x >= 0 ==> (x in clients[slot := fd] <==> x == fd || x in clients)
  {
    var after := clients[slot := fd];
    assert after[slot] == fd;
    forall x | x >= 0 && x in clients ensures x in after {
      var j :| 0 <= j < |clients| && clients[j] == x;
      assert after[j] == x;
    }
    forall x | x >= 0 && x in after ensures x == fd || x in clients {
      var j :| 0 <= j < |after| && after[j] == x;
      assert j != slot ==> clients[j] == x;
    }
  }

  lemma ServeSafe(s: State, slot: nat, command: Command, hw: Hardware)
    requires Safe(s) && Enabled(s, Serve(slot, command, hw))
    ensures Safe(Apply(s, Serve(slot, command, hw)))
  {
    var fd := s.claims.clients[slot];
    assert Connected(s.claims, fd);
    RespondKeeps(s.claims, fd, command, hw);
    if s.choice.Some? && !s.choice.value.slave {
      HolderStays(s.claims, fd, command, hw, s.choice.value.fd);
    }
  }

  lemma CloseSafe(s: State, slot: nat)
    requires Safe(s) && Enabled(s, Close(slot))
    ensures Safe(Apply(s, Close(slot)))
  {
    var c, fd := s.claims, s.claims.clients[slot];
    RemoveClears(c, slot);
    OthersStay(c, slot);
    var after := Remove(c, slot);
    assert after.clients == c.clients[slot := NOBODY];
    forall x | x >= 0 ensures x in after.clients <==> x in c.clients && x != fd {
      if x in after.clients {
        var j :| 0 <= j < |after.clients| && after.clients[j] == x;
        assert j != slot && c.clients[j] == x;
        assert Connected(after, x);
      } else if x in c.clients && x != fd {
        assert Connected(c, x);
      }
    }
    if s.choice.Some? && !s.choice.value.slave {
      HolderStaysOnClose(c, slot, s.choice.value.fd);
    }
  }

  lemma ChooseSafe(s: State, tuner: int)
    requires Safe(s) && Enabled(s, Choose(tuner))
    ensures Safe(Apply(s, Choose(tuner)))
  {
  }

  lemma {:induction false} RunSafe(actions: seq<Action>)
    ensures Safe(Run(actions))
  {
    if actions == [] {
      ClaimsAlwaysOk([]);
    } else {
      var s, a := Run(actions[..|actions| - 1]), actions[|actions| - 1];
      RunSafe(actions[..|actions| - 1]);
      if Enabled(s, a) {
        match a {
          case Open(fd) => OpenSafe(s, fd);
          case Serve(slot, command, hw) => ServeSafe(s, slot, command, hw);
          case Close(slot) => CloseSafe(s, slot);
          case Choose(tuner) => ChooseSafe(s, tuner);
          case _ =>
        }
      }
    }
  }

  // ------------------------------------------------------------------ theorems

  /**
   In every run, a frame is written to the connection that it was chosen for exactly
   if that was not closed between the choice and the write, and only a slave's can
   be: a frame for the owner or the master always reaches it.
   */
  lemma WritesReachTheChosen(actions: seq<Action>, k: nat)
    requires k < |Run(actions).log|
    ensures var w := Run(actions).log[k];
            && (w.reached == Some(w.choice.id) <==> !w.choice.closed)
            && (w.choice.closed ==> w.choice.slave)
  {
    RunSafe(actions);
  }

  /**
   What the thread chooses, in every reachable state: the descriptor that the claims
   name for the tuner, always a connected one, or nothing exactly if they name nobody.
   A write that follows at once reaches its connection.
   */
  lemma ChoiceIsConnected(actions: seq<Action>, tuner: int)
    requires Enabled(Run(actions), Choose(tuner))
    ensures var s, chosen := Run(actions), Step(Run(actions), Choose(tuner));
            var fd := Target(s.claims, tuner);
            && (chosen.choice.Some? <==> fd != NOBODY)
            && (fd != NOBODY ==>
                  && Connected(s.claims, fd) && fd in s.ids
                  && chosen.choice == Some(Choice(fd, s.ids[fd], IsSlave(s.claims.session, fd), false))
                  && Step(chosen, Write).log == s.log + [Written(chosen.choice.value, Some(s.ids[fd]))])
  {
    RunSafe(actions);
  }

  /**
   A slave's frame can miss: wherever the thread may choose a running slave, closing
   the slave before the write sends the frame to a closed descriptor, and if a new
   client got the descriptor by then, to that client.
   */
  lemma SlaveCanBeMissed(s: State, slot: nat)
    requires Safe(s) && s.streaming && s.choice.None? && SlaveOn(s.claims.session)
    requires slot < |s.claims.clients| && s.claims.clients[slot] == s.claims.session.slave
    ensures var fd := s.claims.session.slave;
            var closed := Step(Step(s, Choose(OtherTuner(s.claims.session.tuner))), Close(slot));
            && closed.choice.Some? && closed.choice.value.closed
            && Step(closed, Write).log == s.log + [Written(closed.choice.value, None)]
            && Step(Step(closed, Open(fd)), Write).log == s.log + [Written(closed.choice.value, Some(s.nextId))]
            && closed.choice.value.id < s.nextId
  {
    var c, fd := s.claims, s.claims.session.slave;
    var chosen := Step(s, Choose(OtherTuner(c.session.tuner)));
    assert Target(c, OtherTuner(c.session.tuner)) == fd && Connected(c, fd);
    assert chosen.choice == Some(Choice(fd, s.ids[fd], true, false));
    assert !JoinsOnClose(c, fd);
    RemoveClears(c, slot);
    var closed := Step(chosen, Close(slot));
    FirstFreeIsFree(closed.claims.clients, 0);
    assert closed.claims.clients[slot] < 0;
  }

  lemma RunNext(actions: seq<Action>, a: Action)
    ensures Run(actions + [a]) == Step(Run(actions), a)
  {
    assert (actions + [a])[..|actions|] == actions;
  }

  lemma TwoClients() returns (actions: seq<Action>)
    ensures var s := Run(actions);
            && |s.claims.clients| == MAX_CLIENTS && s.claims.clients[0] == 3 && s.claims.clients[1] == 4
            && s.claims == Started().(clients := s.claims.clients)
            && !s.streaming && s.choice.None?
  {
    var one := [Open(3)];
    assert one == [] + one;
    RunNext([], Open(3));
    assert Run(one).claims.clients[0] == 3;
    assert FirstFree(Run(one).claims.clients, 0) == FirstFree(Run(one).claims.clients, 1) == 1;
    actions := one + [Open(4)];
    RunNext(one, Open(4));
  }

  lemma MasterRuns(hw: Hardware) returns (actions: seq<Action>)
    requires hw.identityFound && hw.prepared && hw.configured
    ensures var s := Run(actions);
            && |s.claims.clients| == MAX_CLIENTS && s.claims.clients[0] == 3 && s.claims.clients[1] == 4
            && s.claims.session == MasterOnly(3, TUNER_A, 6000000, true)
            && s.claims.owner == NOBODY && s.claims.duoActive && !s.streaming && s.choice.None?
  {
    actions := TwoClients();
    var acquire := Serve(0, DuoAcquire(ROLE_MASTER, TUNER_A, 6000000), hw);
    RunNext(actions, acquire);
    actions := actions + [acquire];
    RunNext(actions, Serve(0, DuoStart, hw));
    actions := actions + [Serve(0, DuoStart, hw)];
  }

  /** A state in which that can happen is reached by a master and a slave that start in order. */
  lemma SlaveRuns(hw: Hardware) returns (actions: seq<Action>)
    requires hw.identityFound && hw.sameIdentity && hw.prepared && hw.configured && hw.ready
    ensures var s := Run(actions);
            && s.streaming && s.choice.None? && SlaveOn(s.claims.session)
            && 1 < |s.claims.clients| && s.claims.clients[1] == s.claims.session.slave
  {
    actions := MasterRuns(hw);
    var acquire := Serve(1, DuoAcquire(ROLE_SLAVE, TUNER_B, 0), hw);
    RunNext(actions, acquire);
    actions := actions + [acquire];
    RunNext(actions, Serve(1, DuoStart, hw));
    actions := actions + [Serve(1, DuoStart, hw)];
    RunNext(actions, StartStream);
    actions := actions + [StartStream];
  }
}
