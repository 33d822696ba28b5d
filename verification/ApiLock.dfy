/**
 `LockDeviceApi` and `UnlockDeviceApi`: a recursive lock over all threads of all
 processes, built from one mutex per process and one lease at the daemon. Every
 step is one region of one thread, or one request that the daemon serves.
 */
module ApiLock {
  import opened Wrappers
  import D = DaemonClaims

  datatype Thread = Thread(process: nat, id: nat)

  /** Where a thread is in its calls; a thread that is not recorded is outside. */
  datatype Phase =
    | HasMutex
    | Asking(conn: nat)
    | Holding(conn: nat, depth: nat)
    | Releasing(conn: nat)

  datatype State = State(
    threads: map<Thread, Phase>,
    mutex: map<nat, Thread>,       // the holder of each process's mutex
    open: set<nat>,                // processes between Open and Close
    lease: Option<nat>,            // the connection that holds the daemon's lease
    nextConn: nat,
    lockAsked: set<nat>,           // connections with an unserved lock request
    unlockAsked: set<nat>,         // connections with an unserved unlock request
    replies: map<nat, bool>,       // unread answers to lock requests
    closed: set<nat>)              // connections closed by the client, not yet noticed

  datatype Action =
    | EnterMutex(t: Thread)        // outside -> owns the process mutex
    | AskLease(t: Thread)          // connect and send the lock request, or find the API closed
    | DaemonLock(conn: nat)
    | LearnLease(t: Thread)        // the answer arrived
    | GiveUp(t: Thread)            // the request failed or timed out
    | Nest(t: Thread)              // lock again
    | Unnest(t: Thread)            // unlock an inner lock
    | BeginRelease(t: Thread)      // unlock the outermost lock: send the unlock request
    | DaemonUnlock(conn: nat)
    | EndRelease(t: Thread)        // answered or timed out: close and leave the mutex
    | StrayUnlock(t: Thread)       // unlock without a lock
    | OpenApi(t: Thread)
    | CloseApi(t: Thread)
    | Crash(process: nat)
    | Hangup(conn: nat)            // the daemon notices a closed connection

  function Initial(): State {
    State(map[], map[], {}, None, 0, {}, {}, map[], {})
  }

  function Depth(s: State, t: Thread): nat {
    if t in s.threads && s.threads[t].Holding? then s.threads[t].depth else 0
  }

  predicate Outside(s: State, t: Thread) {
    t !in s.threads
  }

  predicate MutexFree(s: State, t: Thread) {
    t.process !in s.mutex
  }

  predicate At(s: State, t: Thread, asking: bool, holding: bool, releasing: bool) {
    t in s.threads &&
    ((asking && s.threads[t].Asking?) || (holding && s.threads[t].Holding?) ||
     (releasing && s.threads[t].Releasing?))
  }

  predicate Enabled(s: State, a: Action) {
    match a
    case EnterMutex(t) => Outside(s, t) && MutexFree(s, t) && t.process in s.open
    case AskLease(t) => t in s.threads && s.threads[t].HasMutex?
    case DaemonLock(conn) => conn in s.lockAsked
    case LearnLease(t) => At(s, t, true, false, false) && s.threads[t].conn in s.replies
    case GiveUp(t) => At(s, t, true, false, false)
    case Nest(t) => At(s, t, false, true, false)
    case Unnest(t) => At(s, t, false, true, false) && s.threads[t].depth > 1
    case BeginRelease(t) => At(s, t, false, true, false) && s.threads[t].depth == 1
    case DaemonUnlock(conn) => conn in s.unlockAsked
    case EndRelease(t) => At(s, t, false, false, true)
    case StrayUnlock(t) => Depth(s, t) == 0
    case OpenApi(t) => Outside(s, t) && MutexFree(s, t)
    case CloseApi(t) => Outside(s, t) && MutexFree(s, t)
    case Crash(_) => true
    case Hangup(conn) => conn in s.closed
  }

  /** The daemon's claims, as far as its lock commands read them: only the lease holder matters. */
  function Daemon(lease: Option<nat>): D.Claims {
    D.Started().(apiLock := if lease.Some? then lease.value else D.NOBODY)
  }

  function LeaseOf(claims: D.Claims): Option<nat> {
    if claims.apiLock >= 0 then Some(claims.apiLock) else None
  }

  /** Leave: forget the thread's phase, close its connection and free the mutex. */
  function Leave(s: State, t: Thread, conn: nat): State {
    s.(threads := s.threads - {t}, mutex := s.mutex - {t.process}, closed := s.closed + {conn})
  }

  function ConnsOf(threads: map<Thread, Phase>, process: nat): set<nat> {
    set t | t in threads && t.process == process && !threads[t].HasMutex? :: threads[t].conn
  }

  function Apply(s: State, a: Action): State
    requires Enabled(s, a)
  {
    match a
    case EnterMutex(t) =>
      s.(threads := s.threads[t := HasMutex], mutex := s.mutex[t.process := t])
    case AskLease(t) =>
      if t.process in s.open then
        s.(threads := s.threads[t := Asking(s.nextConn)], nextConn := s.nextConn + 1,
           lockAsked := s.lockAsked + {s.nextConn})
      else s.(threads := s.threads - {t}, mutex := s.mutex - {t.process})
    case DaemonLock(conn) =>
      var answer := D.ServeLock(Daemon(s.lease), conn);
      s.(lockAsked := s.lockAsked - {conn}, replies := s.replies[conn := answer.status.Good?],
         lease := LeaseOf(answer.claims))
    case LearnLease(t) =>
      var conn := s.threads[t].conn;
      if s.replies[conn] then s.(threads := s.threads[t := Holding(conn, 1)])
      else Leave(s, t, conn)
    case GiveUp(t) => Leave(s, t, s.threads[t].conn)
    case Nest(t) => s.(threads := s.threads[t := s.threads[t].(depth := s.threads[t].depth + 1)])
    case Unnest(t) => s.(threads := s.threads[t := s.threads[t].(depth := s.threads[t].depth - 1)])
    case BeginRelease(t) =>
      s.(threads := s.threads[t := Releasing(s.threads[t].conn)],
         unlockAsked := s.unlockAsked + {s.threads[t].conn})
    case DaemonUnlock(conn) =>
      s.(unlockAsked := s.unlockAsked - {conn},
         lease := LeaseOf(D.ServeUnlock(Daemon(s.lease), conn).claims))
    case EndRelease(t) => Leave(s, t, s.threads[t].conn)
    case StrayUnlock(t) => s
    case OpenApi(t) => s.(open := s.open + {t.process})
    case CloseApi(t) => s.(open := s.open - {t.process})
    case Crash(process) =>
      s.(closed := s.closed + ConnsOf(s.threads, process),
         threads := map t | t in s.threads && t.process != process :: s.threads[t],
         mutex := s.mutex - {process}, open := s.open - {process})
    case Hangup(conn) =>
      s.(closed := s.closed - {conn}, lockAsked := s.lockAsked - {conn},
         unlockAsked := s.unlockAsked - {conn},
         lease := LeaseOf(D.FreeLease(Daemon(s.lease), conn)))
  }

  function Step(s: State, a: Action): State {
    if Enabled(s, a) then Apply(s, a) else s
  }

  function Run(actions: seq<Action>): State {
    if actions == [] then Initial()
    else Step(Run(actions[..|actions| - 1]), actions[|actions| - 1])
  }

  // --------------------------------------------------------------- invariants

  /** What a thread's phase guarantees about the rest of the system. */
  ghost predicate PhaseOk(s: State, p: Phase) {
    match p
    case HasMutex => true
    case Asking(c) =>
      && c < s.nextConn && c !in s.closed && c !in s.unlockAsked
      && (c in s.replies && s.replies[c] ==> s.lease == Some(c))
      && (c in s.lockAsked ==> c !in s.replies)
    case Holding(c, depth) =>
      && c < s.nextConn && c !in s.closed && c !in s.unlockAsked && c !in s.lockAsked
      && s.lease == Some(c) && depth > 0
    case Releasing(c) => c < s.nextConn && c !in s.closed && c !in s.lockAsked
  }

  ghost predicate Conns(s: State) {
    && (forall c :: c in s.replies || c in s.lockAsked || c in s.unlockAsked || c in s.closed ==>
          c < s.nextConn)
    && (s.lease.Some? ==> s.lease.value < s.nextConn)
  }

  ghost predicate Separate(s: State) {
    forall t, u :: t in s.threads && u in s.threads && t != u ==>
      s.threads[t].HasMutex? || s.threads[u].HasMutex? || s.threads[t].conn != s.threads[u].conn
  }

  ghost predicate Safe(s: State) {
    && Conns(s)
    && Separate(s)
    && (forall t :: t in s.threads ==> PhaseOk(s, s.threads[t]))
    && (forall t :: t in s.threads ==> t.process in s.mutex && s.mutex[t.process] == t)
  }

  lemma EnterSafe(s: State, a: Action)
    requires Safe(s) && Enabled(s, a) && (a.EnterMutex? || a.AskLease?)
    ensures Safe(Apply(s, a))
  {
  }

  lemma LearnSafe(s: State, a: Action)
    requires Safe(s) && Enabled(s, a) && (a.LearnLease? || a.GiveUp?)
    ensures Safe(Apply(s, a))
  {
  }

  lemma NestSafe(s: State, a: Action)
    requires Safe(s) && Enabled(s, a) && (a.Nest? || a.Unnest?)
    ensures Safe(Apply(s, a))
  {
  }

  lemma ReleaseStepSafe(s: State, a: Action)
    requires Safe(s) && Enabled(s, a) && (a.BeginRelease? || a.EndRelease?)
    ensures Safe(Apply(s, a))
  {
  }

  lemma ApiStepSafe(s: State, a: Action)
    requires Safe(s) && Enabled(s, a) && (a.StrayUnlock? || a.OpenApi? || a.CloseApi?)
    ensures Safe(Apply(s, a))
  {
  }

  lemma DaemonStepSafe(s: State, a: Action)
    requires Safe(s) && Enabled(s, a) && (a.DaemonLock? || a.DaemonUnlock? || a.Hangup?)
    ensures Safe(Apply(s, a))
  {
  }

  lemma CrashSafe(s: State, process: nat)
    requires Safe(s)
    ensures Safe(Apply(s, Crash(process)))
  {
  }

  lemma {:induction false} RunSafe(actions: seq<Action>)
    ensures Safe(Run(actions))
  {
    if actions != [] {
      var s, a := Run(actions[..|actions| - 1]), actions[|actions| - 1];
      RunSafe(actions[..|actions| - 1]);
      if Enabled(s, a) {
        if a.DaemonLock? || a.DaemonUnlock? || a.Hangup? {
          DaemonStepSafe(s, a);
        } else if a.Crash? {
          CrashSafe(s, a.process);
        } else if a.BeginRelease? || a.EndRelease? {
          ReleaseStepSafe(s, a);
        } else if a.StrayUnlock? || a.OpenApi? || a.CloseApi? {
          ApiStepSafe(s, a);
        } else if a.EnterMutex? || a.AskLease? {
          EnterSafe(s, a);
        } else if a.LearnLease? || a.GiveUp? {
          LearnSafe(s, a);
        } else {
          NestSafe(s, a);
        }
      }
    }
  }

  // ----------------------------------------------------------------- theorems

  /**
   Mutual exclusion: in every interleaving of threads, processes, crashes and
   timeouts, at most one thread anywhere has a positive lock depth, and the
   daemon's lease belongs to it.
   */
  lemma MutualExclusion(actions: seq<Action>, t: Thread, u: Thread)
    requires Depth(Run(actions), t) > 0 && Depth(Run(actions), u) > 0
    ensures t == u
    ensures Run(actions).lease == Some(Run(actions).threads[t].conn)
  {
    RunSafe(actions);
  }

  /**
   Depth goes from 0 to 1 only with the lease in hand, from 1 to 0 only in the
   step that asks for its return, and inner locks and stray unlocks leave the
   daemon alone.
   */
  lemma LeaseFollowsDepth(actions: seq<Action>, a: Action, t: Thread)
    requires Enabled(Run(actions), a)
    ensures var s, after := Run(actions), Apply(Run(actions), a);
            && (Depth(s, t) == 0 && Depth(after, t) > 0 ==>
                  Depth(after, t) == 1 && after.lease == Some(after.threads[t].conn))
            && (Depth(s, t) > 0 && Depth(after, t) == 0 && a != Crash(t.process) ==>
                  Depth(s, t) == 1 && a == BeginRelease(t) &&
                  s.threads[t].conn in after.unlockAsked)
            && (a == Nest(t) || a == Unnest(t) ==>
                  after == s.(threads := after.threads))
            && (a == StrayUnlock(t) ==> after == s)
  {
    RunSafe(actions);
  }

  /** Once the daemon serves the unlock request of the outermost unlock, the lease is free. */
  lemma ReleaseReturnsLease(actions: seq<Action>, t: Thread)
    requires Depth(Run(actions), t) == 1
    ensures var s := Run(actions);
            var conn := s.threads[t].conn;
            var asked := Apply(s, BeginRelease(t));
            Enabled(asked, DaemonUnlock(conn)) && Apply(asked, DaemonUnlock(conn)).lease == None
  {
    RunSafe(actions);
  }

  /** A crashed holder's lease is free once the daemon notices the hang-up. */
  lemma CrashFreesLease(actions: seq<Action>, t: Thread)
    requires Depth(Run(actions), t) > 0
    ensures var s := Run(actions);
            var conn := s.threads[t].conn;
            var crashed := Apply(s, Crash(t.process));
            && Enabled(crashed, Hangup(conn))
            && Apply(crashed, Hangup(conn)).lease == None
            && forall u: Thread :: u.process == t.process ==> Depth(crashed, u) == 0
  {
    RunSafe(actions);
    var s := Run(actions);
    assert s.threads[t].conn in ConnsOf(s.threads, t.process);
  }

  // ----------------------------------------------------------------- progress

  function RunFrom(s: State, actions: seq<Action>): State {
    if actions == [] then s else Step(RunFrom(s, actions[..|actions| - 1]), actions[|actions| - 1])
  }

  lemma RunFromNext(s: State, actions: seq<Action>, a: Action)
    ensures RunFrom(s, actions + [a]) == Step(RunFrom(s, actions), a)
  {
    assert (actions + [a])[..|actions|] == actions;
  }

  lemma {:induction false} RunContinues(first: seq<Action>, more: seq<Action>)
    ensures Run(first + more) == RunFrom(Run(first), more)
  {
    if more == [] {
      assert first + more == first;
    } else {
      var rest := more[..|more| - 1];
      RunContinues(first, rest);
      assert (first + more)[..|first + more| - 1] == first + rest;
    }
  }

  /** A mutex that is held is held by a thread of its process that is inside a call. */
  ghost predicate Held(threads: map<Thread, Phase>, mutex: map<nat, Thread>) {
    forall p :: p in mutex ==> mutex[p] in threads && mutex[p].process == p
  }

  lemma {:induction false} RunHeld(actions: seq<Action>)
    ensures Held(Run(actions).threads, Run(actions).mutex)
  {
    if actions != [] {
      RunHeld(actions[..|actions| - 1]);
    }
  }

  /** The last step of a thread that has its process's mutex without holding the lock. */
  function LeaveStep(p: Phase, u: Thread): Action {
    if p.Releasing? then EndRelease(u) else GiveUp(u)
  }

  lemma MutexLeft(s: State, u: Thread)
    requires u in s.threads && (s.threads[u].Asking? || s.threads[u].Releasing?)
    ensures var after := Step(s, LeaveStep(s.threads[u], u));
            && after.threads == s.threads - {u} && after.mutex == s.mutex - {u.process}
            && after.lease == s.lease && after.open == s.open
  {
  }

  /** While the lease is free, whoever has a process's mutex can leave it without the lease changing hands. */
  lemma MutexCanBeFreed(s: State, t: Thread) returns (actions: seq<Action>)
    requires Safe(s) && Held(s.threads, s.mutex) && s.lease.None? && t.process in s.open
    ensures var after := RunFrom(s, actions);
            && t.process !in after.mutex && t !in after.threads
            && after.lease == None && after.open == s.open
  {
    actions := [];
    if t.process in s.mutex {
      var u := s.mutex[t.process];
      assert t in s.threads ==> t == u;
      assert PhaseOk(s, s.threads[u]);
      var asked := s;
      if s.threads[u].HasMutex? {
        RunFromNext(s, [], AskLease(u));
        actions := [] + [AskLease(u)];
        asked := Step(s, AskLease(u));
      }
      var last := LeaveStep(asked.threads[u], u);
      MutexLeft(asked, u);
      RunFromNext(s, actions, last);
      actions := actions + [last];
    }
  }

  /** A thread of an open process that nothing keeps from taking the lock. */
  predicate MayTake(s: State, t: Thread) {
    s.lease.None? && t.process in s.open && t.process !in s.mutex && t !in s.threads
  }

  /** The four steps of an uncontended lock. */
  lemma LockTaken(s: State, t: Thread) returns (actions: seq<Action>)
    requires MayTake(s, t)
    ensures Depth(RunFrom(s, actions), t) == 1
  {
    actions := [];
    RunFromNext(s, actions, EnterMutex(t));
    actions := actions + [EnterMutex(t)];
    RunFromNext(s, actions, AskLease(t));
    actions := actions + [AskLease(t)];
    RunFromNext(s, actions, DaemonLock(s.nextConn));
    actions := actions + [DaemonLock(s.nextConn)];
    assert RunFrom(s, actions).replies[s.nextConn];
    RunFromNext(s, actions, LearnLease(t));
    actions := actions + [LearnLease(t)];
  }

  lemma MutexFreed(actions: seq<Action>, t: Thread) returns (more: seq<Action>)
    requires Run(actions).lease.None? && t.process in Run(actions).open
    ensures MayTake(Run(actions + more), t)
  {
    RunSafe(actions);
    RunHeld(actions);
    more := MutexCanBeFreed(Run(actions), t);
    RunContinues(actions, more);
  }

  lemma LockReached(actions: seq<Action>, t: Thread) returns (more: seq<Action>)
    requires MayTake(Run(actions), t)
    ensures Depth(Run(actions + more), t) == 1
  {
    more := LockTaken(Run(actions), t);
    RunContinues(actions, more);
  }

  /**
   A free lease can be taken: from every reachable state in which no connection holds
   the lease, any thread of an open process can come to hold the lock, whatever the
   other threads are waiting for.
   */
  lemma LockCanBeTaken(actions: seq<Action>, t: Thread)
    requires Run(actions).lease.None? && t.process in Run(actions).open
    ensures exists more :: Depth(Run(actions + more), t) == 1
  {
    var freeing := MutexFreed(actions, t);
    var taking := LockReached(actions + freeing, t);
    assert actions + freeing + taking == actions + (freeing + taking);
  }

  // ------------------------------------------------------------------ nesting

  function Repeat(a: Action, n: nat): seq<Action> {
    if n == 0 then [] else Repeat(a, n - 1) + [a]
  }

  /** The state in which a thread holds the lock through this connection and to this depth. */
  function HeldTo(s: State, t: Thread, conn: nat, depth: nat): State {
    s.(threads := s.threads[t := Holding(conn, depth)])
  }

  function Repeated(s: State, a: Action, n: nat): State {
    if n == 0 then s else Step(Repeated(s, a, n - 1), a)
  }

  lemma {:induction false} RunRepeat(s: State, a: Action, n: nat)
    ensures RunFrom(s, Repeat(a, n)) == Repeated(s, a, n)
  {
    if n > 0 {
      RunRepeat(s, a, n - 1);
      RunFromNext(s, Repeat(a, n - 1), a);
    }
  }

  lemma NestOnce(s: State, t: Thread, conn: nat, depth: nat)
    ensures Step(HeldTo(s, t, conn, depth), Nest(t)) == HeldTo(s, t, conn, depth + 1)
    ensures depth > 0 ==> Step(HeldTo(s, t, conn, depth + 1), Unnest(t)) == HeldTo(s, t, conn, depth)
  {
    var low, high := HeldTo(s, t, conn, depth).threads, HeldTo(s, t, conn, depth + 1).threads;
    assert low[t := Holding(conn, depth + 1)] == high && high[t := Holding(conn, depth)] == low;
  }

  lemma {:induction false} LocksNest(s: State, t: Thread, conn: nat, depth: nat, n: nat)
    ensures Repeated(HeldTo(s, t, conn, depth), Nest(t), n) == HeldTo(s, t, conn, depth + n)
  {
    if n > 0 {
      LocksNest(s, t, conn, depth, n - 1);
      NestOnce(s, t, conn, depth + n - 1);
    }
  }

  lemma {:induction false} LocksUnnest(s: State, t: Thread, conn: nat, depth: nat, n: nat)
    requires depth > 0
    ensures Repeated(HeldTo(s, t, conn, depth + n), Unnest(t), n) == HeldTo(s, t, conn, depth)
    decreases n
  {
    if n > 0 {
      LocksUnnest(s, t, conn, depth + 1, n - 1);
      NestOnce(s, t, conn, depth);
    }
  }

  /**
   The lock is recursive: in every reachable state its holder may lock any number of
   times more, each adds one to its depth, and as many unlocks bring back exactly the
   state before.
   */
  lemma LockIsRecursive(actions: seq<Action>, t: Thread, n: nat)
    requires Depth(Run(actions), t) > 0
    ensures var locked := actions + Repeat(Nest(t), n);
            && Depth(Run(locked), t) == Depth(Run(actions), t) + n
            && Run(locked + Repeat(Unnest(t), n)) == Run(actions)
  {
    var s := Run(actions);
    var conn, depth := s.threads[t].conn, s.threads[t].depth;
    var locked := actions + Repeat(Nest(t), n);
    assert HeldTo(s, t, conn, depth) == s by {
      assert s.threads[t := Holding(conn, depth)] == s.threads;
    }
    LocksNest(s, t, conn, depth, n);
    RunRepeat(s, Nest(t), n);
    RunContinues(actions, Repeat(Nest(t), n));
    LocksUnnest(s, t, conn, depth, n);
    RunRepeat(HeldTo(s, t, conn, depth + n), Unnest(t), n);
    RunContinues(locked, Repeat(Unnest(t), n));
  }

  // ------------------------------------------------------------------ closing

  /** The process has closed the API and none of its threads is inside a call. */
  ghost predicate ShutOut(s: State, process: nat) {
    process !in s.open && forall t :: t in s.threads ==> t.process != process
  }

  lemma ShutOutStep(s: State, a: Action, process: nat)
    requires ShutOut(s, process) && !(a.OpenApi? && a.t.process == process)
    ensures ShutOut(Step(s, a), process)
  {
  }

  /** A process that has closed the API holds no lock until it opens it again, whatever the others do. */
  lemma {:induction false} ClosedHoldsNothing(actions: seq<Action>, t: Thread, more: seq<Action>, u: Thread)
    requires Enabled(Run(actions), CloseApi(t)) && u.process == t.process
    requires forall k :: 0 <= k < |more| ==> !(more[k].OpenApi? && more[k].t.process == t.process)
    ensures ShutOut(Run(actions + [CloseApi(t)] + more), t.process)
    ensures Depth(Run(actions + [CloseApi(t)] + more), u) == 0
  {
    var shut := actions + [CloseApi(t)];
    if more == [] {
      RunSafe(actions);
      assert shut[..|actions|] == actions && shut + more == shut;
    } else {
      var rest := more[..|more| - 1];
      ClosedHoldsNothing(actions, t, rest, u);
      ShutOutStep(Run(shut + rest), more[|more| - 1], t.process);
      assert (shut + more)[..|shut + more| - 1] == shut + rest;
    }
  }
}
