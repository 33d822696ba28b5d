/**
 The life of the API device: open, select, initialise and back, with every
 stage of initialisation able to fail, and the resources held in each state.
 Calls are taken one at a time; what the daemon and the system answer is a
 parameter of each call.
 */
module Lifecycle {

  datatype Mode = SingleTuner | DualTuner | Master | Slave

  datatype Status =
    | Success | Fail | InvalidParam | OutOfRange | HwError | InvalidMode | OutOfMemory
    | NotInitialised | AlreadyInitialised | StartPending | StopPending

  datatype Reply = Done | Pending | Refused

  /** What each stage of `Init` meets, in the order of the stages. */
  datatype Answers = Answers(
    valid: bool, buffers: bool, dsp: bool, dualValid: bool, dualDsp: bool,
    backend: bool, configure: bool, callbackThread: bool, start: Reply,
    agcThread: bool, firstIq: bool, gain: bool)

  datatype Call =
    | Open(lockHeld: bool, listed: bool, thread: bool)
    | Close(lockHeld: bool, fromEventThread: bool)
    | Select(request: bool, check: Status, mode: Mode, acquired: bool)
    | Release(handle: bool)
    | Init(handle: bool, callbacks: bool, answers: Answers)
    | Uninit(handle: bool, stop: Reply)

  /** The device context. `duo` records a master or slave role. */
  datatype Device = Device(
    open: bool, eventThread: bool,
    selected: bool, mode: Mode, duo: bool,
    initialized: bool, backend: bool, buffers: bool,
    callbackThread: bool, streaming: bool, agcThread: bool,
    startPending: bool)

  function Initial(): Device {
    Device(false, false, false, SingleTuner, false, false, false, false, false, false, false, false)
  }

  predicate IsDuo(mode: Mode) {
    mode.Master? || mode.Slave?
  }

  // ------------------------------------------------------------- specification

  /** What must hold between calls. */
  ghost predicate Consistent(d: Device) {
    && (d.initialized ==> d.selected) && (d.selected ==> d.open) && d.eventThread == d.open
    && d.buffers == d.callbackThread == d.streaming == d.agcThread == d.initialized
    && d.duo == (d.selected && IsDuo(d.mode))
    && d.backend == (if d.duo then d.selected else d.initialized)
    && (d.startPending ==> d.duo && !d.initialized)
  }

  /** Only a duo start can be pending: the plain start reports every failure alike. */
  function StartReply(duo: bool, start: Reply): Reply {
    if !duo && start.Pending? then Refused else start
  }

  /** The first stage that fails decides the status. */
  function InitStatus(d: Device, a: Answers): Status {
    if !a.valid then OutOfRange
    else if !a.buffers then HwError
    else if !a.dsp then OutOfRange
    else if d.mode.DualTuner? && !a.dualValid then InvalidMode
    else if d.mode.DualTuner? && !a.dualDsp then OutOfRange
    else if !d.backend && !a.backend then HwError
    else if !a.configure then HwError
    else if !a.callbackThread then OutOfMemory
    else if StartReply(d.duo, a.start).Pending? then StartPending
    else if StartReply(d.duo, a.start).Refused? then HwError
    else if !a.agcThread then StartPending
    else if !a.firstIq then HwError
    else if !a.gain then HwError
    else Success
  }

  /** Whether `Init` gets as far as asking the daemon to start. */
  predicate AsksStart(d: Device, a: Answers) {
    && a.valid && a.buffers && a.dsp && (d.mode.DualTuner? ==> a.dualValid && a.dualDsp)
    && (d.backend || a.backend) && a.configure && a.callbackThread
  }

  /** A failing `Init` leaves everything as it was but the note of a pending start. */
  function AfterInit(d: Device, a: Answers): Device {
    var noted :=
      if !AsksStart(d, a) then d
      else match StartReply(d.duo, a.start)
        case Done => d.(startPending := false)
        case Pending => d.(startPending := true)
        case Refused => d;
    if InitStatus(d, a).Success?
    then noted.(initialized := true, backend := true, buffers := true, callbackThread := true,
                streaming := true, agcThread := true)
    else noted
  }

  function AfterUninit(d: Device): Device {
    d.(initialized := false, backend := d.backend && d.duo, buffers := false,
       callbackThread := false, streaming := false, agcThread := false)
  }

  function StatusOf(d: Device, c: Call): Status {
    match c
    case Open(lockHeld, listed, thread) =>
      if d.open then AlreadyInitialised
      else if lockHeld || !listed then Fail
      else if !thread then OutOfMemory else Success
    case Close(lockHeld, fromEventThread) =>
      if lockHeld then Fail
      else if d.initialized || d.selected || (d.eventThread && fromEventThread) then AlreadyInitialised
      else Success
    case Select(request, check, mode, acquired) =>
      if !d.open then NotInitialised
      else if !request then InvalidParam
      else if d.selected then AlreadyInitialised
      else if !check.Success? then check
      else if IsDuo(mode) && !acquired then HwError else Success
    case Release(handle) =>
      if !d.open then NotInitialised
      else if !handle then InvalidParam
      else if d.initialized then AlreadyInitialised else Success
    case Init(handle, callbacks, answers) =>
      if !handle || !d.selected || !callbacks then InvalidParam
      else if d.initialized then AlreadyInitialised
      else InitStatus(d, answers)
    case Uninit(handle, stop) =>
      if !handle || !d.initialized then NotInitialised
      else if d.duo && stop.Pending? then StopPending
      else if d.duo && stop.Refused? then HwError
      else Success
  }

  function Step(d: Device, c: Call): Device {
    var status := StatusOf(d, c);
    match c
    case Open(_, _, _) => if status.Success? then d.(open := true, eventThread := true) else d
    case Close(_, _) => if status.Success? then d.(open := false, eventThread := false) else d
    case Select(request, check, mode, _) =>
      if status.Success? then d.(selected := true, mode := mode, duo := IsDuo(mode), backend := IsDuo(mode))
      else if d.open && request && !d.selected && check.Success? then d.(mode := mode)
      else d
    case Release(_) =>
      if status.Success? then d.(selected := false, duo := false, backend := false, startPending := false)
      else d
    case Init(handle, callbacks, answers) =>
      if !handle || !d.selected || !callbacks || d.initialized then d else AfterInit(d, answers)
    case Uninit(_, _) => if status.Success? then AfterUninit(d) else d
  }

  function Run(calls: seq<Call>): Device {
    if calls == [] then Initial() else Step(Run(calls[..|calls| - 1]), calls[|calls| - 1])
  }

  // ------------------------------------------------------------------ theorems

  lemma StepConsistent(d: Device, c: Call)
    requires Consistent(d)
    ensures Consistent(Step(d, c))
  {
  }

  /**
   After every sequence of calls, with every stage of every initialisation failing
   or not: initialised implies selected implies open; buffers, callback thread and
   gain-control thread exist exactly while initialised; the connection to the
   daemon exists exactly while initialised, or while selected with a duo role.
   */
  lemma {:induction false} RunConsistent(calls: seq<Call>)
    ensures Consistent(Run(calls))
  {
    if calls != [] {
      RunConsistent(calls[..|calls| - 1]);
      StepConsistent(Run(calls[..|calls| - 1]), calls[|calls| - 1]);
    }
  }

  /** From every reachable state the three closing calls give back every resource. */
  lemma ShutdownReleasesAll(calls: seq<Call>)
    ensures var end := Run(calls + [Uninit(true, Done), Release(true), Close(false, false)]);
            end == Initial().(mode := end.mode)
  {
    RunConsistent(calls);
    var a := calls + [Uninit(true, Done)];
    var b := a + [Release(true)];
    var c := b + [Close(false, false)];
    assert a[..|calls|] == calls && b[..|a|] == a && c[..|b|] == b;
    assert Run(a) == Step(Run(calls), Uninit(true, Done));
    assert Run(b) == Step(Run(a), Release(true));
    assert Run(c) == Step(Run(b), Close(false, false));
    assert c == calls + [Uninit(true, Done), Release(true), Close(false, false)];
  }

  /**
   `Init` succeeds exactly if no stage fails, and then a successful `Uninit`
   brings back the state before it but for the note of a pending start.
   */
  lemma InitThenUninit(d: Device, a: Answers)
    requires Consistent(d) && d.selected && !d.initialized
    ensures InitStatus(d, a).Success? <==>
            AsksStart(d, a) && a.start.Done? && a.agcThread && a.firstIq && a.gain
    ensures InitStatus(d, a).Success? ==>
            Step(Step(d, Init(true, true, a)), Uninit(true, Done)) == d.(startPending := false)
  {
  }

  lemma RunNext(calls: seq<Call>, c: Call)
    ensures Run(calls + [c]) == Step(Run(calls), c)
  {
    assert (calls + [c])[..|calls|] == calls;
  }

  /**
   A stop that the daemon has not agreed to is no stop: in every reachable state a duo
   device whose stop is pending or refused keeps running with everything it holds,
   and only then does an initialised device stay so.
   */
  lemma StopMustBeAgreed(calls: seq<Call>, stop: Reply)
    requires Run(calls).initialized
    ensures var d, after := Run(calls), Run(calls + [Uninit(true, stop)]);
            var status := StatusOf(d, Uninit(true, stop));
            && (d.duo && !stop.Done? ==>
                  after == d && status == if stop.Pending? then StopPending else HwError)
            && (!d.duo || stop.Done? ==>
                  status.Success? && !after.initialized && !after.streaming && !after.buffers &&
                  !after.callbackThread && !after.agcThread && after.backend == d.duo)
            && after.selected && after.open && after.mode == d.mode
  {
    RunConsistent(calls);
    RunNext(calls, Uninit(true, stop));
  }

  const ALL_WELL := Answers(true, true, true, true, true, true, true, true, Done, true, true, true)

  /** The calls that take the device from anywhere into a mode. */
  function Restart(mode: Mode): seq<Call> {
    [Uninit(true, Done), Release(true), Close(false, false), Open(false, true, true),
     Select(true, Success, mode, true), Init(true, true, ALL_WELL)]
  }

  /** From every reachable state the device can be brought to stream in every mode. */
  lemma AnyModeReachable(calls: seq<Call>, mode: Mode)
    ensures var d := Run(calls + Restart(mode));
            d.initialized && d.streaming && d.mode == mode && d.duo == IsDuo(mode) && !d.startPending
  {
    ShutdownReleasesAll(calls);
    var down := calls + [Uninit(true, Done), Release(true), Close(false, false)];
    var up := down + [Open(false, true, true)];
    var chosen := up + [Select(true, Success, mode, true)];
    RunNext(down, Open(false, true, true));
    RunNext(up, Select(true, Success, mode, true));
    RunNext(chosen, Init(true, true, ALL_WELL));
    assert calls + Restart(mode) == chosen + [Init(true, true, ALL_WELL)];
  }

  // ----------------------------------------------------------------- the device

  function Count(b: bool): int {
    if b then 1 else 0
  }

  class ApiDevice {
    var open: bool
    var eventThread: bool
    var selected: bool
    var mode: Mode
    var duo: bool
    var initialized: bool
    var backend: bool
    var buffers: bool
    var callbackThread: bool
    var streaming: bool
    var agcThread: bool
    var startPending: bool

    // Live objects, counted where they are created and destroyed.
    ghost var liveBackends: int
    ghost var liveBuffers: int
    ghost var liveCallbackThreads: int
    ghost var liveAgcThreads: int
    ghost var liveEventThreads: int

    ghost function Value(): Device
      reads this
    {
      Device(open, eventThread, selected, mode, duo, initialized, backend, buffers,
             callbackThread, streaming, agcThread, startPending)
    }

    /** Nothing created is lost: the context refers to every live object. */
    ghost predicate Accounted()
      reads this
    {
      && liveBackends == Count(backend)
      && liveBuffers == Count(buffers)
      && liveCallbackThreads == Count(callbackThread)
      && liveAgcThreads == Count(agcThread)
      && liveEventThreads == Count(eventThread)
    }

    ghost predicate Valid()
      reads this
    {
      Accounted() && Consistent(Value())
    }

    constructor ()
      ensures Valid() && Value() == Initial()
    {
      open, eventThread, selected, mode, duo := false, false, false, SingleTuner, false;
      initialized, backend, buffers, callbackThread := false, false, false, false;
      streaming, agcThread, startPending := false, false, false;
      liveBackends, liveBuffers, liveCallbackThreads, liveAgcThreads, liveEventThreads := 0, 0, 0, 0, 0;
    }

    method CreateBackend()
      modifies this`backend, this`liveBackends
      ensures backend && liveBackends == old(liveBackends) + 1
    {
      backend := true;
      liveBackends := liveBackends + 1;
    }

    method CloseBackend()
      modifies this`backend, this`liveBackends
      ensures !backend && liveBackends == old(liveBackends) - 1
    {
      backend := false;
      liveBackends := liveBackends - 1;
    }

    method AllocateBuffers()
      modifies this`buffers, this`liveBuffers
      ensures buffers && liveBuffers == old(liveBuffers) + 1
    {
      buffers := true;
      liveBuffers := liveBuffers + 1;
    }

    /** Freeing absent buffers frees nothing. */
    method FreeBuffers()
      modifies this`buffers, this`liveBuffers
      ensures !buffers && liveBuffers == old(liveBuffers) - Count(old(buffers))
    {
      liveBuffers := liveBuffers - Count(buffers);
      buffers := false;
    }

    method StartCallbackThread()
      modifies this`callbackThread, this`liveCallbackThreads
      ensures callbackThread && liveCallbackThreads == old(liveCallbackThreads) + 1
    {
      callbackThread := true;
      liveCallbackThreads := liveCallbackThreads + 1;
    }

    method StopCallbackThread()
      modifies this`callbackThread, this`liveCallbackThreads
      ensures !callbackThread && liveCallbackThreads == old(liveCallbackThreads) - Count(old(callbackThread))
    {
      if !callbackThread {
        return;
      }
      callbackThread := false;
      liveCallbackThreads := liveCallbackThreads - 1;
    }

    method StartAgcThread()
      modifies this`agcThread, this`liveAgcThreads
      ensures agcThread && liveAgcThreads == old(liveAgcThreads) + 1
    {
      agcThread := true;
      liveAgcThreads := liveAgcThreads + 1;
    }

    method JoinAgcThread()
      modifies this`agcThread, this`liveAgcThreads
      ensures !agcThread && liveAgcThreads == old(liveAgcThreads) - 1
    {
      liveAgcThreads := liveAgcThreads - 1;
      agcThread := false;
    }

    method DoOpen(lockHeld: bool, listed: bool, thread: bool) returns (status: Status)
      requires Valid()
      modifies this
      ensures Valid()
      ensures status == StatusOf(old(Value()), Open(lockHeld, listed, thread))
      ensures Value() == Step(old(Value()), Open(lockHeld, listed, thread))
    {
      if lockHeld {
        return if open then AlreadyInitialised else Fail;
      }
      if open {
        return AlreadyInitialised;
      }
      if !listed {
        return Fail;
      }
      if !thread {
        return OutOfMemory;
      }
      eventThread := true;
      liveEventThreads := liveEventThreads + 1;
      open := true;
      return Success;
    }

    method DoClose(lockHeld: bool, fromEventThread: bool) returns (status: Status)
      requires Valid()
      modifies this
      ensures Valid()
      ensures status == StatusOf(old(Value()), Close(lockHeld, fromEventThread))
      ensures Value() == Step(old(Value()), Close(lockHeld, fromEventThread))
    {
      if lockHeld {
        return Fail;
      }
      if initialized || selected || (eventThread && fromEventThread) {
        return AlreadyInitialised;
      }
      if eventThread {
        eventThread := false;
        liveEventThreads := liveEventThreads - 1;
      }
      open := false;
      return Success;
    }

    /** `request` says the request is well formed, `check` is the verdict on its handle, mode, tuner and rate. */
    method DoSelect(request: bool, check: Status, m: Mode, acquired: bool) returns (status: Status)
      requires Valid()
      modifies this
      ensures Valid()
      ensures status == StatusOf(old(Value()), Select(request, check, m, acquired))
      ensures Value() == Step(old(Value()), Select(request, check, m, acquired))
    {
      if !open {
        return NotInitialised;
      }
      if !request {
        return InvalidParam;
      }
      if selected {
        return AlreadyInitialised;
      }
      if !check.Success? {
        return check;
      }
      selected := true;
      mode := m;
      duo := m.Master? || m.Slave?;
      if duo {
        if !acquired {
          selected := false;
          duo := false;
          return HwError;
        }
        CreateBackend();
      }
      return Success;
    }

    method DoRelease(handle: bool) returns (status: Status)
      requires Valid()
      modifies this
      ensures Valid()
      ensures status == StatusOf(old(Value()), Release(handle))
      ensures Value() == Step(old(Value()), Release(handle))
    {
      if !open {
        return NotInitialised;
      }
      if !handle {
        return InvalidParam;
      }
      if initialized {
        return AlreadyInitialised;
      }
      if backend {
        CloseBackend();
      }
      selected := false;
      duo := false;
      startPending := false;
      return Success;
    }

    /** Buffers and signal processing, for one tuner or both. */
    method Prepare(a: Answers) returns (status: Status)
      requires Valid() && selected && !initialized
      modifies this`buffers, this`liveBuffers
      ensures Accounted()
      ensures Value() == old(Value()).(buffers := status.Success?)
      ensures status.Success? <==>
              a.valid && a.buffers && a.dsp && (mode.DualTuner? ==> a.dualValid && a.dualDsp)
      ensures !status.Success? ==> status == InitStatus(old(Value()), a)
    {
      if !a.valid {
        return OutOfRange;
      }
      if !a.buffers {
        return HwError;
      }
      AllocateBuffers();
      if !a.dsp {
        FreeBuffers();
        return OutOfRange;
      }
      if mode.DualTuner? {
        if !a.dualValid {
          FreeBuffers();
          return InvalidMode;
        }
        if !a.dualDsp {
          FreeBuffers();
          return OutOfRange;
        }
      }
      return Success;
    }

    /** The connection, its configuration and the callback thread. */
    method Connect(a: Answers) returns (status: Status)
      requires Accounted() && buffers && !callbackThread && (duo ==> backend)
      modifies this`backend, this`buffers, this`callbackThread
      modifies this`liveBackends, this`liveBuffers, this`liveCallbackThreads
      ensures Accounted()
      ensures callbackThread == buffers == status.Success?
      ensures backend == (duo || status.Success?)
      ensures status == if !old(backend) && !a.backend then HwError
                        else if !a.configure then HwError
                        else if !a.callbackThread then OutOfMemory else Success
    {
      if !backend {
        if !a.backend {
          FreeBuffers();
          return HwError;
        }
        CreateBackend();
      }
      if !a.configure {
        if !duo {
          CloseBackend();
        }
        FreeBuffers();
        return HwError;
      }
      if !a.callbackThread {
        if !duo {
          CloseBackend();
        }
        FreeBuffers();
        return OutOfMemory;
      }
      StartCallbackThread();
      return Success;
    }

    /** The shared end of every failure after the daemon has started streaming. */
    method Abandon()
      requires Accounted() && backend
      modifies this`backend, this`liveBackends, this`buffers, this`liveBuffers
      modifies this`callbackThread, this`liveCallbackThreads, this`agcThread, this`liveAgcThreads
      modifies this`streaming, this`initialized
      ensures Accounted() && backend == duo
      ensures !streaming && !agcThread && !initialized && !callbackThread && !buffers
    {
      if agcThread {
        JoinAgcThread();
      }
      if !duo {
        CloseBackend();
      }
      streaming := false;
      initialized := false;
      StopCallbackThread();
      FreeBuffers();
    }

    /** Start, gain-control thread, first samples and gain. */
    method Launch(a: Answers) returns (status: Status)
      requires Accounted() && selected && !initialized && !streaming && !agcThread
      requires backend && buffers && callbackThread
      modifies this`backend, this`liveBackends, this`buffers, this`liveBuffers
      modifies this`callbackThread, this`liveCallbackThreads, this`agcThread, this`liveAgcThreads
      modifies this`streaming, this`initialized, this`startPending
      ensures Accounted()
      ensures var reply := StartReply(duo, a.start);
              startPending == if reply.Refused? then old(startPending) else reply.Pending?
      ensures buffers == callbackThread == streaming == agcThread == initialized == status.Success?
      ensures backend == (duo || status.Success?)
      ensures status == if StartReply(duo, a.start).Pending? then StartPending
                        else if StartReply(duo, a.start).Refused? then HwError
                        else if !a.agcThread then StartPending
                        else if !a.firstIq || !a.gain then HwError else Success
    {
      initialized := true;
      var reply := StartReply(duo, a.start);
      if !reply.Done? {
        initialized := false;
        StopCallbackThread();
        FreeBuffers();
        if reply.Pending? {
          startPending := true;
          return StartPending;
        }
        if !duo {
          CloseBackend();
        }
        return HwError;
      }
      startPending := false;
      streaming := true;
      if !a.agcThread {
        Abandon();
        return StartPending;
      }
      StartAgcThread();
      if !a.firstIq {
        Abandon();
        return HwError;
      }
      if !a.gain {
        Abandon();
        return HwError;
      }
      return Success;
    }

    method DoInit(handle: bool, callbacks: bool, a: Answers) returns (status: Status)
      requires Valid()
      modifies this
      ensures Valid()
      ensures status == StatusOf(old(Value()), Init(handle, callbacks, a))
      ensures Value() == Step(old(Value()), Init(handle, callbacks, a))
    {
      if !handle || !selected {
        return InvalidParam;
      }
      if !callbacks {
        return InvalidParam;
      }
      if initialized {
        return AlreadyInitialised;
      }
      StepConsistent(Value(), Init(handle, callbacks, a));
      status := RunStages(a);
    }

    method RunStages(a: Answers) returns (status: Status)
      requires Valid() && selected && !initialized
      modifies this
      ensures Accounted()
      ensures status == InitStatus(old(Value()), a)
      ensures Value() == AfterInit(old(Value()), a)
    {
      status := Prepare(a);
      if !status.Success? {
        return;
      }
      status := Connect(a);
      if !status.Success? {
        return;
      }
      status := Launch(a);
    }

    method DoUninit(handle: bool, stop: Reply) returns (status: Status)
      requires Valid()
      modifies this
      ensures Valid()
      ensures status == StatusOf(old(Value()), Uninit(handle, stop))
      ensures Value() == Step(old(Value()), Uninit(handle, stop))
    {
      if !handle || !initialized {
        return NotInitialised;
      }
      if duo {
        if stop.Pending? {
          return StopPending;
        }
        if stop.Refused? {
          return HwError;
        }
      }
      Abandon();
      return Success;
    }
  }
}
