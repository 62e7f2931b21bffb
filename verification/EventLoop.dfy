/**
 The start/stop protocol of the event loop.

 Any number of threads call Run, Stop and SetStopHandler while a loop thread waits
 and dispatches.  The loop state is guarded by a mutex, so a locked section is one
 step; the wake-up message of Stop is written after the section, which is another
 step.  `Run` over an arbitrary schedule covers every interleaving.
 */
module EventLoop {
  import opened Prelude
  import Runs

  type Agent = nat

  datatype LoopState = STOPPED | START_REQUESTED | STARTED | STOP_REQUESTED

  function Bits(s: LoopState): bv32 {
    match s
    case STOPPED => 0x00
    case START_REQUESTED => 0x01
    case STARTED => 0x02
    case STOP_REQUESTED => 0x04
  }

  /** StopLoop's test for a loop that is stopped already. */
  predicate AlreadyStopped(s: LoopState) {
    Bits(s) & (Bits(STOP_REQUESTED) | Bits(STOPPED)) != 0
  }

  /** STOPPED has no bit, so the test does not see it. */
  lemma MaskMissesStopped(s: LoopState)
    ensures AlreadyStopped(s) <==> s.STOP_REQUESTED?
  {
  }

  /** What a wait reports of the control socket. */
  datatype Control = Quiet | Readable | Broken

  /** Where a thread is. */
  datatype Pc =
    | Idle
    | Starting(loopCount: int, waitSize: int)  // Run: state set, thread not started
    | Entering                                 // ThreadMain: before its first locked section
    | Checking                                 // ThreadMain: at the loop condition
    | Waiting                                  // ThreadMain: in epoll_pwait
    | Dispatching(control: Control)            // ThreadMain: calling handlers, CtrlEventHandler for what it is told
    | Leaving(timedOut: bool)                  // ThreadMain: out of the loop, before the last locked section
    | Finishing                                // ThreadMain: before taking the stop handler
    | Calling(event: nat)                      // ThreadMain: in the stop handler
    | Deleting(event: nat)                     // about to delete a stop event object
    | Writing                                  // StopLoop: between unlock and write

  /** Bookkeeping of the current run. */
  datatype RunBook = RunBook(
    run: nat,                  // number of Runs accepted
    limit: int,                // loop_count of the current run
    waits: nat,                // waits begun in the current run
    stopped: bool,             // a Stop was accepted since the run began
    unwritten: bool            // and a wake-up could not be written
  )

  /** The stop event objects; all but the one installed is bookkeeping. */
  datatype Objects = Objects(
    stopEvent: Option<nat>,
    created: nat,
    called: seq<nat>,          // handlers called
    deleted: set<nat>,
    fault: bool                // an object called or deleted after its deletion
  )

  datatype State = State(
    st: LoopState,
    loopCount: int,
    waitSize: int,
    messages: nat,             // unread messages in the control socket
    attached: bool,            // the control handler is registered
    pcs: map<Agent, Pc>,
    book: RunBook,
    objects: Objects
  )

  function Init(): State {
    State(STOPPED, -1, -1, 0, true, map[], RunBook(0, -1, 0, false, false), Objects(None, 0, [], {}, false))
  }

  function At(s: State, a: Agent): Pc { if a in s.pcs then s.pcs[a] else Idle }

  function Move(s: State, a: Agent, pc: Pc): State { s.(pcs := s.pcs[a := pc]) }

  datatype Wakeup = Timeout | Interrupted | Ready(control: Control)

  datatype Action =
    | StopLock(a: Agent)
    | StopWrite(a: Agent, written: bool)
    | RunLock(a: Agent, loopCount: int, waitSize: int)
    | Launch(a: Agent, thread: Option<Agent>)     // on a new thread, or on the caller's
    | LaunchFails(a: Agent)                       // pthread_create failed
    | Enter(a: Agent, prepared: bool)             // `prepared`: buffers and descriptors could be had
    | Check(a: Agent)
    | Wake(a: Agent, why: Wakeup)
    | Dispatch(a: Agent, complete: bool)          // `complete`: CtrlEventHandler's read gave a whole message
    | Leave(a: Agent)
    | TakeStopHandler(a: Agent)
    | CallStopHandler(a: Agent)
    | SetStopHandler(a: Agent, some: bool)
    | Delete(a: Agent)

  function StopLockStep(s: State, a: Agent): State {
    if AlreadyStopped(s.st) then s
    else
      var push := s.st.STARTED?;
      var t := s.(st := STOP_REQUESTED, book := s.book.(stopped := true));
      if push then Move(t, a, Writing) else t
  }

  /** What Stop returns when its locked section ends the call. */
  function StopResult(s: State): int { if AlreadyStopped(s.st) then -EALREADY else 0 }

  function StopWriteStep(s: State, a: Agent, written: bool): State {
    Move(if written then s.(messages := s.messages + 1) else s.(book := s.book.(unwritten := true)), a, Idle)
  }

  function RunLockStep(s: State, a: Agent, loopCount: int, waitSize: int): State {
    if !s.st.STOPPED? then s
    else Move(s.(st := START_REQUESTED, book := RunBook(s.book.run + 1, loopCount, 0, false, false)),
              a, Starting(loopCount, waitSize))
  }

  function RunResult(s: State): int { if !s.st.STOPPED? then -EINVAL else 0 }

  function LaunchStep(s: State, a: Agent, thread: Option<Agent>): State
    requires At(s, a).Starting?
  {
    var t := s.(loopCount := At(s, a).loopCount, waitSize := At(s, a).waitSize);
    match thread
    case None => Move(t, a, Entering)
    case Some(b) => Move(Move(t, a, Idle), b, Entering)
  }

  function EnterStep(s: State, a: Agent, prepared: bool): State {
    if s.waitSize <= 0 || s.loopCount == 0 || !prepared then
      Move(s.(st := STOPPED), a, Idle)
    else
      Move(s.(st := if s.st.START_REQUESTED? then STARTED else s.st), a, Checking)
  }

  function CheckStep(s: State, a: Agent): State {
    if s.st.STARTED? && s.loopCount != 0 then
      Move(s.(loopCount := if s.loopCount > 0 then s.loopCount - 1 else s.loopCount,
              book := s.book.(waits := s.book.waits + 1)), a, Waiting)
    else
      Move(s, a, Leaving(false))
  }

  function WakeStep(s: State, a: Agent, why: Wakeup): State {
    match why
    case Timeout => Move(s, a, Leaving(true))
    case Interrupted => Move(s, a, Checking)
    case Ready(control) => Move(s, a, Dispatching(control))
  }

  /** The control handler reads a message; an error event, or a read that is not whole, makes it cancel itself. */
  function Controlled(s: State, control: Control, complete: bool): State {
    match control
    case Quiet => s
    case Readable =>
      if complete then s.(messages := if s.messages > 0 then s.messages - 1 else 0) else s.(attached := false)
    case Broken => s.(attached := false)
  }

  function DispatchStep(s: State, a: Agent, complete: bool): State
    requires At(s, a).Dispatching?
  {
    Move(Controlled(s, At(s, a).control, complete), a, Checking)
  }

  function TakeStep(s: State, a: Agent): State {
    match s.objects.stopEvent
    case None => Move(s, a, Idle)
    case Some(e) => Move(s.(objects := s.objects.(stopEvent := None)), a, Calling(e))
  }

  function CallStep(s: State, a: Agent): State
    requires At(s, a).Calling?
  {
    var e := At(s, a).event;
    Move(s.(objects := s.objects.(called := s.objects.called + [e],
                                  fault := s.objects.fault || e in s.objects.deleted)),
         a, Deleting(e))
  }

  function SetStep(s: State, a: Agent, some: bool): State {
    var t := s.(objects := s.objects.(stopEvent := if some then Some(s.objects.created) else None,
                                      created := if some then s.objects.created + 1 else s.objects.created));
    match s.objects.stopEvent
    case None => t
    case Some(e) => Move(t, a, Deleting(e))
  }

  function DeleteStep(s: State, a: Agent): State
    requires At(s, a).Deleting?
  {
    var e := At(s, a).event;
    Move(s.(objects := s.objects.(deleted := s.objects.deleted + {e},
                                  fault := s.objects.fault || e in s.objects.deleted)),
         a, Idle)
  }

  /** Only a registered handler is told of its socket. */
  predicate Reported(s: State, why: Wakeup) {
    why.Ready? && !why.control.Quiet? ==> s.attached && (why.control.Readable? ==> s.messages > 0)
  }

  predicate Enabled(s: State, act: Action) {
    match act
    case StopLock(a) => At(s, a).Idle?
    case StopWrite(a, _) => At(s, a).Writing?
    case RunLock(a, _, _) => At(s, a).Idle?
    case Launch(a, thread) => At(s, a).Starting? && (thread.Some? ==> thread.value != a && At(s, thread.value).Idle?)
    case LaunchFails(a) => At(s, a).Starting?
    case Enter(a, _) => At(s, a).Entering?
    case Check(a) => At(s, a).Checking?
    case Wake(a, why) => At(s, a).Waiting? && Reported(s, why)
    case Dispatch(a, _) => At(s, a).Dispatching?
    case Leave(a) => At(s, a).Leaving?
    case TakeStopHandler(a) => At(s, a).Finishing?
    case CallStopHandler(a) => At(s, a).Calling?
    case SetStopHandler(a, _) => At(s, a).Idle?
    case Delete(a) => At(s, a).Deleting?
  }

  function Step(s: State, act: Action): State {
    if !Enabled(s, act) then s else
    match act
    case StopLock(a) => StopLockStep(s, a)
    case StopWrite(a, written) => StopWriteStep(s, a, written)
    case RunLock(a, loopCount, waitSize) => RunLockStep(s, a, loopCount, waitSize)
    case Launch(a, thread) => LaunchStep(s, a, thread)
    case LaunchFails(a) => Move(s.(loopCount := At(s, a).loopCount, waitSize := At(s, a).waitSize), a, Idle)
    case Enter(a, prepared) => EnterStep(s, a, prepared)
    case Check(a) => CheckStep(s, a)
    case Wake(a, why) => WakeStep(s, a, why)
    case Dispatch(a, complete) => DispatchStep(s, a, complete)
    case Leave(a) => Move(s.(st := STOPPED), a, Finishing)
    case TakeStopHandler(a) => TakeStep(s, a)
    case CallStopHandler(a) => CallStep(s, a)
    case SetStopHandler(a, some) => SetStep(s, a, some)
    case Delete(a) => DeleteStep(s, a)
  }

  function RunFrom(s: State, schedule: seq<Action>): State { Runs.From(Step, s, schedule) }

  function Run(schedule: seq<Action>): State { RunFrom(Init(), schedule) }

  // ---------- Invariant ----------

  /** The thread has been let through by Run and has not given the loop back. */
  predicate Holder(pc: Pc) {
    pc.Starting? || pc.Entering? || InLoop(pc)
  }

  predicate InLoop(pc: Pc) {
    pc.Checking? || pc.Waiting? || pc.Dispatching? || pc.Leaving?
  }

  ghost predicate Held(s: State) { exists a :: Holder(At(s, a)) }

  ghost predicate InvHolder(s: State) {
    && (forall a, b :: Holder(At(s, a)) && Holder(At(s, b)) ==> a == b)
    && (forall a :: Holder(At(s, a)) ==> !s.st.STOPPED?)
    && (forall a :: InLoop(At(s, a)) ==> !s.st.START_REQUESTED?)
    && (s.st.STARTED? ==> exists a :: InLoop(At(s, a)))
    && (s.st.STOP_REQUESTED? ==> s.book.stopped)
    && (s.st.START_REQUESTED? || s.st.STARTED? ==> !s.book.stopped)
  }

  ghost predicate InvWakeup(s: State) {
    && (forall a :: At(s, a).Waiting? && s.st.STOP_REQUESTED? && !s.book.unwritten ==>
          s.messages > 0 || exists b :: At(s, b).Writing?)
    && (forall a :: At(s, a).Dispatching? ==> Reported(s, Ready(At(s, a).control)))
    && (forall a :: At(s, a).Leaving? && !At(s, a).timedOut ==> s.st.STOP_REQUESTED? || s.loopCount == 0)
  }

  ghost predicate InvCount(s: State) {
    && (s.book.limit > 0 ==> s.book.waits <= s.book.limit)
    && (s.book.limit == 0 ==> s.book.waits == 0)
    && (forall a :: At(s, a).Starting? ==> At(s, a).loopCount == s.book.limit && s.book.waits == 0)
    && (forall a :: At(s, a).Entering? ==> s.loopCount == s.book.limit && s.book.waits == 0)
    && (forall a :: InLoop(At(s, a)) ==>
          if s.book.limit > 0 then s.loopCount == s.book.limit - s.book.waits else s.loopCount == s.book.limit < 0)
  }

  /** The stop event object a thread has in hand. */
  function InHand(pc: Pc): Option<nat> {
    if pc.Calling? || pc.Deleting? then Some(pc.event) else None
  }

  /** Stop event object `e` is deleted, installed or in some thread's hand. */
  ghost predicate Accounted(s: State, e: nat) {
    e in s.objects.deleted || s.objects.stopEvent == Some(e) || exists a :: InHand(At(s, a)) == Some(e)
  }

  predicate Live(s: State, e: nat) { e < s.objects.created && e !in s.objects.deleted }

  ghost predicate InvEvents(s: State) {
    && !s.objects.fault
    && (s.objects.stopEvent.Some? ==>
          Live(s, s.objects.stopEvent.value) && s.objects.stopEvent.value !in s.objects.called)
    && (forall a :: InHand(At(s, a)).Some? ==>
          Live(s, InHand(At(s, a)).value) && s.objects.stopEvent != InHand(At(s, a)))
    && (forall a, b :: InHand(At(s, a)).Some? && InHand(At(s, a)) == InHand(At(s, b)) ==> a == b)
    && (forall a :: At(s, a).Calling? ==> At(s, a).event !in s.objects.called)
    && (forall e :: e in s.objects.deleted ==> e < s.objects.created)
    && (forall e :: e in s.objects.called ==> e < s.objects.created)
    && (forall e: nat :: e < s.objects.created ==> Accounted(s, e))
    && (forall i, j :: 0 <= i < j < |s.objects.called| ==> s.objects.called[i] != s.objects.called[j])
  }

  ghost predicate InvLoop(s: State) {
    InvHolder(s) && InvWakeup(s) && InvCount(s)
  }

  ghost predicate Inv(s: State) {
    InvLoop(s) && InvEvents(s)
  }

  // ---------- Every step keeps the invariant ----------

  /** A step moves its own thread only. */
  ghost predicate Moved(s: State, t: State, a: Agent) {
    forall b :: b != a ==> At(t, b) == At(s, b)
  }

  /** Steps of threads outside the loop that leave the loop's own state alone. */
  lemma LoopUntouched(s: State, t: State, a: Agent)
    requires InvLoop(s) && Moved(s, t, a)
    requires !Holder(At(s, a)) && !Holder(At(t, a)) && !At(s, a).Writing?
    requires t == s.(pcs := t.pcs, objects := t.objects)
    ensures InvLoop(t)
  {
    if t.st.STARTED? {
      var b :| InLoop(At(s, b));
      assert InLoop(At(t, b));
    }
    forall b | At(t, b).Waiting? && t.st.STOP_REQUESTED? && !t.book.unwritten
      ensures t.messages > 0 || exists c :: At(t, c).Writing?
    {
      assert At(s, b).Waiting?;
      if s.messages == 0 {
        var c :| At(s, c).Writing?;
        assert At(t, c).Writing?;
      }
    }
  }

  /** Steps that leave the stop event objects alone. */
  lemma EventsUntouched(s: State, t: State)
    requires InvEvents(s) && HandsOff(s, t)
    ensures InvEvents(t)
  {
    forall e: nat | e < t.objects.created ensures Accounted(t, e) {
      assert Accounted(s, e);
      if e !in s.objects.deleted && s.objects.stopEvent != Some(e) {
        var a :| InHand(At(s, a)) == Some(e);
        assert InHand(At(t, a)) == Some(e);
      }
    }
  }

  lemma StopLockKeepsLoop(s: State, a: Agent)
    requires InvLoop(s) && At(s, a).Idle?
    ensures InvLoop(StopLockStep(s, a))
  {
    var t := StopLockStep(s, a);
    assert Moved(s, t, a);
    if s.st.STARTED? {
      assert At(t, a).Writing?;
    }
  }

  lemma StopWriteKeepsLoop(s: State, a: Agent, written: bool)
    requires InvLoop(s) && At(s, a).Writing?
    ensures InvLoop(StopWriteStep(s, a, written))
  {
    var t := StopWriteStep(s, a, written);
    assert Moved(s, t, a);
    if s.st.STARTED? {
      var b :| InLoop(At(s, b));
      assert InLoop(At(t, b));
    }
  }

  lemma RunLockKeepsLoop(s: State, a: Agent, loopCount: int, waitSize: int)
    requires InvLoop(s) && At(s, a).Idle?
    ensures InvLoop(RunLockStep(s, a, loopCount, waitSize))
  {
    var t := RunLockStep(s, a, loopCount, waitSize);
    assert Moved(s, t, a);
  }

  lemma LaunchKeepsLoop(s: State, a: Agent, thread: Option<Agent>)
    requires InvLoop(s) && At(s, a).Starting? && (thread.Some? ==> thread.value != a && At(s, thread.value).Idle?)
    ensures InvLoop(LaunchStep(s, a, thread))
  {
    var t := LaunchStep(s, a, thread);
    assert forall c :: c != a && Some(c) != thread ==> At(t, c) == At(s, c);
  }

  lemma LaunchFailsKeepsLoop(s: State, a: Agent)
    requires InvLoop(s) && At(s, a).Starting?
    ensures InvLoop(Move(s.(loopCount := At(s, a).loopCount, waitSize := At(s, a).waitSize), a, Idle))
  {
    var t := Move(s.(loopCount := At(s, a).loopCount, waitSize := At(s, a).waitSize), a, Idle);
    assert Moved(s, t, a);
  }

  lemma EnterKeepsLoop(s: State, a: Agent, prepared: bool)
    requires InvLoop(s) && At(s, a).Entering?
    ensures InvLoop(EnterStep(s, a, prepared))
  {
    var t := EnterStep(s, a, prepared);
    assert Moved(s, t, a);
    assert t.st.STARTED? ==> InLoop(At(t, a));
  }

  lemma CheckKeepsLoop(s: State, a: Agent)
    requires InvLoop(s) && At(s, a).Checking?
    ensures InvLoop(CheckStep(s, a))
  {
    var t := CheckStep(s, a);
    assert Moved(s, t, a);
    assert InLoop(At(t, a));
  }

  lemma WakeKeepsLoop(s: State, a: Agent, why: Wakeup)
    requires InvLoop(s) && At(s, a).Waiting? && Reported(s, why)
    ensures InvLoop(WakeStep(s, a, why))
  {
    var t := WakeStep(s, a, why);
    assert Moved(s, t, a);
    assert InLoop(At(t, a));
  }

  lemma DispatchKeepsLoop(s: State, a: Agent, complete: bool)
    requires InvLoop(s) && At(s, a).Dispatching?
    ensures InvLoop(DispatchStep(s, a, complete))
  {
    var t := DispatchStep(s, a, complete);
    assert Moved(s, t, a);
    assert InLoop(At(t, a));
  }

  lemma LeaveKeepsLoop(s: State, a: Agent)
    requires InvLoop(s) && At(s, a).Leaving?
    ensures InvLoop(Move(s.(st := STOPPED), a, Finishing))
  {
    var t := Move(s.(st := STOPPED), a, Finishing);
    assert Moved(s, t, a);
  }

  lemma StillAccounted(s: State, t: State, a: Agent, e: nat)
    requires Accounted(s, e) && Moved(s, t, a) && s.objects.deleted <= t.objects.deleted
    requires InHand(At(s, a)) == Some(e) || s.objects.stopEvent == Some(e) ==>
               e in t.objects.deleted || t.objects.stopEvent == Some(e) || InHand(At(t, a)) == Some(e)
    ensures Accounted(t, e)
  {
    if e !in s.objects.deleted && s.objects.stopEvent != Some(e) {
      var b :| InHand(At(s, b)) == Some(e);
      assert b == a || InHand(At(t, b)) == Some(e);
    }
  }

  lemma TakeKeepsEvents(s: State, a: Agent)
    requires InvEvents(s) && At(s, a).Finishing?
    ensures InvEvents(TakeStep(s, a))
  {
    var t := TakeStep(s, a);
    assert Moved(s, t, a);
    forall e: nat | e < t.objects.created ensures Accounted(t, e) {
      if e < s.objects.created {
        StillAccounted(s, t, a, e);
      }
    }
  }

  lemma CallKeepsEvents(s: State, a: Agent)
    requires InvEvents(s) && At(s, a).Calling?
    ensures InvEvents(CallStep(s, a))
  {
    var t := CallStep(s, a);
    assert Moved(s, t, a);
    forall e: nat | e < t.objects.created ensures Accounted(t, e) {
      if e < s.objects.created {
        StillAccounted(s, t, a, e);
      }
    }
  }

  lemma SetKeepsEvents(s: State, a: Agent, some: bool)
    requires InvEvents(s) && At(s, a).Idle?
    ensures InvEvents(SetStep(s, a, some))
  {
    var t := SetStep(s, a, some);
    assert Moved(s, t, a);
    forall e: nat | e < t.objects.created ensures Accounted(t, e) {
      if e < s.objects.created {
        StillAccounted(s, t, a, e);
      }
    }
  }

  lemma DeleteKeepsEvents(s: State, a: Agent)
    requires InvEvents(s) && At(s, a).Deleting?
    ensures InvEvents(DeleteStep(s, a))
  {
    var t := DeleteStep(s, a);
    assert Moved(s, t, a);
    forall e: nat | e < t.objects.created ensures Accounted(t, e) {
      if e < s.objects.created {
        StillAccounted(s, t, a, e);
      }
    }
  }

  lemma HandlerStepKeepsLoop(s: State, act: Action)
    requires InvLoop(s) && Enabled(s, act)
    requires act.TakeStopHandler? || act.CallStopHandler? || act.SetStopHandler? || act.Delete?
    ensures InvLoop(Step(s, act))
  {
    assert Moved(s, Step(s, act), act.a);
    LoopUntouched(s, Step(s, act), act.a);
  }

  lemma StepKeepsLoop(s: State, act: Action)
    requires InvLoop(s) && Enabled(s, act)
    ensures InvLoop(Step(s, act))
  {
    match act
    case StopLock(a) => StopLockKeepsLoop(s, a);
    case StopWrite(a, written) => StopWriteKeepsLoop(s, a, written);
    case RunLock(a, loopCount, waitSize) => RunLockKeepsLoop(s, a, loopCount, waitSize);
    case Launch(a, thread) => LaunchKeepsLoop(s, a, thread);
    case LaunchFails(a) => LaunchFailsKeepsLoop(s, a);
    case Enter(a, prepared) => EnterKeepsLoop(s, a, prepared);
    case Check(a) => CheckKeepsLoop(s, a);
    case Wake(a, why) => WakeKeepsLoop(s, a, why);
    case Dispatch(a, complete) => DispatchKeepsLoop(s, a, complete);
    case Leave(a) => LeaveKeepsLoop(s, a);
    case _ => HandlerStepKeepsLoop(s, act);
  }

  /** Neither step nor thread touches a stop event object. */
  ghost predicate HandsOff(s: State, t: State) {
    && (forall b :: InHand(At(t, b)) == InHand(At(s, b)) && (At(t, b).Calling? ==> At(t, b) == At(s, b)))
    && t.objects == s.objects
  }

  lemma LoopStepIsHandsOff(s: State, act: Action)
    requires Enabled(s, act)
    requires !act.Launch? && !act.TakeStopHandler? && !act.CallStopHandler? && !act.SetStopHandler? && !act.Delete?
    ensures HandsOff(s, Step(s, act))
  {
    assert Moved(s, Step(s, act), act.a);
    assert InHand(At(s, act.a)).None? && InHand(At(Step(s, act), act.a)).None?;
  }

  lemma StepKeepsEvents(s: State, act: Action)
    requires InvEvents(s) && Enabled(s, act)
    ensures InvEvents(Step(s, act))
  {
    match act
    case TakeStopHandler(a) => TakeKeepsEvents(s, a);
    case CallStopHandler(a) => CallKeepsEvents(s, a);
    case SetStopHandler(a, some) => SetKeepsEvents(s, a, some);
    case Delete(a) => DeleteKeepsEvents(s, a);
    case Launch(a, thread) =>
      EventsUntouched(s, LaunchStep(s, a, thread));
    case _ =>
      LoopStepIsHandsOff(s, act);
      EventsUntouched(s, Step(s, act));
  }

  lemma {:induction false} RunFromKeepsInv(s: State, schedule: seq<Action>)
    requires Inv(s)
    ensures Inv(RunFrom(s, schedule))
  {
    if schedule != [] {
      var t, act := RunFrom(s, schedule[..|schedule| - 1]), schedule[|schedule| - 1];
      RunFromKeepsInv(s, schedule[..|schedule| - 1]);
      if Enabled(t, act) {
        StepKeepsLoop(t, act);
        StepKeepsEvents(t, act);
      }
    }
  }

  lemma Reachable(schedule: seq<Action>)
    ensures Inv(Run(schedule))
  {
    assert Inv(Init());
    RunFromKeepsInv(Init(), schedule);
  }

  // ---------- What the loop promises ----------

  /** Under every schedule at most one thread is between the acceptance of its Run and giving the loop back. */
  lemma OneLoopThread(schedule: seq<Action>, a: Agent, b: Agent)
    requires var s := Run(schedule); Holder(At(s, a)) && Holder(At(s, b))
    ensures a == b && !Run(schedule).st.STOPPED?
  {
    Reachable(schedule);
  }

  /**
   A thread blocked in the wait of a loop told to stop has an unread wake-up, or the stopper is about to write it,
   unless a wake-up of this run could not be written.
   */
  lemma NoStopIsLost(schedule: seq<Action>, a: Agent)
    requires var s := Run(schedule); At(s, a).Waiting? && s.st.STOP_REQUESTED?
    ensures var s := Run(schedule); s.messages > 0 || s.book.unwritten || exists b :: At(s, b).Writing?
  {
    Reachable(schedule);
  }

  /** The steps by which a stop alone gets a blocked thread `a` out of its loop. */
  predicate Waking(act: Action, a: Agent) {
    || act.StopWrite?
    || act == Wake(a, Ready(Readable))
    || (act.a == a && (act.Dispatch? || act.Check? || act.Leave?))
  }

  /** A wake-up, there or about to be written, that the control handler will be told of. */
  ghost predicate WakeupDue(s: State) {
    s.attached && (s.messages > 0 || exists b :: At(s, b).Writing?)
  }

  /**
   A wake-up that is due is enough: without a timeout or any other event the blocked thread gives the loop back.
   In a loop whose control handler is registered and whose wake-ups were written, one is due.
   */
  lemma StopWakesTheLoop(s: State, a: Agent) returns (wake: seq<Action>)
    requires Inv(s) && At(s, a).Waiting? && s.st.STOP_REQUESTED?
    requires WakeupDue(s) || (s.attached && !s.book.unwritten)
    ensures forall w :: w in wake ==> Waking(w, a)
    ensures var t := RunFrom(s, wake); t.st.STOPPED? && At(t, a).Finishing? && t.book.waits == s.book.waits
  {
    var rest := [Wake(a, Ready(Readable)), Dispatch(a, true), Check(a), Leave(a)];
    if s.messages > 0 {
      wake := rest;
      MessageWakesTheLoop(s, a);
    } else {
      var b :| At(s, b).Writing?;
      var write := StopWrite(b, true);
      MessageWakesTheLoop(Step(s, write), a);
      wake := [write] + rest;
      Runs.Cons(Step, s, write, rest);
    }
  }

  lemma MessageWakesTheLoop(s: State, a: Agent)
    requires At(s, a).Waiting? && s.st.STOP_REQUESTED? && s.attached && s.messages > 0
    ensures var t := RunFrom(s, [Wake(a, Ready(Readable)), Dispatch(a, true), Check(a), Leave(a)]);
            t.st.STOPPED? && At(t, a).Finishing? && t.book.waits == s.book.waits
  {
    var wake, dispatch, check, leave := Wake(a, Ready(Readable)), Dispatch(a, true), Check(a), Leave(a);
    var s1 := Move(s, a, Dispatching(Readable));
    var s2 := Move(s1.(messages := s1.messages - 1), a, Checking);
    var s3 := Move(s2, a, Leaving(false));
    assert Step(s, wake) == s1;
    assert Step(s1, dispatch) == s2;
    assert Step(s2, check) == s3;
    Runs.Four(Step, s, wake, dispatch, check, leave);
  }

  /** And it is needed: where none is due the stop alone never gets the blocked thread out of its wait. */
  lemma {:induction false} LostStopStaysLost(s: State, a: Agent, schedule: seq<Action>)
    requires At(s, a).Waiting? && !WakeupDue(s)
    requires forall w :: w in schedule ==> Waking(w, a)
    ensures var t := RunFrom(s, schedule); At(t, a).Waiting? && !WakeupDue(t)
  {
    if schedule != [] {
      var t, act := RunFrom(s, schedule[..|schedule| - 1]), schedule[|schedule| - 1];
      LostStopStaysLost(s, a, schedule[..|schedule| - 1]);
      assert act in schedule;
      assert Enabled(t, act) ==> act.StopWrite? && !t.attached;
    }
  }

  /** A control handler that cancelled itself is never registered again, in whatever run. */
  lemma {:induction false} DetachedForever(s: State, schedule: seq<Action>)
    requires !s.attached
    ensures !RunFrom(s, schedule).attached
  {
    if schedule != [] {
      DetachedForever(s, schedule[..|schedule| - 1]);
    }
  }

  /**
   One error event on the control socket is enough for that: the loop waits on, a stop is accepted and its
   wake-up written, and the thread blocked in the wait never hears of it.
   */
  lemma ErrorEventDeafensTheLoop() returns (schedule: seq<Action>)
    ensures var s := Run(schedule);
            && At(s, 0).Waiting? && s.st.STOP_REQUESTED? && s.messages == 1 && !s.book.unwritten && !WakeupDue(s)
  {
    var start := [RunLock(0, -1, 1), Launch(0, None), Enter(0, true), Check(0)];
    var error := [Wake(0, Ready(Broken)), Dispatch(0, true), Check(0), StopLock(1)];
    schedule := start + error + [StopWrite(1, true)];
    var s1 := FirstWait();
    ErrorThenStop(s1);
    Runs.Append(Step, Init(), start, error);
    Runs.Snoc(Step, Init(), start + error, StopWrite(1, true));
  }

  lemma FirstWait() returns (s: State)
    ensures s == RunFrom(Init(), [RunLock(0, -1, 1), Launch(0, None), Enter(0, true), Check(0)])
    ensures At(s, 0).Waiting? && At(s, 1).Idle? && s.st.STARTED? && s.attached && s.messages == 0 && s.loopCount == -1
    ensures !s.book.unwritten
  {
    var runLock, launch, enter, check := RunLock(0, -1, 1), Launch(0, None), Enter(0, true), Check(0);
    Runs.Four(Step, Init(), runLock, launch, enter, check);
    var s1 := Move(Init().(st := START_REQUESTED, book := RunBook(1, -1, 0, false, false)), 0, Starting(-1, 1));
    var s2 := Move(s1.(loopCount := -1, waitSize := 1), 0, Entering);
    var s3 := Move(s2.(st := STARTED), 0, Checking);
    assert Step(Init(), runLock) == s1;
    assert Step(s1, launch) == s2;
    assert Step(s2, enter) == s3;
    s := Step(s3, check);
  }

  lemma ErrorThenStop(s: State)
    requires At(s, 0).Waiting? && At(s, 1).Idle? && s.st.STARTED? && s.attached && s.messages == 0 && s.loopCount == -1
    requires !s.book.unwritten
    ensures var t := RunFrom(s, [Wake(0, Ready(Broken)), Dispatch(0, true), Check(0), StopLock(1)]);
            && At(t, 0).Waiting? && At(t, 1).Writing? && t.st.STOP_REQUESTED? && !t.attached && t.messages == 0
            && !t.book.unwritten
  {
    var wake, dispatch, check, stop := Wake(0, Ready(Broken)), Dispatch(0, true), Check(0), StopLock(1);
    Runs.Four(Step, s, wake, dispatch, check, stop);
    var s1 := Move(s, 0, Dispatching(Broken));
    var s2 := Move(s1.(attached := false), 0, Checking);
    var s3 := Move(s2.(book := s.book.(waits := s.book.waits + 1)), 0, Waiting);
    assert Step(s, wake) == s1;
    assert Step(s1, dispatch) == s2;
    assert Step(s2, check) == s3;
  }

  ghost predicate NoMoreWaits(s: State, t: State) {
    && s.book.run <= t.book.run
    && (t.book.run == s.book.run ==> t.book.waits == s.book.waits && (t.st.STOP_REQUESTED? || t.st.STOPPED?))
  }

  /** Once a loop is told to stop, its current run begins no further wait, whatever happens. */
  lemma {:induction false} NoIterationAfterStop(s: State, schedule: seq<Action>)
    requires Inv(s) && s.st.STOP_REQUESTED?
    ensures NoMoreWaits(s, RunFrom(s, schedule))
  {
    if schedule != [] {
      var t, act := RunFrom(s, schedule[..|schedule| - 1]), schedule[|schedule| - 1];
      NoIterationAfterStop(s, schedule[..|schedule| - 1]);
      RunFromKeepsInv(s, schedule[..|schedule| - 1]);
      NoMoreWaitsStep(s, t, act);
    }
  }

  lemma NoMoreWaitsStep(s: State, t: State, act: Action)
    requires InvHolder(t) && NoMoreWaits(s, t)
    ensures NoMoreWaits(s, Step(t, act))
  {
  }

  /** A Stop that comes before the loop thread has entered its loop: the run it belongs to has no wait at all. */
  lemma StopBeforeStartMeansNoWait(s: State, a: Agent, b: Agent, schedule: seq<Action>)
    requires Inv(s) && (At(s, b).Starting? || At(s, b).Entering?) && At(s, a).Idle?
    ensures var t := RunFrom(Step(s, StopLock(a)), schedule);
            t.book.run == s.book.run ==> t.book.waits == 0
  {
    StepKeepsLoop(s, StopLock(a));
    StepKeepsEvents(s, StopLock(a));
    NoIterationAfterStop(Step(s, StopLock(a)), schedule);
  }

  /** A positive loop_count bounds the waits of a run. */
  lemma LoopCountBoundsWaits(schedule: seq<Action>)
    ensures var s := Run(schedule);
            && (s.book.limit > 0 ==> s.book.waits <= s.book.limit)
            && (s.book.limit == 0 ==> s.book.waits == 0)
  {
    Reachable(schedule);
  }

  /**
   A run ends only by a timeout, by its loop_count, or by a Stop accepted during that very run:
   wake-ups left over from an earlier one never end it.
   */
  lemma WhyARunEnds(schedule: seq<Action>, a: Agent)
    requires At(Run(schedule), a).Leaving?
    ensures var s := Run(schedule);
            At(s, a).timedOut || s.book.stopped || (s.book.limit > 0 && s.book.waits == s.book.limit)
  {
    Reachable(schedule);
  }

  // ---------- Stop without a running loop ----------

  /** No thread has the loop, and the state does not let one have it. */
  ghost predicate Wedged(s: State) { !s.st.STOPPED? && !Held(s) }

  /**
   Stop on a loop that is stopped is accepted and returns 0, where a second Stop returns -EALREADY; it wedges the
   loop.
   */
  lemma StopBeforeStartWedges(s: State, a: Agent)
    requires Inv(s) && s.st.STOPPED? && At(s, a).Idle?
    ensures StopResult(s) == 0 && Wedged(Step(s, StopLock(a)))
    ensures StopResult(Step(s, StopLock(a))) == -EALREADY
  {
    var t := Step(s, StopLock(a));
    assert forall b :: At(t, b) == At(s, b);
  }

  /**
   What wedges a loop: from any other reachable state a Stop of a stopped loop does, and the failure to create
   the thread of an accepted Run, and nothing else.
   */
  lemma WhatWedges(s: State, act: Action)
    requires Inv(s) && !Wedged(s)
    ensures Wedged(Step(s, act)) <==>
              || (act.StopLock? && At(s, act.a).Idle? && s.st.STOPPED?)
              || (act.LaunchFails? && At(s, act.a).Starting?)
  {
    if s.st.STOPPED? {
      WhatWedgesStopped(s, act);
    } else {
      var b :| Holder(At(s, b));
      if act.a == b {
        WhatWedgesHolder(s, act);
      } else {
        assert !Holder(At(s, act.a)) && Holder(At(Step(s, act), b));
      }
    }
  }

  lemma WhatWedgesStopped(s: State, act: Action)
    requires InvHolder(s) && s.st.STOPPED?
    ensures Wedged(Step(s, act)) <==> act.StopLock? && At(s, act.a).Idle?
  {
    if act.StopLock? {
      assert forall b :: At(Step(s, act), b) == At(s, b);
    } else if act.RunLock? && Enabled(s, act) {
      assert Holder(At(Step(s, act), act.a));
    }
  }

  /** Of the steps of the thread that has the loop. */
  lemma WhatWedgesHolder(s: State, act: Action)
    requires InvHolder(s) && Holder(At(s, act.a))
    ensures Wedged(Step(s, act)) <==> act.LaunchFails? && At(s, act.a).Starting?
  {
    var t := Step(s, act);
    if act.Launch? && Enabled(s, act) {
      assert Holder(At(t, if act.thread.Some? then act.thread.value else act.a));
    } else if act.LaunchFails? && Enabled(s, act) {
      assert forall c :: c != act.a ==> At(t, c) == At(s, c);
    } else {
      assert Holder(At(t, act.a)) || t.st.STOPPED?;
    }
  }

  /** A wedged loop stays wedged: no later Run is accepted and no wait ever begins. */
  lemma {:induction false} WedgedForever(s: State, schedule: seq<Action>)
    requires Wedged(s)
    ensures var t := RunFrom(s, schedule);
            Wedged(t) && t.book.run == s.book.run && t.book.waits == s.book.waits && RunResult(t) == -EINVAL
  {
    if schedule != [] {
      var t, act := RunFrom(s, schedule[..|schedule| - 1]), schedule[|schedule| - 1];
      WedgedForever(s, schedule[..|schedule| - 1]);
      StaysWedged(t, act);
    }
  }

  lemma StaysWedged(s: State, act: Action)
    requires Wedged(s)
    ensures Wedged(Step(s, act)) && Step(s, act).book.run == s.book.run && Step(s, act).book.waits == s.book.waits
  {
    forall b ensures !Holder(At(Step(s, act), b)) {
      assert !Holder(At(s, b));
      assert !Holder(At(s, act.a));
    }
  }

  /** Every other loop can be run again: some schedule gets a new Run accepted. */
  lemma OthersCanRun(s: State, a: Agent) returns (schedule: seq<Action>)
    requires Inv(s) && !Wedged(s)
    requires At(s, a).Idle?
    ensures RunFrom(s, schedule).book.run == s.book.run + 1
  {
    if s.st.STOPPED? {
      schedule := [] + [RunLock(a, 1, 1)];
      Runs.Snoc(Step, s, [], RunLock(a, 1, 1));
    } else {
      var b :| Holder(At(s, b));
      var back := GiveBack(s, b);
      var t := RunFrom(s, back);
      schedule := back + [RunLock(a, 1, 1)];
      Runs.Snoc(Step, s, back, RunLock(a, 1, 1));
      OnlyMoves(s, back, b, a);
    }
  }

  /** How many steps the thread that has the loop is from giving it back. */
  function Distance(pc: Pc): nat {
    match pc
    case Starting(_, _) => 6
    case Entering => 5
    case Dispatching(_) => 4
    case Checking => 3
    case Waiting => 2
    case _ => 1
  }

  function TowardsTheEnd(b: Agent, pc: Pc): Action {
    match pc
    case Starting(_, _) => Launch(b, None)
    case Entering => Enter(b, false)
    case Dispatching(_) => Dispatch(b, true)
    case Checking => Check(b)
    case Waiting => Wake(b, Timeout)
    case _ => Leave(b)
  }

  /** The thread that has the loop gives it back by its own steps. */
  lemma {:induction false} GiveBack(s: State, b: Agent) returns (schedule: seq<Action>)
    requires Holder(At(s, b))
    ensures forall w :: w in schedule ==> w.a == b && !(w.Launch? && w.thread.Some?)
    ensures var t := RunFrom(s, schedule); t.st.STOPPED? && t.book.run == s.book.run
    decreases Distance(At(s, b))
  {
    var act := TowardsTheEnd(b, At(s, b));
    var t := Step(s, act);
    if t.st.STOPPED? {
      schedule := [act];
      Runs.Cons(Step, s, act, []);
      assert [act] + [] == [act];
    } else {
      var rest := GiveBack(t, b);
      schedule := [act] + rest;
      Runs.Cons(Step, s, act, rest);
    }
  }

  lemma MovesItself(s: State, act: Action, a: Agent)
    requires act.a != a && !(act.Launch? && act.thread.Some?)
    ensures At(Step(s, act), a) == At(s, a)
  {
  }

  lemma {:induction false} OnlyMoves(s: State, schedule: seq<Action>, b: Agent, a: Agent)
    requires forall w :: w in schedule ==> w.a == b && !(w.Launch? && w.thread.Some?)
    requires a != b
    ensures At(RunFrom(s, schedule), a) == At(s, a)
  {
    if schedule != [] {
      OnlyMoves(s, schedule[..|schedule| - 1], b, a);
      MovesItself(RunFrom(s, schedule[..|schedule| - 1]), schedule[|schedule| - 1], a);
    }
  }

  // ---------- What the calls and the loop's thread do ----------

  /** Nothing of the loop but its state, and of the threads only `a`, has changed. */
  ghost predicate OnlyState(s: State, t: State, a: Agent) {
    && Moved(s, t, a)
    && t.loopCount == s.loopCount && t.waitSize == s.waitSize && t.messages == s.messages && t.attached == s.attached
    && t.objects == s.objects
  }

  /** A Stop is refused if there was one, and otherwise noted, with a wake-up exactly if the loop is in its loop. */
  lemma StopIsNoted(s: State, a: Agent)
    requires At(s, a).Idle?
    ensures var t := Step(s, StopLock(a));
            if s.st.STOP_REQUESTED? then StopResult(s) == -EALREADY && t == s
            else
              && StopResult(s) == 0 && t.st.STOP_REQUESTED? && OnlyState(s, t, a)
              && t.book == s.book.(stopped := true)
              && (At(t, a).Writing? <==> s.st.STARTED?) && (At(t, a).Idle? <==> !s.st.STARTED?)
  {
  }

  lemma WakeupIsWritten(s: State, a: Agent, written: bool)
    requires At(s, a).Writing?
    ensures var t := Step(s, StopWrite(a, written));
            && At(t, a).Idle? && Moved(s, t, a) && t.st == s.st
            && t.messages == s.messages + (if written then 1 else 0)
            && (t.book.unwritten <==> s.book.unwritten || !written)
  {
  }

  /** A Run is accepted exactly if the loop is stopped, and is then the next one. */
  lemma RunIsAccepted(s: State, a: Agent, loopCount: int, waitSize: int)
    requires At(s, a).Idle?
    ensures var t := Step(s, RunLock(a, loopCount, waitSize));
            if !s.st.STOPPED? then RunResult(s) == -EINVAL && t == s
            else
              && RunResult(s) == 0 && t.st.START_REQUESTED? && OnlyState(s, t, a)
              && At(t, a) == Starting(loopCount, waitSize)
              && t.book == RunBook(s.book.run + 1, loopCount, 0, false, false)
  {
  }

  /** The parameters of a Run are stored, and its thread enters: a new one, the caller's own, or none. */
  lemma RunIsLaunched(s: State, a: Agent, b: Agent)
    requires At(s, a).Starting? && At(s, b).Idle?
    ensures var t := Step(s, Launch(a, Some(b)));
            && At(t, b).Entering? && At(t, a).Idle? && t.st == s.st
            && t.loopCount == At(s, a).loopCount && t.waitSize == At(s, a).waitSize
            && forall c :: c != a && c != b ==> At(t, c) == At(s, c)
    ensures var t := Step(s, Launch(a, None));
            && At(t, a).Entering? && Moved(s, t, a) && t.st == s.st
            && t.loopCount == At(s, a).loopCount && t.waitSize == At(s, a).waitSize
    ensures var t := Step(s, LaunchFails(a));
            At(t, a).Idle? && Moved(s, t, a) && t.st == s.st
  {
  }

  /** A Run whose loop is not entered gives it back at once; a stop that came before is kept when it is entered. */
  lemma LoopIsEntered(s: State, a: Agent, prepared: bool)
    requires At(s, a).Entering?
    ensures var t := Step(s, Enter(a, prepared));
            && OnlyState(s, t, a) && t.book == s.book
            && if prepared && s.waitSize > 0 && s.loopCount != 0 then
                 At(t, a).Checking? && t.st == (if s.st.START_REQUESTED? then STARTED else s.st)
               else At(t, a).Idle? && t.st.STOPPED?
  {
  }

  /** The loop goes on while it is started and its count, if it has one, is not used up. */
  lemma LoopGoesOn(s: State, a: Agent)
    requires At(s, a).Checking?
    ensures var t := Step(s, Check(a));
            && Moved(s, t, a) && t.st == s.st && t.messages == s.messages
            && if s.st.STARTED? && s.loopCount != 0 then
                 && At(t, a).Waiting? && t.book == s.book.(waits := s.book.waits + 1)
                 && t.loopCount == (if s.loopCount < 0 then s.loopCount else s.loopCount - 1)
               else At(t, a) == Leaving(false) && OnlyState(s, t, a) && t.book == s.book
  {
  }

  /** A timeout ends the loop; an interrupted wait does not; else handlers are called. */
  lemma WaitReturns(s: State, a: Agent, why: Wakeup)
    requires Enabled(s, Wake(a, why))
    ensures var t := Step(s, Wake(a, why));
            && OnlyState(s, t, a) && t.st == s.st && t.book == s.book
            && (why.Timeout? ==> At(t, a) == Leaving(true))
            && (why.Interrupted? ==> At(t, a).Checking?)
            && (why.Ready? ==> At(t, a) == Dispatching(why.control))
  {
  }

  /** The control handler takes one message, or cancels itself for an error or for a message in part. */
  lemma ControlIsHandled(s: State, a: Agent, complete: bool)
    requires At(s, a).Dispatching? && (At(s, a).control.Readable? ==> s.messages > 0)
    ensures var t, control := Step(s, Dispatch(a, complete)), At(s, a).control;
            && At(t, a).Checking? && Moved(s, t, a) && t.st == s.st && t.book == s.book
            && t.messages == s.messages - (if control.Readable? && complete then 1 else 0)
            && (t.attached <==> s.attached && (control.Quiet? || (control.Readable? && complete)))
  {
  }

  // ---------- The stop handler ----------

  /**
   Under every schedule a stop handler is called at most once and never after its event object was
   deleted, no event object is deleted twice, and each one created is installed, in one thread's
   hand, or deleted.
   */
  lemma StopHandlerObjects(schedule: seq<Action>)
    ensures var s := Run(schedule);
            && !s.objects.fault
            && (forall i, j :: 0 <= i < j < |s.objects.called| ==> s.objects.called[i] != s.objects.called[j])
            && (forall e: nat :: e < s.objects.created ==> Accounted(s, e))
            && (forall a, e: nat :: InHand(At(s, a)) == Some(e) ==>
                  e !in s.objects.deleted && s.objects.stopEvent != Some(e))
            && (forall a, b :: InHand(At(s, a)).Some? && InHand(At(s, a)) == InHand(At(s, b)) ==> a == b)
  {
    Reachable(schedule);
  }

  /**
   The thread that gives its loop back takes the stop handler that is installed, calls it, and deletes its object;
   without one it is done.
   */
  lemma LeavingCallsTheStopHandler(s: State, a: Agent)
    requires At(s, a).Leaving?
    ensures match s.objects.stopEvent
            case None =>
              var t := RunFrom(s, [Leave(a), TakeStopHandler(a)]);
              At(t, a).Idle? && t.st.STOPPED? && t.objects == s.objects
            case Some(e) =>
              var t := RunFrom(s, [Leave(a), TakeStopHandler(a), CallStopHandler(a), Delete(a)]);
              && At(t, a).Idle? && t.st.STOPPED? && t.objects.stopEvent.None?
              && t.objects.called == s.objects.called + [e] && t.objects.deleted == s.objects.deleted + {e}
  {
    Runs.Two(Step, s, Leave(a), TakeStopHandler(a));
    Runs.Four(Step, s, Leave(a), TakeStopHandler(a), CallStopHandler(a), Delete(a));
  }

  /** A SetStopHandler installs a new object, or none, and deletes the one that it replaces, uncalled. */
  lemma SetStopHandlerReplaces(s: State, a: Agent, some: bool)
    requires At(s, a).Idle?
    ensures var t := Step(s, SetStopHandler(a, some));
            && t.objects.stopEvent == (if some then Some(s.objects.created) else None)
            && t.objects.created == s.objects.created + (if some then 1 else 0)
            && t.objects.called == s.objects.called && t.objects.deleted == s.objects.deleted
            && match s.objects.stopEvent
               case None => At(t, a).Idle?
               case Some(e) =>
                 && At(t, a) == Deleting(e)
                 && var u := Step(t, Delete(a));
                    && At(u, a).Idle? && u.objects.called == s.objects.called
                    && u.objects.deleted == s.objects.deleted + {e}
  {
  }

  function ReplacedBy(s: State, act: Action): set<nat> {
    if act.SetStopHandler? && Enabled(s, act) && s.objects.stopEvent.Some? then {s.objects.stopEvent.value} else {}
  }

  /** The stop event objects that the SetStopHandlers of a schedule exchange out. */
  ghost function Replaced(schedule: seq<Action>): set<nat> {
    if schedule == [] then {}
    else
      var s, act := Run(schedule[..|schedule| - 1]), schedule[|schedule| - 1];
      Replaced(schedule[..|schedule| - 1]) + ReplacedBy(s, act)
  }

  /** The object is deleted, or about to be. */
  ghost predicate Spent(s: State, e: nat) { e in s.objects.deleted || exists a :: At(s, a) == Deleting(e) }

  /** Of the objects that are spent each was called or replaced, and of the others none was. */
  ghost predicate InvFates(s: State, replaced: set<nat>) {
    && (forall e: nat :: Spent(s, e) <==> e in s.objects.called || e in replaced)
    && (forall e: nat :: !(e in s.objects.called && e in replaced))
  }

  lemma SpentMoves(s: State, t: State, a: Agent, e: nat)
    requires Moved(s, t, a) && s.objects.deleted <= t.objects.deleted <= s.objects.deleted + {e}
    requires At(s, a) == Deleting(e) || At(t, a) == Deleting(e)
    requires At(s, a) == Deleting(e) <==> e in t.objects.deleted
    requires At(s, a).Deleting? ==> At(s, a).event == e
    requires At(t, a).Deleting? ==> At(t, a).event == e
    ensures forall d: nat :: Spent(t, d) <==> Spent(s, d) || d == e
  {
    forall d: nat | Spent(s, d) || d == e ensures Spent(t, d) {
      if b :| At(s, b) == Deleting(d) {
        assert b == a || At(t, b) == Deleting(d);
      }
    }
    forall d: nat | Spent(t, d) ensures Spent(s, d) || d == e {
      if b :| At(t, b) == Deleting(d) {
        assert b == a || At(s, b) == Deleting(d);
      }
    }
  }

  lemma SpentStays(s: State, t: State)
    requires t.objects.deleted == s.objects.deleted
    requires forall b, e :: At(t, b) == Deleting(e) <==> At(s, b) == Deleting(e)
    ensures forall d: nat :: Spent(t, d) <==> Spent(s, d)
  {
  }

  lemma HandlerStepKeepsFates(s: State, act: Action, replaced: set<nat>)
    requires InvEvents(s) && InvFates(s, replaced) && Enabled(s, act)
    requires act.CallStopHandler? || act.Delete? || ReplacedBy(s, act) != {}
    ensures InvFates(Step(s, act), replaced + ReplacedBy(s, act))
  {
    var e := if act.SetStopHandler? then s.objects.stopEvent.value else At(s, act.a).event;
    SpentMoves(s, Step(s, act), act.a, e);
    if act.CallStopHandler? {
      CallingIsNotSpent(s, act.a);
    } else if act.SetStopHandler? {
      InstalledIsNotSpent(s, e);
    }
  }

  lemma CallingIsNotSpent(s: State, a: Agent)
    requires InvEvents(s) && At(s, a).Calling?
    ensures !Spent(s, At(s, a).event)
  {
    forall b ensures At(s, b) != Deleting(At(s, a).event) {
      assert InHand(At(s, a)).Some?;
    }
  }

  lemma InstalledIsNotSpent(s: State, e: nat)
    requires InvEvents(s) && s.objects.stopEvent == Some(e)
    ensures !Spent(s, e)
  {
    forall b ensures At(s, b) != Deleting(e) {
      assert InHand(At(s, b)).Some? ==> s.objects.stopEvent != InHand(At(s, b));
    }
  }

  lemma StepKeepsFates(s: State, act: Action, replaced: set<nat>)
    requires InvEvents(s) && InvFates(s, replaced) && Enabled(s, act)
    ensures InvFates(Step(s, act), replaced + ReplacedBy(s, act))
  {
    if act.CallStopHandler? || act.Delete? || ReplacedBy(s, act) != {} {
      HandlerStepKeepsFates(s, act, replaced);
    } else {
      SpentStays(s, Step(s, act));
    }
  }

  lemma {:induction false} FatesInRuns(schedule: seq<Action>)
    ensures InvFates(Run(schedule), Replaced(schedule))
  {
    if schedule != [] {
      var front, act := schedule[..|schedule| - 1], schedule[|schedule| - 1];
      FatesInRuns(front);
      Reachable(front);
      if Enabled(Run(front), act) {
        StepKeepsFates(Run(front), act, Replaced(front));
      }
    }
  }

  /** Under every schedule a stop event object that was deleted had its handler called, unless it was replaced. */
  lemma CalledUnlessReplaced(schedule: seq<Action>, e: nat)
    requires e in Run(schedule).objects.deleted
    ensures e in Run(schedule).objects.called <==> e !in Replaced(schedule)
  {
    FatesInRuns(schedule);
    assert Spent(Run(schedule), e);
  }

  // ---------- The event loop object ----------

  /** The loop's fields as its threads change them; `pcs` and the fields after it are bookkeeping. */
  class EventLoop {
    var eventLoopState: LoopState
    var loopCount: int
    var epollWaitSize: int
    var unread: nat
    var attached: bool
    var stopEventObject: Option<nat>
    var created: nat
    ghost var pcs: map<Agent, Pc>
    ghost var book: RunBook
    ghost var called: seq<nat>
    ghost var deleted: set<nat>
    ghost var fault: bool

    ghost function View(): State
      reads this
    {
      State(eventLoopState, loopCount, epollWaitSize, unread, attached, pcs, book,
            Objects(stopEventObject, created, called, deleted, fault))
    }

    constructor ()
      ensures View() == Init()
    {
      eventLoopState, loopCount, epollWaitSize, unread, attached := STOPPED, -1, -1, 0, true;
      stopEventObject, created := None, 0;
      pcs, book, called, deleted, fault := map[], RunBook(0, -1, 0, false, false), [], {}, false;
    }

    /** StopLoop up to its write: the locked section, and whether the caller has to write. */
    method StopLoop(ghost a: Agent) returns (ret: int, pushEvent: bool)
      requires At(View(), a).Idle?
      modifies this
      ensures ret == old(StopResult(View())) && View() == old(Step(View(), StopLock(a)))
      ensures pushEvent <==> At(View(), a).Writing?
    {
      pushEvent := false;
      if AlreadyStopped(eventLoopState) {
        return -EALREADY, false;
      }
      pushEvent := eventLoopState == STARTED;
      eventLoopState := STOP_REQUESTED;
      book := book.(stopped := true);
      if pushEvent {
        pcs := pcs[a := Writing];
      }
      ret := 0;
    }

    /** StopLoop's write, `result` what it gave: 0 or a negative error number is returned. */
    method WriteWakeup(ghost a: Agent, result: int) returns (ret: int)
      requires At(View(), a).Writing? && result <= 0
      modifies this
      ensures View() == old(Step(View(), StopWrite(a, result == 0)))
      ensures ret == result
    {
      if result == 0 {
        unread := unread + 1;
      } else {
        book := book.(unwritten := true);
      }
      pcs := pcs[a := Idle];
      ret := result;
    }

    /** Run's locked section. */
    method RequestStart(ghost a: Agent, epollWaitSize: int, loop_count: int) returns (ret: int)
      requires At(View(), a).Idle?
      modifies this
      ensures ret == old(RunResult(View())) && View() == old(Step(View(), RunLock(a, loop_count, epollWaitSize)))
    {
      if eventLoopState != STOPPED {
        return -EINVAL;
      }
      eventLoopState := START_REQUESTED;
      book := RunBook(book.run + 1, loop_count, 0, false, false);
      pcs := pcs[a := Starting(loop_count, epollWaitSize)];
      ret := 0;
    }

    /** Run after its locked section, up to the start of ThreadMain on thread `b`, or on the caller's own. */
    method Start(ghost a: Agent, ghost thread: Option<Agent>, epollWaitSize: int, loop_count: int)
      requires Enabled(View(), Launch(a, thread)) && At(View(), a) == Starting(loop_count, epollWaitSize)
      modifies this
      ensures View() == old(Step(View(), Launch(a, thread)))
    {
      this.epollWaitSize := epollWaitSize;
      this.loopCount := loop_count;
      pcs := if thread.None? then pcs[a := Entering] else pcs[a := Idle][thread.value := Entering];
    }

    /** ThreadMain up to its loop; `prepared` says whether its buffer, mask and descriptors could be had. */
    method EnterLoop(ghost a: Agent, prepared: bool) returns (entered: bool)
      requires At(View(), a).Entering?
      modifies this
      ensures View() == old(Step(View(), Enter(a, prepared)))
      ensures entered <==> At(View(), a).Checking?
    {
      if epollWaitSize <= 0 || loopCount == 0 || !prepared {
        eventLoopState := STOPPED;
        pcs := pcs[a := Idle];
        return false;
      }
      if eventLoopState == START_REQUESTED {
        eventLoopState := STARTED;
      }
      pcs := pcs[a := Checking];
      entered := true;
    }

    /** The condition of ThreadMain's loop and the counting down at the top of its body. */
    method CheckLoop(ghost a: Agent) returns (more: bool)
      requires At(View(), a).Checking?
      modifies this
      ensures View() == old(Step(View(), Check(a)))
      ensures more <==> At(View(), a).Waiting?
    {
      more := eventLoopState == STARTED && loopCount != 0;
      if more {
        if loopCount > 0 {
          loopCount := loopCount - 1;
        }
        book := book.(waits := book.waits + 1);
        pcs := pcs[a := Waiting];
      } else {
        pcs := pcs[a := Leaving(false)];
      }
    }

    /** CtrlEventHandler: one message is read, whatever it says; an error, or a read that is not whole, cancels it. */
    method CtrlEventHandler(ghost a: Agent, error: bool, complete: bool) returns (cancel: bool)
      requires At(View(), a) == Dispatching(if error then Broken else Readable) && (!error ==> unread > 0)
      modifies this
      ensures View() == old(Step(View(), Dispatch(a, complete)))
      ensures attached == (old(attached) && !cancel)
    {
      cancel := error || !complete;
      if cancel {
        attached := false;
      } else {
        unread := unread - 1;
      }
      pcs := pcs[a := Checking];
    }

    method LeaveLoop(ghost a: Agent)
      requires At(View(), a).Leaving?
      modifies this
      ensures View() == old(Step(View(), Leave(a)))
    {
      eventLoopState := STOPPED;
      pcs := pcs[a := Finishing];
    }

    /** ThreadMain's exchange of the stop event object. */
    method ExchangeStopHandler(ghost a: Agent) returns (event: Option<nat>)
      requires At(View(), a).Finishing?
      modifies this
      ensures View() == old(Step(View(), TakeStopHandler(a)))
      ensures event == old(stopEventObject) && stopEventObject.None?
      ensures At(View(), a) == if event.Some? then Calling(event.value) else Idle
    {
      event := stopEventObject;
      stopEventObject := None;
      pcs := pcs[a := if event.Some? then Calling(event.value) else Idle];
    }

    /** SetStopHandler up to its delete; what is exchanged out is the caller's to delete. */
    method SetStopHandler(ghost a: Agent, some: bool) returns (replaced: Option<nat>)
      requires At(View(), a).Idle?
      modifies this
      ensures View() == old(Step(View(), Action.SetStopHandler(a, some)))
      ensures replaced == old(stopEventObject) == InHand(At(View(), a))
    {
      var event := None;
      if some {
        event := Some(created);
        created := created + 1;
      }
      replaced := stopEventObject;
      stopEventObject := event;
      if replaced.Some? {
        pcs := pcs[a := Deleting(replaced.value)];
      }
    }
  }
}
