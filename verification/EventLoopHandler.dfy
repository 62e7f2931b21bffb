/**
 One event handler of the loop, dispatched by the loop thread and removed by any
 number of threads, the loop thread among them.

 `in_use` and `state` are atomics, so a load, a store and an exchange are one step
 each.  A deleted handler stays behind with `in_use` set: its memory is not handed
 out again.  `Run` over an arbitrary schedule covers every interleaving.
 */
module EventLoopHandler {
  import opened Prelude
  import Runs

  type Agent = nat

  /** The loop's own thread. */
  const LOOP: Agent := 0

  datatype HandlerState = INIT | DELETE | DELETED

  /** Where a thread is inside RemoveEventHandler. */
  datatype RemovePc =
    | Idle
    | Loaded     // the state was INIT, or the caller does not ask: before the exchange of in_use
    | Marking    // in_use was taken: before storing DELETE
    | Owning     // in_use was free: before epoll_ctl
    | Detached   // before storing DELETED
    | Deleting   // before delete

  /** Where the loop thread is in WaitEpoll, as far as this handler goes. */
  datatype LoopPc =
    | Away
    | Calling                // in the event handler
    | Returned(cancel: bool) // the event handler has returned
    | Doomed                 // before storing DELETE
    | Unlocking              // before storing false to in_use, to remove the handler next
    | Removing               // in the private RemoveEventHandler, or back from it
    | Releasing              // before storing false to in_use, the handler stays

  datatype State = State(
    state: HandlerState,
    inUse: bool,
    loop: LoopPc,
    removers: map<Agent, RemovePc>,
    // bookkeeping
    owner: Option<Agent>,  // the thread whose removal found in_use free
    attached: bool,        // known to epoll
    calls: nat,            // calls of the event handler begun
    cancels: nat,          // calls of the cancel handler
    deletions: nat,
    accepted: nat,         // calls of RemoveEventHandler that returned 0
    refused: nat,          // and -EALREADY
    selfRemoved: bool      // one of the accepted was made by the event handler itself
  )

  function Init(): State {
    State(INIT, false, Away, map[], None, true, 0, 0, 0, 0, 0, false)
  }

  function At(s: State, a: Agent): RemovePc { if a in s.removers then s.removers[a] else Idle }

  function Move(s: State, a: Agent, pc: RemovePc): State { s.(removers := s.removers[a := pc]) }

  datatype Action =
    | Fire                  // an event of this handler is next
    | Return(cancel: bool)  // the event handler returns CANCEL or RENEW
    | Judge
    | Doom
    | Unlock
    | Release
    | CallCancel
    | Load(a: Agent)
    | Exchange(a: Agent)
    | Mark(a: Agent)
    | Detach(a: Agent)
    | SetDeleted(a: Agent)
    | Delete(a: Agent)

  function FireStep(s: State): State {
    if s.inUse then s else s.(inUse := true, loop := Calling, calls := s.calls + 1)
  }

  function JudgeStep(s: State): State
    requires s.loop.Returned?
  {
    s.(loop := if s.loop.cancel || s.state.DELETE? then Doomed else Releasing)
  }

  function LoadStep(s: State, a: Agent): State {
    if !s.state.INIT? then s.(refused := s.refused + 1) else Move(s, a, Loaded)
  }

  /** What RemoveEventHandler returns when its load ends the call. */
  function LoadResult(s: State): int { if !s.state.INIT? then -EALREADY else 0 }

  function ExchangeStep(s: State, a: Agent): State {
    if s.inUse then Move(s, a, Marking) else Move(s.(inUse := true, owner := Some(a)), a, Owning)
  }

  /** The private RemoveEventHandler's return to the loop is no caller's return. */
  predicate Internal(s: State, a: Agent) { a == LOOP && s.loop.Removing? }

  function MarkStep(s: State, a: Agent): State {
    Move(s.(state := DELETE,
            accepted := if Internal(s, a) then s.accepted else s.accepted + 1,
            selfRemoved := s.selfRemoved || (a == LOOP && s.loop.Calling?)), a, Idle)
  }

  function DeleteStep(s: State, a: Agent): State {
    Move(s.(owner := None, deletions := s.deletions + 1,
            accepted := if Internal(s, a) then s.accepted else s.accepted + 1), a, Idle)
  }

  predicate Enabled(s: State, act: Action) {
    match act
    case Fire => s.loop.Away? && At(s, LOOP).Idle?
    case Return(_) => s.loop.Calling? && At(s, LOOP).Idle?
    case Judge => s.loop.Returned?
    case Doom => s.loop.Doomed?
    case Unlock => s.loop.Unlocking?
    case Release => s.loop.Releasing?
    case CallCancel => s.loop.Removing? && At(s, LOOP).Idle?
    case Load(a) => At(s, a).Idle? && (a == LOOP ==> s.loop.Away? || s.loop.Calling?)
    case Exchange(a) => At(s, a).Loaded?
    case Mark(a) => At(s, a).Marking?
    case Detach(a) => At(s, a).Owning?
    case SetDeleted(a) => At(s, a).Detached?
    case Delete(a) => At(s, a).Deleting?
  }

  function Step(s: State, act: Action): State {
    if !Enabled(s, act) then s else
    match act
    case Fire => FireStep(s)
    case Return(cancel) => s.(loop := Returned(cancel))
    case Judge => JudgeStep(s)
    case Doom => s.(state := DELETE, loop := Unlocking)
    case Unlock => Move(s.(inUse := false, loop := Removing), LOOP, Loaded)
    case Release => s.(inUse := false, loop := Away)
    case CallCancel => s.(cancels := s.cancels + 1, loop := Away)
    case Load(a) => LoadStep(s, a)
    case Exchange(a) => ExchangeStep(s, a)
    case Mark(a) => MarkStep(s, a)
    case Detach(a) => Move(s.(attached := false), a, Detached)
    case SetDeleted(a) => Move(s.(state := DELETED), a, Deleting)
    case Delete(a) => DeleteStep(s, a)
  }

  function RunFrom(s: State, schedule: seq<Action>): State { Runs.From(Step, s, schedule) }

  function Run(schedule: seq<Action>): State { RunFrom(Init(), schedule) }

  // ---------- Invariant ----------

  predicate Owner(pc: RemovePc) { pc.Owning? || pc.Detached? || pc.Deleting? }

  predicate LoopHolds(s: State) {
    s.loop.Calling? || s.loop.Returned? || s.loop.Doomed? || s.loop.Unlocking? || s.loop.Releasing?
  }

  /** Deleted, or in the hands of the thread that is going to delete it. */
  predicate Gone(s: State) { s.owner.Some? || s.deletions == 1 }

  /** `in_use` has one holder: the loop, an owner, or the tombstone. */
  ghost predicate InvLock(s: State) {
    && (forall a: Agent :: Owner(At(s, a)) <==> s.owner == Some(a))
    && s.deletions <= 1
    && s.inUse == (LoopHolds(s) || Gone(s))
    && !(LoopHolds(s) && Gone(s))
    && !(s.owner.Some? && s.deletions == 1)
  }

  ghost predicate InvLoop(s: State) {
    && (!(s.loop.Away? || s.loop.Calling? || s.loop.Removing?) ==> At(s, LOOP).Idle?)
    && (s.loop.Removing? && !At(s, LOOP).Loaded? ==> Gone(s))
    && (s.loop.Unlocking? || s.loop.Removing? ==> !s.state.INIT?)
    && s.cancels <= 1
    && (s.cancels == 1 ==> s.loop.Away? && Gone(s))
  }

  ghost predicate InvState(s: State) {
    && (s.state.DELETED? ==> Gone(s))
    && (s.owner.Some? && At(s, s.owner.value).Deleting? ==> !s.state.INIT?)
    && (s.deletions == 1 || s.accepted > 0 || s.selfRemoved ==> !s.state.INIT?)
    && (s.selfRemoved ==> !s.loop.Releasing?)
    && (s.selfRemoved && s.loop.Away? ==> s.cancels == 1)
  }

  ghost predicate Inv(s: State) {
    InvLock(s) && InvLoop(s) && InvState(s)
  }

  lemma StepKeepsLock(s: State, act: Action)
    requires Inv(s)
    ensures InvLock(Step(s, act))
  {
  }

  lemma StepKeepsLoop(s: State, act: Action)
    requires Inv(s)
    ensures InvLoop(Step(s, act))
  {
  }

  lemma StepKeepsInv(s: State, act: Action)
    requires Inv(s)
    ensures Inv(Step(s, act))
  {
    StepKeepsLock(s, act);
    StepKeepsLoop(s, act);
  }

  lemma {:induction false} RunFromKeepsInv(s: State, schedule: seq<Action>)
    requires Inv(s)
    ensures Inv(RunFrom(s, schedule))
  {
    if schedule != [] {
      var t, act := RunFrom(s, schedule[..|schedule| - 1]), schedule[|schedule| - 1];
      RunFromKeepsInv(s, schedule[..|schedule| - 1]);
      StepKeepsInv(t, act);
    }
  }

  lemma Reachable(schedule: seq<Action>)
    ensures Inv(Run(schedule))
  {
    RunFromKeepsInv(Init(), schedule);
  }

  // ---------- Deletion and the callback ----------

  /**
   Under every schedule the handler is deleted at most once; one thread at most is on its way to
   delete it, and while it is, no callback runs.
   */
  lemma DeletedAtMostOnce(schedule: seq<Action>, a: Agent, b: Agent)
    ensures var s := Run(schedule);
            && s.deletions <= 1
            && (Owner(At(s, a)) ==> s.deletions == 0 && s.inUse && !LoopHolds(s))
            && (Owner(At(s, a)) && Owner(At(s, b)) ==> a == b)
  {
    Reachable(schedule);
  }

  /** Under every schedule the callback runs, and its result is acted on, with `in_use` held by the loop alone. */
  lemma CallbackHoldsInUse(schedule: seq<Action>, a: Agent)
    requires LoopHolds(Run(schedule))
    ensures var s := Run(schedule); s.inUse && !Owner(At(s, a)) && s.deletions == 0 && s.cancels == 0
  {
    Reachable(schedule);
  }

  // ---------- Callbacks after a removal ----------

  /**
   Whether one more callback can start once the state is not INIT: the loop has decided to keep the handler, and
   is not itself about to exchange `in_use` for a removal.
   */
  predicate OneMoreCall(s: State) {
    s.loop.Releasing? || (s.loop.Away? && !s.inUse && !At(s, LOOP).Loaded?)
  }

  function CallsLeft(s: State): nat { if OneMoreCall(s) then 1 else 0 }

  lemma CallsLeftStep(s: State, act: Action)
    requires Inv(s) && !s.state.INIT?
    ensures var t := Step(s, act);
            !t.state.INIT? && t.calls + CallsLeft(t) <= s.calls + CallsLeft(s)
  {
  }

  lemma {:induction false} CallsLeftBounds(s: State, schedule: seq<Action>)
    requires Inv(s) && !s.state.INIT?
    ensures var t := RunFrom(s, schedule);
            !t.state.INIT? && t.calls + CallsLeft(t) <= s.calls + CallsLeft(s)
  {
    if schedule != [] {
      var t := RunFrom(s, schedule[..|schedule| - 1]);
      CallsLeftBounds(s, schedule[..|schedule| - 1]);
      RunFromKeepsInv(s, schedule[..|schedule| - 1]);
      CallsLeftStep(t, schedule[|schedule| - 1]);
    }
  }

  /**
   The steps that start it: the loop lets the handler go, or finishes a mark of its own if it is at one, and the
   next event comes.
   */
  lemma NextCall(s: State) returns (schedule: seq<Action>)
    requires Inv(s) && OneMoreCall(s)
    ensures RunFrom(s, schedule).calls == s.calls + 1
  {
    var first := if s.loop.Releasing? then Release else Mark(LOOP);
    schedule := [first, Fire];
    Runs.Two(Step, s, first, Fire);
    assert Owner(At(s, LOOP)) ==> s.owner == Some(LOOP);
  }

  /** Once the state is not INIT some schedule starts a callback exactly if that holds. */
  lemma AnotherCallExactlyWhen(s: State)
    requires Inv(s) && !s.state.INIT?
    ensures (exists schedule :: RunFrom(s, schedule).calls > s.calls) <==> OneMoreCall(s)
  {
    if OneMoreCall(s) {
      var schedule := NextCall(s);
      assert RunFrom(s, schedule).calls > s.calls;
    } else {
      forall schedule ensures RunFrom(s, schedule).calls <= s.calls {
        CallsLeftBounds(s, schedule);
      }
    }
  }

  /**
   After a RemoveEventHandler returned 0 at most one more callback starts, and some schedule starts it exactly if
   the loop had decided to keep the handler.  Later calls of RemoveEventHandler return -EALREADY.
   */
  lemma CallsAfterRemove(before: seq<Action>, after: seq<Action>)
    requires Run(before).accepted > 0
    ensures var s, t := Run(before), Run(before + after);
            && s.calls <= t.calls <= s.calls + CallsLeft(s)
            && LoadResult(t) == -EALREADY
    ensures (exists schedule :: RunFrom(Run(before), schedule).calls > Run(before).calls) <==> OneMoreCall(Run(before))
  {
    Reachable(before);
    Runs.Append(Step, Init(), before, after);
    CallsLeftBounds(Run(before), after);
    CallsGrow(Run(before), after);
    AnotherCallExactlyWhen(Run(before));
  }

  lemma {:induction false} CallsGrow(s: State, schedule: seq<Action>)
    ensures s.calls <= RunFrom(s, schedule).calls
  {
    if schedule != [] {
      CallsGrow(s, schedule[..|schedule| - 1]);
      CallsGrowStep(RunFrom(s, schedule[..|schedule| - 1]), schedule[|schedule| - 1]);
    }
  }

  lemma CallsGrowStep(s: State, act: Action)
    ensures s.calls <= Step(s, act).calls
  {
  }

  /** A removal that returned 0 need not have deleted the handler, and one more callback does start then. */
  lemma AcceptedButNotDeleted() returns (before: seq<Action>, after: seq<Action>)
    ensures var s := Run(before);
            s.accepted == 1 && s.loop.Away? && !s.inUse && s.deletions == 0 && s.attached
    ensures forall a: Agent :: At(Run(before), a).Idle?
    ensures Run(before + after).calls == Run(before).calls + 1
  {
    var a: Agent := 1;
    var early, late := [Fire, Return(false), Load(a), Exchange(a)], [Judge, Mark(a)] + [Release];
    before, after := early + late, [Fire];
    TakenDuringCallback(a);
    MarkedAfterJudgement(RunFrom(Init(), early), a);
    Runs.Append(Step, Init(), early, late);
    Runs.Append(Step, Init(), before, after);
    Runs.Cons(Step, Run(before), Fire, []);
    assert [Fire] + [] == [Fire];
  }

  lemma TakenDuringCallback(a: Agent)
    requires a != LOOP
    ensures RunFrom(Init(), [Fire, Return(false), Load(a), Exchange(a)]) ==
            Init().(inUse := true, loop := Returned(false), calls := 1, removers := map[a := Loaded][a := Marking])
  {
    Runs.Four(Step, Init(), Fire, Return(false), Load(a), Exchange(a));
    var u := Step(Step(Init(), Fire), Return(false));
    assert u == Init().(inUse := true, loop := Returned(false), calls := 1);
    assert Step(u, Load(a)) == Move(u, a, Loaded);
  }

  lemma MarkedAfterJudgement(s: State, a: Agent)
    requires a != LOOP && s.loop == Returned(false) && s.state.INIT? && At(s, a).Marking?
    ensures RunFrom(s, [Judge, Mark(a)] + [Release]) ==
            Move(s.(state := DELETE, accepted := s.accepted + 1, loop := Away, inUse := false), a, Idle)
  {
    Runs.Snoc(Step, s, [Judge, Mark(a)], Release);
    Runs.Two(Step, s, Judge, Mark(a));
    var t := s.(loop := Releasing);
    assert Step(s, Judge) == t;
    assert Step(t, Mark(a)) == Move(t.(state := DELETE, accepted := s.accepted + 1), a, Idle);
  }

  /** No thread is in the middle of anything. */
  ghost predicate AtRest(s: State) {
    s.loop.Away? && forall a: Agent :: At(s, a).Idle?
  }

  /** At rest the handler is deleted exactly when `in_use` is set. */
  lemma DeletedWhenInUse(s: State)
    requires Inv(s) && AtRest(s)
    ensures s.deletions == 1 <==> s.inUse
  {
    var a := match s.owner case Some(owner) => owner case None => LOOP;
    assert !Owner(At(s, a));
  }

  /** No other removal is between its test of the state and its exchange. */
  ghost predicate NoneLoaded(s: State) { forall a: Agent :: !At(s, a).Loaded? }

  /** The handler stays as long as no event comes: nobody is going to delete it. */
  ghost predicate Stays(s: State) {
    !s.state.INIT? && OneMoreCall(s) && NoneLoaded(s)
  }

  lemma StaysStep(s: State, act: Action)
    requires Inv(s) && Stays(s) && !act.Fire?
    ensures Stays(Step(s, act))
  {
    var t := Step(s, act);
    forall a: Agent ensures !At(t, a).Loaded? {
      assert !At(s, a).Loaded?;
    }
  }

  lemma {:induction false} StaysWithoutEvent(s: State, schedule: seq<Action>)
    requires Inv(s) && Stays(s) && Fire !in schedule
    ensures Stays(RunFrom(s, schedule))
  {
    if schedule != [] {
      StaysWithoutEvent(s, schedule[..|schedule| - 1]);
      RunFromKeepsInv(s, schedule[..|schedule| - 1]);
      StaysStep(RunFrom(s, schedule[..|schedule| - 1]), schedule[|schedule| - 1]);
    }
  }

  /** The loop has made up its mind about the handler's last event: it keeps it. */
  predicate Judged(s: State) {
    s.loop.Releasing? || (s.loop.Away? && !s.inUse)
  }

  /**
   What has become, once all threads are at rest, of a handler whose remover found `in_use` taken and stored DELETE.
   If the loop had not judged it at that moment, or it was gone, it is deleted, whatever the schedule; if the
   loop had, and no other removal was on its way, it is left behind, whatever the schedule, until a further event.
   */
  lemma LeftBehindExactlyWhen(s: State, a: Agent, after: seq<Action>)
    requires Inv(s) && At(s, a).Marking?
    requires AtRest(RunFrom(Step(s, Mark(a)), after))
    ensures var u := RunFrom(Step(s, Mark(a)), after);
            && (!Judged(s) ==> u.deletions == 1)
            && (NoneLoaded(s) && Fire !in after ==> (u.deletions == 0 <==> Judged(s)))
  {
    var t, u := Step(s, Mark(a)), RunFrom(Step(s, Mark(a)), after);
    StepKeepsInv(s, Mark(a));
    RunFromKeepsInv(t, after);
    DeletedWhenInUse(u);
    if !Judged(s) {
      CallsLeftBounds(t, after);
      CallsGrow(t, after);
    } else if NoneLoaded(s) && Fire !in after {
      assert Stays(t) by {
        assert forall b: Agent :: b != a ==> At(t, b) == At(s, b);
      }
      StaysWithoutEvent(t, after);
    }
  }

  // ---------- Removal by the handler itself, and by the loop ----------

  /** What the loop does with a handler once its callback has returned, if no other thread gets in between. */
  function Removal(cancel: bool): seq<Action> {
    [Return(cancel), Judge, Doom, Unlock] +
    [Exchange(LOOP), Detach(LOOP), SetDeleted(LOOP), Delete(LOOP)] +
    [CallCancel]
  }

  /** A removal that finds in_use free deletes the handler. */
  lemma RemovalDeletes(s: State, a: Agent)
    requires At(s, a).Loaded? && !s.inUse
    ensures var t := RunFrom(s, [Exchange(a), Detach(a), SetDeleted(a), Delete(a)]);
            && t.deletions == s.deletions + 1 && !t.attached && At(t, a).Idle?
            && t.loop == s.loop && t.calls == s.calls && t.cancels == s.cancels
            && t.accepted == (if Internal(s, a) then s.accepted else s.accepted + 1)
  {
    Runs.Four(Step, s, Exchange(a), Detach(a), SetDeleted(a), Delete(a));
    var s1 := Move(s.(inUse := true, owner := Some(a)), a, Owning);
    var s2 := Move(s1.(attached := false), a, Detached);
    var s3 := Move(s2.(state := DELETED), a, Deleting);
    assert Step(s, Exchange(a)) == s1;
    assert Step(s1, Detach(a)) == s2;
    assert Step(s2, SetDeleted(a)) == s3;
  }

  /**
   A handler that was removed while its callback ran, or whose callback asked to be cancelled, is
   deleted and its cancel handler called, once each, by the loop's next steps.
   */
  lemma CallbackEndsInRemoval(s: State, cancel: bool)
    requires Inv(s) && s.loop.Calling? && At(s, LOOP).Idle? && (cancel || !s.state.INIT?)
    ensures var t := RunFrom(s, Removal(cancel));
            t.deletions == 1 && t.cancels == 1 && t.loop.Away? && !t.attached && t.calls == s.calls
  {
    var first := [Return(cancel), Judge, Doom, Unlock];
    var second := [Exchange(LOOP), Detach(LOOP), SetDeleted(LOOP), Delete(LOOP)];
    var s1 := Move(s.(state := DELETE, inUse := false, loop := Removing), LOOP, Loaded);
    Runs.Four(Step, s, Return(cancel), Judge, Doom, Unlock);
    assert RunFrom(s, first) == s1 by {
      assert Step(s, Return(cancel)) == s.(loop := Returned(cancel));
      assert Step(s.(loop := Returned(cancel)), Judge) == s.(loop := Doomed);
      assert Step(s.(loop := Doomed), Doom) == s.(state := DELETE, loop := Unlocking);
    }
    RemovalDeletes(s1, LOOP);
    var s2 := RunFrom(s1, second);
    assert s2.deletions == 1 && s2.cancels == 0 && s2.loop.Removing? && At(s2, LOOP).Idle?;
    assert !s2.attached && s2.calls == s.calls;
    Runs.Append(Step, s, first, second);
    Runs.Append(Step, s, first + second, [CallCancel]);
    Runs.Cons(Step, s2, CallCancel, []);
    assert [CallCancel] + [] == [CallCancel];
  }

  /**
   Under every schedule, once the loop is done with a handler that removed itself in its callback,
   its cancel handler has been called exactly once, and it has been deleted exactly once unless
   another thread is on its way to do so; nothing of it is ever called again.
   */
  lemma SelfRemoval(schedule: seq<Action>, after: seq<Action>)
    requires Run(schedule).selfRemoved && Run(schedule).loop.Away?
    ensures var s, t := Run(schedule), Run(schedule + after);
            && s.cancels == 1 && Gone(s)
            && ((forall a: Agent :: !Owner(At(s, a))) ==> s.deletions == 1)
            && t.cancels == 1 && t.calls == s.calls && s.deletions <= t.deletions <= 1
  {
    Reachable(schedule);
    Runs.Append(Step, Init(), schedule, after);
    GoneIsFinal(Run(schedule), after);
    var s := Run(schedule);
    if s.owner.Some? {
      assert Owner(At(s, s.owner.value));
    }
  }

  /** Once a handler is in the hands of the thread that deletes it, neither of its two callbacks starts again. */
  lemma {:induction false} GoneIsFinal(s: State, schedule: seq<Action>)
    requires Inv(s) && Gone(s) && s.loop.Away?
    ensures var t := RunFrom(s, schedule);
            Gone(t) && t.loop.Away? && t.calls == s.calls && t.cancels == s.cancels && s.deletions <= t.deletions <= 1
  {
    if schedule != [] {
      GoneIsFinal(s, schedule[..|schedule| - 1]);
      RunFromKeepsInv(s, schedule[..|schedule| - 1]);
      GoneIsFinalStep(RunFrom(s, schedule[..|schedule| - 1]), schedule[|schedule| - 1]);
    }
  }

  lemma GoneIsFinalStep(s: State, act: Action)
    requires Inv(s) && Gone(s) && s.loop.Away?
    ensures var t := Step(s, act);
            Gone(t) && t.loop.Away? && t.calls == s.calls && t.cancels == s.cancels && s.deletions <= t.deletions <= 1
  {
  }

  /**
   A thread that removes a handler no callback of which is running deletes it, and its cancel handler is not
   called.
   */
  lemma RemovalOfAnIdleHandler(s: State, a: Agent)
    requires Inv(s) && s.state.INIT? && s.loop.Away? && !s.inUse && At(s, a).Idle?
    ensures var t := RunFrom(s, [Load(a)] + [Exchange(a), Detach(a), SetDeleted(a), Delete(a)]);
            t.deletions == 1 && t.cancels == 0 && t.accepted == s.accepted + 1 && !t.attached
  {
    Runs.Cons(Step, s, Load(a), [Exchange(a), Detach(a), SetDeleted(a), Delete(a)]);
    RemovalDeletes(Move(s, a, Loaded), a);
  }

  // ---------- What the steps do ----------

  /** Thread `a` is at `pc` now, the others and the loop are where they were. */
  ghost predicate MovesTo(s: State, t: State, a: Agent, pc: RemovePc) {
    At(t, a) == pc && (forall b :: b != a ==> At(t, b) == At(s, b)) && t.loop == s.loop
  }

  ghost predicate CountsKept(s: State, t: State) {
    && t.calls == s.calls && t.cancels == s.cancels && t.deletions == s.deletions
    && t.accepted == s.accepted && t.refused == s.refused && t.selfRemoved == s.selfRemoved
  }

  /** A removal is refused once another was let through, and the exchange tells whether it has the handler to itself. */
  lemma RemovalBegins(s: State, a: Agent)
    ensures Enabled(s, Load(a)) ==>
              if s.state.INIT? then
                && LoadResult(s) == 0
                && var t := Step(s, Load(a));
                   MovesTo(s, t, a, Loaded) && t == s.(removers := t.removers)
              else LoadResult(s) == -EALREADY && Step(s, Load(a)) == s.(refused := s.refused + 1)
    ensures At(s, a).Loaded? ==>
              var t := Step(s, Exchange(a));
              && t.inUse && t.state == s.state && CountsKept(s, t) && t.attached == s.attached
              && MovesTo(s, t, a, if s.inUse then Marking else Owning)
              && t.owner == (if s.inUse then s.owner else Some(a))
  {
  }

  /**
   A removal that found the handler in use leaves it marked; one that did not takes it out of epoll, stores its
   state and deletes it.  Either returns 0, but for the one that the loop makes itself after a callback.
   */
  lemma RemovalEnds(s: State, a: Agent)
    ensures var callers := if a == LOOP && s.loop.Removing? then 0 else 1;
            && (At(s, a).Marking? ==>
                  var t := Step(s, Mark(a));
                  && MovesTo(s, t, a, Idle) && t.state.DELETE? && t.inUse == s.inUse && t.attached == s.attached
                  && t.deletions == s.deletions && t.accepted == s.accepted + callers
                  && (t.selfRemoved <==> s.selfRemoved || (a == LOOP && s.loop.Calling?)))
            && (At(s, a).Deleting? ==>
                  var t := Step(s, Delete(a));
                  && MovesTo(s, t, a, Idle) && t.state == s.state && t.inUse == s.inUse && t.owner.None?
                  && t.deletions == s.deletions + 1 && t.accepted == s.accepted + callers)
    ensures At(s, a).Owning? ==>
              var t := Step(s, Detach(a));
              MovesTo(s, t, a, Detached) && !t.attached && t.state == s.state && t.inUse == s.inUse && CountsKept(s, t)
    ensures At(s, a).Detached? ==>
              var t := Step(s, SetDeleted(a));
              && MovesTo(s, t, a, Deleting) && t.state.DELETED? && t.inUse == s.inUse && t.attached == s.attached
              && CountsKept(s, t)
  {
  }

  /** An event calls the handler unless it is in use; its answer and its state decide whether it is removed then. */
  lemma CallbackIsJudged(s: State)
    ensures Enabled(s, Fire) ==>
              if s.inUse then Step(s, Fire) == s
              else Step(s, Fire) == s.(inUse := true, loop := Calling, calls := s.calls + 1)
    ensures forall cancel :: Enabled(s, Return(cancel)) ==> Step(s, Return(cancel)) == s.(loop := Returned(cancel))
    ensures s.loop.Returned? ==>
              Step(s, Judge) == s.(loop := if s.loop.cancel || s.state.DELETE? then Doomed else Releasing)
    ensures s.loop.Releasing? ==> Step(s, Release) == s.(inUse := false, loop := Away)
    ensures s.loop.Doomed? ==> Step(s, Doom) == s.(state := DELETE, loop := Unlocking)
  {
  }

  /** The loop removes a doomed handler as any other thread does, and calls its cancel handler in the end. */
  lemma DoomedIsRemoved(s: State)
    ensures s.loop.Unlocking? ==>
              var t := Step(s, Unlock);
              !t.inUse && t.loop.Removing? && At(t, LOOP).Loaded? && t.state == s.state && CountsKept(s, t)
    ensures Enabled(s, CallCancel) ==> Step(s, CallCancel) == s.(loop := Away, cancels := s.cancels + 1)
  {
  }

  // ---------- The handler object ----------

  /** The object's atomics as the loop and the removers change them; the rest is bookkeeping. */
  class HandlerObject {
    var state: HandlerState
    var in_use: bool
    var attached: bool
    ghost var loop: LoopPc
    ghost var removers: map<Agent, RemovePc>
    ghost var owner: Option<Agent>
    ghost var calls: nat
    ghost var cancels: nat
    ghost var deletions: nat
    ghost var accepted: nat
    ghost var refused: nat
    ghost var selfRemoved: bool

    ghost function View(): State
      reads this
    {
      State(state, in_use, loop, removers, owner, attached, calls, cancels, deletions, accepted, refused, selfRemoved)
    }

    constructor ()
      ensures View() == Init()
    {
      state, in_use, attached := INIT, false, true;
      loop, removers, owner, calls, cancels, deletions := Away, map[], None, 0, 0, 0;
      accepted, refused, selfRemoved := 0, 0, false;
    }

    /** WaitEpoll's exchange; the event is skipped when it says so. */
    method TryUse() returns (skip: bool)
      requires Enabled(View(), Fire)
      modifies this
      ensures View() == old(Step(View(), Fire))
      ensures skip == !View().loop.Calling?
    {
      skip := in_use;
      in_use := true;
      if !skip {
        loop, calls := Calling, calls + 1;
      }
    }

    /** WaitEpoll's decision after the callback returned `opt`. */
    method IsDoomed(cancel: bool) returns (doomed: bool)
      requires loop == Returned(cancel)
      modifies this`loop
      ensures View() == old(Step(View(), Judge))
      ensures doomed == View().loop.Doomed?
    {
      doomed := cancel || state == DELETE;
      loop := if doomed then Doomed else Releasing;
    }

    method StoreDelete()
      requires loop.Doomed?
      modifies this
      ensures View() == old(Step(View(), Doom))
    {
      state, loop := DELETE, Unlocking;
    }

    method ReleaseToRemove()
      requires loop.Unlocking?
      modifies this
      ensures View() == old(Step(View(), Unlock))
    {
      in_use, loop := false, Removing;
      removers := removers[LOOP := Loaded];
    }

    method ReleaseAndKeep()
      requires loop.Releasing?
      modifies this
      ensures View() == old(Step(View(), Release))
    {
      in_use, loop := false, Away;
    }

    /** The public RemoveEventHandler's test of the state. */
    method LoadState(ghost a: Agent) returns (ret: int)
      requires Enabled(View(), Load(a))
      modifies this
      ensures ret == old(LoadResult(View())) && View() == old(Step(View(), Load(a)))
    {
      if state != INIT {
        refused := refused + 1;
        return -EALREADY;
      }
      removers := removers[a := Loaded];
      ret := 0;
    }

    /** The private RemoveEventHandler's exchange. */
    method ExchangeInUse(ghost a: Agent) returns (taken: bool)
      requires Enabled(View(), Exchange(a))
      modifies this
      ensures View() == old(Step(View(), Exchange(a)))
      ensures taken == At(View(), a).Marking?
    {
      taken := in_use;
      in_use := true;
      if taken {
        removers := removers[a := Marking];
      } else {
        owner, removers := Some(a), removers[a := Owning];
      }
    }

    method MarkForDeletion(ghost a: Agent)
      requires Enabled(View(), Mark(a))
      modifies this
      ensures View() == old(Step(View(), Mark(a)))
    {
      accepted := if Internal(View(), a) then accepted else accepted + 1;
      selfRemoved := selfRemoved || (a == LOOP && loop.Calling?);
      state, removers := DELETE, removers[a := Idle];
    }

    method DetachFromEpoll(ghost a: Agent)
      requires Enabled(View(), Detach(a))
      modifies this
      ensures View() == old(Step(View(), Detach(a)))
    {
      attached, removers := false, removers[a := Detached];
    }

    method StoreDeleted(ghost a: Agent)
      requires Enabled(View(), SetDeleted(a))
      modifies this
      ensures View() == old(Step(View(), SetDeleted(a)))
    {
      state, removers := DELETED, removers[a := Deleting];
    }
  }
}
