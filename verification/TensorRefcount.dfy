/**
 Tensor containers of the C interface, their reference counts, and the contexts of
 inferences under way, each of which holds a reference of its input.

 Pointers to containers and contexts are indices; a container that is freed stays where
 it is, with `frees` counting.
 */
module TensorRefcount {
  import opened Prelude
  import Runs
  import opened EventObject

  const INFERENCE_MASK: bv32 := 0x0100FF00
  const INFERENCE_ERROR: bv32 := 0x01001000

  type Handle = nat

  datatype Container = Container(refcnt: int, handle: Handle, frees: nat)

  datatype Progress = InFlight | Released | Leaked

  datatype Context = Context(input: nat, userContext: nat, handle: Handle, progress: Progress)

  datatype State = State(
    containers: seq<Container>,
    contexts: seq<Context>,
    valid: set<Handle>,   // the handles whose inference can be had
    held: seq<nat>        // bookkeeping: the references the user holds of each container
  )

  function Init(): State { State([], [], {}, []) }

  datatype Action =
    | Create(h: Handle)                    // beyond_inference_create, of a handle not used before
    | Destroy(h: Handle)
    | Allocate(h: Handle, ret: int)        // beyond_inference_allocate_tensor, with AllocateTensor's result
    | GetOutput(h: Handle, ret: int)       // beyond_inference_get_output, with GetOutput's result
    | Ref(c: nat)
    | Unref(c: nat)
    | Do(h: Handle, c: nat, userContext: nat, ret: int)  // beyond_inference_do, with Invoke's result
    | Event(k: nat, mask: bv32)            // the event of the `k`-th context is fetched

  /** The user names only containers it holds, and every event comes once. */
  predicate Enabled(s: State, a: Action) {
    match a
    case Ref(c) => c < |s.containers| && c < |s.held| && s.held[c] > 0
    case Unref(c) => c < |s.containers| && c < |s.held| && s.held[c] > 0
    case Do(_, c, _, _) => c < |s.containers| && c < |s.held| && s.held[c] > 0
    case Event(k, _) => k < |s.contexts| && s.contexts[k].progress.InFlight? && s.contexts[k].input < |s.containers|
    case Create(h) => (forall c :: c in s.containers ==> c.handle != h) && forall k :: k in s.contexts ==> k.handle != h
    case _ => true
  }

  function NewContainer(s: State, h: Handle, ret: int): State {
    if h !in s.valid || ret < 0 then s
    else s.(containers := s.containers + [Container(1, h, 0)], held := s.held + [1])
  }

  function Referred(s: State, c: nat): State
    requires c < |s.containers|
  {
    s.(containers := s.containers[c := s.containers[c].(refcnt := s.containers[c].refcnt + 1)])
  }

  function Unreferred(s: State, c: nat): State
    requires c < |s.containers|
  {
    var n := s.containers[c].refcnt - 1;
    var free := n == 0 && s.containers[c].handle in s.valid;
    s.(containers := s.containers[c := s.containers[c].(refcnt := n,
                                                        frees := s.containers[c].frees + if free then 1 else 0)])
  }

  function DoResult(s: State, h: Handle, c: nat, ret: int): int
    requires c < |s.containers|
  {
    if h !in s.valid || s.containers[c].handle != h then -EINVAL else ret
  }

  function DoStep(s: State, h: Handle, c: nat, userContext: nat, ret: int): State
    requires c < |s.containers|
  {
    if h !in s.valid || s.containers[c].handle != h then s
    else if ret < 0 then Unreferred(Referred(s, c), c)
    else Referred(s, c).(contexts := s.contexts + [Context(c, userContext, h, InFlight)])
  }

  /** The event is one of an inference, and has no error flag. */
  predicate Releases(mask: bv32) { !Common(mask, ERROR) && Common(mask, INFERENCE_MASK) }

  function EventStep(s: State, k: nat, mask: bv32): State
    requires k < |s.contexts| && s.contexts[k].input < |s.containers|
  {
    var context := s.contexts[k];
    if context.handle !in s.valid then s
    else if Releases(mask) then
      Unreferred(s.(contexts := s.contexts[k := context.(progress := Released)]), context.input)
    else s.(contexts := s.contexts[k := context.(progress := Leaked)])
  }

  function Step(s: State, a: Action): State {
    if !Enabled(s, a) then s else
    match a
    case Create(h) => s.(valid := s.valid + {h})
    case Destroy(h) => s.(valid := s.valid - {h})
    case Allocate(h, ret) => NewContainer(s, h, ret)
    case GetOutput(h, ret) => NewContainer(s, h, ret)
    case Ref(c) => Referred(s, c).(held := s.held[c := s.held[c] + 1])
    case Unref(c) => Unreferred(s, c).(held := s.held[c := s.held[c] - 1])
    case Do(h, c, userContext, ret) => DoStep(s, h, c, userContext, ret)
    case Event(k, mask) => EventStep(s, k, mask)
  }

  function RunFrom(s: State, schedule: seq<Action>): State { Runs.From(Step, s, schedule) }

  function Run(schedule: seq<Action>): State { RunFrom(Init(), schedule) }

  // ---------- Counting ----------

  /** How many contexts have not given their reference of `c` back. */
  function Pending(contexts: seq<Context>, c: nat): nat {
    if contexts == [] then 0
    else
      var last := contexts[|contexts| - 1];
      Pending(contexts[..|contexts| - 1], c) + if last.input == c && !last.progress.Released? then 1 else 0
  }

  lemma PendingSnoc(contexts: seq<Context>, context: Context, c: nat)
    ensures Pending(contexts + [context], c) ==
            Pending(contexts, c) + if context.input == c && !context.progress.Released? then 1 else 0
  {
    assert (contexts + [context])[..|contexts|] == contexts;
  }

  lemma {:induction false} PendingUpdate(contexts: seq<Context>, k: nat, progress: Progress, c: nat)
    requires k < |contexts| && !contexts[k].progress.Released?
    ensures Pending(contexts[k := contexts[k].(progress := progress)], c) ==
            Pending(contexts, c) - if contexts[k].input == c && progress.Released? then 1 else 0
  {
    var n := |contexts| - 1;
    var updated := contexts[k := contexts[k].(progress := progress)];
    if k < n {
      PendingUpdate(contexts[..n], k, progress, c);
      assert updated[..n] == contexts[..n][k := contexts[k].(progress := progress)];
    } else {
      assert updated[..n] == contexts[..n];
    }
  }

  lemma {:induction false} PendingHasContext(contexts: seq<Context>, k: nat)
    requires k < |contexts| && !contexts[k].progress.Released?
    ensures Pending(contexts, contexts[k].input) > 0
  {
    var n := |contexts| - 1;
    if k < n {
      PendingHasContext(contexts[..n], k);
    }
  }

  // ---------- Invariant ----------

  /** The count is the user's references and the contexts', and the container is freed when it drops to zero. */
  ghost predicate Counted(s: State, c: nat)
    requires c < |s.containers| && c < |s.held|
  {
    var container := s.containers[c];
    && container.refcnt == s.held[c] + Pending(s.contexts, c)
    && container.frees <= 1
    && (container.frees == 1 ==> container.refcnt == 0)
    && (container.refcnt == 0 && container.frees == 0 ==> container.handle !in s.valid)
  }

  ghost predicate Inv(s: State) {
    && |s.held| == |s.containers|
    && (forall c :: 0 <= c < |s.containers| ==> Counted(s, c))
    && (forall k :: 0 <= k < |s.contexts| ==> s.contexts[k].input < |s.containers|)
  }

  lemma HandleStepKeepsInv(s: State, a: Action)
    requires Inv(s) && Enabled(s, a) && (a.Create? || a.Destroy?)
    ensures Inv(Step(s, a))
  {
    var t := Step(s, a);
    forall c | 0 <= c < |t.containers| ensures Counted(t, c) {
      assert Counted(s, c);
      assert s.containers[c] in s.containers;
    }
  }

  lemma {:induction false} NonePending(contexts: seq<Context>, c: nat)
    requires forall k :: 0 <= k < |contexts| ==> contexts[k].input < c
    ensures Pending(contexts, c) == 0
  {
    if contexts != [] {
      NonePending(contexts[..|contexts| - 1], c);
    }
  }

  lemma NewContainerKeepsInv(s: State, h: Handle, ret: int)
    requires Inv(s)
    ensures Inv(NewContainer(s, h, ret))
  {
    var t := NewContainer(s, h, ret);
    forall c | 0 <= c < |t.containers| ensures Counted(t, c) {
      if c < |s.containers| {
        assert Counted(s, c);
      } else {
        NonePending(s.contexts, c);
      }
    }
  }

  lemma RefKeepsInv(s: State, c: nat)
    requires Inv(s) && Enabled(s, Ref(c))
    ensures Inv(Step(s, Ref(c)))
  {
    var t := Step(s, Ref(c));
    forall d | 0 <= d < |t.containers| ensures Counted(t, d) {
      assert Counted(s, d);
    }
  }

  lemma UnrefKeepsInv(s: State, c: nat)
    requires Inv(s) && Enabled(s, Unref(c))
    ensures Inv(Step(s, Unref(c)))
  {
    var t := Step(s, Unref(c));
    forall d | 0 <= d < |t.containers| ensures Counted(t, d) {
      assert Counted(s, d);
    }
  }

  lemma DoKeepsInv(s: State, h: Handle, c: nat, userContext: nat, ret: int)
    requires Inv(s) && Enabled(s, Do(h, c, userContext, ret))
    ensures Inv(DoStep(s, h, c, userContext, ret))
  {
    var t := DoStep(s, h, c, userContext, ret);
    forall d | 0 <= d < |t.containers| ensures Counted(t, d) {
      assert Counted(s, d);
      PendingSnoc(s.contexts, Context(c, userContext, h, InFlight), d);
    }
  }

  lemma EventKeepsInv(s: State, k: nat, mask: bv32)
    requires Inv(s) && Enabled(s, Event(k, mask))
    ensures Inv(EventStep(s, k, mask))
  {
    var t := EventStep(s, k, mask);
    PendingHasContext(s.contexts, k);
    forall d | 0 <= d < |t.containers| ensures Counted(t, d) {
      assert Counted(s, d);
      PendingUpdate(s.contexts, k, Released, d);
      PendingUpdate(s.contexts, k, Leaked, d);
    }
  }

  lemma StepKeepsInv(s: State, a: Action)
    requires Inv(s)
    ensures Inv(Step(s, a))
  {
    if Enabled(s, a) {
      match a
      case Create(_) => HandleStepKeepsInv(s, a);
      case Destroy(_) => HandleStepKeepsInv(s, a);
      case Allocate(h, ret) => NewContainerKeepsInv(s, h, ret);
      case GetOutput(h, ret) => NewContainerKeepsInv(s, h, ret);
      case Ref(c) => RefKeepsInv(s, c);
      case Unref(c) => UnrefKeepsInv(s, c);
      case Do(h, c, userContext, ret) => DoKeepsInv(s, h, c, userContext, ret);
      case Event(k, mask) => EventKeepsInv(s, k, mask);
    }
  }

  lemma {:induction false} RunFromKeepsInv(s: State, schedule: seq<Action>)
    requires Inv(s)
    ensures Inv(RunFrom(s, schedule))
  {
    if schedule != [] {
      RunFromKeepsInv(s, schedule[..|schedule| - 1]);
      StepKeepsInv(RunFrom(s, schedule[..|schedule| - 1]), schedule[|schedule| - 1]);
    }
  }

  // ---------- Conservation ----------

  /**
   In every run a container's count is the number of references the user holds and of contexts not
   released; it is freed at most once, and, while its handle is valid, exactly when that sum is zero.
   */
  lemma RefcountConservation(schedule: seq<Action>, c: nat)
    requires c < |Run(schedule).containers|
    ensures var s := Run(schedule);
            && c < |s.held|
            && s.containers[c].refcnt == s.held[c] + Pending(s.contexts, c)
            && s.containers[c].frees <= 1
            && (s.containers[c].frees == 1 ==> s.containers[c].refcnt == 0)
            && (s.containers[c].handle in s.valid ==> (s.containers[c].frees == 1 <==> s.containers[c].refcnt == 0))
  {
    RunFromKeepsInv(Init(), schedule);
    assert Counted(Run(schedule), c);
  }

  /** A container is never freed while a context points at it or the user holds it. */
  lemma NotFreedInUse(schedule: seq<Action>, k: nat)
    requires k < |Run(schedule).contexts| && !Run(schedule).contexts[k].progress.Released?
    ensures var s := Run(schedule); s.contexts[k].input < |s.containers| && s.containers[s.contexts[k].input].frees == 0
  {
    RunFromKeepsInv(Init(), schedule);
    var s := Run(schedule);
    PendingHasContext(s.contexts, k);
    assert Counted(s, s.contexts[k].input);
  }

  /**
   An event gives its context's reference back exactly if it is an inference's, has no error flag, and the handle
   is valid.
   */
  lemma WhenAnEventReleases(s: State, k: nat, mask: bv32)
    requires Enabled(s, Event(k, mask))
    ensures var t, c := Step(s, Event(k, mask)), s.contexts[k].input;
            && (t.contexts[k].progress.Released? <==> Releases(mask) && s.contexts[k].handle in s.valid)
            && t.containers[c].refcnt == s.containers[c].refcnt - if t.contexts[k].progress.Released? then 1 else 0
  {
  }

  /** A context whose event had an error flag, or was no inference's, keeps its input from ever being freed. */
  lemma {:induction false} LeakedForever(s: State, k: nat, schedule: seq<Action>)
    requires Inv(s) && k < |s.contexts| && s.contexts[k].progress.Leaked?
    ensures var t := RunFrom(s, schedule);
            && k < |t.contexts| && t.contexts[k] == s.contexts[k]
            && s.contexts[k].input < |t.containers| && t.containers[s.contexts[k].input].frees == 0
  {
    RunFromKeepsInv(s, schedule);
    if schedule != [] {
      LeakedForever(s, k, schedule[..|schedule| - 1]);
    }
    var t := RunFrom(s, schedule);
    PendingHasContext(t.contexts, k);
    assert Counted(t, t.contexts[k].input);
  }

  /** A Do whose Invoke fails leaves every count as it was, and frees nothing. */
  lemma FailedDoChangesNothing(s: State, h: Handle, c: nat, userContext: nat, ret: int)
    requires Inv(s) && Enabled(s, Do(h, c, userContext, ret)) && DoResult(s, h, c, ret) < 0
    ensures Step(s, Do(h, c, userContext, ret)) == s
  {
    assert Counted(s, c);
    var t := DoStep(s, h, c, userContext, ret);
    assert t.containers == s.containers;
  }

  // ---------- What the operations do ----------

  /** Only container `c` has changed: its count by `d`, and it was freed if that is 0 and its handle valid. */
  ghost predicate CountMoved(s: State, t: State, c: nat, d: int)
    requires c < |s.containers|
  {
    var was := s.containers[c];
    && |t.containers| == |s.containers|
    && (forall e :: 0 <= e < |s.containers| && e != c ==> t.containers[e] == s.containers[e])
    && t.containers[c].refcnt == was.refcnt + d && t.containers[c].handle == was.handle
    && t.containers[c].frees == was.frees + if was.refcnt + d == 0 && was.handle in s.valid then 1 else 0
  }

  /** A run is its steps, one after the other. */
  lemma RunsAreSteps(schedule: seq<Action>, a: Action)
    ensures Run([]) == Init() && Run(schedule + [a]) == Step(Run(schedule), a)
  {
    Runs.Snoc(Step, Init(), schedule, a);
  }

  /** The user's own references. */
  lemma RefAndUnref(s: State, c: nat)
    requires Inv(s) && Enabled(s, Ref(c))
    ensures var t := Step(s, Ref(c));
            && CountMoved(s, t, c, 1) && t.held == s.held[c := s.held[c] + 1]
            && t.contexts == s.contexts && t.valid == s.valid
    ensures var t := Step(s, Unref(c));
            && CountMoved(s, t, c, -1) && t.held == s.held[c := s.held[c] - 1]
            && t.contexts == s.contexts && t.valid == s.valid
  {
    assert Counted(s, c);
  }

  /** A tensor allocated or got with a valid handle is a new container with one reference, the user's. */
  lemma NewContainerIsHeld(s: State, h: Handle, ret: int, a: Action)
    requires a == Allocate(h, ret) || a == GetOutput(h, ret)
    ensures Step(s, a) ==
            if h in s.valid && ret >= 0 then
              State(s.containers + [Container(1, h, 0)], s.contexts, s.valid, s.held + [1])
            else s
  {
  }

  lemma HandlesComeAndGo(s: State, h: Handle)
    ensures Step(s, Destroy(h)) == State(s.containers, s.contexts, s.valid - {h}, s.held)
    ensures Enabled(s, Create(h)) ==> Step(s, Create(h)) == State(s.containers, s.contexts, s.valid + {h}, s.held)
  {
  }

  /**
   A Do is refused where the handle is not valid or the tensor is another's.  One whose Invoke succeeds takes a
   reference of its input and makes a context that is in flight.
   */
  lemma DoTakesReference(s: State, h: Handle, c: nat, userContext: nat, ret: int)
    requires Inv(s) && Enabled(s, Do(h, c, userContext, ret))
    ensures var t := Step(s, Do(h, c, userContext, ret));
            && DoResult(s, h, c, ret) == (if h in s.valid && s.containers[c].handle == h then ret else -EINVAL)
            && if h in s.valid && s.containers[c].handle == h && ret >= 0 then
                 && t.contexts == s.contexts + [Context(c, userContext, h, InFlight)]
                 && CountMoved(s, t, c, 1) && t.containers[c].frees == 0
                 && t.valid == s.valid && t.held == s.held
               else t == s
  {
    assert Counted(s, c);
    if DoResult(s, h, c, ret) < 0 {
      FailedDoChangesNothing(s, h, c, userContext, ret);
    }
  }

  /** Only its own event moves a context on. */
  lemma {:induction false} ContextKept(s: State, k: nat, schedule: seq<Action>)
    requires k < |s.contexts| && forall a :: a in schedule ==> !(a.Event? && a.k == k)
    ensures var t := RunFrom(s, schedule); k < |t.contexts| && t.contexts[k] == s.contexts[k]
  {
    if schedule != [] {
      assert schedule[|schedule| - 1] in schedule;
      ContextKept(s, k, schedule[..|schedule| - 1]);
    }
  }

  /**
   From a Do that succeeded until the event of that inference, whatever else is done - the user's own references given
   back, the handle destroyed, other inferences run - its input is not freed.
   */
  lemma InputOutlivesInference(s: State, h: Handle, c: nat, userContext: nat, ret: int, schedule: seq<Action>)
    requires Inv(s) && Enabled(s, Do(h, c, userContext, ret)) && DoResult(s, h, c, ret) >= 0
    requires forall a :: a in schedule ==> !(a.Event? && a.k == |s.contexts|)
    ensures var k, t := |s.contexts|, RunFrom(Step(s, Do(h, c, userContext, ret)), schedule);
            && k < |t.contexts| && t.contexts[k] == Context(c, userContext, h, InFlight)
            && c < |t.containers| && t.containers[c].frees == 0 && t.containers[c].refcnt > 0
  {
    var u, k := Step(s, Do(h, c, userContext, ret)), |s.contexts|;
    DoTakesReference(s, h, c, userContext, ret);
    StepKeepsInv(s, Do(h, c, userContext, ret));
    ContextKept(u, k, schedule);
    RunFromKeepsInv(u, schedule);
    var t := RunFrom(u, schedule);
    PendingHasContext(t.contexts, k);
    assert Counted(t, c);
  }

  /** An event that releases gives one reference back, and the input is freed with it if nobody else holds one. */
  lemma EventGivesBack(s: State, k: nat, mask: bv32)
    requires Inv(s) && Enabled(s, Event(k, mask)) && s.contexts[k].handle in s.valid
    ensures var t, context := Step(s, Event(k, mask)), s.contexts[k];
            && t.valid == s.valid && t.held == s.held
            && t.contexts == s.contexts[k := context.(progress := if Releases(mask) then Released else Leaked)]
            && if Releases(mask) then CountMoved(s, t, context.input, -1) else t.containers == s.containers
    ensures var t, c := Step(s, Event(k, mask)), s.contexts[k].input;
            Releases(mask) && s.held[c] == 0 && Pending(s.contexts, c) == 1 && s.containers[c].handle in s.valid ==>
              t.containers[c].frees == 1
  {
    assert Counted(s, s.contexts[k].input);
  }

  /** Without its handle an event changes nothing, and leaves its context in flight. */
  lemma EventWithoutHandle(s: State, k: nat, mask: bv32)
    requires Enabled(s, Event(k, mask)) && s.contexts[k].handle !in s.valid
    ensures Step(s, Event(k, mask)) == s
  {
  }

  /** The bits by which an event releases. */
  lemma ReleasingBits(mask: bv32)
    ensures Releases(mask) <==> mask & 0x40 == 0 && mask & 0x0100FF00 != 0
  {
  }

  // ---------- The C interface ----------

  /** A pointer that goes with an event: to a context, the user's own, or none. */
  datatype Pointer = Null | OfContext(k: nat) | OfUser(userContext: nat) | OfOthers(data: nat)

  /** What FetchEventData gives: an event, or an error or no event. */
  datatype Fetch = NoEvent | GotEvent(mask: bv32, data: Pointer)

  /** What the user's callback is told. */
  datatype Info = Info(mask: bv32, data: Pointer)

  /**
   An inference's event gives the user its own pointer back; any other is passed on with what it carries, an
   error with nothing.
   */
  function Told(s: State, fetched: Fetch): Info
    requires fetched.GotEvent? && fetched.data.OfContext? ==> fetched.data.k < |s.contexts|
  {
    match fetched
    case NoEvent => Info(INFERENCE_ERROR, Null)
    case GotEvent(mask, data) =>
      if Common(mask, ERROR) then Info(INFERENCE_ERROR, Null)
      else if Common(mask, INFERENCE_MASK) then
        Info(mask, if data.OfContext? then OfUser(s.contexts[data.k].userContext) else Null)
      else Info(mask, data)
  }

  /**
   The user gets the pointer it passed to the Do back with the event of that Do exactly if the event gives
   the reference back; an event that does not leaves the context behind and its pointer out, or gives the
   context's own away.
   */
  lemma OwnPointerExactlyWhenReleased(s: State, k: nat, mask: bv32)
    requires Enabled(s, Event(k, mask)) && s.contexts[k].handle in s.valid
    ensures var t := Step(s, Event(k, mask)); var info := Told(s, GotEvent(mask, OfContext(k)));
            && (info.data == OfUser(s.contexts[k].userContext) <==> t.contexts[k].progress.Released?)
            && (info.data == OfContext(k) <==> !Common(mask, ERROR) && !Common(mask, INFERENCE_MASK))
            && (t.contexts[k].progress.Released? || t.contexts[k].progress.Leaked?)
  {
  }

  /** An error is told as such whatever came with it; everything else with the type that was fetched. */
  lemma ToldType(s: State, fetched: Fetch)
    requires fetched.GotEvent? && fetched.data.OfContext? ==> fetched.data.k < |s.contexts|
    ensures var info := Told(s, fetched);
            && (fetched.NoEvent? || fetched.mask & 0x40 != 0 ==> info == Info(0x01001000, Null))
            && (fetched.GotEvent? && fetched.mask & 0x40 == 0 ==> info.mask == fetched.mask)
            && (fetched.GotEvent? && fetched.mask & 0x40 == 0 && fetched.mask & 0x0100FF00 == 0 ==>
                  info.data == fetched.data)
            && (fetched.GotEvent? && Releases(fetched.mask) && !fetched.data.OfContext? ==> info.data.Null?)
  {
  }

  class Capi {
    var containers: seq<Container>
    var contexts: seq<Context>
    var valid: set<Handle>
    ghost var held: seq<nat>

    ghost function View(): State
      reads this
    {
      State(containers, contexts, valid, held)
    }

    constructor ()
      ensures View() == Init()
    {
      containers, contexts, valid, held := [], [], {}, [];
    }

    method TensorContainerRef(c: nat)
      requires c < |containers|
      modifies this`containers
      ensures View() == old(Referred(View(), c))
    {
      containers := containers[c := containers[c].(refcnt := containers[c].refcnt + 1)];
    }

    /** Says whether the container is gone. */
    method TensorContainerUnref(c: nat) returns (gone: bool)
      requires c < |containers|
      modifies this`containers
      ensures View() == old(Unreferred(View(), c))
      ensures gone == (View().containers[c].frees > old(View().containers[c].frees))
    {
      var container := containers[c];
      container := container.(refcnt := container.refcnt - 1);
      gone := false;
      if container.refcnt == 0 {
        if container.handle in valid {
          container := container.(frees := container.frees + 1);
          gone := true;
        }
      }
      containers := containers[c := container];
    }

    /** beyond_inference_allocate_tensor and beyond_inference_get_output, with what the inference returns. */
    method MakeContainer(h: Handle, ret: int) returns (c: Option<nat>)
      modifies this
      ensures View() == old(Step(View(), Allocate(h, ret))) == old(Step(View(), GetOutput(h, ret)))
      ensures c == if h in old(valid) && ret >= 0 then Some(|old(containers)|) else None
    {
      if h !in valid {
        return None;
      }
      var container := Container(1, h, 0);
      if ret < 0 {
        return None;
      }
      c := Some(|containers|);
      containers := containers + [container];
      held := held + [1];
    }

    method RefTensor(c: nat)
      requires Enabled(View(), Ref(c))
      modifies this
      ensures View() == old(Step(View(), Ref(c)))
    {
      TensorContainerRef(c);
      held := held[c := held[c] + 1];
    }

    method UnrefTensor(c: nat) returns (gone: bool)
      requires Enabled(View(), Unref(c))
      modifies this
      ensures View() == old(Step(View(), Unref(c)))
    {
      gone := TensorContainerUnref(c);
      held := held[c := held[c] - 1];
    }

    /** beyond_inference_do; `invoked` is what Invoke returns. */
    method DoInference(h: Handle, c: nat, userContext: nat, invoked: int) returns (ret: int)
      requires Enabled(View(), Do(h, c, userContext, invoked))
      modifies this
      ensures View() == old(Step(View(), Do(h, c, userContext, invoked)))
      ensures ret == old(DoResult(View(), h, c, invoked))
    {
      if h !in valid {
        return -EINVAL;
      }
      if containers[c].handle != h {
        return -EINVAL;
      }
      TensorContainerRef(c);
      if invoked < 0 {
        var _ := TensorContainerUnref(c);
        return invoked;
      }
      contexts := contexts + [Context(c, userContext, h, InFlight)];
      ret := invoked;
    }

    /**
     The event handler of beyond_inference_create, for what it fetched from the inference of `h`; `info` is what
     the user's callback is told.
     */
    method EventHandler(h: Handle, fetched: Fetch) returns (cancel: bool, info: Info)
      requires fetched.GotEvent? && Releases(fetched.mask) ==> fetched.data.Null? || fetched.data.OfContext?
      requires fetched.GotEvent? && fetched.data.OfContext? ==>
                 Enabled(View(), Event(fetched.data.k, fetched.mask)) && contexts[fetched.data.k].handle == h
      modifies this
      ensures cancel <==> h !in old(valid)
      ensures !cancel ==> info == old(Told(View(), fetched))
      ensures View() == if fetched.GotEvent? && fetched.data.OfContext? then
                          old(Step(View(), Event(fetched.data.k, fetched.mask)))
                        else old(View())
    {
      cancel, info := false, Info(NONE, Null);
      if h !in valid {
        return true, info;
      }
      if fetched.NoEvent? || Common(fetched.mask, ERROR) {
        info := Info(INFERENCE_ERROR, Null);
        if fetched.GotEvent? && fetched.data.OfContext? {
          contexts := contexts[fetched.data.k := contexts[fetched.data.k].(progress := Leaked)];
        }
      } else if Common(fetched.mask, INFERENCE_MASK) {
        info := Info(fetched.mask, Null);
        if fetched.data.OfContext? {
          var context := contexts[fetched.data.k];
          var _ := TensorContainerUnref(context.input);
          info := Info(fetched.mask, OfUser(context.userContext));
          contexts := contexts[fetched.data.k := context.(progress := Released)];
        }
      } else {
        info := Info(fetched.mask, fetched.data);
        if fetched.data.OfContext? {
          contexts := contexts[fetched.data.k := contexts[fetched.data.k].(progress := Leaked)];
        }
      }
    }
  }
}
