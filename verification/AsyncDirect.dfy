/**
 The asynchronous emulation against calling the runtime module directly.

 A direct caller passes its own variables to the module.  The handlers pass theirs - null, or
 whatever is on their stack - and the client copies back what it thinks was written.  So the
 module gets the same calls but for what the parameters it writes hold before, and the caller
 gets the same results but for variables that the module did not write, or wrote on failure.
 */
module AsyncDirect {
  import opened Prelude
  import opened AsyncRuntime
  import opened AsyncInvariant
  import opened AsyncTheorems

  // ---------- Direct calls ----------

  /** What a direct caller's reference parameters hold. */
  function Passed(op: Op, out: Vars): Vars {
    match op
    case GetInputTensorInfo => out
    case GetOutputTensorInfo => out
    case GetOutput => out
    case AllocateTensor => Vars(out.ptr, 0)
    case FreeTensor => Vars(out.ptr, 0)
    case _ => NULL_VARS
  }

  function DirectCall(op: Op, c: Call): ModuleCall { ModuleCall(op, Inputs(op, c.args), Passed(op, c.out)) }

  /** A client call made directly; an Invoke is followed by the collection of its output. */
  function DirectCalls(c: Call): seq<ModuleCall> {
    [DirectCall(c.op, c)] + if c.op.Invoke? then [DirectCall(GetOutput, c)] else []
  }

  /** The first `n` client calls made directly, one after the other. */
  function Direct(calls: seq<Call>, n: nat): seq<ModuleCall>
    requires n <= |calls|
  {
    if n == 0 then [] else Direct(calls, n - 1) + DirectCalls(calls[n - 1])
  }

  /** The module's reply to client call `k` when the calls are made directly, and to the GetOutput after an Invoke. */
  function DirectReply(mod: Module, calls: seq<Call>, k: nat): Reply
    requires k < |calls|
  {
    mod.reply(Direct(calls, k) + [DirectCall(calls[k].op, calls[k])])
  }

  function DirectOutputReply(mod: Module, calls: seq<Call>, k: nat): Reply
    requires k < |calls|
  {
    mod.reply(Direct(calls, k + 1))
  }

  /** What a direct caller gets of a reply, its variables holding `before` before the call. */
  function DirectResult(op: Op, before: Vars, r: Reply): Seen {
    match op
    case GetInputTensorInfo => Seen(r.value, Written(before, r))
    case GetOutputTensorInfo => Seen(r.value, Written(before, r))
    case AllocateTensor => Seen(r.value, before.(ptr := Written(before, r).ptr))
    case FreeTensor => Seen(0, before.(ptr := Written(before, r).ptr))
    case Invoke => Seen(r.value, before)
    case _ => Seen(r.value, before)
  }

  function DirectSeen(mod: Module, calls: seq<Call>, k: nat): Seen
    requires k < |calls|
  {
    DirectResult(calls[k].op, calls[k].out, DirectReply(mod, calls, k))
  }

  /** What a direct caller gets for the output of Invoke `k`. */
  function DirectOutput(mod: Module, calls: seq<Call>, k: nat): Output
    requires k < |calls|
  {
    Output(DirectOutputReply(mod, calls, k).value, Written(calls[k].out, DirectOutputReply(mod, calls, k)))
  }

  // ---------- The calls are the same but for the incoming parameters ----------

  function Erase(c: ModuleCall): ModuleCall { c.(incoming := NULL_VARS) }

  function Erased(history: seq<ModuleCall>): (r: seq<ModuleCall>)
    ensures |r| == |history| && forall i :: 0 <= i < |r| ==> r[i] == Erase(history[i])
  {
    seq(|history|, i requires 0 <= i < |history| => Erase(history[i]))
  }

  /** The module does not read the parameters that it is to write. */
  ghost predicate IgnoresIncoming(mod: Module) {
    forall h: seq<ModuleCall>, h': seq<ModuleCall> :: Erased(h) == Erased(h') ==> mod.reply(h) == mod.reply(h')
  }

  lemma ErasedConcat(a: seq<ModuleCall>, b: seq<ModuleCall>)
    ensures Erased(a + b) == Erased(a) + Erased(b)
  {
  }

  /** The handlers make the calls that a direct caller makes, with other incoming parameters. */
  lemma {:induction false} ReceivedIsDirect(mod: Module, calls: seq<Call>, n: nat)
    requires n <= |calls|
    ensures Erased(Received(mod, calls, n)) == Erased(Direct(calls, n))
  {
    if n > 0 {
      var c, before := calls[n - 1], Received(mod, calls, n - 1);
      ReceivedIsDirect(mod, calls, n - 1);
      ErasedConcat(before, ModuleCalls(mod, c, |before|));
      ErasedConcat(Direct(calls, n - 1), DirectCalls(c));
      assert Erased(ModuleCalls(mod, c, |before|)) == Erased(DirectCalls(c));
    }
  }

  lemma SameReplies(mod: Module, calls: seq<Call>, k: nat)
    requires k < |calls| && IgnoresIncoming(mod)
    ensures ReplyTo(mod, calls, k) == DirectReply(mod, calls, k)
    ensures OutputReply(mod, calls, k) == DirectOutputReply(mod, calls, k)
  {
    var c := calls[k];
    ReceivedIsDirect(mod, calls, k);
    ReceivedIsDirect(mod, calls, k + 1);
    ErasedConcat(Received(mod, calls, k), [FirstCall(mod, calls, k)]);
    ErasedConcat(Direct(calls, k), [DirectCall(c.op, c)]);
    assert Erased([FirstCall(mod, calls, k)]) == Erased([DirectCall(c.op, c)]);
  }

  // ---------- When a caller's variables agree ----------

  predicate PtrUntouched(before: Vars, r: Reply) { r.ptr.Some? ==> r.ptr.value == before.ptr }

  predicate SizeUntouched(before: Vars, r: Reply) { r.size.Some? ==> r.size.value == before.size }

  /** The pointer was written, or the caller's was what the handler's was. */
  predicate PtrGiven(before: Vars, initial: Vars, r: Reply) { r.ptr.None? ==> before.ptr == initial.ptr }

  predicate SizeGiven(before: Vars, initial: Vars, r: Reply) { r.size.None? ==> before.size == initial.size }

  /**
   On success the module wrote all that it is to write, and on failure nothing; a variable that holds the
   same without the call is as good as that.  FreeTensor did not reset the pointer, and Invoke returned 0.
   */
  predicate Honoured(op: Op, before: Vars, initial: Vars, r: Reply) {
    match op
    case GetInputTensorInfo => HonouredInfo(before, initial, r)
    case GetOutputTensorInfo => HonouredInfo(before, initial, r)
    case AllocateTensor => if r.value < 0 then PtrUntouched(before, r) else PtrGiven(before, initial, r)
    case FreeTensor => PtrUntouched(before, r)
    case Invoke => r.value == 0
    case _ => true
  }

  predicate HonouredInfo(before: Vars, initial: Vars, r: Reply) {
    if r.value == 0 then PtrGiven(before, initial, r) && SizeGiven(before, initial, r)
    else PtrUntouched(before, r) && SizeUntouched(before, r)
  }

  lemma AgreeExactlyWhen(op: Op, rec: Rec, before: Vars, initial: Vars, r: Reply)
    requires op.FreeTensor? ==> rec.args.Tensor?
    requires !op.Invoke?
    ensures var emulated, direct := Extract(op, before, Fill(op, rec, initial, r)), DirectResult(op, before, r);
            emulated.value == direct.value && (emulated == direct <==> Honoured(op, before, initial, r))
  {
  }

  /**
   Every caller, whatever its variables hold, gets what a direct call gives exactly if all was written on success
   and nothing on failure.
   */
  lemma EveryCallerAgrees(op: Op, rec: Rec, initial: Vars, r: Reply)
    requires op.GetInputTensorInfo? || op.GetOutputTensorInfo? || op.AllocateTensor?
    ensures (forall before :: Extract(op, before, Fill(op, rec, initial, r)) == DirectResult(op, before, r)) <==>
            if op.AllocateTensor? then r.ptr.Some? == (r.value >= 0)
            else r.ptr.Some? == r.size.Some? == (r.value == 0)
  {
    forall before: Vars
      ensures Extract(op, before, Fill(op, rec, initial, r)) == DirectResult(op, before, r) <==>
              Honoured(op, before, initial, r)
    {
      AgreeExactlyWhen(op, rec, before, initial, r);
    }
    var other := Vars(initial.ptr + 1, initial.size + 1);
    var unlike := Vars(r.ptr.GetOr(0) + 1, r.size.GetOr(0) + 1);
    assert Honoured(op, other, initial, r) <==>
           Extract(op, other, Fill(op, rec, initial, r)) == DirectResult(op, other, r);
    assert Honoured(op, unlike, initial, r) <==>
           Extract(op, unlike, Fill(op, rec, initial, r)) == DirectResult(op, unlike, r);
  }

  // ---------- Refinement of direct calls ----------

  /** Call `k` is no Invoke, or the module's Invoke returned 0. */
  predicate KeepsValue(mod: Module, calls: seq<Call>, k: nat)
    requires k < |calls|
  {
    calls[k].op.Invoke? ==> DirectReply(mod, calls, k).value == 0
  }

  /**
   Completed call `k` returned what it would return directly, unless it is an Invoke, which returns 0 whatever
   the module's does; and it left its variables so exactly if they were honoured.
   */
  ghost predicate LikeDirect(mod: Module, calls: seq<Call>, results: seq<Seen>, k: nat)
    requires k < |results| <= |calls|
  {
    && (results[k].value == DirectSeen(mod, calls, k).value <==> KeepsValue(mod, calls, k))
    && (results[k] == DirectSeen(mod, calls, k) <==>
        Honoured(calls[k].op, calls[k].out, FirstCall(mod, calls, k).incoming, DirectReply(mod, calls, k)))
  }

  /**
   Under every schedule no assertion fails and no dead record is touched, no reply is left over between calls,
   and the module has received a prefix of the calls that direct callers make, in the order of the program and all of
   them once the worker is idle, but for what the parameters that it is to write hold.  If it does not read
   those, every completed call but an Invoke returned what a direct call returns, and its caller's variables are as
   after one exactly if the module wrote them on success and left them alone on failure.  An Invoke
   returned 0, which is what a direct one returns only if the module's did.
   */
  lemma EmulationRefinesDirectCalls(mod: Module, calls: seq<Call>, schedule: seq<Action>)
    requires Program(calls)
    ensures var s := Run(mod, calls, schedule);
            && !s.fault && (s.client.Ready? ==> s.replies == [])
            && |s.log.results| <= s.log.issued <= |calls|
            && (s.client.Ready? ==> |s.log.results| == s.log.issued)
            && Erased(s.history) <= Erased(Direct(calls, s.log.issued))
            && (s.worker.Idle? && s.requests == [] ==> Erased(s.history) == Erased(Direct(calls, s.log.issued)))
            && (IgnoresIncoming(mod) ==>
                  forall k :: 0 <= k < |s.log.results| ==> LikeDirect(mod, calls, s.log.results, k))
  {
    var s := Run(mod, calls, schedule);
    EveryCallGetsItsReply(mod, calls, schedule);
    ReceivedIsDirect(mod, calls, s.log.issued);
    assert Erased(s.history) <= Erased(Received(mod, calls, s.log.issued));
    if IgnoresIncoming(mod) {
      forall k | 0 <= k < |s.log.results| ensures LikeDirect(mod, calls, s.log.results, k) {
        SeenLikeDirect(mod, calls, k);
      }
    }
  }

  lemma SeenLikeDirect(mod: Module, calls: seq<Call>, k: nat)
    requires Program(calls) && k < |calls| && IgnoresIncoming(mod)
    ensures EmulatedSeen(mod, calls, k).value == DirectSeen(mod, calls, k).value <==> KeepsValue(mod, calls, k)
    ensures EmulatedSeen(mod, calls, k) == DirectSeen(mod, calls, k) <==>
            Honoured(calls[k].op, calls[k].out, FirstCall(mod, calls, k).incoming, DirectReply(mod, calls, k))
  {
    var c := calls[k];
    assert WellTyped(c);
    SameReplies(mod, calls, k);
    if !c.op.Invoke? {
      var incoming := FirstCall(mod, calls, k).incoming;
      AgreeExactlyWhen(c.op, Rec(c.args, Value(0), k), c.out, incoming, ReplyTo(mod, calls, k));
    }
  }

  /** It writes all that it is to write on success, nothing on failure, and never resets a freed tensor's pointer. */
  ghost predicate WritesOnSuccess(mod: Module) {
    forall h: seq<ModuleCall>, op: Op, args: Args, incoming: Vars ::
      WroteOnSuccess(op, mod.reply(h + [ModuleCall(op, args, incoming)]))
  }

  predicate WroteOnSuccess(op: Op, r: Reply) {
    match op
    case GetInputTensorInfo => r.ptr.Some? == r.size.Some? == (r.value == 0)
    case GetOutputTensorInfo => r.ptr.Some? == r.size.Some? == (r.value == 0)
    case AllocateTensor => r.ptr.Some? == (r.value >= 0)
    case FreeTensor => r.ptr.None?
    case _ => true
  }

  /**
   On such a module, under any schedule, no caller can tell the emulation from direct calls by any completed call,
   but by an Invoke for which the module's own did not return 0.
   */
  lemma CompletedCallsAreDirect(mod: Module, calls: seq<Call>, schedule: seq<Action>)
    requires Program(calls) && IgnoresIncoming(mod) && WritesOnSuccess(mod)
    ensures var results := Run(mod, calls, schedule).log.results;
            && |results| <= |calls|
            && forall k :: 0 <= k < |results| ==>
                 (results[k] == DirectSeen(mod, calls, k) <==> KeepsValue(mod, calls, k))
  {
    EmulationRefinesDirectCalls(mod, calls, schedule);
    var results := Run(mod, calls, schedule).log.results;
    forall k | 0 <= k < |results| ensures results[k] == DirectSeen(mod, calls, k) <==> KeepsValue(mod, calls, k) {
      assert LikeDirect(mod, calls, results, k);
      assert WroteOnSuccess(calls[k].op, DirectReply(mod, calls, k));
    }
  }

  /**
   Under every schedule the i-th output that GetOutput hands out is what collecting it directly gives exactly if the
   module returned 0 for it and wrote both the tensor and the size; what it did not write is the
   Invoke's own tensor and size, not the caller's, and what it returned is lost.
   */
  lemma DeliveredOutputs(mod: Module, calls: seq<Call>, schedule: seq<Action>, i: nat)
    requires Program(calls) && IgnoresIncoming(mod)
    requires i < |Run(mod, calls, schedule).log.delivered|
    ensures var s := Run(mod, calls, schedule);
            && i < |Sent(s.log.outcomes)|
            && var k := Sent(s.log.outcomes)[i].call;
            && k < |calls| && calls[k].args.Tensor?
            && var r, given := DirectOutputReply(mod, calls, k), Vars(calls[k].args.tensor, calls[k].args.size);
            && s.log.delivered[i] == Output(0, Written(given, r))
            && (s.log.delivered[i] == DirectOutput(mod, calls, k) <==>
                r.value == 0 && PtrGiven(calls[k].out, given, r) && SizeGiven(calls[k].out, given, r))
  {
    var s := Run(mod, calls, schedule);
    EventsAndOutputs(mod, calls, schedule);
    SentIsFilter(s.log.outcomes);
    var o := Sent(s.log.outcomes)[i];
    assert o in Sent(s.log.outcomes);
    assert Faithful(mod, calls, o);
    SameReplies(mod, calls, o.call);
  }

  // ---------- What comes back of an Invoke ----------

  /** The Invokes that were handled are the first of the program's, in order. */
  lemma {:induction false} InvocationsPrefix(calls: seq<Call>, m: nat, n: nat)
    requires m <= n <= |calls|
    ensures Invocations(calls, m) <= Invocations(calls, n)
  {
    if m < n {
      InvocationsPrefix(calls, m, n - 1);
    }
  }

  /** Invoke `k` is a success if its output was queued: the module's Invoke and its GetOutput both succeed directly. */
  predicate SucceedsDirectly(mod: Module, calls: seq<Call>, k: nat)
    requires k < |calls|
  {
    DirectReply(mod, calls, k).value >= 0 && DirectOutputReply(mod, calls, k).value >= 0
  }

  /**
   Under every schedule, all that comes back of the module's Invoke is a sign: the events are those of
   the handled Invokes, which are the first ones of the program, each published with the context of its Invoke as a
   success exactly if Invoke and GetOutput succeed directly and the output was queued.
   */
  lemma EventsTellInvokes(mod: Module, calls: seq<Call>, schedule: seq<Action>)
    requires Program(calls) && IgnoresIncoming(mod)
    ensures var s := Run(mod, calls, schedule); var os := s.log.outcomes;
            && s.log.issued <= |calls| && |os| <= |Invocations(calls, s.log.issued)|
            && s.events == Published(os)
            && forall i :: 0 <= i < |os| ==>
                 && os[i].call == Invocations(calls, s.log.issued)[i] < |calls|
                 && calls[os[i].call].args.Tensor? && os[i].context == calls[os[i].call].args.context
                 && (os[i].Success() <==> SucceedsDirectly(mod, calls, os[i].call) && os[i].sent)
  {
    Reachable(mod, calls, schedule);
    var s := Run(mod, calls, schedule);
    InvocationsPrefix(calls, Handled(s), s.log.issued);
    forall i | 0 <= i < |s.log.outcomes|
      ensures Faithful(mod, calls, s.log.outcomes[i])
      ensures s.log.outcomes[i].Success() <==>
              SucceedsDirectly(mod, calls, s.log.outcomes[i].call) && s.log.outcomes[i].sent
    {
      SameReplies(mod, calls, s.log.outcomes[i].call);
    }
  }

  lemma {:induction false} PublishedOnes(os: seq<Outcome>, due: bool)
    requires forall i :: 0 <= i < |os| - (if due then 1 else 0) ==> os[i].published
    ensures |os| - (if due then 1 else 0) <= |Published(os)| <= |os|
    ensures forall i :: 0 <= i < |Published(os)| ==> Published(os)[i] == Event(os[i].Success(), os[i].context)
  {
    if os != [] {
      PublishedOnes(os[..|os| - 1], false);
    }
  }

  /** No output was lost on its way to the output queue. */
  ghost predicate InvNoneDropped(s: State) {
    forall i :: 0 <= i < |s.log.outcomes| ==> (s.log.outcomes[i].sent <==> s.log.outcomes[i].output.value >= 0)
  }

  lemma StepKeepsNoneDropped(mod: Module, calls: seq<Call>, s: State, a: Action)
    requires Program(calls) && Core(mod, calls, s) && InvNoneDropped(s) && a != Queue(false)
    ensures InvNoneDropped(Step(mod, calls, s, a))
  {
    if Enabled(calls, s, a) {
      match a
      case Handle => HandleFacts(mod, calls, s);
      case Collect => CollectFacts(mod, calls, s);
      case Queue(queued) => QueueFacts(mod, calls, s, queued);
      case _ =>
    }
  }

  lemma {:induction false} ReachableNoneDropped(mod: Module, calls: seq<Call>, schedule: seq<Action>)
    requires Program(calls) && Queue(false) !in schedule
    ensures InvNoneDropped(Run(mod, calls, schedule))
  {
    if schedule != [] {
      var front := schedule[..|schedule| - 1];
      Reachable(mod, calls, front);
      ReachableNoneDropped(mod, calls, front);
      StepKeepsNoneDropped(mod, calls, Run(mod, calls, front), schedule[|schedule| - 1]);
    }
  }

  /**
   Where no output and no event is lost, the i-th event is that of the i-th Invoke, and a success exactly if
   the module's Invoke and its GetOutput succeed when called directly.
   */
  lemma EventIsDirect(mod: Module, calls: seq<Call>, schedule: seq<Action>, i: nat)
    requires Program(calls) && IgnoresIncoming(mod)
    requires Queue(false) !in schedule && Publish(false) !in schedule
    requires i < |Run(mod, calls, schedule).events|
    ensures var s := Run(mod, calls, schedule);
            && s.log.issued <= |calls| && i < |Invocations(calls, s.log.issued)|
            && var k := Invocations(calls, s.log.issued)[i];
            && k < |calls| && calls[k].args.Tensor?
            && s.events[i] == Event(SucceedsDirectly(mod, calls, k), calls[k].args.context)
  {
    var s := Run(mod, calls, schedule);
    Reachable(mod, calls, schedule);
    EventsTellInvokes(mod, calls, schedule);
    ReachablePublished(mod, calls, schedule);
    PublishedOnes(s.log.outcomes, s.worker.Publishing?);
    ReachableNoneDropped(mod, calls, schedule);
    var o := s.log.outcomes[i];
    assert Faithful(mod, calls, o);
    SameReplies(mod, calls, o.call);
  }

  // ---------- Where the emulation shows ----------

  /**
   A module that resets the pointer it is given to free: the direct caller's is null then, the emulated caller's
   dangles.
   */
  lemma FreeTensorLeavesPointer(tensor: Ptr, size: int)
    requires tensor != 0
    ensures var r := Reply(0, Some(0), None);
            var rec := Rec(Tensor(tensor, size, 0), Value(0), 0);
            && DirectResult(FreeTensor, Vars(tensor, size), r).vars.ptr == 0
            && Extract(FreeTensor, Vars(tensor, size), Fill(FreeTensor, rec, Vars(tensor, 0), r)).vars.ptr == tensor
  {
  }

  /** A module that reads a parameter it is to write, here the size, and returns it. */
  function ReadingModule(): Module {
    Module((h: seq<ModuleCall>) => Reply(if h == [] then 0 else h[|h| - 1].incoming.size, None, None),
           (n: nat) => NULL_VARS)
  }

  /** It sees the handlers' variable, not the caller's. */
  lemma ReadingModuleDiffers(size: int)
    requires size != 0
    ensures var calls := [Call(GetInputTensorInfo, TensorInfo(0, size), Vars(0, size))];
            && Program(calls)
            && EmulatedSeen(ReadingModule(), calls, 0).value == 0
            && DirectSeen(ReadingModule(), calls, 0).value == size
  {
  }

  /** A module whose Invoke returns `value`, and which refuses everything else. */
  function InvokingModule(value: int): Module {
    Module((h: seq<ModuleCall>) => Reply(if h != [] && h[|h| - 1].op.Invoke? then value else -1, None, None),
           (n: nat) => NULL_VARS)
  }

  /** It reads nothing that it is to write, and writes nothing where it fails. */
  lemma InvokingModuleIsHonest(value: int)
    ensures IgnoresIncoming(InvokingModule(value)) && WritesOnSuccess(InvokingModule(value))
  {
    var mod := InvokingModule(value);
    forall h: seq<ModuleCall>, h': seq<ModuleCall> | Erased(h) == Erased(h') ensures mod.reply(h) == mod.reply(h') {
      if h != [] {
        assert Erased(h)[|h| - 1].op == h[|h| - 1].op && Erased(h')[|h| - 1].op == h'[|h| - 1].op;
      }
    }
  }

  /** And yet its Invoke does not return to the emulated caller what it returns to a direct one, unless that is 0. */
  lemma InvokeValueIsLost(value: int, addr: Ptr, tensor: Ptr, size: int, context: Ptr)
    ensures var calls := [Call(Invoke, Tensor(tensor, size, context), NULL_VARS)];
            && Program(calls)
            && Run(InvokingModule(value), calls, [Send(addr)]).log.results == [Seen(0, NULL_VARS)]
            && DirectSeen(InvokingModule(value), calls, 0) == Seen(value, NULL_VARS)
  {
    var mod, calls := InvokingModule(value), [Call(Invoke, Tensor(tensor, size, context), NULL_VARS)];
    assert Run(mod, calls, []) == Init();
    assert [Send(addr)][..0] == [];
    assert DirectCall(Invoke, calls[0]).op.Invoke?;
  }
}
