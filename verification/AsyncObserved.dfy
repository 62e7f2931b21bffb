/**
 What the module and the client see of each other, call by call: the arguments that arrive, and the results
 that come back, in terms of the calls that the client made and of the module's own replies.
 */
module AsyncObserved {
  import opened Prelude
  import opened AsyncRuntime
  import opened AsyncInvariant
  import opened AsyncTheorems
  import opened AsyncDirect

  /** The number of module calls that are made for the client calls before the `k`-th: one each, two for an Invoke. */
  function Place(calls: seq<Call>, k: nat): nat
    requires k <= |calls|
  {
    k + |Invocations(calls, k)|
  }

  predicate AsksInfo(op: Op) { op.GetInputTensorInfo? || op.GetOutputTensorInfo? }

  // ---------- Where a call is in the history ----------

  lemma {:induction false} PlaceInReceived(mod: Module, calls: seq<Call>, k: nat)
    requires k <= |calls|
    ensures |Received(mod, calls, k)| == Place(calls, k)
  {
    if k > 0 {
      PlaceInReceived(mod, calls, k - 1);
    }
  }

  lemma {:induction false} PlaceInDirect(calls: seq<Call>, k: nat)
    requires k <= |calls|
    ensures |Direct(calls, k)| == Place(calls, k)
  {
    if k > 0 {
      PlaceInDirect(calls, k - 1);
    }
  }

  /** The calls that call `k` led to are at their place in the history, if it goes that far. */
  lemma HistoryAt(mod: Module, calls: seq<Call>, s: State, k: nat)
    requires Refines(mod, calls, s) && k < |calls| && Place(calls, k) < |s.history|
    ensures var i, c, h := Place(calls, k), calls[k], s.history;
            && h[i] == HandlerCall(mod, c.op, c.args, i)
            && h[..i + 1] == Received(mod, calls, k) + [h[i]]
            && (c.op.Invoke? && i + 1 < |h| ==>
                  h[i + 1] == HandlerCall(mod, GetOutput, c.args, i + 1) && h[..i + 2] == Received(mod, calls, k + 1))
  {
    var n := s.log.issued;
    PlaceInReceived(mod, calls, k);
    PlaceInReceived(mod, calls, n);
    if n <= k {
      ReceivedPrefix(mod, calls, n, k);
      assert false;
    }
    ReceivedPrefix(mod, calls, k + 1, n);
    var after := Received(mod, calls, k + 1);
    assert after == Received(mod, calls, k) + ModuleCalls(mod, calls[k], Place(calls, k));
    assert s.history <= Received(mod, calls, n) && after <= Received(mod, calls, n);
  }

  /** The module calls for the client calls that were handled are in the history. */
  lemma HandledAreReceived(mod: Module, calls: seq<Call>, s: State, k: nat)
    requires Shape(calls, s) && InvWorker(mod, calls, s) && k < Handled(s)
    ensures k < |calls| && Place(calls, k + 1) <= |s.history|
  {
    PlaceInReceived(mod, calls, k + 1);
    ReceivedPrefix(mod, calls, k + 1, Handled(s));
  }

  // ---------- What the module gets ----------

  /**
   Under every schedule, what the module gets for client call `k`: its operation and its arguments, but for those
   that are there to be written only; and in the parameters that it may write null and 0, what is on the
   worker's stack, or the tensor given, as the handler of the operation has it.  An Invoke is followed by a
   GetOutput into its tensor.
   */
  lemma EveryArgumentArrives(mod: Module, calls: seq<Call>, schedule: seq<Action>, k: nat)
    requires Program(calls) && k < |calls| && Place(calls, k) < |Run(mod, calls, schedule).history|
    ensures var h, i, c := Run(mod, calls, schedule).history, Place(calls, k), calls[k];
            && h[i].op == c.op
            && h[i].args == (if AsksInfo(c.op) then Nothing else c.args)
            && (c.op.GetInputTensorInfo? ==> h[i].incoming == Vars(0, 0))
            && (c.op.GetOutputTensorInfo? ==> h[i].incoming == mod.stack(i))
            && (c.op.AllocateTensor? ==> h[i].incoming.ptr == 0)
            && (c.op.FreeTensor? ==> c.args.Tensor? && h[i].incoming.ptr == c.args.tensor)
            && (c.op.Invoke? && i + 1 < |h| ==>
                  && c.args.Tensor? && h[i + 1].op.GetOutput?
                  && h[i + 1].incoming == Vars(c.args.tensor, c.args.size))
  {
    EveryCallGetsItsReply(mod, calls, schedule);
    HistoryAt(mod, calls, Run(mod, calls, schedule), k);
    HandlerCallIs(mod, calls[k], Place(calls, k));
  }

  lemma HandlerCallIs(mod: Module, c: Call, i: nat)
    requires WellTyped(c)
    ensures var call, next := HandlerCall(mod, c.op, c.args, i), HandlerCall(mod, GetOutput, c.args, i + 1);
            && call.op == c.op
            && call.args == (if AsksInfo(c.op) then Nothing else c.args)
            && (c.op.GetInputTensorInfo? ==> call.incoming == Vars(0, 0))
            && (c.op.GetOutputTensorInfo? ==> call.incoming == mod.stack(i))
            && (c.op.AllocateTensor? ==> call.incoming.ptr == 0)
            && (c.op.FreeTensor? ==> c.args.Tensor? && call.incoming.ptr == c.args.tensor)
            && (c.op.Invoke? ==>
                  c.args.Tensor? && next.op.GetOutput? && next.incoming == Vars(c.args.tensor, c.args.size))
  {
  }

  /** What it gets when the calls are made directly: the same arguments, and what the caller's own variables hold. */
  lemma DirectArguments(calls: seq<Call>, n: nat, k: nat)
    requires Program(calls) && k < n <= |calls|
    ensures var h, i, c := Direct(calls, n), Place(calls, k), calls[k];
            && i < |h| && h[i].op == c.op
            && h[i].args == (if AsksInfo(c.op) then Nothing else c.args)
            && (AsksInfo(c.op) ==> h[i].incoming == c.out)
            && (c.op.AllocateTensor? || c.op.FreeTensor? ==> h[i].incoming.ptr == c.out.ptr)
            && (c.op.Invoke? ==> i + 1 < |h| && h[i + 1].op.GetOutput? && h[i + 1].incoming == c.out)
  {
    DirectPrefix(calls, k + 1, n);
    PlaceInDirect(calls, k);
    assert WellTyped(calls[k]);
    var after := Direct(calls, k + 1);
    assert after == Direct(calls, k) + DirectCalls(calls[k]);
    assert forall j :: 0 <= j < |after| ==> after[j] == Direct(calls, n)[j];
  }

  lemma {:induction false} DirectPrefix(calls: seq<Call>, m: nat, n: nat)
    requires m <= n <= |calls|
    ensures Direct(calls, m) <= Direct(calls, n)
  {
    if m < n {
      DirectPrefix(calls, m, n - 1);
    }
  }

  // ---------- What the client gets ----------

  /** The reply of the module to the `i`-th of the calls that it got. */
  function ReplyAt(mod: Module, history: seq<ModuleCall>, i: nat): Reply
    requires i < |history|
  {
    mod.reply(history[..i + 1])
  }

  /** What a call of the kind gets of a reply, the handler's variables holding `before`. */
  ghost predicate GetsReply(c: Call, result: Seen, r: Reply, before: Vars) {
    && (AsksInfo(c.op) ==>
          result == Seen(r.value, if r.value == 0 then Vars(r.ptr.GetOr(before.ptr), r.size.GetOr(before.size))
                                  else c.out))
    && (c.op.AllocateTensor? ==>
          result == Seen(r.value, if r.value >= 0 then Vars(r.ptr.GetOr(0), c.out.size) else c.out))
    && (c.op.FreeTensor? ==> result == Seen(0, c.out))
    && (!AsksInfo(c.op) && !c.op.AllocateTensor? && !c.op.FreeTensor? ==> result == Seen(r.value, c.out))
  }

  /**
   Under every schedule, what a completed client call `k` gets: the value of the module's reply to it; a tensor info
   as the module wrote it, or the handler's variables where it did not, if that value is 0; an allocated
   tensor if it is not negative; and nothing else.  An Invoke gets 0.
   */
  lemma EveryResultIsItsReply(mod: Module, calls: seq<Call>, schedule: seq<Action>, k: nat)
    requires Program(calls) && k < |Run(mod, calls, schedule).log.results|
    ensures var s := Run(mod, calls, schedule);
            && k < |calls|
            && var i, c, result := Place(calls, k), calls[k], s.log.results[k];
            && (c.op.Invoke? ==> result == Seen(0, c.out))
            && (!c.op.Invoke? ==>
                  i < |s.history| && GetsReply(c, result, ReplyAt(mod, s.history, i), s.history[i].incoming))
  {
    EveryCallGetsItsReply(mod, calls, schedule);
    var s := Run(mod, calls, schedule);
    if !calls[k].op.Invoke? {
      Reachable(mod, calls, schedule);
      CompletedIsHandled(mod, calls, s, k);
      HandledAreReceived(mod, calls, s, k);
      ResultAt(mod, calls, s, k);
    }
  }

  lemma ResultAt(mod: Module, calls: seq<Call>, s: State, k: nat)
    requires Program(calls) && Refines(mod, calls, s)
    requires k < |s.log.results| && !calls[k].op.Invoke? && Place(calls, k) < |s.history|
    ensures var i := Place(calls, k);
            GetsReply(calls[k], s.log.results[k], ReplyAt(mod, s.history, i), s.history[i].incoming)
  {
    var i := Place(calls, k);
    HistoryAt(mod, calls, s, k);
    PlaceInReceived(mod, calls, k);
    assert s.history[i] == FirstCall(mod, calls, k);
    assert ReplyAt(mod, s.history, i) == ReplyTo(mod, calls, k);
    EmulatedGetsReply(mod, calls, k);
  }

  lemma CompletedIsHandled(mod: Module, calls: seq<Call>, s: State, k: nat)
    requires Shape(calls, s) && InvWorker(mod, calls, s) && InvClient(mod, calls, s) && InvResults(mod, calls, s)
    requires k < |s.log.results| && !calls[k].op.Invoke?
    ensures k < Handled(s)
  {
    assert !Pending(calls, s, k);
  }

  lemma EmulatedGetsReply(mod: Module, calls: seq<Call>, k: nat)
    requires Program(calls) && k < |calls| && !calls[k].op.Invoke?
    ensures GetsReply(calls[k], EmulatedSeen(mod, calls, k), ReplyTo(mod, calls, k), FirstCall(mod, calls, k).incoming)
  {
    assert WellTyped(calls[k]);
  }

  /** What a direct call `k` gets of the module's reply to it. */
  lemma DirectResultIsItsReply(mod: Module, calls: seq<Call>, k: nat)
    requires Program(calls) && k < |calls|
    ensures var h, i, c, result := Direct(calls, k + 1), Place(calls, k), calls[k], DirectSeen(mod, calls, k);
            && i < |h|
            && var r := ReplyAt(mod, h, i);
            && result.value == (if c.op.FreeTensor? then 0 else r.value)
            && result.vars.ptr ==
               (if AsksInfo(c.op) || c.op.AllocateTensor? || c.op.FreeTensor? then r.ptr.GetOr(c.out.ptr)
                else c.out.ptr)
            && result.vars.size == (if AsksInfo(c.op) then r.size.GetOr(c.out.size) else c.out.size)
  {
    PlaceInDirect(calls, k);
    var h := Direct(calls, k + 1);
    assert h == Direct(calls, k) + DirectCalls(calls[k]);
    assert h[..Place(calls, k) + 1] == Direct(calls, k) + [DirectCall(calls[k].op, calls[k])];
  }

  /** The client's next call is issued: its record is filled and sent; an Invoke is complete, another call waits. */
  lemma CallIsIssued(mod: Module, calls: seq<Call>, s: State, addr: Ptr)
    requires Enabled(calls, s, Send(addr))
    ensures var t, c := Step(mod, calls, s, Send(addr)), calls[s.log.issued];
            && t.log.issued == s.log.issued + 1
            && t.requests == s.requests + [Msg(Id(c.op), addr)]
            && t.heap == s.heap[addr := Rec(c.args, Value(0), s.log.issued)]
            && (c.op.Invoke? ==> t.client.Ready? && t.log.results == s.log.results + [Seen(0, c.out)])
            && (!c.op.Invoke? ==> t.client == Waiting(c.op, addr, c.out) && t.log.results == s.log.results)
            && t.worker == s.worker && t.replies == s.replies && t.outputs == s.outputs && t.events == s.events
  {
  }

  /** Its reply completes a call, in every reachable state in which there is one, and the record is gone. */
  lemma ReplyCompletesTheCall(mod: Module, calls: seq<Call>, s: State)
    requires Inv(mod, calls, s) && s.client.Waiting? && s.replies != []
    ensures var t := Step(mod, calls, s, RecvReply);
            && t.client.Ready? && t.replies == [] && |t.log.results| == |s.log.results| + 1 == s.log.issued
            && t.heap == s.heap - {s.client.addr}
            && t.requests == s.requests && t.worker == s.worker && t.outputs == s.outputs && t.events == s.events
  {
  }

  /** GetOutput hands the first output out, in every reachable state in which there is one, and frees its record. */
  lemma OutputIsHandedOut(mod: Module, calls: seq<Call>, s: State)
    requires Inv(mod, calls, s) && s.outputs != []
    ensures var t, d := Step(mod, calls, s, TakeOutput), |s.log.delivered|;
            && d < |Sent(s.log.outcomes)|
            && t.log.delivered == s.log.delivered + [Output(0, Sent(s.log.outcomes)[d].vars)]
            && t.outputs == s.outputs[1..] && t.heap == s.heap - {s.outputs[0].addr}
            && t.requests == s.requests && t.worker == s.worker && t.replies == s.replies && t.events == s.events
  {
    TakeFacts(calls, s);
  }

  // ---------- What comes back of an Invoke ----------

  /** How a handled Invoke came out, by the replies to it and to its GetOutput, which writes into its tensor. */
  ghost predicate CameOut(o: Outcome, c: Call, invoked: Reply, output: Reply) {
    && c.op.Invoke? && c.args.Tensor? && o.context == c.args.context
    && o.invokeRet == invoked.value && o.output == output
    && o.vars == Vars(output.ptr.GetOr(c.args.tensor), output.size.GetOr(c.args.size))
    && (o.Success() <==> invoked.value >= 0 && output.value >= 0 && o.sent)
  }

  /** Under every schedule a handled Invoke came out as the module replied to it, and to the GetOutput after it. */
  lemma EveryOutcomeIsItsReplies(mod: Module, calls: seq<Call>, schedule: seq<Action>, o: Outcome)
    requires Program(calls) && o in Run(mod, calls, schedule).log.outcomes
    ensures var h := Run(mod, calls, schedule).history;
            && o.call < |calls|
            && var i := Place(calls, o.call);
            && i + 1 < |h| && CameOut(o, calls[o.call], ReplyAt(mod, h, i), ReplyAt(mod, h, i + 1))
  {
    EveryCallGetsItsReply(mod, calls, schedule);
    Reachable(mod, calls, schedule);
    OutcomeIsReceived(mod, calls, Run(mod, calls, schedule), o);
    OutcomeAt(mod, calls, Run(mod, calls, schedule), o);
  }

  lemma OutcomeAt(mod: Module, calls: seq<Call>, s: State, o: Outcome)
    requires Refines(mod, calls, s) && Faithful(mod, calls, o) && Place(calls, o.call) + 1 < |s.history|
    ensures var i := Place(calls, o.call);
            CameOut(o, calls[o.call], ReplyAt(mod, s.history, i), ReplyAt(mod, s.history, i + 1))
  {
    RepliesAt(mod, calls, s, o.call);
    FaithfulCameOut(mod, calls, o);
  }

  lemma RepliesAt(mod: Module, calls: seq<Call>, s: State, k: nat)
    requires Refines(mod, calls, s) && k < |calls| && calls[k].op.Invoke? && Place(calls, k) + 1 < |s.history|
    ensures ReplyAt(mod, s.history, Place(calls, k)) == ReplyTo(mod, calls, k)
    ensures ReplyAt(mod, s.history, Place(calls, k) + 1) == OutputReply(mod, calls, k)
  {
    HistoryAt(mod, calls, s, k);
    PlaceInReceived(mod, calls, k);
  }

  lemma OutcomeIsReceived(mod: Module, calls: seq<Call>, s: State, o: Outcome)
    requires Shape(calls, s) && InvWorker(mod, calls, s) && InvOutcomes(calls, s)
    requires InvFaithful(mod, calls, s.log.outcomes) && o in s.log.outcomes
    ensures Faithful(mod, calls, o) && Place(calls, o.call) + 1 < |s.history|
  {
    var i :| 0 <= i < |s.log.outcomes| && s.log.outcomes[i] == o;
    assert Faithful(mod, calls, o);
    MatchOrdered(calls, Handled(s), s.log.outcomes);
    HandledAreReceived(mod, calls, s, o.call);
  }

  lemma FaithfulCameOut(mod: Module, calls: seq<Call>, o: Outcome)
    requires Faithful(mod, calls, o)
    ensures CameOut(o, calls[o.call], ReplyTo(mod, calls, o.call), OutputReply(mod, calls, o.call))
  {
  }

  /**
   Where no output and no event is lost each Invoke has its event once the worker has done all, and its output is queued
   exactly if the module gave one.
   */
  lemma EveryInvokeHasItsEvent(mod: Module, calls: seq<Call>, schedule: seq<Action>)
    requires Program(calls) && Queue(false) !in schedule && Publish(false) !in schedule
    requires var s := Run(mod, calls, schedule); s.worker.Idle? && s.requests == []
    ensures var s := Run(mod, calls, schedule);
            && s.log.issued <= |calls|
            && |s.events| == |s.log.outcomes| == |Invocations(calls, s.log.issued)|
            && |s.log.delivered| + |s.outputs| == |Sent(s.log.outcomes)|
            && forall o :: o in s.log.outcomes ==> (o.sent <==> o.output.value >= 0)
  {
    var s := Run(mod, calls, schedule);
    Reachable(mod, calls, schedule);
    EventsAndOutputs(mod, calls, schedule);
    ReachablePublished(mod, calls, schedule);
    PublishedOnes(s.log.outcomes, false);
    ReachableNoneDropped(mod, calls, schedule);
  }
}
