/**
 The invariant of the asynchronous emulation, kept by every step of either thread.

 It is stated in parts so that each step has to say only what it does to the parts
 it touches.  The number of a client call, stored in the record it created, tells
 where the record has to be: queued, with the worker, or on its way back.
 */
module AsyncInvariant {
  import opened AsyncRuntime

  // ---------- Outputs and events as functions of the outcomes ----------

  function Sent(os: seq<Outcome>): seq<Outcome> {
    if os == [] then [] else
    var o := os[|os| - 1];
    Sent(os[..|os| - 1]) + if o.sent then [o] else []
  }

  function Published(os: seq<Outcome>): seq<Event> {
    if os == [] then [] else
    var o := os[|os| - 1];
    Published(os[..|os| - 1]) + if o.published then [Event(o.Success(), o.context)] else []
  }

  function OutputOf(o: Outcome): Output { Output(0, o.vars) }

  /** The numbers of the Invoke calls among the first `n` calls, in order. */
  function Invocations(calls: seq<Call>, n: nat): seq<nat>
    requires n <= |calls|
  {
    if n == 0 then [] else Invocations(calls, n - 1) + if calls[n - 1].op.Invoke? then [n - 1] else []
  }

  // ---------- Invariant ----------

  /** The number of calls the worker has received. */
  function Taken(s: State): int { s.log.issued - |s.requests| }

  /** The number of calls whose module calls are all made. */
  function Handled(s: State): int {
    if s.worker.Got? || s.worker.Invoked? || s.worker.Collected? then Taken(s) - 1 else Taken(s)
  }

  ghost predicate Shape(calls: seq<Call>, s: State) {
    && |s.requests| <= s.log.issued <= |calls|
    && (s.worker.Idle? || 1 <= Taken(s))
  }

  ghost predicate Holds(calls: seq<Call>, s: State, addr: Ptr, k: int) {
    0 <= k < |calls| && addr in s.heap && s.heap[addr] == Rec(calls[k].args, Value(0), k)
  }

  /** The record of synchronous call `k` once its handler has run. */
  function AnswerTo(mod: Module, calls: seq<Call>, k: nat): Rec
    requires k < |calls|
  {
    Fill(calls[k].op, Rec(calls[k].args, Value(0), k), FirstCall(mod, calls, k).incoming, ReplyTo(mod, calls, k))
  }

  ghost predicate Answered(mod: Module, calls: seq<Call>, s: State, addr: Ptr, k: int) {
    0 <= k < |calls| && addr in s.heap && s.heap[addr] == AnswerTo(mod, calls, k)
  }

  /** The module's reply to the GetOutput that follows Invoke `k`, and what that leaves in the record. */
  function OutputReply(mod: Module, calls: seq<Call>, k: nat): Reply
    requires k < |calls|
  {
    mod.reply(Received(mod, calls, k + 1))
  }

  function OutputVars(mod: Module, calls: seq<Call>, k: nat): Vars
    requires k < |calls| && calls[k].args.Tensor?
  {
    Written(Vars(calls[k].args.tensor, calls[k].args.size), OutputReply(mod, calls, k))
  }

  /** The record of Invoke `k` with its output in it. */
  function OutputRec(vars: Vars, context: Ptr, k: nat): Rec {
    Rec(Tensor(vars.ptr, vars.size, context), Value(0), k)
  }

  ghost predicate InvResults(mod: Module, calls: seq<Call>, s: State)
    requires Shape(calls, s)
  {
    && |s.log.results| == s.log.issued - (if s.client.Waiting? then 1 else 0)
    && (forall k :: 0 <= k < |s.log.results| ==> s.log.results[k] == EmulatedSeen(mod, calls, k))
  }

  ghost predicate InvQueue(calls: seq<Call>, s: State)
    requires Shape(calls, s)
  {
    forall i :: 0 <= i < |s.requests| ==>
      s.requests[i].id == Id(calls[Taken(s) + i].op) && Holds(calls, s, s.requests[i].addr, Taken(s) + i)
  }

  ghost predicate InvWorker(mod: Module, calls: seq<Call>, s: State)
    requires Shape(calls, s)
  {
    var cur := Taken(s) - 1;
    match s.worker
    case Idle => s.history == Received(mod, calls, Taken(s))
    case Got(id, addr) =>
      s.history == Received(mod, calls, cur) && id == Id(calls[cur].op) && Holds(calls, s, addr, cur)
    case Filled(id, addr) =>
      && s.history == Received(mod, calls, cur + 1)
      && id == Id(calls[cur].op) && !calls[cur].op.Invoke?
      && Answered(mod, calls, s, addr, cur)
    case Invoked(addr, context, invokeRet) =>
      && s.history == Received(mod, calls, cur) + [FirstCall(mod, calls, cur)]
      && calls[cur].op.Invoke? && Holds(calls, s, addr, cur)
      && calls[cur].args.Tensor? && context == calls[cur].args.context
      && invokeRet == ReplyTo(mod, calls, cur).value
    case Collected(addr, context, invokeRet, output) =>
      && s.history == Received(mod, calls, cur + 1)
      && calls[cur].op.Invoke? && calls[cur].args.Tensor? && context == calls[cur].args.context
      && addr in s.heap && s.heap[addr] == OutputRec(OutputVars(mod, calls, cur), context, cur)
      && invokeRet == ReplyTo(mod, calls, cur).value
      && output == OutputReply(mod, calls, cur) && output.value >= 0
    case Publishing(success, context) =>
      && s.history == Received(mod, calls, cur + 1)
      && calls[cur].op.Invoke?
      && s.log.outcomes != []
      && var o := s.log.outcomes[|s.log.outcomes| - 1];
      && o.call == cur && !o.published && o.Success() == success && o.context == context
  }

  /** The worker or the request queue has a synchronous call numbered `k`. */
  ghost predicate Pending(calls: seq<Call>, s: State, k: int)
    requires Shape(calls, s)
  {
    && (if s.worker.Got? || s.worker.Filled? then Taken(s) - 1 else Taken(s)) <= k < s.log.issued
    && !calls[k].op.Invoke?
  }

  /** The client waits exactly while its last call is pending or answered. */
  ghost predicate InvClient(mod: Module, calls: seq<Call>, s: State)
    requires Shape(calls, s)
  {
    var n := s.log.issued - 1;
    match s.client
    case Ready => s.replies == [] && forall k :: !Pending(calls, s, k)
    case Waiting(op, addr, out) =>
      && 0 <= n && calls[n].op == op && calls[n].out == out && !op.Invoke?
      && addr in s.heap && s.heap[addr].birth == n
      && (forall k :: Pending(calls, s, k) ==> k == n)
      && if s.replies == [] then
           Pending(calls, s, n)
         else
           s.requests == [] && s.worker.Idle? && s.replies == [Msg(Id(op), addr)] && Answered(mod, calls, s, addr, n)
  }

  ghost predicate InvHeap(s: State) {
    && (forall p :: p in s.heap ==> s.heap[p].birth < s.log.issued)
    && (forall p, q :: p in s.heap && q in s.heap && s.heap[p].birth == s.heap[q].birth ==> p == q)
  }

  /** `o` is what the module gave for call `o.call`. */
  ghost predicate Faithful(mod: Module, calls: seq<Call>, o: Outcome) {
    && o.call < |calls|
    && calls[o.call].op.Invoke? && calls[o.call].args.Tensor?
    && o.context == calls[o.call].args.context
    && o.invokeRet == ReplyTo(mod, calls, o.call).value
    && o.output == OutputReply(mod, calls, o.call)
    && o.vars == OutputVars(mod, calls, o.call)
  }

  ghost predicate InvFaithful(mod: Module, calls: seq<Call>, os: seq<Outcome>) {
    forall i :: 0 <= i < |os| ==> Faithful(mod, calls, os[i])
  }

  /** The outcomes are those of the Invokes among the first `n` calls. */
  ghost predicate Match(calls: seq<Call>, n: nat, os: seq<Outcome>)
    requires n <= |calls|
  {
    && |os| == |Invocations(calls, n)|
    && (forall i :: 0 <= i < |os| ==>
          os[i].call == Invocations(calls, n)[i] && (os[i].sent ==> os[i].output.value >= 0))
  }

  ghost predicate InvOutcomes(calls: seq<Call>, s: State)
    requires Shape(calls, s)
  {
    Match(calls, Handled(s), s.log.outcomes) && s.events == Published(s.log.outcomes)
  }

  /** What was sent to the output queue is what was delivered, then what the queue's records carry. */
  ghost predicate Queued(sent: seq<Outcome>, delivered: seq<Output>, outputs: seq<Msg>, heap: map<Ptr, Rec>) {
    && |delivered| + |outputs| == |sent|
    && (forall i :: 0 <= i < |delivered| ==> delivered[i] == OutputOf(sent[i]))
    && (forall i :: 0 <= i < |outputs| ==> Carries(heap, outputs[i], sent[|delivered| + i]))
  }

  ghost predicate Carries(heap: map<Ptr, Rec>, m: Msg, o: Outcome) {
    && m.id == Id(GetOutput)
    && m.addr in heap
    && heap[m.addr] == OutputRec(o.vars, o.context, o.call)
  }

  ghost predicate InvOutputs(s: State) {
    Queued(Sent(s.log.outcomes), s.log.delivered, s.outputs, s.heap)
  }

  ghost predicate Core(mod: Module, calls: seq<Call>, s: State) {
    !s.fault && Shape(calls, s) && InvQueue(calls, s) && InvWorker(mod, calls, s) && InvHeap(s)
  }

  /** All of the invariant but that the outcomes are the module's. */
  ghost predicate InvRest(mod: Module, calls: seq<Call>, s: State) {
    && Core(mod, calls, s)
    && InvClient(mod, calls, s)
    && InvResults(mod, calls, s)
    && InvOutcomes(calls, s)
    && InvOutputs(s)
  }

  ghost predicate Inv(mod: Module, calls: seq<Call>, s: State) {
    InvRest(mod, calls, s) && InvFaithful(mod, calls, s.log.outcomes)
  }

  // ---------- Lemmas about the bookkeeping functions ----------

  lemma {:induction false} InvocationsOrdered(calls: seq<Call>, n: nat)
    requires n <= |calls|
    ensures forall i :: 0 <= i < |Invocations(calls, n)| ==>
              Invocations(calls, n)[i] < n && calls[Invocations(calls, n)[i]].op.Invoke?
    ensures forall i, j :: 0 <= i < j < |Invocations(calls, n)| ==> Invocations(calls, n)[i] < Invocations(calls, n)[j]
  {
    if n != 0 {
      InvocationsOrdered(calls, n - 1);
    }
  }

  ghost predicate Increasing(os: seq<Outcome>) {
    forall i, j :: 0 <= i < j < |os| ==> os[i].call < os[j].call
  }

  lemma {:induction false} SentIsSubsequence(os: seq<Outcome>)
    requires Increasing(os)
    ensures |Sent(os)| <= |os| && Increasing(Sent(os))
    ensures forall i :: 0 <= i < |Sent(os)| ==> Sent(os)[i] in os && Sent(os)[i].sent
  {
    if os != [] {
      var front := os[..|os| - 1];
      SentIsSubsequence(front);
      forall i | 0 <= i < |Sent(front)| ensures Sent(front)[i].call < os[|os| - 1].call {
        assert Sent(front)[i] in front;
      }
    }
  }

  lemma SentSnoc(os: seq<Outcome>, o: Outcome)
    ensures Sent(os + [o]) == Sent(os) + if o.sent then [o] else []
    ensures Published(os + [o]) == Published(os) + if o.published then [Event(o.Success(), o.context)] else []
  {
    assert (os + [o])[..|os|] == os;
  }

  lemma MatchSnoc(calls: seq<Call>, n: nat, os: seq<Outcome>, o: Outcome)
    requires n < |calls| && calls[n].op.Invoke?
    requires Match(calls, n, os) && o.call == n && (o.sent ==> o.output.value >= 0)
    ensures Match(calls, n + 1, os + [o])
  {
    assert Invocations(calls, n + 1) == Invocations(calls, n) + [n];
  }

  lemma MatchUpdate(calls: seq<Call>, n: nat, front: seq<Outcome>, o: Outcome, o': Outcome)
    requires n <= |calls| && Match(calls, n, front + [o]) && o' == o.(published := o'.published)
    ensures Match(calls, n, front + [o'])
  {
    forall i | 0 <= i < |front| ensures (front + [o'])[i] == (front + [o])[i] {}
    assert (front + [o])[|front|] == o;
  }

  lemma MatchOrdered(calls: seq<Call>, n: nat, os: seq<Outcome>)
    requires n <= |calls| && Match(calls, n, os)
    ensures Increasing(os)
    ensures forall o :: o in os ==> o.call < n && calls[o.call].op.Invoke?
  {
    InvocationsOrdered(calls, n);
  }

  // ---------- What a step does not touch ----------

  /** A waiting client keeps waiting through a step of the worker that sends no reply. */
  lemma ClientUntouched(mod: Module, calls: seq<Call>, s: State, t: State)
    requires Shape(calls, s) && InvClient(mod, calls, s)
    requires Shape(calls, t) && t.log.issued == s.log.issued && t.client == s.client && t.replies == s.replies
    requires forall k :: Pending(calls, t, k) <==> Pending(calls, s, k)
    requires forall p :: p in s.heap && !(s.heap[p].birth < |calls| && calls[s.heap[p].birth].op.Invoke?) ==>
                           p in t.heap && t.heap[p].birth == s.heap[p].birth
    requires s.replies == [] || (t.requests == s.requests && t.worker == s.worker && t.heap == s.heap)
    ensures InvClient(mod, calls, t)
  {
  }

  /** Calls still queued keep their records when only the record of a call already received changes. */
  lemma QueueUntouched(calls: seq<Call>, s: State, t: State, addr: Ptr)
    requires Shape(calls, s) && InvQueue(calls, s)
    requires Shape(calls, t) && t.log.issued == s.log.issued && t.requests == s.requests
    requires addr in s.heap && s.heap[addr].birth < Taken(s)
    requires forall p :: p in s.heap && p != addr ==> p in t.heap && t.heap[p] == s.heap[p]
    ensures InvQueue(calls, t)
  {
    forall i | 0 <= i < |s.requests| ensures Holds(calls, t, t.requests[i].addr, Taken(t) + i) {
      assert Holds(calls, s, s.requests[i].addr, Taken(s) + i);
    }
  }

  /** The record of a call that is not an Invoke, or is not handled yet, is not one that an output carries. */
  lemma OutputsUntouched(calls: seq<Call>, s: State, heap: map<Ptr, Rec>, addr: Ptr)
    requires Shape(calls, s) && InvOutcomes(calls, s) && InvOutputs(s)
    requires addr in s.heap && s.heap[addr].birth < |calls|
    requires Handled(s) <= s.heap[addr].birth || !calls[s.heap[addr].birth].op.Invoke?
    requires forall p :: p in s.heap && p != addr ==> p in heap && heap[p] == s.heap[p]
    ensures Queued(Sent(s.log.outcomes), s.log.delivered, s.outputs, heap)
    ensures forall i :: 0 <= i < |s.outputs| ==> s.outputs[i].addr != addr
  {
    var sent := Sent(s.log.outcomes);
    MatchOrdered(calls, Handled(s), s.log.outcomes);
    SentIsSubsequence(s.log.outcomes);
    forall i | 0 <= i < |s.outputs|
      ensures Carries(heap, s.outputs[i], sent[|s.log.delivered| + i]) && s.outputs[i].addr != addr
    {
      assert sent[|s.log.delivered| + i] in s.log.outcomes;
      assert Carries(s.heap, s.outputs[i], sent[|s.log.delivered| + i]);
    }
  }

  // ---------- Every step keeps the invariant ----------

  lemma SendKeepsQueue(calls: seq<Call>, s: State, addr: Ptr)
    requires Shape(calls, s) && InvQueue(calls, s) && InvHeap(s)
    requires s.client.Ready? && s.log.issued < |calls| && addr !in s.heap
    ensures var t := SendStep(calls, s, addr);
            Shape(calls, t) && InvQueue(calls, t) && InvHeap(t)
  {
    var t := SendStep(calls, s, addr);
    assert Taken(t) == Taken(s);
    forall i | 0 <= i < |s.requests| ensures Holds(calls, t, t.requests[i].addr, Taken(t) + i) {
      assert Holds(calls, s, s.requests[i].addr, Taken(s) + i);
    }
  }

  lemma SendKeepsWorker(mod: Module, calls: seq<Call>, s: State, addr: Ptr)
    requires Shape(calls, s) && InvWorker(mod, calls, s)
    requires s.client.Ready? && s.log.issued < |calls| && addr !in s.heap
    ensures var t := SendStep(calls, s, addr);
            Shape(calls, t) && InvWorker(mod, calls, t)
  {
    assert Taken(SendStep(calls, s, addr)) == Taken(s);
  }

  lemma SendKeepsClient(mod: Module, calls: seq<Call>, s: State, addr: Ptr)
    requires Shape(calls, s) && InvClient(mod, calls, s) && InvResults(mod, calls, s)
    requires s.client.Ready? && s.log.issued < |calls| && addr !in s.heap
    ensures var t := SendStep(calls, s, addr);
            Shape(calls, t) && InvClient(mod, calls, t) && InvResults(mod, calls, t)
  {
    var t, n := SendStep(calls, s, addr), s.log.issued;
    assert Taken(t) == Taken(s);
    assert forall k :: Pending(calls, t, k) <==> k == n && t.client.Waiting? by {
      assert forall k :: Pending(calls, t, k) ==> k == n || Pending(calls, s, k);
    }
    SendKeepsResults(mod, calls, s, addr);
  }

  lemma SendKeepsResults(mod: Module, calls: seq<Call>, s: State, addr: Ptr)
    requires Shape(calls, s) && InvResults(mod, calls, s)
    requires s.client.Ready? && s.log.issued < |calls|
    ensures Shape(calls, SendStep(calls, s, addr)) && InvResults(mod, calls, SendStep(calls, s, addr))
  {
    var t, c := SendStep(calls, s, addr), calls[s.log.issued];
    if c.op.Invoke? {
      assert t.log.results == s.log.results + [Seen(0, c.out)];
      assert EmulatedSeen(mod, calls, s.log.issued) == Seen(0, c.out);
    } else {
      assert t.log.results == s.log.results;
    }
  }

  lemma SendKeepsOutputs(mod: Module, calls: seq<Call>, s: State, addr: Ptr)
    requires Shape(calls, s) && InvOutcomes(calls, s) && InvOutputs(s)
    requires s.client.Ready? && s.log.issued < |calls| && addr !in s.heap
    ensures var t := SendStep(calls, s, addr);
            Shape(calls, t) && InvOutcomes(calls, t) && InvOutputs(t)
  {
    var t := SendStep(calls, s, addr);
    assert Handled(t) == Handled(s);
    forall i | 0 <= i < |s.outputs| ensures Carries(t.heap, t.outputs[i], Sent(t.log.outcomes)[|t.log.delivered| + i]) {
      assert Carries(s.heap, s.outputs[i], Sent(s.log.outcomes)[|s.log.delivered| + i]);
    }
  }

  lemma ReceiveKeepsInv(mod: Module, calls: seq<Call>, s: State)
    requires Inv(mod, calls, s)
    requires s.worker.Idle? && s.requests != []
    ensures Inv(mod, calls, ReceiveStep(s))
  {
    var t := ReceiveStep(s);
    assert Holds(calls, s, s.requests[0].addr, Taken(s));
    assert forall k :: Pending(calls, t, k) <==> Pending(calls, s, k);
  }

  /** What handling a call does, in terms of the call. */
  lemma HandleFacts(mod: Module, calls: seq<Call>, s: State)
    requires Program(calls) && Core(mod, calls, s)
    requires s.worker.Got?
    ensures var k := Taken(s) - 1; var addr := s.worker.addr;
            && 0 <= k < s.log.issued <= |calls| && WellTyped(calls[k])
            && addr in s.heap && s.heap[addr] == Rec(calls[k].args, Value(0), k)
            && HandleStep(mod, s) ==
               if calls[k].op.Invoke? then
                 s.(history := s.history + [FirstCall(mod, calls, k)],
                    worker := Invoked(addr, calls[k].args.context, ReplyTo(mod, calls, k).value))
               else
                 s.(history := s.history + [FirstCall(mod, calls, k)],
                    heap := s.heap[addr := AnswerTo(mod, calls, k)],
                    worker := Filled(s.worker.id, addr))
  {
    var k := Taken(s) - 1;
    assert Holds(calls, s, s.worker.addr, k) && WellTyped(calls[k]);
    assert COMMAND_TABLE[s.worker.id] == calls[k].op;
    assert HandlerCall(mod, calls[k].op, calls[k].args, |s.history|) == FirstCall(mod, calls, k);
  }

  lemma AnswerKeepsBirth(mod: Module, calls: seq<Call>, k: nat)
    requires k < |calls|
    ensures AnswerTo(mod, calls, k).birth == k
  {
  }

  lemma HandleKeepsWorker(mod: Module, calls: seq<Call>, s: State)
    requires Program(calls) && Core(mod, calls, s)
    requires s.worker.Got?
    ensures Shape(calls, HandleStep(mod, s)) && InvWorker(mod, calls, HandleStep(mod, s))
  {
    HandleFacts(mod, calls, s);
  }

  lemma HandleKeepsCore(mod: Module, calls: seq<Call>, s: State)
    requires Program(calls) && Core(mod, calls, s)
    requires s.worker.Got?
    ensures Core(mod, calls, HandleStep(mod, s))
  {
    var t := HandleStep(mod, s);
    HandleKeepsWorker(mod, calls, s);
    HandleFacts(mod, calls, s);
    AnswerKeepsBirth(mod, calls, Taken(s) - 1);
    QueueUntouched(calls, s, t, s.worker.addr);
    HandledHeap(s, t, s.worker.addr);
  }

  lemma HandledHeap(s: State, t: State, addr: Ptr)
    requires InvHeap(s) && addr in s.heap && t.log.issued == s.log.issued
    requires t.heap.Keys == s.heap.Keys && forall p :: p in s.heap ==> t.heap[p].birth == s.heap[p].birth
    ensures InvHeap(t)
  {
  }

  lemma HandleKeepsClient(mod: Module, calls: seq<Call>, s: State)
    requires Program(calls) && Core(mod, calls, s) && InvClient(mod, calls, s) && InvResults(mod, calls, s)
    requires s.worker.Got?
    ensures var t := HandleStep(mod, s);
            Shape(calls, t) && InvClient(mod, calls, t) && InvResults(mod, calls, t)
  {
    var t, k := HandleStep(mod, s), Taken(s) - 1;
    HandleFacts(mod, calls, s);
    AnswerKeepsBirth(mod, calls, k);
    assert forall i :: Pending(calls, t, i) <==> Pending(calls, s, i);
    ClientUntouched(mod, calls, s, t);
  }

  lemma HandleKeepsOutputs(mod: Module, calls: seq<Call>, s: State)
    requires Program(calls) && Core(mod, calls, s) && InvOutcomes(calls, s) && InvOutputs(s)
    requires s.worker.Got?
    ensures var t := HandleStep(mod, s);
            Shape(calls, t) && InvOutcomes(calls, t) && InvOutputs(t)
  {
    HandleFacts(mod, calls, s);
    HandledOutputs(calls, s, HandleStep(mod, s), s.worker.addr);
  }

  lemma HandledOutputs(calls: seq<Call>, s: State, t: State, addr: Ptr)
    requires Shape(calls, s) && InvOutcomes(calls, s) && InvOutputs(s)
    requires s.worker.Got? || s.worker.Invoked?
    requires addr in s.heap && s.heap[addr].birth == Taken(s) - 1
    requires t.worker.Invoked? || t.worker.Filled? || t.worker.Collected?
    requires t.log.issued == s.log.issued && t.requests == s.requests
    requires t.worker.Filled? ==> !calls[Taken(s) - 1].op.Invoke?
    requires t.log.outcomes == s.log.outcomes && t.events == s.events
    requires t.log.delivered == s.log.delivered && t.outputs == s.outputs
    requires forall p :: p in s.heap && p != addr ==> p in t.heap && t.heap[p] == s.heap[p]
    ensures Shape(calls, t) && InvOutcomes(calls, t) && InvOutputs(t)
  {
    OutputsUntouched(calls, s, t.heap, addr);
    assert Invocations(calls, Handled(t)) == Invocations(calls, Handled(s));
  }

  lemma ReplyKeepsClient(mod: Module, calls: seq<Call>, s: State)
    requires Core(mod, calls, s) && InvClient(mod, calls, s)
    requires s.worker.Filled?
    ensures Shape(calls, ReplyStep(s)) && InvClient(mod, calls, ReplyStep(s))
  {
    var t, n := ReplyStep(s), s.log.issued - 1;
    assert Pending(calls, s, Taken(s) - 1);
    assert Answered(mod, calls, s, s.worker.addr, n);
    AnswerKeepsBirth(mod, calls, n);
    assert s.worker.addr == s.client.addr && t.replies == [Msg(Id(s.client.op), s.client.addr)];
  }

  lemma ReplyKeepsRest(mod: Module, calls: seq<Call>, s: State)
    requires Core(mod, calls, s) && InvResults(mod, calls, s) && InvOutcomes(calls, s) && InvOutputs(s)
    requires s.worker.Filled?
    ensures var t := ReplyStep(s);
            Core(mod, calls, t) && InvResults(mod, calls, t) && InvOutcomes(calls, t) && InvOutputs(t)
  {
    var t := ReplyStep(s);
    assert Taken(t) == Taken(s) && Handled(t) == Handled(s);
  }

  /** The outcome of the Invoke the worker is at. */
  function OutcomeOf(mod: Module, calls: seq<Call>, s: State, sent: bool): Outcome
    requires Shape(calls, s) && (s.worker.Invoked? || s.worker.Collected?) && calls[Taken(s) - 1].args.Tensor?
  {
    var k := Taken(s) - 1;
    Outcome(k, s.worker.context, s.worker.invokeRet, OutputReply(mod, calls, k), OutputVars(mod, calls, k), sent, false)
  }

  lemma ReceivedInvoke(mod: Module, calls: seq<Call>, k: nat)
    requires k < |calls| && calls[k].op.Invoke?
    ensures var before := Received(mod, calls, k) + [FirstCall(mod, calls, k)];
            Received(mod, calls, k + 1) == before + [HandlerCall(mod, GetOutput, calls[k].args, |before|)]
  {
  }

  /** What collecting an output does, in terms of the Invoke it belongs to. */
  lemma CollectFacts(mod: Module, calls: seq<Call>, s: State)
    requires Program(calls) && Core(mod, calls, s)
    requires s.worker.Invoked?
    ensures var k := Taken(s) - 1; var addr := s.worker.addr; var r := OutputReply(mod, calls, k);
            && Holds(calls, s, addr, k) && calls[k].args.Tensor?
            && var heap := s.heap[addr := OutputRec(OutputVars(mod, calls, k), s.worker.context, k)];
            && CollectStep(mod, s) ==
               if r.value < 0 then
                 s.(history := Received(mod, calls, k + 1), heap := heap,
                    worker := Publishing(false, s.worker.context),
                    log := HandledInvoke(s.log.(leaked := s.log.leaked + {addr}), OutcomeOf(mod, calls, s, false)))
               else
                 s.(history := Received(mod, calls, k + 1), heap := heap,
                    worker := Collected(addr, s.worker.context, s.worker.invokeRet, r))
  {
    assert Holds(calls, s, s.worker.addr, Taken(s) - 1);
    ReceivedInvoke(mod, calls, Taken(s) - 1);
  }

  /** What queueing it does. */
  lemma QueueFacts(mod: Module, calls: seq<Call>, s: State, queued: bool)
    requires Core(mod, calls, s)
    requires s.worker.Collected?
    ensures var addr := s.worker.addr; var o := OutcomeOf(mod, calls, s, queued);
            QueueStep(s, queued) == s.(
              outputs := if queued then s.outputs + [Msg(Id(GetOutput), addr)] else s.outputs,
              heap := if queued then s.heap else s.heap - {addr},
              worker := Publishing(o.Success(), o.context),
              log := HandledInvoke(s.log, o))
  {
  }

  lemma CollectKeepsCore(mod: Module, calls: seq<Call>, s: State)
    requires Program(calls) && Core(mod, calls, s)
    requires s.worker.Invoked?
    ensures Core(mod, calls, CollectStep(mod, s))
  {
    CollectFacts(mod, calls, s);
    QueueUntouched(calls, s, CollectStep(mod, s), s.worker.addr);
  }

  lemma QueueKeepsCore(mod: Module, calls: seq<Call>, s: State, queued: bool)
    requires Core(mod, calls, s)
    requires s.worker.Collected?
    ensures Core(mod, calls, QueueStep(s, queued))
  {
    QueueFacts(mod, calls, s, queued);
    QueueUntouched(calls, s, QueueStep(s, queued), s.worker.addr);
  }

  lemma CollectKeepsClient(mod: Module, calls: seq<Call>, s: State)
    requires Program(calls) && Core(mod, calls, s) && InvClient(mod, calls, s) && InvResults(mod, calls, s)
    requires s.worker.Invoked?
    ensures var t := CollectStep(mod, s);
            Shape(calls, t) && InvClient(mod, calls, t) && InvResults(mod, calls, t)
  {
    var t := CollectStep(mod, s);
    CollectFacts(mod, calls, s);
    assert forall k :: Pending(calls, t, k) <==> Pending(calls, s, k);
    ClientUntouched(mod, calls, s, t);
  }

  lemma QueueKeepsClient(mod: Module, calls: seq<Call>, s: State, queued: bool)
    requires Core(mod, calls, s) && InvClient(mod, calls, s) && InvResults(mod, calls, s)
    requires s.worker.Collected?
    ensures var t := QueueStep(s, queued);
            Shape(calls, t) && InvClient(mod, calls, t) && InvResults(mod, calls, t)
  {
    var t := QueueStep(s, queued);
    QueueFacts(mod, calls, s, queued);
    assert forall k :: Pending(calls, t, k) <==> Pending(calls, s, k);
    ClientUntouched(mod, calls, s, t);
  }

  lemma CollectKeepsOutputs(mod: Module, calls: seq<Call>, s: State)
    requires Program(calls) && Core(mod, calls, s) && InvOutcomes(calls, s) && InvOutputs(s)
    requires s.worker.Invoked?
    ensures var t := CollectStep(mod, s);
            Shape(calls, t) && InvOutcomes(calls, t) && InvOutputs(t)
  {
    var t := CollectStep(mod, s);
    CollectFacts(mod, calls, s);
    if t.worker.Collected? {
      HandledOutputs(calls, s, t, s.worker.addr);
    } else {
      var o := OutcomeOf(mod, calls, s, false);
      CollectedOutcomes(calls, s, t, o);
      CollectedOutputs(calls, s, t, s.worker.addr, o);
    }
  }

  lemma QueueKeepsOutputs(mod: Module, calls: seq<Call>, s: State, queued: bool)
    requires Core(mod, calls, s) && InvOutcomes(calls, s) && InvOutputs(s)
    requires s.worker.Collected?
    ensures var t := QueueStep(s, queued);
            Shape(calls, t) && InvOutcomes(calls, t) && InvOutputs(t)
  {
    var t, o := QueueStep(s, queued), OutcomeOf(mod, calls, s, queued);
    QueueFacts(mod, calls, s, queued);
    CollectedOutcomes(calls, s, t, o);
    CollectedOutputs(calls, s, t, s.worker.addr, o);
  }

  lemma CollectedOutcomes(calls: seq<Call>, s: State, t: State, o: Outcome)
    requires Shape(calls, s) && InvOutcomes(calls, s) && (s.worker.Invoked? || s.worker.Collected?)
    requires t.log.issued == s.log.issued && t.requests == s.requests && t.worker.Publishing?
    requires t.log.outcomes == s.log.outcomes + [o] && t.events == s.events
    requires o.call == Taken(s) - 1 && calls[o.call].op.Invoke? && !o.published
    requires o.sent ==> o.output.value >= 0
    ensures Shape(calls, t) && InvOutcomes(calls, t)
  {
    SentSnoc(s.log.outcomes, o);
    MatchSnoc(calls, Handled(s), s.log.outcomes, o);
  }

  lemma CollectedOutputs(calls: seq<Call>, s: State, t: State, addr: Ptr, o: Outcome)
    requires Shape(calls, s) && InvOutcomes(calls, s) && InvOutputs(s)
    requires addr in s.heap && Handled(s) <= s.heap[addr].birth < |calls|
    requires t.log.outcomes == s.log.outcomes + [o] && t.log.delivered == s.log.delivered
    requires forall p :: p in s.heap && p != addr ==> p in t.heap && t.heap[p] == s.heap[p]
    requires t.outputs == if o.sent then s.outputs + [Msg(Id(GetOutput), addr)] else s.outputs
    requires o.sent ==> Carries(t.heap, Msg(Id(GetOutput), addr), o)
    ensures InvOutputs(t)
  {
    OutputsUntouched(calls, s, t.heap, addr);
    SentSnoc(s.log.outcomes, o);
  }

  lemma PublishKeepsClient(mod: Module, calls: seq<Call>, s: State, written: bool)
    requires Core(mod, calls, s) && InvClient(mod, calls, s) && s.worker.Publishing?
    ensures var t := PublishStep(s, written);
            Core(mod, calls, t) && InvClient(mod, calls, t)
  {
    var t := PublishStep(s, written);
    assert forall k :: Pending(calls, t, k) <==> Pending(calls, s, k);
    ClientUntouched(mod, calls, s, t);
  }

  lemma PublishKeepsRest(mod: Module, calls: seq<Call>, s: State, written: bool)
    requires Inv(mod, calls, s)
    requires s.worker.Publishing?
    ensures InvRest(mod, calls, PublishStep(s, written))
  {
    PublishKeepsClient(mod, calls, s, written);
    PublishKeepsOutcomes(mod, calls, s, written);
    PublishKeepsOutputs(s, written);
  }

  lemma PublishKeepsOutcomes(mod: Module, calls: seq<Call>, s: State, written: bool)
    requires Shape(calls, s) && InvWorker(mod, calls, s) && InvOutcomes(calls, s)
    requires s.worker.Publishing?
    ensures var t := PublishStep(s, written);
            Shape(calls, t) && InvOutcomes(calls, t)
  {
    var last := |s.log.outcomes| - 1;
    var front, o, t := s.log.outcomes[..last], s.log.outcomes[last], PublishStep(s, written);
    assert s.log.outcomes == front + [o];
    assert t.log.outcomes == front + [o.(published := written)];
    PublishedEvents(front, o, written);
    MatchUpdate(calls, Handled(s), front, o, o.(published := written));
    assert Handled(t) == Handled(s);
  }

  lemma PublishedEvents(front: seq<Outcome>, o: Outcome, written: bool)
    requires !o.published
    ensures Published(front + [o.(published := written)]) ==
            Published(front + [o]) + if written then [Event(o.Success(), o.context)] else []
  {
    SentSnoc(front, o);
    SentSnoc(front, o.(published := written));
  }

  lemma PublishKeepsOutputs(s: State, written: bool)
    requires InvOutputs(s)
    requires s.worker.Publishing? && s.log.outcomes != []
    ensures InvOutputs(PublishStep(s, written))
  {
    var t, last := PublishStep(s, written), |s.log.outcomes| - 1;
    var front, o, o' := s.log.outcomes[..last], s.log.outcomes[last], t.log.outcomes[last];
    assert s.log.outcomes == front + [o] && t.log.outcomes == front + [o'];
    SentSnoc(front, o);
    SentSnoc(front, o');
    if o.sent {
      PublishKeepsQueued(Sent(front), o, o', s.log.delivered, s.outputs, s.heap);
    }
  }

  lemma PublishKeepsQueued(sent: seq<Outcome>, o: Outcome, o': Outcome, delivered: seq<Output>, outputs: seq<Msg>,
                           heap: map<Ptr, Rec>)
    requires Queued(sent + [o], delivered, outputs, heap) && o' == o.(published := o'.published)
    ensures Queued(sent + [o'], delivered, outputs, heap)
  {
    forall i | 0 <= i < |outputs| ensures Carries(heap, outputs[i], (sent + [o'])[|delivered| + i]) {
      assert Carries(heap, outputs[i], (sent + [o])[|delivered| + i]);
    }
  }

  lemma RecvKeepsClient(mod: Module, calls: seq<Call>, s: State)
    requires Program(calls) && Shape(calls, s) && !s.fault && InvClient(mod, calls, s) && InvResults(mod, calls, s)
    requires s.client.Waiting? && s.replies != []
    ensures var t := RecvStep(s);
            !t.fault && Shape(calls, t) && InvClient(mod, calls, t) && InvResults(mod, calls, t)
  {
    var t := RecvStep(s);
    assert forall k :: Pending(calls, t, k) <==> Pending(calls, s, k);
  }

  lemma RecvKeepsRest(mod: Module, calls: seq<Call>, s: State)
    requires Inv(mod, calls, s)
    requires s.client.Waiting? && s.replies != []
    ensures var t := RecvStep(s);
            Core(mod, calls, t) && InvOutcomes(calls, t) && InvOutputs(t)
  {
    var t := RecvStep(s);
    OutputsUntouched(calls, s, t.heap, s.client.addr);
    assert t.history == s.history && Taken(t) == Taken(s) && Handled(t) == Handled(s);
  }

  lemma QueuedHead(sent: seq<Outcome>, delivered: seq<Output>, outputs: seq<Msg>, heap: map<Ptr, Rec>)
    requires Queued(sent, delivered, outputs, heap) && Increasing(sent) && outputs != []
    ensures |delivered| < |sent| && Carries(heap, outputs[0], sent[|delivered|])
    ensures Queued(sent, delivered + [OutputOf(sent[|delivered|])], outputs[1..], heap - {outputs[0].addr})
  {
    var o, d := outputs[0], |delivered|;
    assert Carries(heap, o, sent[d]);
    forall i | 0 <= i < |outputs[1..]| ensures Carries(heap - {o.addr}, outputs[1..][i], sent[d + 1 + i]) {
      assert Carries(heap, outputs[i + 1], sent[d + (i + 1)]);
    }
  }

  lemma TakeFacts(calls: seq<Call>, s: State)
    requires Shape(calls, s) && InvOutcomes(calls, s) && InvOutputs(s)
    requires s.outputs != []
    ensures var sent := Sent(s.log.outcomes); var addr := s.outputs[0].addr;
            && |s.log.delivered| < |sent|
            && var o := sent[|s.log.delivered|];
            && addr in s.heap && s.heap[addr].birth == o.call < Handled(s) && calls[o.call].op.Invoke?
            && TakeStep(s) == s.(outputs := s.outputs[1..], heap := s.heap - {addr},
                                 log := s.log.(delivered := s.log.delivered + [OutputOf(o)]))
            && InvOutputs(TakeStep(s))
  {
    MatchOrdered(calls, Handled(s), s.log.outcomes);
    SentIsSubsequence(s.log.outcomes);
    QueuedHead(Sent(s.log.outcomes), s.log.delivered, s.outputs, s.heap);
    assert Sent(s.log.outcomes)[|s.log.delivered|] in s.log.outcomes;
  }

  lemma TakeKeepsCore(mod: Module, calls: seq<Call>, s: State)
    requires Core(mod, calls, s) && InvOutcomes(calls, s) && InvOutputs(s)
    requires s.outputs != []
    ensures Core(mod, calls, TakeStep(s))
  {
    var t, addr := TakeStep(s), s.outputs[0].addr;
    TakeFacts(calls, s);
    QueueUntouched(calls, s, t, addr);
    if s.worker.Filled? {
      var k := Taken(s) - 1;
      AnswerKeepsBirth(mod, calls, k);
    }
    assert Taken(t) == Taken(s) && Handled(t) == Handled(s) && InvWorker(mod, calls, t);
  }

  /** The step takes the first output's record and nothing of the client's or the log but what was delivered. */
  lemma TakeKeepsClient(mod: Module, calls: seq<Call>, s: State, t: State, addr: Ptr)
    requires Shape(calls, s) && InvClient(mod, calls, s) && InvResults(mod, calls, s)
    requires addr in s.heap && s.heap[addr].birth < |calls| && calls[s.heap[addr].birth].op.Invoke?
    requires t == s.(outputs := t.outputs, heap := s.heap - {addr}, log := s.log.(delivered := t.log.delivered))
    ensures Shape(calls, t) && InvClient(mod, calls, t) && InvResults(mod, calls, t)
  {
    assert forall k :: Pending(calls, t, k) <==> Pending(calls, s, k);
  }

  lemma TakeKeepsRest(mod: Module, calls: seq<Call>, s: State)
    requires Shape(calls, s) && InvClient(mod, calls, s) && InvResults(mod, calls, s) && InvOutcomes(calls, s)
    requires InvOutputs(s) && s.outputs != []
    ensures var t := TakeStep(s);
            && Shape(calls, t) && InvClient(mod, calls, t) && InvResults(mod, calls, t) && InvOutcomes(calls, t)
  {
    TakeFacts(calls, s);
    TakeKeepsClient(mod, calls, s, TakeStep(s), s.outputs[0].addr);
  }

  lemma CollectKeepsFaithful(mod: Module, calls: seq<Call>, s: State)
    requires Program(calls) && Core(mod, calls, s) && InvFaithful(mod, calls, s.log.outcomes)
    requires s.worker.Invoked?
    ensures InvFaithful(mod, calls, CollectStep(mod, s).log.outcomes)
  {
    CollectFacts(mod, calls, s);
    assert Faithful(mod, calls, OutcomeOf(mod, calls, s, false));
  }

  lemma QueueKeepsFaithful(mod: Module, calls: seq<Call>, s: State, queued: bool)
    requires Core(mod, calls, s) && InvFaithful(mod, calls, s.log.outcomes)
    requires s.worker.Collected?
    ensures InvFaithful(mod, calls, QueueStep(s, queued).log.outcomes)
  {
    QueueFacts(mod, calls, s, queued);
    assert Faithful(mod, calls, OutcomeOf(mod, calls, s, queued));
  }

  lemma PublishKeepsFaithful(mod: Module, calls: seq<Call>, s: State, written: bool)
    requires InvFaithful(mod, calls, s.log.outcomes)
    requires s.worker.Publishing? && s.log.outcomes != []
    ensures InvFaithful(mod, calls, PublishStep(s, written).log.outcomes)
  {
    assert Faithful(mod, calls, s.log.outcomes[|s.log.outcomes| - 1]);
  }

  lemma StepKeepsFaithful(mod: Module, calls: seq<Call>, s: State, a: Action)
    requires Program(calls) && Core(mod, calls, s) && InvFaithful(mod, calls, s.log.outcomes)
    requires Enabled(calls, s, a)
    ensures InvFaithful(mod, calls, Step(mod, calls, s, a).log.outcomes)
  {
    match a
    case Collect => CollectKeepsFaithful(mod, calls, s);
    case Queue(queued) => QueueKeepsFaithful(mod, calls, s, queued);
    case Publish(written) => PublishKeepsFaithful(mod, calls, s, written);
    case _ =>
  }

  lemma ClientStepKeepsRest(mod: Module, calls: seq<Call>, s: State, a: Action)
    requires Program(calls) && Inv(mod, calls, s) && Enabled(calls, s, a)
    requires a.Send? || a.RecvReply? || a.TakeOutput?
    ensures InvRest(mod, calls, Step(mod, calls, s, a))
  {
    match a
    case Send(addr) =>
      SendKeepsQueue(calls, s, addr);
      SendKeepsWorker(mod, calls, s, addr);
      SendKeepsClient(mod, calls, s, addr);
      SendKeepsOutputs(mod, calls, s, addr);
    case RecvReply =>
      RecvKeepsClient(mod, calls, s);
      RecvKeepsRest(mod, calls, s);
    case TakeOutput =>
      TakeFacts(calls, s);
      TakeKeepsCore(mod, calls, s);
      TakeKeepsRest(mod, calls, s);
  }

  lemma WorkerStepKeepsRest(mod: Module, calls: seq<Call>, s: State, a: Action)
    requires Program(calls) && Inv(mod, calls, s) && Enabled(calls, s, a)
    requires !a.Send? && !a.RecvReply? && !a.TakeOutput?
    ensures InvRest(mod, calls, Step(mod, calls, s, a))
  {
    match a
    case Receive => ReceiveKeepsInv(mod, calls, s);
    case Handle =>
      HandleKeepsCore(mod, calls, s);
      HandleKeepsClient(mod, calls, s);
      HandleKeepsOutputs(mod, calls, s);
    case SendReply =>
      ReplyKeepsClient(mod, calls, s);
      ReplyKeepsRest(mod, calls, s);
    case Collect =>
      CollectKeepsCore(mod, calls, s);
      CollectKeepsClient(mod, calls, s);
      CollectKeepsOutputs(mod, calls, s);
    case Queue(queued) =>
      QueueKeepsCore(mod, calls, s, queued);
      QueueKeepsClient(mod, calls, s, queued);
      QueueKeepsOutputs(mod, calls, s, queued);
    case Publish(written) => PublishKeepsRest(mod, calls, s, written);
  }

  lemma StepKeepsInv(mod: Module, calls: seq<Call>, s: State, a: Action)
    requires Program(calls) && Inv(mod, calls, s)
    ensures Inv(mod, calls, Step(mod, calls, s, a))
  {
    if Enabled(calls, s, a) {
      StepKeepsFaithful(mod, calls, s, a);
      if a.Send? || a.RecvReply? || a.TakeOutput? {
        ClientStepKeepsRest(mod, calls, s, a);
      } else {
        WorkerStepKeepsRest(mod, calls, s, a);
      }
    }
  }

  lemma {:induction false} Reachable(mod: Module, calls: seq<Call>, schedule: seq<Action>)
    requires Program(calls)
    ensures Inv(mod, calls, Run(mod, calls, schedule))
  {
    if schedule != [] {
      var front := schedule[..|schedule| - 1];
      Reachable(mod, calls, front);
      StepKeepsInv(mod, calls, Run(mod, calls, front), schedule[|schedule| - 1]);
    }
  }
}
