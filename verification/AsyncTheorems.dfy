/**
 What the asynchronous emulation guarantees under every schedule: calls get their own
 replies, outputs and events are accounted for, and every record has one owner.
 */
module AsyncTheorems {
  import opened AsyncRuntime
  import opened AsyncInvariant

  // ---------- Calls and replies ----------

  lemma {:induction false} ReceivedPrefix(mod: Module, calls: seq<Call>, m: nat, n: nat)
    requires m <= n <= |calls|
    ensures Received(mod, calls, m) <= Received(mod, calls, n)
  {
    if m < n {
      ReceivedPrefix(mod, calls, m, n - 1);
    }
  }

  lemma HistoryIsPrefix(mod: Module, calls: seq<Call>, s: State)
    requires Shape(calls, s) && InvWorker(mod, calls, s)
    ensures s.history <= Received(mod, calls, s.log.issued)
  {
    var t := Taken(s);
    ReceivedPrefix(mod, calls, t, s.log.issued);
    match s.worker
    case Idle =>
    case Got(_, _) => ReceivedPrefix(mod, calls, t - 1, t);
    case Filled(_, _) =>
    case Invoked(_, _, _) =>
      assert Received(mod, calls, t - 1) + [FirstCall(mod, calls, t - 1)] <= Received(mod, calls, t);
    case Collected(_, _, _, _) =>
    case Publishing(_, _) =>
  }

  ghost predicate Refines(mod: Module, calls: seq<Call>, s: State) {
    && !s.fault
    && s.log.issued <= |calls|
    && |s.log.results| == (if s.client.Waiting? then s.log.issued - 1 else s.log.issued)
    && (forall k :: 0 <= k < |s.log.results| ==> s.log.results[k] == EmulatedSeen(mod, calls, k))
    && s.history <= Received(mod, calls, s.log.issued)
    && (s.worker.Idle? && s.requests == [] ==> s.history == Received(mod, calls, s.log.issued))
    && (s.client.Ready? ==> s.replies == [])
  }

  /**
   Under every schedule no assertion fails and no dead record is touched, the
   completed calls returned what the module replied to their own handlers' calls, the module
   has received those calls in the order of the program, all of them once the worker is idle,
   and no reply is left over between calls.
   */
  lemma EveryCallGetsItsReply(mod: Module, calls: seq<Call>, schedule: seq<Action>)
    requires Program(calls)
    ensures Refines(mod, calls, Run(mod, calls, schedule))
  {
    Reachable(mod, calls, schedule);
    InvRefines(mod, calls, Run(mod, calls, schedule));
  }

  lemma InvRefines(mod: Module, calls: seq<Call>, s: State)
    requires Core(mod, calls, s) && InvClient(mod, calls, s) && InvResults(mod, calls, s)
    ensures Refines(mod, calls, s)
  {
    HistoryIsPrefix(mod, calls, s);
  }

  function RunFrom(mod: Module, calls: seq<Call>, s: State, schedule: seq<Action>): State
    decreases |schedule|
  {
    if schedule == [] then s else RunFrom(mod, calls, Step(mod, calls, s, schedule[0]), schedule[1..])
  }

  function Work(s: State): nat {
    5 * |s.requests| + match s.worker
                       case Idle => 0
                       case Got(_, _) => 4
                       case Filled(_, _) => 1
                       case Invoked(_, _, _) => 3
                       case Collected(_, _, _, _) => 2
                       case Publishing(_, _) => 1
  }

  /** A waiting client is never stuck: the worker's own steps bring the reply. */
  lemma {:induction false} WaitingIsAnswered(mod: Module, calls: seq<Call>, s: State) returns (schedule: seq<Action>)
    requires Program(calls) && Inv(mod, calls, s)
    requires s.client.Waiting?
    ensures forall a :: a in schedule ==> !a.Send? && !a.RecvReply? && !a.TakeOutput?
    ensures var t := RunFrom(mod, calls, s, schedule);
            Inv(mod, calls, t) && t.client == s.client && t.replies == [Msg(Id(s.client.op), s.client.addr)]
    decreases Work(s)
  {
    if s.replies != [] {
      schedule := [];
    } else {
      assert Pending(calls, s, s.log.issued - 1);
      var a := match s.worker
        case Idle => Receive
        case Got(_, _) => Handle
        case Filled(_, _) => SendReply
        case Invoked(_, _, _) => Collect
        case Collected(_, _, _, _) => Queue(true)
        case Publishing(_, _) => Publish(true);
      StepKeepsInv(mod, calls, s, a);
      WorkerStepFacts(mod, calls, s, a);
      var rest := WaitingIsAnswered(mod, calls, Step(mod, calls, s, a));
      schedule := [a] + rest;
      assert schedule[1..] == rest;
    }
  }

  lemma WorkerStepFacts(mod: Module, calls: seq<Call>, s: State, a: Action)
    requires Program(calls) && Core(mod, calls, s) && InvOutcomes(calls, s)
    requires Enabled(calls, s, a) && !a.Send? && !a.RecvReply? && !a.TakeOutput?
    ensures var t := Step(mod, calls, s, a);
            t.client == s.client && Work(t) < Work(s)
  {
    match a
    case Handle => HandleFacts(mod, calls, s);
    case Collect => CollectFacts(mod, calls, s);
    case Queue(queued) => QueueFacts(mod, calls, s, queued);
    case _ =>
  }

  // ---------- Outputs and events ----------

  /** The handled Invokes whose success was published. */
  function Successes(os: seq<Outcome>): seq<Outcome> {
    if os == [] then [] else
    var o := os[|os| - 1];
    Successes(os[..|os| - 1]) + if o.published && o.Success() then [o] else []
  }

  function SuccessEvents(es: seq<Event>): seq<Event> {
    if es == [] then [] else
    var e := es[|es| - 1];
    SuccessEvents(es[..|es| - 1]) + if e.success then [e] else []
  }

  lemma {:induction false} SuccessesAreEvents(os: seq<Outcome>)
    ensures |SuccessEvents(Published(os))| == |Successes(os)|
    ensures forall i :: 0 <= i < |Successes(os)| ==> SuccessEvents(Published(os))[i].context == Successes(os)[i].context
  {
    if os != [] {
      var front, o := os[..|os| - 1], os[|os| - 1];
      SuccessesAreEvents(front);
      var es := Published(os);
      if o.published {
        assert es[..|es| - 1] == Published(front);
      } else {
        assert es == Published(front);
      }
    }
  }

  ghost predicate NoneLost(os: seq<Outcome>) {
    forall i :: 0 <= i < |os| && os[i].sent ==> os[i].Success() && os[i].published
  }

  lemma NoneLostSnoc(front: seq<Outcome>, o: Outcome)
    ensures NoneLost(front + [o]) <==> NoneLost(front) && (o.sent ==> o.Success() && o.published)
  {
    var os := front + [o];
    assert os[|front|] == o;
    if NoneLost(os) {
      forall i | 0 <= i < |front| && front[i].sent ensures front[i].Success() && front[i].published {
        assert os[i] == front[i];
      }
    }
  }

  /** The published successes are the queued outputs, one for one, exactly when every queued output had both. */
  lemma {:induction false} SuccessesVersusSent(os: seq<Outcome>)
    ensures |Successes(os)| <= |Sent(os)|
    ensures Successes(os) == Sent(os) <==> NoneLost(os)
    ensures |Successes(os)| == |Sent(os)| ==> Successes(os) == Sent(os)
  {
    if os != [] {
      var front, o := os[..|os| - 1], os[|os| - 1];
      SuccessesVersusSent(front);
      NoneLostSnoc(front, o);
      assert os == front + [o];
      var a, b := Successes(front), Sent(front);
      if o.sent && o.Success() && o.published {
        assert Successes(os) == a + [o] && Sent(os) == b + [o];
        assert a + [o] == b + [o] <==> a == b by {
          assert (a + [o])[..|a|] == a && (b + [o])[..|b|] == b;
        }
      } else if o.sent {
        assert Successes(os) == a && Sent(os) == b + [o];
      } else {
        assert Successes(os) == a && Sent(os) == b;
      }
    }
  }

  /**
   What the two queues have carried.  The outputs are those of the Invokes, in the order of the
   calls, and what the module gave for them; every handled Invoke published at most one event, in
   the same order, with its own context; there are never more success events than outputs; and the
   i-th success is the i-th output's for all of them exactly when no output was queued for an Invoke
   that failed or whose event was lost.
   */
  ghost predicate Carried(mod: Module, calls: seq<Call>, s: State) {
    var sent := Sent(s.log.outcomes);
    && s.events == Published(s.log.outcomes)
    && Increasing(s.log.outcomes)
    && (forall o :: o in s.log.outcomes ==> Faithful(mod, calls, o))
    && Increasing(sent)
    && |s.log.delivered| + |s.outputs| == |sent|
    && (forall i :: 0 <= i < |s.log.delivered| ==> s.log.delivered[i] == OutputOf(sent[i]))
    && |SuccessEvents(s.events)| <= |s.log.delivered| + |s.outputs|
    && |SuccessEvents(s.events)| == |Successes(s.log.outcomes)|
    && (Successes(s.log.outcomes) == sent <==> forall o :: o in sent ==> o.invokeRet >= 0 && o.published)
  }

  /** Outputs and events are accounted for under every schedule. */
  lemma EventsAndOutputs(mod: Module, calls: seq<Call>, schedule: seq<Action>)
    requires Program(calls)
    ensures Carried(mod, calls, Run(mod, calls, schedule))
  {
    Reachable(mod, calls, schedule);
    var s := Run(mod, calls, schedule);
    var os, sent := s.log.outcomes, Sent(s.log.outcomes);
    MatchOrdered(calls, Handled(s), os);
    SentIsSubsequence(os);
    SuccessesAreEvents(os);
    SuccessesVersusSent(os);
    SentIsFilter(os);
    forall o | o in os ensures Faithful(mod, calls, o) {
      var i :| 0 <= i < |os| && os[i] == o;
    }
  }

  /** The module gives no output for an Invoke that failed. */
  ghost predicate NoOutputOnFailure(mod: Module) {
    forall history: seq<ModuleCall>, invoke: ModuleCall, getOutput: ModuleCall ::
      invoke.op.Invoke? && getOutput.op.GetOutput? && mod.reply(history + [invoke]).value < 0 ==>
      mod.reply(history + [invoke] + [getOutput]).value < 0
  }

  lemma SentSucceeded(mod: Module, calls: seq<Call>, o: Outcome)
    requires NoOutputOnFailure(mod) && Faithful(mod, calls, o) && o.output.value >= 0
    ensures o.invokeRet >= 0
  {
    ReceivedInvoke(mod, calls, o.call);
  }

  lemma AllSentSucceeded(mod: Module, calls: seq<Call>, s: State)
    requires NoOutputOnFailure(mod) && Shape(calls, s)
    requires InvFaithful(mod, calls, s.log.outcomes) && InvOutcomes(calls, s)
    ensures forall o :: o in s.log.outcomes && o.sent ==> o.Success()
  {
    var os := s.log.outcomes;
    forall i | 0 <= i < |os| && os[i].sent ensures os[i].Success() {
      assert Faithful(mod, calls, os[i]);
      SentSucceeded(mod, calls, os[i]);
    }
  }

  /** All events are published, but that of the Invoke the worker is at. */
  ghost predicate InvPublished(s: State) {
    forall i :: 0 <= i < |s.log.outcomes| - (if s.worker.Publishing? then 1 else 0) ==> s.log.outcomes[i].published
  }

  lemma StepKeepsPublished(mod: Module, calls: seq<Call>, s: State, a: Action)
    requires Program(calls) && Core(mod, calls, s) && InvPublished(s)
    requires a != Publish(false)
    ensures InvPublished(Step(mod, calls, s, a))
  {
    if Enabled(calls, s, a) {
      match a
      case Handle => HandleFacts(mod, calls, s);
      case Collect => CollectFacts(mod, calls, s);
      case Queue(queued) => QueueFacts(mod, calls, s, queued);
      case _ =>
    }
  }

  lemma {:induction false} ReachablePublished(mod: Module, calls: seq<Call>, schedule: seq<Action>)
    requires Program(calls) && Publish(false) !in schedule
    ensures InvPublished(Run(mod, calls, schedule))
  {
    if schedule != [] {
      var front := schedule[..|schedule| - 1];
      Reachable(mod, calls, front);
      ReachablePublished(mod, calls, front);
      StepKeepsPublished(mod, calls, Run(mod, calls, front), schedule[|schedule| - 1]);
    }
  }

  /**
   Where every queued output succeeded and all events but the last are published, only the last output's can be
   due.
   */
  lemma SuccessesBehindSent(os: seq<Outcome>, due: bool)
    requires forall i :: 0 <= i < |os| - (if due then 1 else 0) ==> os[i].published
    requires forall o :: o in os && o.sent ==> o.Success()
    ensures Successes(os) <= Sent(os) && |Sent(os)| <= |Successes(os)| + (if due then 1 else 0)
  {
    if due && os != [] {
      var front, o := os[..|os| - 1], os[|os| - 1];
      assert os == front + [o];
      SuccessesVersusSent(front);
    } else {
      SuccessesVersusSent(os);
    }
  }

  /**
   On such a module, in every reachable state of every schedule in which no event is lost, the i-th success
   event is the i-th output's; an output is there before its event, and only the last one's may be still to come,
   between the worker's Send to the output queue and its publishing.
   */
  lemma SuccessesMatchOutputs(mod: Module, calls: seq<Call>, schedule: seq<Action>)
    requires Program(calls) && NoOutputOnFailure(mod)
    requires Publish(false) !in schedule
    ensures var s := Run(mod, calls, schedule); var sent, e := Sent(s.log.outcomes), SuccessEvents(s.events);
            && |s.log.delivered| + |s.outputs| == |sent|
            && |e| <= |sent| <= |e| + (if s.worker.Publishing? then 1 else 0)
            && (forall i :: 0 <= i < |e| ==> e[i].context == sent[i].context)
  {
    Reachable(mod, calls, schedule);
    ReachablePublished(mod, calls, schedule);
    var s := Run(mod, calls, schedule);
    var os := s.log.outcomes;
    EventsAndOutputs(mod, calls, schedule);
    SuccessesAreEvents(os);
    AllSentSucceeded(mod, calls, s);
    SuccessesBehindSent(os, s.worker.Publishing?);
  }

  lemma {:induction false} SentIsFilter(os: seq<Outcome>)
    ensures forall o :: o in Sent(os) <==> o in os && o.sent
  {
    if os != [] {
      var front, o := os[..|os| - 1], os[|os| - 1];
      SentIsFilter(front);
      assert os == front + [o];
    }
  }

  // ---------- Ownership of the records ----------

  function Addrs(ms: seq<Msg>): set<Ptr> { set m | m in ms :: m.addr }

  function WorkerAddrs(s: State): set<Ptr> {
    if s.worker.Idle? || s.worker.Publishing? then {} else {s.worker.addr}
  }

  /** The records whose Invoke the module gave no output for: the worker drops them without freeing them. */
  ghost predicate LostBy(os: seq<Outcome>, k: nat) {
    exists i :: 0 <= i < |os| && os[i].call == k && os[i].output.value < 0
  }

  /** Every live record is in some place, and those in none of the queues are those of Invokes without output. */
  ghost predicate InvOwned(s: State) {
    && s.heap.Keys <= Addrs(s.requests) + WorkerAddrs(s) + Addrs(s.replies) + Addrs(s.outputs) + s.log.leaked
    && s.log.leaked <= s.heap.Keys
    && (forall p :: p in s.log.leaked ==> LostBy(s.log.outcomes, s.heap[p].birth))
    && |s.log.leaked| == |Lost(s.log.outcomes)|
  }

  function Lost(os: seq<Outcome>): seq<Outcome> {
    if os == [] then [] else
    var o := os[|os| - 1];
    Lost(os[..|os| - 1]) + if o.output.value < 0 then [o] else []
  }

  lemma LostSnoc(os: seq<Outcome>, o: Outcome)
    ensures |Lost(os + [o])| == |Lost(os)| + if o.output.value < 0 then 1 else 0
    ensures forall k :: LostBy(os, k) ==> LostBy(os + [o], k)
  {
    assert (os + [o])[..|os|] == os;
    forall k | LostBy(os, k) ensures LostBy(os + [o], k) {
      var i :| 0 <= i < |os| && os[i].call == k && os[i].output.value < 0;
      assert (os + [o])[i] == os[i];
    }
  }

  ghost predicate NoRepeat(ms: seq<Msg>) {
    forall i, j :: 0 <= i < j < |ms| ==> ms[i].addr != ms[j].addr
  }

  lemma AddrsTail(ms: seq<Msg>)
    requires ms != []
    ensures Addrs(ms) == {ms[0].addr} + Addrs(ms[1..])
  {
    assert ms == [ms[0]] + ms[1..];
  }

  lemma AddrsSnoc(ms: seq<Msg>, m: Msg)
    ensures Addrs(ms + [m]) == Addrs(ms) + {m.addr}
  {
    assert m in ms + [m] && forall x :: x in ms ==> x in ms + [m];
  }

  lemma SendKeepsOwned(calls: seq<Call>, s: State, addr: Ptr)
    requires InvOwned(s) && s.client.Ready? && s.log.issued < |calls| && addr !in s.heap
    ensures InvOwned(SendStep(calls, s, addr))
  {
    AddrsSnoc(s.requests, Msg(Id(calls[s.log.issued].op), addr));
  }

  lemma RecvKeepsOwned(mod: Module, calls: seq<Call>, s: State)
    requires Inv(mod, calls, s) && InvOwned(s) && s.client.Waiting? && s.replies != []
    ensures InvOwned(RecvStep(s))
  {
    LeakedAreInvokes(mod, calls, s);
    AddrsTail(s.replies);
  }

  lemma TakeKeepsOwned(mod: Module, calls: seq<Call>, s: State)
    requires Inv(mod, calls, s) && InvOwned(s) && s.outputs != []
    ensures InvOwned(TakeStep(s))
  {
    LeakedAreInvokes(mod, calls, s);
    AddrsTail(s.outputs);
    TakeFacts(calls, s);
  }

  /** The records in the output queue: handled Invokes with an output, no two the same. */
  lemma OutputFacts(mod: Module, calls: seq<Call>, s: State)
    requires Shape(calls, s) && InvOutcomes(calls, s) && InvOutputs(s)
    ensures forall p :: p in Addrs(s.outputs) ==>
              && p in s.heap && s.heap[p].birth < Handled(s) && calls[s.heap[p].birth].op.Invoke?
              && !LostBy(s.log.outcomes, s.heap[p].birth)
    ensures NoRepeat(s.outputs)
  {
    var os, sent, d := s.log.outcomes, Sent(s.log.outcomes), |s.log.delivered|;
    MatchOrdered(calls, Handled(s), os);
    SentIsSubsequence(os);
    forall j | 0 <= j < |s.outputs|
      ensures var p := s.outputs[j].addr;
              && p in s.heap && s.heap[p].birth < Handled(s) && calls[s.heap[p].birth].op.Invoke?
              && !LostBy(os, s.heap[p].birth) && s.heap[p].birth == sent[d + j].call
    {
      var o := sent[d + j];
      assert Carries(s.heap, s.outputs[j], o) && o in os;
      var l :| 0 <= l < |os| && os[l] == o;
      assert forall i :: 0 <= i < |os| && os[i].call == o.call ==> i == l;
    }
  }

  /** A leaked record is that of a handled Invoke whose output was not queued. */
  lemma LeakedAreInvokes(mod: Module, calls: seq<Call>, s: State)
    requires Shape(calls, s) && InvOutcomes(calls, s) && InvOwned(s) && InvOutputs(s)
    ensures forall p :: p in s.log.leaked ==>
              s.heap[p].birth < Handled(s) && calls[s.heap[p].birth].op.Invoke? && p !in Addrs(s.outputs)
  {
    OutputFacts(mod, calls, s);
    MatchOrdered(calls, Handled(s), s.log.outcomes);
  }

  lemma ReceiveKeepsOwned(s: State)
    requires InvOwned(s) && s.worker.Idle? && s.requests != []
    ensures InvOwned(ReceiveStep(s))
  {
    AddrsTail(s.requests);
  }

  lemma ReplyKeepsOwned(s: State)
    requires InvOwned(s) && s.worker.Filled?
    ensures InvOwned(ReplyStep(s))
  {
    AddrsSnoc(s.replies, Msg(s.worker.id, s.worker.addr));
  }

  /** The record that the worker holds is written, and stays the worker's. */
  ghost predicate Refilled(s: State, t: State) {
    && t.heap.Keys == s.heap.Keys && (forall p :: p in s.heap ==> t.heap[p].birth == s.heap[p].birth)
    && t.requests == s.requests && t.replies == s.replies && t.outputs == s.outputs
    && WorkerAddrs(t) == WorkerAddrs(s)
    && t.log.leaked == s.log.leaked && t.log.outcomes == s.log.outcomes
  }

  lemma RefillKeepsOwned(s: State, t: State)
    requires InvOwned(s) && Refilled(s, t)
    ensures InvOwned(t)
  {
  }

  lemma HandleMoves(mod: Module, calls: seq<Call>, s: State)
    requires Program(calls) && Core(mod, calls, s) && s.worker.Got?
    ensures Refilled(s, HandleStep(mod, s))
  {
    HandleFacts(mod, calls, s);
    AnswerKeepsBirth(mod, calls, Taken(s) - 1);
  }

  /** Collecting an output drops the record, or leaves it with the worker. */
  lemma CollectMoves(mod: Module, calls: seq<Call>, s: State)
    requires Program(calls) && Core(mod, calls, s) && s.worker.Invoked?
    ensures calls[Taken(s) - 1].args.Tensor?
    ensures var t, o := CollectStep(mod, s), OutcomeOf(mod, calls, s, false);
            if o.output.value < 0 then Dropped(s, t, s.worker.addr, o) else Refilled(s, t)
  {
    CollectFacts(mod, calls, s);
  }

  /** The record that the worker holds is dropped. */
  ghost predicate Dropped(s: State, t: State, addr: Ptr, o: Outcome) {
    && addr in s.heap && WorkerAddrs(s) == {addr} && WorkerAddrs(t) == {}
    && t.heap.Keys == s.heap.Keys && (forall p :: p in s.heap ==> t.heap[p].birth == s.heap[p].birth)
    && t.requests == s.requests && t.replies == s.replies && t.outputs == s.outputs
    && t.log.leaked == s.log.leaked + {addr} && t.log.outcomes == s.log.outcomes + [o]
    && o.output.value < 0 && o.call == s.heap[addr].birth
  }

  lemma LeakKeepsOwned(s: State, t: State, addr: Ptr, o: Outcome)
    requires InvOwned(s) && addr !in s.log.leaked && Dropped(s, t, addr, o)
    ensures InvOwned(t)
  {
    LostSnoc(s.log.outcomes, o);
    assert t.log.outcomes[|s.log.outcomes|] == o;
    assert LostBy(t.log.outcomes, s.heap[addr].birth);
  }

  /** The record that the worker holds is passed on to the output queue, or freed. */
  ghost predicate PassedOn(s: State, t: State, addr: Ptr, o: Outcome, queued: bool) {
    && addr in s.heap && WorkerAddrs(s) == {addr} && WorkerAddrs(t) == {}
    && t.heap == (if queued then s.heap else s.heap - {addr})
    && t.outputs == s.outputs + (if queued then [Msg(Id(GetOutput), addr)] else [])
    && t.requests == s.requests && t.replies == s.replies
    && t.log.leaked == s.log.leaked && t.log.outcomes == s.log.outcomes + [o] && o.output.value >= 0
  }

  lemma QueueMoves(mod: Module, calls: seq<Call>, s: State, queued: bool)
    requires Core(mod, calls, s) && s.worker.Collected?
    ensures PassedOn(s, QueueStep(s, queued), s.worker.addr, OutcomeOf(mod, calls, s, queued), queued)
  {
    QueueFacts(mod, calls, s, queued);
  }

  lemma PassOnKeepsOwned(s: State, t: State, addr: Ptr, o: Outcome, queued: bool)
    requires InvOwned(s) && addr !in s.log.leaked && PassedOn(s, t, addr, o, queued)
    ensures InvOwned(t)
  {
    AddrsSnoc(s.outputs, Msg(Id(GetOutput), addr));
    LostSnoc(s.log.outcomes, o);
  }

  /** What the worker does to the record it holds. */
  ghost predicate Moved(s: State, t: State, addr: Ptr, o: Outcome, queued: bool) {
    Refilled(s, t) || Dropped(s, t, addr, o) || PassedOn(s, t, addr, o, queued)
  }

  lemma MoveKeepsOwned(s: State, t: State, addr: Ptr, o: Outcome, queued: bool)
    requires InvOwned(s) && Moved(s, t, addr, o, queued) && (addr !in s.log.leaked || Refilled(s, t))
    ensures InvOwned(t)
  {
    if Refilled(s, t) {
      RefillKeepsOwned(s, t);
    } else if Dropped(s, t, addr, o) {
      LeakKeepsOwned(s, t, addr, o);
    } else {
      PassOnKeepsOwned(s, t, addr, o, queued);
    }
  }

  lemma WorkerMoves(mod: Module, calls: seq<Call>, s: State, a: Action) returns (o: Outcome, queued: bool)
    requires Program(calls) && Core(mod, calls, s) && Enabled(calls, s, a)
    requires a.Handle? || a.Collect? || a.Queue?
    ensures var t := Step(mod, calls, s, a);
            Moved(s, t, s.worker.addr, o, queued) && (a.Handle? ==> Refilled(s, t))
  {
    queued, o := a.Queue? && a.queued, *;
    match a
    case Handle => HandleMoves(mod, calls, s);
    case Collect =>
      CollectMoves(mod, calls, s);
      o := OutcomeOf(mod, calls, s, false);
    case Queue(_) =>
      QueueMoves(mod, calls, s, queued);
      o := OutcomeOf(mod, calls, s, queued);
  }

  /** The worker's record is not a dropped one. */
  lemma WorkerIsNotLeaked(mod: Module, calls: seq<Call>, s: State)
    requires Core(mod, calls, s) && InvOutcomes(calls, s) && InvOutputs(s) && InvOwned(s)
    ensures s.worker.Invoked? || s.worker.Collected? ==> s.worker.addr !in s.log.leaked
  {
    LeakedAreInvokes(mod, calls, s);
  }

  lemma PublishKeepsOwned(s: State, written: bool)
    requires InvOwned(s)
    requires s.worker.Publishing? && s.log.outcomes != []
    ensures InvOwned(PublishStep(s, written))
  {
    LostUpdate(s.log.outcomes, written);
    OwnedUnmoved(s, PublishStep(s, written));
  }

  /** No record moves, and what was lost still is. */
  lemma OwnedUnmoved(s: State, t: State)
    requires InvOwned(s)
    requires t.heap == s.heap && t.log.leaked == s.log.leaked && WorkerAddrs(t) == WorkerAddrs(s)
    requires t.requests == s.requests && t.replies == s.replies && t.outputs == s.outputs
    requires |Lost(t.log.outcomes)| == |Lost(s.log.outcomes)|
    requires forall k :: LostBy(s.log.outcomes, k) ==> LostBy(t.log.outcomes, k)
    ensures InvOwned(t)
  {
  }

  lemma LostUpdate(os: seq<Outcome>, written: bool)
    requires os != []
    ensures var last := |os| - 1; var os' := os[last := os[last].(published := written)];
            |Lost(os')| == |Lost(os)| && forall k :: LostBy(os, k) ==> LostBy(os', k)
  {
    var last := |os| - 1;
    var front, o' := os[..last], os[last].(published := written);
    var os' := os[last := o'];
    assert os == front + [os[last]] && os' == front + [o'];
    LostSnoc(front, os[last]);
    LostSnoc(front, o');
    forall k | LostBy(os, k) ensures LostBy(os', k) {
      var i :| 0 <= i < |os| && os[i].call == k && os[i].output.value < 0;
      assert os'[i].call == k && os'[i].output.value < 0;
    }
  }

  lemma StepKeepsOwned(mod: Module, calls: seq<Call>, s: State, a: Action)
    requires Program(calls) && Inv(mod, calls, s) && InvOwned(s) && Enabled(calls, s, a)
    ensures InvOwned(Step(mod, calls, s, a))
  {
    match a
    case Send(addr) => SendKeepsOwned(calls, s, addr);
    case RecvReply => RecvKeepsOwned(mod, calls, s);
    case TakeOutput => TakeKeepsOwned(mod, calls, s);
    case Receive => ReceiveKeepsOwned(s);
    case SendReply => ReplyKeepsOwned(s);
    case Publish(written) => PublishKeepsOwned(s, written);
    case _ =>
      var o, queued := WorkerMoves(mod, calls, s, a);
      WorkerIsNotLeaked(mod, calls, s);
      MoveKeepsOwned(s, Step(mod, calls, s, a), s.worker.addr, o, queued);
  }

  lemma {:induction false} ReachableOwned(mod: Module, calls: seq<Call>, schedule: seq<Action>)
    requires Program(calls)
    ensures InvOwned(Run(mod, calls, schedule))
  {
    if schedule != [] {
      var front, a := schedule[..|schedule| - 1], schedule[|schedule| - 1];
      Reachable(mod, calls, front);
      ReachableOwned(mod, calls, front);
      if Enabled(calls, Run(mod, calls, front), a) {
        StepKeepsOwned(mod, calls, Run(mod, calls, front), a);
      }
    }
  }

  /**
   Each live record is held in exactly one place: once in one of the three queues, or by the worker, or
   by nobody because the module gave no output for it.  Nobody holds a record that is not live, so a record is
   freed at most once, and the records that are never freed are as many as the Invokes the module gave no output for.
   */
  ghost predicate HeldOnce(s: State) {
    var q, w, r, o := Addrs(s.requests), WorkerAddrs(s), Addrs(s.replies), Addrs(s.outputs);
    && s.heap.Keys == q + w + r + o + s.log.leaked
    && q !! w !! r !! o !! s.log.leaked
    && NoRepeat(s.requests) && NoRepeat(s.replies) && NoRepeat(s.outputs)
    && |s.log.leaked| == |Lost(s.log.outcomes)|
  }

  /** Every record has one owner under every schedule. */
  lemma OneOwner(mod: Module, calls: seq<Call>, schedule: seq<Action>)
    requires Program(calls)
    ensures HeldOnce(Run(mod, calls, schedule))
  {
    Reachable(mod, calls, schedule);
    ReachableOwned(mod, calls, schedule);
    var s := Run(mod, calls, schedule);
    LeakedAreInvokes(mod, calls, s);
    PlacesAreLive(mod, calls, s);
    PlacesAreApart(mod, calls, s);
  }

  lemma RequestFacts(calls: seq<Call>, s: State)
    requires Shape(calls, s) && InvQueue(calls, s)
    ensures forall p :: p in Addrs(s.requests) ==> p in s.heap && Taken(s) <= s.heap[p].birth
    ensures NoRepeat(s.requests)
  {
    forall i | 0 <= i < |s.requests|
      ensures s.requests[i].addr in s.heap && s.heap[s.requests[i].addr].birth == Taken(s) + i
    {
      assert Holds(calls, s, s.requests[i].addr, Taken(s) + i);
    }
  }

  lemma WorkerFacts(mod: Module, calls: seq<Call>, s: State)
    requires Core(mod, calls, s)
    ensures forall p :: p in WorkerAddrs(s) ==>
              && p in s.heap && s.heap[p].birth == Taken(s) - 1
              && (calls[Taken(s) - 1].op.Invoke? ==> Handled(s) == Taken(s) - 1)
  {
    if s.worker.Filled? {
      var k := Taken(s) - 1;
      AnswerKeepsBirth(mod, calls, k);
    }
  }

  lemma PlacesAreLive(mod: Module, calls: seq<Call>, s: State)
    requires Core(mod, calls, s) && InvClient(mod, calls, s) && InvOutcomes(calls, s) && InvOutputs(s) && InvOwned(s)
    ensures Addrs(s.requests) <= s.heap.Keys && WorkerAddrs(s) <= s.heap.Keys && Addrs(s.replies) <= s.heap.Keys
    ensures Addrs(s.outputs) <= s.heap.Keys && s.log.leaked <= s.heap.Keys
    ensures NoRepeat(s.requests) && NoRepeat(s.replies) && NoRepeat(s.outputs)
  {
    RequestFacts(calls, s);
    WorkerFacts(mod, calls, s);
    OutputFacts(mod, calls, s);
  }

  lemma PlacesAreApart(mod: Module, calls: seq<Call>, s: State)
    requires Core(mod, calls, s) && InvClient(mod, calls, s) && InvOutcomes(calls, s) && InvOutputs(s) && InvOwned(s)
    ensures Addrs(s.requests) !! WorkerAddrs(s) !! Addrs(s.replies) !! Addrs(s.outputs) !! s.log.leaked
  {
    UnhandledAreApart(mod, calls, s);
    LeakedAreInvokes(mod, calls, s);
    OutputFacts(mod, calls, s);
    HandledAreApart(mod, calls, s, Addrs(s.outputs));
    HandledAreApart(mod, calls, s, s.log.leaked);
  }

  lemma UnhandledAreApart(mod: Module, calls: seq<Call>, s: State)
    requires Core(mod, calls, s) && InvClient(mod, calls, s)
    ensures Addrs(s.requests) !! WorkerAddrs(s) !! Addrs(s.replies)
  {
    RequestFacts(calls, s);
    WorkerFacts(mod, calls, s);
  }

  /** A record of an Invoke that has been handled is with the outputs or dropped, and nowhere else. */
  lemma HandledAreApart(mod: Module, calls: seq<Call>, s: State, places: set<Ptr>)
    requires Core(mod, calls, s) && InvClient(mod, calls, s)
    requires forall p :: p in places ==>
               p in s.heap && s.heap[p].birth < Handled(s) && calls[s.heap[p].birth].op.Invoke?
    ensures places !! Addrs(s.requests) && places !! WorkerAddrs(s) && places !! Addrs(s.replies)
  {
    RequestFacts(calls, s);
    WorkerFacts(mod, calls, s);
  }

  // ---------- A failed Invoke with an output ----------

  /**
   An output can be queued although its event reports a failure: any module whose first Invoke
   fails and whose GetOutput then succeeds, once the worker has finished it.
   */
  lemma {:induction false} OutputWithoutSuccess(mod: Module, calls: seq<Call>, addr: Ptr)
    requires |calls| == 1 && calls[0].op.Invoke? && calls[0].args.Tensor?
    requires ReplyTo(mod, calls, 0).value < 0 && OutputReply(mod, calls, 0).value >= 0
    ensures var s := Run(mod, calls, [Send(addr), Receive] + [Handle] + [Collect] + [Queue(true)] + [Publish(true)]);
            |s.outputs| == 1 && s.events == [Event(false, calls[0].args.context)] && !s.fault
  {
    var s := FirstInvokeQueued(mod, calls, addr);
    RunSnoc(mod, calls, [Send(addr), Receive] + [Handle] + [Collect] + [Queue(true)], Publish(true));
  }

  lemma {:induction false} FirstInvokeQueued(mod: Module, calls: seq<Call>, addr: Ptr) returns (s: State)
    requires |calls| == 1 && calls[0].op.Invoke? && calls[0].args.Tensor?
    requires ReplyTo(mod, calls, 0).value < 0 && OutputReply(mod, calls, 0).value >= 0
    ensures s == Run(mod, calls, [Send(addr), Receive] + [Handle] + [Collect] + [Queue(true)])
    ensures s.worker == Publishing(false, calls[0].args.context) && |s.outputs| == 1 && !s.fault
    ensures |s.log.outcomes| == 1 && s.events == []
  {
    var s3 := FirstInvokeReceived(mod, calls, addr);
    RunSnoc(mod, calls, [Send(addr), Receive] + [Handle], Collect);
    RunSnoc(mod, calls, [Send(addr), Receive] + [Handle] + [Collect], Queue(true));
    assert s3.history == Received(mod, calls, 0) + [FirstCall(mod, calls, 0)];
    ReceivedInvoke(mod, calls, 0);
    var s4 := CollectStep(mod, s3);
    assert s4.worker ==
           Collected(addr, calls[0].args.context, ReplyTo(mod, calls, 0).value, OutputReply(mod, calls, 0));
    s := QueueStep(s4, true);
  }

  lemma {:induction false} FirstInvokeReceived(mod: Module, calls: seq<Call>, addr: Ptr) returns (s: State)
    requires |calls| == 1 && calls[0].op.Invoke? && calls[0].args.Tensor?
    ensures s == Run(mod, calls, [Send(addr), Receive] + [Handle])
    ensures s == Init().(worker := Invoked(addr, calls[0].args.context, ReplyTo(mod, calls, 0).value),
                         history := [FirstCall(mod, calls, 0)], heap := map[addr := Rec(calls[0].args, Value(0), 0)],
                         log := Init().log.(issued := 1, results := [Seen(0, calls[0].out)]))
  {
    RunSnoc(mod, calls, [], Send(addr));
    assert [] + [Send(addr)] == [Send(addr)];
    RunSnoc(mod, calls, [Send(addr)], Receive);
    assert [Send(addr)] + [Receive] == [Send(addr), Receive];
    RunSnoc(mod, calls, [Send(addr), Receive], Handle);
    s := Run(mod, calls, [Send(addr), Receive] + [Handle]);
    assert Received(mod, calls, 0) == [] && [] + [FirstCall(mod, calls, 0)] == [FirstCall(mod, calls, 0)];
  }

  lemma RunSnoc(mod: Module, calls: seq<Call>, schedule: seq<Action>, a: Action)
    ensures Run(mod, calls, schedule + [a]) == Step(mod, calls, Run(mod, calls, schedule), a)
  {
    assert (schedule + [a])[..|schedule|] == schedule;
  }
}
