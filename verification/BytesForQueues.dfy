/**
 The other half of the emulation over byte streams: whatever it does over queues it can do over streams, by
 whole writes and reads.  Together with the first half, the states it reaches are the same over both.
 */
module BytesForQueues {
  import opened Prelude
  import opened AsyncRuntime
  import opened AsyncInvariant
  import opened AsyncTheorems
  import opened AsyncOverBytes
  import CommandStream

  const WHOLE := CommandStream.ADDRESS_SIZE

  // ---------- A channel between its Sends and Recvs ----------

  predicate Quiet(c: Stream) { c.sender.NotSending? && c.receiver.NotReceiving? }

  /** A record is allocated and its address written as a whole. */
  lemma SentWhole(c: Stream, cmd: CommandStream.Command, a: CommandStream.Address)
    requires CommandStream.Inv(c) && Quiet(c) && CommandStream.Representable(a) && a !in c.heap
    ensures var t := CommandStream.Step(c, CommandStream.Allocate(cmd, a));
            && CommandStream.Enabled(c, CommandStream.Allocate(cmd, a))
            && CommandStream.Enabled(t, CommandStream.Write(WHOLE)) && CommandStream.Enabled(t, CommandStream.Write(-1))
            && SendProgress(t, CommandStream.Write(WHOLE)).Completes? && SendProgress(t, CommandStream.Write(-1)).Ends?
            && Quiet(CommandStream.Step(t, CommandStream.Write(WHOLE)))
            && Quiet(CommandStream.Step(t, CommandStream.Write(-1)))
  {
    var t := CommandStream.Step(c, CommandStream.Allocate(cmd, a));
    CommandStream.SendWrites(t, WHOLE);
    CommandStream.SendWrites(t, -1);
  }

  /** An address is read as a whole. */
  lemma ReceivedWhole(c: Stream)
    requires CommandStream.Inv(c) && Quiet(c) && Msgs(c) != []
    ensures var read := CommandStream.Read(WHOLE);
            && CommandStream.Enabled(c, read) && Arrived(c, read).Some? && Quiet(CommandStream.Step(c, read))
  {
    CommandStream.CommandsLength(c.heap, c.inflight);
    assert |c.inflight| == |Msgs(c)|;
    assert CommandStream.Taken(c) == [] && CommandStream.Given(c) == [];
    assert [] + c.stream == c.stream && CommandStream.EncodeAll(c.inflight) + [] == CommandStream.EncodeAll(c.inflight);
    CommandStream.RecvReads(c, WHOLE);
    assert [] + c.stream[..WHOLE] == c.stream[..WHOLE];
    CommandStream.WholeReadMoves(c, WHOLE, CommandStream.Step(c, CommandStream.Read(WHOLE)));
  }

  // ---------- An address for one more record ----------

  lemma {:induction false} Unused(used: set<nat>, k: nat) returns (a: nat)
    requires |used| < k
    ensures 0 < a <= k && a !in used
  {
    if k in used {
      a := Unused(used - {k}, k - 1);
    } else {
      a := k;
    }
  }

  function Elements(s: seq<nat>): set<nat> { set a | a in s }

  lemma {:induction false} FewerInSet(s: seq<nat>)
    ensures |Elements(s)| <= |s|
  {
    if s != [] {
      var front, last := s[..|s| - 1], s[|s| - 1];
      FewerInSet(front);
      assert s == front + [last];
      assert Elements(s) == Elements(front) + {last};
    }
  }

  lemma FreshAddress(c: Stream, k: nat) returns (a: CommandStream.Address)
    requires CommandStream.Inv(c) && Quiet(c) && |Msgs(c)| <= k && k + 1 < CommandStream.Limit(WHOLE)
    ensures CommandStream.Representable(a) && a !in c.heap
  {
    CommandStream.CommandsLength(c.heap, c.inflight);
    FewerInSet(c.inflight);
    assert c.heap.Keys == Elements(c.inflight);
    a := Unused(c.heap.Keys, k + 1);
  }

  lemma {:induction false} SentAreFewer(os: seq<Outcome>)
    ensures |Sent(os)| <= |os|
  {
    if os != [] {
      SentAreFewer(os[..|os| - 1]);
    }
  }

  lemma {:induction false} InvocationsAreFewer(calls: seq<Call>, n: nat)
    requires n <= |calls|
    ensures |Invocations(calls, n)| <= n
  {
    if n > 0 {
      InvocationsAreFewer(calls, n - 1);
    }
  }

  /** No channel ever has more under way than there are calls, and one. */
  lemma UnderWay(mod: Module, calls: seq<Call>, s: State)
    requires Inv(mod, calls, s)
    ensures |s.requests| <= |calls| && |s.replies| <= |calls| + 1 && |s.outputs| <= |calls|
  {
    SentAreFewer(s.log.outcomes);
    InvocationsAreFewer(calls, Handled(s));
  }

  // ---------- Every step over queues, by bytes ----------

  ghost predicate AtRest(calls: seq<Call>, n: Net) {
    NetInv(calls, n) && n.posting.None? && Quiet(n.req) && Quiet(n.rep) && Quiet(n.out)
  }

  /** The steps, one or two, lose nothing and lead to a state at rest that is `s` over queues. */
  ghost predicate Leads(mod: Module, calls: seq<Call>, n: Net, acts: seq<NetAction>, s: State) {
    && 1 <= |acts| <= 2 && !Loses(calls, n, acts[0])
    && var u := NetStep(mod, calls, n, acts[0]);
       if |acts| == 1 then AtRest(calls, u) && Abs(u) == s
       else
         && !Loses(calls, u, acts[1])
         && AtRest(calls, NetStep(mod, calls, u, acts[1])) && Abs(NetStep(mod, calls, u, acts[1])) == s
  }

  lemma SendByBytes(mod: Module, calls: seq<Call>, n: Net, p: Ptr, cmd: CommandStream.Address)
    requires AtRest(calls, n) && Enabled(calls, Abs(n), Send(p))
    requires CommandStream.Representable(cmd) && cmd !in n.req.heap
    ensures Leads(mod, calls, n, [Begin(p, cmd), SendRequest(CommandStream.Write(WHOLE))],
                  Step(mod, calls, Abs(n), Send(p)))
  {
    SentWhole(n.req, CommandStream.Command(Id(calls[n.emu.log.issued].op), p), cmd);
    BeginRefines(mod, calls, n, Begin(p, cmd));
    var u := NetStep(mod, calls, n, Begin(p, cmd));
    assert u.rep == n.rep && u.out == n.out && u.posting == Some(p);
    SendEnds(mod, calls, u);
  }

  lemma SendEnds(mod: Module, calls: seq<Call>, u: Net)
    requires NetInv(calls, u) && u.posting.Some? && u.emu.log.issued < |calls| && Quiet(u.rep) && Quiet(u.out)
    requires var write := CommandStream.Write(WHOLE);
             CommandStream.Enabled(u.req, write) && SendProgress(u.req, write).Completes? &&
             Quiet(CommandStream.Step(u.req, write))
    ensures var a, t := SendRequest(CommandStream.Write(WHOLE)), SendRequestStep(calls, u, CommandStream.Write(WHOLE));
            && NetStep(mod, calls, u, a) == t && !Loses(calls, u, a)
            && AtRest(calls, t) && Abs(t) == Step(mod, calls, Abs(u), Send(u.posting.value))
  {
    SendRequestRefines(mod, calls, u, CommandStream.Write(WHOLE));
  }

  lemma ReceiveByBytes(mod: Module, calls: seq<Call>, n: Net)
    requires AtRest(calls, n) && Enabled(calls, Abs(n), Receive)
    ensures Leads(mod, calls, n, [RecvRequest(CommandStream.Read(WHOLE))], Step(mod, calls, Abs(n), Receive))
  {
    ReceivedWhole(n.req);
    RecvRequestRefines(mod, calls, n, CommandStream.Read(WHOLE));
  }

  lemma ReplyByBytes(mod: Module, calls: seq<Call>, n: Net, cmd: CommandStream.Address)
    requires AtRest(calls, n) && Enabled(calls, Abs(n), SendReply)
    requires CommandStream.Representable(cmd) && cmd !in n.rep.heap
    ensures Leads(mod, calls, n, [BeginReply(cmd), SendAnswer(CommandStream.Write(WHOLE))],
                  Step(mod, calls, Abs(n), SendReply))
  {
    SentWhole(n.rep, CommandStream.Command(n.emu.worker.id, n.emu.worker.addr), cmd);
    BeginReplyRefines(mod, calls, n, BeginReply(cmd));
    var u := NetStep(mod, calls, n, BeginReply(cmd));
    assert u == n.(rep := u.rep);
    ReplyEnds(mod, calls, u);
  }

  lemma ReplyEnds(mod: Module, calls: seq<Call>, u: Net)
    requires NetInv(calls, u) && u.emu.worker.Filled? && u.posting.None? && Quiet(u.req) && Quiet(u.out)
    requires var write := CommandStream.Write(WHOLE);
             CommandStream.Enabled(u.rep, write) && SendProgress(u.rep, write).Completes? &&
             Quiet(CommandStream.Step(u.rep, write))
    ensures var a, t := SendAnswer(CommandStream.Write(WHOLE)), SendAnswerStep(u, CommandStream.Write(WHOLE));
            && NetStep(mod, calls, u, a) == t && !Loses(calls, u, a)
            && AtRest(calls, t) && Abs(t) == Step(mod, calls, Abs(u), SendReply)
  {
    SendAnswerRefines(mod, calls, u, CommandStream.Write(WHOLE));
  }

  lemma RecvReplyByBytes(mod: Module, calls: seq<Call>, n: Net)
    requires AtRest(calls, n) && Enabled(calls, Abs(n), RecvReply)
    ensures Leads(mod, calls, n, [RecvAnswer(CommandStream.Read(WHOLE))], Step(mod, calls, Abs(n), RecvReply))
  {
    ReceivedWhole(n.rep);
    RecvAnswerRefines(mod, calls, n, CommandStream.Read(WHOLE));
  }

  lemma QueueByBytes(mod: Module, calls: seq<Call>, n: Net, queued: bool, cmd: CommandStream.Address)
    requires Program(calls) && AtRest(calls, n) && Core(mod, calls, Abs(n)) && Enabled(calls, Abs(n), Queue(queued))
    requires CommandStream.Representable(cmd) && cmd !in n.out.heap
    ensures Leads(mod, calls, n, [BeginOutput(cmd), SendOutput(CommandStream.Write(if queued then WHOLE else -1))],
                  Step(mod, calls, Abs(n), Queue(queued)))
  {
    SentWhole(n.out, CommandStream.Command(Id(GetOutput), n.emu.worker.addr), cmd);
    BeginOutputRefines(mod, calls, n, BeginOutput(cmd));
    var u := NetStep(mod, calls, n, BeginOutput(cmd));
    assert u == n.(out := u.out);
    WorkerHolds(mod, calls, Abs(n));
    OutputEnds(mod, calls, u, queued);
  }

  lemma OutputEnds(mod: Module, calls: seq<Call>, u: Net, queued: bool)
    requires NetInv(calls, u) && u.emu.worker.Collected? && u.posting.None? && Quiet(u.req) && Quiet(u.rep)
    requires u.emu.worker.addr in Abs(u).heap && u.emu.heap[u.emu.worker.addr].args.Tensor?
    requires var write := CommandStream.Write(if queued then WHOLE else -1);
             && CommandStream.Enabled(u.out, write) && Quiet(CommandStream.Step(u.out, write))
             && (if queued then SendProgress(u.out, write).Completes? else SendProgress(u.out, write).Ends?)
    ensures var write := CommandStream.Write(if queued then WHOLE else -1);
            && NetStep(mod, calls, u, SendOutput(write)) == SendOutputStep(u, write)
            && !Loses(calls, u, SendOutput(write)) && AtRest(calls, SendOutputStep(u, write))
            && Abs(SendOutputStep(u, write)) == Step(mod, calls, Abs(u), Queue(queued))
  {
    SendOutputRefines(mod, calls, u, CommandStream.Write(if queued then WHOLE else -1));
  }

  lemma TakeByBytes(mod: Module, calls: seq<Call>, n: Net)
    requires AtRest(calls, n) && Inv(mod, calls, Abs(n)) && Enabled(calls, Abs(n), TakeOutput)
    ensures Leads(mod, calls, n, [RecvOutput(CommandStream.Read(WHOLE))], Step(mod, calls, Abs(n), TakeOutput))
  {
    ReceivedWhole(n.out);
    TakeFacts(calls, Abs(n));
    RecvOutputRefines(mod, calls, n, CommandStream.Read(WHOLE));
  }

  lemma LeadsOne(mod: Module, calls: seq<Call>, n: Net, a: NetAction, t: Net, s: State)
    requires NetStep(mod, calls, n, a) == t && !Loses(calls, n, a) && AtRest(calls, t) && Abs(t) == s
    ensures Leads(mod, calls, n, [a], s)
  {
  }

  lemma ModuleSteps(mod: Module, calls: seq<Call>, n: Net)
    ensures !Loses(calls, n, HandleRequest) && !Loses(calls, n, CollectAnswer)
    ensures n.emu.worker.Got? ==> NetStep(mod, calls, n, HandleRequest) == n.(emu := HandleStep(mod, n.emu))
    ensures n.emu.worker.Invoked? ==> NetStep(mod, calls, n, CollectAnswer) == n.(emu := CollectStep(mod, n.emu))
  {
  }

  lemma HandleByBytes(mod: Module, calls: seq<Call>, n: Net)
    requires AtRest(calls, n) && n.emu.worker.Got?
    requires n.emu.worker.addr in Abs(n).heap && 0 <= n.emu.worker.id < ID_LAST
    ensures Leads(mod, calls, n, [HandleRequest], Step(mod, calls, Abs(n), Handle))
  {
    HandleRefines(mod, calls, n);
    ModuleSteps(mod, calls, n);
    LeadsOne(mod, calls, n, HandleRequest, n.(emu := HandleStep(mod, n.emu)), Step(mod, calls, Abs(n), Handle));
  }

  lemma CollectByBytes(mod: Module, calls: seq<Call>, n: Net)
    requires AtRest(calls, n) && n.emu.worker.Invoked? && n.emu.worker.addr in Abs(n).heap
    ensures Leads(mod, calls, n, [CollectAnswer], Step(mod, calls, Abs(n), Collect))
  {
    CollectRefines(mod, calls, n);
    ModuleSteps(mod, calls, n);
    LeadsOne(mod, calls, n, CollectAnswer, n.(emu := CollectStep(mod, n.emu)), Step(mod, calls, Abs(n), Collect));
  }

  lemma PublishByBytes(mod: Module, calls: seq<Call>, n: Net, written: bool)
    requires AtRest(calls, n) && Enabled(calls, Abs(n), Publish(written))
    ensures Leads(mod, calls, n, [PublishAnswer(written)], Step(mod, calls, Abs(n), Publish(written)))
  {
    PublishRefines(mod, calls, n, written);
  }

  lemma StepByBytes(mod: Module, calls: seq<Call>, n: Net, b: Action) returns (acts: seq<NetAction>)
    requires Program(calls) && AtRest(calls, n) && Inv(mod, calls, Abs(n)) && Enabled(calls, Abs(n), b)
    requires |calls| + 2 < CommandStream.Limit(WHOLE)
    ensures Leads(mod, calls, n, acts, Step(mod, calls, Abs(n), b))
  {
    UnderWay(mod, calls, Abs(n));
    match b
    case Send(p) =>
      var cmd := FreshAddress(n.req, |calls| + 1);
      SendByBytes(mod, calls, n, p, cmd);
      acts := [Begin(p, cmd), SendRequest(CommandStream.Write(WHOLE))];
    case Receive =>
      ReceiveByBytes(mod, calls, n);
      acts := [RecvRequest(CommandStream.Read(WHOLE))];
    case SendReply =>
      var cmd := FreshAddress(n.rep, |calls| + 1);
      ReplyByBytes(mod, calls, n, cmd);
      acts := [BeginReply(cmd), SendAnswer(CommandStream.Write(WHOLE))];
    case RecvReply =>
      RecvReplyByBytes(mod, calls, n);
      acts := [RecvAnswer(CommandStream.Read(WHOLE))];
    case Queue(queued) =>
      var cmd := FreshAddress(n.out, |calls| + 1);
      QueueByBytes(mod, calls, n, queued, cmd);
      acts := [BeginOutput(cmd), SendOutput(CommandStream.Write(if queued then WHOLE else -1))];
    case TakeOutput =>
      TakeByBytes(mod, calls, n);
      acts := [RecvOutput(CommandStream.Read(WHOLE))];
    case Handle =>
      WorkerHolds(mod, calls, Abs(n));
      HandleByBytes(mod, calls, n);
      acts := [HandleRequest];
    case Collect =>
      WorkerHolds(mod, calls, Abs(n));
      CollectByBytes(mod, calls, n);
      acts := [CollectAnswer];
    case Publish(written) =>
      PublishByBytes(mod, calls, n, written);
      acts := [PublishAnswer(written)];
  }

  // ---------- Every run over queues ----------

  lemma LosslessSnoc(mod: Module, calls: seq<Call>, front: seq<NetAction>, a: NetAction)
    requires Lossless(mod, calls, front) && !Loses(calls, RunNet(mod, calls, front), a)
    ensures Lossless(mod, calls, front + [a])
    ensures RunNet(mod, calls, front + [a]) == NetStep(mod, calls, RunNet(mod, calls, front), a)
  {
    var all := front + [a];
    assert all[..|front|] == front;
    forall k | 0 <= k < |all| ensures !Loses(calls, RunNet(mod, calls, all[..k]), all[k]) {
      if k < |front| {
        assert all[..k] == front[..k] && all[k] == front[k];
      }
    }
  }

  lemma RunLeads(mod: Module, calls: seq<Call>, front: seq<NetAction>, acts: seq<NetAction>, s: State)
      returns (schedule: seq<NetAction>)
    requires Lossless(mod, calls, front) && Leads(mod, calls, RunNet(mod, calls, front), acts, s)
    ensures Lossless(mod, calls, schedule)
    ensures AtRest(calls, RunNet(mod, calls, schedule)) && Abs(RunNet(mod, calls, schedule)) == s
  {
    LosslessSnoc(mod, calls, front, acts[0]);
    schedule := front + [acts[0]];
    if |acts| == 2 {
      LosslessSnoc(mod, calls, schedule, acts[1]);
      schedule := schedule + [acts[1]];
    }
  }

  /**
   Every run over queues is a run over byte streams that loses nothing, of any program with fewer calls than there
   are addresses.
   */
  lemma {:induction false} QueuesRefineBytes(mod: Module, calls: seq<Call>, queued: seq<Action>)
      returns (schedule: seq<NetAction>)
    requires Program(calls) && |calls| + 2 < CommandStream.Limit(WHOLE)
    ensures Lossless(mod, calls, schedule)
    ensures AtRest(calls, RunNet(mod, calls, schedule))
    ensures Abs(RunNet(mod, calls, schedule)) == Run(mod, calls, queued)
  {
    if queued == [] {
      schedule := [];
      NothingSent(calls);
    } else {
      var front, b := queued[..|queued| - 1], queued[|queued| - 1];
      schedule := QueuesRefineBytes(mod, calls, front);
      var n := RunNet(mod, calls, schedule);
      if Enabled(calls, Abs(n), b) {
        Reachable(mod, calls, front);
        var acts := StepByBytes(mod, calls, n, b);
        schedule := RunLeads(mod, calls, schedule, acts, Step(mod, calls, Abs(n), b));
      }
    }
  }
}
