/**
 The asynchronous emulation over its real channels: the requests and replies on the two
 directions of a socket pair, the outputs on a pipe, each a stream of bytes that is written
 and read in parts, by separate threads.

 Every run in which no Send or Recv that the emulation relies on fails is, seen from its
 records, threads and commands under way, a run of the emulation over queues; what is proved
 of every schedule there holds here for every fragmentation and interleaving.
 */
module AsyncOverBytes {
  import opened Prelude
  import opened AsyncRuntime
  import opened AsyncInvariant
  import opened AsyncTheorems
  import opened AsyncDirect
  import CommandStream

  type Stream = CommandStream.State
  type IO = CommandStream.Action

  /** The threads, records and module of the emulation, whose own queues stay empty, and its three channels. */
  datatype Net = Net(
    emu: State,
    req: Stream,
    rep: Stream,
    out: Stream,
    posting: Option<Ptr>  // the record of the call that the client is sending
  )

  function InitNet(): Net { Net(Init(), CommandStream.Init(), CommandStream.Init(), CommandStream.Init(), None) }

  predicate IsWrite(io: IO) { io.Write? || io.Rewrite? }

  predicate IsRead(io: IO) { io.Read? || io.Reread? }

  datatype NetAction =
    | Begin(addr: Ptr, cmd: int)    // client: the record is filled and Send entered, `cmd` its command record
    | SendRequest(io: IO)           // client: a write of that Send
    | RecvRequest(io: IO)           // worker: a read of Main's Recv
    | HandleRequest
    | BeginReply(cmd: int)
    | SendAnswer(io: IO)            // worker: a write of the handler's Send
    | RecvAnswer(io: IO)            // client: a read of the call's Recv
    | CollectAnswer
    | BeginOutput(cmd: int)
    | SendOutput(io: IO)            // worker: a write of the Send to the output pipe
    | RecvOutput(io: IO)            // client: a read of GetOutput's Recv
    | PublishAnswer(written: bool)

  function MsgOf(c: CommandStream.Command): Msg { Msg(c.id, c.data) }

  function Allocation(id: int, addr: Ptr, cmd: int): IO
    requires cmd >= 0
  {
    CommandStream.Allocate(CommandStream.Command(id, addr), cmd)
  }

  // ---------- Steps ----------

  predicate CanAllocate(c: Stream, id: int, addr: Ptr, cmd: int) {
    cmd >= 0 && CommandStream.Enabled(c, Allocation(id, addr, cmd))
  }

  predicate NetEnabled(calls: seq<Call>, n: Net, a: NetAction) {
    match a
    case Begin(addr, cmd) =>
      && n.emu.client.Ready? && n.posting.None? && n.emu.log.issued < |calls| && addr !in n.emu.heap
      && CanAllocate(n.req, Id(calls[n.emu.log.issued].op), addr, cmd)
    case SendRequest(io) =>
      n.posting.Some? && n.emu.log.issued < |calls| && IsWrite(io) && CommandStream.Enabled(n.req, io)
    case RecvRequest(io) => n.emu.worker.Idle? && IsRead(io) && CommandStream.Enabled(n.req, io)
    case HandleRequest => n.emu.worker.Got?
    case BeginReply(cmd) => n.emu.worker.Filled? && CanAllocate(n.rep, n.emu.worker.id, n.emu.worker.addr, cmd)
    case SendAnswer(io) => n.emu.worker.Filled? && IsWrite(io) && CommandStream.Enabled(n.rep, io)
    case RecvAnswer(io) => n.emu.client.Waiting? && IsRead(io) && CommandStream.Enabled(n.rep, io)
    case CollectAnswer => n.emu.worker.Invoked?
    case BeginOutput(cmd) => n.emu.worker.Collected? && CanAllocate(n.out, Id(GetOutput), n.emu.worker.addr, cmd)
    case SendOutput(io) => n.emu.worker.Collected? && IsWrite(io) && CommandStream.Enabled(n.out, io)
    case RecvOutput(io) => IsRead(io) && CommandStream.Enabled(n.out, io)
    case PublishAnswer(_) => n.emu.worker.Publishing? && n.emu.log.outcomes != []
  }

  /** The client has filled the record of its next call. */
  function Prepared(calls: seq<Call>, e: State, addr: Ptr): State
    requires e.log.issued < |calls|
  {
    e.(heap := e.heap[addr := Rec(calls[e.log.issued].args, Value(0), e.log.issued)])
  }

  /** Its Send has returned 0. */
  function Requested(calls: seq<Call>, e: State, addr: Ptr): State
    requires e.log.issued < |calls|
  {
    var c := calls[e.log.issued];
    e.(log := Posted(e.log, c), client := if c.op.Invoke? then Ready else Waiting(c.op, addr, c.out))
  }

  /** The write leaves its Send to go on, completes it, or ends it with an error. */
  datatype Progress = GoesOn | Completes | Ends

  function SendProgress(c: Stream, io: IO): Progress {
    if CommandStream.Fails(c, io) then Ends
    else if CommandStream.Step(c, io).sender.NotSending? then Completes
    else GoesOn
  }

  /** What a read that completes its Recv has received. */
  function Arrived(c: Stream, io: IO): Option<Msg> {
    var t := CommandStream.Step(c, io);
    if |t.received| > |c.received| then Some(MsgOf(t.received[|t.received| - 1])) else None
  }

  function SendRequestStep(calls: seq<Call>, n: Net, io: IO): Net
    requires n.posting.Some? && n.emu.log.issued < |calls|
  {
    var req, addr := CommandStream.Step(n.req, io), n.posting.value;
    match SendProgress(n.req, io)
    case GoesOn => n.(req := req)
    case Completes => n.(req := req, posting := None, emu := Requested(calls, n.emu, addr))
    case Ends => n.(req := req, posting := None, emu := n.emu.(heap := n.emu.heap - {addr}))
  }

  function RecvRequestStep(n: Net, io: IO): Net {
    var req := CommandStream.Step(n.req, io);
    var emu := match Arrived(n.req, io) case None => n.emu case Some(m) => n.emu.(worker := Got(m.id, m.addr));
    n.(req := req, emu := emu)
  }

  function SendAnswerStep(n: Net, io: IO): Net {
    var rep := CommandStream.Step(n.rep, io);
    match SendProgress(n.rep, io)
    case GoesOn => n.(rep := rep)
    case _ => n.(rep := rep, emu := n.emu.(worker := Idle))
  }

  function RecvAnswerStep(n: Net, io: IO): Net
    requires n.emu.client.Waiting?
  {
    var rep := CommandStream.Step(n.rep, io);
    var emu := match Arrived(n.rep, io) case None => n.emu case Some(m) => TakeReply(n.emu, m);
    n.(rep := rep, emu := emu)
  }

  function SendOutputStep(n: Net, io: IO): Net
    requires n.emu.worker.Collected?
  {
    var out := CommandStream.Step(n.out, io);
    match SendProgress(n.out, io)
    case GoesOn => n.(out := out)
    case Completes => n.(out := out, emu := QueueStep(n.emu, true).(outputs := []))
    case Ends => n.(out := out, emu := QueueStep(n.emu, false))
  }

  function RecvOutputStep(n: Net, io: IO): Net {
    var out := CommandStream.Step(n.out, io);
    var emu := match Arrived(n.out, io) case None => n.emu case Some(m) => TakeRecord(n.emu, m);
    n.(out := out, emu := emu)
  }

  function NetStep(mod: Module, calls: seq<Call>, n: Net, a: NetAction): Net {
    if !NetEnabled(calls, n, a) then n else
    match a
    case Begin(addr, cmd) =>
      n.(emu := Prepared(calls, n.emu, addr), posting := Some(addr),
         req := CommandStream.Step(n.req, Allocation(Id(calls[n.emu.log.issued].op), addr, cmd)))
    case SendRequest(io) => SendRequestStep(calls, n, io)
    case RecvRequest(io) => RecvRequestStep(n, io)
    case HandleRequest => n.(emu := HandleStep(mod, n.emu))
    case BeginReply(cmd) => n.(rep := CommandStream.Step(n.rep, Allocation(n.emu.worker.id, n.emu.worker.addr, cmd)))
    case SendAnswer(io) => SendAnswerStep(n, io)
    case RecvAnswer(io) => RecvAnswerStep(n, io)
    case CollectAnswer => n.(emu := CollectStep(mod, n.emu))
    case BeginOutput(cmd) => n.(out := CommandStream.Step(n.out, Allocation(Id(GetOutput), n.emu.worker.addr, cmd)))
    case SendOutput(io) => SendOutputStep(n, io)
    case RecvOutput(io) => RecvOutputStep(n, io)
    case PublishAnswer(written) => n.(emu := PublishStep(n.emu, written))
  }

  function RunNet(mod: Module, calls: seq<Call>, schedule: seq<NetAction>): Net {
    if schedule == [] then InitNet()
    else NetStep(mod, calls, RunNet(mod, calls, schedule[..|schedule| - 1]), schedule[|schedule| - 1])
  }

  /** Every allocation, write and read of a step is made on its own channel, and no other channel moves. */
  lemma ChannelsMove(mod: Module, calls: seq<Call>, n: Net, a: NetAction)
    requires NetEnabled(calls, n, a)
    ensures var t := NetStep(mod, calls, n, a);
            && (a.SendRequest? || a.RecvRequest? ==> t.req == CommandStream.Step(n.req, a.io))
            && (a.SendAnswer? || a.RecvAnswer? ==> t.rep == CommandStream.Step(n.rep, a.io))
            && (a.SendOutput? || a.RecvOutput? ==> t.out == CommandStream.Step(n.out, a.io))
            && (a.Begin? ==>
                  var cmd := CommandStream.Command(Id(calls[n.emu.log.issued].op), a.addr);
                  t.req == CommandStream.Step(n.req, CommandStream.Allocate(cmd, a.cmd)))
            && (a.BeginReply? ==>
                  var cmd := CommandStream.Command(n.emu.worker.id, n.emu.worker.addr);
                  t.rep == CommandStream.Step(n.rep, CommandStream.Allocate(cmd, a.cmd)))
            && (a.BeginOutput? ==>
                  var cmd := CommandStream.Command(Id(GetOutput), n.emu.worker.addr);
                  t.out == CommandStream.Step(n.out, CommandStream.Allocate(cmd, a.cmd)))
            && (a.Begin? || a.SendRequest? || a.RecvRequest? || t.req == n.req)
            && (a.BeginReply? || a.SendAnswer? || a.RecvAnswer? || t.rep == n.rep)
            && (a.BeginOutput? || a.SendOutput? || a.RecvOutput? || t.out == n.out)
  {
  }

  /**
   The Send of a request or of a reply fails, or the Recv of a reply does, or some call gives up inside an address.
   The other Recvs may fail and be repeated, and the Send of an output may.
   */
  predicate Loses(calls: seq<Call>, n: Net, a: NetAction) {
    && NetEnabled(calls, n, a)
    && match a
       case SendRequest(io) => CommandStream.Fails(n.req, io)
       case SendAnswer(io) => CommandStream.Fails(n.rep, io)
       case RecvAnswer(io) => CommandStream.Fails(n.rep, io)
       case RecvRequest(io) => CommandStream.GivesUpInside(n.req, io)
       case SendOutput(io) => CommandStream.GivesUpInside(n.out, io)
       case RecvOutput(io) => CommandStream.GivesUpInside(n.out, io)
       case _ => false
  }

  predicate Lossless(mod: Module, calls: seq<Call>, schedule: seq<NetAction>) {
    forall k :: 0 <= k < |schedule| ==> !Loses(calls, RunNet(mod, calls, schedule[..k]), schedule[k])
  }

  // ---------- The emulation over queues that it is ----------

  /** The commands under way in a channel. */
  function Msgs(c: Stream): (ms: seq<Msg>)
    ensures |ms| == |CommandStream.Waiting(c)|
  {
    var waiting := CommandStream.Waiting(c);
    seq(|waiting|, i requires 0 <= i < |waiting| => MsgOf(waiting[i]))
  }

  /** The record that is filled, but whose address no other thread has yet. */
  function Hidden(n: Net): set<Ptr> { if n.posting.Some? then {n.posting.value} else {} }

  function SeenOver(e: State, requests: seq<Msg>, replies: seq<Msg>, outputs: seq<Msg>, hidden: set<Ptr>): State {
    e.(requests := requests, replies := replies, outputs := outputs, heap := e.heap - hidden)
  }

  function Abs(n: Net): State { SeenOver(n.emu, Msgs(n.req), Msgs(n.rep), Msgs(n.out), Hidden(n)) }

  /** What is being sent on a channel, and by whom. */
  ghost predicate Sends(c: Stream, sending: bool, id: int, addr: Ptr) {
    && CommandStream.Inv(c)
    && (!c.sender.NotSending? ==> sending && CommandStream.BeingSent(c) == CommandStream.Command(id, addr))
  }

  ghost predicate InvPosting(calls: seq<Call>, n: Net) {
    && (n.posting.Some? <==> !n.req.sender.NotSending?)
    && (n.posting.Some? ==>
          var k, p := n.emu.log.issued, n.posting.value;
          && n.emu.client.Ready? && k < |calls|
          && p in n.emu.heap && n.emu.heap[p] == Rec(calls[k].args, Value(0), k)
          && Sends(n.req, true, Id(calls[k].op), p))
  }

  ghost predicate NetInv(calls: seq<Call>, n: Net) {
    && n.emu.requests == [] && n.emu.replies == [] && n.emu.outputs == []
    && CommandStream.Inv(n.req)
    && InvPosting(calls, n)
    && Sends(n.rep, n.emu.worker.Filled?, if n.emu.worker.Filled? then n.emu.worker.id else 0, WorkerAddr(n.emu))
    && Sends(n.out, n.emu.worker.Collected?, Id(GetOutput), WorkerAddr(n.emu))
  }

  function WorkerAddr(e: State): Ptr {
    if e.worker.Idle? || e.worker.Publishing? then 0 else e.worker.addr
  }

  // ---------- Steps of the emulation over queues, seen with a hidden record ----------

  lemma HandleCommutes(mod: Module, calls: seq<Call>, e: State, q: seq<Msg>, r: seq<Msg>, o: seq<Msg>, hidden: set<Ptr>)
    requires e.worker.Got? && 0 <= e.worker.id < ID_LAST && e.worker.addr in e.heap && e.worker.addr !in hidden
    ensures SeenOver(HandleStep(mod, e), q, r, o, hidden) == Step(mod, calls, SeenOver(e, q, r, o, hidden), Handle)
    ensures Kept(e, HandleStep(mod, e), hidden)
  {
    var s, t := SeenOver(e, q, r, o, hidden), HandleStep(mod, e);
    assert t.heap - hidden == HandleStep(mod, s).heap;
  }

  lemma CollectCommutes(mod: Module, calls: seq<Call>, e: State, q: seq<Msg>, r: seq<Msg>, o: seq<Msg>,
                        hidden: set<Ptr>)
    requires e.worker.Invoked? && e.worker.addr in e.heap && e.worker.addr !in hidden
    ensures SeenOver(CollectStep(mod, e), q, r, o, hidden) == Step(mod, calls, SeenOver(e, q, r, o, hidden), Collect)
    ensures Kept(e, CollectStep(mod, e), hidden)
  {
    var s, t := SeenOver(e, q, r, o, hidden), CollectStep(mod, e);
    assert t.heap - hidden == CollectStep(mod, s).heap;
  }

  lemma QueueCommutes(mod: Module, calls: seq<Call>, e: State, queued: bool, q: seq<Msg>, r: seq<Msg>, o: seq<Msg>,
                      hidden: set<Ptr>)
    requires e.worker.Collected? && e.worker.addr in e.heap && e.worker.addr !in hidden
    requires e.heap[e.worker.addr].args.Tensor?
    requires e.outputs == []
    ensures var t := QueueStep(e, queued).(outputs := []);
            var o' := if queued then o + [Msg(Id(GetOutput), e.worker.addr)] else o;
            && SeenOver(t, q, r, o', hidden) == Step(mod, calls, SeenOver(e, q, r, o, hidden), Queue(queued))
            && Kept(e, t, hidden)
  {
    var s, t := SeenOver(e, q, r, o, hidden), QueueStep(e, queued);
    assert t.heap - hidden == QueueStep(s, queued).heap;
  }

  lemma TakeCommutes(mod: Module, calls: seq<Call>, e: State, q: seq<Msg>, r: seq<Msg>, o: seq<Msg>, hidden: set<Ptr>)
    requires o != [] && o[0].addr in e.heap && o[0].addr !in hidden
    ensures SeenOver(TakeRecord(e, o[0]), q, r, o[1..], hidden) ==
            Step(mod, calls, SeenOver(e, q, r, o, hidden), TakeOutput)
    ensures Kept(e, TakeRecord(e, o[0]), hidden) && TakeRecord(e, o[0]).worker == e.worker
  {
    var s, t := SeenOver(e, q, r, o, hidden), TakeRecord(e, o[0]);
    assert t.heap - hidden == TakeRecord(s.(outputs := o[1..]), o[0]).heap;
  }

  lemma AnswerCommutes(mod: Module, calls: seq<Call>, e: State, q: seq<Msg>, r: seq<Msg>, o: seq<Msg>)
    requires r != [] && e.client.Waiting?
    ensures SeenOver(TakeReply(e, r[0]), q, r[1..], o, {}) == Step(mod, calls, SeenOver(e, q, r, o, {}), RecvReply)
    ensures TakeReply(e, r[0]).worker == e.worker
  {
    var t := TakeReply(e, r[0]);
    assert e.heap - {} == e.heap && t.heap - {} == t.heap;
  }

  lemma SendCommutes(mod: Module, calls: seq<Call>, e: State, addr: Ptr, q: seq<Msg>, r: seq<Msg>, o: seq<Msg>)
    requires e.client.Ready? && e.log.issued < |calls|
    requires addr in e.heap && e.heap[addr] == Rec(calls[e.log.issued].args, Value(0), e.log.issued)
    ensures SeenOver(Requested(calls, e, addr), q + [Msg(Id(calls[e.log.issued].op), addr)], r, o, {}) ==
            Step(mod, calls, SeenOver(e, q, r, o, {addr}), Send(addr))
  {
    var s, k := SeenOver(e, q, r, o, {addr}), e.log.issued;
    assert s.heap[addr := Rec(calls[k].args, Value(0), k)] == e.heap == e.heap - {};
  }

  lemma ReceiveCommutes(mod: Module, calls: seq<Call>, e: State, q: seq<Msg>, r: seq<Msg>, o: seq<Msg>,
                        hidden: set<Ptr>)
    requires q != [] && e.worker.Idle?
    ensures SeenOver(e.(worker := Got(q[0].id, q[0].addr)), q[1..], r, o, hidden) ==
            Step(mod, calls, SeenOver(e, q, r, o, hidden), Receive)
  {
  }

  lemma ReplyCommutes(mod: Module, calls: seq<Call>, e: State, q: seq<Msg>, r: seq<Msg>, o: seq<Msg>, hidden: set<Ptr>)
    requires e.worker.Filled?
    ensures SeenOver(e.(worker := Idle), q, r + [Msg(e.worker.id, e.worker.addr)], o, hidden) ==
            Step(mod, calls, SeenOver(e, q, r, o, hidden), SendReply)
  {
  }

  lemma PublishCommutes(mod: Module, calls: seq<Call>, e: State, written: bool, q: seq<Msg>, r: seq<Msg>, o: seq<Msg>,
                        hidden: set<Ptr>)
    requires e.worker.Publishing? && e.log.outcomes != []
    ensures SeenOver(PublishStep(e, written), q, r, o, hidden) ==
            Step(mod, calls, SeenOver(e, q, r, o, hidden), Publish(written))
    ensures Kept(e, PublishStep(e, written), hidden)
  {
  }

  // ---------- The invariant of the channels ----------

  /** Neither the client's side nor the queues change, nor a record that is hidden. */
  ghost predicate Kept(e: State, t: State, hidden: set<Ptr>) {
    && t.requests == e.requests && t.replies == e.replies && t.outputs == e.outputs
    && t.client == e.client && t.log.issued == e.log.issued
    && (forall p :: p in hidden && p in e.heap ==> p in t.heap && t.heap[p] == e.heap[p])
  }

  /** Steps that touch no channel. */
  lemma ChannelsUntouched(calls: seq<Call>, n: Net, t: Net)
    requires NetInv(calls, n) && t == n.(emu := t.emu) && Kept(n.emu, t.emu, Hidden(n))
    requires !n.emu.worker.Filled? && !n.emu.worker.Collected?
    ensures NetInv(calls, t)
  {
  }

  /** The state of a sender is kept. */
  ghost predicate SameSender(c: Stream, t: Stream) {
    && CommandStream.Inv(c) && CommandStream.Inv(t) && t.sender == c.sender
    && (!c.sender.NotSending? ==> CommandStream.BeingSent(t) == CommandStream.BeingSent(c))
  }

  lemma AnswersRead(calls: seq<Call>, n: Net, t: Net)
    requires NetInv(calls, n) && t == n.(rep := t.rep, emu := t.emu) && SameSender(n.rep, t.rep)
    requires n.posting.None? && t.emu.worker == n.emu.worker
    requires t.emu.requests == [] && t.emu.replies == [] && t.emu.outputs == []
    ensures NetInv(calls, t)
  {
  }

  lemma OutputsRead(calls: seq<Call>, n: Net, t: Net)
    requires NetInv(calls, n) && t == n.(out := t.out, emu := t.emu) && SameSender(n.out, t.out)
    requires Kept(n.emu, t.emu, Hidden(n)) && t.emu.worker == n.emu.worker
    ensures NetInv(calls, t)
  {
  }

  lemma AnswerSent(calls: seq<Call>, n: Net, t: Net)
    requires NetInv(calls, n) && t == n.(rep := t.rep, emu := n.emu.(worker := Idle)) && n.emu.worker.Filled?
    requires CommandStream.Inv(t.rep) && t.rep.sender.NotSending?
    ensures NetInv(calls, t)
  {
  }

  /** A write that leaves its Send to go on. */
  ghost predicate StillSending(c: Stream, t: Stream) {
    && CommandStream.Inv(c) && CommandStream.Inv(t) && !c.sender.NotSending? && !t.sender.NotSending?
    && CommandStream.BeingSent(t) == CommandStream.BeingSent(c)
  }

  // ---------- Every step is a step of the emulation over queues, or none ----------

  lemma MsgsSnoc(c: Stream, t: Stream, cmd: CommandStream.Command)
    requires CommandStream.Waiting(t) == CommandStream.Waiting(c) + [cmd]
    ensures Msgs(t) == Msgs(c) + [MsgOf(cmd)]
  {
  }

  lemma MsgsTail(c: Stream, t: Stream)
    requires CommandStream.Waiting(c) != [] && CommandStream.Waiting(t) == CommandStream.Waiting(c)[1..]
    ensures Msgs(c) != [] && Msgs(t) == Msgs(c)[1..] && Msgs(c)[0] == MsgOf(CommandStream.Waiting(c)[0])
  {
  }

  lemma MsgsSame(c: Stream, t: Stream)
    requires CommandStream.Waiting(t) == CommandStream.Waiting(c)
    ensures Msgs(t) == Msgs(c)
  {
  }

  /** What a write does, that is not the end of a failed Send. */
  lemma WasWritten(c: Stream, io: IO)
    requires CommandStream.Inv(c) && CommandStream.Enabled(c, io) && IsWrite(io) && !SendProgress(c, io).Ends?
    ensures var t := CommandStream.Step(c, io);
            && CommandStream.Inv(t) && !c.sender.NotSending?
            && if SendProgress(c, io).Completes? then
                 t.sender.NotSending? && Msgs(t) == Msgs(c) + [MsgOf(CommandStream.BeingSent(c))]
               else StillSending(c, t) && Msgs(t) == Msgs(c)
  {
    var t := CommandStream.Step(c, io);
    CommandStream.WriteMoves(c, io);
    if SendProgress(c, io).Completes? {
      MsgsSnoc(c, t, CommandStream.BeingSent(c));
    } else {
      MsgsSame(c, t);
    }
  }

  /** What a read does, unless it gives up inside an address. */
  lemma WasRead(c: Stream, io: IO)
    requires CommandStream.Inv(c) && CommandStream.Enabled(c, io) && IsRead(io) && !CommandStream.GivesUpInside(c, io)
    ensures var t := CommandStream.Step(c, io);
            && SameSender(c, t)
            && match Arrived(c, io)
               case Some(m) => Msgs(c) != [] && m == Msgs(c)[0] && Msgs(t) == Msgs(c)[1..]
               case None => Msgs(t) == Msgs(c)
  {
    var t := CommandStream.Step(c, io);
    if CommandStream.Fails(c, io) {
      CommandStream.FailureMovesNothing(c, io);
      MsgsSame(c, t);
    } else {
      CommandStream.ReadMoves(c, io);
      if |t.received| > |c.received| {
        MsgsTail(c, t);
      } else {
        MsgsSame(c, t);
      }
    }
  }

  /** `t` is what the emulation over queues is after no or one step from `s`. */
  ghost predicate Follows(mod: Module, calls: seq<Call>, s: State, t: State) {
    t == s || exists a :: t == Step(mod, calls, s, a)
  }

  lemma RequestBegun(calls: seq<Call>, n: Net, t: Net, addr: Ptr)
    requires NetInv(calls, n) && n.posting.None? && n.emu.client.Ready? && n.emu.log.issued < |calls|
    requires t == n.(req := t.req, emu := Prepared(calls, n.emu, addr), posting := Some(addr))
    requires !t.req.sender.NotSending? && Sends(t.req, true, Id(calls[n.emu.log.issued].op), addr)
    ensures NetInv(calls, t)
  {
  }

  lemma BeginRefines(mod: Module, calls: seq<Call>, n: Net, a: NetAction)
    requires NetInv(calls, n) && a.Begin? && NetEnabled(calls, n, a)
    ensures var t := NetStep(mod, calls, n, a); NetInv(calls, t) && Abs(t) == Abs(n)
  {
    var t, k := NetStep(mod, calls, n, a), n.emu.log.issued;
    CommandStream.AllocateMoves(n.req, CommandStream.Command(Id(calls[k].op), a.addr), a.cmd);
    RequestBegun(calls, n, t, a.addr);
    MsgsSame(n.req, t.req);
    assert Abs(t).heap == Abs(n).heap;
  }

  lemma RequestSent(calls: seq<Call>, n: Net, t: Net)
    requires NetInv(calls, n) && n.posting.Some? && n.emu.log.issued < |calls|
    requires t == n.(req := t.req, emu := Requested(calls, n.emu, n.posting.value), posting := None)
    requires CommandStream.Inv(t.req) && t.req.sender.NotSending?
    ensures NetInv(calls, t)
  {
  }

  lemma RequestGoesOn(calls: seq<Call>, n: Net, t: Net)
    requires NetInv(calls, n) && t == n.(req := t.req) && StillSending(n.req, t.req)
    ensures NetInv(calls, t)
  {
  }

  lemma SendRequestRefines(mod: Module, calls: seq<Call>, n: Net, io: IO)
    requires NetInv(calls, n) && NetEnabled(calls, n, SendRequest(io))
    requires !CommandStream.Fails(n.req, io)
    ensures var t := SendRequestStep(calls, n, io);
            && NetInv(calls, t) && Follows(mod, calls, Abs(n), Abs(t))
            && (SendProgress(n.req, io).Completes? ==> Abs(t) == Step(mod, calls, Abs(n), Send(n.posting.value)))
  {
    var t, p := SendRequestStep(calls, n, io), n.posting.value;
    WasWritten(n.req, io);
    if SendProgress(n.req, io).Completes? {
      RequestSent(calls, n, t);
      SendCommutes(mod, calls, n.emu, p, Msgs(n.req), Msgs(n.rep), Msgs(n.out));
      assert Abs(t) == Step(mod, calls, Abs(n), Send(p));
    } else {
      RequestGoesOn(calls, n, t);
    }
  }

  lemma RecvRequestRefines(mod: Module, calls: seq<Call>, n: Net, io: IO)
    requires NetInv(calls, n) && NetEnabled(calls, n, RecvRequest(io))
    requires !CommandStream.GivesUpInside(n.req, io)
    ensures var t := RecvRequestStep(n, io);
            && NetInv(calls, t) && Follows(mod, calls, Abs(n), Abs(t))
            && (Arrived(n.req, io).Some? ==> Abs(t) == Step(mod, calls, Abs(n), Receive))
  {
    var t := RecvRequestStep(n, io);
    WasRead(n.req, io);
    if Arrived(n.req, io).Some? {
      ReceiveCommutes(mod, calls, n.emu, Msgs(n.req), Msgs(n.rep), Msgs(n.out), Hidden(n));
      assert Abs(t) == Step(mod, calls, Abs(n), Receive);
    }
  }

  /** The record that the worker is at is live, and not the hidden one. */
  lemma WorkerHolds(mod: Module, calls: seq<Call>, s: State)
    requires Program(calls) && Core(mod, calls, s)
    requires s.worker.Got? || s.worker.Invoked? || s.worker.Collected?
    ensures s.worker.addr in s.heap
    ensures s.worker.Got? ==> 0 <= s.worker.id < ID_LAST
    ensures s.worker.Collected? ==> s.heap[s.worker.addr].args.Tensor?
  {
    if !s.worker.Collected? {
      assert Holds(calls, s, s.worker.addr, Taken(s) - 1);
      assert WellTyped(calls[Taken(s) - 1]);
    }
  }

  lemma HandleRefines(mod: Module, calls: seq<Call>, n: Net)
    requires NetInv(calls, n) && n.emu.worker.Got?
    requires n.emu.worker.addr in Abs(n).heap && 0 <= n.emu.worker.id < ID_LAST
    ensures var t := n.(emu := HandleStep(mod, n.emu));
            NetInv(calls, t) && Abs(t) == Step(mod, calls, Abs(n), Handle)
  {
    HandleCommutes(mod, calls, n.emu, Msgs(n.req), Msgs(n.rep), Msgs(n.out), Hidden(n));
    ChannelsUntouched(calls, n, n.(emu := HandleStep(mod, n.emu)));
  }

  lemma BeginReplyRefines(mod: Module, calls: seq<Call>, n: Net, a: NetAction)
    requires NetInv(calls, n) && a.BeginReply? && NetEnabled(calls, n, a)
    ensures var t := NetStep(mod, calls, n, a); NetInv(calls, t) && Abs(t) == Abs(n)
  {
    CommandStream.AllocateMoves(n.rep, CommandStream.Command(n.emu.worker.id, n.emu.worker.addr), a.cmd);
    MsgsSame(n.rep, NetStep(mod, calls, n, a).rep);
  }

  lemma SendAnswerRefines(mod: Module, calls: seq<Call>, n: Net, io: IO)
    requires NetInv(calls, n) && NetEnabled(calls, n, SendAnswer(io))
    requires !CommandStream.Fails(n.rep, io)
    ensures var t := SendAnswerStep(n, io);
            && NetInv(calls, t) && Follows(mod, calls, Abs(n), Abs(t))
            && (SendProgress(n.rep, io).Completes? ==> Abs(t) == Step(mod, calls, Abs(n), SendReply))
  {
    var t := SendAnswerStep(n, io);
    WasWritten(n.rep, io);
    if SendProgress(n.rep, io).Completes? {
      AnswerSent(calls, n, t);
      ReplyCommutes(mod, calls, n.emu, Msgs(n.req), Msgs(n.rep), Msgs(n.out), Hidden(n));
      assert Abs(t) == Step(mod, calls, Abs(n), SendReply);
    }
  }

  lemma RecvAnswerRefines(mod: Module, calls: seq<Call>, n: Net, io: IO)
    requires NetInv(calls, n) && NetEnabled(calls, n, RecvAnswer(io))
    requires !CommandStream.Fails(n.rep, io)
    ensures var t := RecvAnswerStep(n, io);
            && NetInv(calls, t) && Follows(mod, calls, Abs(n), Abs(t))
            && (Arrived(n.rep, io).Some? ==> Abs(t) == Step(mod, calls, Abs(n), RecvReply))
  {
    var t := RecvAnswerStep(n, io);
    assert n.posting.None?;
    WasRead(n.rep, io);
    AnswersRead(calls, n, t);
    if Arrived(n.rep, io).Some? {
      AnswerCommutes(mod, calls, n.emu, Msgs(n.req), Msgs(n.rep), Msgs(n.out));
      assert Abs(t) == Step(mod, calls, Abs(n), RecvReply);
    }
  }

  lemma CollectRefines(mod: Module, calls: seq<Call>, n: Net)
    requires NetInv(calls, n) && n.emu.worker.Invoked?
    requires n.emu.worker.addr in Abs(n).heap
    ensures var t := n.(emu := CollectStep(mod, n.emu));
            NetInv(calls, t) && Abs(t) == Step(mod, calls, Abs(n), Collect)
  {
    CollectCommutes(mod, calls, n.emu, Msgs(n.req), Msgs(n.rep), Msgs(n.out), Hidden(n));
    ChannelsUntouched(calls, n, n.(emu := CollectStep(mod, n.emu)));
  }

  lemma BeginOutputRefines(mod: Module, calls: seq<Call>, n: Net, a: NetAction)
    requires NetInv(calls, n) && a.BeginOutput? && NetEnabled(calls, n, a)
    ensures var t := NetStep(mod, calls, n, a); NetInv(calls, t) && Abs(t) == Abs(n)
  {
    CommandStream.AllocateMoves(n.out, CommandStream.Command(Id(GetOutput), n.emu.worker.addr), a.cmd);
    MsgsSame(n.out, NetStep(mod, calls, n, a).out);
  }

  lemma SendOutputRefines(mod: Module, calls: seq<Call>, n: Net, io: IO)
    requires NetInv(calls, n) && NetEnabled(calls, n, SendOutput(io))
    requires n.emu.worker.addr in Abs(n).heap && n.emu.heap[n.emu.worker.addr].args.Tensor?
    requires !CommandStream.GivesUpInside(n.out, io)
    ensures var t := SendOutputStep(n, io);
            && NetInv(calls, t) && Follows(mod, calls, Abs(n), Abs(t))
            && (SendProgress(n.out, io).Completes? ==> Abs(t) == Step(mod, calls, Abs(n), Queue(true)))
            && (SendProgress(n.out, io).Ends? ==> Abs(t) == Step(mod, calls, Abs(n), Queue(false)))
  {
    var t := SendOutputStep(n, io);
    match SendProgress(n.out, io)
    case Ends =>
      CommandStream.FailureMovesNothing(n.out, io);
      MsgsSame(n.out, t.out);
      QueueCommutes(mod, calls, n.emu, false, Msgs(n.req), Msgs(n.rep), Msgs(n.out), Hidden(n));
      assert t.emu == QueueStep(n.emu, false).(outputs := []);
      assert Abs(t) == Step(mod, calls, Abs(n), Queue(false));
    case Completes =>
      WasWritten(n.out, io);
      QueueCommutes(mod, calls, n.emu, true, Msgs(n.req), Msgs(n.rep), Msgs(n.out), Hidden(n));
      assert Abs(t) == Step(mod, calls, Abs(n), Queue(true));
    case GoesOn =>
      WasWritten(n.out, io);
  }

  lemma RecvOutputRefines(mod: Module, calls: seq<Call>, n: Net, io: IO)
    requires NetInv(calls, n) && NetEnabled(calls, n, RecvOutput(io))
    requires Msgs(n.out) != [] ==> Msgs(n.out)[0].addr in Abs(n).heap
    requires !CommandStream.GivesUpInside(n.out, io)
    ensures var t := RecvOutputStep(n, io);
            && NetInv(calls, t) && Follows(mod, calls, Abs(n), Abs(t))
            && (Arrived(n.out, io).Some? ==> Abs(t) == Step(mod, calls, Abs(n), TakeOutput))
  {
    var t := RecvOutputStep(n, io);
    WasRead(n.out, io);
    if Arrived(n.out, io).Some? {
      TakeCommutes(mod, calls, n.emu, Msgs(n.req), Msgs(n.rep), Msgs(n.out), Hidden(n));
      assert Abs(t) == Step(mod, calls, Abs(n), TakeOutput);
    }
    OutputsRead(calls, n, t);
  }

  lemma PublishRefines(mod: Module, calls: seq<Call>, n: Net, written: bool)
    requires NetInv(calls, n) && NetEnabled(calls, n, PublishAnswer(written))
    ensures var t := n.(emu := PublishStep(n.emu, written));
            NetInv(calls, t) && Abs(t) == Step(mod, calls, Abs(n), Publish(written))
  {
    PublishCommutes(mod, calls, n.emu, written, Msgs(n.req), Msgs(n.rep), Msgs(n.out), Hidden(n));
    ChannelsUntouched(calls, n, n.(emu := PublishStep(n.emu, written)));
  }

  lemma ClientStepRefines(mod: Module, calls: seq<Call>, n: Net, a: NetAction)
    requires NetInv(calls, n) && Inv(mod, calls, Abs(n)) && NetEnabled(calls, n, a) && !Loses(calls, n, a)
    requires a.Begin? || a.SendRequest? || a.RecvAnswer? || a.RecvOutput?
    ensures var t := NetStep(mod, calls, n, a); NetInv(calls, t) && Follows(mod, calls, Abs(n), Abs(t))
  {
    match a
    case Begin(_, _) => BeginRefines(mod, calls, n, a);
    case SendRequest(io) => SendRequestRefines(mod, calls, n, io);
    case RecvAnswer(io) => RecvAnswerRefines(mod, calls, n, io);
    case RecvOutput(io) =>
      if Msgs(n.out) != [] {
        TakeFacts(calls, Abs(n));
      }
      RecvOutputRefines(mod, calls, n, io);
  }

  lemma WorkerStepRefines(mod: Module, calls: seq<Call>, n: Net, a: NetAction)
    requires Program(calls) && NetInv(calls, n) && Core(mod, calls, Abs(n))
    requires NetEnabled(calls, n, a) && !Loses(calls, n, a)
    requires !a.Begin? && !a.SendRequest? && !a.RecvAnswer? && !a.RecvOutput?
    ensures var t := NetStep(mod, calls, n, a); NetInv(calls, t) && Follows(mod, calls, Abs(n), Abs(t))
  {
    match a
    case RecvRequest(io) => RecvRequestRefines(mod, calls, n, io);
    case HandleRequest =>
      WorkerHolds(mod, calls, Abs(n));
      HandleRefines(mod, calls, n);
    case BeginReply(_) => BeginReplyRefines(mod, calls, n, a);
    case SendAnswer(io) => SendAnswerRefines(mod, calls, n, io);
    case CollectAnswer =>
      WorkerHolds(mod, calls, Abs(n));
      CollectRefines(mod, calls, n);
    case BeginOutput(_) => BeginOutputRefines(mod, calls, n, a);
    case SendOutput(io) =>
      WorkerHolds(mod, calls, Abs(n));
      SendOutputRefines(mod, calls, n, io);
    case PublishAnswer(written) => PublishRefines(mod, calls, n, written);
  }

  lemma StepRefines(mod: Module, calls: seq<Call>, n: Net, a: NetAction)
    requires Program(calls) && NetInv(calls, n) && Inv(mod, calls, Abs(n)) && !Loses(calls, n, a)
    ensures var t := NetStep(mod, calls, n, a); NetInv(calls, t) && Follows(mod, calls, Abs(n), Abs(t))
  {
    if NetEnabled(calls, n, a) {
      if a.Begin? || a.SendRequest? || a.RecvAnswer? || a.RecvOutput? {
        ClientStepRefines(mod, calls, n, a);
      } else {
        WorkerStepRefines(mod, calls, n, a);
      }
    }
  }

  lemma LosslessFront(mod: Module, calls: seq<Call>, front: seq<NetAction>, a: NetAction)
    requires Lossless(mod, calls, front + [a])
    ensures Lossless(mod, calls, front) && !Loses(calls, RunNet(mod, calls, front), a)
  {
    forall k | 0 <= k < |front| ensures !Loses(calls, RunNet(mod, calls, front[..k]), front[k]) {
      assert (front + [a])[..k] == front[..k] && (front + [a])[k] == front[k];
    }
    assert (front + [a])[..|front|] == front && (front + [a])[|front|] == a;
  }

  lemma NothingSent(calls: seq<Call>)
    ensures NetInv(calls, InitNet()) && Abs(InitNet()) == Init()
  {
    assert Msgs(CommandStream.Init()) == [] && Init().heap - {} == Init().heap;
  }

  lemma StepRefinesRun(mod: Module, calls: seq<Call>, n: Net, a: NetAction, s: State, queued: seq<Action>)
    requires Program(calls) && NetInv(calls, n) && !Loses(calls, n, a)
    requires Abs(n) == s == Run(mod, calls, queued)
    ensures var t := NetStep(mod, calls, n, a); NetInv(calls, t) && Follows(mod, calls, s, Abs(t))
  {
    Reachable(mod, calls, queued);
    StepRefines(mod, calls, n, a);
  }

  /** One step more of the run over queues, or none. */
  lemma OneMore(mod: Module, calls: seq<Call>, queued: seq<Action>, t: State) returns (after: seq<Action>)
    requires Follows(mod, calls, Run(mod, calls, queued), t)
    ensures Run(mod, calls, after) == t
  {
    after := queued;
    if t != Run(mod, calls, queued) {
      var b :| t == Step(mod, calls, Run(mod, calls, queued), b);
      RunSnoc(mod, calls, queued, b);
      after := queued + [b];
    }
  }

  /**
   Every run over byte channels in which no request or reply is lost to an error and no address is torn
   is a run over queues: some schedule of the emulation over queues ends in the state that its records, threads
   and commands under way make up.
   */
  lemma {:induction false} BytesRefineQueues(mod: Module, calls: seq<Call>, schedule: seq<NetAction>)
      returns (queued: seq<Action>)
    requires Program(calls) && Lossless(mod, calls, schedule)
    ensures Abs(RunNet(mod, calls, schedule)) == Run(mod, calls, queued)
    ensures NetInv(calls, RunNet(mod, calls, schedule))
  {
    if schedule == [] {
      queued := [];
      NothingSent(calls);
    } else {
      var front, a := schedule[..|schedule| - 1], schedule[|schedule| - 1];
      assert schedule == front + [a];
      LosslessFront(mod, calls, front, a);
      queued := BytesRefineQueues(mod, calls, front);
      StepRefinesRun(mod, calls, RunNet(mod, calls, front), a, Run(mod, calls, queued), queued);
      queued := OneMore(mod, calls, queued, Abs(NetStep(mod, calls, RunNet(mod, calls, front), a)));
    }
  }

  /**
   So over byte channels, too, no assertion fails, the calls are those of direct callers, and between calls no reply
   is under way, for any module that does not read what it is to write.
   */
  lemma BytesRefineDirectCalls(mod: Module, calls: seq<Call>, schedule: seq<NetAction>)
    requires Program(calls) && Lossless(mod, calls, schedule)
    ensures var n := RunNet(mod, calls, schedule); var e := n.emu;
            && !e.fault
            && (e.client.Ready? ==> CommandStream.Waiting(n.rep) == [])
            && |e.log.results| <= e.log.issued <= |calls|
            && Erased(e.history) <= Erased(Direct(calls, e.log.issued))
            && (IgnoresIncoming(mod) ==>
                  forall k :: 0 <= k < |e.log.results| ==> LikeDirect(mod, calls, e.log.results, k))
  {
    var queued := BytesRefineQueues(mod, calls, schedule);
    EmulationRefinesDirectCalls(mod, calls, queued);
    var n := RunNet(mod, calls, schedule);
    assert |Msgs(n.rep)| == |CommandStream.Waiting(n.rep)|;
  }

  /**
   And what the queues guarantee for outputs, events and records holds of the commands under way in the channels:
   outputs and events are accounted for, and every record whose address was sent has one owner.
   */
  lemma BytesCarryOutputs(mod: Module, calls: seq<Call>, schedule: seq<NetAction>)
    requires Program(calls) && Lossless(mod, calls, schedule)
    ensures var n := RunNet(mod, calls, schedule);
            && Carried(mod, calls, Abs(n)) && HeldOnce(Abs(n))
            && n.emu.heap.Keys == Abs(n).heap.Keys + Hidden(n) && Abs(n).heap.Keys !! Hidden(n)
  {
    var queued := BytesRefineQueues(mod, calls, schedule);
    EventsAndOutputs(mod, calls, queued);
    OneOwner(mod, calls, queued);
    HiddenIsLive(calls, RunNet(mod, calls, schedule));
  }

  lemma HiddenIsLive(calls: seq<Call>, n: Net)
    requires NetInv(calls, n)
    ensures n.emu.heap.Keys == Abs(n).heap.Keys + Hidden(n) && Abs(n).heap.Keys !! Hidden(n)
  {
  }
}
